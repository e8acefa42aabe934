/** How often a mutating node can apply its external effect, and what it may accept as output. */
module WorkflowEffects {
  import opened OrderedStrings
  import opened JsonValues
  import opened WorkflowTypes
  import opened WorkflowValidation
  import opened WorkflowEngine

  function Effects(a: Attempts): nat {
    a.effects
  }

  /** The node calls a registered provider that can be asked what happened to an earlier call. */
  predicate ReconcilingNode(w: World, n: Node)
    requires (n.kind, n.kindVersion) in w.rules.registry
  {
    && n.kind != "call_workflow" && n.kind != "for_each"
    && w.rules.registry[(n.kind, n.kindVersion)].risk != Read
    && w.rules.registry[(n.kind, n.kindVersion)].supportsReconcile
  }

  predicate Denies(reply: ReconcileReply) {
    reply.error.None? && !reply.reconciled && reply.output.Absent?
  }

  /** Asked again after an effect took place, reconciliation never reports that nothing happened. */
  predicate NeverDenies(w: World, n: Node, id: string, input: Raw) {
    forall attempt | 2 <= attempt <= 3 :: !Denies(w.reconcile(Invocation(id, attempt, n, input), 1))
  }

  predicate UsableInput(w: World, n: Node, input: Raw)
    requires (n.kind, n.kindVersion) in w.rules.registry
  {
    input.Doc? && w.matches(w.rules.registry[(n.kind, n.kindVersion)].inputSchema, input.value)
  }

  /** One attempt adds at most one effect, and none when reconciliation answers it. */
  lemma AttemptEffects(w: World, d: Definition, req: Request, ancestry: set<string>, depth: nat,
                       inv: Invocation, partial: bool, effects: nat)
    requires Runnable(w, d, ancestry, depth, inv.node)
    requires (inv.node.kind, inv.node.kindVersion) in w.rules.registry && ReconcilingNode(w, inv.node)
    ensures effects <= Attempt(w, d, req, ancestry, depth, inv, partial, effects).effects <= effects + 1
    ensures inv.attempt > 1 && (UsableInput(w, inv.node, inv.input) ==> !Denies(w.reconcile(inv, effects))) ==>
              Attempt(w, d, req, ancestry, depth, inv, partial, effects).effects == effects
  {
    hide Accepted;
    var descriptor := w.rules.registry[(inv.node.kind, inv.node.kindVersion)];
    var early := BeforeHandler(w, descriptor, inv, partial, effects);
    if early.None? {
      var reply := Handle(w, d, req, ancestry, depth, inv, partial, effects);
      assert effects <= reply.effects <= effects + 1;
    }
  }

  lemma {:induction false} EffectAtMostOnce(w: World, d: Definition, req: Request, ancestry: set<string>, depth: nat,
                                            n: Node, input: Raw, attempt: nat, partial: bool, effects: nat)
    requires Runnable(w, d, ancestry, depth, n) && 1 <= attempt <= 3
    requires (n.kind, n.kindVersion) in w.rules.registry && ReconcilingNode(w, n)
    requires UsableInput(w, n, input) ==> NeverDenies(w, n, req.prefix + n.id, input)
    requires effects <= 1 && (attempt == 1 ==> effects == 0)
    ensures Effects(RunAttempts(w, d, req, ancestry, depth, n, input, attempt, partial, effects)) <= 1
    decreases 3 - attempt
  {
    var id := req.prefix + n.id;
    var inv := Invocation(id, attempt, n, input);
    var result := Attempt(w, d, req, ancestry, depth, inv, partial, effects);
    if UsableInput(w, n, input) && effects == 1 {
      assert !Denies(w.reconcile(Invocation(id, attempt, n, input), 1));
    }
    AttemptEffects(w, d, req, ancestry, depth, inv, partial, effects);
    if attempt < 3 && result.AttemptErr? {
      EffectAtMostOnce(w, d, req, ancestry, depth, n, input, attempt + 1, result.partial, result.effects);
    }
  }

  /** A world in which every call takes effect and loses its reply, and health lets through only two attempts. */
  function Adversary(w: World, second: nat): World {
    w.(canceled := (_, _) => false,
       checkpoint := _ => None,
       cooldown := (_, _) => None,
       health := (_, attempt) => if attempt == 1 || attempt == second then None else Some(Other(0)),
       execute := _ => ExecuteReply(true, Absent, Some(Other(1))))
  }

  lemma DenialAppliesTwice(w: World, d: Definition, req: Request, ancestry: set<string>, depth: nat,
                           n: Node, input: Raw, second: nat)
    requires Runnable(w, d, ancestry, depth, n) && 2 <= second <= 3
    requires (n.kind, n.kindVersion) in w.rules.registry && ReconcilingNode(w, n) && UsableInput(w, n, input)
    requires Denies(w.reconcile(Invocation(req.prefix + n.id, second, n, input), 1))
    ensures Effects(RunAttempts(Adversary(w, second), d, req, ancestry, depth, n, input, 1, false, 0)) == 2
  {
    var a := Adversary(w, second);
    var id := req.prefix + n.id;
    assert Attempt(a, d, req, ancestry, depth, Invocation(id, 1, n, input), false, 0) == AttemptErr(Other(1), false, 1);
    if second == 2 {
      assert Attempt(a, d, req, ancestry, depth, Invocation(id, 2, n, input), false, 1) ==
        AttemptErr(Other(1), false, 2);
      assert Attempt(a, d, req, ancestry, depth, Invocation(id, 3, n, input), false, 2) ==
        AttemptErr(Other(0), false, 2);
      assert RunAttempts(a, d, req, ancestry, depth, n, input, 3, false, 2) == Failed(Other(0), 2);
      assert RunAttempts(a, d, req, ancestry, depth, n, input, 2, false, 1) == Failed(Other(0), 2);
    } else {
      assert Attempt(a, d, req, ancestry, depth, Invocation(id, 2, n, input), false, 1) ==
        AttemptErr(Other(0), false, 1);
      assert Attempt(a, d, req, ancestry, depth, Invocation(id, 3, n, input), false, 1) ==
        AttemptErr(Other(1), false, 2);
      assert RunAttempts(a, d, req, ancestry, depth, n, input, 3, false, 1) == Failed(Other(1), 2);
      assert RunAttempts(a, d, req, ancestry, depth, n, input, 2, false, 1) == Failed(Other(1), 2);
    }
  }

  /** The same registry, schemas and reconciliation; anything else may differ. */
  ghost predicate SameProvider(w: World, v: World) {
    v.rules == w.rules && v.matches == w.matches && v.reconcile == w.reconcile
  }

  /**
   * Whatever replies are lost, malformed, delayed or refused, a mutating node applies at most one effect
   * per execution exactly when reconciliation never denies an effect that took place.
   */
  lemma AtMostOneEffectIffNeverDenies(w: World, d: Definition, req: Request, ancestry: set<string>, depth: nat,
                                      n: Node, input: Raw)
    requires Runnable(w, d, ancestry, depth, n)
    requires (n.kind, n.kindVersion) in w.rules.registry && ReconcilingNode(w, n) && UsableInput(w, n, input)
    ensures (forall v | SameProvider(w, v) ::
               Effects(RunAttempts(v, d, req, ancestry, depth, n, input, 1, false, 0)) <= 1)
            <==> NeverDenies(w, n, req.prefix + n.id, input)
  {
    if NeverDenies(w, n, req.prefix + n.id, input) {
      forall v | SameProvider(w, v)
        ensures Effects(RunAttempts(v, d, req, ancestry, depth, n, input, 1, false, 0)) <= 1
      {
        EffectAtMostOnce(v, d, req, ancestry, depth, n, input, 1, false, 0);
      }
    } else {
      var second :| 2 <= second <= 3 && Denies(w.reconcile(Invocation(req.prefix + n.id, second, n, input), 1));
      DenialAppliesTwice(w, d, req, ancestry, depth, n, input, second);
      assert SameProvider(w, Adversary(w, second));
    }
  }

  /** An accepted output is a document that satisfies the provider's schema and the node's own. */
  lemma {:induction false} AcceptedOutputValidated(w: World, d: Definition, req: Request, ancestry: set<string>,
                                                   depth: nat, n: Node, input: Raw, attempt: nat, partial: bool,
                                                   effects: nat)
    requires Runnable(w, d, ancestry, depth, n) && 1 <= attempt <= 3 && (n.kind, n.kindVersion) in w.rules.registry
    ensures
      var a := RunAttempts(w, d, req, ancestry, depth, n, input, attempt, partial, effects);
      a.Done? ==> Validated(w, w.rules.registry[(n.kind, n.kindVersion)], n, Doc(a.output)) && a.attempt <= 3
    decreases 3 - attempt
  {
    hide Handle;
    var inv := Invocation(req.prefix + n.id, attempt, n, input);
    var result := Attempt(w, d, req, ancestry, depth, inv, partial, effects);
    if attempt < 3 && result.AttemptErr? {
      AcceptedOutputValidated(w, d, req, ancestry, depth, n, input, attempt + 1, result.partial, result.effects);
    }
  }
}
