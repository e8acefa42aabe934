/**
 * How often one execution identity applies its external effect in a whole run, nested runs included: a
 * parent that retries runs its nested workflow again from the start (engine_errors.go lines 109-172 and
 * 208-224, engine_execute_for_each.go lines 53-88).
 */
module WorkflowNestedEffects {
  import opened OrderedStrings
  import opened JsonValues
  import opened WorkflowTypes
  import opened WorkflowGraph
  import opened WorkflowValidation
  import opened WorkflowEngine
  import opened WorkflowEffects
  import opened WorkflowResume
  import opened WorkflowResumeNested

  // ---------------------------------------------------------------- counting

  /** The effects applied under an identity in a run. */
  ghost function RunEffects(w: World, d: Definition, req: Request, ancestry: set<string>, depth: nat,
                            target: string): nat
    requires Accepted(w.rules, d, ancestry, depth)
    decreases MAX_DEPTH + 1 - depth, 6, 0
  {
    NodesEffects(w, d, req, ancestry, depth, ExecutionOrder(d), NOTHING_YET, target)
  }

  ghost function NodesEffects(w: World, d: Definition, req: Request, ancestry: set<string>, depth: nat,
                              order: seq<Node>, p: Progress, target: string): nat
    requires Accepted(w.rules, d, ancestry, depth) && forall n | n in order :: n in d.nodes
    decreases MAX_DEPTH + 1 - depth, 5, |order|
  {
    if order == [] then 0
    else
      var step := StepNode(w, d, req, ancestry, depth, order[0], p);
      NodeEffects(w, d, req, ancestry, depth, order[0], p, target)
        + if step.Next? then NodesEffects(w, d, req, ancestry, depth, order[1..], step.progress, target) else 0
  }

  ghost function NodeEffects(w: World, d: Definition, req: Request, ancestry: set<string>, depth: nat,
                             n: Node, p: Progress, target: string): nat
    requires Runnable(w, d, ancestry, depth, n)
    decreases MAX_DEPTH + 1 - depth, 4, 0
  {
    var resolution := ResolveInput(w, d, n, req.input, p);
    if req.prefix + n.id in req.completed || resolution.Unresolved? then 0
    else AttemptsEffects(w, d, req, ancestry, depth, n, resolution.input, 1, false, 0, target)
  }

  /** The effects of the attempts from one on, each adding those of its handler if the handler runs. */
  ghost function AttemptsEffects(w: World, d: Definition, req: Request, ancestry: set<string>, depth: nat,
                                 n: Node, input: Raw, attempt: nat, partial: bool, effects: nat, target: string): nat
    requires Runnable(w, d, ancestry, depth, n) && 1 <= attempt <= 3
    decreases MAX_DEPTH + 1 - depth, 3, 3 - attempt
  {
    if !Begins(w, req, n, attempt) then 0
    else
      var inv := Invocation(req.prefix + n.id, attempt, n, input);
      var here := if Handled(w, inv, partial, effects) then HandlerEffects(w, d, req, ancestry, depth, inv, target)
        else 0;
      var result := Attempt(w, d, req, ancestry, depth, inv, partial, effects);
      here + if Retried(w, req, n, attempt, result)
        then AttemptsEffects(w, d, req, ancestry, depth, n, input, attempt + 1, result.partial, result.effects, target)
          else 0
  }

  /** The attempt is neither canceled nor refused by its first checkpoint. */
  predicate Begins(w: World, req: Request, n: Node, attempt: nat) {
    !w.canceled(req.prefix + n.id, attempt) && w.checkpoint(StepEvent(req.prefix + n.id, StepRunning, attempt)).None?
  }

  /** Nothing answers the attempt before its handler. */
  predicate Handled(w: World, inv: Invocation, partial: bool, effects: nat) {
    && (inv.node.kind, inv.node.kindVersion) in w.rules.registry
    && BeforeHandler(w, w.rules.registry[(inv.node.kind, inv.node.kindVersion)], inv, partial, effects).None?
  }

  /** The attempt failed and another one follows. */
  predicate Retried(w: World, req: Request, n: Node, attempt: nat, result: AttemptResult) {
    && result.AttemptErr? && result.error != AwaitingApproval && attempt < 3
    && w.checkpoint(StepEvent(req.prefix + n.id, StepCooldown, attempt)).None? &&
          w.cooldown(req.prefix + n.id, attempt).None?
  }

  ghost function HandlerEffects(w: World, d: Definition, req: Request, ancestry: set<string>, depth: nat,
                                inv: Invocation, target: string): nat
    requires Runnable(w, d, ancestry, depth, inv.node)
    decreases MAX_DEPTH + 1 - depth, 1, 0
  {
    RunnableFacts(w, d, ancestry, depth, inv.node);
    var child := ChildOf(w.rules, inv.node);
    if inv.node.kind == "call_workflow" then
      if child.None? then 0
      else RunEffects(w, child.value, ChildRequest(req, inv.nodeId, inv.input), ChildAncestry(inv.node, ancestry),
                      depth + 1, target)
    else if inv.node.kind == "for_each" then
      match PrepareItems(w, inv.node, inv.input)
      case NoItems(_) => 0
      case Items(items, _) => ItemsEffects(w, d, req, ancestry, depth, inv, items, target)
    else if inv.nodeId == target && w.execute(inv).applied then 1 else 0
  }

  ghost function ItemsEffects(w: World, d: Definition, req: Request, ancestry: set<string>, depth: nat,
                              inv: Invocation, items: seq<Json>, target: string): nat
    requires Runnable(w, d, ancestry, depth, inv.node) && ChildOf(w.rules, inv.node).Some?
    decreases MAX_DEPTH + 1 - depth, 0, |items|
  {
    if items == [] then 0
    else
      RunnableFacts(w, d, ancestry, depth, inv.node);
      var k := |items| - 1;
      ItemsEffects(w, d, req, ancestry, depth, inv, items[..k], target)
        + RunEffects(w, ChildOf(w.rules, inv.node).value, ItemRequest(req, inv.nodeId, k, items[k]),
                     ChildAncestry(inv.node, ancestry), depth + 1, target)
  }

  predicate Nesting(n: Node) {
    n.kind == "call_workflow" || n.kind == "for_each"
  }

  // -------------------------------------------------------- a node of its own

  lemma AttemptAdds(w: World, d: Definition, req: Request, ancestry: set<string>, depth: nat, inv: Invocation,
                    partial: bool, effects: nat)
    requires Runnable(w, d, ancestry, depth, inv.node) && !Nesting(inv.node)
    ensures
      Attempt(w, d, req, ancestry, depth, inv, partial, effects).effects
        == effects + (if Handled(w, inv, partial, effects) then
                      HandlerEffects(w, d, req, ancestry, depth, inv, inv.nodeId) else 0)
  {
    hide Accepted;
    RunnableFacts(w, d, ancestry, depth, inv.node);
  }

  /** For a provider's own node the count is the one its attempts keep. */
  lemma {:induction false} OwnEffects(w: World, d: Definition, req: Request, ancestry: set<string>, depth: nat,
                                      n: Node, input: Raw, attempt: nat, partial: bool, effects: nat)
    requires Runnable(w, d, ancestry, depth, n) && 1 <= attempt <= 3 && !Nesting(n)
    ensures
      Effects(RunAttempts(w, d, req, ancestry, depth, n, input, attempt, partial, effects))
        == effects + AttemptsEffects(w, d, req, ancestry, depth, n, input, attempt, partial, effects, req.prefix + n.id)
    decreases 3 - attempt
  {
    hide Accepted, Attempt, Handled, HandlerEffects;
    var inv := Invocation(req.prefix + n.id, attempt, n, input);
    AttemptAdds(w, d, req, ancestry, depth, inv, partial, effects);
    var result := Attempt(w, d, req, ancestry, depth, inv, partial, effects);
    if Begins(w, req, n, attempt) && Retried(w, req, n, attempt, result) {
      OwnEffects(w, d, req, ancestry, depth, n, input, attempt + 1, result.partial, result.effects);
    }
  }

  // ------------------------------------------------------------ a nesting node

  /** How many attempts come to run the handler. */
  ghost function TimesHandled(w: World, d: Definition, req: Request, ancestry: set<string>, depth: nat,
                              n: Node, input: Raw, attempt: nat, partial: bool, effects: nat): nat
    requires Runnable(w, d, ancestry, depth, n) && 1 <= attempt <= 3
    decreases 3 - attempt
  {
    if !Begins(w, req, n, attempt) then 0
    else
      var inv := Invocation(req.prefix + n.id, attempt, n, input);
      var result := Attempt(w, d, req, ancestry, depth, inv, partial, effects);
      (if Handled(w, inv, partial, effects) then 1 else 0)
        + if Retried(w, req, n, attempt, result)
          then TimesHandled(w, d, req, ancestry, depth, n, input, attempt + 1, result.partial, result.effects) else 0
  }

  lemma {:induction false} SameItemsEffects(w: World, d: Definition, req: Request, ancestry: set<string>, depth: nat,
                                            a: Invocation, b: Invocation, items: seq<Json>, target: string)
    requires a.nodeId == b.nodeId && a.node == b.node
    requires Runnable(w, d, ancestry, depth, a.node) && ChildOf(w.rules, a.node).Some?
    ensures ItemsEffects(w, d, req, ancestry, depth, a, items, target) ==
      ItemsEffects(w, d, req, ancestry, depth, b, items, target)
    decreases |items|
  {
    hide Accepted, RunEffects;
    if items != [] { SameItemsEffects(w, d, req, ancestry, depth, a, b, items[..|items| - 1], target); }
  }

  /** Whichever attempt runs it, a nesting node's handler applies the same effects again. */
  lemma SameHandlerEffects(w: World, d: Definition, req: Request, ancestry: set<string>, depth: nat, n: Node,
                           input: Raw, attempt: nat, target: string)
    requires Runnable(w, d, ancestry, depth, n) && Nesting(n)
    ensures HandlerEffects(w, d, req, ancestry, depth, Invocation(req.prefix + n.id, attempt, n, input), target)
         == HandlerEffects(w, d, req, ancestry, depth, Invocation(req.prefix + n.id, 1, n, input), target)
  {
    hide Accepted, RunEffects;
    RunnableFacts(w, d, ancestry, depth, n);
    if n.kind == "for_each" && PrepareItems(w, n, input).Items? {
      SameItemsEffects(w, d, req, ancestry, depth, Invocation(req.prefix + n.id, attempt, n, input),
                       Invocation(req.prefix + n.id, 1, n, input), PrepareItems(w, n, input).items, target);
    }
  }

  /** The effects below a nesting node: those of one run of its handler, as often as an attempt runs it. */
  lemma {:induction false} NestedEffects(w: World, d: Definition, req: Request, ancestry: set<string>, depth: nat,
                                         n: Node, input: Raw, attempt: nat, partial: bool, effects: nat, target: string)
    requires Runnable(w, d, ancestry, depth, n) && Nesting(n) && 1 <= attempt <= 3
    ensures
      AttemptsEffects(w, d, req, ancestry, depth, n, input, attempt, partial, effects, target)
        == TimesHandled(w, d, req, ancestry, depth, n, input, attempt, partial, effects)
           * HandlerEffects(w, d, req, ancestry, depth, Invocation(req.prefix + n.id, 1, n, input), target)
    decreases 3 - attempt
  {
    hide Accepted, HandlerEffects, Attempt;
    SameHandlerEffects(w, d, req, ancestry, depth, n, input, attempt, target);
    var once := HandlerEffects(w, d, req, ancestry, depth, Invocation(req.prefix + n.id, 1, n, input), target);
    var inv := Invocation(req.prefix + n.id, attempt, n, input);
    var result := Attempt(w, d, req, ancestry, depth, inv, partial, effects);
    if Begins(w, req, n, attempt) && Retried(w, req, n, attempt, result) {
      NestedEffects(w, d, req, ancestry, depth, n, input, attempt + 1, result.partial, result.effects, target);
      var rest := TimesHandled(w, d, req, ancestry, depth, n, input, attempt + 1, result.partial, result.effects);
      OnceMore(rest, once);
    }
  }

  lemma OnceMore(n: nat, once: nat)
    ensures (1 + n) * once == once + n * once
  {
  }

  // ------------------------------------------------------------ main results

  /** Nothing but its replies keeps a node from running its three attempts. */
  predicate Unhindered(w: World, req: Request, n: Node, input: Raw) {
    && (n.kind, n.kindVersion) in w.rules.registry && UsableInput(w, n, input)
    && (w.rules.registry[(n.kind, n.kindVersion)].risk == Read ||
        !w.rules.registry[(n.kind, n.kindVersion)].supportsReconcile)
    && forall attempt | 1 <= attempt <= 3 :: Unhurt(w, req, n, attempt)
  }

  predicate Unhurt(w: World, req: Request, n: Node, attempt: nat) {
    && Begins(w, req, n, attempt) && w.health(req.prefix + n.id, attempt).None?
    && w.checkpoint(StepEvent(req.prefix + n.id, StepCooldown, attempt)).None? &&
          w.cooldown(req.prefix + n.id, attempt).None?
  }

  /** The reply ends the attempts: it is accepted, or asks for approval. */
  predicate Settles(w: World, n: Node, reply: Reply)
    requires (n.kind, n.kindVersion) in w.rules.registry
  {
    match Accept(w, w.rules.registry[(n.kind, n.kindVersion)], n, reply, false)
    case AttemptOk(_, _, _, _) => true
    case AttemptErr(e, _, _) => e == AwaitingApproval
  }

  /** Unhindered, an attempt runs the handler and gives what its first reply gives. */
  lemma UnhurtAttempt(w: World, d: Definition, req: Request, ancestry: set<string>, depth: nat, n: Node, input: Raw,
                      attempt: nat, partial: bool, effects: nat)
    requires Runnable(w, d, ancestry, depth, n) && Nesting(n) && 1 <= attempt <= 3 && Unhindered(w, req, n, input)
    ensures
      var inv := Invocation(req.prefix + n.id, attempt, n, input);
      var first := Handle(w, d, req, ancestry, depth, Invocation(req.prefix + n.id, 1, n, input), false, 0);
      var result := Attempt(w, d, req, ancestry, depth, inv, partial, effects);
      && Begins(w, req, n, attempt) && Handled(w, inv, partial, effects)
      && (Retried(w, req, n, attempt, result) <==> attempt < 3 && !Settles(w, n, first))
  {
    hide Accepted, Handle;
    RunnableFacts(w, d, ancestry, depth, n);
    HandlerIsSame(w, d, req, ancestry, depth, n, input, attempt, partial, effects);
    assert Unhurt(w, req, n, attempt);
  }

  lemma {:induction false} UnhinderedTimes(w: World, d: Definition, req: Request, ancestry: set<string>, depth: nat,
                                           n: Node, input: Raw,
                                           attempt: nat, partial: bool, effects: nat)
    requires Runnable(w, d, ancestry, depth, n) && Nesting(n) && 1 <= attempt <= 3 && Unhindered(w, req, n, input)
    requires (n.kind, n.kindVersion) in w.rules.registry
    ensures
      TimesHandled(w, d, req, ancestry, depth, n, input, attempt, partial, effects)
        == if Settles(w, n, Handle(w, d, req, ancestry, depth, Invocation(req.prefix + n.id, 1, n, input), false,
                                   0)) then 1 else 4 - attempt
    decreases 3 - attempt
  {
    hide Accepted, Handle, Attempt, Settles, Begins, Handled, Retried, Unhindered;
    UnhurtAttempt(w, d, req, ancestry, depth, n, input, attempt, partial, effects);
    var inv := Invocation(req.prefix + n.id, attempt, n, input);
    var result := Attempt(w, d, req, ancestry, depth, inv, partial, effects);
    if Retried(w, req, n, attempt, result) {
      UnhinderedTimes(w, d, req, ancestry, depth, n, input, attempt + 1, result.partial, result.effects);
    }
  }

  /**
   * When nothing hinders a nesting node's attempts, an identity below it applies at most one effect exactly
   * when one run of the handler applies none, or applies one and its reply settles the node.
   */
  lemma NestedAtMostOneIff(w: World, d: Definition, req: Request, ancestry: set<string>, depth: nat, n: Node,
                           input: Raw, target: string)
    requires Runnable(w, d, ancestry, depth, n) && Nesting(n) && Unhindered(w, req, n, input)
    requires (n.kind, n.kindVersion) in w.rules.registry
    ensures
      var inv := Invocation(req.prefix + n.id, 1, n, input);
      var once := HandlerEffects(w, d, req, ancestry, depth, inv, target);
      && (AttemptsEffects(w, d, req, ancestry, depth, n, input, 1, false, 0, target) <= 1
          <==> (once == 0 || (once == 1 && Settles(w, n, Handle(w, d, req, ancestry, depth, inv, false, 0)))))
  {
    hide Accepted, Handle, HandlerEffects, AttemptsEffects, TimesHandled, Settles, Unhindered;
    NestedEffects(w, d, req, ancestry, depth, n, input, 1, false, 0, target);
    UnhinderedTimes(w, d, req, ancestry, depth, n, input, 1, false, 0);
  }
}
