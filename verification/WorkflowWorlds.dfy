/**
 * Which effects a nested identity can have in every world with the same rules, schemas and reconciliation:
 * a run depends on the answers given below its own prefix only, so an adversary can change the others.
 */
module WorkflowWorlds {
  import opened OrderedStrings
  import opened JsonValues
  import opened WorkflowTypes
  import opened WorkflowGraph
  import opened WorkflowValidation
  import opened WorkflowEngine
  import opened WorkflowEffects
  import opened WorkflowAccounting
  import opened WorkflowResume
  import opened WorkflowResumeNested
  import opened WorkflowNestedEffects

  /** The same rules, schemas, paths, messages and reconciliation; everything else may answer differently. */
  ghost predicate SameSetting(v: World, w: World) {
    && v.rules == w.rules && v.matches == w.matches && v.path == w.path && v.message == w.message
    && v.reconcile == w.reconcile
  }

  /** The two answer alike under the identities of a set. */
  ghost predicate AgreeOn(v: World, w: World, ids: iset<string>) {
    && SameSetting(v, w)
    && (forall id, attempt | id in ids :: v.canceled(id, attempt) == w.canceled(id, attempt))
    && (forall id, attempt | id in ids :: v.cooldown(id, attempt) == w.cooldown(id, attempt))
    && (forall id, attempt | id in ids :: v.health(id, attempt) == w.health(id, attempt))
    && (forall id, index | id in ids :: v.itemCheckpoint(id, index) == w.itemCheckpoint(id, index))
    && (forall e: StepEvent | e.nodeId in ids :: v.checkpoint(e) == w.checkpoint(e))
    && (forall inv: Invocation | inv.nodeId in ids :: v.execute(inv) == w.execute(inv))
  }

  predicate Is(t: string, id: string) {
    t == id
  }

  predicate Below(t: string, prefix: string) {
    prefix <= t
  }

  /** Every identity that starts with the prefix. */
  ghost predicate HoldsBelow(ids: iset<string>, prefix: string) {
    forall t: string | Below(t, prefix) :: t in ids
  }

  /** A node's own identity and those of the runs nested in it. */
  ghost predicate HoldsNode(ids: iset<string>, id: string) {
    id in ids && HoldsBelow(ids, id + ".")
  }

  lemma PrefixHoldsNode(ids: iset<string>, prefix: string, id: string)
    requires HoldsBelow(ids, prefix)
    ensures HoldsNode(ids, prefix + id)
  {
    assert Below(prefix + id, prefix);
    forall t: string | Below(t, prefix + id + ".") ensures t in ids {
      assert prefix <= prefix + id + "." <= t && Below(t, prefix);
    }
  }

  lemma BelowHolds(ids: iset<string>, prefix: string, more: string)
    requires HoldsBelow(ids, prefix) && prefix <= more
    ensures HoldsBelow(ids, more)
  {
    forall t: string | Below(t, more) ensures t in ids { assert Below(t, prefix); }
  }

  ghost predicate SameItemCheckpoints(v: World, w: World, id: string) {
    forall index :: v.itemCheckpoint(id, index) == w.itemCheckpoint(id, index)
  }

  // ------------------------------------------------------------------ frames

  /** A run and its effects depend on the answers below its prefix only. */
  lemma {:induction false} RunDepends(v: World, w: World, ids: iset<string>, d: Definition, req: Request,
                                      ancestry: set<string>, depth: nat, target: string)
    requires AgreeOn(v, w, ids) && HoldsBelow(ids, req.prefix) && Accepted(w.rules, d, ancestry, depth)
    ensures Execute(v, d, req, ancestry, depth) == Execute(w, d, req, ancestry, depth)
    ensures RunEffects(v, d, req, ancestry, depth, target) == RunEffects(w, d, req, ancestry, depth, target)
    decreases MAX_DEPTH + 1 - depth, 6, 0
  {
    OrderCoversDefinition(w.rules, d, ancestry, depth);
    NodesDepend(v, w, ids, d, req, ancestry, depth, ExecutionOrder(d), NOTHING_YET, target);
  }

  lemma {:induction false} NodesDepend(v: World, w: World, ids: iset<string>, d: Definition, req: Request,
                                       ancestry: set<string>, depth: nat, order: seq<Node>, p: Progress, target: string)
    requires AgreeOn(v, w, ids) && HoldsBelow(ids, req.prefix) && Accepted(w.rules, d, ancestry, depth)
    requires forall n | n in order :: n in d.nodes
    ensures RunNodes(v, d, req, ancestry, depth, order, p) == RunNodes(w, d, req, ancestry, depth, order, p)
    ensures NodesEffects(v, d, req, ancestry, depth, order, p, target)
         == NodesEffects(w, d, req, ancestry, depth, order, p, target)
    decreases MAX_DEPTH + 1 - depth, 5, |order|
  {
    hide Accepted, StepNode, NodeEffects, AgreeOn, HoldsBelow, HoldsNode;
    SameRules(v, w, ids);
    if order != [] {
      PrefixHoldsNode(ids, req.prefix, order[0].id);
      NodeDepends(v, w, ids, d, req, ancestry, depth, order[0], p, target);
      var step := StepNode(w, d, req, ancestry, depth, order[0], p);
      if step.Next? { NodesDepend(v, w, ids, d, req, ancestry, depth, order[1..], step.progress, target); }
    }
  }

  lemma SameRules(v: World, w: World, ids: iset<string>)
    requires AgreeOn(v, w, ids)
    ensures v.rules == w.rules && SameSetting(v, w)
  {
  }

  lemma {:induction false} NodeDepends(v: World, w: World, ids: iset<string>, d: Definition, req: Request,
                                       ancestry: set<string>, depth: nat, n: Node, p: Progress, target: string)
    requires AgreeOn(v, w, ids) && HoldsNode(ids, req.prefix + n.id) && Runnable(w, d, ancestry, depth, n)
    ensures StepNode(v, d, req, ancestry, depth, n, p) == StepNode(w, d, req, ancestry, depth, n, p)
    ensures NodeEffects(v, d, req, ancestry, depth, n, p, target)
         == NodeEffects(w, d, req, ancestry, depth, n, p, target)
    decreases MAX_DEPTH + 1 - depth, 4, 0
  {
    hide Accepted, RunAttempts, AttemptsEffects, HoldsBelow, ResolveInput;
    ResolvesSame(v, w, d, n, req.input, p);
    var resolution := ResolveInput(w, d, n, req.input, p);
    if resolution.Resolved? {
      AttemptsDepend(v, w, ids, d, req, ancestry, depth, n, resolution.input, 1, false, 0, target);
    }
  }

  /** Inputs are resolved by paths alone. */
  lemma ResolvesSame(v: World, w: World, d: Definition, n: Node, runInput: Raw, p: Progress)
    requires v.path == w.path
    ensures ResolveInput(v, d, n, runInput, p) == ResolveInput(w, d, n, runInput, p)
  {
    BindingsSame(v, w, d, n, runInput, p, 0, map[]);
    var bound := BindingFields(w, d, n, runInput, p, 0, map[]);
    if bound.Fields? { EdgesSame(v, w, d, n, p, 0, bound.values); }
  }

  lemma {:induction false} BindingsSame(v: World, w: World, d: Definition, n: Node, runInput: Raw, p: Progress, i: nat,
                                        acc: map<string, Json>)
    requires v.path == w.path && i <= |n.inputs|
    ensures BindingFields(v, d, n, runInput, p, i, acc) == BindingFields(w, d, n, runInput, p, i, acc)
    decreases |n.inputs| - i
  {
    if i < |n.inputs| {
      var (name, b) := n.inputs[i];
      if b.sourceNode != "" {
        var port := Upstream(w, d, n, p, b.sourceNode, b.sourcePort);
        if port.Port? { BindingsSame(v, w, d, n, runInput, p, i + 1, acc[name := port.value]); }
      } else if b.inputPath != "" {
        if runInput.Doc? && w.path(runInput.value, b.inputPath).Some? {
          BindingsSame(v, w, d, n, runInput, p, i + 1, acc[name := w.path(runInput.value, b.inputPath).value]);
        }
      } else {
        BindingsSame(v, w, d, n, runInput, p, i + 1, acc[name := if b.literal.Some? then b.literal.value else JNull]);
      }
    }
  }

  lemma {:induction false} EdgesSame(v: World, w: World, d: Definition, n: Node, p: Progress, i: nat,
                                     acc: map<string, Json>)
    requires v.path == w.path && i <= |d.edges|
    ensures EdgeFields(v, d, n, p, i, acc) == EdgeFields(w, d, n, p, i, acc)
    decreases |d.edges| - i
  {
    if i < |d.edges| {
      var e := d.edges[i];
      if e.target != n.id {
        EdgesSame(v, w, d, n, p, i + 1, acc);
      } else {
        var port := Upstream(w, d, n, p, e.source, e.sourcePort);
        if port.Port? { EdgesSame(v, w, d, n, p, i + 1, acc[e.targetPort := port.value]); }
      }
    }
  }

  lemma {:induction false} AttemptsDepend(v: World, w: World, ids: iset<string>, d: Definition, req: Request,
                                          ancestry: set<string>, depth: nat, n: Node, input: Raw, attempt: nat,
                                          partial: bool, effects: nat, target: string)
    requires AgreeOn(v, w, ids) && HoldsNode(ids, req.prefix + n.id) && Runnable(w, d, ancestry, depth, n)
    requires 1 <= attempt <= 3
    ensures RunAttempts(v, d, req, ancestry, depth, n, input, attempt, partial, effects)
         == RunAttempts(w, d, req, ancestry, depth, n, input, attempt, partial, effects)
    ensures AttemptsEffects(v, d, req, ancestry, depth, n, input, attempt, partial, effects, target)
         == AttemptsEffects(w, d, req, ancestry, depth, n, input, attempt, partial, effects, target)
    decreases MAX_DEPTH + 1 - depth, 3, 3 - attempt
  {
    hide Accepted, Handle, HandlerEffects, HoldsBelow;
    var inv := Invocation(req.prefix + n.id, attempt, n, input);
    HandleDepends(v, w, ids, d, req, ancestry, depth, inv, partial, effects, target);
    var result := Attempt(w, d, req, ancestry, depth, inv, partial, effects);
    assert Attempt(v, d, req, ancestry, depth, inv, partial, effects) == result;
    assert Handled(v, inv, partial, effects) == Handled(w, inv, partial, effects);
    assert Begins(v, req, n, attempt) == Begins(w, req, n, attempt);
    assert Retried(v, req, n, attempt, result) == Retried(w, req, n, attempt, result);
    if attempt < 3 && result.AttemptErr? {
      AttemptsDepend(v, w, ids, d, req, ancestry, depth, n, input, attempt + 1, result.partial, result.effects, target);
    }
  }

  lemma {:induction false} HandleDepends(v: World, w: World, ids: iset<string>, d: Definition, req: Request,
                                         ancestry: set<string>, depth: nat, inv: Invocation, partial: bool,
                                         effects: nat, target: string)
    requires AgreeOn(v, w, ids) && Runnable(w, d, ancestry, depth, inv.node) && HoldsBelow(ids, inv.nodeId + ".")
    requires !Nesting(inv.node) ==> inv.nodeId in ids
    requires SameItemCheckpoints(v, w, inv.nodeId)
    ensures Handle(v, d, req, ancestry, depth, inv, partial, effects)
         == Handle(w, d, req, ancestry, depth, inv, partial, effects)
    ensures HandlerEffects(v, d, req, ancestry, depth, inv, target)
         == HandlerEffects(w, d, req, ancestry, depth, inv, target)
    decreases MAX_DEPTH + 1 - depth, 1, 0
  {
    hide Accepted, Execute, RunEffects, HoldsBelow;
    RunnableFacts(w, d, ancestry, depth, inv.node);
    var child := ChildOf(w.rules, inv.node);
    if inv.node.kind == "call_workflow" && child.Some? {
      RunDepends(v, w, ids, child.value, ChildRequest(req, inv.nodeId, inv.input), ChildAncestry(inv.node, ancestry),
                 depth + 1, target);
    } else if inv.node.kind == "for_each" {
      var prepared := PrepareItems(w, inv.node, inv.input);
      assert PrepareItems(v, inv.node, inv.input) == prepared;
      if prepared.Items? { ItemsDepend(v, w, ids, d, req, ancestry, depth, inv, prepared.items, target); }
    }
  }

  lemma {:induction false} ItemsDepend(v: World, w: World, ids: iset<string>, d: Definition, req: Request,
                                       ancestry: set<string>, depth: nat, inv: Invocation, items: seq<Json>,
                                       target: string)
    requires AgreeOn(v, w, ids) && Runnable(w, d, ancestry, depth, inv.node) && HoldsBelow(ids, inv.nodeId + ".")
    requires ChildOf(w.rules, inv.node).Some? && SameItemCheckpoints(v, w, inv.nodeId)
    ensures ItemResults(v, d, req, ancestry, depth, inv, items) == ItemResults(w, d, req, ancestry, depth, inv, items)
    ensures ItemsEffects(v, d, req, ancestry, depth, inv, items, target)
         == ItemsEffects(w, d, req, ancestry, depth, inv, items, target)
    decreases MAX_DEPTH + 1 - depth, 0, |items|
  {
    hide Accepted, Execute, RunEffects, HoldsBelow;
    if items != [] {
      RunnableFacts(w, d, ancestry, depth, inv.node);
      var k := |items| - 1;
      var itemReq := ItemRequest(req, inv.nodeId, k, items[k]);
      assert inv.nodeId + "." <= itemReq.prefix;
      BelowHolds(ids, inv.nodeId + ".", itemReq.prefix);
      RunDepends(v, w, ids, ChildOf(w.rules, inv.node).value, itemReq, ChildAncestry(inv.node, ancestry), depth + 1,
                 target);
      ItemsDepend(v, w, ids, d, req, ancestry, depth, inv, items[..k], target);
    }
  }

  // --------------------------------------------------------------- adversaries

  /** Under one identity every provider call takes effect and loses its reply, and every later checkpoint fails. */
  function Hostile(v: World, id: string): World {
    v.(canceled := (i: string, attempt: nat) => if i == id then false else v.canceled(i, attempt),
       checkpoint := (e: StepEvent) =>
         if e.nodeId != id then v.checkpoint(e) else if e.state == StepRunning then None else Some(Other(0)),
       health := (i: string, attempt: nat) => if i == id then None else v.health(i, attempt),
       execute := (inv: Invocation) =>
         if inv.nodeId == id then ExecuteReply(true, Absent, Some(Other(0))) else v.execute(inv))
  }

  /** Under one identity nothing gets in the way. */
  function Friendly(v: World, id: string): World {
    v.(canceled := (i: string, attempt: nat) => if i == id then false else v.canceled(i, attempt),
       checkpoint := (e: StepEvent) => if e.nodeId == id then None else v.checkpoint(e),
       cooldown := (i: string, attempt: nat) => if i == id then None else v.cooldown(i, attempt),
       health := (i: string, attempt: nat) => if i == id then None else v.health(i, attempt))
  }

  /** Every identity but one. */
  ghost function Others(id: string): iset<string> {
    iset t: string | !Is(t, id)
  }

  /** The identities outside a node and the runs nested in it. */
  ghost function Beyond(id: string): iset<string> {
    iset t: string | !Is(t, id) && !Below(t, id + ".")
  }

  ghost function Outside(prefix: string): iset<string> {
    iset t: string | !Below(t, prefix)
  }

  lemma TurnedAgree(v: World, id: string)
    ensures AgreeOn(Hostile(v, id), v, Others(id)) && AgreeOn(Friendly(v, id), v, Others(id))
    ensures HoldsBelow(Others(id), id + ".")
  {
    forall t: string | Below(t, id + ".") ensures t in Others(id) { assert |t| > |id|; }
  }

  lemma AgreeFewer(v: World, w: World, ids: iset<string>, fewer: iset<string>)
    requires AgreeOn(v, w, ids) && fewer <= ids
    ensures AgreeOn(v, w, fewer)
  {
  }

  lemma AgreeThrough(u: World, v: World, w: World, ids: iset<string>)
    requires AgreeOn(u, v, ids) && AgreeOn(v, w, ids)
    ensures AgreeOn(u, w, ids)
  {
  }

  /** An effect below a node means that its handler ran, on usable input. */
  lemma {:induction false} ReachedHandler(w: World, d: Definition, req: Request, ancestry: set<string>, depth: nat,
                                          n: Node, input: Raw, attempt: nat, partial: bool, effects: nat,
                                          target: string)
    requires Runnable(w, d, ancestry, depth, n) && 1 <= attempt <= 3 && (n.kind, n.kindVersion) in w.rules.registry
    requires AttemptsEffects(w, d, req, ancestry, depth, n, input, attempt, partial, effects, target) >= 1
    ensures UsableInput(w, n, input)
    ensures !Nesting(n) ==> target == req.prefix + n.id
    decreases 3 - attempt
  {
    hide Accepted, Attempt;
    var inv := Invocation(req.prefix + n.id, attempt, n, input);
    if !(Handled(w, inv, partial, effects) && HandlerEffects(w, d, req, ancestry, depth, inv, target) >= 1) {
      var result := Attempt(w, d, req, ancestry, depth, inv, partial, effects);
      ReachedHandler(w, d, req, ancestry, depth, n, input, attempt + 1, result.partial, result.effects, target);
    }
  }

  /** Under a hostile identity a node that has an effect halts its run after it. */
  lemma HostileHalts(v: World, d: Definition, req: Request, ancestry: set<string>, depth: nat, n: Node, p: Progress,
                     input: Raw, target: string)
    requires Runnable(v, d, ancestry, depth, n) && (n.kind, n.kindVersion) in v.rules.registry
    requires req.prefix + n.id !in req.completed && ResolveInput(v, d, n, req.input, p) == Resolved(input)
    requires UsableInput(v, n, input)
    requires
      var inv := Invocation(req.prefix + n.id, 1, n, input);
      var w := Hostile(v, req.prefix + n.id);
      && HandlerEffects(w, d, req, ancestry, depth, inv, target) >= 1
      && Handle(w, d, req, ancestry, depth, inv, false, 0).error != Some(AwaitingApproval)
    ensures
      var w := Hostile(v, req.prefix + n.id);
      var step := StepNode(w, d, req, ancestry, depth, n, p);
      && step.Halt? && step.run.result.error == Some(Other(0))
      && NodeEffects(w, d, req, ancestry, depth, n, p, target) >= 1
  {
    hide Accepted, Handle, HandlerEffects, ResolveInput;
    var w := Hostile(v, req.prefix + n.id);
    var inv := Invocation(req.prefix + n.id, 1, n, input);
    RunnableFacts(w, d, ancestry, depth, n);
    ResolvesSame(w, v, d, n, req.input, p);
    assert BeforeHandler(w, w.rules.registry[(n.kind, n.kindVersion)], inv, false, 0).None?;
    var result := Attempt(w, d, req, ancestry, depth, inv, false, 0);
    assert result.AttemptErr? ==> result.error != AwaitingApproval;
    var attempts := RunAttempts(w, d, req, ancestry, depth, n, input, 1, false, 0);
    assert result.AttemptOk? ==> attempts.Done?;
    assert result.AttemptErr? ==> attempts == Stopped(RunFailed, Other(0), result.effects);
    assert AttemptsEffects(w, d, req, ancestry, depth, n, input, 1, false, 0, target) >= 1;
  }

  // ------------------------------------------------- identities kept apart

  /** No node of the definition, or of any run nested in it, has a dot in its identifier. */
  ghost predicate Undotted(rules: Rules, d: Definition, ancestry: set<string>, depth: nat)
    requires Accepted(rules, d, ancestry, depth)
    decreases MAX_DEPTH + 1 - depth
  {
    forall n | n in d.nodes ::
      && '.' !in n.id
      && (ChildAccepted(rules, d, n, ancestry, depth);
          ChildOf(rules, n).Some? ==> Undotted(rules, ChildOf(rules, n).value, ChildAncestry(n, ancestry), depth + 1))
  }

  function UpToDot(s: string): string {
    if s == "" || s[0] == '.' then "" else [s[0]] + UpToDot(s[1..])
  }

  lemma {:induction false} FirstSegment(a: string, rest: string)
    requires '.' !in a && (rest == "" || rest[0] == '.')
    ensures UpToDot(a + rest) == a
  {
    if a == "" {
      assert a + rest == rest;
    } else {
      assert (a + rest)[1..] == a[1..] + rest;
      FirstSegment(a[1..], rest);
    }
  }

  /** The identities of a node and of what is nested in it name the node after the prefix. */
  predicate InFamily(prefix: string, a: string, t: string) {
    t == prefix + a || prefix + a + "." <= t
  }

  lemma FamilyNamesNode(prefix: string, a: string, t: string)
    requires '.' !in a && InFamily(prefix, a, t)
    ensures |prefix| <= |t| && UpToDot(t[|prefix|..]) == a
  {
    var rest := t[|prefix| + |a|..];
    assert t[|prefix|..] == a + rest;
    if prefix + a + "." <= t { assert t[|prefix| + |a|] == (prefix + a + ".")[|prefix| + |a|] == '.'; }
    FirstSegment(a, rest);
  }

  lemma FamilyBeyond(prefix: string, a: string, b: string, t: string)
    requires '.' !in a && '.' !in b && a != b && InFamily(prefix, a, t)
    ensures t in Beyond(prefix + b)
  {
    FamilyNamesNode(prefix, a, t);
    if !InFamily(prefix, b, t) {
      assert !Is(t, prefix + b) && !Below(t, prefix + b + ".");
    } else {
      FamilyNamesNode(prefix, b, t);
      assert false;
    }
  }

  /** Without dots the identities of two nodes and of what is nested in them never meet. */
  lemma FamiliesApart(prefix: string, a: string, b: string)
    requires '.' !in a && '.' !in b && a != b
    ensures HoldsNode(Beyond(prefix + b), prefix + a)
  {
    FamilyBeyond(prefix, a, b, prefix + a);
    forall t: string | Below(t, prefix + a + ".") ensures t in Beyond(prefix + b) {
      FamilyBeyond(prefix, a, b, t);
    }
  }

  lemma OutsideBeyond(prefix: string, id: string)
    ensures Outside(prefix) <= Beyond(prefix + id)
  {
    forall t | t in Outside(prefix) ensures t in Beyond(prefix + id) {
      assert prefix <= prefix + id <= prefix + id + ".";
      assert Below(t, prefix + id + ".") ==> Below(t, prefix);
      assert Is(t, prefix + id) ==> Below(t, prefix);
    }
  }

  lemma BeyondOthers(id: string)
    ensures Beyond(id) <= Others(id) && Beyond(id) <= Outside(id + ".")
  {
    forall t | t in Beyond(id) ensures t in Others(id) && t in Outside(id + ".") {
      assert !Is(t, id) && !Below(t, id + ".");
    }
  }

  // ---------------------------------------------------- turning a whole run

  /** Where an effect takes place in one world, another lets it take place and then halts the run with an error. */
  lemma {:induction false} RunTurned(v: World, d: Definition, req: Request, ancestry: set<string>, depth: nat,
                                     target: string)
    returns (w: World)
    requires Accepted(v.rules, d, ancestry, depth) && Undotted(v.rules, d, ancestry, depth)
    requires RunEffects(v, d, req, ancestry, depth, target) >= 1
    ensures AgreeOn(w, v, Outside(req.prefix))
    ensures Execute(w, d, req, ancestry, depth).result.error == Some(Other(0))
    ensures RunEffects(w, d, req, ancestry, depth, target) >= 1
    decreases MAX_DEPTH + 1 - depth, 4, 0
  {
    OrderCoversDefinition(v.rules, d, ancestry, depth);
    var root: string;
    w, root := NodesTurned(v, d, req, ancestry, depth, ExecutionOrder(d), NOTHING_YET, target);
    OutsideBeyond(req.prefix, root);
    AgreeFewer(w, v, Beyond(req.prefix + root), Outside(req.prefix));
  }

  lemma {:induction false} NodesTurned(v: World, d: Definition, req: Request, ancestry: set<string>, depth: nat,
                                       order: seq<Node>, p: Progress, target: string)
    returns (w: World, root: string)
    requires Accepted(v.rules, d, ancestry, depth) && Undotted(v.rules, d, ancestry, depth)
    requires (forall n | n in order :: n in d.nodes) && UniqueIds(order)
    requires NodesEffects(v, d, req, ancestry, depth, order, p, target) >= 1
    ensures root in NodeIds(order) && AgreeOn(w, v, Beyond(req.prefix + root))
    ensures RunNodes(w, d, req, ancestry, depth, order, p).result.error == Some(Other(0))
    ensures NodesEffects(w, d, req, ancestry, depth, order, p, target) >= 1
    decreases MAX_DEPTH + 1 - depth, 3, |order|
  {
    hide Accepted, StepNode, NodeEffects, AgreeOn, Undotted, Beyond, HoldsNode;
    var n := order[0];
    assert order == [n] + order[1..];
    if NodeEffects(v, d, req, ancestry, depth, n, p, target) >= 1 {
      w := NodeTurned(v, d, req, ancestry, depth, n, p, target);
      root := n.id;
      SameRules(w, v, Beyond(req.prefix + root));
    } else {
      var step := StepNode(v, d, req, ancestry, depth, n, p);
      w, root := NodesTurned(v, d, req, ancestry, depth, order[1..], step.progress, target);
      SameRules(w, v, Beyond(req.prefix + root));
      var m :| m in order[1..] && m.id == root;
      var k :| 0 <= k < |order[1..]| && order[1..][k] == m;
      assert order[k + 1] == m && n.id != root;
      NoDots(v.rules, d, ancestry, depth, n);
      NoDots(v.rules, d, ancestry, depth, m);
      FamiliesApart(req.prefix, n.id, root);
      NodeDepends(w, v, Beyond(req.prefix + root), d, req, ancestry, depth, n, p, target);
    }
  }

  lemma NoDots(rules: Rules, d: Definition, ancestry: set<string>, depth: nat, n: Node)
    requires Accepted(rules, d, ancestry, depth) && Undotted(rules, d, ancestry, depth) && n in d.nodes
    ensures '.' !in n.id
    ensures ChildOf(rules, n).Some? ==>
      && depth < MAX_DEPTH && Accepted(rules, ChildOf(rules, n).value, ChildAncestry(n, ancestry), depth + 1)
      && Undotted(rules, ChildOf(rules, n).value, ChildAncestry(n, ancestry), depth + 1)
  {
    hide Accepted, ChildOf;
    ChildAccepted(rules, d, n, ancestry, depth);
  }

  lemma SelfAgree(v: World, ids: iset<string>)
    ensures AgreeOn(v, v, ids)
  {
  }

  /** A for_each fails on its own account only. */
  lemma NeverAwaits(v: World, d: Definition, req: Request, ancestry: set<string>, depth: nat, inv: Invocation)
    requires Runnable(v, d, ancestry, depth, inv.node) && inv.node.kind == "for_each"
    ensures Handle(v, d, req, ancestry, depth, inv, false, 0).error != Some(AwaitingApproval)
  {
    hide Accepted;
  }

  /** The same for the run a node starts: its handler fails after the effect. */
  lemma {:induction false} ChildTurned(v: World, d: Definition, req: Request, ancestry: set<string>, depth: nat,
                                       inv: Invocation, target: string)
    returns (w: World)
    requires Runnable(v, d, ancestry, depth, inv.node) && Undotted(v.rules, d, ancestry, depth)
    requires inv.node.kind == "call_workflow" && HandlerEffects(v, d, req, ancestry, depth, inv, target) >= 1
    ensures AgreeOn(w, v, Outside(inv.nodeId + "."))
    ensures v.rules == w.rules && HandlerEffects(w, d, req, ancestry, depth, inv, target) >= 1
    ensures Handle(w, d, req, ancestry, depth, inv, false, 0).error == Some(Other(0))
    decreases MAX_DEPTH + 1 - depth, 1, 0
  {
    hide Accepted, Execute, RunEffects, AgreeOn, Undotted;
    RunnableFacts(v, d, ancestry, depth, inv.node);
    NoDots(v.rules, d, ancestry, depth, inv.node);
    w := RunTurned(v, ChildOf(v.rules, inv.node).value, ChildRequest(req, inv.nodeId, inv.input),
                   ChildAncestry(inv.node, ancestry), depth + 1, target);
    SameRules(w, v, Outside(inv.nodeId + "."));
  }

  /** Under a hostile identity the handler still has its effect and does not ask for approval. */
  lemma HostileHandles(u: World, d: Definition, req: Request, ancestry: set<string>, depth: nat, inv: Invocation,
                       target: string)
    requires Runnable(u, d, ancestry, depth, inv.node)
    requires Nesting(inv.node) ==>
      && HandlerEffects(u, d, req, ancestry, depth, inv, target) >= 1
      && Handle(u, d, req, ancestry, depth, inv, false, 0).error != Some(AwaitingApproval)
    requires !Nesting(inv.node) ==> target == inv.nodeId
    ensures HandlerEffects(Hostile(u, inv.nodeId), d, req, ancestry, depth, inv, target) >= 1
    ensures Handle(Hostile(u, inv.nodeId), d, req, ancestry, depth, inv, false, 0).error != Some(AwaitingApproval)
  {
    hide Accepted, AgreeOn, HoldsBelow, Others, Execute, RunEffects;
    TurnedAgree(u, inv.nodeId);
    if Nesting(inv.node) {
      HandleDepends(Hostile(u, inv.nodeId), u, Others(inv.nodeId), d, req, ancestry, depth, inv, false, 0, target);
    }
  }

  lemma {:induction false} NodeTurned(v: World, d: Definition, req: Request, ancestry: set<string>, depth: nat, n: Node,
                                      p: Progress, target: string)
    returns (w: World)
    requires Runnable(v, d, ancestry, depth, n) && Undotted(v.rules, d, ancestry, depth)
    requires NodeEffects(v, d, req, ancestry, depth, n, p, target) >= 1
    ensures AgreeOn(w, v, Beyond(req.prefix + n.id))
    ensures
      var step := StepNode(w, d, req, ancestry, depth, n, p);
      && step.Halt? && step.run.result.error == Some(Other(0))
      && NodeEffects(w, d, req, ancestry, depth, n, p, target) >= 1
    decreases MAX_DEPTH + 1 - depth, 2, 0
  {
    hide Accepted, AgreeOn, Undotted, Beyond, Others, Outside, HoldsBelow, AttemptsEffects, TimesHandled, StepNode,
         Execute, RunEffects, Hostile, Handle, HandlerEffects, ResolveInput;
    var id := req.prefix + n.id;
    RunnableFacts(v, d, ancestry, depth, n);
    var input := ResolveInput(v, d, n, req.input, p).input;
    ReachedHandler(v, d, req, ancestry, depth, n, input, 1, false, 0, target);
    var u := v;
    SelfAgree(v, Beyond(id));
    BeyondOthers(id);
    var inv := Invocation(id, 1, n, input);
    if Nesting(n) {
      NestedEffects(v, d, req, ancestry, depth, n, input, 1, false, 0, target);
      assert HandlerEffects(v, d, req, ancestry, depth, inv, target) >= 1;
      if n.kind == "call_workflow" {
        u := ChildTurned(v, d, req, ancestry, depth, inv, target);
        AgreeFewer(u, v, Outside(id + "."), Beyond(id));
      }
      SameRules(u, v, Beyond(id));
      if n.kind == "for_each" { NeverAwaits(u, d, req, ancestry, depth, inv); }
    }
    SameRules(u, v, Beyond(id));
    w := Hostile(u, id);
    TurnedAgree(u, id);
    HostileHandles(u, d, req, ancestry, depth, inv, target);
    ResolvesSame(u, v, d, n, req.input, p);
    HostileHalts(u, d, req, ancestry, depth, n, p, input, target);
    AgreeFewer(w, u, Others(id), Beyond(id));
    AgreeThrough(w, u, v, Beyond(id));
  }

  // ------------------------------------------------------------- main result

  /** An item that fails fails the node: a nested workflow, or a for_each that fails fast. */
  predicate PassesErrors(w: World, n: Node, input: Raw) {
    || n.kind == "call_workflow"
    || (n.kind == "for_each" && (PrepareItems(w, n, input).Items? ==> PrepareItems(w, n, input).failFast))
  }

  /** One of the items has its effect and then fails. */
  lemma {:induction false} ItemsTurned(v: World, d: Definition, req: Request, ancestry: set<string>, depth: nat,
                                       inv: Invocation, items: seq<Json>, target: string)
    returns (w: World, k: nat)
    requires Runnable(v, d, ancestry, depth, inv.node) && Undotted(v.rules, d, ancestry, depth)
    requires ChildOf(v.rules, inv.node).Some? && v.message(Other(0)) != ""
    requires ItemsEffects(v, d, req, ancestry, depth, inv, items, target) >= 1
    ensures AgreeOn(w, v, Outside(inv.nodeId + ".")) && v.rules == w.rules
    ensures ItemsEffects(w, d, req, ancestry, depth, inv, items, target) >= 1
    ensures k < |items| && ItemFailed(ItemResults(w, d, req, ancestry, depth, inv, items)[k])
    decreases |items|
  {
    hide Accepted, Execute, RunEffects, AgreeOn, Undotted, Outside;
    RunnableFacts(v, d, ancestry, depth, inv.node);
    NoDots(v.rules, d, ancestry, depth, inv.node);
    k := |items| - 1;
    var child, itemReq := ChildOf(v.rules, inv.node).value, ItemRequest(req, inv.nodeId, k, items[k]);
    if RunEffects(v, child, itemReq, ChildAncestry(inv.node, ancestry), depth + 1, target) >= 1 {
      w := RunTurned(v, child, itemReq, ChildAncestry(inv.node, ancestry), depth + 1, target);
      OutsideFewer(inv.nodeId + ".", itemReq.prefix);
      AgreeFewer(w, v, Outside(itemReq.prefix), Outside(inv.nodeId + "."));
    } else {
      w, k := ItemsTurned(v, d, req, ancestry, depth, inv, items[..k], target);
    }
    SameRules(w, v, Outside(inv.nodeId + "."));
  }

  lemma OutsideFewer(prefix: string, more: string)
    requires prefix <= more
    ensures Outside(prefix) <= Outside(more)
  {
    forall t | t in Outside(prefix) ensures t in Outside(more) {
      assert !Below(t, prefix);
      assert Below(t, more) ==> prefix <= t;
    }
  }

  /** A nesting node that passes errors on fails in some world after an effect below it. */
  lemma HandlerTurned(v: World, d: Definition, req: Request, ancestry: set<string>, depth: nat, inv: Invocation,
                      target: string)
    returns (w: World)
    requires Runnable(v, d, ancestry, depth, inv.node) && Undotted(v.rules, d, ancestry, depth)
    requires PassesErrors(v, inv.node, inv.input) && v.message(Other(0)) != ""
    requires HandlerEffects(v, d, req, ancestry, depth, inv, target) >= 1
    ensures SameSetting(w, v) && HandlerEffects(w, d, req, ancestry, depth, inv, target) >= 1
    ensures
      var error := Handle(w, d, req, ancestry, depth, inv, false, 0).error;
      error.Some? && error.value != AwaitingApproval
  {
    hide Accepted, AgreeOn, Undotted, Outside, Execute, RunEffects, ItemsEffects, ItemsDocument;
    RunnableFacts(v, d, ancestry, depth, inv.node);
    if inv.node.kind == "call_workflow" {
      w := ChildTurned(v, d, req, ancestry, depth, inv, target);
      SameRules(w, v, Outside(inv.nodeId + "."));
    } else {
      var items := PrepareItems(v, inv.node, inv.input).items;
      var k: nat;
      w, k := ItemsTurned(v, d, req, ancestry, depth, inv, items, target);
      SameRules(w, v, Outside(inv.nodeId + "."));
      assert PrepareItems(w, inv.node, inv.input) == PrepareItems(v, inv.node, inv.input);
    }
  }

  /** With nothing in the way, a nesting node whose handler fails runs it three times. */
  lemma FailingRunsThrice(u: World, d: Definition, req: Request, ancestry: set<string>, depth: nat, n: Node, input: Raw,
                          target: string)
    requires Runnable(u, d, ancestry, depth, n) && Nesting(n) && (n.kind, n.kindVersion) in u.rules.registry
    requires Unreconciled(u.rules, n) && UsableInput(u, n, input)
    requires
      var inv := Invocation(req.prefix + n.id, 1, n, input);
      var error := Handle(u, d, req, ancestry, depth, inv, false, 0).error;
      && HandlerEffects(u, d, req, ancestry, depth, inv, target) >= 1
      && error.Some? && error.value != AwaitingApproval
    ensures AttemptsEffects(Friendly(u, req.prefix + n.id), d, req, ancestry, depth, n, input, 1, false, 0, target) >= 3
  {
    hide Accepted, Handle, HandlerEffects, AttemptsEffects, TimesHandled, AgreeOn, Others, HoldsBelow;
    var id := req.prefix + n.id;
    var w := Friendly(u, id);
    var inv := Invocation(id, 1, n, input);
    TurnedAgree(u, id);
    HandleDepends(w, u, Others(id), d, req, ancestry, depth, inv, false, 0, target);
    NestedEffects(w, d, req, ancestry, depth, n, input, 1, false, 0, target);
    UnhinderedTimes(w, d, req, ancestry, depth, n, input, 1, false, 0);
  }

  predicate Unreconciled(rules: Rules, n: Node) requires (n.kind, n.kindVersion) in rules.registry {
    rules.registry[(n.kind, n.kindVersion)].risk == Read || !rules.registry[(n.kind, n.kindVersion)].supportsReconcile
  }

  /**
   * Below a nesting node that passes errors on, an identity applies at most one effect in every world exactly
   * when it applies none in any: once its provider can be reached, the run can fail after the effect.
   */
  lemma NestedAtMostOneInAllIffUnreached(w: World, d: Definition, req: Request, ancestry: set<string>, depth: nat,
                                         n: Node, input: Raw, target: string)
    requires Runnable(w, d, ancestry, depth, n) && Undotted(w.rules, d, ancestry, depth) && w.message(Other(0)) != ""
    requires (n.kind, n.kindVersion) in w.rules.registry && Unreconciled(w.rules, n) && PassesErrors(w, n, input)
    ensures
      (forall v | SameSetting(v, w) ::
         AttemptsEffects(v, d, req, ancestry, depth, n, input, 1, false, 0, target) <= 1)
      <==> (forall v | SameSetting(v, w) ::
              AttemptsEffects(v, d, req, ancestry, depth, n, input, 1, false, 0, target) == 0)
  {
    hide Accepted, Handle, HandlerEffects, AttemptsEffects, TimesHandled, Undotted, Hostile, Friendly;
    var inv := Invocation(req.prefix + n.id, 1, n, input);
    forall v | SameSetting(v, w) && AttemptsEffects(v, d, req, ancestry, depth, n, input, 1, false, 0, target) != 0
      ensures exists u :: SameSetting(u, w) &&
                AttemptsEffects(u, d, req, ancestry, depth, n, input, 1, false, 0, target) > 1
    {
      ReachedHandler(v, d, req, ancestry, depth, n, input, 1, false, 0, target);
      NestedEffects(v, d, req, ancestry, depth, n, input, 1, false, 0, target);
      assert HandlerEffects(v, d, req, ancestry, depth, inv, target) >= 1;
      var u := HandlerTurned(v, d, req, ancestry, depth, inv, target);
      FailingRunsThrice(u, d, req, ancestry, depth, n, input, target);
      FriendlySetting(u, req.prefix + n.id);
      assert SameSetting(Friendly(u, req.prefix + n.id), w);
    }
  }

  lemma FriendlySetting(u: World, id: string)
    ensures SameSetting(Friendly(u, id), u)
  {
  }
}
