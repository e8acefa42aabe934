/** Restarting from checkpoints that reach into nested runs, partial outputs included. */
module WorkflowResumeNested {
  import opened OrderedStrings
  import opened JsonValues
  import opened WorkflowTypes
  import opened WorkflowGraph
  import opened WorkflowValidation
  import opened WorkflowEngine
  import opened WorkflowEffects
  import opened WorkflowAccounting
  import opened WorkflowResume

  /**
   * Every checkpoint of a node this run reaches, here or in a nested run, holds the output the node gave,
   * partial or not.
   */
  ghost predicate LooseRun(w: World, d: Definition, req: Request, kept: Checkpoints, ancestry: set<string>, depth: nat)
    requires Accepted(w.rules, d, ancestry, depth)
    decreases MAX_DEPTH + 1 - depth, 3, 0
  {
    LooseNodes(w, d, req, kept, ancestry, depth, ExecutionOrder(d), NOTHING_YET)
  }

  ghost predicate LooseNodes(w: World, d: Definition, req: Request, kept: Checkpoints, ancestry: set<string>,
                             depth: nat, order: seq<Node>, p: Progress)
    requires Accepted(w.rules, d, ancestry, depth) && forall n | n in order :: n in d.nodes
    decreases MAX_DEPTH + 1 - depth, 2, |order|
  {
    order != [] ==>
      && LooseNode(w, d, req, kept, ancestry, depth, order[0], p)
      && var step := StepNode(w, d, req, ancestry, depth, order[0], p);
         step.Next? ==> LooseNodes(w, d, req, kept, ancestry, depth, order[1..], step.progress)
  }

  /**
   * A nested run that holds a partial checkpoint counts only if the node's output is its handler's and was
   * accepted.
   */
  ghost predicate LooseNode(w: World, d: Definition, req: Request, kept: Checkpoints, ancestry: set<string>, depth: nat,
                            n: Node, p: Progress)
    requires Runnable(w, d, ancestry, depth, n)
    decreases MAX_DEPTH + 1 - depth, 1, 0
  {
    var id := req.prefix + n.id;
    var step := StepNode(w, d, req, ancestry, depth, n, p);
    if id in kept then KeptComplete(step, n, p, kept[id]) || KeptPartial(step, n, p, kept[id])
    else
      var resolution := ResolveInput(w, d, n, req.input, p);
      resolution.Resolved? ==>
        && LooseChildren(w, d, req, kept, ancestry, depth, n, resolution.input)
        && (PartialChildren(w, d, req, kept, ancestry, depth, n, resolution.input) ==>
              HandlerAccepted(w, d, req, ancestry, depth, n, resolution.input))
  }

  ghost predicate LooseChildren(w: World, d: Definition, req: Request, kept: Checkpoints, ancestry: set<string>,
                                depth: nat, n: Node, input: Raw)
    requires Runnable(w, d, ancestry, depth, n)
    decreases MAX_DEPTH + 1 - depth, 0, 0
  {
    RunnableFacts(w, d, ancestry, depth, n);
    forall r | r in ChildRequests(w, req, n, input) ::
      LooseRun(w, ChildOf(w.rules, n).value, r, kept, ChildAncestry(n, ancestry), depth + 1)
  }

  /** The requests of the nested runs a node starts. */
  ghost function ChildRequests(w: World, req: Request, n: Node, input: Raw): (rs: seq<Request>)
    ensures rs != [] ==> ChildOf(w.rules, n).Some? && (n.kind == "call_workflow" || n.kind == "for_each")
  {
    var id := req.prefix + n.id;
    if ChildOf(w.rules, n).None? then []
    else if n.kind == "call_workflow" then [ChildRequest(req, id, input)]
    else
      match PrepareItems(w, n, input)
      case NoItems(_) => []
      case Items(items, _) => seq(|items|, k requires 0 <= k < |items| => ItemRequest(req, id, k, items[k]))
  }

  /** The output is what the handler gave, with no reconciliation to put another in its place. */
  ghost predicate HandlerAccepted(w: World, d: Definition, req: Request, ancestry: set<string>, depth: nat, n: Node,
                                  input: Raw)
    requires Runnable(w, d, ancestry, depth, n)
  {
    RunnableFacts(w, d, ancestry, depth, n);
    var descriptor := w.rules.registry[(n.kind, n.kindVersion)];
    && (descriptor.risk == Read || !descriptor.supportsReconcile)
    && RunAttempts(w, d, req, ancestry, depth, n, input, 1, false, 0).Done?
  }

  /** Some checkpoint this run reaches, here or in a nested run, is a partial output. */
  ghost predicate PartialRun(w: World, d: Definition, req: Request, kept: Checkpoints, ancestry: set<string>,
                             depth: nat)
    requires Accepted(w.rules, d, ancestry, depth)
    decreases MAX_DEPTH + 1 - depth, 3, 0
  {
    PartialNodes(w, d, req, kept, ancestry, depth, ExecutionOrder(d), NOTHING_YET)
  }

  ghost predicate PartialNodes(w: World, d: Definition, req: Request, kept: Checkpoints, ancestry: set<string>,
                               depth: nat, order: seq<Node>, p: Progress)
    requires Accepted(w.rules, d, ancestry, depth) && forall n | n in order :: n in d.nodes
    decreases MAX_DEPTH + 1 - depth, 2, |order|
  {
    order != [] &&
      (|| PartialNode(w, d, req, kept, ancestry, depth, order[0], p)
       || var step := StepNode(w, d, req, ancestry, depth, order[0], p);
          step.Next? && PartialNodes(w, d, req, kept, ancestry, depth, order[1..], step.progress))
  }

  ghost predicate PartialNode(w: World, d: Definition, req: Request, kept: Checkpoints, ancestry: set<string>,
                              depth: nat, n: Node, p: Progress)
    requires Runnable(w, d, ancestry, depth, n)
    decreases MAX_DEPTH + 1 - depth, 1, 0
  {
    var id := req.prefix + n.id;
    if id in kept then KeptPartial(StepNode(w, d, req, ancestry, depth, n, p), n, p, kept[id])
    else
      var resolution := ResolveInput(w, d, n, req.input, p);
      resolution.Resolved? && PartialChildren(w, d, req, kept, ancestry, depth, n, resolution.input)
  }

  ghost predicate PartialChildren(w: World, d: Definition, req: Request, kept: Checkpoints, ancestry: set<string>,
                                  depth: nat, n: Node, input: Raw)
    requires Runnable(w, d, ancestry, depth, n)
    decreases MAX_DEPTH + 1 - depth, 0, 0
  {
    RunnableFacts(w, d, ancestry, depth, n);
    exists r | r in ChildRequests(w, req, n, input) ::
      PartialRun(w, ChildOf(w.rules, n).value, r, kept, ChildAncestry(n, ancestry), depth + 1)
  }

  // ------------------------------------------------ without partial checkpoints

  lemma {:induction false} FaithfulIfNotPartial(w: World, d: Definition, req: Request, kept: Checkpoints,
                                                ancestry: set<string>, depth: nat)
    requires Accepted(w.rules, d, ancestry, depth) && req.completed == map[]
    requires LooseRun(w, d, req, kept, ancestry, depth) && !PartialRun(w, d, req, kept, ancestry, depth)
    ensures FaithfulRun(w, d, req, kept, ancestry, depth)
    decreases MAX_DEPTH + 1 - depth, 3, 0
  {
    NodesFaithful(w, d, req, kept, ancestry, depth, ExecutionOrder(d), NOTHING_YET);
  }

  lemma {:induction false} NodesFaithful(w: World, d: Definition, req: Request, kept: Checkpoints,
                                         ancestry: set<string>, depth: nat,
                                         order: seq<Node>, p: Progress)
    requires Accepted(w.rules, d, ancestry, depth) && (forall n | n in order :: n in d.nodes) && req.completed == map[]
    requires LooseNodes(w, d, req, kept, ancestry, depth, order, p) &&
      !PartialNodes(w, d, req, kept, ancestry, depth, order, p)
    ensures FaithfulNodes(w, d, req, kept, ancestry, depth, order, p)
    decreases MAX_DEPTH + 1 - depth, 2, |order|
  {
    hide Accepted, StepNode, FaithfulNode, LooseNode, PartialNode;
    if order != [] {
      NodeFaithful(w, d, req, kept, ancestry, depth, order[0], p);
      var step := StepNode(w, d, req, ancestry, depth, order[0], p);
      if step.Next? { NodesFaithful(w, d, req, kept, ancestry, depth, order[1..], step.progress); }
    }
  }

  lemma {:induction false} NodeFaithful(w: World, d: Definition, req: Request, kept: Checkpoints,
                                        ancestry: set<string>, depth: nat,
                                        n: Node, p: Progress)
    requires Runnable(w, d, ancestry, depth, n) && req.completed == map[]
    requires LooseNode(w, d, req, kept, ancestry, depth, n, p) && !PartialNode(w, d, req, kept, ancestry, depth, n, p)
    ensures FaithfulNode(w, d, req, kept, ancestry, depth, n, p)
    decreases MAX_DEPTH + 1 - depth, 1, 0
  {
    hide Accepted, StepNode, LooseRun, PartialRun, FaithfulRun, FaithfulChildren, HandlerAccepted;
    var resolution := ResolveInput(w, d, n, req.input, p);
    if req.prefix + n.id !in kept && resolution.Resolved? {
      ChildrenFaithful(w, d, req, kept, ancestry, depth, n, resolution.input);
    }
  }

  lemma {:induction false} ChildrenFaithful(w: World, d: Definition, req: Request, kept: Checkpoints,
                                            ancestry: set<string>, depth: nat,
                                            n: Node, input: Raw)
    requires Runnable(w, d, ancestry, depth, n) && req.completed == map[]
    requires LooseChildren(w, d, req, kept, ancestry, depth, n, input) &&
      !PartialChildren(w, d, req, kept, ancestry, depth, n, input)
    ensures FaithfulChildren(w, d, req, kept, ancestry, depth, n, input)
    decreases MAX_DEPTH + 1 - depth, 0, 0
  {
    hide Accepted, LooseRun, PartialRun, FaithfulRun;
    RunnableFacts(w, d, ancestry, depth, n);
    var rs := ChildRequests(w, req, n, input);
    forall k | 0 <= k < |rs|
      ensures FaithfulRun(w, ChildOf(w.rules, n).value, rs[k], kept, ChildAncestry(n, ancestry), depth + 1)
    {
      assert rs[k] in rs;
      FaithfulIfNotPartial(w, ChildOf(w.rules, n).value, rs[k], kept, ChildAncestry(n, ancestry), depth + 1);
    }
    if ChildOf(w.rules, n).Some? && n.kind == "call_workflow" {
      assert rs[0] == ChildRequest(req, req.prefix + n.id, input);
    }
    if ChildOf(w.rules, n).Some? && n.kind != "call_workflow" && PrepareItems(w, n, input).Items? {
      var items := PrepareItems(w, n, input).items;
      forall k | 0 <= k < |items|
        ensures FaithfulRun(w, ChildOf(w.rules, n).value, ItemRequest(req, req.prefix + n.id, k, items[k]), kept,
                            ChildAncestry(n, ancestry), depth + 1)
      {
        assert rs[k] == ItemRequest(req, req.prefix + n.id, k, items[k]);
      }
    }
  }

  // --------------------------------------------------- with partial checkpoints

  /** A run's outputs and errors are those of its maps. */
  ghost predicate SameMaps(a: Run, b: Run) {
    a.result.outputs == b.result.outputs && a.result.errors == b.result.errors
  }

  /** What is recorded stays as it is while other nodes are walked. */
  lemma {:induction false} OutputsStay(w: World, d: Definition, req: Request, ancestry: set<string>, depth: nat,
                                       order: seq<Node>, p: Progress, id: string)
    requires Accepted(w.rules, d, ancestry, depth) && (forall n | n in order :: n in d.nodes && n.id != id)
    ensures
      var run := RunNodes(w, d, req, ancestry, depth, order, p);
      && run.result.outputs == run.progress.outputs && run.result.errors == run.progress.failures
      && (id in run.progress.outputs <==> id in p.outputs)
      && (id in p.outputs ==> run.progress.outputs[id] == p.outputs[id])
      && (id in run.progress.failures <==> id in p.failures)
    decreases |order|
  {
    hide Accepted, StepNode;
    if order != [] {
      StepStays(w, d, req, ancestry, depth, order[0], p, id);
      var step := StepNode(w, d, req, ancestry, depth, order[0], p);
      if step.Next? { OutputsStay(w, d, req, ancestry, depth, order[1..], step.progress, id); }
    }
  }

  /** This outcome of a step leaves what is recorded under an identity as it was. */
  predicate Leaves(step: Step, p: Progress, id: string) {
    var p' := After(step);
    && (step.Halt? ==> step.run.result.outputs == p'.outputs && step.run.result.errors == p'.failures)
    && (id in p'.outputs <==> id in p.outputs) && (id in p.outputs ==> p'.outputs[id] == p.outputs[id])
    && (id in p'.failures <==> id in p.failures)
  }

  lemma StepStays(w: World, d: Definition, req: Request, ancestry: set<string>, depth: nat, n: Node, p: Progress,
                  id: string)
    requires Runnable(w, d, ancestry, depth, n) && n.id != id
    ensures Leaves(StepNode(w, d, req, ancestry, depth, n, p), p, id)
  {
    hide Accepted, RunAttempts, ResolveInput, Leaves, NoteFailure, NoteOutput;
    OutcomesLeave(w, n, p, id);
    var resolution := ResolveInput(w, d, n, req.input, p);
    if req.prefix + n.id in req.completed {
      var taken := req.completed[req.prefix + n.id];
      if taken.Doc? { TakenLeaves(n, p, taken.value, id); }
    } else if resolution.Resolved? {
      var a := RunAttempts(w, d, req, ancestry, depth, n, resolution.input, 1, false, 0);
      if a.Done? { OutputLeaves(w, req.prefix + n.id, n, p, a.output, a.partial, a.attempt, id); }
    }
  }

  lemma TakenLeaves(n: Node, p: Progress, output: Json, id: string)
    requires n.id != id
    ensures Leaves(Next(p.(outputs := p.outputs[n.id := output])), p, id)
  {
  }

  lemma OutcomesLeave(w: World, n: Node, p: Progress, id: string)
    requires n.id != id
    ensures forall state, e :: Leaves(Stop(state, p, e), p, id)
    ensures forall e :: Leaves(NoteFailure(w, n, p, e), p, id)
    ensures Leaves(Next(p.(skipped := p.skipped + {n.id})), p, id)
  {
  }

  lemma OutputLeaves(w: World, nodeId: string, n: Node, p: Progress, output: Json, partial: bool, attempt: nat,
                     id: string)
    requires n.id != id
    ensures Leaves(NoteOutput(w, nodeId, n, p, output, partial, attempt), p, id)
  {
  }

  /** A nested run's maps can be read off the document it is reported by. */
  lemma ResultTellsMaps(a: RunResult, b: RunResult)
    requires ResultDocument(a) == ResultDocument(b)
    ensures a.outputs == b.outputs && a.errors == b.errors
  {
    assert ResultDocument(a).fields["outputs"] == JObject(a.outputs) &&
      ResultDocument(b).fields["outputs"] == JObject(b.outputs);
    assert ResultDocument(a).fields["errors"] == Texts(a.errors) &&
      ResultDocument(b).fields["errors"] == Texts(b.errors);
    TextsTell(a.errors, b.errors);
  }

  lemma TextsTell(a: map<string, string>, b: map<string, string>)
    requires Texts(a) == Texts(b)
    ensures a == b
  {
    assert Texts(a).fields.Keys == a.Keys && Texts(b).fields.Keys == b.Keys;
    forall k | k in a ensures k in b && a[k] == b[k] {
      assert Texts(a).fields[k] == JString(a[k]);
      assert k in b;
      assert Texts(b).fields[k] == JString(b[k]);
    }
  }

  lemma ItemTellsMaps(a: ItemResult, b: ItemResult)
    requires ItemDocument(a) == ItemDocument(b)
    ensures a.outputs == b.outputs && a.errors == b.errors
  {
    ItemFields(a);
    ItemFields(b);
    if a.errors != map[] { TextsTell(a.errors, b.errors); }
  }

  lemma ItemFields(a: ItemResult)
    ensures
      var j := ItemDocument(a).fields;
      && ("outputs" in j <==> a.outputs != map[]) && (a.outputs != map[] ==> j["outputs"] == JObject(a.outputs))
      && ("errors" in j <==> a.errors != map[]) && (a.errors != map[] ==> j["errors"] == Texts(a.errors))
  {
  }

  lemma ItemsTellMaps(a: seq<ItemResult>, b: seq<ItemResult>, k: nat)
    requires ItemsDocument(a) == ItemsDocument(b) && k < |a| && k < |b|
    ensures a[k].outputs == b[k].outputs && a[k].errors == b[k].errors
  {
    var x, y := ItemsDocument(a).fields["items"], ItemsDocument(b).fields["items"];
    assert x == y && x.items[k] == ItemDocument(a[k]) && y.items[k] == ItemDocument(b[k]);
    ItemTellsMaps(a[k], b[k]);
  }

  lemma {:induction false} ItemResultAt(w: World, d: Definition, req: Request, ancestry: set<string>, depth: nat,
                                        inv: Invocation, items: seq<Json>, k: nat)
    requires Runnable(w, d, ancestry, depth, inv.node) && ChildOf(w.rules, inv.node).Some? && k < |items|
    ensures depth < MAX_DEPTH && Accepted(w.rules, ChildOf(w.rules, inv.node).value, ChildAncestry(inv.node, ancestry),
                                          depth + 1)
    ensures
      var r := Execute(w, ChildOf(w.rules, inv.node).value, ItemRequest(req, inv.nodeId, k, items[k]),
                       ChildAncestry(inv.node, ancestry), depth + 1).result;
      ItemResults(w, d, req, ancestry, depth, inv, items)[k] == ItemOf(w, inv.nodeId, k, items[k], r)
    decreases |items|
  {
    hide Accepted, Execute;
    RunnableFacts(w, d, ancestry, depth, inv.node);
    if k < |items| - 1 {
      var init := items[..|items| - 1];
      assert init[k] == items[k];
      ItemResultAt(w, d, req, ancestry, depth, inv, init, k);
    }
  }

  /** Running a nesting node's handler does not depend on the attempt. */
  lemma HandlerIsSame(w: World, d: Definition, req: Request, ancestry: set<string>, depth: nat, n: Node, input: Raw,
                      attempt: nat, partial: bool, effects: nat)
    requires Runnable(w, d, ancestry, depth, n) && (n.kind == "call_workflow" || n.kind == "for_each")
    ensures
      var a := Handle(w, d, req, ancestry, depth, Invocation(req.prefix + n.id, 1, n, input), false, 0);
      var b := Handle(w, d, req, ancestry, depth, Invocation(req.prefix + n.id, attempt, n, input), partial, effects);
      a.output == b.output && a.error == b.error && b.effects == effects
  {
    hide Accepted, Execute;
    RunnableFacts(w, d, ancestry, depth, n);
    if n.kind == "for_each" && PrepareItems(w, n, input).Items? {
      SameItems(w, d, req, ancestry, depth, Invocation(req.prefix + n.id, 1, n, input),
                Invocation(req.prefix + n.id, attempt, n, input), PrepareItems(w, n, input).items);
    }
  }

  lemma {:induction false} SameItems(w: World, d: Definition, req: Request, ancestry: set<string>, depth: nat,
                                     a: Invocation, b: Invocation, items: seq<Json>)
    requires a.nodeId == b.nodeId && a.node == b.node
    requires Runnable(w, d, ancestry, depth, a.node) && ChildOf(w.rules, a.node).Some?
    ensures ItemResults(w, d, req, ancestry, depth, a, items) == ItemResults(w, d, req, ancestry, depth, b, items)
    decreases |items|
  {
    hide Accepted, Execute;
    if items != [] { SameItems(w, d, req, ancestry, depth, a, b, items[..|items| - 1]); }
  }

  /** An accepted output of a nesting node without reconciliation is what its handler gave. */
  lemma {:induction false} DoneIsHandled(w: World, d: Definition, req: Request, ancestry: set<string>, depth: nat,
                                         n: Node, input: Raw,
                                         attempt: nat, partial: bool, effects: nat)
    requires Runnable(w, d, ancestry, depth, n) && (n.kind == "call_workflow" || n.kind == "for_each") &&
      1 <= attempt <= 3
    requires (n.kind, n.kindVersion) in w.rules.registry
    requires var descriptor := w.rules.registry[(n.kind, n.kindVersion)];
      descriptor.risk == Read || !descriptor.supportsReconcile
    ensures
      var a := RunAttempts(w, d, req, ancestry, depth, n, input, attempt, partial, effects);
      var h := Handle(w, d, req, ancestry, depth, Invocation(req.prefix + n.id, 1, n, input), false, 0);
      a.Done? ==> h.error.None? && h.output == Doc(a.output)
    decreases 3 - attempt
  {
    hide Accepted, Handle;
    var inv := Invocation(req.prefix + n.id, attempt, n, input);
    HandlerIsSame(w, d, req, ancestry, depth, n, input, attempt, partial, effects);
    var result := Attempt(w, d, req, ancestry, depth, inv, partial, effects);
    if attempt < 3 && result.AttemptErr? {
      DoneIsHandled(w, d, req, ancestry, depth, n, input, attempt + 1, result.partial, result.effects);
    }
  }

  /** A run with a partial checkpoint and the run resumed from it differ in their outputs or errors. */
  lemma {:induction false} PartialRunDiffers(w: World, d: Definition, req: Request, kept: Checkpoints,
                                             ancestry: set<string>, depth: nat)
    requires Accepted(w.rules, d, ancestry, depth) && req.completed == map[]
    requires LooseRun(w, d, req, kept, ancestry, depth) && PartialRun(w, d, req, kept, ancestry, depth)
    ensures !SameMaps(Execute(w, d, Resumed(req, kept), ancestry, depth), Execute(w, d, req, ancestry, depth))
    decreases MAX_DEPTH + 1 - depth, 3, 0
  {
    OrderCoversDefinition(w.rules, d, ancestry, depth);
    hide Accepted, RunNodes, LooseNodes, PartialNodes;
    PartialNodesDiffer(w, d, req, kept, ancestry, depth, ExecutionOrder(d), NOTHING_YET);
  }

  lemma {:induction false} PartialNodesDiffer(w: World, d: Definition, req: Request, kept: Checkpoints,
                                              ancestry: set<string>, depth: nat,
                                              order: seq<Node>, p: Progress)
    requires Accepted(w.rules, d, ancestry, depth) && req.completed == map[]
    requires (forall n | n in order :: n in d.nodes && n.id !in p.outputs && n.id !in p.failures) && UniqueIds(order)
    requires LooseNodes(w, d, req, kept, ancestry, depth, order, p) &&
      PartialNodes(w, d, req, kept, ancestry, depth, order, p)
    ensures !SameMaps(RunNodes(w, d, Resumed(req, kept), ancestry, depth, order, p),
                      RunNodes(w, d, req, ancestry, depth, order, p))
    decreases MAX_DEPTH + 1 - depth, 2, |order|
  {
    hide Accepted, StepNode, LooseNode, PartialNode;
    var n := order[0];
    if PartialNode(w, d, req, kept, ancestry, depth, n, p) {
      PartialHeadDiffers(w, d, req, kept, ancestry, depth, order, p);
    } else {
      NodeFaithful(w, d, req, kept, ancestry, depth, n, p);
      ResumeNode(w, d, req, kept, ancestry, depth, ancestry, depth, n, p);
      RestIsFresh(w, d, req, ancestry, depth, order, p);
      var step := StepNode(w, d, req, ancestry, depth, n, p);
      PartialNodesDiffer(w, d, req, kept, ancestry, depth, order[1..], step.progress);
    }
  }

  /** The nodes still to come are recorded nowhere yet. */
  lemma RestIsFresh(w: World, d: Definition, req: Request, ancestry: set<string>, depth: nat, order: seq<Node>,
                    p: Progress)
    requires Accepted(w.rules, d, ancestry, depth) && order != [] && UniqueIds(order)
    requires forall n | n in order :: n in d.nodes && n.id !in p.outputs && n.id !in p.failures
    ensures UniqueIds(order[1..])
    ensures
      var step := StepNode(w, d, req, ancestry, depth, order[0], p);
      step.Next? ==> forall n | n in order[1..] ::
        n in d.nodes && n.id !in step.progress.outputs && n.id !in step.progress.failures
    ensures forall n | n in order[1..] :: n in d.nodes && n.id != order[0].id
  {
    hide Accepted, StepNode;
    forall n | n in order[1..] ensures n in order && n.id != order[0].id {
      var k :| 0 <= k < |order[1..]| && order[1..][k] == n;
      assert order[k + 1] == n;
    }
    forall n | n in order[1..] ensures
      var step := StepNode(w, d, req, ancestry, depth, order[0], p);
      step.Next? ==> n.id !in step.progress.outputs && n.id !in step.progress.failures
    {
      StepStays(w, d, req, ancestry, depth, order[0], p, n.id);
    }
  }

  /** The output one run records for a node and what the other run records for it, or does not, stay apart. */
  lemma StayApart(w: World, d: Definition, req: Request, kept: Checkpoints, ancestry: set<string>, depth: nat,
                  order: seq<Node>, p: Progress)
    requires Accepted(w.rules, d, ancestry, depth) && order != [] && UniqueIds(order)
    requires forall n | n in order :: n in d.nodes && n.id !in p.outputs && n.id !in p.failures
    requires
      var n := order[0];
      var a, b := StepNode(w, d, Resumed(req, kept), ancestry, depth, n, p), StepNode(w, d, req, ancestry, depth, n, p);
      Apart(n.id, After(a), After(b))
    ensures !SameMaps(RunNodes(w, d, Resumed(req, kept), ancestry, depth, order, p),
                      RunNodes(w, d, req, ancestry, depth, order, p))
  {
    hide Accepted, StepNode, RunNodes;
    RestIsFresh(w, d, req, ancestry, depth, order, p);
    StepThenRest(w, d, req, ancestry, depth, order, p);
    StepThenRest(w, d, Resumed(req, kept), ancestry, depth, order, p);
  }

  /** What the node's step recorded for it is what the whole run reports for it. */
  lemma StepThenRest(w: World, d: Definition, req: Request, ancestry: set<string>, depth: nat, order: seq<Node>,
                     p: Progress)
    requires Accepted(w.rules, d, ancestry, depth) && order != [] && order[0] in d.nodes
    requires forall n | n in order[1..] :: n in d.nodes && n.id != order[0].id
    requires forall n | n in order :: n in d.nodes
    ensures
      var id := order[0].id;
      var q := After(StepNode(w, d, req, ancestry, depth, order[0], p));
      var run := RunNodes(w, d, req, ancestry, depth, order, p);
      && (id in run.result.outputs <==> id in q.outputs) &&
            (id in q.outputs ==> run.result.outputs[id] == q.outputs[id])
      && (id in run.result.errors <==> id in q.failures)
  {
    hide Accepted;
    var step := StepNode(w, d, req, ancestry, depth, order[0], p);
    if step.Next? {
      OutputsStay(w, d, req, ancestry, depth, order[1..], step.progress, order[0].id);
    } else {
      HaltReports(w, d, req, ancestry, depth, order[0], p);
    }
  }

  lemma HaltReports(w: World, d: Definition, req: Request, ancestry: set<string>, depth: nat, n: Node, p: Progress)
    requires Runnable(w, d, ancestry, depth, n)
    ensures
      var step := StepNode(w, d, req, ancestry, depth, n, p);
      step.Halt? ==>
        && step.run.result.outputs == step.run.progress.outputs
        && step.run.result.errors == step.run.progress.failures
  {
    hide Accepted, RunAttempts, ResolveInput;
  }

  function After(step: Step): Progress {
    if step.Next? then step.progress else step.run.progress
  }

  /** The two record the node differently: one fails it and the other not, or their outputs for it differ. */
  predicate Apart(id: string, p: Progress, q: Progress) {
    || (id in p.failures) != (id in q.failures)
    || (id in p.outputs) != (id in q.outputs)
    || (id in p.outputs && id in q.outputs && p.outputs[id] != q.outputs[id])
  }

  lemma {:induction false} PartialHeadDiffers(w: World, d: Definition, req: Request, kept: Checkpoints,
                                              ancestry: set<string>, depth: nat,
                                              order: seq<Node>, p: Progress)
    requires Accepted(w.rules, d, ancestry, depth) && req.completed == map[] && order != []
    requires (forall n | n in order :: n in d.nodes && n.id !in p.outputs && n.id !in p.failures) && UniqueIds(order)
    requires LooseNode(w, d, req, kept, ancestry, depth, order[0], p) &&
      PartialNode(w, d, req, kept, ancestry, depth, order[0], p)
    ensures !SameMaps(RunNodes(w, d, Resumed(req, kept), ancestry, depth, order, p),
                      RunNodes(w, d, req, ancestry, depth, order, p))
    decreases MAX_DEPTH + 1 - depth, 1, 1
  {
    hide Accepted, StepNode, RunNodes, PartialChildren, LooseChildren;
    var n := order[0];
    if req.prefix + n.id in kept {
      KeptPartialDiffers(w, d, req, kept, ancestry, depth, n, p);
    } else {
      NestedPartialDiffers(w, d, req, kept, ancestry, depth, n, p);
    }
    StayApart(w, d, req, kept, ancestry, depth, order, p);
  }

  lemma KeptPartialDiffers(w: World, d: Definition, req: Request, kept: Checkpoints, ancestry: set<string>, depth: nat,
                           n: Node, p: Progress)
    requires Runnable(w, d, ancestry, depth, n) && req.prefix + n.id in kept && n.id !in p.failures
    requires KeptPartial(StepNode(w, d, req, ancestry, depth, n, p), n, p, kept[req.prefix + n.id])
    ensures Apart(n.id, After(StepNode(w, d, Resumed(req, kept), ancestry, depth, n, p)),
                  After(StepNode(w, d, req, ancestry, depth, n, p)))
  {
    hide Accepted, StepNode;
    StepGrows(w, d, Resumed(req, kept), ancestry, depth, n, p);
  }

  lemma {:induction false} NestedPartialDiffers(w: World, d: Definition, req: Request, kept: Checkpoints,
                                                ancestry: set<string>, depth: nat,
                                                n: Node, p: Progress)
    requires Runnable(w, d, ancestry, depth, n) && req.completed == map[] && n.id !in p.outputs &&
      req.prefix + n.id !in kept
    requires LooseNode(w, d, req, kept, ancestry, depth, n, p) && PartialNode(w, d, req, kept, ancestry, depth, n, p)
    ensures Apart(n.id, After(StepNode(w, d, Resumed(req, kept), ancestry, depth, n, p)),
                  After(StepNode(w, d, req, ancestry, depth, n, p)))
    decreases MAX_DEPTH + 1 - depth, 1, 0
  {
    hide Accepted, RunAttempts, Handle, PartialRun, LooseRun;
    RunnableFacts(w, d, ancestry, depth, n);
    var input := ResolveInput(w, d, n, req.input, p).input;
    DoneIsHandled(w, d, req, ancestry, depth, n, input, 1, false, 0);
    DoneIsHandled(w, d, Resumed(req, kept), ancestry, depth, n, input, 1, false, 0);
    PartialHandlerDiffers(w, d, req, kept, ancestry, depth, n, input);
  }

  /** The handler's reply tells its nested runs apart. */
  lemma {:induction false} PartialHandlerDiffers(w: World, d: Definition, req: Request, kept: Checkpoints,
                                                 ancestry: set<string>, depth: nat,
                                                 n: Node, input: Raw)
    requires Runnable(w, d, ancestry, depth, n) && req.completed == map[]
    requires LooseChildren(w, d, req, kept, ancestry, depth, n, input) &&
      PartialChildren(w, d, req, kept, ancestry, depth, n, input)
    requires Handle(w, d, req, ancestry, depth, Invocation(req.prefix + n.id, 1, n, input), false, 0).error.None?
    ensures
      var inv := Invocation(req.prefix + n.id, 1, n, input);
      var a, b := Handle(w, d, Resumed(req, kept), ancestry, depth, inv, false, 0),
        Handle(w, d, req, ancestry, depth, inv, false, 0);
      a.error.Some? || a.output != b.output
    decreases MAX_DEPTH + 1 - depth, 0, 0
  {
    hide Accepted, Execute, PartialRun, LooseRun;
    RunnableFacts(w, d, ancestry, depth, n);
    var inv := Invocation(req.prefix + n.id, 1, n, input);
    var child := ChildOf(w.rules, n).value;
    var rs := ChildRequests(w, req, n, input);
    var k :| 0 <= k < |rs| && PartialRun(w, child, rs[k], kept, ChildAncestry(n, ancestry), depth + 1);
    assert rs[k] in rs;
    assert rs[k].completed == map[];
    PartialRunDiffers(w, child, rs[k], kept, ChildAncestry(n, ancestry), depth + 1);
    if n.kind == "call_workflow" {
      assert ChildRequest(Resumed(req, kept), inv.nodeId, input) == Resumed(rs[0], kept);
      var a := Handle(w, d, Resumed(req, kept), ancestry, depth, inv, false, 0);
      var b := Handle(w, d, req, ancestry, depth, inv, false, 0);
      if a.error.None? && a.output == b.output {
        ResultTellsMaps(Execute(w, child, Resumed(rs[0], kept), ChildAncestry(n, ancestry), depth + 1).result,
                        Execute(w, child, rs[0], ChildAncestry(n, ancestry), depth + 1).result);
      }
    } else {
      var items := PrepareItems(w, n, input).items;
      assert ItemRequest(Resumed(req, kept), inv.nodeId, k, items[k]) == Resumed(rs[k], kept);
      ItemResultAt(w, d, Resumed(req, kept), ancestry, depth, inv, items, k);
      ItemResultAt(w, d, req, ancestry, depth, inv, items, k);
      var a, b := ItemResults(w, d, Resumed(req, kept), ancestry, depth, inv, items),
        ItemResults(w, d, req, ancestry, depth, inv, items);
      if ItemsDocument(a) == ItemsDocument(b) { ItemsTellMaps(a, b, k); }
    }
  }

  /**
   * Resuming from checkpoints of an uninterrupted run, those of nested runs included, gives the same result
   * exactly when none of the checkpoints the run reaches is a partial output.
   */
  lemma ResumeEquivalentIffNoPartialAnywhere(w: World, d: Definition, req: Request, kept: Checkpoints)
    requires Accepted(w.rules, d, {}, 0) && req.completed == map[] && LooseRun(w, d, req, kept, {}, 0)
    ensures ExecuteTop(w, d, Resumed(req, kept)) == ExecuteTop(w, d, req) <==> !PartialRun(w, d, req, kept, {}, 0)
  {
    TopIsExecute(w, d, req);
    TopIsExecute(w, d, Resumed(req, kept));
    hide Accepted, Execute, LooseRun, PartialRun, ExecuteTop;
    if PartialRun(w, d, req, kept, {}, 0) {
      PartialRunDiffers(w, d, req, kept, {}, 0);
    } else {
      FaithfulIfNotPartial(w, d, req, kept, {}, 0);
      ResumeEquivalent(w, d, req, kept, {}, 0, {}, 0);
    }
  }
}
