/** Restarting a run from the outputs its checkpoints kept. */
module WorkflowResume {
  import opened OrderedStrings
  import opened JsonValues
  import opened WorkflowTypes
  import opened WorkflowGraph
  import opened WorkflowValidation
  import opened WorkflowEngine
  import opened WorkflowEffects
  import opened WorkflowAccounting

  type Checkpoints = map<string, Raw>

  /** The same request, resumed from more checkpoints. */
  function Resumed(req: Request, kept: Checkpoints): Request {
    req.(completed := kept)
  }

  ghost predicate Keeps(kept: Checkpoints, req: Request) {
    forall id | id in req.completed :: id in kept && kept[id] == req.completed[id]
  }

  /** The node ran to a complete, unpartial output, and that is the output kept for it. */
  ghost predicate KeptComplete(step: Step, n: Node, p: Progress, kept: Raw) {
    kept.Doc? && step == Next(p.(outputs := p.outputs[n.id := kept.value]))
  }

  /**
   * Every checkpoint of a node this run reaches, here or in a nested run, holds the complete
   * output the node gave in this run.
   */
  ghost predicate FaithfulRun(w: World, d: Definition, req: Request, kept: Checkpoints, ancestry: set<string>,
                              depth: nat)
    requires Accepted(w.rules, d, ancestry, depth)
    decreases MAX_DEPTH + 1 - depth, 3, 0
  {
    FaithfulNodes(w, d, req, kept, ancestry, depth, ExecutionOrder(d), NOTHING_YET)
  }

  ghost predicate FaithfulNodes(w: World, d: Definition, req: Request, kept: Checkpoints, ancestry: set<string>,
                                depth: nat, order: seq<Node>, p: Progress)
    requires Accepted(w.rules, d, ancestry, depth) && forall n | n in order :: n in d.nodes
    decreases MAX_DEPTH + 1 - depth, 2, |order|
  {
    order != [] ==>
      && FaithfulNode(w, d, req, kept, ancestry, depth, order[0], p)
      && var step := StepNode(w, d, req, ancestry, depth, order[0], p);
         step.Next? ==> FaithfulNodes(w, d, req, kept, ancestry, depth, order[1..], step.progress)
  }

  ghost predicate FaithfulNode(w: World, d: Definition, req: Request, kept: Checkpoints, ancestry: set<string>,
                               depth: nat, n: Node, p: Progress)
    requires Runnable(w, d, ancestry, depth, n)
    decreases MAX_DEPTH + 1 - depth, 1, 0
  {
    var id := req.prefix + n.id;
    if id in req.completed then true
    else if id in kept then KeptComplete(StepNode(w, d, req, ancestry, depth, n, p), n, p, kept[id])
    else
      var resolution := ResolveInput(w, d, n, req.input, p);
      resolution.Resolved? ==> FaithfulChildren(w, d, req, kept, ancestry, depth, n, resolution.input)
  }

  /** The nested runs a node starts are faithful too. */
  ghost predicate FaithfulChildren(w: World, d: Definition, req: Request, kept: Checkpoints, ancestry: set<string>,
                                   depth: nat, n: Node, input: Raw)
    requires Runnable(w, d, ancestry, depth, n)
    decreases MAX_DEPTH + 1 - depth, 0, 0
  {
    RunnableFacts(w, d, ancestry, depth, n);
    var child := ChildOf(w.rules, n);
    var id := req.prefix + n.id;
    if child.None? then true
    else if n.kind == "call_workflow" then
      FaithfulRun(w, child.value, ChildRequest(req, id, input), kept, ChildAncestry(n, ancestry), depth + 1)
    else
      match PrepareItems(w, n, input)
      case NoItems(_) => true
      case Items(items, _) =>
        forall k | 0 <= k < |items| ::
          FaithfulRun(w, child.value, ItemRequest(req, id, k, items[k]), kept, ChildAncestry(n, ancestry), depth + 1)
  }

  // ------------------------------------------------------ resume equivalence

  /**
   * Resuming from faithful checkpoints gives the run they came from: the same result and the same
   * outputs, failures, partial and skipped nodes. The nesting level plays no part in it.
   */
  lemma {:induction false} ResumeEquivalent(w: World, d: Definition, req: Request, kept: Checkpoints,
                                            ancestry: set<string>, depth: nat, ancestry': set<string>, depth': nat)
    requires Accepted(w.rules, d, ancestry, depth) && Accepted(w.rules, d, ancestry', depth')
    requires Keeps(kept, req) && FaithfulRun(w, d, req, kept, ancestry, depth)
    ensures Execute(w, d, Resumed(req, kept), ancestry', depth') == Execute(w, d, req, ancestry, depth)
    decreases MAX_DEPTH + 1 - depth, 6, 0
  {
    OrderCoversDefinition(w.rules, d, ancestry, depth);
    ResumeNodes(w, d, req, kept, ancestry, depth, ancestry', depth', ExecutionOrder(d), NOTHING_YET);
  }

  lemma {:induction false} ResumeNodes(w: World, d: Definition, req: Request, kept: Checkpoints,
                                       ancestry: set<string>, depth: nat, ancestry': set<string>, depth': nat,
                                       order: seq<Node>, p: Progress)
    requires Accepted(w.rules, d, ancestry, depth) && Accepted(w.rules, d, ancestry', depth')
    requires (forall n | n in order :: n in d.nodes && n.id !in p.outputs) && UniqueIds(order)
    requires Keeps(kept, req) && FaithfulNodes(w, d, req, kept, ancestry, depth, order, p)
    ensures RunNodes(w, d, Resumed(req, kept), ancestry', depth', order, p) ==
      RunNodes(w, d, req, ancestry, depth, order, p)
    decreases MAX_DEPTH + 1 - depth, 5, |order|
  {
    hide Accepted, StepNode, FaithfulNode;
    if order != [] {
      ResumeNode(w, d, req, kept, ancestry, depth, ancestry', depth', order[0], p);
      var step := StepNode(w, d, req, ancestry, depth, order[0], p);
      if step.Next? {
        StepOutputs(w, d, req, ancestry, depth, order[0], p);
        forall n | n in order[1..] ensures n in d.nodes && n.id !in step.progress.outputs {
          var k :| 0 <= k < |order[1..]| && order[1..][k] == n;
          assert order[k + 1] == n;
        }
        ResumeNodes(w, d, req, kept, ancestry, depth, ancestry', depth', order[1..], step.progress);
      }
    }
  }

  lemma StepOutputs(w: World, d: Definition, req: Request, ancestry: set<string>, depth: nat, n: Node, p: Progress)
    requires Runnable(w, d, ancestry, depth, n)
    ensures
      var step := StepNode(w, d, req, ancestry, depth, n, p);
      step.Next? ==> step.progress.outputs.Keys <= p.outputs.Keys + {n.id}
  {
    hide Accepted, RunAttempts, ResolveInput;
  }

  lemma {:induction false} ResumeNode(w: World, d: Definition, req: Request, kept: Checkpoints,
                                      ancestry: set<string>, depth: nat, ancestry': set<string>, depth': nat, n: Node,
                                        p: Progress)
    requires Runnable(w, d, ancestry, depth, n) && Runnable(w, d, ancestry', depth', n) && n.id !in p.outputs
    requires Keeps(kept, req) && FaithfulNode(w, d, req, kept, ancestry, depth, n, p)
    ensures StepNode(w, d, Resumed(req, kept), ancestry', depth', n, p) == StepNode(w, d, req, ancestry, depth, n, p)
    decreases MAX_DEPTH + 1 - depth, 4, 0
  {
    hide Accepted, RunAttempts, FaithfulChildren;
    var id := req.prefix + n.id;
    RunnableFacts(w, d, ancestry, depth, n);
    if id in req.completed {
    } else if id in kept {
      CompleteOutputValidated(w, d, req, ancestry, depth, n, p, kept[id]);
    } else {
      var resolution := ResolveInput(w, d, n, req.input, p);
      if resolution.Resolved? {
        ResumeAttempts(w, d, req, kept, ancestry, depth, ancestry', depth', n, resolution.input, 1, false, 0);
      }
    }
  }

  lemma CompleteOutputValidated(w: World, d: Definition, req: Request, ancestry: set<string>, depth: nat, n: Node,
                                p: Progress, kept: Raw)
    requires Runnable(w, d, ancestry, depth, n) && n.id !in p.outputs && (n.kind, n.kindVersion) in w.rules.registry
    requires req.prefix + n.id !in req.completed
    requires KeptComplete(StepNode(w, d, req, ancestry, depth, n, p), n, p, kept)
    ensures Validated(w, w.rules.registry[(n.kind, n.kindVersion)], n, kept)
  {
    hide Accepted, RunAttempts;
    var p' := p.(outputs := p.outputs[n.id := kept.value]);
    assert n.id in p'.outputs && p'.outputs[n.id] == kept.value;
    var resolution := ResolveInput(w, d, n, req.input, p);
    assert resolution.Resolved?;
    AcceptedOutputValidated(w, d, req, ancestry, depth, n, resolution.input, 1, false, 0);
  }

  lemma {:induction false} ResumeAttempts(w: World, d: Definition, req: Request, kept: Checkpoints,
                                          ancestry: set<string>, depth: nat, ancestry': set<string>, depth': nat,
                                          n: Node, input: Raw, attempt: nat, partial: bool, effects: nat)
    requires Runnable(w, d, ancestry, depth, n) && Runnable(w, d, ancestry', depth', n) && 1 <= attempt <= 3
    requires Keeps(kept, req) && FaithfulChildren(w, d, req, kept, ancestry, depth, n, input)
    ensures RunAttempts(w, d, Resumed(req, kept), ancestry', depth', n, input, attempt, partial, effects)
         == RunAttempts(w, d, req, ancestry, depth, n, input, attempt, partial, effects)
    decreases MAX_DEPTH + 1 - depth, 3, 3 - attempt
  {
    hide Accepted, Handle, FaithfulChildren;
    var inv := Invocation(req.prefix + n.id, attempt, n, input);
    ResumeHandle(w, d, req, kept, ancestry, depth, ancestry', depth', inv, partial, effects);
    var result := Attempt(w, d, req, ancestry, depth, inv, partial, effects);
    assert Attempt(w, d, Resumed(req, kept), ancestry', depth', inv, partial, effects) == result;
    if attempt < 3 && result.AttemptErr? {
      ResumeAttempts(w, d, req, kept, ancestry, depth, ancestry', depth', n, input, attempt + 1, result.partial,
                     result.effects);
    }
  }

  lemma {:induction false} ResumeHandle(w: World, d: Definition, req: Request, kept: Checkpoints,
                                        ancestry: set<string>, depth: nat, ancestry': set<string>, depth': nat,
                                        inv: Invocation, partial: bool, effects: nat)
    requires Runnable(w, d, ancestry, depth, inv.node) && Runnable(w, d, ancestry', depth', inv.node)
    requires Keeps(kept, req) && inv.nodeId == req.prefix + inv.node.id
    requires FaithfulChildren(w, d, req, kept, ancestry, depth, inv.node, inv.input)
    ensures Handle(w, d, Resumed(req, kept), ancestry', depth', inv, partial, effects)
         == Handle(w, d, req, ancestry, depth, inv, partial, effects)
    decreases MAX_DEPTH + 1 - depth, 1, 0
  {
    hide Accepted, Execute, FaithfulRun;
    RunnableFacts(w, d, ancestry, depth, inv.node);
    RunnableFacts(w, d, ancestry', depth', inv.node);
    var child := ChildOf(w.rules, inv.node);
    if inv.node.kind == "call_workflow" && child.Some? {
      var childReq := ChildRequest(req, inv.nodeId, inv.input);
      assert ChildRequest(Resumed(req, kept), inv.nodeId, inv.input) == Resumed(childReq, kept);
      ResumeEquivalent(w, child.value, childReq, kept, ChildAncestry(inv.node, ancestry), depth + 1,
                       ChildAncestry(inv.node, ancestry'), depth' + 1);
    } else if inv.node.kind == "for_each" {
      var prepared := PrepareItems(w, inv.node, inv.input);
      if prepared.Items? {
        ResumeItems(w, d, req, kept, ancestry, depth, ancestry', depth', inv, prepared.items);
      }
    }
  }

  lemma {:induction false} ResumeItems(w: World, d: Definition, req: Request, kept: Checkpoints,
                                       ancestry: set<string>, depth: nat, ancestry': set<string>, depth': nat,
                                       inv: Invocation, items: seq<Json>)
    requires Runnable(w, d, ancestry, depth, inv.node) && Runnable(w, d, ancestry', depth', inv.node)
    requires ChildOf(w.rules, inv.node).Some? && Keeps(kept, req) && depth < MAX_DEPTH
    requires Accepted(w.rules, ChildOf(w.rules, inv.node).value, ChildAncestry(inv.node, ancestry), depth + 1)
    requires forall k | 0 <= k < |items| ::
      FaithfulRun(w, ChildOf(w.rules, inv.node).value, ItemRequest(req, inv.nodeId, k, items[k]), kept,
                  ChildAncestry(inv.node, ancestry), depth + 1)
    ensures ItemResults(w, d, Resumed(req, kept), ancestry', depth', inv, items)
         == ItemResults(w, d, req, ancestry, depth, inv, items)
    decreases MAX_DEPTH + 1 - depth, 0, |items|
  {
    hide Accepted, Execute, FaithfulRun;
    if items != [] {
      RunnableFacts(w, d, ancestry', depth', inv.node);
      var k := |items| - 1;
      var itemReq := ItemRequest(req, inv.nodeId, k, items[k]);
      assert ItemRequest(Resumed(req, kept), inv.nodeId, k, items[k]) == Resumed(itemReq, kept);
      ResumeEquivalent(w, ChildOf(w.rules, inv.node).value, itemReq, kept, ChildAncestry(inv.node, ancestry), depth + 1,
                       ChildAncestry(inv.node, ancestry'), depth' + 1);
      ResumeItems(w, d, req, kept, ancestry, depth, ancestry', depth', inv, items[..k]);
    }
  }

  // ------------------------------------------- nested runs are fresh runs

  /** A run's own checkpoints are faithful to it. */
  lemma {:induction false} FaithfulToItself(w: World, d: Definition, req: Request, ancestry: set<string>, depth: nat)
    requires Accepted(w.rules, d, ancestry, depth)
    ensures FaithfulRun(w, d, req, req.completed, ancestry, depth)
    decreases MAX_DEPTH + 1 - depth, 2, 0
  {
    OrderCoversDefinition(w.rules, d, ancestry, depth);
    NodesFaithfulToItself(w, d, req, ancestry, depth, ExecutionOrder(d), NOTHING_YET);
  }

  lemma {:induction false} NodesFaithfulToItself(w: World, d: Definition, req: Request, ancestry: set<string>,
                                                 depth: nat, order: seq<Node>, p: Progress)
    requires Accepted(w.rules, d, ancestry, depth) && forall n | n in order :: n in d.nodes
    ensures FaithfulNodes(w, d, req, req.completed, ancestry, depth, order, p)
    decreases MAX_DEPTH + 1 - depth, 1, |order|
  {
    hide Accepted, StepNode, FaithfulChildren;
    if order != [] {
      var resolution := ResolveInput(w, d, order[0], req.input, p);
      if resolution.Resolved? {
        ChildrenFaithfulToItself(w, d, req, ancestry, depth, order[0], resolution.input);
      }
      var step := StepNode(w, d, req, ancestry, depth, order[0], p);
      if step.Next? {
        NodesFaithfulToItself(w, d, req, ancestry, depth, order[1..], step.progress);
      }
    }
  }

  lemma {:induction false} ChildrenFaithfulToItself(w: World, d: Definition, req: Request, ancestry: set<string>,
                                                    depth: nat, n: Node, input: Raw)
    requires Runnable(w, d, ancestry, depth, n)
    ensures FaithfulChildren(w, d, req, req.completed, ancestry, depth, n, input)
    decreases MAX_DEPTH + 1 - depth, 0, 0
  {
    hide Accepted, FaithfulRun;
    RunnableFacts(w, d, ancestry, depth, n);
    var child := ChildOf(w.rules, n);
    var id := req.prefix + n.id;
    if child.Some? {
      if n.kind == "call_workflow" {
        FaithfulToItself(w, child.value, ChildRequest(req, id, input), ChildAncestry(n, ancestry), depth + 1);
      } else if PrepareItems(w, n, input).Items? {
        var items := PrepareItems(w, n, input).items;
        forall k | 0 <= k < |items|
          ensures FaithfulRun(w, child.value, ItemRequest(req, id, k, items[k]), req.completed,
                              ChildAncestry(n, ancestry), depth + 1)
        {
          FaithfulToItself(w, child.value, ItemRequest(req, id, k, items[k]), ChildAncestry(n, ancestry), depth + 1);
        }
      }
    }
  }

  /** A nested run is the run its definition gives on its own, including the repeated validation. */
  lemma NestedRunIsFreshRun(w: World, d: Definition, n: Node, childReq: Request, ancestry: set<string>, depth: nat)
    requires Runnable(w, d, ancestry, depth, n) && ChildOf(w.rules, n).Some?
    ensures depth < MAX_DEPTH
    ensures Accepted(w.rules, ChildOf(w.rules, n).value, ChildAncestry(n, ancestry), depth + 1)
    ensures Execute(w, ChildOf(w.rules, n).value, childReq, ChildAncestry(n, ancestry), depth + 1).result
         == ExecuteTop(w, ChildOf(w.rules, n).value, childReq)
  {
    var child := ChildOf(w.rules, n).value;
    RunnableFacts(w, d, ancestry, depth, n);
    NestedValidationAccepts(w.rules, d, n, ancestry, depth);
    FaithfulToItself(w, child, childReq, ChildAncestry(n, ancestry), depth + 1);
    ResumeEquivalent(w, child, childReq, childReq.completed, ChildAncestry(n, ancestry), depth + 1, {}, 0);
    assert Resumed(childReq, childReq.completed) == childReq;
  }

  // ------------------------------------------------- exactly when it holds

  /** The node ran to an output with some failed items, and that output is the one kept for it. */
  ghost predicate KeptPartial(step: Step, n: Node, p: Progress, kept: Raw) {
    kept.Doc? && step == Next(p.(outputs := p.outputs[n.id := kept.value], partials := p.partials + {n.id},
                                 failures := p.failures[n.id := "one or more items failed"]))
  }

  /** Checkpoints of this level hold outputs of this run, partial ones included. */
  ghost predicate LooselyFaithful(w: World, d: Definition, req: Request, kept: Checkpoints, ancestry: set<string>,
                                  depth: nat, order: seq<Node>, p: Progress)
    requires Accepted(w.rules, d, ancestry, depth) && forall n | n in order :: n in d.nodes
    decreases |order|
  {
    order != [] ==>
      var n := order[0];
      var step := StepNode(w, d, req, ancestry, depth, n, p);
      && (FaithfulNode(w, d, req, kept, ancestry, depth, n, p)
          || (req.prefix + n.id in kept && KeptPartial(step, n, p, kept[req.prefix + n.id])))
      && (step.Next? ==> LooselyFaithful(w, d, req, kept, ancestry, depth, order[1..], step.progress))
  }

  lemma StepGrows(w: World, d: Definition, req: Request, ancestry: set<string>, depth: nat, n: Node, p: Progress)
    requires Runnable(w, d, ancestry, depth, n)
    ensures
      var step := StepNode(w, d, req, ancestry, depth, n, p);
      var p' := if step.Next? then step.progress else step.run.progress;
      && p.partials <= p'.partials <= p.partials + {n.id}
      && p.failures.Keys <= p'.failures.Keys <= p.failures.Keys + {n.id}
      && (step.Halt? ==> step.run.result.errors == p'.failures)
      && (req.prefix + n.id in req.completed ==> p'.failures == p.failures)
  {
    hide Accepted, RunAttempts, ResolveInput;
  }

  /** What failed or was partial stays so to the end of the run. */
  lemma {:induction false} RunGrows(w: World, d: Definition, req: Request, ancestry: set<string>, depth: nat,
                                    order: seq<Node>, p: Progress)
    requires Accepted(w.rules, d, ancestry, depth) && forall n | n in order :: n in d.nodes
    ensures
      var run := RunNodes(w, d, req, ancestry, depth, order, p);
      && p.partials <= run.progress.partials && p.failures.Keys <= run.progress.failures.Keys
      && run.result.errors == run.progress.failures
      && run.progress.partials <= p.partials + NodeIds(order)
    decreases |order|
  {
    hide Accepted, StepNode;
    if order != [] {
      StepGrows(w, d, req, ancestry, depth, order[0], p);
      var step := StepNode(w, d, req, ancestry, depth, order[0], p);
      assert order == [order[0]] + order[1..];
      if step.Next? { RunGrows(w, d, req, ancestry, depth, order[1..], step.progress); }
    }
  }

  /** A node taken from a checkpoint never appears among the errors. */
  lemma {:induction false} CheckpointedNeverFails(w: World, d: Definition, req: Request, ancestry: set<string>,
                                                  depth: nat, order: seq<Node>, p: Progress, id: string)
    requires Accepted(w.rules, d, ancestry, depth) && forall n | n in order :: n in d.nodes
    requires req.prefix + id in req.completed && id !in p.failures
    ensures id !in RunNodes(w, d, req, ancestry, depth, order, p).progress.failures
    decreases |order|
  {
    hide Accepted, StepNode;
    if order != [] {
      StepGrows(w, d, req, ancestry, depth, order[0], p);
      var step := StepNode(w, d, req, ancestry, depth, order[0], p);
      if step.Next? { CheckpointedNeverFails(w, d, req, ancestry, depth, order[1..], step.progress, id); }
    }
  }

  /** Either the loosely faithful checkpoints are faithful, or one of them is a partial output of the run. */
  lemma {:induction false} LooseOrPartial(w: World, d: Definition, req: Request, kept: Checkpoints,
                                          ancestry: set<string>, depth: nat,
                                          order: seq<Node>, p: Progress) returns (id: string)
    requires Accepted(w.rules, d, ancestry, depth) && forall n | n in order :: n in d.nodes
    requires LooselyFaithful(w, d, req, kept, ancestry, depth, order, p)
    ensures
      || FaithfulNodes(w, d, req, kept, ancestry, depth, order, p)
      || (req.prefix + id in kept && id in NodeIds(order)
          && id in RunNodes(w, d, req, ancestry, depth, order, p).progress.failures
          && id in RunNodes(w, d, req, ancestry, depth, order, p).progress.partials)
    decreases |order|
  {
    hide Accepted, StepNode, FaithfulNode;
    id := "";
    if order != [] {
      var n := order[0];
      var step := StepNode(w, d, req, ancestry, depth, n, p);
      assert order == [n] + order[1..];
      if step.Next? {
        RunGrows(w, d, req, ancestry, depth, order[1..], step.progress);
        if FaithfulNode(w, d, req, kept, ancestry, depth, n, p) {
          id := LooseOrPartial(w, d, req, kept, ancestry, depth, order[1..], step.progress);
        } else {
          id := n.id;
        }
      }
    }
  }

  /** A faithful checkpoint of a node this run starts afresh is never a partial output. */
  lemma {:induction false} FaithfulNotPartial(w: World, d: Definition, req: Request, kept: Checkpoints,
                                              ancestry: set<string>, depth: nat,
                                              order: seq<Node>, p: Progress, id: string)
    requires Accepted(w.rules, d, ancestry, depth) && (forall n | n in order :: n in d.nodes) && UniqueIds(order)
    requires FaithfulNodes(w, d, req, kept, ancestry, depth, order, p)
    requires req.prefix + id in kept && req.completed == map[] && id !in p.partials
    ensures id !in RunNodes(w, d, req, ancestry, depth, order, p).progress.partials
    decreases |order|
  {
    hide Accepted, StepNode;
    if order != [] {
      StepGrows(w, d, req, ancestry, depth, order[0], p);
      var step := StepNode(w, d, req, ancestry, depth, order[0], p);
      if step.Next? {
        FaithfulNotPartial(w, d, req, kept, ancestry, depth, order[1..], step.progress, id);
      }
    }
  }

  lemma TopIsExecute(w: World, d: Definition, req: Request)
    requires Accepted(w.rules, d, {}, 0)
    ensures ExecuteTop(w, d, req) == Execute(w, d, req, {}, 0).result
  {
  }

  /**
   * Resuming from checkpoints of an uninterrupted run gives the same result exactly when none of the
   * checkpoints is the output of a node that completed with failed items.
   */
  lemma ResumeEquivalentIffNoPartial(w: World, d: Definition, req: Request, kept: Checkpoints)
    requires Accepted(w.rules, d, {}, 0) && req.completed == map[]
    requires LooselyFaithful(w, d, req, kept, {}, 0, ExecutionOrder(d), NOTHING_YET)
    ensures ExecuteTop(w, d, Resumed(req, kept)) == ExecuteTop(w, d, req)
            <==> forall n | n in d.nodes && req.prefix + n.id in kept ::
              n.id !in Execute(w, d, req, {}, 0).progress.partials
  {
    TopIsExecute(w, d, req);
    TopIsExecute(w, d, Resumed(req, kept));
    hide Accepted, RunNodes, LooselyFaithful, FaithfulNodes, ExecuteTop;
    OrderCoversDefinition(w.rules, d, {}, 0);
    var order := ExecutionOrder(d);
    var id := LooseOrPartial(w, d, req, kept, {}, 0, order, NOTHING_YET);
    RunGrows(w, d, req, {}, 0, order, NOTHING_YET);
    RunGrows(w, d, Resumed(req, kept), {}, 0, order, NOTHING_YET);
    if FaithfulNodes(w, d, req, kept, {}, 0, order, NOTHING_YET) {
      assert FaithfulRun(w, d, req, kept, {}, 0);
      ResumeEquivalent(w, d, req, kept, {}, 0, {}, 0);
      forall n | n in d.nodes && req.prefix + n.id in kept
        ensures n.id !in Execute(w, d, req, {}, 0).progress.partials {
        FaithfulNotPartial(w, d, req, kept, {}, 0, order, NOTHING_YET, n.id);
      }
    } else {
      CheckpointedNeverFails(w, d, Resumed(req, kept), {}, 0, order, NOTHING_YET, id);
      var n :| n in order && n.id == id;
      assert n in d.nodes;
    }
  }
}
