/** The engine's loops over bindings, attempts, items and nodes, against the functions that say what they compute. */
module WorkflowLoops {
  import opened OrderedStrings
  import opened JsonValues
  import opened WorkflowTypes
  import opened WorkflowGraph
  import opened WorkflowValidation
  import opened WorkflowEngine
  import opened WorkflowAccounting

  method ResolveNodeInput(w: World, d: Definition, n: Node, runInput: Raw, p: Progress) returns (r: Resolution)
    ensures r == ResolveInput(w, d, n, runInput, p)
  {
    var value: map<string, Json> := map[];
    for i := 0 to |n.inputs|
      invariant BindingFields(w, d, n, runInput, p, 0, map[]) == BindingFields(w, d, n, runInput, p, i, value)
    {
      var (name, b) := n.inputs[i];
      if b.sourceNode != "" {
        var port := Upstream(w, d, n, p, b.sourceNode, b.sourcePort);
        if port.NoPort? { return Unresolved(port.error); }
        value := value[name := port.value];
      } else if b.inputPath != "" {
        if !runInput.Doc? { return Unresolved(Rejected(InvalidDefinition)); }
        var found := w.path(runInput.value, b.inputPath);
        if found.None? { return Unresolved(MissingInput(b.inputPath)); }
        value := value[name := found.value];
      } else {
        value := value[name := if b.literal.Some? then b.literal.value else JNull];
      }
    }
    ghost var bound := value;
    for i := 0 to |d.edges|
      invariant EdgeFields(w, d, n, p, 0, bound) == EdgeFields(w, d, n, p, i, value)
    {
      var e := d.edges[i];
      if e.target == n.id {
        var port := Upstream(w, d, n, p, e.source, e.sourcePort);
        if port.NoPort? { return Unresolved(port.error); }
        value := value[e.targetPort := port.value];
      }
    }
    if value == map[] {
      return Resolved(if runInput.Absent? then Doc(JObject(map[])) else runInput);
    }
    return Resolved(Doc(JObject(value)));
  }

  /** One result per item, in index order. */
  method ExecuteItems(w: World, d: Definition, req: Request, ghost ancestry: set<string>, ghost depth: nat,
                      inv: Invocation, items: seq<Json>) returns (rs: seq<ItemResult>)
    requires Runnable(w, d, ancestry, depth, inv.node) && ChildOf(w.rules, inv.node).Some?
    ensures rs == ItemResults(w, d, req, ancestry, depth, inv, items)
    decreases MAX_DEPTH + 1 - depth, 0
  {
    hide Accepted, Execute;
    RunnableFacts(w, d, ancestry, depth, inv.node);
    var child := ChildOf(w.rules, inv.node).value;
    rs := [];
    for k := 0 to |items|
      invariant rs == ItemResults(w, d, req, ancestry, depth, inv, items[..k])
    {
      assert items[..k + 1][..k] == items[..k];
      var r := ExecuteNested(w, child, ItemRequest(req, inv.nodeId, k, items[k]), ChildAncestry(inv.node, ancestry),
                             depth + 1);
      rs := rs + [ItemOf(w, inv.nodeId, k, items[k], r)];
    }
    assert items[..|items|] == items;
  }

  method HandleNode(w: World, d: Definition, req: Request, ghost ancestry: set<string>, ghost depth: nat,
                    inv: Invocation, partial: bool, effects: nat) returns (reply: Reply)
    requires Runnable(w, d, ancestry, depth, inv.node)
    ensures reply == Handle(w, d, req, ancestry, depth, inv, partial, effects)
    decreases MAX_DEPTH + 1 - depth, 1
  {
    hide Accepted, Execute;
    RunnableFacts(w, d, ancestry, depth, inv.node);
    var child := ChildOf(w.rules, inv.node);
    if inv.node.kind == "call_workflow" {
      if child.None? { return Reply(Absent, partial, Some(Rejected(InvalidDefinition)), effects); }
      var r := ExecuteNested(w, child.value, ChildRequest(req, inv.nodeId, inv.input),
                             ChildAncestry(inv.node, ancestry), depth + 1);
      if r.error.Some? { return Reply(Absent, partial, r.error, effects); }
      return Reply(Doc(ResultDocument(r)), partial, None, effects);
    }
    if inv.node.kind == "for_each" {
      var prepared := PrepareItems(w, inv.node, inv.input);
      if prepared.NoItems? { return Reply(Absent, false, Some(prepared.error), effects); }
      var rs := ExecuteItems(w, d, req, ancestry, depth, inv, prepared.items);
      return ForEachReply(rs, prepared.failFast, effects);
    }
    var answer := w.execute(inv);
    return Reply(answer.output, partial, answer.error, if answer.applied then effects + 1 else effects);
  }

  /** The retry loop of one node. */
  method AttemptNode(w: World, d: Definition, req: Request, ghost ancestry: set<string>, ghost depth: nat,
                     n: Node, input: Raw) returns (outcome: Attempts)
    requires Runnable(w, d, ancestry, depth, n)
    ensures outcome == RunAttempts(w, d, req, ancestry, depth, n, input, 1, false, 0)
    decreases MAX_DEPTH + 1 - depth, 2
  {
    hide Accepted, Handle;
    RunnableFacts(w, d, ancestry, depth, n);
    var id := req.prefix + n.id;
    var descriptor := w.rules.registry[(n.kind, n.kindVersion)];
    var maxAttempts := MaxAttempts(n);
    var partial, effects, attempt := false, 0, 1;
    var failure: Option<Error> := None;
    while attempt <= maxAttempts
      invariant 1 <= attempt <= maxAttempts + 1
      invariant attempt <= maxAttempts ==>
        RunAttempts(w, d, req, ancestry, depth, n, input, 1, false, 0)
        == RunAttempts(w, d, req, ancestry, depth, n, input, attempt, partial, effects)
      invariant attempt > maxAttempts ==>
        failure.Some? && RunAttempts(w, d, req, ancestry, depth, n, input, 1, false, 0) ==
          Failed(failure.value, effects)
    {
      if w.canceled(id, attempt) { return Stopped(RunCanceled, ContextCanceled, effects); }
      var started := w.checkpoint(StepEvent(id, StepRunning, attempt));
      if started.Some? { return Stopped(RunFailed, started.value, effects); }
      var inv := Invocation(id, attempt, n, input);
      var early := BeforeHandler(w, descriptor, inv, partial, effects);
      var result: AttemptResult;
      if early.Some? {
        result := early.value;
      } else {
        var reply := HandleNode(w, d, req, ancestry, depth, inv, partial, effects);
        result := Accept(w, descriptor, n, reply, false);
      }
      if result.AttemptOk? {
        return Done(result.output, result.partial, if result.reconciled then 0 else attempt, result.effects);
      }
      partial, effects, failure := result.partial, result.effects, Some(result.error);
      if result.error == AwaitingApproval { return Stopped(RunAwaitingApproval, result.error, effects); }
      if attempt < maxAttempts {
        var cooling := w.checkpoint(StepEvent(id, StepCooldown, attempt));
        if cooling.Some? { return Stopped(RunFailed, cooling.value, effects); }
        var interrupted := w.cooldown(id, attempt);
        if interrupted.Some? { return Stopped(RunFailed, interrupted.value, effects); }
      }
      attempt := attempt + 1;
    }
    return Failed(failure.value, effects);
  }

  /** The walk over the nodes of an accepted definition. */
  method ExecuteAccepted(w: World, d: Definition, req: Request, ghost ancestry: set<string>, ghost depth: nat)
    returns (r: RunResult)
    requires Accepted(w.rules, d, ancestry, depth)
    ensures r == Execute(w, d, req, ancestry, depth).result
    decreases MAX_DEPTH + 1 - depth, 3
  {
    NodesErrorNone(w.rules, Granted(d.capabilities), {}, d.nodes);
    EdgesOkWithin(w.rules, d.nodes, d.edges);
    OrderCoversDefinition(w.rules, d, ancestry, depth);
    hide Accepted, RunAttempts, ExecutionOrder;
    var order := TopologicalOrder(d);
    var p := NOTHING_YET;
    assert order[0..] == order;
    for i := 0 to |order|
      invariant Execute(w, d, req, ancestry, depth) == RunNodes(w, d, req, ancestry, depth, order[i..], p)
    {
      var n := order[i];
      assert order[i..][0] == n && order[i..][1..] == order[i + 1..];
      RunnableFacts(w, d, ancestry, depth, n);
      var id := req.prefix + n.id;
      var step: Step;
      if id in req.completed {
        if !Validated(w, w.rules.registry[(n.kind, n.kindVersion)], n, req.completed[id]) {
          return RunResult(RunFailed, p.outputs, p.failures, Some(OutputInvalid));
        }
        step := Next(p.(outputs := p.outputs[n.id := req.completed[id].value]));
      } else {
        var resolution := ResolveNodeInput(w, d, n, req.input, p);
        if resolution.Unresolved? {
          step := if resolution.error == BranchNotSelected then Next(p.(skipped := p.skipped + {n.id}))
                  else NoteFailure(w, n, p, resolution.error);
        } else {
          var outcome := AttemptNode(w, d, req, ancestry, depth, n, resolution.input);
          match outcome {
            case Stopped(state, e, _) => step := Stop(state, p, e);
            case Failed(e, _) => step := NoteFailure(w, n, p, e);
            case Done(output, isPartial, attempt, _) => step := NoteOutput(w, id, n, p, output, isPartial, attempt);
          }
        }
      }
      assert step == StepNode(w, d, req, ancestry, depth, n, p);
      if step.Halt? { return step.run.result; }
      p := step.progress;
    }
    return Finish(p).result;
  }

  /** A nested execution validates its definition afresh; that never turns it away. */
  method ExecuteNested(w: World, d: Definition, req: Request, ghost ancestry: set<string>, ghost depth: nat)
    returns (r: RunResult)
    requires Accepted(w.rules, d, ancestry, depth)
    ensures r == Execute(w, d, req, ancestry, depth).result
    decreases MAX_DEPTH + 1 - depth, 4
  {
    var refused := Validate(w.rules, d, {}, 0);
    AcceptedMonotone(w.rules, d, ancestry, depth, {}, 0);
    assert refused.None?;
    r := ExecuteAccepted(w, d, req, ancestry, depth);
  }

  method ExecuteWorkflow(w: World, d: Definition, req: Request) returns (r: RunResult)
    ensures r == ExecuteTop(w, d, req)
  {
    var refused := Validate(w.rules, d, {}, 0);
    if refused.Some? {
      return RunResult(RunFailed, map[], map[], Some(Rejected(refused.value)));
    }
    r := ExecuteAccepted(w, d, req, {}, 0);
  }
}
