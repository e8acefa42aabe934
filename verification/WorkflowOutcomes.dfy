/**
 * How a node's attempts end and what it leaves in the run's maps, case by case. Models engine_errors.go lines
 * 76-196 independently of the engine's recursion.
 */
module WorkflowOutcomes {
  import opened OrderedStrings
  import opened JsonValues
  import opened WorkflowTypes
  import opened WorkflowGraph
  import opened WorkflowValidation
  import opened WorkflowEngine

  // -------------------------------------------------------------- one attempt

  /** A document that the provider's output schema and the node's own both accept. */
  predicate Fits(w: World, descriptor: Descriptor, n: Node, output: Raw) {
    output.Doc? && w.matches(descriptor.outputSchema, output.value) && w.matches(n.outputSchema, output.value)
  }

  /** The output is taken if it fits, and is an invalid one otherwise. */
  predicate Takes(w: World, descriptor: Descriptor, n: Node, output: Raw, partial: bool, reconciled: bool, effects: nat,
                  result: AttemptResult) {
    if Fits(w, descriptor, n, output) then result == AttemptOk(output.value, partial, reconciled, effects)
    else result == AttemptErr(OutputInvalid, partial, effects)
  }

  /**
   * One attempt: the input must match, the provider be healthy; a mutating provider that can is asked from the
   * second attempt on what became of the earlier one; only if that leaves it open does the handler run.
   */
  lemma AttemptGives(w: World, d: Definition, req: Request, ancestry: set<string>, depth: nat, inv: Invocation,
                     partial: bool, effects: nat)
    requires Runnable(w, d, ancestry, depth, inv.node)
    ensures (inv.node.kind, inv.node.kindVersion) in w.rules.registry
    ensures
      var n, provider := inv.node, w.rules.registry[(inv.node.kind, inv.node.kindVersion)];
      var result := Attempt(w, d, req, ancestry, depth, inv, partial, effects);
      var answer, reply := w.reconcile(inv, effects), Handle(w, d, req, ancestry, depth, inv, partial, effects);
      if inv.input.Doc? && w.matches(provider.inputSchema, inv.input.value) then
        match w.health(inv.nodeId, inv.attempt)
        case Some(e) => result == AttemptErr(e, partial, effects)
        case None =>
          var asked := provider.risk in {Write, Destructive} && inv.attempt >= 2 && provider.supportsReconcile;
          if asked && answer.error.Some? then result == AttemptErr(answer.error.value, partial, effects)
          else if asked && (answer.reconciled || answer.output != Absent) then
            Takes(w, provider, n, answer.output, partial, answer.reconciled, effects, result)
          else if reply.error.Some? then result == AttemptErr(reply.error.value, reply.partial, reply.effects)
          else Takes(w, provider, n, reply.output, reply.partial, false, reply.effects, result)
      else result == AttemptErr(OutputInvalid, partial, effects)
  {
    hide Accepted, Handle;
    RunnableFacts(w, d, ancestry, depth, inv.node);
  }

  /** A provider's own node: its reply, and one more effect if it applied one. */
  lemma ProviderReplies(w: World, d: Definition, req: Request, ancestry: set<string>, depth: nat, inv: Invocation,
                        partial: bool, effects: nat)
    requires Runnable(w, d, ancestry, depth, inv.node) && inv.node.kind !in {"call_workflow", "for_each"}
    ensures
      var reply, answer := Handle(w, d, req, ancestry, depth, inv, partial, effects), w.execute(inv);
      && reply.output == answer.output && reply.error == answer.error && reply.partial == partial
      && reply.effects == effects + (if answer.applied then 1 else 0)
  {
    hide Accepted, Execute;
  }

  // ------------------------------------------------------------ the attempts

  /** What the attempts so far carry over: whether the last was partial, and the effects applied. */
  function Carried(results: seq<AttemptResult>): (bool, nat) {
    if results == [] then (false, 0) else (results[|results| - 1].partial, results[|results| - 1].effects)
  }

  /** The attempt was started: not canceled, and its checkpoint kept. */
  predicate Started(w: World, id: string, attempt: nat) {
    !w.canceled(id, attempt) && w.checkpoint(StepEvent(id, StepRunning, attempt)).None?
  }

  predicate FailedForNow(result: AttemptResult) {
    result.AttemptErr? && result.error != AwaitingApproval
  }

  /** After a failed attempt its cooldown was kept and waited out. */
  predicate Cooled(w: World, id: string, attempt: nat) {
    w.checkpoint(StepEvent(id, StepCooldown, attempt)).None? && w.cooldown(id, attempt).None?
  }

  /** The attempt was started with what those before it left, and another one followed only if it failed for now. */
  ghost predicate MadeAt(w: World, d: Definition, req: Request, ancestry: set<string>, depth: nat, n: Node, input: Raw,
                         results: seq<AttemptResult>, k: nat)
    requires Runnable(w, d, ancestry, depth, n) && k < |results|
  {
    var id := req.prefix + n.id;
    var (partial, effects) := Carried(results[..k]);
    && Started(w, id, k + 1)
    && results[k] == Attempt(w, d, req, ancestry, depth, Invocation(id, k + 1, n, input), partial, effects)
    && (k + 1 < |results| ==> FailedForNow(results[k]) && Cooled(w, id, k + 1))
  }

  /** These attempts were made, one after another. */
  ghost predicate Made(w: World, d: Definition, req: Request, ancestry: set<string>, depth: nat, n: Node, input: Raw,
                       results: seq<AttemptResult>)
    requires Runnable(w, d, ancestry, depth, n)
  {
    |results| <= 3 && forall k: nat | k < |results| :: MadeAt(w, d, req, ancestry, depth, n, input, results, k)
  }

  /** How the attempts end after those made. */
  predicate EndsWith(w: World, id: string, results: seq<AttemptResult>, outcome: Attempts) {
    var k, effects := |results|, Carried(results).1;
    if k > 0 && results[k - 1].AttemptOk? then
      var last := results[k - 1];
      outcome == Done(last.output, last.partial, if last.reconciled then 0 else k, effects)
    else if k > 0 && results[k - 1].error == AwaitingApproval then
      outcome == Stopped(RunAwaitingApproval, AwaitingApproval, effects)
    else if k == 3 then outcome == Failed(results[2].error, effects)
    else if k > 0 && w.checkpoint(StepEvent(id, StepCooldown, k)).Some? then
      outcome == Stopped(RunFailed, w.checkpoint(StepEvent(id, StepCooldown, k)).value, effects)
    else if k > 0 && w.cooldown(id, k).Some? then outcome == Stopped(RunFailed, w.cooldown(id, k).value, effects)
    else if w.canceled(id, k + 1) then outcome == Stopped(RunCanceled, ContextCanceled, effects)
    else
      && w.checkpoint(StepEvent(id, StepRunning, k + 1)).Some?
      && outcome == Stopped(RunFailed, w.checkpoint(StepEvent(id, StepRunning, k + 1)).value, effects)
  }

  /** Another attempt is due: none was made yet, or the last one failed for now and its cooldown is over. */
  predicate Due(w: World, id: string, results: seq<AttemptResult>) {
    |results| < 3 &&
    (results != [] ==> FailedForNow(results[|results| - 1]) && Cooled(w, id, |results|))
  }

  lemma OneMoreMade(w: World, d: Definition, req: Request, ancestry: set<string>, depth: nat, n: Node, input: Raw,
                    before: seq<AttemptResult>, result: AttemptResult)
    requires Runnable(w, d, ancestry, depth, n) && Made(w, d, req, ancestry, depth, n, input, before)
    requires Due(w, req.prefix + n.id, before) && Started(w, req.prefix + n.id, |before| + 1)
    requires
      var (partial, effects) := Carried(before);
      result == Attempt(w, d, req, ancestry, depth, Invocation(req.prefix + n.id, |before| + 1, n, input), partial,
                        effects)
    ensures Made(w, d, req, ancestry, depth, n, input, before + [result])
  {
    hide Accepted, Attempt, Started, Cooled, Carried, FailedForNow;
    var results := before + [result];
    forall k: nat | k < |results| ensures MadeAt(w, d, req, ancestry, depth, n, input, results, k) {
      if k < |before| {
        assert MadeAt(w, d, req, ancestry, depth, n, input, before, k);
        assert results[..k] == before[..k] && results[k] == before[k];
      } else {
        assert results[..k] == before;
      }
    }
  }

  /** Where the engine stands before an attempt, it goes on with it and then either to the next or to an end. */
  lemma OneAttempt(w: World, d: Definition, req: Request, ancestry: set<string>, depth: nat, n: Node, input: Raw,
                   before: seq<AttemptResult>)
    requires Runnable(w, d, ancestry, depth, n) && Due(w, req.prefix + n.id, before)
    ensures
      var id, attempt := req.prefix + n.id, |before| + 1;
      var (partial, effects) := Carried(before);
      var outcome := RunAttempts(w, d, req, ancestry, depth, n, input, attempt, partial, effects);
      if !Started(w, id, attempt) then EndsWith(w, id, before, outcome)
      else
        var result := Attempt(w, d, req, ancestry, depth, Invocation(id, attempt, n, input), partial, effects);
        if Due(w, id, before + [result]) then
          outcome == RunAttempts(w, d, req, ancestry, depth, n, input, attempt + 1, result.partial, result.effects)
        else EndsWith(w, id, before + [result], outcome)
  {
    hide Accepted, Attempt;
  }

  lemma {:induction false} AttemptsGo(w: World, d: Definition, req: Request, ancestry: set<string>, depth: nat, n: Node,
                                      input: Raw, before: seq<AttemptResult>)
    returns (results: seq<AttemptResult>)
    requires Runnable(w, d, ancestry, depth, n) && Made(w, d, req, ancestry, depth, n, input, before)
    requires Due(w, req.prefix + n.id, before)
    ensures Made(w, d, req, ancestry, depth, n, input, results)
    ensures
      var (partial, effects) := Carried(before);
      EndsWith(w, req.prefix + n.id, results,
               RunAttempts(w, d, req, ancestry, depth, n, input, |before| + 1, partial, effects))
    decreases 3 - |before|
  {
    hide Accepted, Attempt, RunAttempts, EndsWith, Started, Made;
    var id, attempt := req.prefix + n.id, |before| + 1;
    var (partial, effects) := Carried(before);
    OneAttempt(w, d, req, ancestry, depth, n, input, before);
    results := before;
    if Started(w, id, attempt) {
      var result := Attempt(w, d, req, ancestry, depth, Invocation(id, attempt, n, input), partial, effects);
      OneMoreMade(w, d, req, ancestry, depth, n, input, before, result);
      results := before + [result];
      if Due(w, id, results) { results := AttemptsGo(w, d, req, ancestry, depth, n, input, results); }
    }
  }

  /** A node's attempts: at most three are made, each after the one before it failed, and they end as the last says. */
  lemma AttemptsEnd(w: World, d: Definition, req: Request, ancestry: set<string>, depth: nat, n: Node, input: Raw)
    returns (results: seq<AttemptResult>)
    requires Runnable(w, d, ancestry, depth, n)
    ensures Made(w, d, req, ancestry, depth, n, input, results)
    ensures EndsWith(w, req.prefix + n.id, results, RunAttempts(w, d, req, ancestry, depth, n, input, 1, false, 0))
  {
    assert Made(w, d, req, ancestry, depth, n, input, []);
    results := AttemptsGo(w, d, req, ancestry, depth, n, input, []);
  }

  // --------------------------------------------------------------- the nodes

  /** The run ends here, in this state and with this error, with what it had. */
  predicate Ends(step: Step, state: RunState, p: Progress, e: Error) {
    && step.Halt? && step.run.progress == p
    && step.run.result == RunResult(state, p.outputs, p.failures, Some(e))
  }

  /** A failure is listed under the node, and ends the run unless the node's policy is to continue or collect. */
  predicate Fails(w: World, n: Node, p: Progress, e: Error, step: Step) {
    var noted := p.(failures := p.failures[n.id := w.message(e)]);
    if n.errors.mode in {"continue", "collect"} then step == Next(noted) else Ends(step, RunFailed, noted, e)
  }

  /** An output is listed under the node, a partial one with its mark, and ends the run if its checkpoint fails. */
  predicate Outputs(w: World, id: string, n: Node, p: Progress, output: Json, partial: bool, attempt: nat, step: Step) {
    var state := if partial then StepCompletedWithErrors else StepCompleted;
    var noted :=
      if partial then Progress(p.outputs[n.id := output], p.failures[n.id := "one or more items failed"],
                               p.partials + {n.id}, p.skipped)
      else Progress(p.outputs[n.id := output], p.failures, p.partials, p.skipped);
    match w.checkpoint(StepEvent(id, state, attempt))
    case Some(e) => Ends(step, RunFailed, noted, e)
    case None => step == Next(noted)
  }

  predicate AttemptsLeave(w: World, id: string, n: Node, p: Progress, attempts: Attempts, step: Step) {
    match attempts
    case Stopped(state, e, _) => Ends(step, state, p, e)
    case Failed(e, _) => Fails(w, n, p, e, step)
    case Done(output, partial, attempt, _) => Outputs(w, id, n, p, output, partial, attempt, step)
  }

  /** What a node does to the run: taken from its checkpoint, skipped, failed, or run to the end of its attempts. */
  lemma NodeLeaves(w: World, d: Definition, req: Request, ancestry: set<string>, depth: nat, n: Node, p: Progress)
    requires Runnable(w, d, ancestry, depth, n)
    ensures (n.kind, n.kindVersion) in w.rules.registry
    ensures
      var id, step := req.prefix + n.id, StepNode(w, d, req, ancestry, depth, n, p);
      if id in req.completed then
        if Fits(w, w.rules.registry[(n.kind, n.kindVersion)], n, req.completed[id])
        then step == Next(Progress(p.outputs[n.id := req.completed[id].value], p.failures, p.partials, p.skipped))
        else Ends(step, RunFailed, p, OutputInvalid)
      else
        var input := ResolveInput(w, d, n, req.input, p);
        if input.Resolved? then
          AttemptsLeave(w, id, n, p, RunAttempts(w, d, req, ancestry, depth, n, input.input, 1, false, 0), step)
        else if input.error == BranchNotSelected then
          step == Next(Progress(p.outputs, p.failures, p.partials, p.skipped + {n.id}))
        else Fails(w, n, p, input.error, step)
  {
    hide Accepted, RunAttempts, ResolveInput;
    RunnableFacts(w, d, ancestry, depth, n);
  }

  /** The states a run passes through, one for each node walked. */
  ghost predicate Walked(w: World, d: Definition, req: Request, ancestry: set<string>, depth: nat, order: seq<Node>,
                         states: seq<Progress>)
    requires Accepted(w.rules, d, ancestry, depth) && forall n | n in order :: n in d.nodes
  {
    && 0 < |states| <= |order| + 1
    && forall k: nat | k + 1 < |states| :: WalksOn(w, d, req, ancestry, depth, order[k], states[k], states[k + 1])
  }

  ghost predicate WalksOn(w: World, d: Definition, req: Request, ancestry: set<string>, depth: nat, n: Node,
                          p: Progress, q: Progress)
    requires Accepted(w.rules, d, ancestry, depth)
  {
    n in d.nodes && StepNode(w, d, req, ancestry, depth, n, p) == Next(q)
  }

  /**
   * A run walks the nodes in order until one ends it, or to the end; then it is completed exactly when nothing
   * failed, with what the last state holds.
   */
  lemma {:induction false} RunWalks(w: World, d: Definition, req: Request, ancestry: set<string>, depth: nat,
                                    order: seq<Node>, p: Progress)
    returns (states: seq<Progress>)
    requires Accepted(w.rules, d, ancestry, depth) && forall n | n in order :: n in d.nodes
    ensures Walked(w, d, req, ancestry, depth, order, states) && states[0] == p
    ensures
      var run, last := RunNodes(w, d, req, ancestry, depth, order, p), states[|states| - 1];
      if |states| == |order| + 1 then
        && run.progress == last && run.result.error == None
        && run.result.outputs == last.outputs && run.result.errors == last.failures
        && run.result.state == (if last.failures == map[] then RunCompleted else RunCompletedWithErrors)
      else StepNode(w, d, req, ancestry, depth, order[|states| - 1], last) == Halt(run)
    decreases |order|
  {
    hide Accepted, StepNode;
    states := [p];
    if order != [] {
      var step := StepNode(w, d, req, ancestry, depth, order[0], p);
      if step.Next? {
        var rest := RunWalks(w, d, req, ancestry, depth, order[1..], step.progress);
        states := [p] + rest;
        forall k: nat | k + 1 < |states|
          ensures WalksOn(w, d, req, ancestry, depth, order[k], states[k], states[k + 1])
        {
          if k == 0 {
            assert order[0] in order;
          } else {
            assert order[1..][k - 1] == order[k] && rest[k - 1] == states[k] && rest[k] == states[k + 1];
            assert WalksOn(w, d, req, ancestry, depth, order[1..][k - 1], rest[k - 1], rest[k]);
          }
        }
      }
    }
  }
}
