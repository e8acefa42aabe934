/**
 * What one run of a workflow computes, with the handlers, the checkpoint store and the clock as parameters.
 * Models engine_errors.go lines 67-224, engine_execute_for_each.go lines 12-159 and
 * engine_resolve_node_input.go lines 10-140.
 */
module WorkflowEngine {
  import opened OrderedStrings
  import opened JsonValues
  import opened WorkflowTypes
  import opened WorkflowGraph
  import opened WorkflowValidation

  /** Encoded JSON: nothing at all, bytes that do not parse, or a document. */
  datatype Raw = Absent | Malformed | Doc(value: Json)

  datatype Error =
    | Rejected(reason: ValidationError)
    | OutputInvalid
    | AwaitingApproval
    | BranchNotSelected
    | PartialUpstream(node: string)
    | MissingUpstream(node: string)
    | MissingInput(path: string)
    | MissingPort(port: string)
    | ForEachFailed
    | ContextCanceled
    | Other(code: nat)

  datatype RunState = RunCompleted | RunCompletedWithErrors | RunFailed | RunCanceled | RunAwaitingApproval

  datatype StepState = StepRunning | StepCooldown | StepCompleted | StepCompletedWithErrors

  datatype StepEvent = StepEvent(nodeId: string, state: StepState, attempt: nat)

  datatype Invocation = Invocation(nodeId: string, attempt: nat, node: Node, input: Raw)

  datatype ReconcileReply = ReconcileReply(output: Raw, reconciled: bool, error: Option<Error>)

  /** A handler's reply, and whether its external effect took place; a reply can be lost after the effect. */
  datatype ExecuteReply = ExecuteReply(applied: bool, output: Raw, error: Option<Error>)

  /**
   * Everything outside the engine. Answers depend on the execution identity, the attempt and the input only;
   * a reconcile answer may also depend on how many effects the node has applied so far.
   */
  datatype World = World(
    rules: Rules,
    matches: (Schema, Json) -> bool,
    path: (Json, string) -> Option<Json>,
    message: Error -> string,
    canceled: (string, nat) -> bool,
    checkpoint: StepEvent -> Option<Error>,
    cooldown: (string, nat) -> Option<Error>,
    itemCheckpoint: (string, nat) -> Option<Error>,
    health: (string, nat) -> Option<Error>,
    reconcile: (Invocation, nat) -> ReconcileReply,
    execute: Invocation -> ExecuteReply)

  /** Completed holds checkpointed outputs by fully prefixed node identity. */
  datatype Request = Request(input: Raw, prefix: string, completed: map<string, Raw>)

  /** The four maps the engine keeps while it walks the nodes. */
  datatype Progress = Progress(outputs: map<string, Json>, failures: map<string, string>,
                               partials: set<string>, skipped: set<string>)

  datatype RunResult = RunResult(state: RunState, outputs: map<string, Json>, errors: map<string, string>,
                                 error: Option<Error>)

  /** A result together with the maps it was read off. */
  datatype Run = Run(result: RunResult, progress: Progress)

  const NOTHING_YET := Progress(map[], map[], {}, {})

  // ------------------------------------------------------------ node inputs

  datatype Resolution = Resolved(input: Raw) | Unresolved(error: Error)

  datatype Fields = Fields(values: map<string, Json>) | NoFields(error: Error)

  predicate Conditional(d: Definition, id: string) {
    exists i :: 0 <= i < |d.nodes| && d.nodes[i].id == id && (forall j | 0 <= j < i :: d.nodes[j].id != id) &&
                (d.nodes[i].kind == "condition" || d.nodes[i].kind == "switch")
  }

  function PortValue(w: World, output: Json, port: string): Option<Json> {
    if port == "" || port == "output" then Some(output) else w.path(output, port)
  }

  datatype Port = Port(value: Json) | NoPort(error: Error)

  /** The value of an upstream port, or why the node cannot use it. */
  function Upstream(w: World, d: Definition, n: Node, p: Progress, source: string, port: string): (r: Port)
    ensures r.Port? ==>
      source in p.outputs && source !in p.skipped && (source in p.partials ==> n.errors.acceptsPartial)
  {
    if source in p.skipped then NoPort(BranchNotSelected)
    else if source in p.partials && !n.errors.acceptsPartial then NoPort(PartialUpstream(source))
    else if source !in p.outputs then NoPort(MissingUpstream(source))
    else
      match PortValue(w, p.outputs[source], port)
      case Some(v) => Port(v)
      case None => NoPort(if Conditional(d, source) && port != "output" then BranchNotSelected else MissingPort(port))
  }

  function BindingFields(w: World, d: Definition, n: Node, runInput: Raw, p: Progress, i: nat,
                         acc: map<string, Json>): Fields
    requires i <= |n.inputs|
    decreases |n.inputs| - i
  {
    if i == |n.inputs| then Fields(acc)
    else
      var (name, b) := n.inputs[i];
      if b.sourceNode != "" then
        match Upstream(w, d, n, p, b.sourceNode, b.sourcePort)
        case NoPort(e) => NoFields(e)
        case Port(v) => BindingFields(w, d, n, runInput, p, i + 1, acc[name := v])
      else if b.inputPath != "" then
        if !runInput.Doc? then NoFields(Rejected(InvalidDefinition))
        else
          match w.path(runInput.value, b.inputPath)
          case None => NoFields(MissingInput(b.inputPath))
          case Some(v) => BindingFields(w, d, n, runInput, p, i + 1, acc[name := v])
      else BindingFields(w, d, n, runInput, p, i + 1, acc[name := if b.literal.Some? then b.literal.value else JNull])
  }

  function EdgeFields(w: World, d: Definition, n: Node, p: Progress, i: nat, acc: map<string, Json>): Fields
    requires i <= |d.edges|
    decreases |d.edges| - i
  {
    if i == |d.edges| then Fields(acc)
    else
      var e := d.edges[i];
      if e.target != n.id then EdgeFields(w, d, n, p, i + 1, acc)
      else
        match Upstream(w, d, n, p, e.source, e.sourcePort)
        case NoPort(error) => NoFields(error)
        case Port(v) => EdgeFields(w, d, n, p, i + 1, acc[e.targetPort := v])
  }

  function ResolveInput(w: World, d: Definition, n: Node, runInput: Raw, p: Progress): Resolution {
    match BindingFields(w, d, n, runInput, p, 0, map[])
    case NoFields(e) => Unresolved(e)
    case Fields(bound) =>
      match EdgeFields(w, d, n, p, 0, bound)
      case NoFields(e) => Unresolved(e)
      case Fields(all) =>
        if all != map[] then Resolved(Doc(JObject(all)))
        else if runInput.Absent? then Resolved(Doc(JObject(map[])))
        else Resolved(runInput)
  }

  // ------------------------------------------------------- documents built

  function Texts(m: map<string, string>): Json {
    JObject(map k | k in m :: JString(m[k]))
  }

  function StateText(s: RunState): string {
    match s
    case RunCompleted => "completed"
    case RunCompletedWithErrors => "completed_with_errors"
    case RunFailed => "failed"
    case RunCanceled => "canceled"
    case RunAwaitingApproval => "awaiting_approval"
  }

  function ResultDocument(r: RunResult): Json {
    JObject(map["state" := JString(StateText(r.state)), "outputs" := JObject(r.outputs), "errors" := Texts(r.errors)])
  }

  function Padded(n: nat): string {
    var text := Decimal(n);
    seq(if |text| < 6 then 6 - |text| else 0, _ => '0') + text
  }

  datatype ItemResult = ItemResult(index: nat, input: Json, outputs: map<string, Json>, errors: map<string, string>,
                                   error: string)

  predicate ItemFailed(r: ItemResult) {
    r.error != "" || r.errors != map[]
  }

  function ItemDocument(r: ItemResult): Json {
    var base := map["index" := JNumber(Decimal(r.index)), "input" := r.input];
    var withOutputs := if r.outputs == map[] then base else base["outputs" := JObject(r.outputs)];
    var withErrors := if r.errors == map[] then withOutputs else withOutputs["errors" := Texts(r.errors)];
    JObject(if r.error == "" then withErrors else withErrors["error" := JString(r.error)])
  }

  function ItemErrors(rs: seq<ItemResult>): map<string, string> {
    if rs == [] then map[]
    else
      var r := rs[|rs| - 1];
      var rest := ItemErrors(rs[..|rs| - 1]);
      if ItemFailed(r) then rest[Decimal(|rs| - 1) := if r.error == "" then "completed_with_errors" else r.error]
        else rest
  }

  predicate AnyFailed(rs: seq<ItemResult>) {
    exists i :: 0 <= i < |rs| && ItemFailed(rs[i])
  }

  function ItemsDocument(rs: seq<ItemResult>): Json {
    JObject(map["items" := JArray(seq(|rs|, i requires 0 <= i < |rs| => ItemDocument(rs[i]))),
                "errors" := Texts(ItemErrors(rs)), "partial" := JBool(AnyFailed(rs))])
  }

  /** The array a for_each iterates over: the input itself, or the first one found under the usual keys. */
  function FindItems(j: Json): Option<seq<Json>> {
    match j
    case JArray(items) => Some(items)
    case JObject(fields) =>
      var first := if "items" in fields then FindItems(fields["items"]) else None;
      if first.Some? then first
      else
        var second := if "events" in fields then FindItems(fields["events"]) else None;
        if second.Some? then second
        else if "value" in fields then FindItems(fields["value"])
        else None
    case _ => None
  }

  // --------------------------------------------------------------- attempts

  predicate Validated(w: World, descriptor: Descriptor, n: Node, output: Raw) {
    output.Doc? && w.matches(descriptor.outputSchema, output.value) && w.matches(n.outputSchema, output.value)
  }

  /** What running a node's handler once gave. */
  datatype Reply = Reply(output: Raw, partial: bool, error: Option<Error>, effects: nat)

  datatype AttemptResult =
    | AttemptOk(output: Json, partial: bool, reconciled: bool, effects: nat)
    | AttemptErr(error: Error, partial: bool, effects: nat)

  datatype Attempts =
    | Done(output: Json, partial: bool, attempt: nat, effects: nat)
    | Failed(error: Error, effects: nat)
    | Stopped(state: RunState, error: Error, effects: nat)

  function MaxAttempts(n: Node): int {
    if n.retry.maxAttempts == 0 then 3 else n.retry.maxAttempts
  }

  predicate Continues(n: Node) {
    n.errors.mode == "continue" || n.errors.mode == "collect"
  }

  function Accept(w: World, descriptor: Descriptor, n: Node, r: Reply, reconciled: bool): AttemptResult {
    if r.error.Some? then AttemptErr(r.error.value, r.partial, r.effects)
    else if Validated(w, descriptor, n, r.output) then AttemptOk(r.output.value, r.partial, reconciled, r.effects)
    else AttemptErr(OutputInvalid, r.partial, r.effects)
  }

  predicate Reconciles(descriptor: Descriptor, attempt: nat) {
    descriptor.risk != Read && attempt > 1 && descriptor.supportsReconcile
  }

  /** The part of one attempt before the handler runs: an answer, or None to go on and run it. */
  function BeforeHandler(w: World, descriptor: Descriptor, inv: Invocation, partial: bool,
                         effects: nat): Option<AttemptResult> {
    if !inv.input.Doc? || !w.matches(descriptor.inputSchema, inv.input.value) then
      Some(AttemptErr(OutputInvalid, partial, effects))
    else if w.health(inv.nodeId, inv.attempt).Some? then
      Some(AttemptErr(w.health(inv.nodeId, inv.attempt).value, partial, effects))
    else if Reconciles(descriptor, inv.attempt) then
      var reply := w.reconcile(inv, effects);
      if reply.error.Some? then Some(AttemptErr(reply.error.value, partial, effects))
      else if reply.reconciled || reply.output != Absent then
        Some(Accept(w, descriptor, inv.node, Reply(reply.output, partial, None, effects), reply.reconciled))
      else None
    else None
  }

  ghost predicate Runnable(w: World, d: Definition, ancestry: set<string>, depth: nat, n: Node) {
    Accepted(w.rules, d, ancestry, depth) && n in d.nodes
  }

  lemma RunnableFacts(w: World, d: Definition, ancestry: set<string>, depth: nat, n: Node)
    requires Runnable(w, d, ancestry, depth, n)
    ensures (n.kind, n.kindVersion) in w.rules.registry && MaxAttempts(n) == 3
    ensures depth <= MAX_DEPTH && UniqueIds(d.nodes)
    ensures ChildOf(w.rules, n).Some? ==> depth < MAX_DEPTH
    ensures ChildOf(w.rules, n).Some? ==>
              Accepted(w.rules, ChildOf(w.rules, n).value, ChildAncestry(n, ancestry), depth + 1)
  {
    NodesErrorNone(w.rules, Granted(d.capabilities), {}, d.nodes);
    ChildAccepted(w.rules, d, n, ancestry, depth);
  }

  function ChildRequest(req: Request, nodeId: string, input: Raw): Request {
    Request(input, nodeId + ".", req.completed)
  }

  function ItemRequest(req: Request, nodeId: string, index: nat, item: Json): Request {
    Request(Doc(item), nodeId + ".item_" + Padded(index) + ".", req.completed)
  }

  /** The checks a for_each makes before it starts any item: its items, or the error. */
  datatype Items = Items(items: seq<Json>, failFast: bool) | NoItems(error: Error)

  /** How many items may run at once. */
  function ItemLimit(n: Node): int requires n.config.Config? {
    if n.config.sequential then 1 else if n.config.concurrency == 0 then 4 else n.config.concurrency
  }

  function PrepareItems(w: World, n: Node, input: Raw): Items {
    if ChildOf(w.rules, n).None? || !n.config.Config? then NoItems(Rejected(InvalidDefinition))
    else if !input.Doc? || FindItems(input.value).None? then NoItems(OutputInvalid)
    else
      var items := FindItems(input.value).value;
      var maximum := if n.config.maximumItems == 0 then 1000 else n.config.maximumItems;
      var limit := ItemLimit(n);
      var mode := if n.config.errorMode == "" then "collect" else n.config.errorMode;
      if maximum < 1 || maximum > 10000 || |items| > maximum || limit < 1 || limit > 32 ||
         (mode != "collect" && mode != "continue" && mode != "fail_fast")
      then NoItems(Rejected(InvalidDefinition))
      else Items(items, mode == "fail_fast")
  }

  function ItemOf(w: World, nodeId: string, index: nat, item: Json, r: RunResult): ItemResult {
    var failure := if r.error.Some? then r.error else w.itemCheckpoint(nodeId, index);
    ItemResult(index, item, r.outputs, r.errors, if failure.Some? then w.message(failure.value) else "")
  }

  function ForEachReply(rs: seq<ItemResult>, failFast: bool, effects: nat): Reply {
    Reply(Doc(ItemsDocument(rs)), AnyFailed(rs), if AnyFailed(rs) && failFast then Some(ForEachFailed) else None,
          effects)
  }

  /** Runs the handler: a nested workflow, a nested workflow per item, or the registered provider. */
  ghost function Handle(w: World, d: Definition, req: Request, ancestry: set<string>, depth: nat,
                        inv: Invocation, partial: bool, effects: nat): Reply
    requires Runnable(w, d, ancestry, depth, inv.node)
    decreases MAX_DEPTH + 1 - depth, 1, 0
  {
    RunnableFacts(w, d, ancestry, depth, inv.node);
    var child := ChildOf(w.rules, inv.node);
    if inv.node.kind == "call_workflow" then
      if child.None? then Reply(Absent, partial, Some(Rejected(InvalidDefinition)), effects)
      else
        var r := Execute(w, child.value, ChildRequest(req, inv.nodeId, inv.input), ChildAncestry(inv.node, ancestry),
                         depth + 1).result;
        if r.error.Some? then Reply(Absent, partial, r.error, effects)
          else Reply(Doc(ResultDocument(r)), partial, None, effects)
    else if inv.node.kind == "for_each" then
      match PrepareItems(w, inv.node, inv.input)
      case NoItems(e) => Reply(Absent, false, Some(e), effects)
      case Items(items, failFast) => ForEachReply(ItemResults(w, d, req, ancestry, depth, inv, items), failFast,
                                                  effects)
    else
      var reply := w.execute(inv);
      Reply(reply.output, partial, reply.error, if reply.applied then effects + 1 else effects)
  }

  /** The results of a for_each in index order. */
  ghost function ItemResults(w: World, d: Definition, req: Request, ancestry: set<string>, depth: nat,
                             inv: Invocation, items: seq<Json>): (rs: seq<ItemResult>)
    requires Runnable(w, d, ancestry, depth, inv.node) && ChildOf(w.rules, inv.node).Some?
    ensures |rs| == |items|
    decreases MAX_DEPTH + 1 - depth, 0, |items|
  {
    if items == [] then []
    else
      RunnableFacts(w, d, ancestry, depth, inv.node);
      var k := |items| - 1;
      var r := Execute(w, ChildOf(w.rules, inv.node).value, ItemRequest(req, inv.nodeId, k, items[k]),
                       ChildAncestry(inv.node, ancestry), depth + 1).result;
      ItemResults(w, d, req, ancestry, depth, inv, items[..k]) + [ItemOf(w, inv.nodeId, k, items[k], r)]
  }

  ghost function Attempt(w: World, d: Definition, req: Request, ancestry: set<string>, depth: nat,
                         inv: Invocation, partial: bool, effects: nat): AttemptResult
    requires Runnable(w, d, ancestry, depth, inv.node)
    decreases MAX_DEPTH + 1 - depth, 2, 0
  {
    RunnableFacts(w, d, ancestry, depth, inv.node);
    var descriptor := w.rules.registry[(inv.node.kind, inv.node.kindVersion)];
    var early := BeforeHandler(w, descriptor, inv, partial, effects);
    if early.Some? then early.value
    else Accept(w, descriptor, inv.node, Handle(w, d, req, ancestry, depth, inv, partial, effects), false)
  }

  /** The attempts from the given one on. */
  ghost function RunAttempts(w: World, d: Definition, req: Request, ancestry: set<string>, depth: nat,
                             n: Node, input: Raw, attempt: nat, partial: bool, effects: nat): Attempts
    requires Runnable(w, d, ancestry, depth, n) && 1 <= attempt <= 3
    decreases MAX_DEPTH + 1 - depth, 3, 3 - attempt
  {
    var id := req.prefix + n.id;
    if w.canceled(id, attempt) then Stopped(RunCanceled, ContextCanceled, effects)
    else
      var started := w.checkpoint(StepEvent(id, StepRunning, attempt));
      if started.Some? then Stopped(RunFailed, started.value, effects)
      else
        match Attempt(w, d, req, ancestry, depth, Invocation(id, attempt, n, input), partial, effects)
        case AttemptOk(output, partial', reconciled, effects') =>
          Done(output, partial', if reconciled then 0 else attempt, effects')
        case AttemptErr(error, partial', effects') =>
          if error == AwaitingApproval then Stopped(RunAwaitingApproval, error, effects')
          else if attempt == 3 then Failed(error, effects')
          else
            var cooling := w.checkpoint(StepEvent(id, StepCooldown, attempt));
            if cooling.Some? then Stopped(RunFailed, cooling.value, effects')
            else if w.cooldown(id, attempt).Some? then Stopped(RunFailed, w.cooldown(id, attempt).value, effects')
            else RunAttempts(w, d, req, ancestry, depth, n, input, attempt + 1, partial', effects')
  }

  // ------------------------------------------------------------------ nodes

  datatype Step = Next(progress: Progress) | Halt(run: Run)

  function Stop(state: RunState, p: Progress, e: Error): Step {
    Halt(Run(RunResult(state, p.outputs, p.failures, Some(e)), p))
  }

  function NoteFailure(w: World, n: Node, p: Progress, e: Error): Step {
    var p' := p.(failures := p.failures[n.id := w.message(e)]);
    if Continues(n) then Next(p') else Stop(RunFailed, p', e)
  }

  function NoteOutput(w: World, id: string, n: Node, p: Progress, output: Json, partial: bool, attempt: nat): Step {
    var p' := p.(outputs := p.outputs[n.id := output]);
    var p'' := if partial then p'.(partials := p'.partials + {n.id},
                                   failures := p'.failures[n.id := "one or more items failed"]) else p';
    var saved := w.checkpoint(StepEvent(id, if partial then StepCompletedWithErrors else StepCompleted, attempt));
    if saved.Some? then Stop(RunFailed, p'', saved.value) else Next(p'')
  }

  ghost function StepNode(w: World, d: Definition, req: Request, ancestry: set<string>, depth: nat, n: Node,
                          p: Progress): Step
    requires Runnable(w, d, ancestry, depth, n)
    decreases MAX_DEPTH + 1 - depth, 4, 0
  {
    RunnableFacts(w, d, ancestry, depth, n);
    var id := req.prefix + n.id;
    if id in req.completed then
      if Validated(w, w.rules.registry[(n.kind, n.kindVersion)], n, req.completed[id])
      then Next(p.(outputs := p.outputs[n.id := req.completed[id].value]))
      else Stop(RunFailed, p, OutputInvalid)
    else
      match ResolveInput(w, d, n, req.input, p)
      case Unresolved(e) =>
        if e == BranchNotSelected then Next(p.(skipped := p.skipped + {n.id})) else NoteFailure(w, n, p, e)
      case Resolved(input) =>
        match RunAttempts(w, d, req, ancestry, depth, n, input, 1, false, 0)
        case Stopped(state, e, _) => Stop(state, p, e)
        case Failed(e, _) => NoteFailure(w, n, p, e)
        case Done(output, partial, attempt, _) => NoteOutput(w, id, n, p, output, partial, attempt)
  }

  function Finish(p: Progress): Run {
    Run(RunResult(if p.failures == map[] then RunCompleted else RunCompletedWithErrors, p.outputs, p.failures, None), p)
  }

  ghost function RunNodes(w: World, d: Definition, req: Request, ancestry: set<string>, depth: nat,
                          order: seq<Node>, p: Progress): Run
    requires Accepted(w.rules, d, ancestry, depth) && forall n | n in order :: n in d.nodes
    decreases MAX_DEPTH + 1 - depth, 5, |order|
  {
    if order == [] then Finish(p)
    else
      match StepNode(w, d, req, ancestry, depth, order[0], p)
      case Halt(run) => run
      case Next(p') => RunNodes(w, d, req, ancestry, depth, order[1..], p')
  }

  /** The run of a definition that validation accepted below these ancestors. */
  ghost function Execute(w: World, d: Definition, req: Request, ancestry: set<string>, depth: nat): Run
    requires Accepted(w.rules, d, ancestry, depth)
    decreases MAX_DEPTH + 1 - depth, 6, 0
  {
    RunNodes(w, d, req, ancestry, depth, ExecutionOrder(d), NOTHING_YET)
  }

  /** A whole run, starting with the validation the engine repeats each time. */
  ghost function ExecuteTop(w: World, d: Definition, req: Request): RunResult {
    var refused := ValidateError(w.rules, d, {}, 0);
    if refused.Some? then RunResult(RunFailed, map[], map[], Some(Rejected(refused.value)))
    else Execute(w, d, req, {}, 0).result
  }
}
