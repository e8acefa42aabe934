/** Small workflows in which the engine does what a reader might not expect. */
module WorkflowExamples {
  import opened OrderedStrings
  import opened JsonValues
  import opened WorkflowTypes
  import opened WorkflowGraph
  import opened WorkflowValidation
  import opened WorkflowEngine
  import opened WorkflowEffects
  import opened WorkflowAccounting
  import opened WorkflowResume
  import opened WorkflowResumeNested
  import opened WorkflowNestedEffects

  // ---------------------------------------------------------------- the parts

  const LOOSE := Schema(0)
  const STRICT := Schema(1)

  /** A provider that changes things and can be asked afterwards whether it did. */
  const PROVIDER := Descriptor("c", Write, LOOSE, LOOSE, true)

  const NESTING := Descriptor("c", Read, LOOSE, LOOSE, false)

  const RULES := Rules(
    map[("task", 1) := PROVIDER, ("for_each", 1) := NESTING], map[],
    (_, _) => true, (_, _) => true, _ => true, _ => true)

  /** Nothing outside gets in the way; the loose schema accepts everything and the strict one nothing. */
  function Calm(reply: ExecuteReply): World {
    World(RULES, (s, _) => s == LOOSE, (_, _) => None, _ => "failed", (_, _) => false, _ => None, (_, _) => None,
          (_, _) => None, (_, _) => None,
          (_, effects) => if effects == 0 then ReconcileReply(Absent, false, None)
            else ReconcileReply(Doc(JNull), true, None),
          _ => reply)
  }

  const NO_CONFIG := Config("", None, 0, 0, false, "")

  /** One call of a provider; the workflow goes on when it fails. */
  const TASK := Node("t", "task", 1, NO_CONFIG, [], LOOSE, Retry(3, 60), ErrorPolicy("continue", false))

  function Single(n: Node): Definition {
    Definition(FORMAT_VERSION, [Capability("c", Write)], [n], [], [])
  }

  /** The task for each item of the input. */
  function Each(output: Schema): Node {
    Node("f", "for_each", 1, Config("", Some(Single(TASK)), 0, 0, false, ""), [], output, Retry(3, 60),
         ErrorPolicy("", false))
  }

  const ONE_ITEM := Request(Doc(JArray([JNull])), "", map[])

  // --------------------------------------------------------------- acceptance

  lemma NoEdgesNoCycle()
    ensures Acyclic([])
  {
    forall p: seq<string> ensures !Cycle([], p) {
      assert Cycle([], p) ==> HasEdge([], p[0], p[1]);
    }
  }

  /** A single node without inputs is accepted when its own checks and its child's pass. */
  lemma SingleAccepted(n: Node, ancestry: set<string>, depth: nat)
    requires depth < MAX_DEPTH && n.inputs == [] && KindOk({}, n) && RetryOk(n.retry) && ModeOk(n.errors.mode)
    requires n.kindVersion == 1 && n.kind in {"task", "for_each"}
    requires n.kind == "for_each" && n.config.childGraph.Some? ==>
      Accepted(RULES, n.config.childGraph.value, ancestry, depth + 1)
    ensures Accepted(RULES, Single(n), ancestry, depth)
  {
    var d := Single(n);
    NoEdgesNoCycle();
    assert Granted(d.capabilities) == map["c" := Write] by { assert d.capabilities[..0] == []; }
    assert NodeError(RULES, Granted(d.capabilities), {}, n).None?;
    assert d.nodes[1..] == [];
    assert DependencyIds(d.dependencies) == {};
    assert HeaderOk(d, depth) && CapabilitiesOk(RULES, d.capabilities);
    assert NodesError(RULES, Granted(d.capabilities), {}, d.nodes).None?;
    assert KindsError(RULES, d, 1, ancestry, depth).None?;
    assert KindsError(RULES, d, 0, ancestry, depth).None?;
    assert InputsOk(RULES, d.nodes);
    assert EdgesOk(RULES, d.nodes, d.edges);
    assert DependenciesError(RULES, d, 0, ancestry, depth).None?;
  }

  lemma EachAccepted(output: Schema)
    ensures Accepted(RULES, Single(Each(output)), {}, 0)
  {
    SingleAccepted(TASK, {}, 1);
    SingleAccepted(Each(output), {}, 0);
  }

  /** A workflow of one node runs that node. */
  lemma SingleOrder(n: Node, ancestry: set<string>, depth: nat)
    requires Accepted(RULES, Single(n), ancestry, depth)
    ensures ExecutionOrder(Single(n)) == [n]
  {
    hide Accepted, ExecutionOrder;
    OrderCoversDefinition(RULES, Single(n), ancestry, depth);
    var order := ExecutionOrder(Single(n));
    assert n in order;
    forall i | 0 <= i < |order| ensures order[i] == n { assert order[i] in order; }
    assert |order| > 1 ==> order[0].id != order[1].id;
  }

  lemma SingleRun(w: World, n: Node, req: Request, ancestry: set<string>, depth: nat, p: Progress)
    requires w.rules == RULES && Accepted(RULES, Single(n), ancestry, depth) && n in Single(n).nodes
    requires StepNode(w, Single(n), req, ancestry, depth, n, NOTHING_YET) == Next(p)
    ensures Execute(w, Single(n), req, ancestry, depth) == Finish(p)
  {
    hide Accepted, StepNode, ExecutionOrder;
    SingleOrder(n, ancestry, depth);
    assert [n][1..] == [];
    assert RunNodes(w, Single(n), req, ancestry, depth, [n], NOTHING_YET)
        == RunNodes(w, Single(n), req, ancestry, depth, [], p);
  }

  /** Without bindings and edges a node gets the input of the run. */
  lemma SingleInput(w: World, n: Node, input: Json, p: Progress)
    requires n.inputs == []
    ensures ResolveInput(w, Single(n), n, Doc(input), p) == Resolved(Doc(input))
  {
  }

  // ------------------------------------------------------- one item, one task

  const REFUSED := ExecuteReply(false, Absent, Some(Other(0)))
  const ANSWERED := ExecuteReply(true, Doc(JNull), None)

  function TaskRequest(): Request {
    ItemRequest(ONE_ITEM, "f", 0, JNull)
  }

  function TaskId(): string {
    TaskRequest().prefix + "t"
  }

  /** The task is tried once when it is answered, and three times when it is refused. */
  lemma TaskAttempts(ancestry: set<string>, depth: nat)
    requires Accepted(RULES, Single(TASK), ancestry, depth)
    ensures RunAttempts(Calm(REFUSED), Single(TASK), TaskRequest(), ancestry, depth, TASK, Doc(JNull), 1, false, 0)
         == Failed(Other(0), 0)
    ensures RunAttempts(Calm(ANSWERED), Single(TASK), TaskRequest(), ancestry, depth, TASK, Doc(JNull), 1, false, 0)
         == Done(JNull, false, 1, 1)
  {
    hide Accepted;
    var d, req := Single(TASK), TaskRequest();
    assert Attempt(Calm(ANSWERED), d, req, ancestry, depth, Invocation(TaskId(), 1, TASK, Doc(JNull)), false, 0)
        == AttemptOk(JNull, false, false, 1);
    assert Attempt(Calm(REFUSED), d, req, ancestry, depth, Invocation(TaskId(), 1, TASK, Doc(JNull)), false, 0)
        == AttemptErr(Other(0), false, 0);
    assert Attempt(Calm(REFUSED), d, req, ancestry, depth, Invocation(TaskId(), 2, TASK, Doc(JNull)), false, 0)
        == AttemptErr(Other(0), false, 0);
    assert Attempt(Calm(REFUSED), d, req, ancestry, depth, Invocation(TaskId(), 3, TASK, Doc(JNull)), false, 0)
        == AttemptErr(Other(0), false, 0);
    assert RunAttempts(Calm(REFUSED), d, req, ancestry, depth, TASK, Doc(JNull), 3, false, 0) == Failed(Other(0), 0);
    assert RunAttempts(Calm(REFUSED), d, req, ancestry, depth, TASK, Doc(JNull), 2, false, 0) == Failed(Other(0), 0);
  }

  /** The run of the one item. */
  lemma TaskRun(ancestry: set<string>, depth: nat)
    requires Accepted(RULES, Single(TASK), ancestry, depth)
    ensures Execute(Calm(REFUSED), Single(TASK), TaskRequest(), ancestry, depth).result
         == RunResult(RunCompletedWithErrors, map[], map["t" := "failed"], None)
    ensures Execute(Calm(ANSWERED), Single(TASK), TaskRequest(), ancestry, depth).result
         == RunResult(RunCompleted, map["t" := JNull], map[], None)
  {
    hide Accepted, RunAttempts, Execute;
    TaskAttempts(ancestry, depth);
    SingleInput(Calm(REFUSED), TASK, JNull, NOTHING_YET);
    SingleInput(Calm(ANSWERED), TASK, JNull, NOTHING_YET);
    var failed := NOTHING_YET.(failures := map["t" := "failed"]);
    assert StepNode(Calm(REFUSED), Single(TASK), TaskRequest(), ancestry, depth, TASK, NOTHING_YET) == Next(failed);
    var answered := NOTHING_YET.(outputs := map["t" := JNull]);
    assert StepNode(Calm(ANSWERED), Single(TASK), TaskRequest(), ancestry, depth, TASK, NOTHING_YET) == Next(answered);
    assert failed.failures["t"] == "failed";
    SingleRun(Calm(REFUSED), TASK, TaskRequest(), ancestry, depth, failed);
    SingleRun(Calm(ANSWERED), TASK, TaskRequest(), ancestry, depth, answered);
  }

  const FAILED_ITEM := ItemResult(0, JNull, map[], map["t" := "failed"], "")
  const DONE_ITEM := ItemResult(0, JNull, map["t" := JNull], map[], "")

  lemma EachHandled(output: Schema, attempt: nat, partial: bool, effects: nat)
    requires Runnable(Calm(REFUSED), Single(Each(output)), {}, 0, Each(output))
    requires Runnable(Calm(ANSWERED), Single(Each(output)), {}, 0, Each(output))
    ensures
      var inv := Invocation("f", attempt, Each(output), ONE_ITEM.input);
      && Handle(Calm(REFUSED), Single(Each(output)), ONE_ITEM, {}, 0, inv, partial, effects)
           == Reply(Doc(ItemsDocument([FAILED_ITEM])), true, None, effects)
      && Handle(Calm(ANSWERED), Single(Each(output)), ONE_ITEM, {}, 0, inv, partial, effects)
           == Reply(Doc(ItemsDocument([DONE_ITEM])), false, None, effects)
  {
    hide Accepted, Execute, ItemsDocument;
    var n, d := Each(output), Single(Each(output));
    var inv := Invocation("f", attempt, n, ONE_ITEM.input);
    RunnableFacts(Calm(REFUSED), d, {}, 0, n);
    TaskRun({}, 1);
    var items := [JNull];
    assert PrepareItems(Calm(REFUSED), n, ONE_ITEM.input) == Items(items, false);
    assert PrepareItems(Calm(ANSWERED), n, ONE_ITEM.input) == Items(items, false);
    assert items[..0] == [] && items[0] == JNull;
    assert ItemResults(Calm(REFUSED), d, ONE_ITEM, {}, 0, inv, items) == [FAILED_ITEM];
    assert ItemResults(Calm(ANSWERED), d, ONE_ITEM, {}, 0, inv, items) == [DONE_ITEM];
    assert "t" in FAILED_ITEM.errors;
    assert ItemFailed([FAILED_ITEM][0]);
  }

  // ----------------------------------------------------- a partial checkpoint

  /** The document a for_each over one failing item leaves. */
  function PartialDocument(): Json {
    ItemsDocument([FAILED_ITEM])
  }

  /** Its only item failed, so the run notes the for_each as partial. */
  lemma EachStep()
    requires Runnable(Calm(REFUSED), Single(Each(LOOSE)), {}, 0, Each(LOOSE))
    ensures KeptPartial(StepNode(Calm(REFUSED), Single(Each(LOOSE)), ONE_ITEM, {}, 0, Each(LOOSE), NOTHING_YET),
                        Each(LOOSE), NOTHING_YET, Doc(PartialDocument()))
  {
    hide Accepted, Handle, ResolveInput, ItemsDocument;
    var w, n, d := Calm(REFUSED), Each(LOOSE), Single(Each(LOOSE));
    EachAccepted(LOOSE);
    EachHandled(LOOSE, 1, false, 0);
    SingleInput(w, n, ONE_ITEM.input.value, NOTHING_YET);
    assert Attempt(w, d, ONE_ITEM, {}, 0, Invocation("f", 1, n, ONE_ITEM.input), false, 0)
        == AttemptOk(PartialDocument(), true, false, 0);
    assert ONE_ITEM.prefix + n.id == "f";
    assert RunAttempts(w, d, ONE_ITEM, {}, 0, n, ONE_ITEM.input, 1, false, 0) == Done(PartialDocument(), true, 1, 0);
  }

  /** A run whose only checkpoint is a partial output, and which differs when it is resumed from it. */
  lemma PartialCheckpointLosesErrors()
    ensures
      var w, d := Calm(REFUSED), Single(Each(LOOSE));
      var kept := map["f" := Doc(PartialDocument())];
      && Accepted(w.rules, d, {}, 0)
      && LooselyFaithful(w, d, ONE_ITEM, kept, {}, 0, ExecutionOrder(d), NOTHING_YET)
      && ExecuteTop(w, d, Resumed(ONE_ITEM, kept)) != ExecuteTop(w, d, ONE_ITEM)
  {
    hide Accepted, StepNode, ItemsDocument, ExecutionOrder, ExecuteTop, Execute;
    var w, n, d := Calm(REFUSED), Each(LOOSE), Single(Each(LOOSE));
    var kept := map["f" := Doc(PartialDocument())];
    EachAccepted(LOOSE);
    SingleOrder(n, {}, 0);
    EachStep();
    var step := StepNode(w, d, ONE_ITEM, {}, 0, n, NOTHING_YET);
    assert [n][1..] == [];
    assert ONE_ITEM.prefix + n.id == "f";
    assert LooselyFaithful(w, d, ONE_ITEM, kept, {}, 0, [], step.progress);
    assert LooselyFaithful(w, d, ONE_ITEM, kept, {}, 0, [n], NOTHING_YET);
    SingleRun(w, n, ONE_ITEM, {}, 0, step.progress);
    assert n.id in Execute(w, d, ONE_ITEM, {}, 0).progress.partials;
    ResumeEquivalentIffNoPartial(w, d, ONE_ITEM, kept);
  }

  // ------------------------------------------------------- a retrying parent

  /** Each run of the for_each calls the provider once. */
  lemma EachCallsOnce(output: Schema)
    requires Runnable(Calm(ANSWERED), Single(Each(output)), {}, 0, Each(output))
    ensures HandlerEffects(Calm(ANSWERED), Single(Each(output)), ONE_ITEM, {}, 0,
                           Invocation("f", 1, Each(output), ONE_ITEM.input), TaskId()) == 1
  {
    hide Accepted, ExecutionOrder;
    var w, n, d, child := Calm(ANSWERED), Each(output), Single(Each(output)), Single(TASK);
    RunnableFacts(w, d, {}, 0, n);
    SingleOrder(TASK, {}, 1);
    TaskAttempts({}, 1);
    SingleInput(w, TASK, JNull, NOTHING_YET);
    OwnEffects(w, child, TaskRequest(), {}, 1, TASK, Doc(JNull), 1, false, 0);
    assert NodeEffects(w, child, TaskRequest(), {}, 1, TASK, NOTHING_YET, TaskId()) == 1;
    assert [TASK][1..] == [];
    assert RunEffects(w, child, TaskRequest(), {}, 1, TaskId()) == 1;
    var items := [JNull];
    assert items[..0] == [];
    assert PrepareItems(w, n, ONE_ITEM.input) == Items(items, false);
    assert ItemsEffects(w, d, ONE_ITEM, {}, 0, Invocation("f", 1, n, ONE_ITEM.input), items, TaskId()) == 1;
  }

  /**
   * Every call is answered and the provider never denies an effect, and yet it is called three times under one
   * identity: the output of the for_each is refused, and each of its attempts runs the nested workflow again.
   */
  lemma RetryingParentRepeatsEffects()
    ensures
      var w, d := Calm(ANSWERED), Single(Each(STRICT));
      && Accepted(w.rules, d, {}, 0)
      && ReconcilingNode(w, TASK) && NeverDenies(w, TASK, TaskId(), Doc(JNull))
      && (forall inv :: w.execute(inv).error.None?)
      && RunEffects(w, d, ONE_ITEM, {}, 0, TaskId()) == 3
  {
    hide Accepted, ExecutionOrder, Handle, HandlerEffects, ResolveInput;
    var w, n, d := Calm(ANSWERED), Each(STRICT), Single(Each(STRICT));
    EachAccepted(STRICT);
    SingleOrder(n, {}, 0);
    SingleInput(w, n, ONE_ITEM.input.value, NOTHING_YET);
    EachCallsOnce(STRICT);
    EachHandled(STRICT, 1, false, 0);
    NestedEffects(w, d, ONE_ITEM, {}, 0, n, ONE_ITEM.input, 1, false, 0, TaskId());
    assert ONE_ITEM.prefix + n.id == "f";
    assert !Settles(w, n, Handle(w, d, ONE_ITEM, {}, 0, Invocation("f", 1, n, ONE_ITEM.input), false, 0));
    UnhinderedTimes(w, d, ONE_ITEM, {}, 0, n, ONE_ITEM.input, 1, false, 0);
    assert NodeEffects(w, d, ONE_ITEM, {}, 0, n, NOTHING_YET, TaskId()) == 3;
    assert [n][1..] == [];
  }
}
