/**
 * The server's plan of a routine, which works out from the receipts what a run has done and may do next
 * (routine_runtime.go lines 108-230), against the coordinator's run.
 */
module RoutinePlan {
  import opened OrderedStrings
  import opened JsonValues
  import opened JsonCanonical
  import opened JsonSizes
  import opened RoutineLanguage
  import opened RoutineWire
  import opened RoutineRun

  // ----------------------------------------------------------------- receipts

  datatype ReceiptState = Pending | InProgress | Waiting | Started | Unknown | Unsettled | Parted | Settled | Other

  /** A restored outcome: whether it reports success, whether it is partial, and its result. */
  datatype Outcome = Outcome(success: bool, partial: bool, result: Json)

  /** The record of a call; no outcome when it cannot be restored or read. */
  datatype Receipt = Receipt(sameTool: bool, state: ReceiptState, outcome: Option<Outcome>)

  datatype Reading = Awaiting | Conflict | Reads(effect: Effect)

  /** What a wait that has ended yields. */
  const RESUMED := JObject(map["resumed" := JBool(true)])

  function Read(step: Step, receipt: Option<Receipt>): Reading {
    if receipt.None? then Awaiting
    else
      var state := receipt.value.state;
      if step.Agent? && (state == Pending || state == InProgress) then Awaiting
      else if step.Wait? && (state == Pending || state == Waiting) then Awaiting
      else if !receipt.value.sameTool then Conflict
      else if state == Started || state == Unknown || state == Unsettled then Reads(Effect(Uncertain, None))
      else if step.Agent? && state == Parted then Reads(Effect(Partial, None))
      else if state != Settled then Reads(Effect(Failed, None))
      else if step.Wait? then Reads(Effect(Completed, Some(RESUMED)))
      else if receipt.value.outcome.None? || !receipt.value.outcome.value.success then Conflict
      else
        var outcome := receipt.value.outcome.value;
        Reads(Effect(if outcome.partial then Partial else Completed, Some(outcome.result)))
  }

  /** Receipts by the index of the step whose call they record. */
  type Receipts = map<nat, Receipt>

  function ReceiptOf(receipts: Receipts, i: nat): Option<Receipt> {
    if i in receipts then Some(receipts[i]) else None
  }

  // --------------------------------------------------------------- the plan

  /** What the loop updates: the report's state and steps, the results so far, and the call to be made next. */
  datatype Plan = Plan(state: StepState, steps: seq<Entry>, values: Values, next: Option<Call>, stopped: bool,
                       completed: bool)

  type Evaluator = (nat, Values) -> Prepared

  function Noted(p: Plan, id: string, state: StepState): Plan {
    p.(steps := p.steps + [Entry(id, state)])
  }

  function Halted(p: Plan, id: string, state: StepState, reported: StepState): Plan {
    Noted(p, id, state).(state := reported, stopped := true)
  }

  /** One step; None when a receipt contradicts its binding or cannot be read. */
  function PlanStep(def: Definition, prepare: Evaluator, receipts: Receipts, i: nat, p: Plan): Option<Plan>
    requires i < |def.steps|
  {
    var step := def.steps[i];
    if p.stopped then Some(Noted(p, step.id, NotRun))
    else
      match prepare(i, p.values)
      case Unresolved => Some(Halted(p, step.id, Failed, Failed))
      case SkipIt => Some(Noted(p, step.id, Skipped))
      case Ready(input) =>
        match Read(step, ReceiptOf(receipts, i))
        case Awaiting => Some(Halted(p, step.id, NotRun, Failed).(next := Some(Call(i, input))))
        case Conflict => None
        case Reads(e) => Some(PlanEffect(p, step, e))
  }

  function PlanEffect(p: Plan, step: Step, e: Effect): Plan {
    if e.value.None? then Halted(p, step.id, e.state, e.state)
    else
      var kept := p.(values := Values(p.values.trigger, p.values.steps[step.id := e.value.value]), completed := true);
      if e.state != Partial then Noted(kept, step.id, e.state)
      else if MayBePartial(step) then Noted(kept, step.id, Partial).(state := Partial)
      else Halted(kept, step.id, Partial, Partial)
  }

  function PlanFrom(def: Definition, prepare: Evaluator, receipts: Receipts, i: nat, p: Plan): Option<Plan>
    requires i <= |def.steps|
    decreases |def.steps| - i
  {
    if i == |def.steps| then Some(p)
    else
      var q := PlanStep(def, prepare, receipts, i, p);
      if q.None? then None else PlanFrom(def, prepare, receipts, i + 1, q.value)
  }

  function NoPlan(trigger: Json): Plan {
    Plan(Completed, [], Values(trigger, map[]), None, false, false)
  }

  /** A run that failed after a step completed is reported as partial. */
  function Softened(p: Plan): Plan {
    if p.state == Failed && p.completed then p.(state := Partial) else p
  }

  method EvaluatePlan(def: Definition, prepare: Evaluator, receipts: Receipts, trigger: Json)
    returns (plan: Option<Plan>)
    ensures
      var whole := PlanFrom(def, prepare, receipts, 0, NoPlan(trigger));
      plan == if whole.None? then None else Some(Softened(whole.value))
  {
    hide PlanStep;
    var p := NoPlan(trigger);
    for i := 0 to |def.steps|
      invariant PlanFrom(def, prepare, receipts, 0, NoPlan(trigger)) == PlanFrom(def, prepare, receipts, i, p)
    {
      var q := PlanStep(def, prepare, receipts, i, p);
      if q.None? { return None; }
      p := q.value;
    }
    return Some(Softened(p));
  }

  // -------------------------------------------------------- what the plan says

  /** The call has no end yet: no receipt, or one of an agent or a wait that is still under way. */
  predicate UnderWay(step: Step, receipt: Option<Receipt>) {
    match receipt
    case None => true
    case Some(r) =>
      match step
      case Agent(_, _, _, _) => r.state in {Pending, InProgress}
      case Wait(_, _, _) => r.state in {Pending, Waiting}
      case Capability(_, _, _, _) => false
  }

  /** What a receipt of the right tool that has ended confirms: a state, and for a result its value. */
  predicate Confirms(step: Step, r: Receipt, state: StepState, value: Option<Json>) {
    match r.state
    case Started => state == Uncertain && value == None
    case Unknown => state == Uncertain && value == None
    case Unsettled => state == Uncertain && value == None
    case Parted => state == (if step.Agent? then Partial else Failed) && value == None
    case Settled =>
      if step.Wait? then state == Completed && value == Some(JObject(map["resumed" := JBool(true)]))
      else
        && r.outcome.Some? && r.outcome.value.success && value == Some(r.outcome.value.result)
        && state == if r.outcome.value.partial then Partial else Completed
    case _ => state == Failed && value == None
  }

  lemma ReceiptSays(step: Step, receipt: Option<Receipt>)
    ensures
      var reading := Read(step, receipt);
      && (reading.Awaiting? <==> UnderWay(step, receipt))
      && (reading.Reads? ==> !UnderWay(step, receipt) && receipt.value.sameTool &&
                             Confirms(step, receipt.value, reading.effect.state, reading.effect.value))
      && (reading.Conflict? <==>
            && !UnderWay(step, receipt)
            && (!receipt.value.sameTool || forall state, value :: !Confirms(step, receipt.value, state, value)))
  {
    if receipt.Some? {
      var r := receipt.value;
      var settled := if step.Wait? then Some(JObject(map["resumed" := JBool(true)]))
                     else if r.outcome.Some? then Some(r.outcome.value.result) else None;
      var (state, value) :=
        match r.state
        case Started => (Uncertain, None)
        case Unknown => (Uncertain, None)
        case Unsettled => (Uncertain, None)
        case Parted => (if step.Agent? then Partial else Failed, None)
        case Settled => (if !step.Wait? && r.outcome.Some? && r.outcome.value.partial then Partial else Completed,
                         settled)
        case _ => (Failed, None);
      assert Read(step, receipt).Reads? ==> Confirms(step, r, state, value);
    }
  }

  /** The plan goes on past a value that is complete, or partial where the step allows it. */
  predicate PassesWith(step: Step, state: StepState, value: Option<Json>) {
    value.Some? && (state == Completed || (state == Partial && step.Capability? && step.allowPartial))
  }

  /** What a confirmed call does to the plan: its entry, its value, and whether the plan goes on. */
  predicate EffectNoted(step: Step, p: Plan, q: Plan, state: StepState, value: Option<Json>) {
    && q.steps == p.steps + [Entry(step.id, state)] && q.next == p.next
    && q.values == Values(p.values.trigger,
                          if value.Some? then p.values.steps[step.id := value.value] else p.values.steps)
    && (q.completed <==> p.completed || value.Some?)
    && (q.stopped <==> p.stopped || !PassesWith(step, state, value))
    && q.state == if value.Some? && state == Completed then p.state else state
  }

  /** One step of the plan, case by case. */
  lemma PlanStepNotes(def: Definition, prepare: Evaluator, receipts: Receipts, i: nat, p: Plan)
    requires i < |def.steps|
    ensures
      var step, receipt, q := def.steps[i], ReceiptOf(receipts, i), PlanStep(def, prepare, receipts, i, p);
      if p.stopped then q == Some(p.(steps := p.steps + [Entry(step.id, NotRun)]))
      else if prepare(i, p.values).SkipIt? then q == Some(p.(steps := p.steps + [Entry(step.id, Skipped)]))
      else if prepare(i, p.values).Unresolved? then
        q == Some(Plan(Failed, p.steps + [Entry(step.id, Failed)], p.values, p.next, true, p.completed))
      else if UnderWay(step, receipt) then
        var next := Some(Call(i, prepare(i, p.values).input));
        q == Some(Plan(Failed, p.steps + [Entry(step.id, NotRun)], p.values, next, true, p.completed))
      else if !receipt.value.sameTool then q.None?
      else
        && (q.None? <==> forall state, value :: !Confirms(step, receipt.value, state, value))
        && forall state, value | Confirms(step, receipt.value, state, value) ::
             q.Some? && EffectNoted(step, p, q.value, state, value)
  {
    hide Read;
    ReceiptSays(def.steps[i], ReceiptOf(receipts, i));
    if !p.stopped && prepare(i, p.values).Ready? && Read(def.steps[i], ReceiptOf(receipts, i)).Reads? {
      ConfirmsOnce(def.steps[i], ReceiptOf(receipts, i).value);
      ReadStates(def.steps[i], ReceiptOf(receipts, i));
    }
  }

  lemma ConfirmsOnce(step: Step, r: Receipt)
    ensures forall s, v, s', v' | Confirms(step, r, s, v) && Confirms(step, r, s', v') :: s == s' && v == v'
  {
  }

  /** A plan that failed after a call was completed counts as partial; nothing else about it changes. */
  lemma SoftenedIs(p: Plan)
    ensures
      var state := if p.state == Failed && p.completed then Partial else p.state;
      Softened(p) == Plan(state, p.steps, p.values, p.next, p.stopped, p.completed)
  {
  }

  // ---------------------------------------------------- the two preparations

  /** The server's evaluation of a step's condition and expression. */
  ghost function ServerPrepare(step: Step, values: Values): Prepared {
    var when := GoCondition(if step.when.Some? then Some(EncodeCondition(step.when.value)) else None, values);
    if !when.Ok? then Unresolved
    else if !when.value then SkipIt
    else
      var v := GoResolveValue(Some(Encode(step.input)), values);
      if v.Ok? then Ready(v.value) else Unresolved
  }

  ghost function Server(def: Definition): Evaluator {
    (i: nat, values: Values) => if i < |def.steps| then ServerPrepare(def.steps[i], values) else Unresolved
  }

  function Truth(step: Step, values: Values): Result<bool> {
    if step.when.Some? then TsCondition(step.when.value, values) else Ok(true)
  }

  /** What a step's condition and expression say by themselves. */
  function Stated(step: Step, values: Values): Prepared {
    if !Truth(step, values).Ok? then Unresolved
    else if !Truth(step, values).value then SkipIt
    else if TsValue(step.input, values).Ok? then Ready(TsValue(step.input, values).value)
    else Unresolved
  }

  /** The server finds a value it looks at too long. */
  ghost predicate ServerRefuses(step: Step, values: Values) {
    || (step.when.Some? && !SmallOnPath(step.when.value, values))
    || (Truth(step, values) == Ok(true) && !Small(TsValue(step.input, values)))
  }

  /** The coordinator's own checks fail: the skip's checkpoint, or the input's shape. */
  predicate CoordinatorRefuses(w: Ports, step: Step, i: nat, values: Values) {
    match Stated(step, values)
    case SkipIt => !w.checkpoint(i, Skipped)
    case Unresolved => false
    case Ready(input) => !w.valueOk(input) || (!step.Capability? && !input.JString?) || (step.Wait? && !w.timeOk(input))
  }

  /** The step's expressions are readable, and nothing in its condition is a negative zero. */
  ghost predicate ReadableStep(step: Step) {
    Readable(step.input) && (step.when.Some? ==> ReadableCondition(step.when.value) && PlainCondition(step.when.value))
  }

  /** The definition's expressions stand in a text that passed admission. */
  ghost predicate WrittenIn(def: Definition, text: Json) {
    forall i | 0 <= i < |def.steps| ::
      && Contains(text, Encode(def.steps[i].input))
      && (def.steps[i].when.Some? ==>
            Contains(text, EncodeCondition(def.steps[i].when.value)) && PlainCondition(def.steps[i].when.value))
  }

  ghost predicate ReadableSteps(def: Definition) {
    forall i | 0 <= i < |def.steps| :: ReadableStep(def.steps[i])
  }

  lemma WrittenIsReadable(def: Definition, text: Json)
    requires AdmittedText(text) && WrittenIn(def, text)
    ensures ReadableSteps(def)
  {
    hide AdmittedText, Contains, Encode, EncodeCondition, Readable, ReadableCondition, PlainCondition;
    forall i | 0 <= i < |def.steps| ensures ReadableStep(def.steps[i]) {
      AdmittedIsReadable(text, def.steps[i].input);
      if def.steps[i].when.Some? { AdmittedConditionIsReadable(text, def.steps[i].when.value); }
    }
  }

  /** Each side prepares a step as it is stated, unless it refuses. */
  lemma Preparations(w: Ports, step: Step, i: nat, values: Values)
    requires ReadableStep(step) && PlainValues(values)
    ensures ServerPrepare(step, values) == if ServerRefuses(step, values) then Unresolved else Stated(step, values)
    ensures Prepare(w, step, i, values) == if CoordinatorRefuses(w, step, i, values) then Unresolved
      else Stated(step, values)
  {
    hide Readable, ReadableCondition, PlainCondition, PlainValues, Small, SmallOnPath, GoResolveValue, GoConditionAt,
         TsValue, TsCondition;
    ResolvesAlike(step.input, values);
    if step.when.Some? { ConditionAnswers(step.when.value, values); }
  }

  // ------------------------------------------------------ the run's evidence

  function EffectAt(w: Ports, def: Definition, i: nat, r: Run, input: Json): Effect requires i < |def.steps| {
    Confirm(w, r.retained, CallOut(w, def.steps[i], i, input))
  }

  /** A value that both the coordinator and the receipt confirm is the same value. */
  predicate ValueFits(w: Ports, def: Definition, receipts: Receipts, i: nat, r: Run) requires i < |def.steps| {
    var prepared := Prepare(w, def.steps[i], i, r.values);
    prepared.Ready? ==>
      var reading := Read(def.steps[i], ReceiptOf(receipts, i));
      var effect := EffectAt(w, def, i, r, prepared.input);
      reading.Reads? && reading.effect.value.Some? && effect.value.Some? ==> reading.effect.value == effect.value
  }

  /** The receipt of a call also reads as the state the coordinator confirmed; without a call there is none. */
  predicate ReceiptFits(w: Ports, def: Definition, receipts: Receipts, i: nat, r: Run) requires i < |def.steps| {
    var prepared := Prepare(w, def.steps[i], i, r.values);
    && ValueFits(w, def, receipts, i, r)
    && if prepared.Ready? then ReadsAs(def, receipts, i, EffectAt(w, def, i, r, prepared.input).state)
       else i !in receipts
  }

  predicate ReadsAs(def: Definition, receipts: Receipts, i: nat, state: StepState) requires i < |def.steps| {
    var reading := Read(def.steps[i], ReceiptOf(receipts, i));
    reading.Reads? && reading.effect.state == state
  }

  /**
   * At every step the run passes, a value confirmed on both sides is one value; no result holds a negative zero.
   * Whatever else the receipts say, and whichever calls they record, is left open.
   */
  ghost predicate EvidenceFrom(w: Ports, def: Definition, receipts: Receipts, i: nat, r: Run)
    requires i <= |def.steps|
    decreases |def.steps| - i
  {
    i < |def.steps| ==>
      && PlainValues(r.values)
      && var (q, outcome) := RunStep(w, def, i, r);
         outcome.Continue? ==> ValueFits(w, def, receipts, i, r) && EvidenceFrom(w, def, receipts, i + 1, q)
  }

  /** Up to the moment the run, in state s, comes to step n the receipts are those of its calls. */
  ghost predicate EvidenceUpTo(w: Ports, def: Definition, receipts: Receipts, i: nat, r: Run, n: nat, s: Run)
    requires i <= n < |def.steps|
    decreases n - i
  {
    && PlainValues(r.values)
    && if i == n then r == s && n !in receipts
       else
         && ReceiptFits(w, def, receipts, i, r)
         && var (q, outcome) := RunStep(w, def, i, r);
            outcome.Continue? && EvidenceUpTo(w, def, receipts, i + 1, q, n, s)
  }

  // ------------------------------------------------ where the server follows

  /**
   * The two account for the step alike: it has no input; or they skip it or refuse it together; or the server
   * refuses a step whose call failed; or the receipt reads as what the coordinator confirmed, which is a
   * failure when it refused the step.
   */
  ghost predicate StepTracked(w: Ports, def: Definition, receipts: Receipts, i: nat, r: Run) requires i < |def.steps| {
    var step := def.steps[i];
    var server, coordinator := ServerRefuses(step, r.values), CoordinatorRefuses(w, step, i, r.values);
    match Stated(step, r.values)
    case Unresolved => true
    case SkipIt => server <==> coordinator
    case Ready(input) =>
      var state := if coordinator then Failed else EffectAt(w, def, i, r, input).state;
      if server then state == Failed else ReadsAs(def, receipts, i, state)
  }

  ghost predicate Tracked(w: Ports, def: Definition, receipts: Receipts, i: nat, r: Run)
    requires i <= |def.steps|
    decreases |def.steps| - i
  {
    i < |def.steps| ==>
      && StepTracked(w, def, receipts, i, r)
      && var (q, outcome) := RunStep(w, def, i, r);
         outcome.Continue? ==> Tracked(w, def, receipts, i + 1, q)
  }

  /** The plan passes the step: it skips it, or its receipt holds a value that lets the routine go on. */
  ghost predicate PassedOver(def: Definition, receipts: Receipts, i: nat, values: Values) requires i < |def.steps| {
    var step := def.steps[i];
    && !ServerRefuses(step, values)
    && match Stated(step, values)
       case Unresolved => false
       case SkipIt => true
       case Ready(_) =>
         var reading := Read(step, ReceiptOf(receipts, i));
         && reading.Reads? && reading.effect.value.Some?
         && (reading.effect.state == Partial ==> MayBePartial(step))
  }

  /** The plan passes every step from i to n and finds no final receipt for the call of step n. */
  ghost predicate ComesTo(w: Ports, def: Definition, receipts: Receipts, i: nat, r: Run, n: nat)
    requires i <= n < |def.steps|
    decreases n - i
  {
    if i == n then !ServerRefuses(def.steps[n], r.values) && Read(def.steps[n], ReceiptOf(receipts, n)).Awaiting?
    else
      && PassedOver(def, receipts, i, r.values)
      && var (q, outcome) := RunStep(w, def, i, r);
         outcome.Continue? ==> ComesTo(w, def, receipts, i + 1, q, n)
  }

  /** The run passes every step from i on and stands in state s before step n, with values fitting throughout. */
  ghost predicate Arrives(w: Ports, def: Definition, receipts: Receipts, i: nat, r: Run, n: nat, s: Run)
    requires i <= n < |def.steps|
    decreases n - i
  {
    && PlainValues(r.values)
    && if i == n then r == s
       else
         && ValueFits(w, def, receipts, i, r)
         && var (q, outcome) := RunStep(w, def, i, r);
            outcome.Continue? && Arrives(w, def, receipts, i + 1, q, n, s)
  }

  /** The server refuses no step from i to n. */
  ghost predicate NoneRefused(w: Ports, def: Definition, i: nat, r: Run, n: nat)
    requires i <= n < |def.steps|
    decreases n - i
  {
    && !ServerRefuses(def.steps[i], r.values)
    && var (q, outcome) := RunStep(w, def, i, r);
       i < n && outcome.Continue? ==> NoneRefused(w, def, i + 1, q, n)
  }

  predicate AnyDone(entries: seq<Entry>) {
    exists k :: 0 <= k < |entries| && (entries[k].state == Completed || entries[k].state == Partial)
  }

  /** The plan stands before a step with the results of the run. */
  predicate Abreast(p: Plan, r: Run, i: nat) {
    |p.steps| == i == |r.report.steps| && p.values == r.values && p.next.None? && !p.stopped
  }

  /** The plan stands where the run stands before a step. */
  predicate Follows(p: Plan, r: Run, i: nat) {
    && Abreast(p, r, i) && p.steps == r.report.steps && p.state == r.report.state && p.state != Failed
    && (p.completed <==> AnyDone(p.steps))
  }

  lemma OneMoreDone(entries: seq<Entry>, e: Entry)
    ensures AnyDone(entries + [e]) <==> AnyDone(entries) || e.state == Completed || e.state == Partial
  {
    var more := entries + [e];
    if AnyDone(entries) {
      var k :| 0 <= k < |entries| && (entries[k].state == Completed || entries[k].state == Partial);
      assert more[k] == entries[k];
    }
    assert more[|entries|] == e;
  }

  /** A step the run passes: tracking, the plan passes it as well; otherwise it notes another state or fails. */
  lemma PassedStep(w: Ports, def: Definition, receipts: Receipts, i: nat, r: Run, p: Plan)
    requires i < |def.steps| && Abreast(p, r, i) && ReadableStep(def.steps[i]) && PlainValues(r.values)
    requires ValueFits(w, def, receipts, i, r) && RunStep(w, def, i, r).1.Continue?
    ensures
      var q := PlanStep(def, Server(def), receipts, i, p);
      var next := RunStep(w, def, i, r).0;
      && |next.report.steps| == i + 1
      && (StepTracked(w, def, receipts, i, r) ==> PassedOver(def, receipts, i, r.values))
      && (StepTracked(w, def, receipts, i, r) && Follows(p, r, i) ==> q.Some? && Follows(q.value, next, i + 1))
      && (PassedOver(def, receipts, i, r.values) ==> q.Some? && Abreast(q.value, next, i + 1))
      && (q.Some? ==> |q.value.steps| == i + 1)
      && (q.Some? && !StepTracked(w, def, receipts, i, r) ==> q.value.steps[i].state != next.report.steps[i].state)
      && (q.Some? && !PassedOver(def, receipts, i, r.values) ==>
            q.value.stopped && (q.value.next.Some? ==> q.value.next.value.index == i))
  {
    hide ReadableStep, PlainValues, ServerRefuses, CoordinatorRefuses, Stated, ServerPrepare, Prepare, Confirm,
         CallOut, Read, AnyDone;
    var step := def.steps[i];
    Preparations(w, step, i, r.values);
    OneMoreDone(p.steps, Entry(step.id, Skipped));
    OneMoreDone(p.steps, Entry(step.id, Completed));
    OneMoreDone(p.steps, Entry(step.id, Partial));
    var prepared := Prepare(w, step, i, r.values);
    if prepared.Ready? {
      ConfirmStates(w, r.retained, CallOut(w, step, i, prepared.input));
      if Read(step, ReceiptOf(receipts, i)).Reads? { ReadStates(step, ReceiptOf(receipts, i)); }
    }
  }

  /** A completed effect is read with its value, and so is a partial one unless it is an agent's. */
  lemma ReadStates(step: Step, receipt: Option<Receipt>)
    requires Read(step, receipt).Reads?
    ensures
      var e := Read(step, receipt).effect;
      && (e.state == Completed || e.state == Partial || e.state == Failed || e.state == Uncertain)
      && (e.state == Completed || (e.state == Partial && MayBePartial(step)) ==> e.value.Some?)
      && (e.value.Some? ==> e.state == Completed || e.state == Partial)
  {
  }

  lemma NoReceipt(step: Step)
    ensures Read(step, None) == Awaiting
  {
  }

  /** The report of a step the run stops at, and the plan's account of it. */
  lemma StoppedStep(w: Ports, def: Definition, receipts: Receipts, i: nat, r: Run, p: Plan)
    requires i < |def.steps| && Follows(p, r, i) && ReadableStep(def.steps[i]) && PlainValues(r.values)
    requires RunStep(w, def, i, r).1.Stopped?
    ensures
      var report := RunStep(w, def, i, r).0.report;
      var q := PlanStep(def, Server(def), receipts, i, p);
      var tracked := StepTracked(w, def, receipts, i, r);
      && (tracked ==> q.Some?)
      && exists state ::
           StopsWith(def, i, r, report, state) && (q.Some? ==> PlanStops(def, i, p, q.value, state, tracked))
  {
    hide ReadableStep, PlainValues, ServerRefuses, CoordinatorRefuses, Stated, ServerPrepare, Prepare, Confirm,
         CallOut, Read, AnyDone, NotRunFrom;
    var step := def.steps[i];
    Preparations(w, step, i, r.values);
    var prepared := Prepare(w, step, i, r.values);
    var report := RunStep(w, def, i, r).0.report;
    if Read(step, ReceiptOf(receipts, i)).Reads? { ReadStates(step, ReceiptOf(receipts, i)); }
    if prepared.Ready? {
      var effect := EffectAt(w, def, i, r, prepared.input);
      ConfirmStates(w, r.retained, CallOut(w, step, i, prepared.input));
      assert StopsWith(def, i, r, report, effect.state);
    } else {
      assert StopsWith(def, i, r, report, Failed);
    }
  }

  predicate StopsWith(def: Definition, i: nat, r: Run, report: Report, state: StepState) requires i < |def.steps| {
    report.state == state && report.steps ==
      r.report.steps + [Entry(def.steps[i].id, state)] + NotRunFrom(def.steps, i + 1)
  }

  /** Tracking, the plan stops at the step in the same state; not tracking, it notes another state. */
  predicate PlanStops(def: Definition, i: nat, p: Plan, q: Plan, state: StepState, tracked: bool)
    requires i < |def.steps|
  {
    exists own ::
      && q.steps == p.steps + [Entry(def.steps[i].id, own)] && (own == state <==> tracked)
      && (tracked ==> q.stopped && q.next.None? && q.state == state && (state == Failed ==> q.completed == p.completed))
  }

  // ------------------------------------------------------------ whole plans

  /** What is noted stays noted. */
  lemma {:induction false} PlanExtends(def: Definition, prepare: Evaluator, receipts: Receipts, i: nat, p: Plan)
    requires i <= |def.steps| && PlanFrom(def, prepare, receipts, i, p).Some?
    ensures p.steps <= PlanFrom(def, prepare, receipts, i, p).value.steps
    decreases |def.steps| - i
  {
    if i < |def.steps| {
      var q := PlanStep(def, prepare, receipts, i, p);
      PlanExtends(def, prepare, receipts, i + 1, q.value);
    }
  }

  /** A plan that has stopped lists the other steps as not run. */
  lemma {:induction false} StoppedPlan(def: Definition, prepare: Evaluator, receipts: Receipts, i: nat, p: Plan)
    requires i <= |def.steps| && p.stopped
    ensures PlanFrom(def, prepare, receipts, i, p) == Some(p.(steps := p.steps + NotRunFrom(def.steps, i)))
    decreases |def.steps| - i
  {
    if i < |def.steps| {
      StoppedPlan(def, prepare, receipts, i + 1, Noted(p, def.steps[i].id, NotRun));
      var entry := Entry(def.steps[i].id, NotRun);
      assert p.steps + NotRunFrom(def.steps, i) == (p.steps + [entry]) + NotRunFrom(def.steps, i + 1);
    } else {
      assert p.steps + NotRunFrom(def.steps, i) == p.steps;
    }
  }

  lemma StepExtends(w: Ports, def: Definition, i: nat, r: Run)
    requires i < |def.steps|
    ensures r.report.steps <= RunStep(w, def, i, r).0.report.steps
  {
    hide Prepare, Confirm, CallOut, MayBePartial, NotRunFrom;
  }

  /** What a run reports stays reported. */
  lemma {:induction false} RunExtends(w: Ports, def: Definition, i: nat, r: Run)
    requires i <= |def.steps|
    ensures r.report.steps <= RunFrom(w, def, i, r).0.report.steps
    decreases |def.steps| - i
  {
    hide RunStep;
    if i < |def.steps| {
      StepExtends(w, def, i, r);
      var (q, outcome) := RunStep(w, def, i, r);
      if outcome.Continue? { RunExtends(w, def, i + 1, q); }
    }
  }

  /** The state the server reports for a report of the coordinator's. */
  function ServerState(r: Report): StepState {
    if r.state == Failed && AnyDone(r.steps) then Partial else r.state
  }

  /** The plan accounts for every step as the report does, with nothing left to call. */
  predicate SameReport(plan: Option<Plan>, r: Report) {
    && plan.Some? && plan.value.steps == r.steps && plan.value.next.None?
    && Softened(plan.value).state == ServerState(r)
  }

  lemma NotRunIsNotDone(entries: seq<Entry>, e: Entry, steps: seq<Step>, i: nat)
    requires i <= |steps| && e.state == Failed
    ensures AnyDone(entries + [e] + NotRunFrom(steps, i)) == AnyDone(entries)
  {
    var all := entries + [e] + NotRunFrom(steps, i);
    if AnyDone(entries) {
      var k :| 0 <= k < |entries| && (entries[k].state == Completed || entries[k].state == Partial);
      assert all[k] == entries[k];
    }
  }

  /** From a step on: the two accounts agree exactly when the server tracks the rest of the run. */
  lemma {:induction false} PlanTracks(w: Ports, def: Definition, receipts: Receipts, i: nat, r: Run, p: Plan)
    requires i <= |def.steps| && ReadableSteps(def) && Follows(p, r, i)
    requires RunFrom(w, def, i, r).1 && EvidenceFrom(w, def, receipts, i, r)
    ensures
      var plan := PlanFrom(def, Server(def), receipts, i, p);
      var report := RunFrom(w, def, i, r).0.report;
      && (Tracked(w, def, receipts, i, r) ==> SameReport(plan, report))
      && (plan.Some? && plan.value.steps == report.steps ==> Tracked(w, def, receipts, i, r))
    decreases |def.steps| - i
  {
    hide RunStep, PlanStep, ReadableStep, PlainValues, ValueFits, StepTracked, PassedOver, AnyDone, Server;
    if i < |def.steps| {
      var (q, outcome) := RunStep(w, def, i, r);
      assert ReadableStep(def.steps[i]);
      if outcome.Continue? {
        PassedStep(w, def, receipts, i, r, p);
        var step := PlanStep(def, Server(def), receipts, i, p);
        if StepTracked(w, def, receipts, i, r) {
          PlanTracks(w, def, receipts, i + 1, q, step.value);
        } else if PlanFrom(def, Server(def), receipts, i, p).Some? {
          PlanExtends(def, Server(def), receipts, i + 1, step.value);
          RunExtends(w, def, i + 1, q);
          assert RunFrom(w, def, i, r).0.report.steps[i] == q.report.steps[i] != step.value.steps[i];
        }
      } else {
        StoppedThenRest(w, def, receipts, i, r, p);
      }
    }
  }

  lemma StoppedThenRest(w: Ports, def: Definition, receipts: Receipts, i: nat, r: Run, p: Plan)
    requires i < |def.steps| && Follows(p, r, i) && ReadableStep(def.steps[i]) && PlainValues(r.values)
    requires RunStep(w, def, i, r).1.Stopped?
    ensures
      var plan := PlanFrom(def, Server(def), receipts, i, p);
      var report := RunStep(w, def, i, r).0.report;
      && (StepTracked(w, def, receipts, i, r) ==> SameReport(plan, report))
      && (plan.Some? && plan.value.steps == report.steps ==> StepTracked(w, def, receipts, i, r))
  {
    hide RunStep, PlanStep, ReadableStep, PlainValues, StepTracked, AnyDone, Server;
    StoppedStep(w, def, receipts, i, r, p);
    var report := RunStep(w, def, i, r).0.report;
    var q := PlanStep(def, Server(def), receipts, i, p);
    var tracked := StepTracked(w, def, receipts, i, r);
    if q.Some? {
      var state :| StopsWith(def, i, r, report, state) && PlanStops(def, i, p, q.value, state, tracked);
      var own :| q.value.steps == p.steps + [Entry(def.steps[i].id, own)] && (own == state <==> tracked);
      if tracked {
        StoppedPlan(def, Server(def), receipts, i + 1, q.value);
        if state == Failed { NotRunIsNotDone(r.report.steps, Entry(def.steps[i].id, state), def.steps, i + 1); }
      } else if PlanFrom(def, Server(def), receipts, i, p).Some? {
        PlanExtends(def, Server(def), receipts, i + 1, q.value);
        assert q.value.steps[i] != report.steps[i];
      }
    }
  }

  /** With the receipts of its calls, a step the run passes is tracked exactly when the server does not refuse it. */
  lemma RefusedOrTracked(w: Ports, def: Definition, receipts: Receipts, i: nat, r: Run, p: Plan)
    requires i < |def.steps| && Abreast(p, r, i) && ReadableStep(def.steps[i]) && PlainValues(r.values)
    requires ReceiptFits(w, def, receipts, i, r) && RunStep(w, def, i, r).1.Continue?
    ensures StepTracked(w, def, receipts, i, r) <==> !ServerRefuses(def.steps[i], r.values)
    ensures ServerRefuses(def.steps[i], r.values) ==>
      PlanStep(def, Server(def), receipts, i, p) == Some(Halted(p, def.steps[i].id, Failed, Failed))
  {
    hide ReadableStep, PlainValues, ServerRefuses, CoordinatorRefuses, Stated, ServerPrepare, Prepare, Confirm,
         CallOut, Read;
    var step := def.steps[i];
    Preparations(w, step, i, r.values);
    var prepared := Prepare(w, step, i, r.values);
    if prepared.Ready? { ConfirmStates(w, r.retained, CallOut(w, step, i, prepared.input)); }
  }

  // ----------------------------------------------------------- the next call

  /** The plan of a run in progress asks for the call, or for none. */
  ghost predicate AsksFor(def: Definition, plan: Option<Plan>, call: Call, s: Run, asked: bool)
    requires call.index < |def.steps|
  {
    && plan.Some?
    && if asked then plan.value.next == Some(call) &&
          plan.value.steps == s.report.steps + NotRunFrom(def.steps, call.index)
       else plan.value.next.None?
  }

  lemma StepAsks(w: Ports, def: Definition, receipts: Receipts, n: nat, s: Run, input: Json, p: Plan)
    requires n < |def.steps| && Follows(p, s, n) && ReadableStep(def.steps[n]) && PlainValues(s.values)
    requires n !in receipts && Prepare(w, def.steps[n], n, s.values) == Ready(input)
    ensures
      AsksFor(def, PlanFrom(def, Server(def), receipts, n, p), Call(n, input), s,
              !ServerRefuses(def.steps[n], s.values))
  {
    hide ReadableStep, PlainValues, ServerRefuses, CoordinatorRefuses, Stated, ServerPrepare, Prepare, Read, AnyDone,
         NotRunFrom;
    var step := def.steps[n];
    Preparations(w, step, n, s.values);
    NoReceipt(step);
    var q := PlanStep(def, Server(def), receipts, n, p).value;
    StoppedPlan(def, Server(def), receipts, n + 1, q);
    NotRunSplit(def.steps, n, s.report.steps);
  }

  lemma NotRunSplit(steps: seq<Step>, i: nat, before: seq<Entry>)
    requires i < |steps|
    ensures before + NotRunFrom(steps, i) == before + [Entry(steps[i].id, NotRun)] + NotRunFrom(steps, i + 1)
  {
  }

  lemma {:induction false} PlanAsks(w: Ports, def: Definition, receipts: Receipts, i: nat, r: Run, p: Plan, n: nat,
                                    s: Run, input: Json)
    requires i <= n < |def.steps| && ReadableSteps(def) && Follows(p, r, i)
    requires EvidenceUpTo(w, def, receipts, i, r, n, s) && Prepare(w, def.steps[n], n, s.values) == Ready(input)
    ensures AsksFor(def, PlanFrom(def, Server(def), receipts, i, p), Call(n, input), s, NoneRefused(w, def, i, r, n))
    decreases n - i
  {
    hide RunStep, PlanStep, ReadableStep, PlainValues, ValueFits, ReadsAs, StepTracked, PassedOver, AnyDone, Server,
         Prepare, ServerRefuses;
    assert ReadableStep(def.steps[i]);
    if i == n {
      StepAsks(w, def, receipts, n, s, input, p);
    } else {
      PassedStep(w, def, receipts, i, r, p);
      RefusedOrTracked(w, def, receipts, i, r, p);
      if !ServerRefuses(def.steps[i], r.values) {
        PlanAsks(w, def, receipts, i + 1, RunStep(w, def, i, r).0, PlanStep(def, Server(def), receipts, i, p).value, n,
                 s, input);
      } else {
        StoppedPlan(def, Server(def), receipts, i + 1, Halted(p, def.steps[i].id, Failed, Failed));
      }
    }
  }

  /** Whatever the receipts say, a plan asks for no call before the steps it has yet to see. */
  lemma {:induction false} AsksLater(def: Definition, prepare: Evaluator, receipts: Receipts, i: nat, p: Plan)
    requires i <= |def.steps| && p.next.None? && PlanFrom(def, prepare, receipts, i, p).Some?
    ensures
      var next := PlanFrom(def, prepare, receipts, i, p).value.next;
      next.Some? ==> next.value.index >= i
    decreases |def.steps| - i
  {
    hide PlanEffect, Read;
    if i < |def.steps| {
      EffectKeepsNext(def, receipts, i, p);
      var q := PlanStep(def, prepare, receipts, i, p).value;
      if q.next.None? {
        AsksLater(def, prepare, receipts, i + 1, q);
      } else {
        StoppedPlan(def, prepare, receipts, i + 1, q);
      }
    }
  }

  lemma EffectKeepsNext(def: Definition, receipts: Receipts, i: nat, p: Plan)
    requires i < |def.steps|
    ensures forall e :: PlanEffect(p, def.steps[i], e).next == p.next
  {
  }

  ghost predicate AsksExactly(plan: Option<Plan>, call: Call) {
    plan.Some? && plan.value.next == Some(call)
  }

  lemma StepAsksExactly(w: Ports, def: Definition, receipts: Receipts, n: nat, s: Run, input: Json, p: Plan)
    requires n < |def.steps| && Abreast(p, s, n) && ReadableStep(def.steps[n]) && PlainValues(s.values)
    requires Prepare(w, def.steps[n], n, s.values) == Ready(input)
    ensures AsksExactly(PlanFrom(def, Server(def), receipts, n, p), Call(n, input))
            <==> !ServerRefuses(def.steps[n], s.values) && Read(def.steps[n], ReceiptOf(receipts, n)).Awaiting?
  {
    hide ReadableStep, PlainValues, ServerRefuses, CoordinatorRefuses, Stated, ServerPrepare, Prepare, Read,
         PlanEffect;
    Preparations(w, def.steps[n], n, s.values);
    EffectKeepsNext(def, receipts, n, p);
    var q := PlanStep(def, Server(def), receipts, n, p);
    if q.Some? {
      if q.value.stopped {
        StoppedPlan(def, Server(def), receipts, n + 1, q.value);
      } else if PlanFrom(def, Server(def), receipts, n, p).Some? {
        AsksLater(def, Server(def), receipts, n + 1, q.value);
      }
    }
  }

  lemma {:induction false} PlanComesTo(w: Ports, def: Definition, receipts: Receipts, i: nat, r: Run, p: Plan, n: nat,
                                       s: Run, input: Json)
    requires i <= n < |def.steps| && ReadableSteps(def) && Abreast(p, r, i)
    requires Arrives(w, def, receipts, i, r, n, s) && Prepare(w, def.steps[n], n, s.values) == Ready(input)
    ensures AsksExactly(PlanFrom(def, Server(def), receipts, i, p), Call(n, input))
            <==> ComesTo(w, def, receipts, i, r, n)
    decreases n - i
  {
    hide RunStep, PlanStep, ReadableStep, PlainValues, ValueFits, StepTracked, PassedOver, Server, Prepare,
         ServerRefuses, Read;
    assert ReadableStep(def.steps[i]);
    if i == n {
      StepAsksExactly(w, def, receipts, n, s, input, p);
    } else {
      PassedStep(w, def, receipts, i, r, p);
      var q := PlanStep(def, Server(def), receipts, i, p);
      if PassedOver(def, receipts, i, r.values) {
        PlanComesTo(w, def, receipts, i + 1, RunStep(w, def, i, r).0, q.value, n, s, input);
      } else if q.Some? {
        StoppedPlan(def, Server(def), receipts, i + 1, q.value);
      }
    }
  }

  // ------------------------------------------------------------ main results

  lemma ReportedIsRun(w: Ports, def: Definition, trigger: Json)
    requires Execute(w, def, trigger).1
    ensures Execute(w, def, trigger) == RunFrom(w, def, 0, Begin(trigger))
  {
  }

  lemma SameReportSteps(plan: Option<Plan>, r: Report)
    ensures SameReport(plan, r) ==> plan.Some? && plan.value.steps == r.steps
  {
  }

  lemma BeginFollowed(trigger: Json)
    ensures Follows(NoPlan(trigger), Begin(trigger), 0) && Abreast(NoPlan(trigger), Begin(trigger), 0)
  {
  }

  /**
   * For an admitted routine whose run came to a report, the plan made from the receipts of that run gives the
   * coordinator's report, step by step, exactly when the server tracks every step of the run; then no call is
   * left and the reports' states agree, but for a failure after a completed step, which the server calls partial.
   */
  lemma PlanReportsIffTracked(w: Ports, def: Definition, text: Json, receipts: Receipts, trigger: Json)
    requires AdmittedText(text) && WrittenIn(def, text)
    requires Execute(w, def, trigger).1 && EvidenceFrom(w, def, receipts, 0, Begin(trigger))
    ensures
      var plan := PlanFrom(def, Server(def), receipts, 0, NoPlan(trigger));
      var report := Execute(w, def, trigger).0.report;
      && (plan.Some? && plan.value.steps == report.steps <==> Tracked(w, def, receipts, 0, Begin(trigger)))
      && (Tracked(w, def, receipts, 0, Begin(trigger)) ==> SameReport(plan, report))
  {
    hide *;
    WrittenIsReadable(def, text);
    BeginFollowed(trigger);
    ReportedIsRun(w, def, trigger);
    PlanTracks(w, def, receipts, 0, Begin(trigger), NoPlan(trigger));
    SameReportSteps(PlanFrom(def, Server(def), receipts, 0, NoPlan(trigger)), Execute(w, def, trigger).0.report);
  }

  /**
   * For an admitted routine whose run is about to call step n, the plan made from the receipts so far asks for
   * that very call exactly when the server refused no step up to it; otherwise it asks for none.
   */
  lemma NextCallIffNoneRefused(w: Ports, def: Definition, text: Json, receipts: Receipts, trigger: Json, n: nat,
                               s: Run, input: Json)
    requires AdmittedText(text) && WrittenIn(def, text) && n < |def.steps|
    requires EvidenceUpTo(w, def, receipts, 0, Begin(trigger), n, s) &&
      Prepare(w, def.steps[n], n, s.values) == Ready(input)
    ensures
      var plan := PlanFrom(def, Server(def), receipts, 0, NoPlan(trigger));
      AsksFor(def, plan, Call(n, input), s, NoneRefused(w, def, 0, Begin(trigger), n))
  {
    hide *;
    WrittenIsReadable(def, text);
    BeginFollowed(trigger);
    PlanAsks(w, def, receipts, 0, Begin(trigger), NoPlan(trigger), n, s, input);
  }

  /**
   * For an admitted routine whose run is about to call step n, and whatever the receipts say, the plan asks for
   * that very call exactly when it passes every step before n and finds no final receipt at n.
   */
  lemma NextCallIffComesTo(w: Ports, def: Definition, text: Json, receipts: Receipts, trigger: Json, n: nat,
                           s: Run, input: Json)
    requires AdmittedText(text) && WrittenIn(def, text) && n < |def.steps|
    requires Arrives(w, def, receipts, 0, Begin(trigger), n, s) && Prepare(w, def.steps[n], n, s.values) == Ready(input)
    ensures AsksExactly(PlanFrom(def, Server(def), receipts, 0, NoPlan(trigger)), Call(n, input))
            <==> ComesTo(w, def, receipts, 0, Begin(trigger), n)
  {
    hide *;
    WrittenIsReadable(def, text);
    BeginFollowed(trigger);
    PlanComesTo(w, def, receipts, 0, Begin(trigger), NoPlan(trigger), n, s, input);
  }

  // ------------------------------------------------------------ a lost reply

  const ZERO := Literal(JNumber("0"))

  /** Two calls with the same constant input. */
  const TWO_CALLS := Definition(
    [Capability("a", None, ZERO, false), Capability("b", None, ZERO, false)], 0, Unscheduled)

  /** The first call takes effect and is journaled, and its reply never arrives. */
  const REPLY_LOST := Ports(
    _ => true, _ => true, (_, _) => true, (_, _) => CallThrew, (_, _) => Mismatch, (_, _) => CallThrew,
    (_, _) => CallThrew, _ => true, _ => true, _ => true, _ => None, _ => 0)

  const JOURNALED: Receipts := map[0 := Receipt(true, Settled, Some(Outcome(true, false, JNull)))]

  lemma ConstantPrepared(id: string, values: Values)
    ensures ServerPrepare(Capability(id, None, ZERO, false), values) == Ready(JNumber("0"))
  {
    hide Bytes, Encode, Nested;
    NumbersAreReadable("0", "0");
    ResolvesAlike(ZERO, values);
  }

  /**
   * The coordinator stops, uncertain of the first call; the server's plan takes the call as completed from the
   * journal and asks for the second.
   */
  lemma LostReplyGoesOn()
    ensures
      var (r, reported) := Execute(REPLY_LOST, TWO_CALLS, JNull);
      var plan := PlanFrom(TWO_CALLS, Server(TWO_CALLS), JOURNALED, 0, NoPlan(JNull));
      && EvidenceFrom(REPLY_LOST, TWO_CALLS, JOURNALED, 0, Begin(JNull))
      && reported && r.report == Report(Uncertain, [Entry("a", Uncertain), Entry("b", NotRun)], EffectUncertain)
      && plan.Some? && plan.value.steps == [Entry("a", Completed), Entry("b", NotRun)]
      && plan.value.next == Some(Call(1, JNumber("0")))
      && !Tracked(REPLY_LOST, TWO_CALLS, JOURNALED, 0, Begin(JNull))
  {
    hide ServerPrepare;
    var begin := NoPlan(JNull);
    ConstantPrepared("a", begin.values);
    var first := PlanStep(TWO_CALLS, Server(TWO_CALLS), JOURNALED, 0, begin);
    assert first.Some? && first.value.steps == [Entry("a", Completed)] && !first.value.stopped;
    ConstantPrepared("b", first.value.values);
    var second := PlanStep(TWO_CALLS, Server(TWO_CALLS), JOURNALED, 1, first.value);
    assert second.value.steps == [Entry("a", Completed), Entry("b", NotRun)];
    assert PlanFrom(TWO_CALLS, Server(TWO_CALLS), JOURNALED, 1, first.value) == second;
    var (q, outcome) := RunStep(REPLY_LOST, TWO_CALLS, 0, Begin(JNull));
    assert NotRunFrom(TWO_CALLS.steps, 1) == [Entry("b", NotRun)];
    assert outcome.Stopped? && q.report.steps == [Entry("a", Uncertain), Entry("b", NotRun)];
  }
}
