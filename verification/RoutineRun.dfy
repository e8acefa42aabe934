/**
 * A saved routine from admission to report: the step loop of ParseRoutineDefinition and its check of the
 * trigger (routines.go lines 94-121 and 168-208), the coordinator's run (routine-coordinator.ts lines 61-149),
 * the agent step's adapter (routine-agent-adapter.ts lines 18-27) and its turn loop (routine-agent.ts lines
 * 55-149).
 */
module RoutineRun {
  import opened OrderedStrings
  import opened JsonValues
  import opened RoutineLanguage
  import opened RoutineWire

  datatype Step =
    | Capability(id: string, when: Option<Condition>, input: Value, allowPartial: bool)
    | Agent(id: string, when: Option<Condition>, input: Value, maxTurns: nat)
    | Wait(id: string, when: Option<Condition>, input: Value)

  datatype Clock = Clock(hour: nat, minute: nat)

  datatype Trigger = Schedule(timezone: string, days: seq<int>, times: seq<Clock>) | Unscheduled

  datatype Definition = Definition(steps: seq<Step>, modelTurns: nat, trigger: Trigger)

  /** Which output schemas compile, and which time zones are known. */
  datatype Rules = Rules(compiles: Step -> bool, zoneKnown: string -> bool)

  // --------------------------------------------------------------- admission

  function IdsBefore(steps: seq<Step>, i: nat): set<string> requires i <= |steps| {
    set k | 0 <= k < i :: steps[k].id
  }

  function Turns(step: Step): nat {
    if step.Agent? then step.maxTurns else 0
  }

  function TotalTurns(steps: seq<Step>, i: nat): nat requires i <= |steps| {
    if i == 0 then 0 else TotalTurns(steps, i - 1) + Turns(steps[i - 1])
  }

  /** A new identity, and references to steps already seen only. */
  ghost predicate StepFits(step: Step, seen: set<string>, rules: Rules) {
    && step.id !in seen
    && (step.when.Some? ==> ConditionNamesOnly(step.when.value, seen))
    && (step.Agent? ==> rules.compiles(step))
    && NamesOnly(step.input, seen)
  }

  ghost predicate StepAccepted(steps: seq<Step>, i: nat, rules: Rules) requires i < |steps| {
    StepFits(steps[i], IdsBefore(steps, i), rules)
  }

  /** The minute of the day a clock time stands for. */
  function MinuteOfDay(c: Clock): nat {
    c.hour * 60 + c.minute
  }

  ghost predicate DistinctDays(days: seq<int>) {
    forall i, j | 0 <= i < j < |days| :: days[i] != days[j]
  }

  ghost predicate DistinctTimes(times: seq<Clock>) {
    forall i, j | 0 <= i < j < |times| :: MinuteOfDay(times[i]) != MinuteOfDay(times[j])
  }

  /** A schedule names a known zone that is not the machine's own, and repeats no day and no time. */
  ghost predicate TriggerFits(t: Trigger, rules: Rules) {
    t.Schedule? ==>
      && t.timezone != "" && t.timezone != "Local" && rules.zoneKnown(t.timezone)
      && DistinctDays(t.days) && DistinctTimes(t.times)
  }

  /**
   * Within the range of a clock, a schedule runs at no minute of the day twice exactly when it repeats no
   * clock time.
   */
  lemma DistinctTimesIff(times: seq<Clock>)
    requires forall i | 0 <= i < |times| :: times[i].minute < 60
    ensures DistinctTimes(times) <==> forall i, j | 0 <= i < j < |times| :: times[i] != times[j]
  {
    forall i, j | 0 <= i < j < |times|
      ensures MinuteOfDay(times[i]) == MinuteOfDay(times[j]) <==> times[i] == times[j] {
      assert times[i].minute < 60 && times[j].minute < 60;
    }
  }

  /**
   * Identities are unique, references name earlier steps, the agents' turns fit the budget, and the trigger
   * can be scheduled.
   */
  ghost predicate Accepted(def: Definition, rules: Rules) {
    && (forall i | 0 <= i < |def.steps| :: StepAccepted(def.steps, i, rules))
    && TotalTurns(def.steps, |def.steps|) <= def.modelTurns
    && TriggerFits(def.trigger, rules)
  }

  /** The checks run on the wire form of each expression. */
  method ParseStep(step: Step, seen: set<string>, rules: Rules) returns (ok: bool)
    ensures ok <==> StepFits(step, seen, rules)
  {
    hide ReferencesValid, NamesOnly, ConditionNamesOnly;
    if step.id in seen { return false; }
    if step.when.Some? {
      ConditionCheck(step.when.value, seen);
      if !ReferencesValid(EncodeCondition(step.when.value), seen) { return false; }
    }
    if step.Agent? && !rules.compiles(step) { return false; }
    ValueCheck(step.input, seen);
    return ReferencesValid(Encode(step.input), seen);
  }

  method ParseSteps(def: Definition, rules: Rules) returns (ok: bool)
    ensures ok <==> Accepted(def, rules)
  {
    hide StepFits;
    var seen: set<string> := {};
    var turns := 0;
    for i := 0 to |def.steps|
      invariant seen == IdsBefore(def.steps, i) && turns == TotalTurns(def.steps, i)
      invariant forall k | 0 <= k < i :: StepAccepted(def.steps, k, rules)
    {
      var fits := ParseStep(def.steps[i], seen, rules);
      if !fits {
        assert !StepAccepted(def.steps, i, rules);
        return false;
      }
      turns := turns + Turns(def.steps[i]);
      seen := seen + {def.steps[i].id};
    }
    if turns > def.modelTurns { return false; }
    ok := ParseTrigger(def.trigger, rules);
  }

  method ParseTrigger(t: Trigger, rules: Rules) returns (ok: bool)
    ensures ok <==> TriggerFits(t, rules)
  {
    if t.Unscheduled? { return true; }
    if t.timezone == "" || t.timezone == "Local" || !rules.zoneKnown(t.timezone) { return false; }
    var days: set<int> := {};
    for i := 0 to |t.days|
      invariant days == set k | 0 <= k < i :: t.days[k]
      invariant forall k, j | 0 <= k < j < i :: t.days[k] != t.days[j]
    {
      if t.days[i] in days { return false; }
      days := days + {t.days[i]};
    }
    var minutes: set<int> := {};
    for i := 0 to |t.times|
      invariant minutes == set k | 0 <= k < i :: MinuteOfDay(t.times[k])
      invariant forall k, j | 0 <= k < j < i :: MinuteOfDay(t.times[k]) != MinuteOfDay(t.times[j])
    {
      if MinuteOfDay(t.times[i]) in minutes { return false; }
      minutes := minutes + {MinuteOfDay(t.times[i])};
    }
    return true;
  }

  // -------------------------------------------------------------- agent step

  datatype StepState = Completed | Partial | Skipped | Failed | Uncertain | NotRun

  /** A tool call the model proposes: its identity, and what its confirmed end says when it is executed. */
  datatype Tool = Duplicate | BadIdentity | Proposed(state: StepState)

  datatype StreamEnd = Threw | Aborted | Ended(oneStep: bool, reason: FinishReason)

  datatype FinishReason = ToolCalls | StopWith(outputOk: bool) | OtherReason

  /** One model turn: refused admission, no usable budget, or a stream. */
  datatype Turn = Refused | NoBudget | Stream(tools: seq<Tool>, end: StreamEnd)

  const MAX_CALLS := 40

  /** What the loop updates, with the ends of the tool calls it let run. */
  datatype Progress = Progress(admissions: nat, modelTurns: nat, capabilityCalls: nat, halted: Option<StepState>,
                               stopped: bool, executed: seq<StepState>)

  const FRESH := Progress(0, 0, 0, None, false, [])

  datatype AgentResult = AgentResult(state: StepState, progress: Progress)

  /** One tool call in its turn: nothing begins once the sequence has stopped. */
  function AfterTool(p: Progress, tool: Tool): Progress {
    if tool.Duplicate? then p
    else if p.stopped then p
    else if tool.BadIdentity? then p.(stopped := true)
    else if p.capabilityCalls >= MAX_CALLS then p.(halted := Some(Failed), stopped := true)
    else
      var q := p.(capabilityCalls := p.capabilityCalls + 1, executed := p.executed + [tool.state]);
      if tool.state == Completed then q else q.(halted := Some(tool.state), stopped := true)
  }

  function AfterTools(p: Progress, tools: seq<Tool>): Progress {
    if tools == [] then p else AfterTool(AfterTools(p, tools[..|tools| - 1]), tools[|tools| - 1])
  }

  /** The end of a turn: Some ends the step, None goes on to the next turn. */
  function TurnEnd(p: Progress, end: StreamEnd): Option<StepState> {
    if p.halted.Some? then p.halted
    else if end.Threw? || end.Aborted? then Some(Failed)
    else if p.stopped || !end.oneStep then Some(Failed)
    else if end.reason.ToolCalls? then None
    else if end.reason.StopWith? && end.reason.outputOk then Some(Completed)
    else Some(Failed)
  }

  /** The turns from one on, up to the step's own limit; a turn beyond the script is refused. */
  function AgentFrom(script: seq<Turn>, maxTurns: nat, turn: nat, p: Progress): AgentResult
    requires turn <= maxTurns
    decreases maxTurns - turn
  {
    if turn == maxTurns || turn >= |script| || script[turn].Refused? then AgentResult(Failed, p)
    else
      var q := p.(admissions := p.admissions + 1);
      if script[turn].NoBudget? then AgentResult(Failed, q)
      else
        var r := AfterTools(q.(modelTurns := q.modelTurns + 1), script[turn].tools);
        var end := TurnEnd(r, script[turn].end);
        if end.Some? then AgentResult(end.value, r) else AgentFrom(script, maxTurns, turn + 1, r)
  }

  method RunAgent(script: seq<Turn>, maxTurns: nat) returns (r: AgentResult)
    ensures r == AgentFrom(script, maxTurns, 0, FRESH)
  {
    var p := FRESH;
    for turn := 0 to maxTurns
      invariant AgentFrom(script, maxTurns, 0, FRESH) == AgentFrom(script, maxTurns, turn, p)
    {
      if turn >= |script| || script[turn].Refused? { return AgentResult(Failed, p); }
      p := p.(admissions := p.admissions + 1);
      if script[turn].NoBudget? { return AgentResult(Failed, p); }
      p := p.(modelTurns := p.modelTurns + 1);
      var tools := script[turn].tools;
      ghost var before := p;
      for k := 0 to |tools|
        invariant p == AfterTools(before, tools[..k])
      {
        assert tools[..k + 1][..k] == tools[..k];
        p := AfterTool(p, tools[k]);
      }
      assert tools[..|tools|] == tools;
      var end := TurnEnd(p, script[turn].end);
      if end.Some? { return AgentResult(end.value, p); }
    }
    return AgentResult(Failed, p);
  }

  /** Every executed call but the last was confirmed; the run has stopped exactly when something was not. */
  ghost predicate ProgressOk(p: Progress) {
    && p.capabilityCalls == |p.executed| <= MAX_CALLS
    && (forall i | 0 <= i < |p.executed| - 1 :: p.executed[i] == Completed)
    && (!p.stopped ==> p.halted.None? && forall i | 0 <= i < |p.executed| :: p.executed[i] == Completed)
    && (p.halted.Some? ==> p.stopped && p.halted.value != Completed)
    && (p.executed != [] && p.executed[|p.executed| - 1] != Completed ==>
        p.halted == Some(p.executed[|p.executed| - 1]))
    && p.modelTurns <= p.admissions <= p.modelTurns + 1
  }

  lemma {:induction false} ToolsKeepProgress(p: Progress, tools: seq<Tool>)
    requires ProgressOk(p)
    ensures ProgressOk(AfterTools(p, tools))
    ensures AfterTools(p, tools).admissions == p.admissions && AfterTools(p, tools).modelTurns == p.modelTurns
    ensures p.executed <= AfterTools(p, tools).executed
  {
    if tools != [] { ToolsKeepProgress(p, tools[..|tools| - 1]); }
  }

  /** No more model turns than the step allows, no more calls than the limit, and none after an unconfirmed one. */
  lemma {:induction false} AgentBounds(script: seq<Turn>, maxTurns: nat, turn: nat, p: Progress)
    requires turn <= maxTurns && ProgressOk(p) && p.admissions == p.modelTurns == turn && !p.stopped
    ensures
      var r := AgentFrom(script, maxTurns, turn, p);
      && ProgressOk(r.progress) && r.progress.admissions <= maxTurns
      && (r.state == Completed ==> forall i | 0 <= i < |r.progress.executed| :: r.progress.executed[i] == Completed)
      && (r.progress.executed != [] && r.progress.executed[|r.progress.executed| - 1] != Completed ==>
            r.state == r.progress.executed[|r.progress.executed| - 1])
    decreases maxTurns - turn
  {
    if turn < maxTurns && turn < |script| && script[turn].Stream? {
      var q := p.(admissions := p.admissions + 1, modelTurns := p.modelTurns + 1);
      ToolsKeepProgress(q, script[turn].tools);
      var r := AfterTools(q, script[turn].tools);
      if TurnEnd(r, script[turn].end).None? { AgentBounds(script, maxTurns, turn + 1, r); }
    }
  }

  // ------------------------------------------------------------- coordinator

  datatype Returned = CallThrew | Gave(raw: Option<Json>)

  /** What opening an agent step answers: an earlier outcome, another admission, or leave to run. */
  datatype Opening = Replayed(outcome: Json) | Mismatch | Running(script: seq<Turn>)

  /**
   * Everything outside the coordinator, each port as a function of what it is given. timeOk is a date no more
   * than a day ahead; outcomeOf reads a successful outcome's partial flag and result, when it is well formed.
   */
  datatype Ports = Ports(
    adapters: Definition -> bool,
    beforeStep: nat -> bool,
    checkpoint: (nat, StepState) -> bool,
    capability: (nat, Json) -> Returned,
    open: (nat, Json) -> Opening,
    finishAgent: (nat, AgentResult) -> Returned,
    wait: (nat, Json) -> Returned,
    valueOk: Json -> bool,
    timeOk: Json -> bool,
    outcomeOk: Json -> bool,
    outcomeOf: Json -> Option<(bool, Option<Json>)>,
    bytes: Json -> nat)

  const MAX_RETAINED := 2 * 1024 * 1024

  /** String(status) is one of the words: a list of one prints as its item. */
  predicate Words(status: Json, words: set<string>) {
    match status
    case JString(text) => text in words
    case JArray(items) => |items| == 1 && Words(items[0], words)
    case _ => false
  }

  const FAILURES := {"failure", "approval_required", "device_required", "user_intervention_required"}

  /** The state a raw tool result confirms, and the value it yields. */
  function ConfirmedOutput(w: Ports, raw: Option<Json>): (StepState, Option<Json>) {
    if raw.None? then (Failed, None)
    else
      var j := raw.value;
      if !j.JObject? then (Completed, raw)
      else
        var status := Field(j, "status");
        if status == Some(JString("uncertain")) then (Uncertain, None)
        else if Field(j, "denied") == Some(JBool(true)) || Field(j, "unavailable") == Some(JBool(true))
             || (status.Some? && Words(status.value, FAILURES)) then (Failed, None)
        else if status == Some(JString("success")) then
          var outcome := w.outcomeOf(j);
          if outcome.None? then (Failed, None)
          else (if outcome.value.0 then Partial else Completed, outcome.value.1)
        else if Field(j, "partial") == Some(JBool(true)) ||
          Field(j, "truncated") == Some(JBool(true)) then (Partial, raw)
        else (Completed, raw)
  }

  datatype Prepared = SkipIt | Unresolved | Ready(input: Json)

  /** Everything before the effect; a skip whose checkpoint fails counts as unresolved. */
  function Prepare(w: Ports, step: Step, i: nat, values: Values): Prepared {
    var when := if step.when.Some? then TsCondition(step.when.value, values) else Ok(true);
    if !when.Ok? then Unresolved
    else if !when.value then (if w.checkpoint(i, Skipped) then SkipIt else Unresolved)
    else
      var v := TsValue(step.input, values);
      if !v.Ok? || !w.valueOk(v.value) then Unresolved
      else if !step.Capability? && !v.value.JString? then Unresolved
      else if step.Wait? && !w.timeOk(v.value) then Unresolved
      else Ready(v.value)
  }

  /** An opened agent step runs its loop; only a result that the server acknowledges comes back. */
  function CallAgent(w: Ports, i: nat, maxTurns: nat, prompt: Json): Returned {
    match w.open(i, prompt)
    case Replayed(outcome) => if w.outcomeOk(outcome) then Gave(Some(outcome)) else CallThrew
    case Mismatch => CallThrew
    case Running(script) =>
      var r := w.finishAgent(i, AgentFrom(script, maxTurns, 0, FRESH));
      if r.Gave? && r.raw.Some? && w.outcomeOk(r.raw.value) then r else CallThrew
  }

  function CallOut(w: Ports, step: Step, i: nat, input: Json): Returned {
    match step
    case Capability(_, _, _, _) => w.capability(i, input)
    case Agent(_, _, _, maxTurns) => CallAgent(w, i, maxTurns, input)
    case Wait(_, _, _) => w.wait(i, input)
  }

  datatype Effect = Effect(state: StepState, value: Option<Json>)

  /** A thrown call, an unreadable value or too much retained data leaves the effect uncertain. */
  function Confirm(w: Ports, retained: nat, returned: Returned): Effect {
    if returned.CallThrew? then Effect(Uncertain, None)
    else
      var (state, value) := ConfirmedOutput(w, returned.raw);
      if state != Completed && state != Partial then Effect(state, None)
      else if value.None? || !w.valueOk(value.value) ||
        retained + w.bytes(value.value) > MAX_RETAINED then Effect(Uncertain, None)
      else Effect(state, value)
  }

  datatype Entry = Entry(stepId: string, state: StepState)

  datatype Code = NoCode | InputUnresolved | EffectUncertain | StepUnconfirmed | PartialResult

  datatype Report = Report(state: StepState, steps: seq<Entry>, code: Code)

  /** One effect asked of a provider, an agent or the clock. */
  datatype Call = Call(index: nat, input: Json)

  /** What the loop updates. */
  datatype Run = Run(values: Values, retained: nat, report: Report, calls: seq<Call>)

  /** How a step leaves the loop: going on, stopped with the report complete, or a port threw. */
  datatype Outcome = Continue | Stopped | ThrewOut

  function NotRunFrom(steps: seq<Step>, i: nat): seq<Entry> requires i <= |steps| {
    seq(|steps| - i, k requires 0 <= k < |steps| - i => Entry(steps[i + k].id, NotRun))
  }

  function Recorded(r: Run, id: string, state: StepState): Run {
    r.(report := r.report.(steps := r.report.steps + [Entry(id, state)]))
  }

  /** Lists the steps not reached and sets the report's state. */
  function StopWithCode(def: Definition, i: nat, r: Run, state: StepState, code: Code): Run requires i <= |def.steps| {
    r.(report := Report(state, r.report.steps + NotRunFrom(def.steps, i), code))
  }

  function MayBePartial(step: Step): bool {
    step.Capability? && step.allowPartial
  }

  function RunStep(w: Ports, def: Definition, i: nat, r: Run): (Run, Outcome) requires i < |def.steps| {
    var step := def.steps[i];
    if !w.beforeStep(i) then (r, ThrewOut)
    else
      match Prepare(w, step, i, r.values)
      case SkipIt => (Recorded(r, step.id, Skipped), Continue)
      case Unresolved =>
        if !w.checkpoint(i, Failed) then (r, ThrewOut)
        else (StopWithCode(def, i + 1, Recorded(r, step.id, Failed), Failed, InputUnresolved), Stopped)
      case Ready(input) =>
        var effect := Confirm(w, r.retained, CallOut(w, step, i, input));
        var called := r.(calls := r.calls + [Call(i, input)]);
        var kept :=
          if effect.value.None? then called
          else called.(values := Values(r.values.trigger, r.values.steps[step.id := effect.value.value]),
                       retained := r.retained + w.bytes(effect.value.value));
        if !w.checkpoint(i, effect.state) then (kept, ThrewOut)
        else
          var q := Recorded(kept, step.id, effect.state);
          if effect.state == Uncertain then (StopWithCode(def, i + 1, q, Uncertain, EffectUncertain), Stopped)
          else if effect.state == Failed then (StopWithCode(def, i + 1, q, Failed, StepUnconfirmed), Stopped)
          else if effect.state == Partial then
            if MayBePartial(step) then (q.(report := q.report.(state := Partial)), Continue)
            else (StopWithCode(def, i + 1, q, Partial, PartialResult), Stopped)
          else (q, Continue)
  }

  /** The run from a step on; the flag says whether a report is returned. */
  function RunFrom(w: Ports, def: Definition, i: nat, r: Run): (Run, bool)
    requires i <= |def.steps|
    decreases |def.steps| - i
  {
    if i == |def.steps| then (r, true)
    else
      var (q, outcome) := RunStep(w, def, i, r);
      if outcome.ThrewOut? then (q, false)
      else if outcome.Stopped? then (q, true)
      else RunFrom(w, def, i + 1, q)
  }

  function Begin(trigger: Json): Run {
    Run(Values(trigger, map[]), 0, Report(Completed, [], NoCode), [])
  }

  /** Nothing is asked of any port when an adapter is missing. */
  function Execute(w: Ports, def: Definition, trigger: Json): (Run, bool) {
    if !w.adapters(def) then (Begin(trigger), false) else RunFrom(w, def, 0, Begin(trigger))
  }

  method ExecuteRoutine(w: Ports, def: Definition, trigger: Json) returns (r: Run, reported: bool)
    ensures (r, reported) == Execute(w, def, trigger)
  {
    hide RunStep;
    r := Begin(trigger);
    if !w.adapters(def) { return r, false; }
    for i := 0 to |def.steps|
      invariant Execute(w, def, trigger) == RunFrom(w, def, i, r)
    {
      var (q, outcome) := RunStep(w, def, i, r);
      r := q;
      if outcome.ThrewOut? { return r, false; }
      if outcome.Stopped? { return r, true; }
    }
    return r, true;
  }

  // ---------------------------------------------------------- whole runs

  predicate Passed(step: Step, state: StepState) {
    state == Skipped || state == Completed || (state == Partial && MayBePartial(step))
  }

  /** The indices of the entries that made a call. */
  function Called(entries: seq<Entry>): seq<nat> {
    if entries == [] then []
    else
      var init := entries[..|entries| - 1];
      Called(init) + (if entries[|entries| - 1].state == Skipped then [] else [|init|])
  }

  function Indices(calls: seq<Call>): (r: seq<nat>)
    ensures |r| == |calls| && forall i | 0 <= i < |calls| :: r[i] == calls[i].index
  {
    seq(|calls|, i requires 0 <= i < |calls| => calls[i].index)
  }

  /** Model turns admitted by the calls made so far. */
  function Admissions(w: Ports, def: Definition, calls: seq<Call>): nat {
    if calls == [] then 0
    else
      var last := calls[|calls| - 1];
      Admissions(w, def, calls[..|calls| - 1]) + CallAdmissions(w, def, last)
  }

  function CallAdmissions(w: Ports, def: Definition, call: Call): nat {
    if call.index < |def.steps| && def.steps[call.index].Agent? && w.open(call.index, call.input).Running? then
      AgentFrom(w.open(call.index, call.input).script, def.steps[call.index].maxTurns, 0, FRESH).progress.admissions
    else 0
  }

  /** The entries so far name the steps in order and all let the run go on. */
  ghost predicate PassedPrefix(def: Definition, entries: seq<Entry>) {
    && |entries| <= |def.steps|
    && forall k | 0 <= k < |entries| :: entries[k].stepId == def.steps[k].id && Passed(def.steps[k], entries[k].state)
  }

  ghost predicate AnyPartial(entries: seq<Entry>) {
    exists k :: 0 <= k < |entries| && entries[k].state == Partial
  }

  /** Exactly the steps that ran and were confirmed have a value. */
  ghost predicate HoldsResults(def: Definition, entries: seq<Entry>, steps: map<string, Json>)
    requires |entries| <= |def.steps|
  {
    forall id :: id in steps <==> exists k :: 0 <= k < |entries| && def.steps[k].id == id && entries[k].state != Skipped
  }

  ghost predicate LoopInv(w: Ports, def: Definition, trigger: Json, i: nat, r: Run) {
    && i == |r.report.steps| && PassedPrefix(def, r.report.steps)
    && r.report.state == (if AnyPartial(r.report.steps) then Partial else Completed) && r.report.code == NoCode
    && r.values.trigger == trigger && HoldsResults(def, r.report.steps, r.values.steps)
    && Indices(r.calls) == Called(r.report.steps)
    && Admissions(w, def, r.calls) <= TotalTurns(def.steps, i)
  }

  /** The step that ended the run: its state is the report's, and the code says why. */
  ghost predicate Terminal(step: Step, state: StepState, code: Code) {
    || (state == Failed && (code == InputUnresolved || code == StepUnconfirmed))
    || (state == Uncertain && code == EffectUncertain)
    || (state == Partial && !MayBePartial(step) && code == PartialResult)
  }

  /** A report's shape: steps that passed, then at most one terminal step, then only steps not run, all in order. */
  ghost predicate ShapeAt(def: Definition, r: Run, t: nat) {
    && |r.report.steps| == |def.steps| && t <= |def.steps|
    && PassedPrefix(def, r.report.steps[..t])
    && if t == |def.steps| then
         r.report.state == (if AnyPartial(r.report.steps) then Partial else Completed) && r.report.code == NoCode
         && Indices(r.calls) == Called(r.report.steps)
       else
         && r.report.steps[t].stepId == def.steps[t].id && r.report.steps[t].state == r.report.state
         && Terminal(def.steps[t], r.report.state, r.report.code)
         && (forall k | t < k < |def.steps| :: r.report.steps[k] == Entry(def.steps[k].id, NotRun))
         && Indices(r.calls) == Called(r.report.steps[..t]) + (if r.report.code == InputUnresolved then [] else [t])
  }

  lemma BeginInv(w: Ports, def: Definition, trigger: Json)
    ensures LoopInv(w, def, trigger, 0, Begin(trigger))
  {
  }

  lemma CallBound(w: Ports, def: Definition, call: Call)
    requires call.index < |def.steps|
    ensures CallAdmissions(w, def, call) <= Turns(def.steps[call.index])
  {
    var step := def.steps[call.index];
    if step.Agent? && w.open(call.index, call.input).Running? {
      AgentBounds(w.open(call.index, call.input).script, step.maxTurns, 0, FRESH);
    }
  }

  /** One more call adds its own admissions and its index. */
  lemma OneMoreCall(w: Ports, def: Definition, calls: seq<Call>, call: Call)
    requires call.index < |def.steps|
    ensures Admissions(w, def, calls + [call]) <= Admissions(w, def, calls) + Turns(def.steps[call.index])
    ensures Indices(calls + [call]) == Indices(calls) + [call.index]
  {
    assert (calls + [call])[..|calls|] == calls;
    CallBound(w, def, call);
  }

  lemma OneMoreEntry(def: Definition, entries: seq<Entry>, e: Entry)
    requires PassedPrefix(def, entries) && |entries| < |def.steps|
    ensures Called(entries + [e]) == Called(entries) + (if e.state == Skipped then [] else [|entries|])
    ensures AnyPartial(entries + [e]) <==> AnyPartial(entries) || e.state == Partial
    ensures e.stepId == def.steps[|entries|].id && Passed(def.steps[|entries|], e.state) ==>
      PassedPrefix(def, entries + [e])
  {
    hide *;
    OneMoreCalled(entries, e);
    OneMorePartial(entries, e);
    if e.stepId == def.steps[|entries|].id && Passed(def.steps[|entries|], e.state) { OneMorePassed(def, entries, e); }
  }

  lemma OneMoreCalled(entries: seq<Entry>, e: Entry)
    ensures Called(entries + [e]) == Called(entries) + (if e.state == Skipped then [] else [|entries|])
  {
    assert (entries + [e])[..|entries|] == entries;
  }

  lemma OneMorePartial(entries: seq<Entry>, e: Entry)
    ensures AnyPartial(entries + [e]) <==> AnyPartial(entries) || e.state == Partial
  {
    var more := entries + [e];
    if AnyPartial(entries) {
      var k :| 0 <= k < |entries| && entries[k].state == Partial;
      assert more[k].state == Partial;
    }
    if e.state == Partial { assert more[|entries|].state == Partial; }
  }

  lemma OneMorePassed(def: Definition, entries: seq<Entry>, e: Entry)
    requires PassedPrefix(def, entries) && |entries| < |def.steps|
    requires e.stepId == def.steps[|entries|].id && Passed(def.steps[|entries|], e.state)
    ensures PassedPrefix(def, entries + [e])
  {
  }

  lemma OneMoreResult(def: Definition, entries: seq<Entry>, steps: map<string, Json>, e: Entry, value: Option<Json>)
    requires |entries| < |def.steps| && HoldsResults(def, entries, steps)
    requires value.Some? <==> e.state != Skipped
    ensures HoldsResults(def, entries + [e],
                         if value.Some? then steps[def.steps[|entries|].id := value.value] else steps)
  {
    var more := entries + [e];
    var steps' := if value.Some? then steps[def.steps[|entries|].id := value.value] else steps;
    assert forall k | 0 <= k < |entries| :: more[k] == entries[k];
    assert more[|entries|] == e;
    forall id
      ensures id in steps' <==> exists k :: 0 <= k < |more| && def.steps[k].id == id && more[k].state != Skipped
    {
      if id in steps {
        var k :| 0 <= k < |entries| && def.steps[k].id == id && entries[k].state != Skipped;
        assert more[k].state != Skipped;
      }
    }
  }

  lemma StoppedShape(def: Definition, i: nat, entries: seq<Entry>, q: Run, state: StepState, code: Code)
    requires |entries| == i < |def.steps| && PassedPrefix(def, entries)
    requires q.report.steps == entries + [Entry(def.steps[i].id, state)] && Terminal(def.steps[i], state, code)
    requires Indices(q.calls) == Called(entries) + (if code == InputUnresolved then [] else [i])
    ensures ShapeAt(def, StopWithCode(def, i + 1, q, state, code), i)
  {
    var steps := StopWithCode(def, i + 1, q, state, code).report.steps;
    assert steps[..i] == entries;
    assert steps[i] == Entry(def.steps[i].id, state);
    forall k | i < k < |def.steps| ensures steps[k] == Entry(def.steps[k].id, NotRun) {
      assert steps[k] == NotRunFrom(def.steps, i + 1)[k - i - 1];
    }
  }

  lemma ConfirmStates(w: Ports, retained: nat, returned: Returned)
    ensures
      var e := Confirm(w, retained, returned);
      && (e.state == Completed || e.state == Partial || e.state == Failed || e.state == Uncertain)
      && (e.value.Some? <==> e.state == Completed || e.state == Partial)
  {
  }

  /** A confirmed effect that lets the run go on keeps the invariant. */
  lemma PassingKeeps(w: Ports, def: Definition, trigger: Json, i: nat, r: Run, input: Json, e: Effect, q: Run)
    requires LoopInv(w, def, trigger, i, r) && i < |def.steps|
    requires e.value.Some? && (e.state == Completed || (e.state == Partial && MayBePartial(def.steps[i])))
    requires q.values == Values(r.values.trigger, r.values.steps[def.steps[i].id := e.value.value])
    requires q.calls == r.calls + [Call(i, input)]
    requires q.report == Report(if e.state == Partial then Partial else r.report.state,
                                r.report.steps + [Entry(def.steps[i].id, e.state)], NoCode)
    ensures LoopInv(w, def, trigger, i + 1, q)
  {
    hide Admissions, Called, HoldsResults, AnyPartial, PassedPrefix;
    var entry := Entry(def.steps[i].id, e.state);
    assert |r.report.steps| <= |def.steps|;
    OneMoreCall(w, def, r.calls, Call(i, input));
    OneMoreEntry(def, r.report.steps, entry);
    OneMoreResult(def, r.report.steps, r.values.steps, entry, e.value);
  }

  lemma SkippingKeeps(w: Ports, def: Definition, trigger: Json, i: nat, r: Run)
    requires LoopInv(w, def, trigger, i, r) && i < |def.steps|
    ensures LoopInv(w, def, trigger, i + 1, Recorded(r, def.steps[i].id, Skipped))
  {
    hide Admissions, Called, HoldsResults, AnyPartial, PassedPrefix;
    var entry := Entry(def.steps[i].id, Skipped);
    OneMoreEntry(def, r.report.steps, entry);
    OneMoreResult(def, r.report.steps, r.values.steps, entry, None);
    assert Called(r.report.steps) + [] == Called(r.report.steps);
  }

  /** A step that passes keeps the invariant; one that stops the run leaves the shape of a report. */
  lemma StepKeeps(w: Ports, def: Definition, trigger: Json, i: nat, r: Run)
    requires LoopInv(w, def, trigger, i, r) && i < |def.steps|
    ensures
      var (q, outcome) := RunStep(w, def, i, r);
      && (outcome.Continue? ==> LoopInv(w, def, trigger, i + 1, q))
      && (outcome.Stopped? ==> ShapeAt(def, q, i))
      && Admissions(w, def, q.calls) <= TotalTurns(def.steps, i + 1)
  {
    hide LoopInv, ShapeAt, Confirm, CallOut, Prepare, Admissions, Called, Indices, MayBePartial, NotRunFrom;
    InvFacts(w, def, trigger, i, r);
    var step := def.steps[i];
    if w.beforeStep(i) {
      match Prepare(w, step, i, r.values)
      case SkipIt => SkippingKeeps(w, def, trigger, i, r);
      case Unresolved =>
        assert Called(r.report.steps) + [] == Called(r.report.steps);
        StoppedShape(def, i, r.report.steps, Recorded(r, step.id, Failed), Failed, InputUnresolved);
      case Ready(input) => ReadyKeeps(w, def, trigger, i, r, input);
    }
  }

  lemma InvFacts(w: Ports, def: Definition, trigger: Json, i: nat, r: Run)
    requires LoopInv(w, def, trigger, i, r) && i < |def.steps|
    ensures i == |r.report.steps| && PassedPrefix(def, r.report.steps) && Indices(r.calls) == Called(r.report.steps)
    ensures r.report.code == NoCode && Admissions(w, def, r.calls) <= TotalTurns(def.steps, i)
    ensures TotalTurns(def.steps, i + 1) == TotalTurns(def.steps, i) + Turns(def.steps[i])
  {
  }

  lemma ReadyKeeps(w: Ports, def: Definition, trigger: Json, i: nat, r: Run, input: Json)
    requires LoopInv(w, def, trigger, i, r) && i < |def.steps| && w.beforeStep(i)
    requires Prepare(w, def.steps[i], i, r.values) == Ready(input)
    ensures
      var (q, outcome) := RunStep(w, def, i, r);
      && (outcome.Continue? ==> LoopInv(w, def, trigger, i + 1, q))
      && (outcome.Stopped? ==> ShapeAt(def, q, i))
      && Admissions(w, def, q.calls) <= TotalTurns(def.steps, i + 1)
  {
    hide LoopInv, ShapeAt, Confirm, CallOut, Prepare, Admissions, Called, Indices, MayBePartial, NotRunFrom,
         PassedPrefix;
    InvFacts(w, def, trigger, i, r);
    var step := def.steps[i];
    var returned := CallOut(w, step, i, input);
    var e := Confirm(w, r.retained, returned);
    ConfirmStates(w, r.retained, returned);
    OneMoreCall(w, def, r.calls, Call(i, input));
    var called := r.(calls := r.calls + [Call(i, input)]);
    var kept := if e.value.None? then called
      else called.(values := Values(r.values.trigger, r.values.steps[step.id := e.value.value]),
                   retained := r.retained + w.bytes(e.value.value));
    var q := Recorded(kept, step.id, e.state);
    if w.checkpoint(i, e.state) {
      if e.state == Uncertain { StoppedShape(def, i, r.report.steps, q, Uncertain, EffectUncertain); }
      else if e.state == Failed { StoppedShape(def, i, r.report.steps, q, Failed, StepUnconfirmed); }
      else if e.state == Completed { PassingKeeps(w, def, trigger, i, r, input, e, q); }
      else if MayBePartial(step) {
        PassingKeeps(w, def, trigger, i, r, input, e, q.(report := q.report.(state := Partial)));
      }
      else { StoppedShape(def, i, r.report.steps, q, Partial, PartialResult); }
    }
  }

  lemma {:induction false} RunKeeps(w: Ports, def: Definition, trigger: Json, i: nat, r: Run)
    requires LoopInv(w, def, trigger, i, r) && i <= |def.steps|
    ensures
      var (q, reported) := RunFrom(w, def, i, r);
      && (reported ==> exists t :: ShapeAt(def, q, t))
      && Admissions(w, def, q.calls) <= TotalTurns(def.steps, |def.steps|)
    decreases |def.steps| - i
  {
    if i == |def.steps| {
      assert r.report.steps[..i] == r.report.steps;
      assert ShapeAt(def, r, i);
    } else {
      hide RunStep, LoopInv, ShapeAt;
      StepKeeps(w, def, trigger, i, r);
      TurnsGrow(def.steps, i + 1, |def.steps|);
      var (q, outcome) := RunStep(w, def, i, r);
      if outcome.Continue? { RunKeeps(w, def, trigger, i + 1, q); }
    }
  }

  lemma {:induction false} TurnsGrow(steps: seq<Step>, i: nat, n: nat)
    requires i <= n <= |steps|
    ensures TotalTurns(steps, i) <= TotalTurns(steps, n)
  {
    if i < n { TurnsGrow(steps, i, n - 1); }
  }

  // ------------------------------------------------------------ main results

  /** Every report lists every step once, in order; nothing is called after the step that ended the run. */
  lemma ReportShape(w: Ports, def: Definition, trigger: Json)
    requires Execute(w, def, trigger).1
    ensures exists t :: ShapeAt(def, Execute(w, def, trigger).0, t)
  {
    BeginInv(w, def, trigger);
    RunKeeps(w, def, trigger, 0, Begin(trigger));
  }

  /** Across a whole run, reported or not, the model is admitted no more often than the definition's budget. */
  lemma AdmissionsWithinBudget(w: Ports, def: Definition, rules: Rules, trigger: Json)
    requires Accepted(def, rules)
    ensures Admissions(w, def, Execute(w, def, trigger).0.calls) <= def.modelTurns
  {
    BeginInv(w, def, trigger);
    RunKeeps(w, def, trigger, 0, Begin(trigger));
  }

  ghost predicate GoesOnTo(w: Ports, def: Definition, i: nat, q: Run, r: Run) requires 0 < i <= |def.steps| {
    RunStep(w, def, i - 1, q) == (r, Continue)
  }

  /** The run's state when its loop comes to a step. */
  ghost predicate Reached(w: Ports, def: Definition, trigger: Json, i: nat, r: Run) requires i <= |def.steps| {
    if i == 0 then r == Begin(trigger)
    else exists q :: Reached(w, def, trigger, i - 1, q) && GoesOnTo(w, def, i, q, r)
  }

  lemma {:induction false} ReachedInv(w: Ports, def: Definition, trigger: Json, i: nat, r: Run)
    requires i <= |def.steps| && Reached(w, def, trigger, i, r)
    ensures LoopInv(w, def, trigger, i, r)
  {
    hide LoopInv, RunStep;
    if i == 0 {
      BeginInv(w, def, trigger);
    } else {
      var q :| Reached(w, def, trigger, i - 1, q) && GoesOnTo(w, def, i, q, r);
      ReachedInv(w, def, trigger, i - 1, q);
      StepKeeps(w, def, trigger, i - 1, q);
    }
  }

  ghost predicate Occurs(ref: Reference, e: Value) {
    match e
    case Literal(_) => false
    case Refer(own) => own == ref
    case ObjectOf(fields) => exists k | k in fields :: Occurs(ref, fields[k])
    case ArrayOf(items) => exists i | 0 <= i < |items| :: Occurs(ref, items[i])
  }

  ghost predicate OccursIn(ref: Reference, c: Condition) {
    match c
    case Equals(left, right) => Occurs(ref, left) || Occurs(ref, right)
    case Exists(own) => own == ref
    case AllOf(children) => exists i | 0 <= i < |children| :: OccursIn(ref, children[i])
    case AnyOf(children) => exists i | 0 <= i < |children| :: OccursIn(ref, children[i])
    case Not(inner) => OccursIn(ref, inner)
  }

  lemma {:induction false} OccursNames(ref: Reference, e: Value, seen: set<string>)
    requires NamesOnly(e, seen) && Occurs(ref, e)
    ensures ReferenceNames(ref, seen)
  {
    match e
    case ObjectOf(fields) =>
      var k :| k in fields && Occurs(ref, fields[k]);
      OccursNames(ref, fields[k], seen);
    case ArrayOf(items) =>
      var i :| 0 <= i < |items| && Occurs(ref, items[i]);
      OccursNames(ref, items[i], seen);
    case _ =>
  }

  lemma {:induction false} OccursInNames(ref: Reference, c: Condition, seen: set<string>)
    requires ConditionNamesOnly(c, seen) && OccursIn(ref, c)
    ensures ReferenceNames(ref, seen)
  {
    match c
    case Equals(left, right) => if Occurs(ref, left) { OccursNames(ref, left, seen); }
      else { OccursNames(ref, right, seen); }
    case Exists(_) =>
    case AllOf(children) =>
      var i :| 0 <= i < |children| && OccursIn(ref, children[i]);
      OccursInNames(ref, children[i], seen);
    case AnyOf(children) =>
      var i :| 0 <= i < |children| && OccursIn(ref, children[i]);
      OccursInNames(ref, children[i], seen);
    case Not(inner) => OccursInNames(ref, inner, seen);
  }

  /** An expression fails to evaluate exactly when some reference in it does not resolve. */
  lemma {:induction false} MissingHasCause(e: Value, values: Values)
    ensures TsValue(e, values).Missing? <==> exists ref :: Occurs(ref, e) && Resolve(ref, values).None?
  {
    match e
    case Literal(_) =>
    case Refer(ref) => assert Occurs(ref, e);
    case ObjectOf(fields) =>
      forall k | k in fields
        ensures TsValue(fields[k], values).Missing? <==> exists ref ::
          Occurs(ref, fields[k]) && Resolve(ref, values).None?
      {
        MissingHasCause(fields[k], values);
      }
      if ref :| Occurs(ref, e) && Resolve(ref, values).None? {
        var k :| k in fields && Occurs(ref, fields[k]);
        assert TsValue(fields[k], values).Missing?;
      }
      if TsValue(e, values).Missing? {
        var k :| k in fields && !TsValue(fields[k], values).Ok?;
        var ref :| Occurs(ref, fields[k]) && Resolve(ref, values).None?;
        assert Occurs(ref, e);
      }
    case ArrayOf(items) =>
      forall i | 0 <= i < |items|
        ensures TsValue(items[i], values).Missing? <==> exists ref ::
          Occurs(ref, items[i]) && Resolve(ref, values).None?
      {
        MissingHasCause(items[i], values);
      }
      if ref :| Occurs(ref, e) && Resolve(ref, values).None? {
        var i :| 0 <= i < |items| && Occurs(ref, items[i]);
        assert TsValue(items[i], values).Missing?;
      }
      if TsValue(e, values).Missing? {
        var i :| 0 <= i < |items| && !TsValue(items[i], values).Ok?;
        var ref :| Occurs(ref, items[i]) && Resolve(ref, values).None?;
        assert Occurs(ref, e);
      }
  }

  /** An earlier step of this name was skipped. */
  ghost predicate SkippedBefore(def: Definition, r: Run, id: string) {
    exists k :: 0 <= k < |r.report.steps| <= |def.steps| && def.steps[k].id == id && r.report.steps[k].state == Skipped
  }

  lemma UniqueIds(def: Definition, rules: Rules, j: nat, k: nat)
    requires Accepted(def, rules) && j < |def.steps| && k < |def.steps| && def.steps[j].id == def.steps[k].id
    ensures j == k
  {
    assert StepAccepted(def.steps, j, rules) && StepAccepted(def.steps, k, rules);
  }

  /**
   * In an accepted routine a reference of the step that is due has a source unless that source is an earlier
   * step that was skipped; anything else missing is a path that is not there.
   */
  lemma UnresolvedIffSkippedOrAbsent(w: Ports, def: Definition, rules: Rules, trigger: Json, i: nat, r: Run,
                                     ref: Reference)
    requires Accepted(def, rules) && i < |def.steps| && Reached(w, def, trigger, i, r)
    requires Occurs(ref, def.steps[i].input) || (def.steps[i].when.Some? && OccursIn(ref, def.steps[i].when.value))
    ensures SourceOf(ref.source, r.values).None? <==> ref.source.StepOutput? && SkippedBefore(def, r, ref.source.stepId)
    ensures Resolve(ref, r.values).None? <==>
      || (ref.source.StepOutput? && SkippedBefore(def, r, ref.source.stepId))
      || (SourceOf(ref.source, r.values).Some? && Follow(SourceOf(ref.source, r.values).value, ref.path).None?)
  {
    ReachedInv(w, def, trigger, i, r);
    assert StepAccepted(def.steps, i, rules);
    var seen := IdsBefore(def.steps, i);
    if Occurs(ref, def.steps[i].input) { OccursNames(ref, def.steps[i].input, seen); } else {
      OccursInNames(ref, def.steps[i].when.value, seen);
    }
    if ref.source.StepOutput? { SourceMissing(w, def, rules, trigger, i, r, ref.source.stepId); }
  }

  lemma SourceMissing(w: Ports, def: Definition, rules: Rules, trigger: Json, i: nat, r: Run, id: string)
    requires Accepted(def, rules) && i < |def.steps| && LoopInv(w, def, trigger, i, r) && id in IdsBefore(def.steps, i)
    ensures id !in r.values.steps <==> SkippedBefore(def, r, id)
  {
    var k :| 0 <= k < i && def.steps[k].id == id;
    forall j | 0 <= j < i && def.steps[j].id == id ensures j == k { UniqueIds(def, rules, j, k); }
  }
}
