/**
 * When a routine's step may be reported as completed, and what later steps see of it. Models
 * routine-coordinator.ts lines 61-79 and 119-146 and routine-agent.ts lines 93-149 independently of the
 * coordinator's own reading of a result.
 */
module RoutineOutcomes {
  import opened OrderedStrings
  import opened JsonValues
  import opened RoutineLanguage
  import opened RoutineWire
  import opened RoutineRun

  // ------------------------------------------------------ what a result says

  /** The text that stands alone, or alone in a list of one, in a list of one and so on. */
  function AsText(j: Json): Option<string> {
    match j
    case JString(text) => Some(text)
    case JArray(items) => if |items| == 1 then AsText(items[0]) else None
    case _ => None
  }

  predicate HasFlag(j: Json, key: string) {
    j.JObject? && key in j.fields && j.fields[key] == JBool(true)
  }

  predicate HasStatus(j: Json, status: string) {
    j.JObject? && "status" in j.fields && j.fields["status"] == JString(status)
  }

  predicate SaysUncertain(j: Json) {
    HasStatus(j, "uncertain")
  }

  /** Denied, unavailable, or one of the words for a call that did not do its work. */
  predicate SaysRefused(j: Json) {
    || HasFlag(j, "denied") || HasFlag(j, "unavailable")
    || (j.JObject? && "status" in j.fields &&
        AsText(j.fields["status"]) in {Some("failure"), Some("approval_required"), Some("device_required"),
                                       Some("user_intervention_required")})
  }

  /** A success whose outcome is not well formed. */
  predicate Unreadable(w: Ports, j: Json) {
    HasStatus(j, "success") && w.outcomeOf(j).None?
  }

  /** The call returned something that does not say it went wrong. */
  predicate SaysDone(w: Ports, returned: Returned) {
    && returned.Gave? && returned.raw.Some?
    && !SaysUncertain(returned.raw.value) && !SaysRefused(returned.raw.value) && !Unreadable(w, returned.raw.value)
  }

  predicate SaysPartial(w: Ports, j: Json) {
    if HasStatus(j, "success") then w.outcomeOf(j).Some? && w.outcomeOf(j).value.0
    else HasFlag(j, "partial") || HasFlag(j, "truncated")
  }

  /** What is kept of it: a success's result, if it has one, and otherwise all that was returned. */
  function KeptOf(w: Ports, j: Json): Option<Json> {
    if !HasStatus(j, "success") then Some(j)
    else match w.outcomeOf(j) case Some(outcome) => outcome.1 case None => None
  }

  /** There is a value to keep, it is well formed, and it fits with what is retained already. */
  predicate Keepable(w: Ports, retained: nat, j: Json) {
    && KeptOf(w, j).Some? && w.valueOk(KeptOf(w, j).value)
    && retained + w.bytes(KeptOf(w, j).value) <= 2097152
  }

  predicate SaysFailed(w: Ports, returned: Returned) {
    && returned.Gave?
    && (returned.raw.None? || (!SaysUncertain(returned.raw.value) &&
                               (SaysRefused(returned.raw.value) || Unreadable(w, returned.raw.value))))
  }

  /** The state a call leaves its step in. */
  predicate LeavesState(w: Ports, retained: nat, returned: Returned, state: StepState) {
    var done := SaysDone(w, returned) && Keepable(w, retained, returned.raw.value);
    && (state == Completed <==> done && !SaysPartial(w, returned.raw.value))
    && (state == Partial <==> done && SaysPartial(w, returned.raw.value))
    && (state == Failed <==> SaysFailed(w, returned))
    && (state == Uncertain <==> !done && !SaysFailed(w, returned))
  }

  lemma {:induction false} WordsAreTexts(status: Json, words: set<string>)
    ensures Words(status, words) <==> AsText(status).Some? && AsText(status).value in words
  {
    match status
    case JArray(items) => if |items| == 1 { WordsAreTexts(items[0], words); }
    case _ =>
  }

  lemma ConfirmReads(w: Ports, retained: nat, returned: Returned)
    ensures
      var e := Confirm(w, retained, returned);
      && LeavesState(w, retained, returned, e.state)
      && (e.value.Some? <==> e.state == Completed || e.state == Partial)
      && (e.value.Some? ==> returned.Gave? && returned.raw.Some? && e.value == KeptOf(w, returned.raw.value))
  {
    if returned.Gave? && returned.raw.Some? {
      var j := returned.raw.value;
      if j.JObject? && "status" in j.fields { WordsAreTexts(j.fields["status"], FAILURES); }
    }
  }

  // -------------------------------------------------------------- the call

  /** Which port a step's call goes to, and when an agent's answer comes back at all. */
  lemma CallGoesTo(w: Ports, step: Step, i: nat, input: Json)
    ensures
      var returned := CallOut(w, step, i, input);
      && (step.Capability? ==> returned == w.capability(i, input))
      && (step.Wait? ==> returned == w.wait(i, input))
      && (step.Agent? ==>
            match w.open(i, input)
            case Mismatch => returned == CallThrew
            case Replayed(outcome) => returned == if w.outcomeOk(outcome) then Gave(Some(outcome)) else CallThrew
            case Running(script) =>
              var answer := w.finishAgent(i, AgentFrom(script, step.maxTurns, 0, FRESH));
              if answer.Gave? && answer.raw.Some? && w.outcomeOk(answer.raw.value) then returned == answer
              else returned == CallThrew)
  {
  }

  /** The bytes of the results of the steps before one. */
  function RetainedBytes(w: Ports, def: Definition, r: Run, i: nat): nat
    requires i <= |def.steps| && i <= |r.report.steps|
  {
    if i == 0 then 0
    else
      RetainedBytes(w, def, r, i - 1)
        + if r.report.steps[i - 1].state != Skipped && def.steps[i - 1].id in r.values.steps
          then w.bytes(r.values.steps[def.steps[i - 1].id]) else 0
  }

  predicate SameValue(v: Values, u: Values, id: string) {
    (id in v.steps <==> id in u.steps) && (id in v.steps ==> v.steps[id] == u.steps[id])
  }

  lemma {:induction false} RetainedSame(w: Ports, def: Definition, r: Run, q: Run, i: nat)
    requires i <= |def.steps| && i <= |r.report.steps| && r.report.steps <= q.report.steps
    requires forall k | 0 <= k < i :: SameValue(r.values, q.values, def.steps[k].id)
    ensures RetainedBytes(w, def, r, i) == RetainedBytes(w, def, q, i)
  {
    if i > 0 { RetainedSame(w, def, r, q, i - 1); }
  }

  /** At each step of a run of a routine with unique identities, what is retained is what the results take. */
  lemma {:induction false} RetainedIsSum(w: Ports, def: Definition, rules: Rules, trigger: Json, i: nat, r: Run)
    requires Accepted(def, rules) && i <= |def.steps| && Reached(w, def, trigger, i, r)
    ensures |r.report.steps| == i && r.retained == RetainedBytes(w, def, r, i)
  {
    hide Accepted, LoopInv, RunStep;
    ReachedInv(w, def, trigger, i, r);
    if i > 0 {
      var q :| Reached(w, def, trigger, i - 1, q) && GoesOnTo(w, def, i, q, r);
      RetainedIsSum(w, def, rules, trigger, i - 1, q);
      InvLength(w, def, trigger, i, r);
      GoingOn(w, def, i - 1, q, r);
      forall k | 0 <= k < i - 1 ensures def.steps[k].id != def.steps[i - 1].id {
        if def.steps[k].id == def.steps[i - 1].id { UniqueIds(def, rules, k, i - 1); }
      }
      RetainedSame(w, def, q, r, i - 1);
    }
  }

  lemma InvLength(w: Ports, def: Definition, trigger: Json, i: nat, r: Run)
    requires LoopInv(w, def, trigger, i, r)
    ensures |r.report.steps| == i
  {
  }

  /** A step the run goes on from adds its entry and, unless it was skipped, its value. */
  lemma GoingOn(w: Ports, def: Definition, i: nat, r: Run, q: Run)
    requires i < |def.steps| && RunStep(w, def, i, r) == (q, Continue)
    ensures |q.report.steps| == |r.report.steps| + 1 && r.report.steps <= q.report.steps
    ensures
      var last := q.report.steps[|r.report.steps|];
      if last.state == Skipped then q.values == r.values && q.retained == r.retained
      else
        && def.steps[i].id in q.values.steps
        && q.values == Values(r.values.trigger, r.values.steps[def.steps[i].id := q.values.steps[def.steps[i].id]])
        && q.retained == r.retained + w.bytes(q.values.steps[def.steps[i].id])
  {
    hide Confirm, CallOut, Prepare, NotRunFrom;
    var prepared := Prepare(w, def.steps[i], i, r.values);
    if prepared.Ready? { ConfirmStates(w, r.retained, CallOut(w, def.steps[i], i, prepared.input)); }
  }

  // ------------------------------------------------------------ main results

  /** What the run does with the state a call left its step in. */
  predicate ActsOn(w: Ports, def: Definition, i: nat, r: Run, input: Json, q: Run, outcome: Outcome, state: StepState,
                   kept: Option<Json>)
    requires i < |def.steps|
  {
    var step := def.steps[i];
    var goesOn := state == Completed || (state == Partial && step.Capability? && step.allowPartial);
    && q.calls == r.calls + [Call(i, input)]
    && q.values == Values(r.values.trigger,
                          if kept.Some? then r.values.steps[step.id := kept.value] else r.values.steps)
    && (outcome == ThrewOut <==> !w.checkpoint(i, state))
    && (outcome != ThrewOut ==>
          && (outcome == Continue <==> goesOn)
          && |q.report.steps| > |r.report.steps| && r.report.steps <= q.report.steps
          && q.report.steps[|r.report.steps|] == Entry(step.id, state)
          && (goesOn ==> |q.report.steps| == |r.report.steps| + 1 && q.report.code == r.report.code
                         && q.report.state == (if state == Partial then Partial else r.report.state))
          && (!goesOn ==>
                && q.report.state == state
                && q.report.code == (match state case Uncertain => EffectUncertain case Failed => StepUnconfirmed
                                     case _ => PartialResult)
                && q.report.steps == r.report.steps + [Entry(step.id, state)] + NotRunFrom(def.steps, i + 1)))
  }

  /**
   * A step that makes a call: its entry says completed, partial, failed or uncertain exactly as what the call
   * returned says, and later steps see the result, or all that was returned.
   */
  lemma CallDecides(w: Ports, def: Definition, i: nat, r: Run, input: Json)
    returns (state: StepState, kept: Option<Json>)
    requires i < |def.steps| && w.beforeStep(i) && Prepare(w, def.steps[i], i, r.values) == Ready(input)
    ensures
      var returned := CallOut(w, def.steps[i], i, input);
      && LeavesState(w, r.retained, returned, state)
      && (state == Completed || state == Partial ==>
          returned.Gave? && returned.raw.Some? && kept == KeptOf(w, returned.raw.value))
      && (state != Completed && state != Partial ==> kept == None)
    ensures ActsOn(w, def, i, r, input, RunStep(w, def, i, r).0, RunStep(w, def, i, r).1, state, kept)
  {
    hide LeavesState, Prepare, Confirm, CallOut, NotRunFrom, KeptOf;
    var returned := CallOut(w, def.steps[i], i, input);
    ConfirmReads(w, r.retained, returned);
    ConfirmStates(w, r.retained, returned);
    var e := Confirm(w, r.retained, returned);
    state, kept := e.state, e.value;
  }

  /** A step that makes no call: skipped when its condition says no, failed when it or its input has no value. */
  lemma NoCallDecides(w: Ports, def: Definition, i: nat, r: Run)
    requires i < |def.steps| && !Prepare(w, def.steps[i], i, r.values).Ready?
    ensures
      var (q, outcome) := RunStep(w, def, i, r);
      var skipped := Prepare(w, def.steps[i], i, r.values).SkipIt?;
      && q.calls == r.calls && q.values == r.values && q.retained == r.retained
      && (outcome == ThrewOut <==> !w.beforeStep(i) || (!skipped && !w.checkpoint(i, Failed)))
      && (outcome == Continue ==>
            && skipped
            && q.report == r.report.(steps := r.report.steps + [Entry(def.steps[i].id, Skipped)]))
      && (outcome == Stopped ==>
            && !skipped && q.report.state == Failed && q.report.code == InputUnresolved
            && q.report.steps == r.report.steps + [Entry(def.steps[i].id, Failed)] + NotRunFrom(def.steps, i + 1))
  {
    hide Prepare, NotRunFrom;
  }

  // ---------------------------------------------------------- agent's turns

  /** The tool calls of a turn that are run at all, by what they confirm; repeated ones are ignored. */
  function Proposals(tools: seq<Tool>): seq<StepState> {
    if tools == [] then []
    else
      var last := tools[|tools| - 1];
      Proposals(tools[..|tools| - 1]) + (if last.Proposed? then [last.state] else [])
  }

  /** Every tool call of the turn is well formed and confirmed as completed. */
  ghost predicate AllConfirmed(tools: seq<Tool>) {
    forall k | 0 <= k < |tools| :: tools[k] == Duplicate || tools[k] == Proposed(Completed)
  }

  predicate Open(p: Progress) {
    !p.stopped && p.halted.None?
  }

  /** A turn leaves the sequence open exactly when all its calls are confirmed and within the limit of forty. */
  lemma {:induction false} TurnStaysOpen(p: Progress, tools: seq<Tool>)
    requires Open(p) && ProgressOk(p)
    ensures
      var q := AfterTools(p, tools);
      && (Open(q) <==> AllConfirmed(tools) && |p.executed| + |Proposals(tools)| <= 40)
      && (Open(q) ==> q.executed == p.executed + Proposals(tools) && q.capabilityCalls == |q.executed|)
      && (!Open(q) ==> q.stopped) && q.executed <= p.executed + Proposals(tools)
  {
    hide ProgressOk, AfterTool, Open;
    if tools != [] {
      var init, last := tools[..|tools| - 1], tools[|tools| - 1];
      TurnStaysOpen(p, init);
      ToolsKeepProgress(p, init);
      ToolStaysOpen(AfterTools(p, init), last);
      assert tools == init + [last];
      assert AllConfirmed(tools) <==> AllConfirmed(init) && (last == Duplicate || last == Proposed(Completed));
    } else {
      OpenHasRoom(p);
    }
  }

  lemma OpenHasRoom(p: Progress)
    requires ProgressOk(p)
    ensures |p.executed| == p.capabilityCalls <= 40
  {
  }

  lemma ToolStaysOpen(p: Progress, tool: Tool)
    requires ProgressOk(p) && (!Open(p) ==> p.stopped)
    ensures
      var q := AfterTool(p, tool);
      var more := if tool.Proposed? then [tool.state] else [];
      && (Open(q) <==> Open(p) && (tool == Duplicate || tool == Proposed(Completed)) && |p.executed| + |more| <= 40)
      && (Open(q) ==> q.executed == p.executed + more && q.capabilityCalls == |q.executed|)
      && (!Open(q) ==> q.stopped) && q.executed <= p.executed + more
      && (!Open(p) ==> q.executed == p.executed)
  {
  }

  function TurnProposals(turn: Turn): seq<StepState> {
    if turn.Stream? then Proposals(turn.tools) else []
  }

  /** The calls proposed from one turn up to another, in order. */
  function ProposedIn(script: seq<Turn>, from: nat, to: nat): seq<StepState>
    requires from <= to <= |script|
    decreases if from <= to then to - from else 0
  {
    if from == to then [] else TurnProposals(script[from]) + ProposedIn(script, from + 1, to)
  }

  /** A turn in which everything is confirmed and the model stream ends as a single step for this reason. */
  ghost predicate EndsFor(turn: Turn, reason: FinishReason) {
    turn.Stream? && AllConfirmed(turn.tools) && turn.end == Ended(true, reason)
  }

  /** From one turn on, each ends asking for tools until the last ends with a well-formed output. */
  ghost predicate CompletesAt(script: seq<Turn>, maxTurns: nat, from: nat, calls: nat, last: nat) {
    && from <= last < maxTurns && last < |script|
    && (forall t | from <= t < last :: EndsFor(script[t], ToolCalls)) && EndsFor(script[last], StopWith(true))
    && calls + |ProposedIn(script, from, last + 1)| <= 40
  }

  ghost predicate Completes(script: seq<Turn>, maxTurns: nat, from: nat, calls: nat) {
    exists last :: CompletesAt(script, maxTurns, from, calls, last)
  }

  /** An agent step completes exactly when some turn within its limit does so, with forty calls at most until then. */
  lemma {:induction false} AgentCompletesIff(script: seq<Turn>, maxTurns: nat, turn: nat, p: Progress)
    requires turn <= maxTurns && ProgressOk(p) && Open(p)
    requires p.admissions == p.modelTurns
    ensures
      AgentFrom(script, maxTurns, turn, p).state == Completed <==> Completes(script, maxTurns, turn, |p.executed|)
    decreases maxTurns - turn
  {
    hide AllConfirmed, Proposals, AfterTools;
    if turn < maxTurns && turn < |script| && script[turn].Stream? {
      var q := p.(admissions := p.admissions + 1, modelTurns := p.modelTurns + 1);
      var tools, end := script[turn].tools, script[turn].end;
      TurnStaysOpen(q, tools);
      ToolsKeepProgress(q, tools);
      var r := AfterTools(q, tools);
      if Open(r) && end == Ended(true, ToolCalls) {
        AgentCompletesIff(script, maxTurns, turn + 1, r);
        LaterTurns(script, maxTurns, turn, |p.executed|);
      } else {
        OnlyThisTurn(script, maxTurns, turn, |p.executed|);
      }
    }
  }

  /** After a turn that asks for tools, completing is completing from the next one. */
  lemma LaterTurns(script: seq<Turn>, maxTurns: nat, turn: nat, calls: nat)
    requires turn < |script| && EndsFor(script[turn], ToolCalls)
    ensures Completes(script, maxTurns, turn, calls) <==>
      Completes(script, maxTurns, turn + 1, calls + |TurnProposals(script[turn])|)
  {
    hide EndsFor, Proposals;
    var more, next := calls + |TurnProposals(script[turn])|, turn + 1;
    NotBoth(script[turn]);
    forall last: nat
      ensures CompletesAt(script, maxTurns, turn, calls, last) <==> CompletesAt(script, maxTurns, turn + 1, more, last)
    {
      if turn < last < |script| {
        assert |ProposedIn(script, turn, last + 1)|
            == |TurnProposals(script[turn])| + |ProposedIn(script, turn + 1, last + 1)|;
      }
    }
    if last: nat :| CompletesAt(script, maxTurns, turn, calls, last) {
      assert CompletesAt(script, maxTurns, turn + 1, more, last);
    }
    if last: nat :| CompletesAt(script, maxTurns, next, more, last) {
      assert CompletesAt(script, maxTurns, turn, calls, last);
    }
  }

  lemma NotBoth(turn: Turn)
    requires EndsFor(turn, ToolCalls)
    ensures !EndsFor(turn, StopWith(true))
  {
  }

  /** Otherwise it is this turn or none. */
  lemma OnlyThisTurn(script: seq<Turn>, maxTurns: nat, turn: nat, calls: nat)
    requires turn < |script| && turn < maxTurns && script[turn].Stream?
    requires !EndsFor(script[turn], ToolCalls) || calls + |Proposals(script[turn].tools)| > 40
    ensures Completes(script, maxTurns, turn, calls) <==>
      EndsFor(script[turn], StopWith(true)) && calls + |Proposals(script[turn].tools)| <= 40
  {
    hide EndsFor, Proposals;
    assert ProposedIn(script, turn + 1, turn + 1) == [];
    assert ProposedIn(script, turn, turn + 1) == Proposals(script[turn].tools);
    if EndsFor(script[turn], StopWith(true)) && calls + |Proposals(script[turn].tools)| <= 40 {
      assert CompletesAt(script, maxTurns, turn, calls, turn);
    }
    forall last: nat | CompletesAt(script, maxTurns, turn, calls, last)
      ensures last == turn && calls + |Proposals(script[turn].tools)| <= 40
    {
      assert ProposedIn(script, turn, last + 1) ==
        Proposals(script[turn].tools) + ProposedIn(script, turn + 1, last + 1);
    }
  }

  /** Only proposed calls are run, in their order; without completing, the step ends as its last call or failed. */
  lemma {:induction false} AgentRunsInOrder(script: seq<Turn>, maxTurns: nat, turn: nat, p: Progress)
    requires turn <= maxTurns && turn <= |script| && ProgressOk(p) && Open(p) && p.admissions == p.modelTurns
    ensures
      var r := AgentFrom(script, maxTurns, turn, p);
      && r.progress.executed <= p.executed + ProposedIn(script, turn, |script|)
      && (r.state != Completed && r.state != Failed ==>
            r.progress.executed != [] && r.progress.executed[|r.progress.executed| - 1] == r.state)
    decreases maxTurns - turn
  {
    hide AllConfirmed, Proposals, AfterTools, ProgressOk, ProposedIn;
    OneTurn(p, script, turn);
    if turn < maxTurns && turn < |script| && script[turn].Stream? {
      var q := p.(admissions := p.admissions + 1, modelTurns := p.modelTurns + 1);
      var r := AfterTools(q, script[turn].tools);
      if TurnEnd(r, script[turn].end).None? { AgentRunsInOrder(script, maxTurns, turn + 1, r); }
    }
  }

  lemma OneTurn(p: Progress, script: seq<Turn>, turn: nat)
    requires turn <= |script| && ProgressOk(p) && Open(p) && p.admissions == p.modelTurns
    ensures p.executed <= p.executed + ProposedIn(script, turn, |script|)
    ensures turn < |script| && script[turn].Stream? ==>
      var q := p.(admissions := p.admissions + 1, modelTurns := p.modelTurns + 1);
      var r := AfterTools(q, script[turn].tools);
      && ProgressOk(r) && r.admissions == r.modelTurns && (!Open(r) ==> r.stopped)
      && r.executed <= p.executed + ProposedIn(script, turn, |script|)
      && (Open(r) ==> r.executed + ProposedIn(script, turn + 1, |script|)
                      == p.executed + ProposedIn(script, turn, |script|))
      && (r.halted.Some? && r.halted.value != Failed ==>
            r.executed != [] && r.executed[|r.executed| - 1] == r.halted.value)
  {
    hide AllConfirmed, Proposals, AfterTools;
    if turn < |script| && script[turn].Stream? {
      var q := p.(admissions := p.admissions + 1, modelTurns := p.modelTurns + 1);
      TurnStaysOpen(q, script[turn].tools);
      ToolsKeepProgress(q, script[turn].tools);
      HaltedByLast(q, script[turn].tools);
      var rest := ProposedIn(script, turn + 1, |script|);
      assert p.executed + ProposedIn(script, turn, |script|) == (p.executed + Proposals(script[turn].tools)) + rest;
    }
  }

  /** What halts the sequence, other than the limit, is the last call it ran. */
  lemma {:induction false} HaltedByLast(p: Progress, tools: seq<Tool>)
    requires Open(p)
    ensures
      var q := AfterTools(p, tools);
      q.halted.Some? && q.halted.value != Failed ==>
        q.executed != [] && q.executed[|q.executed| - 1] == q.halted.value
    ensures AfterTools(p, tools).halted.Some? ==> AfterTools(p, tools).stopped
  {
    if tools != [] { HaltedByLast(p, tools[..|tools| - 1]); }
  }
}
