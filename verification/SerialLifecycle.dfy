/**
 * The lock that holds one tool call's turn through its whole durable lifecycle.
 * Models serial-tool-lifecycle.ts lines 4-42; each method is the code between two awaits.
 */
module SerialLifecycle {
  /** Where one call of start has got, and where its finish has. */
  datatype Phase = Waiting | Checkpointing | Running | Finishing | Rejected | Finished

  /** A call waits for the promise of the call whose index it remembers; -1 is the promise resolved at first. */
  datatype Call = Call(id: string, previous: int, phase: Phase)

  datatype State = State(calls: seq<Call>, tail: int, stoppedReason: string, releases: map<string, nat>)

  const INITIAL := State([], -1, "", map[])

  const SEQUENCE_STOPPED := "The preceding action or its checkpoint did not complete."
  const CHECKPOINT_UNCONFIRMED := "The preceding action checkpoint could not be confirmed."

  predicate Released(c: Call) {
    c.phase.Rejected? || c.phase.Finished?
  }

  /** The promise with this index has been resolved. */
  predicate Resolved(s: State, promise: int) {
    promise < 0 || (promise < |s.calls| && Released(s.calls[promise]))
  }

  predicate Holds(c: Call) {
    c.phase.Checkpointing? || c.phase.Running? || c.phase.Finishing?
  }

  // ------------------------------------------------------------ the segments

  /** Only the first reason is kept. */
  function Stopped(s: State, reason: string): State {
    if s.stoppedReason == "" then s.(stoppedReason := reason) else s
  }

  function Started(s: State, id: string): State {
    if id in s.releases then s
    else State(s.calls + [Call(id, s.tail, Waiting)], |s.calls|, s.stoppedReason, s.releases[id := |s.calls|])
  }

  function Move(s: State, k: nat, phase: Phase): State
    requires k < |s.calls|
  {
    s.(calls := s.calls[k := s.calls[k].(phase := phase)])
  }

  /** Resolves the promise registered under the call's identity. */
  function Release(s: State, k: nat, phase: Phase): State
    requires k < |s.calls|
  {
    Move(s, k, phase).(releases := s.releases - {s.calls[k].id})
  }

  function Admitted(s: State, k: nat): State
    requires k < |s.calls|
  {
    if s.stoppedReason != "" then Release(Stopped(s, SEQUENCE_STOPPED), k, Rejected) else Move(s, k, Checkpointing)
  }

  function StartChecked(s: State, k: nat, ok: bool): State
    requires k < |s.calls|
  {
    if ok then Move(s, k, Running) else Release(Stopped(s, SEQUENCE_STOPPED), k, Rejected)
  }

  function FinishChecked(s: State, k: nat, ok: bool): State
    requires k < |s.calls|
  {
    Release(if ok then s else Stopped(s, CHECKPOINT_UNCONFIRMED), k, Finished)
  }

  datatype Event =
    | Stop(reason: string)
    | Start(id: string)
    | Admit(k: nat)
    | StartCheckpoint(k: nat, ok: bool)
    | Finish(k: nat)
    | FinishCheckpoint(k: nat, ok: bool)

  /** A turn passes when the promise before it resolves; finish is called once, after start returned. */
  predicate Enabled(s: State, e: Event) {
    match e
    case Stop(_) => true
    case Start(_) => true
    case Admit(k) => k < |s.calls| && s.calls[k].phase.Waiting? && Resolved(s, s.calls[k].previous)
    case StartCheckpoint(k, _) => k < |s.calls| && s.calls[k].phase.Checkpointing?
    case Finish(k) => k < |s.calls| && s.calls[k].phase.Running?
    case FinishCheckpoint(k, _) => k < |s.calls| && s.calls[k].phase.Finishing?
  }

  function Next(s: State, e: Event): State
    requires Enabled(s, e)
  {
    match e
    case Stop(reason) => Stopped(s, reason)
    case Start(id) => Started(s, id)
    case Admit(k) => Admitted(s, k)
    case StartCheckpoint(k, ok) => StartChecked(s, k, ok)
    case Finish(k) => Move(s, k, Finishing)
    case FinishCheckpoint(k, ok) => FinishChecked(s, k, ok)
  }

  ghost predicate Run(run: seq<State>, events: seq<Event>) {
    && |run| == |events| + 1 && run[0] == INITIAL
    && forall i | 0 <= i < |events| :: Enabled(run[i], events[i]) && run[i + 1] == Next(run[i], events[i])
  }

  // -------------------------------------------------------------- invariant

  ghost predicate Inv(s: State) {
    && s.tail == |s.calls| - 1
    && (forall k | 0 <= k < |s.calls| :: s.calls[k].previous == k - 1)
    // a call past waiting had its turn: everything before it is released
    && (forall j, k | 0 <= j < k < |s.calls| && !s.calls[k].phase.Waiting? :: Released(s.calls[j]))
    // the identity of every unreleased call, and of no other, is registered
    && (forall k | 0 <= k < |s.calls| && !Released(s.calls[k]) ::
        s.calls[k].id in s.releases && s.releases[s.calls[k].id] == k)
    && (forall id | id in s.releases ::
        s.releases[id] < |s.calls| && !Released(s.calls[s.releases[id]]) && s.calls[s.releases[id]].id == id)
  }

  lemma MoveInv(s: State, k: nat, phase: Phase)
    requires Inv(s) && k < |s.calls| && !Released(s.calls[k])
    requires forall j | 0 <= j < k :: Released(s.calls[j])
    requires phase.Checkpointing? || phase.Running? || phase.Finishing?
    ensures Inv(Move(s, k, phase))
  {
    var t := Move(s, k, phase);
    forall i, j | 0 <= i < j < |t.calls| && !t.calls[j].phase.Waiting? ensures Released(t.calls[i]) {
      assert j <= k;
    }
  }

  lemma ReleaseInv(s: State, k: nat, phase: Phase)
    requires Inv(s) && k < |s.calls| && !Released(s.calls[k])
    requires forall j | 0 <= j < k :: Released(s.calls[j])
    requires phase.Rejected? || phase.Finished?
    ensures Inv(Release(s, k, phase))
  {
    var t := Release(s, k, phase);
    forall i | 0 <= i < |t.calls| && !Released(t.calls[i])
      ensures t.calls[i].id in t.releases && t.releases[t.calls[i].id] == i {
      assert t.calls[i] == s.calls[i];
    }
  }

  /** The call whose turn it is has only released calls before it. */
  lemma TurnOnlyAfterRelease(s: State, k: nat)
    requires Inv(s) && k < |s.calls|
    requires Holds(s.calls[k]) || (s.calls[k].phase.Waiting? && Resolved(s, s.calls[k].previous))
    ensures forall j | 0 <= j < k :: Released(s.calls[j])
  {
    forall j | 0 <= j < k ensures Released(s.calls[j]) {
      if s.calls[k].phase.Waiting? {
        assert s.calls[k].previous == k - 1;
        assert !s.calls[k - 1].phase.Waiting?;
      }
    }
  }

  lemma StopInv(s: State, reason: string)
    requires Inv(s)
    ensures Inv(Stopped(s, reason))
  {
  }

  lemma StartInv(s: State, id: string)
    requires Inv(s)
    ensures Inv(Started(s, id))
  {
  }

  lemma NextInv(s: State, e: Event)
    requires Inv(s) && Enabled(s, e)
    ensures Inv(Next(s, e))
  {
    match e
    case Stop(reason) => StopInv(s, reason);
    case Start(id) => StartInv(s, id);
    case Admit(k) =>
      TurnOnlyAfterRelease(s, k);
      if s.stoppedReason != "" { ReleaseInv(s, k, Rejected); } else { MoveInv(s, k, Checkpointing); }
    case StartCheckpoint(k, ok) =>
      TurnOnlyAfterRelease(s, k);
      if ok { MoveInv(s, k, Running); } else { ReleaseInv(Stopped(s, SEQUENCE_STOPPED), k, Rejected); }
    case Finish(k) =>
      TurnOnlyAfterRelease(s, k);
      MoveInv(s, k, Finishing);
    case FinishCheckpoint(k, ok) =>
      TurnOnlyAfterRelease(s, k);
      ReleaseInv(if ok then s else Stopped(s, CHECKPOINT_UNCONFIRMED), k, Finished);
  }

  lemma {:induction false} RunInv(run: seq<State>, events: seq<Event>, i: nat)
    requires Run(run, events) && i < |run|
    ensures Inv(run[i])
  {
    if i > 0 {
      RunInv(run, events, i - 1);
      NextInv(run[i - 1], events[i - 1]);
    }
  }

  // ---------------------------------------------------------- what it means

  /** At no moment do two calls hold their turn. */
  lemma OneHolder(run: seq<State>, events: seq<Event>, i: nat, j: nat, k: nat)
    requires Run(run, events) && i < |run| && j < |run[i].calls| && k < |run[i].calls|
    requires Holds(run[i].calls[j]) && Holds(run[i].calls[k])
    ensures j == k
  {
    RunInv(run, events, i);
  }

  /** Turns are given in the order start was called: every earlier call is over by then. */
  lemma AdmittedInOrder(run: seq<State>, events: seq<Event>, i: nat, j: nat, k: nat)
    requires Run(run, events) && i < |events| && events[i] == Admit(k) && j < k
    ensures k < |run[i].calls| && Released(run[i].calls[j])
  {
    RunInv(run, events, i);
    TurnOnlyAfterRelease(run[i], k);
  }

  lemma {:induction false} StopIsSticky(run: seq<State>, events: seq<Event>, i: nat, l: nat)
    requires Run(run, events) && i <= l < |run| && run[i].stoppedReason != ""
    ensures run[l].stoppedReason == run[i].stoppedReason
    decreases l - i
  {
    if i < l { StopIsSticky(run, events, i, l - 1); }
  }

  /** Once a stop reason is set it stays, and no call that was still waiting ever begins its checkpoint. */
  lemma {:induction false} NoneBeginsAfterStop(run: seq<State>, events: seq<Event>, i: nat, l: nat, k: nat)
    requires Run(run, events) && i <= l < |run| && run[i].stoppedReason != ""
    requires k < |run[l].calls| && (k < |run[i].calls| ==> run[i].calls[k].phase.Waiting?)
    ensures run[l].stoppedReason == run[i].stoppedReason
    ensures run[l].calls[k].phase.Waiting? || run[l].calls[k].phase.Rejected?
    decreases l - i
  {
    StopIsSticky(run, events, i, l);
    if i < l {
      StopIsSticky(run, events, i, l - 1);
      if k < |run[l - 1].calls| { NoneBeginsAfterStop(run, events, i, l - 1, k); }
    }
  }

  /** A second start under an identity still in flight changes nothing. */
  lemma DuplicateRefused(run: seq<State>, events: seq<Event>, i: nat, k: nat)
    requires Run(run, events) && i < |run| && k < |run[i].calls| && !Released(run[i].calls[k])
    ensures Next(run[i], Start(run[i].calls[k].id)) == run[i]
  {
    RunInv(run, events, i);
  }

  // --------------------------------------------------------------- progress

  /** An event of a call already started. */
  predicate OfCall(e: Event) {
    !e.Stop? && !e.Start?
  }

  function PhaseWork(p: Phase): nat {
    match p
    case Waiting => 4
    case Checkpointing => 3
    case Running => 2
    case Finishing => 1
    case _ => 0
  }

  function Work(calls: seq<Call>): nat {
    if calls == [] then 0 else Work(calls[..|calls| - 1]) + PhaseWork(calls[|calls| - 1].phase)
  }

  lemma {:induction false} WorkUpdate(calls: seq<Call>, k: nat, c: Call)
    requires k < |calls|
    ensures Work(calls[k := c]) == Work(calls) - PhaseWork(calls[k].phase) + PhaseWork(c.phase)
  {
    var init := calls[..|calls| - 1];
    if k < |calls| - 1 {
      WorkUpdate(init, k, c);
      assert calls[k := c][..|calls| - 1] == init[k := c];
    } else {
      assert calls[k := c][..|calls| - 1] == init;
    }
  }

  /** Every event of a started call uses up work. */
  lemma CallEventUsesWork(s: State, e: Event)
    requires Enabled(s, e) && OfCall(e)
    ensures Work(Next(s, e).calls) < Work(s.calls)
  {
    WorkUpdate(s.calls, e.k, Next(s, e).calls[e.k]);
  }

  /** While a call is unreleased, some started call can take its next step. */
  lemma {:induction false} SomeCallCanMove(s: State, k: nat) returns (e: Event)
    requires Inv(s) && k < |s.calls| && !Released(s.calls[k])
    ensures OfCall(e) && Enabled(s, e)
    decreases k
  {
    var phase := s.calls[k].phase;
    if phase.Waiting? {
      if k > 0 && !Released(s.calls[k - 1]) {
        e := SomeCallCanMove(s, k - 1);
      } else {
        assert s.calls[k].previous == k - 1;
        e := Admit(k);
      }
    } else {
      e := if phase.Checkpointing? then StartCheckpoint(k, true)
           else if phase.Running? then Finish(k) else FinishCheckpoint(k, true);
    }
  }

  /** Events of started calls alone, from a state on. */
  ghost predicate CallRun(s: State, events: seq<Event>, t: State)
    decreases |events|
  {
    if events == [] then t == s
    else OfCall(events[0]) && Enabled(s, events[0]) && CallRun(Next(s, events[0]), events[1..], t)
  }

  lemma {:induction false} CallRunBounded(s: State, events: seq<Event>, t: State)
    requires CallRun(s, events, t)
    ensures |events| <= Work(s.calls)
    decreases |events|
  {
    if events != [] {
      CallEventUsesWork(s, events[0]);
      CallRunBounded(Next(s, events[0]), events[1..], t);
    }
  }

  lemma {:induction false} CallRunInv(s: State, events: seq<Event>, t: State)
    requires Inv(s) && CallRun(s, events, t)
    ensures Inv(t)
    decreases |events|
  {
    if events != [] {
      NextInv(s, events[0]);
      CallRunInv(Next(s, events[0]), events[1..], t);
    }
  }

  /**
   * However the checkpoints turn out, letting the started calls run ends after boundedly many steps, and it can
   * only end with every call resolved and every identity free again.
   */
  lemma EveryCallResolved(run: seq<State>, events: seq<Event>, i: nat, more: seq<Event>, t: State)
    requires Run(run, events) && i < |run| && CallRun(run[i], more, t)
    ensures |more| <= Work(run[i].calls)
    ensures (forall e | OfCall(e) :: !Enabled(t, e)) <==> forall k | 0 <= k < |t.calls| :: Released(t.calls[k])
    ensures (forall k | 0 <= k < |t.calls| :: Released(t.calls[k])) ==> t.releases == map[]
  {
    hide Run, CallRun;
    RunInv(run, events, i);
    CallRunBounded(run[i], more, t);
    CallRunInv(run[i], more, t);
    if k :| 0 <= k < |t.calls| && !Released(t.calls[k]) {
      var e := SomeCallCanMove(t, k);
    }
  }

  // --------------------------------------------------- what stops the sequence

  /** A checkpoint that fails, a stop with a reason, or a turn that arrives after one of them. */
  predicate Stops(s: State, e: Event) {
    match e
    case Stop(reason) => reason != ""
    case StartCheckpoint(_, ok) => !ok
    case FinishCheckpoint(_, ok) => !ok
    case Admit(_) => s.stoppedReason != ""
    case _ => false
  }

  /** The reason that stays is that of the first event that stops the sequence. */
  predicate Gives(e: Event, reason: string) {
    match e
    case Stop(own) => reason == own
    case StartCheckpoint(_, _) => reason == "The preceding action or its checkpoint did not complete."
    case FinishCheckpoint(_, _) => reason == "The preceding action checkpoint could not be confirmed."
    case _ => false
  }

  ghost predicate FirstStop(run: seq<State>, events: seq<Event>, k: nat, i: int) {
    0 <= i < k <= |events| && |run| > k && Stops(run[i], events[i]) && forall j | 0 <= j < i ::
      !Stops(run[j], events[j])
  }

  /** A sequence is stopped exactly when something has stopped it, and by the first such event. */
  lemma {:induction false} StoppedByFirst(run: seq<State>, events: seq<Event>, k: nat)
    requires Run(run, events) && k < |run|
    ensures run[k].stoppedReason != "" <==> exists i :: FirstStop(run, events, k, i)
    ensures forall i | FirstStop(run, events, k, i) :: Gives(events[i], run[k].stoppedReason)
  {
    if k > 0 {
      StoppedByFirst(run, events, k - 1);
      assert run[k] == Next(run[k - 1], events[k - 1]);
      StopsOnce(run[k - 1], events[k - 1]);
      if run[k - 1].stoppedReason != "" {
        var i :| FirstStop(run, events, k - 1, i);
        assert FirstStop(run, events, k, i);
      } else {
        forall j | 0 <= j < k - 1 ensures !Stops(run[j], events[j]) { NoStopBefore(run, events, k - 1, j); }
        if Stops(run[k - 1], events[k - 1]) { assert FirstStop(run, events, k, k - 1); }
      }
    }
  }

  lemma StopsOnce(s: State, e: Event)
    requires Enabled(s, e)
    ensures s.stoppedReason != "" ==> Next(s, e).stoppedReason == s.stoppedReason
    ensures s.stoppedReason == "" ==>
      (Next(s, e).stoppedReason != "" <==> Stops(s, e)) && (Stops(s, e) ==> Gives(e, Next(s, e).stoppedReason))
  {
  }

  /** Where nothing has stopped a sequence by now, no earlier event did. */
  lemma {:induction false} NoStopBefore(run: seq<State>, events: seq<Event>, k: nat, j: nat)
    requires Run(run, events) && j < k < |run| && run[k].stoppedReason == ""
    ensures !Stops(run[j], events[j])
    decreases k
  {
    assert run[k] == Next(run[k - 1], events[k - 1]);
    StopsOnce(run[k - 1], events[k - 1]);
    if j < k - 1 { NoStopBefore(run, events, k - 1, j); }
  }

  // --------------------------------------------------- what a call goes through

  /** Where a call gets from one phase by an event of its own. */
  predicate Passes(s: State, e: Event, k: nat, to: Phase) requires k < |s.calls| {
    match s.calls[k].phase
    case Waiting => e == Admit(k) && to == if s.stoppedReason == "" then Checkpointing else Rejected
    case Checkpointing => (e == StartCheckpoint(k, true) && to == Running) ||
      (e == StartCheckpoint(k, false) && to == Rejected)
    case Running => e == Finish(k) && to == Finishing
    case Finishing => e.FinishCheckpoint? && e.k == k && to == Finished
    case _ => false
  }

  /** An event moves its own call one phase on and no other. */
  lemma EventMoves(s: State, e: Event, k: nat)
    requires Enabled(s, e) && k < |s.calls|
    ensures
      var t := Next(s, e);
      && |s.calls| <= |t.calls| <= |s.calls| + 1
      && t.calls[k].id == s.calls[k].id && t.calls[k].previous == s.calls[k].previous
      && (t.calls[k].phase == s.calls[k].phase || Passes(s, e, k, t.calls[k].phase))
      && (forall to | Passes(s, e, k, to) :: t.calls[k].phase == to)
  {
  }

  /** At every moment an identity is taken exactly when a call under it is neither rejected nor finished. */
  lemma TakenIffUnreleased(run: seq<State>, events: seq<Event>, k: nat, id: string)
    requires Run(run, events) && k < |run|
    ensures id in run[k].releases <==>
      exists j :: 0 <= j < |run[k].calls| && !Released(run[k].calls[j]) && run[k].calls[j].id == id
  {
    RunInv(run, events, k);
    var s := run[k];
    if id in s.releases { assert !Released(s.calls[s.releases[id]]); }
  }

  // ------------------------------------------------------------- the closure

  /** The closure's variables, updated in place. */
  class Lifecycle {
    var calls: seq<Call>
    var tail: int
    var stoppedReason: string
    var releases: map<string, nat>

    function Contents(): State
      reads this
    {
      State(calls, tail, stoppedReason, releases)
    }

    constructor ()
      ensures Contents() == INITIAL
    {
      calls, tail, stoppedReason, releases := [], -1, "", map[];
    }

    method StopWith(reason: string)
      modifies this
      ensures Contents() == Stopped(old(Contents()), reason)
    {
      if stoppedReason == "" { stoppedReason := reason; }
    }

    method ReleaseCall(k: nat, phase: Phase)
      requires k < |calls|
      modifies this
      ensures Contents() == Release(old(Contents()), k, phase)
    {
      releases := releases - {calls[k].id};
      calls := calls[k := calls[k].(phase := phase)];
    }

    /** Up to the first await of start: registers the call, unless its identity is in flight. */
    method BeginStart(id: string) returns (duplicate: bool)
      modifies this
      ensures duplicate == (id in old(releases))
      ensures Contents() == Next(old(Contents()), Start(id))
    {
      if id in releases { return true; }
      var previous := tail;
      tail := |calls|;
      releases := releases[id := |calls|];
      calls := calls + [Call(id, previous, Waiting)];
      return false;
    }

    /** The previous promise has resolved: begin the checkpoint, or fail because the sequence was stopped. */
    method TakeTurn(k: nat) returns (begins: bool)
      requires Enabled(Contents(), Admit(k))
      modifies this
      ensures Contents() == Next(old(Contents()), Admit(k))
      ensures begins == (old(stoppedReason) == "")
    {
      if stoppedReason != "" {
        StopWith(SEQUENCE_STOPPED);
        ReleaseCall(k, Rejected);
        return false;
      }
      calls := calls[k := calls[k].(phase := Checkpointing)];
      return true;
    }

    method EndStartCheckpoint(k: nat, ok: bool)
      requires Enabled(Contents(), StartCheckpoint(k, ok))
      modifies this
      ensures Contents() == Next(old(Contents()), StartCheckpoint(k, ok))
    {
      if ok {
        calls := calls[k := calls[k].(phase := Running)];
      } else {
        StopWith(SEQUENCE_STOPPED);
        ReleaseCall(k, Rejected);
      }
    }

    method BeginFinish(k: nat)
      requires Enabled(Contents(), Finish(k))
      modifies this
      ensures Contents() == Next(old(Contents()), Finish(k))
    {
      calls := calls[k := calls[k].(phase := Finishing)];
    }

    method EndFinishCheckpoint(k: nat, ok: bool)
      requires Enabled(Contents(), FinishCheckpoint(k, ok))
      modifies this
      ensures Contents() == Next(old(Contents()), FinishCheckpoint(k, ok))
    {
      if !ok { StopWith(CHECKPOINT_UNCONFIRMED); }
      ReleaseCall(k, Finished);
    }
  }
}
