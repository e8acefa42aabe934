/**
 * The goroutines of a for_each: a launching loop, a semaphore, one result slot per item, and a shared
 * cancellation. Models engine_execute_for_each.go lines 53-102, one atomic step at a time.
 */
module ForEachSchedule {
  import opened OrderedStrings
  import opened JsonValues
  import opened WorkflowTypes
  import opened WorkflowGraph
  import opened WorkflowValidation
  import opened WorkflowEngine
  import opened WorkflowAccounting

  /** What is fixed before the first goroutine starts; outcomes are the runs of the items left undisturbed. */
  datatype Job = Job(w: World, nodeId: string, items: seq<Json>, outcomes: seq<RunResult>, limit: nat, failFast: bool)

  datatype Phase = Unstarted | Waiting | Running | Finished | Dropped

  datatype State = State(phases: seq<Phase>, next: nat, stopped: bool, canceled: bool, parentCanceled: bool,
                         results: seq<ItemResult>)

  const BLANK := ItemResult(0, JNull, map[], map[], "")

  predicate ValidJob(j: Job) {
    |j.outcomes| == |j.items| && j.limit >= 1
  }

  function Init(j: Job): State {
    State(seq(|j.items|, _ => Unstarted), 0, false, false, false, seq(|j.items|, _ => BLANK))
  }

  function RunningSet(s: State): set<nat> {
    set i: nat | i < |s.phases| && s.phases[i] == Running
  }

  /** What makes a finished item cancel the others when failing fast. */
  predicate Bad(j: Job, i: nat, r: RunResult) {
    r.error.Some? || j.w.itemCheckpoint(j.nodeId, i).Some? || r.state != RunCompleted
  }

  predicate Launch(j: Job, s: State, s': State) {
    && !s.stopped && !s.canceled && s.next < |s.phases|
    && s' == s.(phases := s.phases[s.next := Waiting], next := s.next + 1)
  }

  predicate BreakOff(j: Job, s: State, s': State) {
    !s.stopped && s.canceled && s.next < |s.phases| && s' == s.(stopped := true)
  }

  predicate Acquire(j: Job, s: State, s': State, i: nat) {
    && i < |s.phases| && s.phases[i] == Waiting && |RunningSet(s)| < j.limit
    && s' == s.(phases := s.phases[i := Running])
  }

  predicate Drop(j: Job, s: State, s': State, i: nat) {
    && i < |s.phases| && s.phases[i] == Waiting && s.canceled
    && s' == s.(phases := s.phases[i := Dropped])
  }

  /** A run that ends after a cancellation may end in any way; otherwise it ends as it would alone. */
  predicate Finish(j: Job, s: State, s': State, i: nat, r: RunResult)
    requires ValidJob(j)
  {
    && i < |s.phases| == |s.results| == |j.items| && s.phases[i] == Running
    && (r == j.outcomes[i] || s.canceled)
    && s' == s.(phases := s.phases[i := Finished],
                results := s.results[i := ItemOf(j.w, j.nodeId, i, j.items[i], r)],
                canceled := s.canceled || (j.failFast && Bad(j, i, r)))
  }

  predicate ParentCancel(j: Job, s: State, s': State) {
    !s.parentCanceled && s' == s.(canceled := true, parentCanceled := true)
  }

  ghost predicate Step(j: Job, s: State, s': State)
    requires ValidJob(j)
  {
    || Launch(j, s, s') || BreakOff(j, s, s') || ParentCancel(j, s, s')
    || (exists i :: Acquire(j, s, s', i)) || (exists i :: Drop(j, s, s', i))
    || (exists i, r :: Finish(j, s, s', i, r))
  }

  ghost predicate Schedule(j: Job, run: seq<State>)
    requires ValidJob(j)
  {
    run != [] && run[0] == Init(j) && forall k | 0 <= k < |run| - 1 :: Step(j, run[k], run[k + 1])
  }

  /** The loop is over and no goroutine is left: the wait returns. */
  predicate Terminal(s: State) {
    (s.next == |s.phases| || s.stopped) && forall i | 0 <= i < |s.phases| ::
      s.phases[i] != Waiting && s.phases[i] != Running
  }

  // ------------------------------------------------------------- invariant

  ghost predicate SlotOk(j: Job, s: State, i: nat)
    requires ValidJob(j) && i < |s.phases| == |s.results| == |j.items|
  {
    && (s.phases[i] == Unstarted <==> i >= s.next)
    && (s.phases[i] == Dropped ==> s.canceled)
    && (s.phases[i] != Finished ==> s.results[i] == BLANK)
    && (s.phases[i] == Finished && !s.canceled ==>
          s.results[i] == ItemOf(j.w, j.nodeId, i, j.items[i], j.outcomes[i]) &&
            (j.failFast ==> !Bad(j, i, j.outcomes[i])))
  }

  ghost predicate Inv(j: Job, s: State)
    requires ValidJob(j)
  {
    && |s.phases| == |s.results| == |j.items| && s.next <= |s.phases|
    && (forall i | 0 <= i < |s.phases| :: SlotOk(j, s, i))
    && |RunningSet(s)| <= j.limit
    && (s.stopped ==> s.canceled)
    && (s.canceled && !s.parentCanceled ==>
          j.failFast && exists i :: 0 <= i < |s.phases| && s.phases[i] == Finished && Culprit(j, s, i))
  }

  /** A finished item whose own undisturbed result is bad. */
  ghost predicate Culprit(j: Job, s: State, i: nat)
    requires ValidJob(j) && i < |s.results| == |j.items|
  {
    Bad(j, i, j.outcomes[i]) && s.results[i] == ItemOf(j.w, j.nodeId, i, j.items[i], j.outcomes[i])
  }

  lemma RunningLeaves(s: State, i: nat, p: Phase)
    requires i < |s.phases| && p != Running
    ensures RunningSet(s.(phases := s.phases[i := p])) == RunningSet(s) - {i}
    ensures |RunningSet(s.(phases := s.phases[i := p]))| <= |RunningSet(s)|
  {
  }

  lemma StepInv(j: Job, s: State, s': State)
    requires ValidJob(j) && Inv(j, s) && Step(j, s, s')
    ensures Inv(j, s')
  {
    hide Inv, Launch, BreakOff, ParentCancel, Acquire, Drop, Finish;
    if Launch(j, s, s') {
      LaunchInv(j, s, s');
    } else if BreakOff(j, s, s') || ParentCancel(j, s, s') {
      CancelInv(j, s, s');
    } else if i :| Acquire(j, s, s', i) {
      AcquireInv(j, s, s', i);
    } else if i :| Drop(j, s, s', i) {
      DropInv(j, s, s', i);
    } else {
      var i, r :| Finish(j, s, s', i, r);
      FinishInv(j, s, s', i, r);
    }
  }

  lemma CancelInv(j: Job, s: State, s': State)
    requires ValidJob(j) && Inv(j, s) && (BreakOff(j, s, s') || ParentCancel(j, s, s'))
    ensures Inv(j, s')
  {
    hide SlotOk, Culprit;
    assert RunningSet(s') == RunningSet(s);
    SlotsKept(j, s, s');
  }

  lemma AcquireInv(j: Job, s: State, s': State, i: nat)
    requires ValidJob(j) && Inv(j, s) && Acquire(j, s, s', i)
    ensures Inv(j, s')
  {
    hide SlotOk, Culprit;
    assert RunningSet(s') == RunningSet(s) + {i};
    MoveInv(j, s, s', i);
  }

  lemma DropInv(j: Job, s: State, s': State, i: nat)
    requires ValidJob(j) && Inv(j, s) && Drop(j, s, s', i)
    ensures Inv(j, s')
  {
    hide SlotOk, Culprit;
    RunningLeaves(s, i, Dropped);
    MoveInv(j, s, s', i);
  }

  lemma LaunchInv(j: Job, s: State, s': State)
    requires ValidJob(j) && Inv(j, s) && Launch(j, s, s')
    ensures Inv(j, s')
  {
    RunningLeaves(s, s.next, Waiting);
    forall i | 0 <= i < |s'.phases| ensures SlotOk(j, s', i) {
      assert SlotOk(j, s, i);
    }
  }

  lemma SlotsKept(j: Job, s: State, s': State)
    requires ValidJob(j) && Inv(j, s) && (BreakOff(j, s, s') || ParentCancel(j, s, s'))
    ensures forall i | 0 <= i < |s'.phases| :: SlotOk(j, s', i)
    ensures s'.canceled && !s'.parentCanceled ==> exists i ::
      0 <= i < |s'.phases| && s'.phases[i] == Finished && Culprit(j, s', i)
  {
    forall i | 0 <= i < |s'.phases| ensures SlotOk(j, s', i) {
      assert SlotOk(j, s, i);
    }
    if s.canceled && !s.parentCanceled && !s'.parentCanceled {
      var k :| 0 <= k < |s.phases| && s.phases[k] == Finished && Culprit(j, s, k);
      assert Culprit(j, s', k);
    }
  }

  lemma MoveInv(j: Job, s: State, s': State, i: nat)
    requires ValidJob(j) && Inv(j, s) && (Acquire(j, s, s', i) || Drop(j, s, s', i))
    requires |RunningSet(s')| <= j.limit
    ensures Inv(j, s')
  {
    forall k | 0 <= k < |s'.phases| ensures SlotOk(j, s', k) {
      assert SlotOk(j, s, k);
    }
    if s.canceled && !s.parentCanceled {
      var k :| 0 <= k < |s.phases| && s.phases[k] == Finished && Culprit(j, s, k);
      assert s'.phases[k] == Finished && Culprit(j, s', k);
    }
  }

  lemma FinishInv(j: Job, s: State, s': State, i: nat, r: RunResult)
    requires ValidJob(j) && Inv(j, s) && Finish(j, s, s', i, r)
    ensures Inv(j, s')
  {
    RunningLeaves(s, i, Finished);
    assert RunningSet(s') == RunningSet(s.(phases := s.phases[i := Finished]));
    forall k | 0 <= k < |s'.phases| ensures SlotOk(j, s', k) {
      assert SlotOk(j, s, k);
    }
    if s.canceled && !s.parentCanceled {
      var k :| 0 <= k < |s.phases| && s.phases[k] == Finished && Culprit(j, s, k);
      assert s'.phases[k] == Finished && Culprit(j, s', k);
    } else if s'.canceled && !s'.parentCanceled {
      assert s'.phases[i] == Finished && Culprit(j, s', i);
    }
  }

  lemma {:induction false} ScheduleInv(j: Job, run: seq<State>, k: nat)
    requires ValidJob(j) && Schedule(j, run) && k < |run|
    ensures Inv(j, run[k])
  {
    if k == 0 {
    } else {
      ScheduleInv(j, run, k - 1);
      StepInv(j, run[k - 1], run[k]);
    }
  }

  // ---------------------------------------------------------- what it means

  /** At every moment of every schedule at most the configured number of items run. */
  lemma ConcurrencyBounded(j: Job, run: seq<State>, k: nat)
    requires ValidJob(j) && Schedule(j, run) && k < |run|
    ensures |RunningSet(run[k])| <= j.limit
  {
    ScheduleInv(j, run, k);
  }

  /** The results of running the items one after another, in index order. */
  function InOrder(j: Job): seq<ItemResult>
    requires ValidJob(j)
  {
    seq(|j.items|, i requires 0 <= i < |j.items| => ItemOf(j.w, j.nodeId, i, j.items[i], j.outcomes[i]))
  }

  lemma TerminalInOrder(j: Job, s: State)
    requires ValidJob(j) && Inv(j, s) && Terminal(s) && !s.canceled
    ensures s.results == InOrder(j)
  {
    forall i | 0 <= i < |s.results| ensures s.results[i] == InOrder(j)[i] {
      assert SlotOk(j, s, i);
    }
  }

  /** Collecting errors, every undisturbed schedule ends with the results of the items in index order. */
  lemma CollectIsInOrder(j: Job, run: seq<State>)
    requires ValidJob(j) && Schedule(j, run) && !j.failFast
    requires Terminal(run[|run| - 1]) && !run[|run| - 1].parentCanceled
    ensures run[|run| - 1].results == InOrder(j)
  {
    ScheduleInv(j, run, |run| - 1);
    TerminalInOrder(j, run[|run| - 1]);
  }

  /** An item run that gave no error says completed exactly when nothing failed, and errors have texts. */
  ghost predicate Coherent(j: Job)
    requires ValidJob(j)
  {
    && (forall e :: j.w.message(e) != "")
    && forall i | 0 <= i < |j.outcomes| ::
         (j.outcomes[i].error.None? ==> (j.outcomes[i].state == RunCompleted <==> j.outcomes[i].errors == map[]))
  }

  /**
   * Failing fast reports an error in every undisturbed schedule exactly when collecting would report a
   * partial result.
   */
  lemma FailFastIffPartial(j: Job, run: seq<State>)
    requires ValidJob(j) && Coherent(j) && Schedule(j, run)
    requires Terminal(run[|run| - 1]) && !run[|run| - 1].parentCanceled
    ensures AnyFailed(run[|run| - 1].results) <==> AnyFailed(InOrder(j))
  {
    var s := run[|run| - 1];
    ScheduleInv(j, run, |run| - 1);
    if s.canceled {
      var i :| 0 <= i < |s.phases| && s.phases[i] == Finished && Culprit(j, s, i);
      assert ItemFailed(s.results[i]) && ItemFailed(InOrder(j)[i]);
    } else {
      TerminalInOrder(j, s);
    }
  }

  /** An undisturbed schedule that ends without error ends with the results of the items in index order. */
  lemma SuccessIsInOrder(j: Job, run: seq<State>)
    requires ValidJob(j) && Coherent(j) && Schedule(j, run)
    requires Terminal(run[|run| - 1]) && !run[|run| - 1].parentCanceled
    requires j.failFast ==> !AnyFailed(run[|run| - 1].results)
    ensures run[|run| - 1].results == InOrder(j)
  {
    var s := run[|run| - 1];
    ScheduleInv(j, run, |run| - 1);
    if s.canceled { CulpritFailed(j, s); }
    TerminalInOrder(j, s);
  }

  lemma CulpritFailed(j: Job, s: State)
    requires ValidJob(j) && Coherent(j) && Inv(j, s) && s.canceled && !s.parentCanceled
    ensures j.failFast && AnyFailed(s.results)
  {
    var i :| 0 <= i < |s.phases| && s.phases[i] == Finished && Culprit(j, s, i);
    assert ItemFailed(s.results[i]);
  }

  /** Work left: how far each item and the loop still have to go. */
  function Remaining(s: State): nat {
    ItemWork(s.phases) + (if s.stopped then 0 else 1) + (if s.parentCanceled then 0 else 1)
  }

  function ItemWork(phases: seq<Phase>): nat {
    if phases == [] then 0
    else ItemWork(phases[..|phases| - 1]) + PhaseWork(phases[|phases| - 1])
  }

  function PhaseWork(p: Phase): nat {
    match p
    case Unstarted => 3
    case Waiting => 2
    case Running => 1
    case _ => 0
  }

  lemma {:induction false} ItemWorkUpdate(phases: seq<Phase>, i: nat, p: Phase)
    requires i < |phases|
    ensures ItemWork(phases[i := p]) == ItemWork(phases) - PhaseWork(phases[i]) + PhaseWork(p)
  {
    var init := phases[..|phases| - 1];
    if i < |phases| - 1 {
      ItemWorkUpdate(init, i, p);
      assert phases[i := p][..|phases| - 1] == init[i := p];
    } else {
      assert phases[i := p][..|phases| - 1] == init;
    }
  }

  /** Every step uses up work, so every schedule is finite. */
  lemma StepUsesWork(j: Job, s: State, s': State)
    requires ValidJob(j) && Inv(j, s) && Step(j, s, s')
    ensures Remaining(s') < Remaining(s)
  {
    if Launch(j, s, s') {
      assert SlotOk(j, s, s.next);
      ItemWorkUpdate(s.phases, s.next, Waiting);
    } else if i :| Acquire(j, s, s', i) {
      ItemWorkUpdate(s.phases, i, Running);
    } else if i :| Drop(j, s, s', i) {
      ItemWorkUpdate(s.phases, i, Dropped);
    } else if i, r :| Finish(j, s, s', i, r) {
      ItemWorkUpdate(s.phases, i, Finished);
    }
  }

  /** No schedule gets stuck: some step is possible until the wait returns. */
  lemma NeverStuck(j: Job, s: State) returns (s': State)
    requires ValidJob(j) && Inv(j, s) && !Terminal(s)
    ensures Step(j, s, s')
  {
    if !s.stopped && s.next < |s.phases| {
      s' := if s.canceled then s.(stopped := true) else s.(phases := s.phases[s.next := Waiting], next := s.next + 1);
      assert Launch(j, s, s') || BreakOff(j, s, s');
    } else if RunningSet(s) != {} {
      var i :| i in RunningSet(s);
      var r := j.outcomes[i];
      s' := s.(phases := s.phases[i := Finished],
               results := s.results[i := ItemOf(j.w, j.nodeId, i, j.items[i], r)],
               canceled := s.canceled || (j.failFast && Bad(j, i, r)));
      assert Finish(j, s, s', i, r);
    } else {
      var i :| 0 <= i < |s.phases| && (s.phases[i] == Waiting || s.phases[i] == Running);
      assert i !in RunningSet(s);
      s' := s.(phases := s.phases[i := Running]);
      assert Acquire(j, s, s', i);
    }
  }

  /** When the run itself is canceled first, the node ends with blank results and reports neither error nor partial. */
  lemma ParentCancelHidesEverything(j: Job) returns (run: seq<State>)
    requires ValidJob(j) && j.items != []
    ensures Schedule(j, run) && Terminal(run[|run| - 1])
    ensures ForEachReply(run[|run| - 1].results, j.failFast, 0).error.None?
    ensures !AnyFailed(run[|run| - 1].results)
    ensures run[|run| - 1].results == Init(j).results && run[|run| - 1].phases == Init(j).phases
  {
    var s0 := Init(j);
    var s1 := s0.(canceled := true, parentCanceled := true);
    var s2 := s1.(stopped := true);
    assert ParentCancel(j, s0, s1) && BreakOff(j, s1, s2);
    run := [s0, s1, s2];
  }

  /** The item never ran, and neither its result nor the node's reply says so. */
  predicate Unreported(j: Job, s: State, i: nat) {
    && i < |s.phases| == |s.results| && s.phases[i] != Finished && !ItemFailed(s.results[i])
    && ForEachReply(s.results, j.failFast, 0).error.None?
  }

  /**
   * When a schedule has ended, an item that never ran goes unreported exactly when the parent was canceled
   * and, failing fast, no item that did run failed.
   */
  lemma UnreportedIff(j: Job, run: seq<State>, i: nat)
    requires ValidJob(j) && Coherent(j) && Schedule(j, run) && Terminal(run[|run| - 1]) && i < |j.items|
    requires |run[|run| - 1].phases| == |j.items| ==> run[|run| - 1].phases[i] != Finished
    ensures
      var s := run[|run| - 1];
      Unreported(j, s, i) <==> s.parentCanceled && (j.failFast ==> !AnyFailed(s.results))
  {
    var s := run[|run| - 1];
    ScheduleInv(j, run, |run| - 1);
    assert SlotOk(j, s, i);
    if !s.parentCanceled && s.canceled { CulpritFailed(j, s); }
  }

  ghost predicate EndsIn(j: Job, run: seq<State>, s: State)
    requires ValidJob(j)
  {
    Schedule(j, run) && run[|run| - 1] == s && Terminal(s)
  }

  /** In every schedule of a job each item that never ran is reported exactly when there are no items at all. */
  lemma AlwaysReportedIffNoItems(j: Job)
    requires ValidJob(j)
    ensures (forall run: seq<State>, s: State, i: nat | EndsIn(j, run, s) :: !Unreported(j, s, i)) <==> j.items == []
  {
    if j.items == [] {
      forall run: seq<State>, s: State, i: nat | EndsIn(j, run, s) ensures !Unreported(j, s, i) {
        ScheduleInv(j, run, |run| - 1);
      }
    } else {
      var run := ParentCancelHidesEverything(j);
      var i: nat := 0;
      assert EndsIn(j, run, run[|run| - 1]) && Unreported(j, run[|run| - 1], i);
    }
  }

  // ------------------------------------------------- the engine's own items

  /** The job a for_each node sets up. */
  ghost function NodeJob(w: World, d: Definition, req: Request, ancestry: set<string>, depth: nat,
                         inv: Invocation, items: seq<Json>, limit: nat, failFast: bool): Job
    requires Runnable(w, d, ancestry, depth, inv.node) && ChildOf(w.rules, inv.node).Some?
  {
    RunnableFacts(w, d, ancestry, depth, inv.node);
    Job(w, inv.nodeId, items,
        seq(|items|, k requires 0 <= k < |items| =>
          Execute(w, ChildOf(w.rules, inv.node).value, ItemRequest(req, inv.nodeId, k, items[k]),
                  ChildAncestry(inv.node, ancestry), depth + 1).result),
        limit, failFast)
  }

  lemma {:induction false} ItemResultsInOrder(w: World, d: Definition, req: Request, ancestry: set<string>, depth: nat,
                                              inv: Invocation, items: seq<Json>, limit: nat, failFast: bool)
    requires Runnable(w, d, ancestry, depth, inv.node) && ChildOf(w.rules, inv.node).Some? && limit >= 1
    ensures InOrder(NodeJob(w, d, req, ancestry, depth, inv, items, limit, failFast))
         == ItemResults(w, d, req, ancestry, depth, inv, items)
    decreases |items|
  {
    hide Accepted, Execute;
    RunnableFacts(w, d, ancestry, depth, inv.node);
    var all := InOrder(NodeJob(w, d, req, ancestry, depth, inv, items, limit, failFast));
    if items == [] {
      assert all == [];
    } else {
      var k := |items| - 1;
      var init := items[..k];
      var before := InOrder(NodeJob(w, d, req, ancestry, depth, inv, init, limit, failFast));
      ItemResultsInOrder(w, d, req, ancestry, depth, inv, init, limit, failFast);
      forall i | 0 <= i < k ensures all[i] == before[i] {
        assert init[i] == items[i];
      }
      assert all == before + [all[k]];
    }
  }

  /**
   * Whatever the interleaving, the reply of the goroutines is the reply the engine's own account of the
   * node gives: the same verdict, and the same document whenever it is no error.
   */
  lemma ScheduleRefinesHandle(w: World, d: Definition, req: Request, ancestry: set<string>, depth: nat,
                              inv: Invocation, partial: bool, effects: nat, limit: nat, run: seq<State>)
    requires Runnable(w, d, ancestry, depth, inv.node) && inv.node.kind == "for_each" && limit >= 1
    requires PrepareItems(w, inv.node, inv.input).Items? && forall e :: w.message(e) != ""
    requires
      var prepared := PrepareItems(w, inv.node, inv.input);
      && Schedule(NodeJob(w, d, req, ancestry, depth, inv, prepared.items, limit, prepared.failFast), run)
      && Terminal(run[|run| - 1]) && !run[|run| - 1].parentCanceled
    ensures
      var prepared := PrepareItems(w, inv.node, inv.input);
      var reply := ForEachReply(run[|run| - 1].results, prepared.failFast, effects);
      var expected := Handle(w, d, req, ancestry, depth, inv, partial, effects);
      && reply.error == expected.error && reply.partial == expected.partial && reply.effects == expected.effects
      && (reply.error.None? ==> reply == expected)
  {
    hide Accepted, Execute;
    RunnableFacts(w, d, ancestry, depth, inv.node);
    var prepared := PrepareItems(w, inv.node, inv.input);
    var child := ChildOf(w.rules, inv.node).value;
    var j := NodeJob(w, d, req, ancestry, depth, inv, prepared.items, limit, prepared.failFast);
    ItemResultsInOrder(w, d, req, ancestry, depth, inv, prepared.items, limit, prepared.failFast);
    forall i | 0 <= i < |j.outcomes|
      ensures j.outcomes[i].error.None? ==> (j.outcomes[i].state == RunCompleted <==> j.outcomes[i].errors == map[])
    {
      EveryNodeAccounted(w, child, ItemRequest(req, inv.nodeId, i, prepared.items[i]),
                         ChildAncestry(inv.node, ancestry), depth + 1);
    }
    assert Coherent(j);
    FailFastIffPartial(j, run);
    if !prepared.failFast || !AnyFailed(run[|run| - 1].results) { SuccessIsInOrder(j, run); }
  }
}
