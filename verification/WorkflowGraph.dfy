/**
 * Ordering the nodes of a workflow: validation's cycle check and the deterministic execution order.
 * Models validate.go lines 111-153 and engine_execute_for_each.go lines 168-198.
 */
module WorkflowGraph {
  import opened OrderedStrings
  import opened WorkflowTypes

  // ---------------------------------------------------------------- cycles

  ghost predicate HasEdge(edges: seq<Edge>, a: string, b: string) {
    exists e :: e in edges && e.source == a && e.target == b
  }

  ghost predicate Walk(edges: seq<Edge>, p: seq<string>) {
    forall i | 0 <= i < |p| - 1 :: HasEdge(edges, p[i], p[i + 1])
  }

  ghost predicate Cycle(edges: seq<Edge>, p: seq<string>) {
    |p| >= 2 && p[0] == p[|p| - 1] && Walk(edges, p)
  }

  ghost predicate Acyclic(edges: seq<Edge>) {
    !exists p :: Cycle(edges, p)
  }

  // ------------------------------------------------- the least ready order

  /** Not placed yet, with every predecessor placed. */
  ghost predicate Ready(n: string, edges: seq<Edge>, placed: set<string>) {
    n !in placed && forall e | e in edges && e.target == n :: e.source in placed
  }

  ghost function ReadySet(ids: set<string>, edges: seq<Edge>, placed: set<string>): set<string> {
    set n | n in ids && Ready(n, edges, placed)
  }

  /** Repeatedly place the least identifier that is ready, until none is. */
  ghost function LeastReadyOrder(ids: set<string>, edges: seq<Edge>, placed: set<string>): (r: seq<string>)
    decreases |ids - placed|
  {
    var ready := ReadySet(ids, edges, placed);
    if ready == {} then []
    else
      var n := Least(ready);
      assert ids - (placed + {n}) < ids - placed;
      SubsetSmaller(ids - (placed + {n}), ids - placed);
      [n] + LeastReadyOrder(ids, edges, placed + {n})
  }

  lemma SubsetSmaller<T>(a: set<T>, b: set<T>)
    requires a < b
    ensures |a| < |b|
  {
    assert b == a + (b - a);
    assert |b| == |a| + |b - a|;
  }

  lemma SubsetSize<T>(a: set<T>, b: set<T>)
    requires a <= b
    ensures |a| <= |b|
  {
    if a != b { SubsetSmaller(a, b); }
  }

  /** Each entry is the least identifier ready after the entries before it. */
  ghost predicate PicksLeastReady(r: seq<string>, ids: set<string>, edges: seq<Edge>, placed: set<string>) {
    && (forall i | 0 <= i < |r| :: PickedNext(r[i], ids, edges, placed + Elements(r[..i])))
    && ReadySet(ids, edges, placed + Elements(r)) == {}
  }

  ghost predicate PickedNext(x: string, ids: set<string>, edges: seq<Edge>, placed: set<string>) {
    IsLeast(x, ReadySet(ids, edges, placed))
  }

  lemma ElementsCons(r: seq<string>, i: nat, placed: set<string>)
    requires 0 < i <= |r|
    ensures placed + Elements(r[..i]) == (placed + {r[0]}) + Elements(r[1..][..i - 1])
  {
    assert r[..i] == [r[0]] + r[1..][..i - 1];
  }

  /** Peeling the first pick. */
  lemma PicksCons(r: seq<string>, ids: set<string>, edges: seq<Edge>, placed: set<string>)
    requires r != []
    ensures PicksLeastReady(r, ids, edges, placed) <==>
            PickedNext(r[0], ids, edges, placed) && PicksLeastReady(r[1..], ids, edges, placed + {r[0]})
  {
    hide PickedNext, ReadySet;
    var rest := r[1..];
    assert placed + Elements(r[..0]) == placed;
    ElementsCons(r, |r|, placed);
    assert r[..|r|] == r && rest[..|r| - 1] == rest;
    forall i | 0 < i < |r|
      ensures placed + Elements(r[..i]) == (placed + {r[0]}) + Elements(rest[..i - 1]) && r[i] == rest[i - 1]
    {
      ElementsCons(r, i, placed);
    }
    if PicksLeastReady(rest, ids, edges, placed + {r[0]}) && PickedNext(r[0], ids, edges, placed) {
      forall i | 0 <= i < |r| ensures PickedNext(r[i], ids, edges, placed + Elements(r[..i])) {
        if i > 0 { assert PickedNext(rest[i - 1], ids, edges, (placed + {r[0]}) + Elements(rest[..i - 1])); }
      }
    }
    if PicksLeastReady(r, ids, edges, placed) {
      forall i | 0 <= i < |rest| ensures PickedNext(rest[i], ids, edges, (placed + {r[0]}) + Elements(rest[..i])) {
        assert PickedNext(r[i + 1], ids, edges, placed + Elements(r[..i + 1]));
      }
      assert PickedNext(r[0], ids, edges, placed + Elements(r[..0]));
    }
  }

  lemma {:induction false} OrderPicksLeastReady(ids: set<string>, edges: seq<Edge>, placed: set<string>)
    ensures PicksLeastReady(LeastReadyOrder(ids, edges, placed), ids, edges, placed)
    decreases |ids - placed|
  {
    hide IsLeast;
    var ready := ReadySet(ids, edges, placed);
    var r := LeastReadyOrder(ids, edges, placed);
    if ready == {} {
      assert r == [] && placed + Elements(r) == placed;
    } else {
      var n := Least(ready);
      SubsetSmaller(ids - (placed + {n}), ids - placed);
      OrderPicksLeastReady(ids, edges, placed + {n});
      assert r[1..] == LeastReadyOrder(ids, edges, placed + {n});
      PicksCons(r, ids, edges, placed);
    }
  }

  /** The order is determined by the graph alone: nothing else picks the least ready node each time. */
  lemma {:induction false} LeastReadyOrderUnique(r: seq<string>, ids: set<string>, edges: seq<Edge>,
                                                 placed: set<string>)
    requires PicksLeastReady(r, ids, edges, placed)
    ensures r == LeastReadyOrder(ids, edges, placed)
    decreases |r|
  {
    var ready := ReadySet(ids, edges, placed);
    if r == [] {
      assert placed + Elements(r) == placed;
    } else {
      PicksCons(r, ids, edges, placed);
      LeastUnique(r[0], Least(ready), ready);
      LeastReadyOrderUnique(r[1..], ids, edges, placed + {r[0]});
    }
  }

  // --------------------------------------- orders, cycles and completeness

  /** Each entry was ready, in the given graph, after the entries before it. */
  ghost predicate ReadyTrace(t: seq<string>, ids: set<string>, edges: seq<Edge>) {
    forall i | 0 <= i < |t| :: t[i] in ids && Ready(t[i], edges, Elements(t[..i]))
  }

  /** Every edge goes from an earlier entry to a later one. */
  ghost predicate RespectsEdges(t: seq<string>, edges: seq<Edge>) {
    forall e, j | e in edges && 0 <= j < |t| && t[j] == e.target :: exists i :: 0 <= i < j && t[i] == e.source
  }

  /** Along a walk, positions in an order that respects the edges strictly increase. */
  lemma {:induction false} WalkClimbs(t: seq<string>, edges: seq<Edge>, p: seq<string>, last: nat)
    requires RespectsEdges(t, edges) && Walk(edges, p) && p != []
    requires last < |t| && t[last] == p[|p| - 1]
    ensures exists first :: 0 <= first && first + |p| - 1 <= last && t[first] == p[0]
    decreases |p|
  {
    if |p| == 1 {
      assert last + |p| - 1 <= last && t[last] == p[0];
    } else {
      var k := |p| - 2;
      assert HasEdge(edges, p[k], p[k + 1]);
      var e :| e in edges && e.source == p[k] && e.target == p[k + 1];
      var i :| 0 <= i < last && t[i] == e.source;
      var q := p[..|p| - 1];
      forall m | 0 <= m < |q| - 1 ensures HasEdge(edges, q[m], q[m + 1]) {
        assert HasEdge(edges, p[m], p[m + 1]);
      }
      WalkClimbs(t, edges, q, i);
    }
  }

  /** If every node can be placed, there is no cycle. */
  lemma CompleteTraceAcyclic(t: seq<string>, ids: set<string>, edges: seq<Edge>)
    requires ReadyTrace(t, ids, edges) && Elements(t) == ids && EdgesWithin(edges, ids)
    ensures Acyclic(edges)
  {
    if p :| Cycle(edges, p) {
      assert HasEdge(edges, p[0], p[1]);
      assert p[0] in Elements(t);
      var last :| 0 <= last < |t| && t[last] == p[|p| - 1];
      WalkClimbs(t, edges, p, last);
    }
  }

  /** Two entries of a sequence that is longer than the set it draws from coincide. */
  lemma {:induction false} Pigeonhole(p: seq<string>, s: set<string>)
    requires Elements(p) <= s && |p| > |s|
    ensures exists i, j :: 0 <= i < j < |p| && p[i] == p[j]
  {
    if Distinct(p) {
      DistinctLength(p);
      SubsetSize(Elements(p), s);
    }
  }

  /** When no remaining node is ready, predecessors can be followed backwards for ever. */
  lemma {:induction false} BackwardWalk(ids: set<string>, edges: seq<Edge>, placed: set<string>, k: nat)
    returns (p: seq<string>)
    requires EdgesWithin(edges, ids) && placed <= ids && ids != placed && ReadySet(ids, edges, placed) == {}
    ensures |p| == k + 1 && Walk(edges, p) && Elements(p) <= ids - placed
  {
    if k == 0 {
      assert !(ids <= placed);
      var n :| n in ids && n !in placed;
      p := [n];
    } else {
      var q := BackwardWalk(ids, edges, placed, k - 1);
      assert q[0] in Elements(q);
      assert q[0] !in ReadySet(ids, edges, placed);
      var e :| e in edges && e.target == q[0] && e.source !in placed;
      p := [e.source] + q;
      forall i | 0 <= i < |p| - 1 ensures HasEdge(edges, p[i], p[i + 1]) {
        if i > 0 { assert HasEdge(edges, q[i - 1], q[i]); }
      }
    }
  }

  /** If nodes remain but none is ready, the graph has a cycle. */
  lemma StuckHasCycle(ids: set<string>, edges: seq<Edge>, placed: set<string>)
    requires EdgesWithin(edges, ids) && placed <= ids && ids != placed && ReadySet(ids, edges, placed) == {}
    ensures !Acyclic(edges)
  {
    var p := BackwardWalk(ids, edges, placed, |ids - placed|);
    Pigeonhole(p, ids - placed);
    var i, j :| 0 <= i < j < |p| && p[i] == p[j];
    var c := p[i..j + 1];
    forall m | 0 <= m < |c| - 1 ensures HasEdge(edges, c[m], c[m + 1]) {
      assert HasEdge(edges, p[i + m], p[i + m + 1]);
    }
    assert Cycle(edges, c);
  }

  lemma OrderIsReadyTrace(ids: set<string>, edges: seq<Edge>)
    ensures ReadyTrace(LeastReadyOrder(ids, edges, {}), ids, edges)
  {
    OrderPicksLeastReady(ids, edges, {});
    var r := LeastReadyOrder(ids, edges, {});
    forall i | 0 <= i < |r| ensures r[i] in ids && Ready(r[i], edges, Elements(r[..i])) {
      assert {} + Elements(r[..i]) == Elements(r[..i]);
      assert IsLeast(r[i], ReadySet(ids, edges, Elements(r[..i])));
    }
  }

  /** The execution order lists every node once and respects every edge exactly when there is no cycle. */
  lemma OrderCompleteIffAcyclic(ids: set<string>, edges: seq<Edge>)
    requires EdgesWithin(edges, ids)
    ensures
      var r := LeastReadyOrder(ids, edges, {});
      && Distinct(r) && Elements(r) <= ids && RespectsEdges(r, edges)
      && (Elements(r) == ids <==> Acyclic(edges))
      && (|r| == |ids| <==> Acyclic(edges))
  {
    var r := LeastReadyOrder(ids, edges, {});
    OrderIsReadyTrace(ids, edges);
    OrderPicksLeastReady(ids, edges, {});
    assert {} + Elements(r) == Elements(r);
    if Elements(r) == ids {
      CompleteTraceAcyclic(r, ids, edges);
    } else {
      StuckHasCycle(ids, edges, Elements(r));
      SubsetSmaller(Elements(r), ids);
    }
    DistinctLength(r);
  }

  // ------------------------------------------------------ counted indegrees

  /** How many edges into t come from a node that is not placed. */
  ghost function OpenIn(edges: seq<Edge>, placed: set<string>, t: string): nat {
    if edges == [] then 0
    else
      var e := edges[|edges| - 1];
      OpenIn(edges[..|edges| - 1], placed, t) + (if e.target == t && e.source !in placed then 1 else 0)
  }

  /** The targets of the edges out of s, in edge order. */
  ghost function Outgoing(edges: seq<Edge>, s: string): seq<string> {
    if edges == [] then []
    else
      var e := edges[|edges| - 1];
      Outgoing(edges[..|edges| - 1], s) + (if e.source == s then [e.target] else [])
  }

  lemma {:induction false} OpenInZero(edges: seq<Edge>, placed: set<string>, t: string)
    ensures OpenIn(edges, placed, t) == 0 <==> forall e | e in edges && e.target == t :: e.source in placed
  {
    if edges != [] {
      var init := edges[..|edges| - 1];
      OpenInZero(init, placed, t);
      assert edges == init + [edges[|edges| - 1]];
    }
  }

  /** Placing s closes exactly its outgoing edges. */
  lemma {:induction false} OpenInPlace(edges: seq<Edge>, placed: set<string>, s: string, t: string)
    requires s !in placed
    ensures OpenIn(edges, placed, t) == OpenIn(edges, placed + {s}, t) + multiset(Outgoing(edges, s))[t]
  {
    if edges != [] {
      OpenInPlace(edges[..|edges| - 1], placed, s, t);
    }
  }

  lemma {:induction false} OutgoingWithin(edges: seq<Edge>, ids: set<string>, s: string)
    requires EdgesWithin(edges, ids)
    ensures forall t | t in Outgoing(edges, s) :: t in ids
  {
    if edges != [] {
      var init := edges[..|edges| - 1];
      assert edges == init + [edges[|edges| - 1]];
      OutgoingWithin(init, ids, s);
    }
  }

  // ------------------------------------------- the state of both Kahn loops

  function Lookup(outgoing: map<string, seq<string>>, id: string): seq<string> {
    if id in outgoing then outgoing[id] else []
  }

  /**
   * Invariant of the loops: pending holds the targets of the node just placed whose
   * counters have not been decremented yet.
   */
  ghost predicate KahnState(ids: set<string>, edges: seq<Edge>, placed: set<string>,
                            indegree: map<string, int>, queue: seq<string>, pending: seq<string>)
  {
    && placed <= ids && indegree.Keys == ids
    && (forall t | t in ids :: indegree[t] == OpenIn(edges, placed, t) + multiset(pending)[t])
    && (forall t | t in placed :: indegree[t] == 0)
    && Distinct(queue)
    && (forall t :: t in queue <==> t in ids && t !in placed && indegree[t] == 0)
  }

  lemma QueueIsReadySet(ids: set<string>, edges: seq<Edge>, placed: set<string>, indegree: map<string, int>,
                        queue: seq<string>)
    requires KahnState(ids, edges, placed, indegree, queue, [])
    ensures Elements(queue) == ReadySet(ids, edges, placed)
  {
    forall t ensures t in Elements(queue) <==> t in ReadySet(ids, edges, placed) {
      OpenInZero(edges, placed, t);
    }
  }

  lemma KahnPlace(ids: set<string>, edges: seq<Edge>, placed: set<string>, indegree: map<string, int>,
                  queue: seq<string>)
    requires KahnState(ids, edges, placed, indegree, queue, []) && queue != []
    ensures KahnState(ids, edges, placed + {queue[0]}, indegree, queue[1..], Outgoing(edges, queue[0]))
  {
    var id := queue[0];
    assert queue == [id] + queue[1..];
    forall t | t in ids
      ensures indegree[t] == OpenIn(edges, placed + {id}, t) + multiset(Outgoing(edges, id))[t]
    {
      OpenInPlace(edges, placed, id, t);
    }
  }

  /** One decrement, and the append that may follow it. */
  lemma KahnDecrement(ids: set<string>, edges: seq<Edge>, placed: set<string>, indegree: map<string, int>,
                      queue: seq<string>, pending: seq<string>)
    requires KahnState(ids, edges, placed, indegree, queue, pending)
    requires pending != [] && pending[0] in ids
    ensures
      var target := pending[0];
      var next := indegree[target := indegree[target] - 1];
      KahnState(ids, edges, placed, next, if next[target] == 0 then queue + [target] else queue, pending[1..])
  {
    var target := pending[0];
    var next := indegree[target := indegree[target] - 1];
    forall t | t in ids ensures next[t] == OpenIn(edges, placed, t) + multiset(pending[1..])[t] {
      OccurrencesCons(pending, t);
    }
    OccurrencesCons(pending, target);
    KahnAppend(ids, placed, indegree, queue, target);
  }

  lemma OccurrencesCons(pending: seq<string>, t: string)
    requires pending != []
    ensures multiset(pending)[t] == multiset(pending[1..])[t] + (if t == pending[0] then 1 else 0)
  {
    assert pending == [pending[0]] + pending[1..];
  }

  lemma KahnAppend(ids: set<string>, placed: set<string>, indegree: map<string, int>, queue: seq<string>,
                   target: string)
    requires placed <= ids && indegree.Keys == ids && Distinct(queue)
    requires forall t :: t in queue <==> t in ids && t !in placed && indegree[t] == 0
    requires target in ids && target !in placed && indegree[target] >= 1
    ensures
      var next := indegree[target := indegree[target] - 1];
      var queue' := if next[target] == 0 then queue + [target] else queue;
      && Distinct(queue')
      && forall t :: t in queue' <==> t in ids && t !in placed && next[t] == 0
  {
    assert target !in queue;
    var next := indegree[target := indegree[target] - 1];
    var queue' := if next[target] == 0 then queue + [target] else queue;
    assert next[target] == indegree[target] - 1;
  }

  /** Reordering the queue keeps the invariant. */
  lemma KahnReorder(ids: set<string>, edges: seq<Edge>, placed: set<string>, indegree: map<string, int>,
                    queue: seq<string>, pending: seq<string>)
    requires KahnState(ids, edges, placed, indegree, queue, pending)
    ensures Sorted(Sort(queue)) && KahnState(ids, edges, placed, indegree, Sort(queue), pending)
  {
    SortedDistinct(Sort(queue));
  }

  // ------------------------------------------------------------- the loops

  lemma NoEdgesYet()
    ensures forall t :: OpenIn([], {}, t) == 0
    ensures forall s :: Outgoing([], s) == []
  {
  }

  lemma OneMoreEdge(edges: seq<Edge>, k: nat)
    requires k < |edges|
    ensures forall t ::
      OpenIn(edges[..k + 1], {}, t) == OpenIn(edges[..k], {}, t) + (if edges[k].target == t then 1 else 0)
    ensures forall s ::
      Outgoing(edges[..k + 1], s)
        == Outgoing(edges[..k], s) + (if edges[k].source == s then [edges[k].target] else [])
  {
    assert edges[..k + 1][..k] == edges[..k];
  }

  method CountEdges(ids: set<string>, edges: seq<Edge>)
    returns (indegree: map<string, int>, outgoing: map<string, seq<string>>)
    requires EdgesWithin(edges, ids)
    ensures indegree.Keys == ids
    ensures forall t | t in ids :: indegree[t] == OpenIn(edges, {}, t)
    ensures forall s :: Lookup(outgoing, s) == Outgoing(edges, s)
  {
    hide OpenIn, Outgoing;
    NoEdgesYet();
    assert edges[..0] == [];
    indegree := map id | id in ids :: 0;
    outgoing := map[];
    for k := 0 to |edges|
      invariant indegree.Keys == ids
      invariant forall t | t in ids :: indegree[t] == OpenIn(edges[..k], {}, t)
      invariant forall s :: Lookup(outgoing, s) == Outgoing(edges[..k], s)
    {
      var edge := edges[k];
      assert edge in edges;
      OneMoreEdge(edges, k);
      indegree := indegree[edge.target := indegree[edge.target] + 1];
      ghost var before := outgoing;
      outgoing := outgoing[edge.source := Lookup(outgoing, edge.source) + [edge.target]];
      forall s ensures Lookup(outgoing, s) == Outgoing(edges[..k + 1], s) {
        assert Lookup(before, s) == Outgoing(edges[..k], s);
      }
    }
    assert edges[..|edges|] == edges;
  }

  /** The nodes without incoming edges, in whatever order the map yields them. */
  method InitialQueue(ids: set<string>, edges: seq<Edge>, indegree: map<string, int>) returns (queue: seq<string>)
    requires indegree.Keys == ids && forall t | t in ids :: indegree[t] == OpenIn(edges, {}, t)
    ensures KahnState(ids, edges, {}, indegree, queue, [])
  {
    queue := [];
    var remaining := ids;
    while remaining != {}
      invariant remaining <= ids && Distinct(queue)
      invariant forall t :: t in queue <==> t in ids - remaining && indegree[t] == 0
      decreases |remaining|
    {
      var id :| id in remaining;
      if indegree[id] == 0 { queue := queue + [id]; }
      remaining := remaining - {id};
    }
  }

  /** Decrements the successors of the node just placed, queueing those that become free. */
  method Release(ids: set<string>, edges: seq<Edge>, ghost placed: set<string>, indegree: map<string, int>,
                 queue: seq<string>, targets: seq<string>) returns (indegree': map<string, int>, queue': seq<string>)
    requires KahnState(ids, edges, placed, indegree, queue, targets)
    requires forall t | t in targets :: t in ids
    ensures KahnState(ids, edges, placed, indegree', queue', [])
  {
    hide KahnState;
    indegree', queue' := indegree, queue;
    assert targets[0..] == targets;
    KahnKeys(ids, edges, placed, indegree, queue, targets);
    for j := 0 to |targets|
      invariant indegree'.Keys == ids && KahnState(ids, edges, placed, indegree', queue', targets[j..])
    {
      var target := targets[j];
      KahnDecrement(ids, edges, placed, indegree', queue', targets[j..]);
      assert targets[j..][1..] == targets[j + 1..];
      indegree' := indegree'[target := indegree'[target] - 1];
      if indegree'[target] == 0 { queue' := queue' + [target]; }
    }
    assert targets[|targets|..] == [];
  }

  lemma KahnKeys(ids: set<string>, edges: seq<Edge>, placed: set<string>, indegree: map<string, int>,
                 queue: seq<string>, pending: seq<string>)
    requires KahnState(ids, edges, placed, indegree, queue, pending)
    ensures indegree.Keys == ids
  {
  }

  /** Validation's check, whatever order the maps are iterated in. */
  method VisitedCount(ids: set<string>, edges: seq<Edge>) returns (visited: nat)
    requires EdgesWithin(edges, ids)
    ensures visited == |ids| <==> Acyclic(edges)
  {
    hide KahnState, ReadyTrace, EdgesWithin, Acyclic, ReadySet;
    var indegree, outgoing := CountEdges(ids, edges);
    var queue := InitialQueue(ids, edges, indegree);
    visited := 0;
    ghost var trace: seq<string> := [];
    EmptyTrace(ids, edges);
    while queue != []
      invariant KahnState(ids, edges, Elements(trace), indegree, queue, [])
      invariant ReadyTrace(trace, ids, edges) && visited == |trace|
      decreases |ids - Elements(trace)|
    {
      var id := queue[0];
      QueueIsReadySet(ids, edges, Elements(trace), indegree, queue);
      KahnPlace(ids, edges, Elements(trace), indegree, queue);
      ReadyTraceSnoc(trace, id, ids, edges);
      trace := trace + [id];
      visited := visited + 1;
      OutgoingWithin(edges, ids, id);
      indegree, queue := Release(ids, edges, Elements(trace), indegree, queue[1..], Lookup(outgoing, id));
    }
    QueueIsReadySet(ids, edges, Elements(trace), indegree, queue);
    VisitedAll(ids, edges, trace);
  }

  lemma EmptyTrace(ids: set<string>, edges: seq<Edge>)
    ensures ReadyTrace([], ids, edges) && Elements<string>([]) == {}
  {
  }

  /** Placing stops with everything placed exactly when there is no cycle. */
  lemma VisitedAll(ids: set<string>, edges: seq<Edge>, trace: seq<string>)
    requires EdgesWithin(edges, ids) && ReadyTrace(trace, ids, edges) && ReadySet(ids, edges, Elements(trace)) == {}
    ensures |trace| == |ids| <==> Acyclic(edges)
  {
    DistinctLength(trace);
    if Elements(trace) == ids {
      CompleteTraceAcyclic(trace, ids, edges);
    } else {
      SubsetSmaller(Elements(trace), ids);
      StuckHasCycle(ids, edges, Elements(trace));
    }
  }

  lemma ElementsSnoc(t: seq<string>, id: string, ids: set<string>)
    requires id in ids && id !in t
    ensures Elements(t + [id]) == Elements(t) + {id}
    ensures |ids - Elements(t + [id])| < |ids - Elements(t)|
  {
    var u := t + [id];
    assert Elements(u) == Elements(t) + {id};
    assert id in ids - Elements(t) && id !in ids - Elements(u);
    SubsetSmaller(ids - Elements(u), ids - Elements(t));
  }

  lemma ReadyTraceSnoc(t: seq<string>, id: string, ids: set<string>, edges: seq<Edge>)
    requires ReadyTrace(t, ids, edges) && id in ReadySet(ids, edges, Elements(t))
    ensures ReadyTrace(t + [id], ids, edges)
    ensures Elements(t + [id]) == Elements(t) + {id}
    ensures |ids - Elements(t + [id])| < |ids - Elements(t)|
  {
    hide Ready;
    var u := t + [id];
    ReadyIsNew(id, edges, t);
    ElementsSnoc(t, id, ids);
    forall i | 0 <= i < |u| ensures u[i] in ids && Ready(u[i], edges, Elements(u[..i])) {
      assert u[..i] == t[..i];
      assert i == |t| ==> t[..i] == t;
    }
  }

  lemma ReadyIsNew(id: string, edges: seq<Edge>, t: seq<string>)
    ensures Ready(id, edges, Elements(t)) ==> id !in t
  {
  }

  /** The node that carries an identifier. */
  ghost function NodeOf(nodes: seq<Node>, id: string): (n: Node)
    requires id in NodeIds(nodes)
    ensures n in nodes && n.id == id
  {
    var n :| n in nodes && n.id == id;
    n
  }

  /** The order the engine executes nodes in. */
  ghost function ExecutionOrder(definition: Definition): (r: seq<Node>)
    ensures
      var ids := LeastReadyOrder(NodeIds(definition.nodes), definition.edges, {});
      |r| == |ids| && forall i | 0 <= i < |r| :: r[i] in definition.nodes && r[i].id == ids[i]
  {
    OrderIsReadyTrace(NodeIds(definition.nodes), definition.edges);
    var ids := LeastReadyOrder(NodeIds(definition.nodes), definition.edges, {});
    seq(|ids|, i requires 0 <= i < |ids| => NodeOf(definition.nodes, ids[i]))
  }

  method NodesById(nodes: seq<Node>) returns (byID: map<string, Node>)
    ensures byID.Keys == NodeIds(nodes)
    ensures forall id | id in byID :: byID[id] in nodes && byID[id].id == id
  {
    byID := map[];
    for k := 0 to |nodes|
      invariant byID.Keys == NodeIds(nodes[..k])
      invariant forall id | id in byID :: byID[id] in nodes && byID[id].id == id
    {
      byID := byID[nodes[k].id := nodes[k]];
      assert nodes[..k + 1] == nodes[..k] + [nodes[k]];
      assert NodeIds(nodes[..k + 1]) == NodeIds(nodes[..k]) + {nodes[k].id};
    }
    assert nodes[..|nodes|] == nodes;
  }

  /** As Release, but sorting the queue after every insertion. */
  method ReleaseSorted(ids: set<string>, edges: seq<Edge>, ghost placed: set<string>, indegree: map<string, int>,
                       queue: seq<string>, targets: seq<string>)
                         returns (indegree': map<string, int>, queue': seq<string>)
    requires KahnState(ids, edges, placed, indegree, queue, targets) && Sorted(queue)
    requires forall t | t in targets :: t in ids
    ensures KahnState(ids, edges, placed, indegree', queue', []) && Sorted(queue')
  {
    hide KahnState, Sorted, Sort;
    indegree', queue' := indegree, queue;
    assert targets[0..] == targets;
    KahnKeys(ids, edges, placed, indegree, queue, targets);
    for j := 0 to |targets|
      invariant indegree'.Keys == ids && Sorted(queue')
      invariant KahnState(ids, edges, placed, indegree', queue', targets[j..])
    {
      var target := targets[j];
      KahnDecrement(ids, edges, placed, indegree', queue', targets[j..]);
      assert targets[j..][1..] == targets[j + 1..];
      indegree' := indegree'[target := indegree'[target] - 1];
      if indegree'[target] == 0 {
        queue' := queue' + [target];
        KahnReorder(ids, edges, placed, indegree', queue', targets[j + 1..]);
        queue' := Sort(queue');
      }
    }
    assert targets[|targets|..] == [];
  }

  /** Execution order: the head of the sorted queue is the least ready node. */
  method TopologicalOrder(definition: Definition) returns (out: seq<Node>)
    requires UniqueIds(definition.nodes) && EdgesWithin(definition.edges, NodeIds(definition.nodes))
    ensures out == ExecutionOrder(definition)
  {
    hide *;
    var nodes, edges := definition.nodes, definition.edges;
    var byID := NodesById(nodes);
    var ids := byID.Keys;
    var indegree, outgoing := CountEdges(ids, edges);
    var queue := InitialQueue(ids, edges, indegree);
    KahnReorder(ids, edges, {}, indegree, queue, []);
    queue := Sort(queue);
    out := [];
    ghost var placed: set<string> := {};
    OrderStart(nodes, ids, edges);
    while queue != []
      invariant KahnState(ids, edges, placed, indegree, queue, []) && Sorted(queue)
      invariant OrderState(nodes, ids, edges, placed, out)
      decreases |ids - placed|
    {
      var id := queue[0];
      HeadIsNext(ids, edges, placed, indegree, queue);
      KahnPlace(ids, edges, placed, indegree, queue);
      TailSorted(queue);
      OutgoingWithin(edges, ids, id);
      OrderStep(nodes, ids, edges, placed, out, byID[id]);
      placed := placed + {id};
      out := out + [byID[id]];
      indegree, queue := ReleaseSorted(ids, edges, placed, indegree, queue[1..], Lookup(outgoing, id));
    }
    QueueEmpty(ids, edges, placed, indegree, queue);
    OrderDone(definition, placed, out);
  }

  lemma QueueEmpty(ids: set<string>, edges: seq<Edge>, placed: set<string>, indegree: map<string, int>,
                   queue: seq<string>)
    requires KahnState(ids, edges, placed, indegree, queue, []) && queue == []
    ensures ReadySet(ids, edges, placed) == {}
  {
    QueueIsReadySet(ids, edges, placed, indegree, queue);
  }

  /** The nodes emitted so far, and the part of the order still to come. */
  ghost predicate OrderState(nodes: seq<Node>, ids: set<string>, edges: seq<Edge>, placed: set<string>,
                             out: seq<Node>) {
    var order := LeastReadyOrder(ids, edges, {});
    Follows(nodes, out, order) && order[|out|..] == LeastReadyOrder(ids, edges, placed)
  }

  lemma OrderStart(nodes: seq<Node>, ids: set<string>, edges: seq<Edge>)
    ensures OrderState(nodes, ids, edges, {}, [])
  {
  }

  lemma OrderStep(nodes: seq<Node>, ids: set<string>, edges: seq<Edge>, placed: set<string>, out: seq<Node>, n: Node)
    requires OrderState(nodes, ids, edges, placed, out) && n in nodes
    requires LeastReadyOrder(ids, edges, placed) == [n.id] + LeastReadyOrder(ids, edges, placed + {n.id})
    ensures OrderState(nodes, ids, edges, placed + {n.id}, out + [n])
  {
    hide LeastReadyOrder, Follows;
    var order := LeastReadyOrder(ids, edges, {});
    FollowsLength(nodes, out, order);
    FollowsSnoc(nodes, out, order, n);
  }

  lemma FollowsLength(nodes: seq<Node>, out: seq<Node>, order: seq<string>)
    requires Follows(nodes, out, order)
    ensures |out| <= |order|
  {
  }

  lemma OrderDone(definition: Definition, placed: set<string>, out: seq<Node>)
    requires UniqueIds(definition.nodes)
    requires OrderState(definition.nodes, NodeIds(definition.nodes), definition.edges, placed, out)
    requires ReadySet(NodeIds(definition.nodes), definition.edges, placed) == {}
    ensures out == ExecutionOrder(definition)
  {
    var order := LeastReadyOrder(NodeIds(definition.nodes), definition.edges, {});
    assert order[|out|..] == [];
  }

  /** The nodes emitted so far carry the identifiers at the front of the order. */
  ghost predicate Follows(nodes: seq<Node>, out: seq<Node>, order: seq<string>) {
    |out| <= |order| && forall i | 0 <= i < |out| :: out[i] in nodes && out[i].id == order[i]
  }

  lemma FollowsSnoc(nodes: seq<Node>, out: seq<Node>, order: seq<string>, n: Node)
    requires Follows(nodes, out, order) && |out| < |order| && n in nodes && n.id == order[|out|]
    ensures Follows(nodes, out + [n], order)
  {
  }

  lemma TailSorted(queue: seq<string>)
    requires Sorted(queue) && queue != []
    ensures Sorted(queue[1..])
  {
  }

  /** The head of the sorted queue is the next entry of the least ready order. */
  lemma HeadIsNext(ids: set<string>, edges: seq<Edge>, placed: set<string>, indegree: map<string, int>,
                   queue: seq<string>)
    requires KahnState(ids, edges, placed, indegree, queue, []) && Sorted(queue) && queue != []
    ensures queue[0] in ids
    ensures LeastReadyOrder(ids, edges, placed) == [queue[0]] + LeastReadyOrder(ids, edges, placed + {queue[0]})
    ensures |ids - (placed + {queue[0]})| < |ids - placed|
  {
    QueueIsReadySet(ids, edges, placed, indegree, queue);
    var ready := ReadySet(ids, edges, placed);
    var id := queue[0];
    assert id in Elements(queue);
    LeastUnique(id, Least(ready), ready);
    assert id in ids - placed;
    SubsetSmaller(ids - (placed + {id}), ids - placed);
  }

}
