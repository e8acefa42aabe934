/**
 * One read of the document among the storage steps of its writers: the reader takes the current manifest, its
 * chunks, the previous manifest, its chunks and the version 1 data at five moments of a run.
 * Models document-persistence.ts lines 85-98 against the writers of lines 47-80.
 */
module SnapshotReader {
  import opened OrderedStrings
  import opened SnapshotStore
  import opened SnapshotProtocol

  /** The moments of the reader's storage steps. */
  datatype Moments = Moments(current: nat, chunks: nat, previous: nat, parts: nat, legacy: nat)

  predicate InOrder(t: Moments, run: seq<System>) {
    t.current <= t.chunks <= t.previous <= t.parts <= t.legacy < |run|
  }

  /** What the reader returns; each answer may rest on storage as it was at another moment. */
  function RacingRead(digest: Bytes -> string, run: seq<System>, t: Moments): Option<Snapshot>
    requires InOrder(t, run)
  {
    var current := ReadManifest(digest, run[t.chunks].store.chunks, run[t.current].store.current);
    if current.Some? then Some(Snapshot(current.value, FromCurrent))
    else
      var previous := ReadManifest(digest, run[t.parts].store.chunks, run[t.previous].store.previous);
      if previous.Some? then Some(Snapshot(previous.value, FromPrevious))
      else
        var legacy := ReadLegacy(run[t.legacy].store);
        if legacy.Some? then Some(Snapshot(legacy.value, FromLegacy)) else None
  }

  /** Version 1 data or nothing. */
  predicate Misses(digest: Bytes -> string, run: seq<System>, t: Moments) requires InOrder(t, run) {
    var r := RacingRead(digest, run, t);
    r.Some? ==> r.value.source == FromLegacy
  }

  // -------------------------------------------------- manifests over time

  /** A manifest taken earlier reads as its generation's update exactly when that is not empty and still whole. */
  lemma ReadsWhileWhole(digest: Bytes -> string, run: seq<System>, k: nat, l: nat, value: Option<Manifest>)
    requires Run(digest, run) && Digests(digest) && k <= l < |run| && value.Some?
    requires value == run[k].store.current || value == run[k].store.previous
    ensures value.value.generation in run[k].drawn
    ensures ReadManifest(digest, run[l].store.chunks, value)
         == if run[k].drawn[value.value.generation] != [] && Whole(run[l].store.chunks, value.value)
            then Some(run[k].drawn[value.value.generation]) else None
  {
    RunInv(digest, run, k);
    RunInv(digest, run, l);
    var m := value.value;
    DrawnStays(digest, run, k, l, m.generation);
    ReadsIfWhole(digest, run[l], m);
  }

  lemma ReadsIfWhole(digest: Bytes -> string, s: System, m: Manifest)
    requires Inv(digest, s) && Digests(digest) && m.generation in s.drawn && m.generation != ""
    requires |s.drawn[m.generation]| <= MAX_DOCUMENT_BYTES
    requires m == MakeManifest(digest, s.drawn[m.generation], m.generation, m.savedAt)
    ensures ReadManifest(digest, s.store.chunks, Some(m))
         == if s.drawn[m.generation] != [] && Whole(s.store.chunks, m) then Some(s.drawn[m.generation]) else None
  {
    var update := s.drawn[m.generation];
    if Whole(s.store.chunks, m) {
      forall i | 0 <= i < ChunkCount(|update|) ensures s.store.chunks[(m.generation, i)] == ChunkAt(update, i) {
        assert ChunkKept(s, (m.generation, i));
      }
      ManifestReads(digest, s.store.chunks, update, m.generation, m.savedAt);
    }
  }

  /** Some writer deletes a chunk of the generation between two moments. */
  ghost predicate DeletesOne(run: seq<System>, j: nat, generation: string) requires j + 1 < |run| {
    exists w :: DeleteChunk(run[j], run[j + 1], w) && run[j].writers[w].retired.generation == generation
  }

  ghost predicate DeletedBetween(run: seq<System>, k: nat, l: nat, generation: string) requires k <= l < |run| {
    exists j :: k <= j < l && DeletesOne(run, j, generation)
  }

  /** A chunk of a committed generation goes only when a writer deletes it, and never comes back. */
  lemma StepKeepsChunk(digest: Bytes -> string, s: System, s': System, key: ChunkKey)
    requires Inv(digest, s) && Step(digest, s, s') && key.0 in Committed(s)
    ensures key in s'.store.chunks ==> key in s.store.chunks
    ensures key in s.store.chunks && key !in s'.store.chunks ==>
      exists w :: DeleteChunk(s, s', w) && s.writers[w].retired.generation == key.0
    ensures key.0 in Committed(s')
  {
    if w :| PutChunk(s, s', w) { assert WriterOk(digest, s, s.writers[w]); }
  }

  lemma {:induction false} GoneStaysGone(digest: Bytes -> string, run: seq<System>, k: nat, l: nat, key: ChunkKey)
    requires Run(digest, run) && k <= l < |run| && key.0 in Committed(run[k])
    ensures key.0 in Committed(run[l])
    ensures key !in run[k].store.chunks ==> key !in run[l].store.chunks
    decreases l - k
  {
    hide Step, Inv, Committed;
    if k < l {
      GoneStaysGone(digest, run, k, l - 1, key);
      RunInv(digest, run, l - 1);
      StepKeepsChunk(digest, run[l - 1], run[l], key);
    }
  }

  /** A manifest whose chunks are whole stays so exactly as long as no writer deletes one of them. */
  lemma {:induction false} WholeUntilDeleted(digest: Bytes -> string, run: seq<System>, k: nat, l: nat, m: Manifest)
    requires Run(digest, run) && k <= l < |run|
    requires Genuine(digest, run[k], m) && Whole(run[k].store.chunks, m)
    ensures Whole(run[l].store.chunks, m) <==> !DeletedBetween(run, k, l, m.generation)
  {
    if DeletedBetween(run, k, l, m.generation) {
      var j :| k <= j < l && DeletesOne(run, j, m.generation);
      DeletionBreaks(digest, run, k, j, l, m);
    } else {
      WholeUndeleted(digest, run, k, l, m);
    }
  }

  lemma DeletionBreaks(digest: Bytes -> string, run: seq<System>, k: nat, j: nat, l: nat, m: Manifest)
    requires Run(digest, run) && k <= j < l < |run| && Genuine(digest, run[k], m) && DeletesOne(run, j, m.generation)
    ensures !Whole(run[l].store.chunks, m)
  {
    hide Step, Inv, Genuine, Whole, Committed, Run;
    RunInv(digest, run, j);
    IsCommitted(digest, run[k], m);
    DrawnStays(digest, run, k, j, m.generation);
    var next := DeletedKey(digest, run[j], run[j + 1], m);
    var key := (m.generation, next);
    GoneStaysGone(digest, run, k, j + 1, key);
    GoneStaysGone(digest, run, j + 1, l, key);
    NotWholeWithout(run[l].store.chunks, m, next);
  }

  lemma IsCommitted(digest: Bytes -> string, s: System, m: Manifest)
    requires Genuine(digest, s, m)
    ensures m.generation in Committed(s) && m.generation in s.drawn
    ensures m.chunkCount == ChunkCount(|s.drawn[m.generation]|)
  {
  }

  lemma NotWholeWithout(chunks: map<ChunkKey, Bytes>, m: Manifest, i: nat)
    requires i < m.chunkCount && (m.generation, i) !in chunks
    ensures !Whole(chunks, m)
  {
  }

  /** The chunk that the step deletes is one of the manifest's. */
  lemma DeletedKey(digest: Bytes -> string, s: System, s': System, m: Manifest) returns (next: nat)
    requires Inv(digest, s) && m.generation in s.drawn && m.chunkCount == ChunkCount(|s.drawn[m.generation]|)
    requires exists w :: DeleteChunk(s, s', w) && s.writers[w].retired.generation == m.generation
    ensures next < m.chunkCount && (m.generation, next) !in s'.store.chunks
  {
    var w :| DeleteChunk(s, s', w) && s.writers[w].retired.generation == m.generation;
    assert WriterOk(digest, s, s.writers[w]);
    next := s.writers[w].next;
  }

  lemma {:induction false} WholeUndeleted(digest: Bytes -> string, run: seq<System>, k: nat, l: nat, m: Manifest)
    requires Run(digest, run) && k <= l < |run| && Genuine(digest, run[k], m) && Whole(run[k].store.chunks, m)
    requires !DeletedBetween(run, k, l, m.generation)
    ensures Whole(run[l].store.chunks, m)
    decreases l - k
  {
    hide Step, Inv;
    if k < l {
      assert !DeletesOne(run, l - 1, m.generation);
      WholeUndeleted(digest, run, k, l - 1, m);
      RunInv(digest, run, l - 1);
      forall i | 0 <= i < m.chunkCount ensures (m.generation, i) in run[l].store.chunks {
        GoneStaysGone(digest, run, k, l - 1, (m.generation, i));
        StepKeepsChunk(digest, run[l - 1], run[l], (m.generation, i));
      }
    }
  }

  // ------------------------------------------------- overtaken by commits

  /** The generation can be deleted only by a writer that committed after another one retired it. */
  ghost predicate Overtaken(s: System, generation: string, before: nat) {
    && |s.log| >= before
    && (generation in s.retired ==> |s.log| > before)
    && forall w | w in s.writers && s.writers[w].Deleting? && s.writers[w].retired.generation == generation ::
         |s.log| > before + 1
  }

  lemma StepOvertakes(digest: Bytes -> string, s: System, s': System, generation: string, before: nat)
    requires Inv(digest, s) && Step(digest, s, s') && Overtaken(s, generation, before)
    ensures Overtaken(s', generation, before)
  {
    hide Inv, Overtaken, Commit;
    if w, now :| Commit(digest, s, s', w, now) {
      CommitOvertakes(digest, s, s', w, now, generation, before);
    } else {
      OtherOvertakes(digest, s, s', generation, before);
    }
  }

  lemma CommitOvertakes(digest: Bytes -> string, s: System, s': System, w: nat, now: int, generation: string,
                        before: nat)
    requires Inv(digest, s) && Commit(digest, s, s', w, now) && Overtaken(s, generation, before)
    ensures Overtaken(s', generation, before)
  {
    hide MakeManifest, CommitManifest, Apart, CurrentOk, PreviousOk, ChunkKept;
    assert WriterOk(digest, s, s.writers[w]);
  }

  lemma OtherOvertakes(digest: Bytes -> string, s: System, s': System, generation: string, before: nat)
    requires Step(digest, s, s') && Overtaken(s, generation, before)
    requires forall w, now :: !Commit(digest, s, s', w, now)
    ensures Overtaken(s', generation, before)
  {
    hide Commit;
  }

  lemma {:induction false} StaysOvertaken(digest: Bytes -> string, run: seq<System>, k: nat, l: nat, generation: string)
    requires Run(digest, run) && k <= l < |run|
    requires run[k].store.current.Some? && generation == run[k].store.current.value.generation
    ensures Overtaken(run[l], generation, |run[k].log|)
    decreases l - k
  {
    hide Step, Inv;
    RunInv(digest, run, l);
    if k < l {
      StaysOvertaken(digest, run, k, l - 1, generation);
      RunInv(digest, run, l - 1);
      StepOvertakes(digest, run[l - 1], run[l], generation, |run[k].log|);
    } else {
      CurrentNotOvertaken(digest, run[k]);
    }
  }

  lemma CurrentNotOvertaken(digest: Bytes -> string, s: System)
    requires Inv(digest, s) && s.store.current.Some?
    ensures Overtaken(s, s.store.current.value.generation, |s.log|)
  {
    forall w | w in s.writers && s.writers[w].Deleting?
      ensures s.writers[w].retired.generation != s.store.current.value.generation
    {
      assert WriterOk(digest, s, s.writers[w]);
    }
  }

  lemma {:induction false} LogGrows(digest: Bytes -> string, run: seq<System>, k: nat, l: nat)
    requires Run(digest, run) && k <= l < |run|
    ensures run[k].log <= run[l].log
    decreases l - k
  {
    if k < l {
      LogGrows(digest, run, k, l - 1);
      assert Step(digest, run[l - 1], run[l]);
    }
  }

  /** A lost current manifest: two writers have committed since it was taken. */
  lemma DeletionOvertakes(digest: Bytes -> string, run: seq<System>, k: nat, l: nat)
    requires Run(digest, run) && k <= l < |run| && run[k].store.current.Some?
    requires DeletedBetween(run, k, l, run[k].store.current.value.generation)
    ensures |run[l].log| >= |run[k].log| + 2
  {
    var j :| k <= j < l && DeletesOne(run, j, run[k].store.current.value.generation);
    StaysOvertaken(digest, run, k, j, run[k].store.current.value.generation);
    LogGrows(digest, run, j, l);
  }

  // ------------------------------------------------------------ main results

  lemma CurrentIsWhole(digest: Bytes -> string, run: seq<System>, k: nat)
    requires NonEmptyRun(digest, run) && k < |run| && run[k].store.current.Some?
    ensures
      var m := run[k].store.current.value;
      Genuine(digest, run[k], m) && Whole(run[k].store.chunks, m) && run[k].drawn[m.generation] != []
  {
    RunInv(digest, run, k);
    RunNothingEmpty(digest, run, k);
  }

  /** The reader gets the update committed last when it took the manifest unless a chunk of it was deleted meanwhile. */
  lemma CurrentReadIff(digest: Bytes -> string, run: seq<System>, k: nat, l: nat)
    requires Digests(digest) && NonEmptyRun(digest, run) && k <= l < |run| && run[k].store.current.Some?
    ensures
      var m := run[k].store.current.value;
      && m.generation in run[k].drawn
      && ReadManifest(digest, run[l].store.chunks, run[k].store.current)
           == if DeletedBetween(run, k, l, m.generation) then None else Some(run[k].drawn[m.generation])
  {
    hide Genuine, Whole, ReadManifest, DeletedBetween;
    CurrentIsWhole(digest, run, k);
    WholeUntilDeleted(digest, run, k, l, run[k].store.current.value);
    ReadsWhileWhole(digest, run, k, l, run[k].store.current);
  }

  /**
   * Without empty updates, a reader that took a current manifest returns no generation at all, though there is
   * a whole current one at every moment, exactly when a writer deletes a chunk of that manifest before the
   * reader has its chunks, and the previous manifest is absent or not whole when its chunks are read.
   */
  lemma MissesIff(digest: Bytes -> string, run: seq<System>, t: Moments)
    requires Digests(digest) && NonEmptyRun(digest, run) && InOrder(t, run) && run[t.current].store.current.Some?
    ensures
      var previous := run[t.previous].store.previous;
      && (Misses(digest, run, t) <==>
            && DeletedBetween(run, t.current, t.chunks, run[t.current].store.current.value.generation)
            && (previous.None? || !Whole(run[t.parts].store.chunks, previous.value)))
  {
    hide Whole, ReadManifest, DeletedBetween, ReadLegacy;
    CurrentReadIff(digest, run, t.current, t.chunks);
    var previous := run[t.previous].store.previous;
    if previous.Some? {
      ReadsWhileWhole(digest, run, t.previous, t.parts, previous);
      RunNothingEmpty(digest, run, t.previous);
    } else {
      NoManifestReads(digest, run[t.parts].store.chunks);
    }
  }

  lemma NoManifestReads(digest: Bytes -> string, chunks: map<ChunkKey, Bytes>)
    ensures ReadManifest(digest, chunks, None).None?
  {
  }

  lemma UpToDateIsNonEmpty(digest: Bytes -> string, run: seq<System>)
    requires UpToDateRun(digest, run)
    ensures NonEmptyRun(digest, run)
  {
    forall k | 0 <= k < |run| ensures NoEmptyUpdate(run[k]) {
      if k > 0 { assert UpToDate(run[k - 1], run[k]); }
    }
  }

  /** If writers also commit over the generation they read, then both generations must be deleted under the reader. */
  lemma UpToDateMissesIff(digest: Bytes -> string, run: seq<System>, t: Moments)
    requires Digests(digest) && UpToDateRun(digest, run) && InOrder(t, run) && run[t.current].store.current.Some?
    ensures
      var previous := run[t.previous].store.previous;
      && (Misses(digest, run, t) <==>
            && DeletedBetween(run, t.current, t.chunks, run[t.current].store.current.value.generation)
            && previous.Some? && DeletedBetween(run, t.previous, t.parts, previous.value.generation))
  {
    hide Whole, DeletedBetween, Misses, NonEmptyRun;
    UpToDateIsNonEmpty(digest, run);
    MissesIff(digest, run, t);
    if DeletedBetween(run, t.current, t.chunks, run[t.current].store.current.value.generation) {
      UpToDateIsRun(digest, run);
      DeletionOvertakes(digest, run, t.current, t.chunks);
      LogGrows(digest, run, t.chunks, t.previous);
      PreviousIsWhole(digest, run, t.previous);
      WholeUntilDeleted(digest, run, t.previous, t.parts, run[t.previous].store.previous.value);
    }
  }

  lemma PreviousIsWhole(digest: Bytes -> string, run: seq<System>, k: nat)
    requires Digests(digest) && UpToDateRun(digest, run) && k < |run| && |run[k].log| >= 2
    ensures run[k].store.previous.Some? && Whole(run[k].store.chunks, run[k].store.previous.value)
    ensures Genuine(digest, run[k], run[k].store.previous.value)
  {
    UpToDateIsRun(digest, run);
    RunInv(digest, run, k);
    UpToDateRunFallback(digest, run, k);
  }

  /** A previous manifest deleted under the reader: one more writer has committed. */
  lemma FallbackOvertaken(digest: Bytes -> string, run: seq<System>, k: nat, l: nat)
    requires Digests(digest) && UpToDateRun(digest, run) && k <= l < |run| && run[k].store.previous.Some?
    requires DeletedBetween(run, k, l, run[k].store.previous.value.generation)
    ensures |run[l].log| > |run[k].log|
  {
    hide Step, Inv;
    var generation := run[k].store.previous.value.generation;
    UpToDateIsRun(digest, run);
    LogGrows(digest, run, k, l);
    var j :| k <= j < l && DeletesOne(run, j, generation);
    LogGrows(digest, run, k, j);
    LogGrows(digest, run, j, l);
    if |run[l].log| == |run[k].log| {
      SameFallback(digest, run, k, j);
      UpToDateRunFallback(digest, run, j);
      assert false;
    }
  }

  /** As long as nothing is committed, the previous manifest stays. */
  lemma {:induction false} SameFallback(digest: Bytes -> string, run: seq<System>, k: nat, l: nat)
    requires Run(digest, run) && k <= l < |run| && |run[k].log| == |run[l].log|
    ensures run[l].store.previous == run[k].store.previous
    decreases l - k
  {
    if k < l {
      LogGrows(digest, run, k, l - 1);
      LogGrows(digest, run, l - 1, l);
      SameFallback(digest, run, k, l - 1);
      assert Step(digest, run[l - 1], run[l]);
    }
  }

  /** While writers commit over what they read, a reader misses only if three of them commit under it. */
  lemma MissNeedsThreeCommits(digest: Bytes -> string, run: seq<System>, t: Moments)
    requires Digests(digest) && UpToDateRun(digest, run) && InOrder(t, run) && run[t.current].store.current.Some?
    requires Misses(digest, run, t)
    ensures |run[t.parts].log| >= |run[t.current].log| + 3
  {
    hide DeletedBetween, Misses, UpToDateRun;
    UpToDateMissesIff(digest, run, t);
    UpToDateIsRun(digest, run);
    DeletionOvertakes(digest, run, t.current, t.chunks);
    LogGrows(digest, run, t.chunks, t.previous);
    FallbackOvertaken(digest, run, t.previous, t.parts);
  }

  lemma NotWhole(digest: Bytes -> string, chunks: map<ChunkKey, Bytes>, generation: string)
    requires (generation, 0) !in chunks
    ensures ReadManifest(digest, chunks, Some(MakeManifest(digest, [0], generation, 0))).None?
  {
    assert !HasChunks(chunks, generation, 1) by { assert (generation, 0) !in chunks; }
  }

  /** A whole write by a lone writer over the manifest b, which deletes the only chunk of a, the one before it. */
  lemma WriteOver(digest: Bytes -> string, run: seq<System>, a: Manifest, b: Manifest, generation: string)
    returns (run': seq<System>)
    requires Run(digest, run) && Digests(digest) && AllAlone(run) && run[|run| - 1].writers == map[]
    requires a.generation != "" && b.generation != "" && a.generation != b.generation && a.generation != generation
    requires a == MakeManifest(digest, [0], a.generation, 0) && b == MakeManifest(digest, [0], b.generation, 0)
    requires run[|run| - 1].store.current == Some(b) && run[|run| - 1].store.previous == Some(a)
    requires generation != "" && generation !in run[|run| - 1].drawn
    ensures Run(digest, run') && run <= run' && AllAlone(run')
    ensures
      var last := run'[|run'| - 1];
      && last.writers == map[] && last.drawn.Keys == run[|run| - 1].drawn.Keys + {generation}
      && last.store.previous == Some(b) && last.store.current == Some(MakeManifest(digest, [0], generation, 0))
      && (a.generation, 0) !in last.store.chunks
  {
    hide MakeManifest, Alone, Step;
    var s := run[|run| - 1];
    run' := BeginAndRead(digest, run, 0);
    run' := PutOnly(digest, run', s, 0, Some(b), generation);
    run' := DeleteOld(digest, run', s, a, b, generation);
  }

  lemma GenerationOf(digest: Bytes -> string, generation: string)
    ensures MakeManifest(digest, [0], generation, 0).generation == generation
  {
  }

  /** Two writes from the start, and the moment between them. */
  lemma TwoWrites(digest: Bytes -> string, start: System) returns (run: seq<System>, first: nat)
    requires Digests(digest) && Fresh(start)
    ensures Run(digest, run) && run[0] == start && AllAlone(run) && first < |run|
    ensures run[first].store.current == Some(MakeManifest(digest, [0], "a", 0))
    ensures
      var last := run[|run| - 1];
      && last.writers == map[] && last.drawn.Keys == {"a", "b"}
      && last.store.current == Some(MakeManifest(digest, [0], "b", 0))
      && last.store.previous == Some(MakeManifest(digest, [0], "a", 0))
  {
    run := WriteOnce(digest, [start], 0, "a");
    first := |run| - 1;
    var until := run;
    run := WriteOnce(digest, run, 0, "b");
    assert run[first] == until[first];
  }

  /**
   * A reader that gets nothing although writers never overlap and a whole current generation is there at every
   * moment: the one it took is deleted by the second write after it, and its fallback by the third.
   */
  lemma ReaderOutrun(digest: Bytes -> string, start: System) returns (run: seq<System>, t: Moments)
    requires Digests(digest) && Fresh(start)
    ensures Run(digest, run) && run[0] == start && AllAlone(run) && InOrder(t, run)
    ensures run[t.current].store.current.Some? && Misses(digest, run, t)
  {
    hide Run, AllAlone, Fresh, Digests, ReadLegacy, ReadManifest, MakeManifest;
    GenerationOf(digest, "a");
    GenerationOf(digest, "b");
    GenerationOf(digest, "c");
    var a, b := MakeManifest(digest, [0], "a", 0), MakeManifest(digest, [0], "b", 0);
    var c := MakeManifest(digest, [0], "c", 0);
    var first: nat;
    run, first := TwoWrites(digest, start);
    var begun := run;
    run := WriteOver(digest, run, a, b, "c");
    var second := run;
    run := WriteOver(digest, run, b, c, "d");
    t := Moments(first, |second| - 1, |second| - 1, |run| - 1, |run| - 1);
    assert begun <= second <= run;
    assert run[t.current] == begun[t.current] && run[t.chunks] == second[t.chunks];
    NotWhole(digest, run[t.chunks].store.chunks, "a");
    NotWhole(digest, run[t.parts].store.chunks, "b");
  }
}
