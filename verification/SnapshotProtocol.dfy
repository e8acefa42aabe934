/**
 * Several writers of one document, each stopped at any storage step by the others or for good by a crash.
 * Models the storage steps of document-persistence.ts lines 47-80: two reads, one put per chunk, the
 * manifest put, one delete per retired chunk.
 */
module SnapshotProtocol {
  import opened OrderedStrings
  import opened SnapshotStore

  /** How far a writer has got, with what it read. */
  datatype Writer =
    | Starting(update: Bytes)
    | ReadOne(update: Bytes, seen: Option<Manifest>)
    | Putting(update: Bytes, seen: Option<Manifest>, seenPrevious: Option<Manifest>, generation: string, next: nat)
    | Deleting(retired: Manifest, next: nat)

  /** Storage and writers, with the history the claims speak of. */
  datatype System = System(
    store: Store,
    writers: map<nat, Writer>,
    /** the update each generation identifier was drawn for */
    drawn: map<string, Bytes>,
    /** the generations whose manifest was put, in order */
    log: seq<string>,
    /** the generations that have been recorded as previous */
    retired: set<string>)

  /** No writer has started and no generation is stored; version 1 data may lie there, and no step touches it. */
  predicate Fresh(s: System) {
    && s.store.chunks == map[] && s.store.current.None? && s.store.previous.None?
    && s.writers == map[] && s.drawn == map[] && s.log == [] && s.retired == {}
  }

  ghost predicate Begin(s: System, s': System, w: nat, update: Bytes) {
    w !in s.writers && |update| <= MAX_DOCUMENT_BYTES && s' == s.(writers := s.writers[w := Starting(update)])
  }

  predicate GetCurrent(s: System, s': System, w: nat) {
    && w in s.writers && s.writers[w].Starting?
    && s' == s.(writers := s.writers[w := ReadOne(s.writers[w].update, s.store.current)])
  }

  /** Reads the previous manifest and draws a generation identifier never drawn before. */
  predicate GetPrevious(s: System, s': System, w: nat, generation: string) {
    && w in s.writers && s.writers[w].ReadOne? && generation != "" && generation !in s.drawn
    && s' == s.(writers := s.writers[w := Putting(s.writers[w].update, s.writers[w].seen, s.store.previous, generation,
                                                  0)],
                drawn := s.drawn[generation := s.writers[w].update])
  }

  predicate PutChunk(s: System, s': System, w: nat) {
    && w in s.writers && s.writers[w].Putting?
    && var p := s.writers[w];
       && p.next < ChunkCount(|p.update|)
       && s' == s.(writers := s.writers[w := Putting(p.update, p.seen, p.seenPrevious, p.generation, p.next + 1)],
                   store := s.store.(chunks := s.store.chunks[(p.generation, p.next) := ChunkAt(p.update, p.next)]))
  }

  predicate Commit(digest: Bytes -> string, s: System, s': System, w: nat, now: int) {
    && w in s.writers && s.writers[w].Putting?
    && var p := s.writers[w];
       && p.next == ChunkCount(|p.update|)
       && s' == s.(writers := if Deletes(p.seen, p.seenPrevious) then s.writers[w := Deleting(p.seenPrevious.value, 0)]
                   else s.writers - {w},
                   store := CommitManifest(s.store, MakeManifest(digest, p.update, p.generation, now), p.seen),
                   log := s.log + [p.generation],
                   retired := if IsSnapshotManifest(p.seen) then s.retired + {p.seen.value.generation} else s.retired)
  }

  predicate DeleteChunk(s: System, s': System, w: nat) {
    && w in s.writers && s.writers[w].Deleting?
    && var p := s.writers[w];
       && p.next < p.retired.chunkCount
       && s' == s.(writers := s.writers[w := Deleting(p.retired, p.next + 1)],
                   store := s.store.(chunks := s.store.chunks - {(p.retired.generation, p.next)}))
  }

  /** A writer that crashes, or that has nothing left to do, disappears. */
  predicate Stop(s: System, s': System, w: nat) {
    w in s.writers && s' == s.(writers := s.writers - {w})
  }

  ghost predicate Step(digest: Bytes -> string, s: System, s': System) {
    || (exists w, update :: Begin(s, s', w, update)) || (exists w :: GetCurrent(s, s', w))
    || (exists w, generation :: GetPrevious(s, s', w, generation)) || (exists w :: PutChunk(s, s', w))
    || (exists w, now :: Commit(digest, s, s', w, now)) || (exists w :: DeleteChunk(s, s', w)) ||
          (exists w :: Stop(s, s', w))
  }

  ghost predicate Run(digest: Bytes -> string, run: seq<System>) {
    run != [] && Fresh(run[0]) && forall k | 0 <= k < |run| - 1 :: Step(digest, run[k], run[k + 1])
  }

  ghost predicate Digests(digest: Bytes -> string) {
    forall b :: HexDigest(digest(b))
  }

  // ------------------------------------------------------------- invariant

  function Committed(s: System): set<string> {
    set g | g in s.log
  }

  /** A manifest that some writer put. */
  predicate Genuine(digest: Bytes -> string, s: System, m: Manifest) {
    && m.generation in Committed(s) && m.generation in s.drawn && m.generation != ""
    && |s.drawn[m.generation]| <= MAX_DOCUMENT_BYTES
    && m == MakeManifest(digest, s.drawn[m.generation], m.generation, m.savedAt)
  }

  predicate ChunkKept(s: System, key: ChunkKey)
    requires key in s.store.chunks
  {
    && key.0 in s.drawn && key.1 < ChunkCount(|s.drawn[key.0]|)
    && s.store.chunks[key] == ChunkAt(s.drawn[key.0], key.1)
  }

  predicate WriterOk(digest: Bytes -> string, s: System, p: Writer) {
    match p
    case Starting(update) => |update| <= MAX_DOCUMENT_BYTES
    case ReadOne(update, seen) => |update| <= MAX_DOCUMENT_BYTES && (seen.Some? ==> Genuine(digest, s, seen.value))
    case Putting(update, seen, seenPrevious, generation, next) =>
      && |update| <= MAX_DOCUMENT_BYTES && generation != ""
      && generation in s.drawn && s.drawn[generation] == update && generation !in Committed(s)
      && next <= ChunkCount(|update|) && HasChunks(s.store.chunks, generation, next)
      && (seen.Some? ==> Genuine(digest, s, seen.value))
      && (seenPrevious.Some? ==> Genuine(digest, s, seenPrevious.value) && seenPrevious.value.generation in s.retired)
    case Deleting(m, next) => Genuine(digest, s, m) && m.generation in s.retired
  }

  predicate Apart(p: Writer, q: Writer) {
    p.Putting? && q.Putting? ==> p.generation != q.generation
  }

  predicate CurrentOk(digest: Bytes -> string, s: System) {
    && (s.store.current.Some? <==> s.log != [])
    && (s.store.current.Some? ==>
          && Genuine(digest, s, s.store.current.value)
          && s.store.current.value.generation == s.log[|s.log| - 1]
          && s.store.current.value.generation !in s.retired
          && HasChunks(s.store.chunks, s.store.current.value.generation, s.store.current.value.chunkCount))
  }

  predicate PreviousOk(digest: Bytes -> string, s: System) {
    s.store.previous.Some? ==>
      Genuine(digest, s, s.store.previous.value) && s.store.previous.value.generation in s.retired
  }

  ghost predicate Inv(digest: Bytes -> string, s: System) {
    && (forall key | key in s.store.chunks :: ChunkKept(s, key))
    && CurrentOk(digest, s) && PreviousOk(digest, s)
    && s.retired <= Committed(s) <= s.drawn.Keys
    && (forall w | w in s.writers :: WriterOk(digest, s, s.writers[w]))
    && (forall v, w | v in s.writers && w in s.writers && v != w :: Apart(s.writers[v], s.writers[w]))
  }

  lemma StepInv(digest: Bytes -> string, s: System, s': System)
    requires Inv(digest, s) && Step(digest, s, s')
    ensures Inv(digest, s')
  {
    hide Inv, Begin, GetCurrent, GetPrevious, PutChunk, Commit, DeleteChunk, Stop;
    if w, update :| Begin(s, s', w, update) {
      BeginInv(digest, s, s', w, update);
    } else if w :| GetCurrent(s, s', w) {
      GetCurrentInv(digest, s, s', w);
    } else if w, generation :| GetPrevious(s, s', w, generation) {
      GetPreviousInv(digest, s, s', w, generation);
    } else if w :| PutChunk(s, s', w) {
      PutChunkInv(digest, s, s', w);
    } else if w, now :| Commit(digest, s, s', w, now) {
      CommitInv(digest, s, s', w, now);
    } else if w :| DeleteChunk(s, s', w) {
      DeleteChunkInv(digest, s, s', w);
    } else {
      var w :| Stop(s, s', w);
      StopInv(digest, s, s', w);
    }
  }

  lemma BeginInv(digest: Bytes -> string, s: System, s': System, w: nat, update: Bytes)
    requires Inv(digest, s) && Begin(s, s', w, update)
    ensures Inv(digest, s')
  {
    WritersKept(digest, s, s', w);
  }

  lemma GetCurrentInv(digest: Bytes -> string, s: System, s': System, w: nat)
    requires Inv(digest, s) && GetCurrent(s, s', w)
    ensures Inv(digest, s')
  {
    assert WriterOk(digest, s, s.writers[w]);
    WritersKept(digest, s, s', w);
  }

  lemma StopInv(digest: Bytes -> string, s: System, s': System, w: nat)
    requires Inv(digest, s) && Stop(s, s', w)
    ensures Inv(digest, s')
  {
    WritersKept(digest, s, s', w);
  }

  /** Storage and history untouched, and at most writer w changed, to a phase without a generation of its own. */
  lemma WritersKept(digest: Bytes -> string, s: System, s': System, w: nat)
    requires Inv(digest, s) && s' == s.(writers := s'.writers)
    requires forall v | v in s'.writers && v != w :: v in s.writers && s'.writers[v] == s.writers[v]
    requires w in s'.writers ==> WriterOk(digest, s, s'.writers[w]) && !s'.writers[w].Putting?
    ensures Inv(digest, s')
  {
    forall v | v in s'.writers ensures WriterOk(digest, s', s'.writers[v]) {
      if v != w { assert WriterOk(digest, s, s.writers[v]); }
    }
    forall key | key in s'.store.chunks ensures ChunkKept(s', key) {
      assert ChunkKept(s, key);
    }
    forall u, v | u in s'.writers && v in s'.writers && u != v ensures Apart(s'.writers[u], s'.writers[v]) {
      if u != w && v != w { assert Apart(s.writers[u], s.writers[v]); }
    }
  }

  lemma GetPreviousInv(digest: Bytes -> string, s: System, s': System, w: nat, generation: string)
    requires Inv(digest, s) && GetPrevious(s, s', w, generation)
    ensures Inv(digest, s')
  {
    forall v | v in s'.writers ensures WriterOk(digest, s', s'.writers[v]) {
      assert WriterOk(digest, s, s.writers[v]);
    }
    forall key | key in s'.store.chunks ensures ChunkKept(s', key) {
      assert ChunkKept(s, key);
    }
    forall u, v | u in s'.writers && v in s'.writers && u != v ensures Apart(s'.writers[u], s'.writers[v]) {
      assert WriterOk(digest, s, s.writers[u]) && WriterOk(digest, s, s.writers[v]);
      assert Apart(s.writers[u], s.writers[v]);
    }
  }

  lemma PutChunkInv(digest: Bytes -> string, s: System, s': System, w: nat)
    requires Inv(digest, s) && PutChunk(s, s', w)
    ensures Inv(digest, s')
  {
    var p := s.writers[w];
    assert WriterOk(digest, s, p);
    forall v | v in s'.writers ensures WriterOk(digest, s', s'.writers[v]) {
      assert WriterOk(digest, s, s.writers[v]);
    }
    forall key | key in s'.store.chunks ensures ChunkKept(s', key) {
      if key != (p.generation, p.next) { assert ChunkKept(s, key); }
    }
    forall u, v | u in s'.writers && v in s'.writers && u != v ensures Apart(s'.writers[u], s'.writers[v]) {
      assert Apart(s.writers[u], s.writers[v]);
    }
  }

  lemma CommitInv(digest: Bytes -> string, s: System, s': System, w: nat, now: int)
    requires Inv(digest, s) && Commit(digest, s, s', w, now)
    ensures Inv(digest, s')
  {
    var p := s.writers[w];
    assert WriterOk(digest, s, p);
    assert Committed(s') == Committed(s) + {p.generation};
    assert s'.store.chunks == s.store.chunks && s'.drawn == s.drawn;
    forall m | Genuine(digest, s, m) ensures Genuine(digest, s', m) {}
    forall v | v in s'.writers ensures WriterOk(digest, s', s'.writers[v]) {
      assert WriterOk(digest, s, s.writers[v]);
      if v != w { assert Apart(s.writers[v], s.writers[w]); }
    }
    forall key | key in s'.store.chunks ensures ChunkKept(s', key) {
      assert ChunkKept(s, key);
    }
    forall u, v | u in s'.writers && v in s'.writers && u != v ensures Apart(s'.writers[u], s'.writers[v]) {
      assert Apart(s.writers[u], s.writers[v]);
    }
  }

  /** A generation recorded as previous is retired for good: deleting it never touches the current one. */
  lemma DeleteChunkInv(digest: Bytes -> string, s: System, s': System, w: nat)
    requires Inv(digest, s) && DeleteChunk(s, s', w)
    ensures Inv(digest, s')
  {
    var p := s.writers[w];
    assert WriterOk(digest, s, p);
    forall v | v in s'.writers ensures WriterOk(digest, s', s'.writers[v]) {
      assert WriterOk(digest, s, s.writers[v]);
    }
    forall key | key in s'.store.chunks ensures ChunkKept(s', key) {
      assert ChunkKept(s, key);
    }
    forall u, v | u in s'.writers && v in s'.writers && u != v ensures Apart(s'.writers[u], s'.writers[v]) {
      assert Apart(s.writers[u], s.writers[v]);
    }
  }

  lemma {:induction false} RunInv(digest: Bytes -> string, run: seq<System>, k: nat)
    requires Run(digest, run) && k < |run|
    ensures Inv(digest, run[k])
  {
    if k == 0 {
    } else {
      RunInv(digest, run, k - 1);
      StepInv(digest, run[k - 1], run[k]);
    }
  }

  // ---------------------------------------------------------- what it means

  /** The update of the last manifest put. */
  function LastUpdate(s: System): Bytes
    requires s.log != [] && s.log[|s.log| - 1] in s.drawn
  {
    s.drawn[s.log[|s.log| - 1]]
  }

  lemma CurrentReads(digest: Bytes -> string, s: System)
    requires Inv(digest, s) && Digests(digest) && s.log != []
    ensures ReadManifest(digest, s.store.chunks, s.store.current)
         == if LastUpdate(s) != [] then Some(LastUpdate(s)) else None
  {
    var m := s.store.current.value;
    var update := s.drawn[m.generation];
    forall i | 0 <= i < ChunkCount(|update|)
      ensures (m.generation, i) in s.store.chunks && s.store.chunks[(m.generation, i)] == ChunkAt(update, i)
    {
      assert (m.generation, i) in s.store.chunks;
      assert ChunkKept(s, (m.generation, i));
    }
    ManifestReads(digest, s.store.chunks, update, m.generation, m.savedAt);
  }

  /**
   * At every moment of every interleaving, whoever crashed and however the writers overlap, reading gives
   * the update whose manifest was put last, whole, exactly when that update is not empty.
   */
  lemma ReadsLastCommitted(digest: Bytes -> string, run: seq<System>, k: nat)
    requires Run(digest, run) && Digests(digest) && k < |run| && run[k].log != []
    ensures run[k].log[|run[k].log| - 1] in run[k].drawn
    ensures ReadSnapshot(digest, run[k].store) == Some(Snapshot(LastUpdate(run[k]), FromCurrent))
            <==> LastUpdate(run[k]) != []
  {
    RunInv(digest, run, k);
    CurrentReads(digest, run[k]);
  }

  /** No step ever deletes a chunk of the generation the current manifest names. */
  lemma CurrentNeverDeleted(digest: Bytes -> string, run: seq<System>, k: nat, w: nat)
    requires Run(digest, run) && k < |run| - 1 && DeleteChunk(run[k], run[k + 1], w)
    ensures run[k].store.current.Some?
    ensures run[k].writers[w].retired.generation != run[k].store.current.value.generation
    ensures run[k].writers[w].retired.generation != run[k + 1].store.current.value.generation
  {
    RunInv(digest, run, k);
    assert WriterOk(digest, run[k], run[k].writers[w]);
  }

  /** Once retired, a generation is never current again. */
  lemma {:induction false} RetiredForGood(digest: Bytes -> string, run: seq<System>, k: nat, l: nat, generation: string)
    requires Run(digest, run) && k <= l < |run| && generation in run[k].retired
    ensures generation in run[l].retired
    ensures run[l].store.current.Some? ==> run[l].store.current.value.generation != generation
    decreases l - k
  {
    RunInv(digest, run, l);
    if k < l {
      RetiredForGood(digest, run, k, l - 1, generation);
      assert Step(digest, run[l - 1], run[l]);
    }
  }

  /**
   * A reader that took a manifest at one moment and fetches its chunks at a later one gets that
   * generation's update or nothing: never a mix of generations.
   */
  lemma NeverAMix(digest: Bytes -> string, run: seq<System>, k: nat, l: nat, value: Option<Manifest>)
    requires Run(digest, run) && k <= l < |run|
    requires value == run[k].store.current || value == run[k].store.previous
    requires ReadManifest(digest, run[l].store.chunks, value).Some?
    ensures value.Some? && value.value.generation in run[k].drawn
    ensures ReadManifest(digest, run[l].store.chunks, value) == Some(run[k].drawn[value.value.generation])
  {
    RunInv(digest, run, k);
    RunInv(digest, run, l);
    var m := value.value;
    DrawnStays(digest, run, k, l, m.generation);
    var update := run[k].drawn[m.generation];
    forall i | 0 <= i < ChunkCount(|update|)
      ensures run[l].store.chunks[(m.generation, i)] == ChunkAt(update, i)
    {
      assert ChunkKept(run[l], (m.generation, i));
    }
    FlattenChunks(update);
    assert Parts(run[l].store.chunks, m.generation, ChunkCount(|update|)) == Chunks(update);
  }

  lemma {:induction false} DrawnStays(digest: Bytes -> string, run: seq<System>, k: nat, l: nat, generation: string)
    requires Run(digest, run) && k <= l < |run| && generation in run[k].drawn
    ensures generation in run[l].drawn && run[l].drawn[generation] == run[k].drawn[generation]
    decreases l - k
  {
    if k < l {
      DrawnStays(digest, run, k, l - 1, generation);
      assert Step(digest, run[l - 1], run[l]);
    }
  }

  // ---------------------------------------------------------- the fallback

  /** Both name one generation, or neither names any. */
  predicate SameGeneration(a: Option<Manifest>, b: Option<Manifest>) {
    if a.Some? then b.Some? && a.value.generation == b.value.generation else b.None?
  }

  ghost predicate NoEmptyUpdate(s: System) {
    forall w | w in s.writers && s.writers[w].Starting? :: s.writers[w].update != []
  }

  /** A manifest, if this step puts one, is put over the generation its writer read. */
  ghost predicate CommitsOverSeen(s: System, s': System) {
    s.log != s'.log ==> exists w ::
      w in s.writers && s.writers[w].Putting? && s'.log == s.log + [s.writers[w].generation]
                                 && SameGeneration(s.writers[w].seen, s.store.current)
  }

  /** Every manifest is put over the generation its writer read, and no update is empty. */
  ghost predicate UpToDate(s: System, s': System) {
    NoEmptyUpdate(s') && CommitsOverSeen(s, s')
  }

  ghost predicate NonEmptyRun(digest: Bytes -> string, run: seq<System>) {
    Run(digest, run) && forall k | 0 <= k < |run| :: NoEmptyUpdate(run[k])
  }

  ghost predicate UpToDateRun(digest: Bytes -> string, run: seq<System>) {
    Run(digest, run) && forall k | 0 <= k < |run| - 1 :: UpToDate(run[k], run[k + 1])
  }

  predicate Whole(chunks: map<ChunkKey, Bytes>, m: Manifest) {
    m.chunkCount >= 0 && HasChunks(chunks, m.generation, m.chunkCount)
  }

  /** Once there are two commits, the fallback is the one before the current, and it is whole. */
  ghost predicate FallbackKept(s: System) {
    |s.log| >= 2 ==>
      && s.store.previous.Some? && s.store.previous.value.generation == s.log[|s.log| - 2]
      && Whole(s.store.chunks, s.store.previous.value)
  }

  ghost predicate NothingEmpty(s: System) {
    && (forall g | g in s.drawn :: s.drawn[g] != [])
    && (forall w | w in s.writers && !s.writers[w].Deleting? :: s.writers[w].update != [])
  }

  /** The fallback is the generation committed before the current one, it is whole, and nobody deletes it. */
  ghost predicate FallbackInv(digest: Bytes -> string, s: System) {
    && NothingEmpty(s)
    && (s.store.previous.Some? <==> |s.log| >= 2)
    && (s.store.previous.Some? ==>
          && s.store.previous.value.generation == s.log[|s.log| - 2]
          && Whole(s.store.chunks, s.store.previous.value)
          && forall w | w in s.writers && s.writers[w].Deleting? ::
               s.writers[w].retired.generation != s.store.previous.value.generation)
  }

  lemma GenuineIsManifest(digest: Bytes -> string, s: System, m: Manifest)
    requires Digests(digest) && Genuine(digest, s, m) && s.drawn[m.generation] != []
    ensures IsSnapshotManifest(Some(m))
  {
  }

  lemma CommitOfUpToDate(digest: Bytes -> string, s: System, s': System, w: nat, now: int)
    requires Inv(digest, s) && Commit(digest, s, s', w, now) && UpToDate(s, s')
    ensures SameGeneration(s.writers[w].seen, s.store.current)
  {
    var v :| v in s.writers && s.writers[v].Putting? && s'.log == s.log + [s.writers[v].generation]
             && SameGeneration(s.writers[v].seen, s.store.current);
    assert s'.log[|s.log|] == s.writers[w].generation == s.writers[v].generation;
    assert v != w ==> Apart(s.writers[v], s.writers[w]);
  }

  lemma CommitFallback(digest: Bytes -> string, s: System, s': System, w: nat, now: int)
    requires Digests(digest) && Inv(digest, s) && FallbackInv(digest, s)
    requires Commit(digest, s, s', w, now) && UpToDate(s, s')
    ensures FallbackInv(digest, s')
  {
    var p := s.writers[w];
    CommitOfUpToDate(digest, s, s', w, now);
    assert WriterOk(digest, s, p);
    if s.store.current.Some? {
      GenuineIsManifest(digest, s, p.seen.value);
      assert s'.store.previous == p.seen;
      assert s'.log[|s'.log| - 2] == s.log[|s.log| - 1];
      forall v | v in s'.writers && s'.writers[v].Deleting?
        ensures s'.writers[v].retired.generation != s'.store.previous.value.generation
      {
        if v != w { assert WriterOk(digest, s, s.writers[v]); }
      }
    }
  }

  lemma StepFallback(digest: Bytes -> string, s: System, s': System)
    requires Digests(digest) && Inv(digest, s) && FallbackInv(digest, s) && Step(digest, s, s') && UpToDate(s, s')
    ensures FallbackInv(digest, s')
  {
    hide Inv, FallbackInv, UpToDate, Begin, GetCurrent, GetPrevious, PutChunk, Commit, DeleteChunk, Stop;
    if w, now :| Commit(digest, s, s', w, now) {
      CommitFallback(digest, s, s', w, now);
    } else if w, update :| Begin(s, s', w, update) {
      BeginFallback(digest, s, s', w, update);
    } else if w :| DeleteChunk(s, s', w) {
      DeleteFallback(digest, s, s', w);
    } else if w, generation :| GetPrevious(s, s', w, generation) {
      GetPreviousFallback(digest, s, s', w, generation);
    } else {
      var w :| GetCurrent(s, s', w) || PutChunk(s, s', w) || Stop(s, s', w);
      OtherFallback(digest, s, s', w);
    }
  }

  lemma BeginFallback(digest: Bytes -> string, s: System, s': System, w: nat, update: Bytes)
    requires FallbackInv(digest, s) && Begin(s, s', w, update) && UpToDate(s, s')
    ensures FallbackInv(digest, s')
  {
    assert s'.writers[w].Starting?;
  }

  lemma DeleteFallback(digest: Bytes -> string, s: System, s': System, w: nat)
    requires FallbackInv(digest, s) && DeleteChunk(s, s', w)
    ensures FallbackInv(digest, s')
  {
  }

  lemma GetPreviousFallback(digest: Bytes -> string, s: System, s': System, w: nat, generation: string)
    requires FallbackInv(digest, s) && GetPrevious(s, s', w, generation)
    ensures FallbackInv(digest, s')
  {
    assert s.writers[w].update != [];
  }

  lemma OtherFallback(digest: Bytes -> string, s: System, s': System, w: nat)
    requires FallbackInv(digest, s) && (GetCurrent(s, s', w) || PutChunk(s, s', w) || Stop(s, s', w))
    ensures FallbackInv(digest, s')
  {
    assert !s.writers[w].Deleting? ==> s.writers[w].update != [];
  }

  lemma {:induction false} UpToDateRunFallback(digest: Bytes -> string, run: seq<System>, k: nat)
    requires Digests(digest) && UpToDateRun(digest, run) && k < |run|
    ensures FallbackInv(digest, run[k])
  {
    hide Step, Inv, UpToDate;
    if k > 0 {
      UpToDateRunFallback(digest, run, k - 1);
      RunInv(digest, run, k - 1);
      StepFallback(digest, run[k - 1], run[k]);
    }
  }

  lemma StepNothingEmpty(digest: Bytes -> string, s: System, s': System)
    requires NothingEmpty(s) && Step(digest, s, s') && NoEmptyUpdate(s')
    ensures NothingEmpty(s')
  {
    if w, update :| Begin(s, s', w, update) {
      assert s'.writers[w].Starting?;
    } else if w, generation :| GetPrevious(s, s', w, generation) {
      assert s.writers[w].update != [];
    }
  }

  lemma {:induction false} RunNothingEmpty(digest: Bytes -> string, run: seq<System>, k: nat)
    requires NonEmptyRun(digest, run) && k < |run|
    ensures NothingEmpty(run[k])
  {
    if k > 0 {
      RunNothingEmpty(digest, run, k - 1);
      StepNothingEmpty(digest, run[k - 1], run[k]);
    }
  }

  /** A commit that leaves the fallback kept was put over the generation its writer read. */
  lemma KeptMeansOverSeen(digest: Bytes -> string, s: System, s': System)
    requires Digests(digest) && Inv(digest, s) && NothingEmpty(s) && Step(digest, s, s') && FallbackKept(s')
    ensures CommitsOverSeen(s, s')
  {
    if w, now :| Commit(digest, s, s', w, now) {
      var p := s.writers[w];
      assert WriterOk(digest, s, p);
      if s.log != [] {
        assert s'.log[|s'.log| - 2] == s.log[|s.log| - 1];
        if p.seen.Some? { GenuineIsManifest(digest, s, p.seen.value); }
      }
      assert SameGeneration(p.seen, s.store.current);
    }
  }

  /**
   * Without empty updates, the fallback is at every moment the generation committed before the current one,
   * whole, exactly when every writer commits over the generation it read.
   */
  lemma FallbackKeptIffCommitsOverSeen(digest: Bytes -> string, run: seq<System>)
    requires Digests(digest) && NonEmptyRun(digest, run)
    ensures (forall k | 0 <= k < |run| :: FallbackKept(run[k]))
            <==> (forall k | 0 <= k < |run| - 1 :: CommitsOverSeen(run[k], run[k + 1]))
  {
    if forall k | 0 <= k < |run| :: FallbackKept(run[k]) {
      forall k | 0 <= k < |run| - 1 ensures CommitsOverSeen(run[k], run[k + 1]) {
        RunInv(digest, run, k);
        RunNothingEmpty(digest, run, k);
        assert FallbackKept(run[k + 1]);
        KeptMeansOverSeen(digest, run[k], run[k + 1]);
      }
    }
    if forall k | 0 <= k < |run| - 1 :: CommitsOverSeen(run[k], run[k + 1]) {
      forall k | 0 <= k < |run| ensures FallbackKept(run[k]) {
        assert UpToDateRun(digest, run);
        UpToDateRunFallback(digest, run, k);
      }
    }
  }

  /**
   * If every writer commits over the generation it read, then whenever the current generation is lost or
   * damaged beyond its digest, reading gives back the update committed just before it.
   */
  lemma FallsBackToPreviousCommit(digest: Bytes -> string, run: seq<System>, k: nat, damaged: map<ChunkKey, Bytes>)
    requires Digests(digest) && UpToDateRun(digest, run) && k < |run| && |run[k].log| >= 2
    requires forall key: ChunkKey | key.0 != run[k].log[|run[k].log| - 1] :: key in run[k].store.chunks ==>
      key in damaged && damaged[key] == run[k].store.chunks[key]
    requires ReadManifest(digest, damaged, run[k].store.current).None?
    ensures run[k].log[|run[k].log| - 2] in run[k].drawn
    ensures ReadSnapshot(digest, run[k].store.(chunks := damaged))
         == Some(Snapshot(run[k].drawn[run[k].log[|run[k].log| - 2]], FromPrevious))
  {
    hide *;
    UpToDateIsRun(digest, run);
    RunInv(digest, run, k);
    UpToDateRunFallback(digest, run, k);
    FallbackReads(digest, run[k], damaged);
  }

  lemma UpToDateIsRun(digest: Bytes -> string, run: seq<System>)
    requires UpToDateRun(digest, run)
    ensures Run(digest, run)
  {
  }

  lemma FallbackFacts(digest: Bytes -> string, s: System)
    requires Inv(digest, s) && FallbackInv(digest, s) && |s.log| >= 2
    ensures s.store.previous.Some? && Genuine(digest, s, s.store.previous.value)
    ensures
      var m := s.store.previous.value;
      && m.generation == s.log[|s.log| - 2] != s.log[|s.log| - 1] && s.drawn[m.generation] != []
      && forall i | 0 <= i < ChunkCount(|s.drawn[m.generation]|) ::
           (m.generation, i) in s.store.chunks && s.store.chunks[(m.generation, i)] == ChunkAt(s.drawn[m.generation], i)
  {
    hide WriterOk, Apart;
    var m := s.store.previous.value;
    forall i | 0 <= i < ChunkCount(|s.drawn[m.generation]|)
      ensures (m.generation, i) in s.store.chunks
      ensures s.store.chunks[(m.generation, i)] == ChunkAt(s.drawn[m.generation], i)
    {
      assert (m.generation, i) in s.store.chunks;
      assert ChunkKept(s, (m.generation, i));
    }
  }

  lemma FallbackReads(digest: Bytes -> string, s: System, damaged: map<ChunkKey, Bytes>)
    requires Digests(digest) && Inv(digest, s) && FallbackInv(digest, s) && |s.log| >= 2
    requires forall key: ChunkKey | key.0 != s.log[|s.log| - 1] :: key in s.store.chunks ==>
      key in damaged && damaged[key] == s.store.chunks[key]
    requires ReadManifest(digest, damaged, s.store.current).None?
    ensures s.log[|s.log| - 2] in s.drawn
    ensures ReadSnapshot(digest, s.store.(chunks := damaged))
         == Some(Snapshot(s.drawn[s.log[|s.log| - 2]], FromPrevious))
  {
    hide Inv, FallbackInv, IsSnapshotManifest, ReadManifest, ReadLegacy, ChunkAt, ChunkCount;
    FallbackFacts(digest, s);
    var m := s.store.previous.value;
    var update := s.drawn[m.generation];
    forall i | 0 <= i < ChunkCount(|update|)
      ensures (m.generation, i) in damaged && damaged[(m.generation, i)] == ChunkAt(update, i)
    {
      assert (m.generation, i) in s.store.chunks;
    }
    ManifestReads(digest, damaged, update, m.generation, m.savedAt);
  }

  /** Writers that never overlap always commit over the manifest they read. */
  ghost predicate Alone(s: System) {
    forall v, w | v in s.writers && w in s.writers :: v == w
  }

  ghost predicate SeenIsCurrent(s: System) {
    forall w | w in s.writers && (s.writers[w].ReadOne? || s.writers[w].Putting?) ::
      s.writers[w].seen == s.store.current
  }

  lemma {:induction false} AloneIsUpToDate(digest: Bytes -> string, run: seq<System>, k: nat)
    requires Run(digest, run) && k < |run| && forall i | 0 <= i < |run| :: Alone(run[i])
    ensures SeenIsCurrent(run[k])
    ensures k > 0 ==> CommitsOverSeen(run[k - 1], run[k])
  {
    hide Step, Alone, SeenIsCurrent, CommitsOverSeen;
    if k == 0 {
      NoneSeenAtFirst(run[0]);
    } else {
      AloneIsUpToDate(digest, run, k - 1);
      AloneStep(digest, run[k - 1], run[k]);
    }
  }

  lemma NoneSeenAtFirst(s: System)
    requires Fresh(s)
    ensures SeenIsCurrent(s)
  {
  }

  lemma AloneStep(digest: Bytes -> string, s: System, s': System)
    requires Step(digest, s, s') && Alone(s) && Alone(s') && SeenIsCurrent(s)
    ensures SeenIsCurrent(s') && CommitsOverSeen(s, s')
  {
    if w, now :| Commit(digest, s, s', w, now) {
      assert s.writers[w].seen == s.store.current;
      assert forall v | v in s'.writers :: v == w;
    }
  }

  ghost predicate AllAlone(run: seq<System>) {
    forall k | 0 <= k < |run| :: Alone(run[k])
  }

  lemma Extend(digest: Bytes -> string, run: seq<System>, s': System)
    requires Run(digest, run) && Step(digest, run[|run| - 1], s')
    ensures Run(digest, run + [s'])
  {
    var longer := run + [s'];
    forall k | 0 <= k < |longer| - 1 ensures Step(digest, longer[k], longer[k + 1]) {
      if k < |run| - 1 { assert longer[k] == run[k] && longer[k + 1] == run[k + 1]; }
    }
  }

  /** The state in which writer w, having read these manifests, is about to commit a one-chunk update. */
  function AboutToCommit(s: System, w: nat, seen: Option<Manifest>, generation: string): System {
    s.(writers := s.writers[w := Putting([0], seen, s.store.previous, generation, 1)],
       drawn := s.drawn[generation := [0]],
       store := s.store.(chunks := s.store.chunks[(generation, 0) := [0]]))
  }

  /** Writer w, which has read the current manifest, reads the previous one and puts its only chunk. */
  lemma PutOnly(digest: Bytes -> string, run: seq<System>, s: System, w: nat, seen: Option<Manifest>,
                generation: string)
    returns (run': seq<System>)
    requires Run(digest, run) && generation != "" && generation !in s.drawn
    requires run[|run| - 1] == s.(writers := s.writers[w := ReadOne([0], seen)])
    ensures Run(digest, run') && run <= run' && run'[|run'| - 1] == AboutToCommit(s, w, seen, generation)
    ensures AllAlone(run) && s.writers == map[] ==> AllAlone(run')
  {
    var s0 := run[|run| - 1];
    var s1 := s0.(writers := s0.writers[w := Putting([0], seen, s.store.previous, generation, 0)],
                  drawn := s.drawn[generation := [0]]);
    assert GetPrevious(s0, s1, w, generation);
    Extend(digest, run, s1);
    var s2 := AboutToCommit(s, w, seen, generation);
    assert s2.writers == s1.writers[w := Putting([0], seen, s.store.previous, generation, 1)];
    var one: Bytes := [0];
    assert ChunkAt(one, 0) == one;
    assert PutChunk(s1, s2, w);
    Extend(digest, run + [s1], s2);
    run' := run + [s1] + [s2];
  }

  /** Writer w commits, and stops before deleting anything. */
  lemma CommitAndStop(digest: Bytes -> string, run: seq<System>, s: System, w: nat, seen: Option<Manifest>,
                      generation: string)
    returns (run': seq<System>)
    requires Run(digest, run) && w !in s.writers && run[|run| - 1] == AboutToCommit(s, w, seen, generation)
    ensures Run(digest, run') && run <= run' && run'[|run'| - 1] == AfterCommit(digest, s, seen, generation)
    ensures AllAlone(run) && s.writers == map[] ==> AllAlone(run')
  {
    var s0 := run[|run| - 1];
    var p := s0.writers[w];
    var s1 := s0.(writers := if Deletes(p.seen, p.seenPrevious) then s0.writers[w := Deleting(p.seenPrevious.value, 0)]
                  else s0.writers - {w},
                  store := CommitManifest(s0.store, MakeManifest(digest, p.update, p.generation, 0), p.seen),
                  log := s0.log + [p.generation],
                  retired := if IsSnapshotManifest(p.seen) then s0.retired + {p.seen.value.generation} else s0.retired);
    assert Commit(digest, s0, s1, w, 0);
    Extend(digest, run, s1);
    run' := run + [s1];
    var s2 := AfterCommit(digest, s, seen, generation);
    if Deletes(p.seen, p.seenPrevious) {
      assert s1.writers - {w} == s.writers;
      assert Stop(s1, s2, w);
      Extend(digest, run', s2);
      run' := run' + [s2];
    } else {
      assert s1.writers == s.writers;
    }
  }

  function AfterCommit(digest: Bytes -> string, s: System, seen: Option<Manifest>, generation: string): System {
    s.(drawn := s.drawn[generation := [0]],
       store := CommitManifest(s.store.(chunks := s.store.chunks[(generation, 0) := [0]]),
                               MakeManifest(digest, [0], generation, 0), seen),
       log := s.log + [generation],
       retired := if IsSnapshotManifest(seen) then s.retired + {seen.value.generation} else s.retired)
  }

  lemma BeginAndRead(digest: Bytes -> string, run: seq<System>, w: nat) returns (run': seq<System>)
    requires Run(digest, run) && w !in run[|run| - 1].writers
    ensures Run(digest, run') && run <= run'
    ensures
      var s := run[|run| - 1];
      && run'[|run'| - 1] == s.(writers := s.writers[w := ReadOne([0], s.store.current)])
      && (AllAlone(run) && s.writers == map[] ==> AllAlone(run'))
  {
    var s0 := run[|run| - 1];
    var s1 := s0.(writers := s0.writers[w := Starting([0])]);
    assert Begin(s0, s1, w, [0]);
    Extend(digest, run, s1);
    var s2 := s0.(writers := s0.writers[w := ReadOne([0], s0.store.current)]);
    assert s2.writers == s1.writers[w := ReadOne([0], s0.store.current)];
    assert GetCurrent(s1, s2, w);
    Extend(digest, run + [s1], s2);
    run' := run + [s1] + [s2];
  }

  /** A whole write of a one-byte update by writer w, cut off before it deletes anything. */
  lemma WriteOnce(digest: Bytes -> string, run: seq<System>, w: nat, generation: string) returns (run': seq<System>)
    requires Run(digest, run) && w !in run[|run| - 1].writers && generation != "" && generation !in run[|run| - 1].drawn
    ensures Run(digest, run') && run <= run'
    ensures run'[|run'| - 1] == AfterCommit(digest, run[|run| - 1], run[|run| - 1].store.current, generation)
    ensures AllAlone(run) && run[|run| - 1].writers == map[] ==> AllAlone(run')
  {
    var s := run[|run| - 1];
    run' := BeginAndRead(digest, run, w);
    run' := PutOnly(digest, run', s, w, s.store.current, generation);
    run' := CommitAndStop(digest, run', s, w, s.store.current, generation);
  }

  /**
   * Overlapping writers can leave the fallback named but deleted: one writer reads the current manifest,
   * three generations later it records that manifest as the previous one.
   */
  lemma OverlapLosesFallback(digest: Bytes -> string, start: System) returns (run: seq<System>)
    requires Digests(digest) && Fresh(start)
    ensures Run(digest, run) && run[0] == start
    ensures
      var last := run[|run| - 1].store;
      IsSnapshotManifest(last.previous) && ReadManifest(digest, last.chunks, last.previous).None?
  {
    var a, b := MakeManifest(digest, [0], "a", 0), MakeManifest(digest, [0], "b", 0);
    run := WriteOnce(digest, [start], 0, "a");
    var s := run[|run| - 1];
    assert s.store.current == Some(a) && s.store.previous == None;
    run := BeginAndRead(digest, run, 9);
    run := WriteOnce(digest, run, 0, "b");
    s := run[|run| - 1];
    assert s.store.current == Some(b) && s.store.previous == Some(a);
    // the third write is followed through its deletion of generation a
    run := BeginAndRead(digest, run, 0);
    run := PutOnly(digest, run, s, 0, Some(b), "c");
    run := DeleteOld(digest, run, s, a, b, "c");
    s := run[|run| - 1];
    assert s.writers == map[9 := ReadOne([0], Some(a))];
    var rest := s.(writers := map[]);
    assert s == rest.(writers := rest.writers[9 := ReadOne([0], Some(a))]);
    run := PutOnly(digest, run, rest, 9, Some(a), "d");
    run := CommitAndStop(digest, run, rest, 9, Some(a), "d");
    s := run[|run| - 1];
    assert s.store.previous == Some(a) && ("a", 0) !in s.store.chunks;
    assert !HasChunks(s.store.chunks, "a", 1) by { assert ("a", 0) !in s.store.chunks; }
  }

  /** Writer 0 commits over b and deletes the only chunk of a, the manifest recorded before b. */
  lemma DeleteOld(digest: Bytes -> string, run: seq<System>, s: System, a: Manifest, b: Manifest, generation: string)
    returns (run': seq<System>)
    requires Run(digest, run) && Digests(digest) && s.store.previous == Some(a) && 0 !in s.writers
    requires a.generation != "" && b.generation != "" && a.generation != b.generation && generation != ""
    requires a == MakeManifest(digest, [0], a.generation, 0) && b == MakeManifest(digest, [0], b.generation, 0)
    requires run[|run| - 1] == AboutToCommit(s, 0, Some(b), generation) && a.generation != generation
    ensures Run(digest, run') && run <= run'
    ensures
      var last := run'[|run'| - 1];
      && last.writers == s.writers && last.drawn.Keys == s.drawn.Keys + {generation}
      && last.store.previous == Some(b) && last.store.current == Some(MakeManifest(digest, [0], generation, 0))
      && (a.generation, 0) !in last.store.chunks
    ensures AllAlone(run) && s.writers == map[] ==> AllAlone(run')
  {
    var s0 := run[|run| - 1];
    var s1 := s0.(writers := s0.writers[0 := Deleting(a, 0)],
                  store := CommitManifest(s0.store, MakeManifest(digest, [0], generation, 0), Some(b)),
                  log := s0.log + [generation], retired := s0.retired + {b.generation});
    assert Commit(digest, s0, s1, 0, 0);
    Extend(digest, run, s1);
    var s2 := s1.(writers := s1.writers[0 := Deleting(a, 1)],
                  store := s1.store.(chunks := s1.store.chunks - {(a.generation, 0)}));
    assert DeleteChunk(s1, s2, 0);
    Extend(digest, run + [s1], s2);
    var s3 := s2.(writers := s2.writers - {0});
    assert Stop(s2, s3, 0);
    Extend(digest, run + [s1] + [s2], s3);
    run' := run + [s1] + [s2] + [s3];
    assert s3.writers == s.writers;
  }
}
