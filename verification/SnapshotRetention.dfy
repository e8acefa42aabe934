/**
 * Which chunks storage holds after any number of writes, what a read returns from it, and that a write among the
 * protocol's steps, undisturbed, is the write of the storage object. Models document-persistence.ts lines 39-98
 * and 126-173.
 */
module SnapshotRetention {
  import opened OrderedStrings
  import opened SnapshotStore
  import opened SnapshotProtocol

  // ----------------------------------------------------------- what is stored

  /** Both manifests that are there are well formed, of different generations. */
  predicate TwoGenerations(s: Store) {
    && (s.current.Some? ==> WellFormed(s.current)) && (s.previous.Some? ==> WellFormed(s.previous))
    && (s.previous.Some? ==> s.current.Some? && s.current.value.generation != s.previous.value.generation)
  }

  /** Every stored chunk belongs to one of the two manifests, and every chunk of theirs is stored. */
  ghost predicate HoldsExactly(s: Store) {
    forall key: ChunkKey :: key in s.chunks <==> Names(s.current, key) || Names(s.previous, key)
  }

  datatype Update = Update(bytes: Bytes, generation: string, now: int)

  /** A write that the storage object accepts, of something, under a generation that is not in use. */
  predicate Proper(digest: Bytes -> string, s: Store, u: Update) {
    0 < |u.bytes| <= MAX_DOCUMENT_BYTES && NewGeneration(s, u.generation) && HexDigest(digest(u.bytes))
  }

  /** Writes one after another from a store without generations; version 1 data may lie there. */
  ghost predicate Writes(digest: Bytes -> string, run: seq<Store>, updates: seq<Update>) {
    && |run| == |updates| + 1 && run[0].chunks == map[] && run[0].current.None? && run[0].previous.None?
    && forall k | 0 <= k < |updates| ::
         Proper(digest, run[k], updates[k]) &&
         run[k + 1] == Written(digest, run[k], updates[k].bytes, updates[k].generation, updates[k].now)
  }

  lemma WriteRetains(digest: Bytes -> string, s: Store, u: Update)
    requires TwoGenerations(s) && HoldsExactly(s) && Proper(digest, s, u)
    ensures
      var t := Written(digest, s, u.bytes, u.generation, u.now);
      && TwoGenerations(t) && HoldsExactly(t) && t.previous == s.current
      && t.current.Some? && t.current.value.generation == u.generation
  {
    hide Written;
    WrittenLeaves(digest, s, u.bytes, u.generation, u.now);
    var t := Written(digest, s, u.bytes, u.generation, u.now);
    var m := t.current.value;
    assert 0 < m.chunkCount <= 128;
    forall key: ChunkKey ensures key in t.chunks <==> Names(t.current, key) || Names(t.previous, key) {
      assert IsNewKey(u.bytes, u.generation, key) <==> Names(t.current, key);
      assert key in s.chunks <==> Names(s.current, key) || Names(s.previous, key);
    }
  }

  /** However many writes there are, storage holds the chunks of the last two generations and no others. */
  lemma {:induction false} TwoGenerationsStored(digest: Bytes -> string, run: seq<Store>, updates: seq<Update>, k: nat)
    requires Writes(digest, run, updates) && k < |run|
    ensures TwoGenerations(run[k]) && HoldsExactly(run[k])
    ensures k > 0 ==> run[k].current.Some? && run[k].current.value.generation == updates[k - 1].generation
    ensures k > 1 ==> run[k].previous.Some? && run[k].previous.value.generation == updates[k - 2].generation
    ensures k <= 1 ==> run[k].previous.None?
  {
    hide Written, Proper, TwoGenerations, HoldsExactly;
    if k > 0 {
      TwoGenerationsStored(digest, run, updates, k - 1);
      WriteRetains(digest, run[k - 1], updates[k - 1]);
    } else {
      NothingStored(run[0]);
    }
  }

  lemma NothingStored(s: Store)
    requires s.chunks == map[] && s.current.None? && s.previous.None?
    ensures TwoGenerations(s) && HoldsExactly(s)
  {
  }

  // ----------------------------------------------------------- what is read

  /** The parts of a manifest's generation, in order. */
  ghost predicate PartsAre(chunks: map<ChunkKey, Bytes>, m: Manifest, parts: seq<Bytes>) {
    && |parts| == m.chunkCount
    && forall i: nat | i < |parts| :: (m.generation, i) in chunks && parts[i] == chunks[(m.generation, i)]
  }

  /** The manifest is well formed, and its parts join to the update, with the length and digest it gives. */
  ghost predicate Reads(digest: Bytes -> string, chunks: map<ChunkKey, Bytes>, value: Option<Manifest>, update: Bytes) {
    && WellFormed(value) && |update| == value.value.byteLength && digest(update) == value.value.checksum
    && exists parts :: PartsAre(chunks, value.value, parts) && update == Flatten(parts)
  }

  lemma ReadManifestIff(digest: Bytes -> string, chunks: map<ChunkKey, Bytes>, value: Option<Manifest>)
    ensures forall update :: ReadManifest(digest, chunks, value) == Some(update) <==>
      Reads(digest, chunks, value, update)
  {
    hide Flatten;
    if WellFormed(value) {
      var m := value.value;
      if HasChunks(chunks, m.generation, m.chunkCount) {
        assert PartsAre(chunks, m, Parts(chunks, m.generation, m.chunkCount));
      }
      forall parts | PartsAre(chunks, m, parts)
        ensures HasChunks(chunks, m.generation, m.chunkCount) && parts == Parts(chunks, m.generation, m.chunkCount)
      {
        forall i | 0 <= i < m.chunkCount ensures (m.generation, i) in chunks { assert i < |parts|; }
      }
    }
  }

  /** Version 1 data: a count from 1 to 128, every chunk there, and not too much in all. */
  ghost predicate ReadsLegacy(s: Store, update: Bytes) {
    && s.legacyCount.Some? && 1 <= s.legacyCount.value <= 128 && |update| <= 8388608
    && exists parts :: LegacyParts(s, parts) && update == Flatten(parts)
  }

  ghost predicate LegacyParts(s: Store, parts: seq<Bytes>) {
    && s.legacyCount.Some? && |parts| == s.legacyCount.value
    && forall i: nat | i < |parts| :: i in s.legacyChunks && parts[i] == s.legacyChunks[i]
  }

  lemma ReadLegacyIff(s: Store)
    ensures forall update :: ReadLegacy(s) == Some(update) <==> ReadsLegacy(s, update)
  {
    hide Flatten;
    if s.legacyCount.Some? && 1 <= s.legacyCount.value <= 128 {
      var count: nat := s.legacyCount.value;
      if forall i | 0 <= i < count :: i in s.legacyChunks {
        assert LegacyParts(s, seq(count, i requires 0 <= i < count => s.legacyChunks[i]));
      }
      forall parts | LegacyParts(s, parts)
        ensures forall i | 0 <= i < count :: i in s.legacyChunks
        ensures parts == seq(count, i requires 0 <= i < count && i in s.legacyChunks => s.legacyChunks[i])
      {
        forall i: nat | i < count ensures i in s.legacyChunks { assert i < |parts|; }
      }
    }
  }

  /** A read gives the current update if that reads, else the previous one, else version 1 data, else nothing. */
  lemma ReadGives(digest: Bytes -> string, s: Store)
    ensures
      match ReadSnapshot(digest, s)
      case Some(Snapshot(update, FromCurrent)) => Reads(digest, s.chunks, s.current, update)
      case Some(Snapshot(update, FromPrevious)) =>
        (forall u :: !Reads(digest, s.chunks, s.current, u)) && Reads(digest, s.chunks, s.previous, update)
      case Some(Snapshot(update, FromLegacy)) =>
        && (forall u :: !Reads(digest, s.chunks, s.current, u)) && (forall u :: !Reads(digest, s.chunks, s.previous, u))
        && ReadsLegacy(s, update)
      case None =>
        && (forall u :: !Reads(digest, s.chunks, s.current, u)) && (forall u :: !Reads(digest, s.chunks, s.previous, u))
        && forall u :: !ReadsLegacy(s, u)
  {
    hide Reads, ReadsLegacy, ReadManifest, ReadLegacy;
    ReadManifestIff(digest, s.chunks, s.current);
    ReadManifestIff(digest, s.chunks, s.previous);
    ReadLegacyIff(s);
  }

  // --------------------------------------- an undisturbed write of the protocol

  /** A stretch of a run. */
  ghost predicate Steps(digest: Bytes -> string, run: seq<System>) {
    run != [] && forall k | 0 <= k < |run| - 1 :: Step(digest, run[k], run[k + 1])
  }

  lemma OneMore(digest: Bytes -> string, run: seq<System>, s: System)
    requires Steps(digest, run) && Step(digest, run[|run| - 1], s)
    ensures Steps(digest, run + [s])
  {
    var longer := run + [s];
    forall k | 0 <= k < |longer| - 1 ensures Step(digest, longer[k], longer[k + 1]) {
      if k < |run| - 1 { assert longer[k] == run[k] && longer[k + 1] == run[k + 1]; }
    }
  }

  function PutUpTo(p: Writer, next: nat): Writer requires p.Putting? {
    Putting(p.update, p.seen, p.seenPrevious, p.generation, next)
  }

  /** A writer puts its chunks from one on. */
  lemma {:induction false} PutAll(digest: Bytes -> string, run: seq<System>, w: nat, chunks: map<ChunkKey, Bytes>,
                                  next: nat)
    returns (run': seq<System>)
    requires Steps(digest, run) && w in run[|run| - 1].writers
    requires
      var s := run[|run| - 1];
      var p := s.writers[w];
      && p.Putting? && p.next == next <= ChunkCount(|p.update|)
      && s.store.chunks == PutChunks(chunks, p.update, p.generation, next)
    ensures Steps(digest, run') && run'[0] == run[0]
    ensures
      var s := run[|run| - 1];
      var p := s.writers[w];
      var count := ChunkCount(|p.update|);
      run'[|run'| - 1] == s.(writers := s.writers[w := PutUpTo(p, count)],
                             store := s.store.(chunks := PutChunks(chunks, p.update, p.generation, count)))
    decreases ChunkCount(|run[|run| - 1].writers[w].update|) - next
  {
    hide ChunkAt, ChunkCount;
    var s := run[|run| - 1];
    var p := s.writers[w];
    if next == ChunkCount(|p.update|) {
      run' := run;
      assert s.writers[w := p] == s.writers;
    } else {
      var t := s.(writers := s.writers[w := PutUpTo(p, next + 1)],
                  store := s.store.(chunks := s.store.chunks[(p.generation, next) := ChunkAt(p.update, next)]));
      assert PutChunk(s, t, w);
      OneMore(digest, run, t);
      run' := PutAll(digest, run + [t], w, chunks, next + 1);
      assert t.writers[w := PutUpTo(p, ChunkCount(|p.update|))] == s.writers[w := PutUpTo(p, ChunkCount(|p.update|))];
    }
  }

  function Undropped(chunks: map<ChunkKey, Bytes>, m: Manifest, next: nat): map<ChunkKey, Bytes> {
    map key | key in chunks && !(key.0 == m.generation && key.1 < next) :: chunks[key]
  }

  /** A writer deletes the chunks of a retired manifest from one on. */
  lemma {:induction false} DeleteAll(digest: Bytes -> string, run: seq<System>, w: nat, chunks: map<ChunkKey, Bytes>,
                                     m: Manifest, next: nat)
    returns (run': seq<System>)
    requires Steps(digest, run) && w in run[|run| - 1].writers && 0 <= next <= m.chunkCount
    requires run[|run| - 1].writers[w] == Deleting(m, next) && run[|run| - 1].store.chunks == Undropped(chunks, m, next)
    ensures Steps(digest, run') && run'[0] == run[0]
    ensures
      var s := run[|run| - 1];
      run'[|run'| - 1] == s.(writers := s.writers[w := Deleting(m, m.chunkCount)],
                             store := s.store.(chunks := DropChunks(chunks, m)))
    decreases m.chunkCount - next
  {
    var s := run[|run| - 1];
    if next == m.chunkCount {
      run' := run;
      assert s.writers[w := Deleting(m, m.chunkCount)] == s.writers;
      assert Undropped(chunks, m, next) == DropChunks(chunks, m);
    } else {
      var t := s.(writers := s.writers[w := Deleting(m, next + 1)],
                  store := s.store.(chunks := s.store.chunks - {(m.generation, next)}));
      assert DeleteChunk(s, t, w);
      OneMore(digest, run, t);
      assert t.store.chunks == Undropped(chunks, m, next + 1);
      run' := DeleteAll(digest, run + [t], w, chunks, m, next + 1);
      assert t.writers[w := Deleting(m, m.chunkCount)] == s.writers[w := Deleting(m, m.chunkCount)];
    }
  }

  /** From any state, a writer that nobody disturbs leaves storage as the write of the storage object does. */
  lemma UndisturbedIsWritten(digest: Bytes -> string, s: System, w: nat, u: Update) returns (run: seq<System>)
    requires w !in s.writers && |u.bytes| <= MAX_DOCUMENT_BYTES && u.generation != "" && u.generation !in s.drawn
    ensures Steps(digest, run) && run[0] == s
    ensures
      var last := run[|run| - 1];
      && last.writers == s.writers && last.log == s.log + [u.generation]
      && last.store == Written(digest, s.store, u.bytes, u.generation, u.now)
  {
    var s1 := s.(writers := s.writers[w := Starting(u.bytes)]);
    assert Begin(s, s1, w, u.bytes);
    var s2 := s.(writers := s.writers[w := ReadOne(u.bytes, s.store.current)]);
    assert s2.writers == s1.writers[w := ReadOne(u.bytes, s.store.current)];
    assert GetCurrent(s1, s2, w);
    var putting := Putting(u.bytes, s.store.current, s.store.previous, u.generation, 0);
    var s3 := s.(writers := s.writers[w := putting], drawn := s.drawn[u.generation := u.bytes]);
    assert s3.writers == s2.writers[w := putting];
    assert GetPrevious(s2, s3, w, u.generation);
    OneMore(digest, [s], s1);
    OneMore(digest, [s] + [s1], s2);
    OneMore(digest, [s] + [s1] + [s2], s3);
    run := PutAll(digest, [s] + [s1] + [s2] + [s3], w, s.store.chunks, 0);
    run := CommitAndClear(digest, run, s, w, u);
  }

  lemma CommitAndClear(digest: Bytes -> string, run: seq<System>, s: System, w: nat, u: Update)
    returns (run': seq<System>)
    requires Steps(digest, run) && w !in s.writers
    requires
      var count := ChunkCount(|u.bytes|);
      run[|run| - 1] == s.(
        writers := s.writers[w := Putting(u.bytes, s.store.current, s.store.previous, u.generation, count)],
        drawn := s.drawn[u.generation := u.bytes],
        store := s.store.(chunks := PutChunks(s.store.chunks, u.bytes, u.generation, count)))
    ensures Steps(digest, run') && run'[0] == run[0]
    ensures
      var last := run'[|run'| - 1];
      && last.writers == s.writers && last.log == s.log + [u.generation]
      && last.store == Written(digest, s.store, u.bytes, u.generation, u.now)
  {
    hide ChunkCount, PutChunks, DropChunks;
    var s4 := run[|run| - 1];
    var p := s4.writers[w];
    var deletes := Deletes(p.seen, p.seenPrevious);
    var committed := CommitManifest(s4.store, MakeManifest(digest, u.bytes, u.generation, u.now), p.seen);
    var s5 := s4.(writers := if deletes then s4.writers[w := Deleting(p.seenPrevious.value, 0)] else s4.writers - {w},
                  store := committed, log := s4.log + [u.generation],
                  retired := if IsSnapshotManifest(p.seen) then s4.retired + {p.seen.value.generation} else s4.retired);
    assert Commit(digest, s4, s5, w, u.now);
    OneMore(digest, run, s5);
    run' := run + [s5];
    if deletes {
      run' := ClearAndStop(digest, run', w, p.seenPrevious.value);
      assert s5.writers - {w} == s.writers;
    } else {
      assert s5.writers == s.writers;
    }
  }

  /** A writer deletes a retired manifest's chunks and has nothing left to do. */
  lemma ClearAndStop(digest: Bytes -> string, run: seq<System>, w: nat, m: Manifest) returns (run': seq<System>)
    requires Steps(digest, run) && w in run[|run| - 1].writers && run[|run| - 1].writers[w] == Deleting(m, 0)
    requires m.chunkCount >= 0
    ensures Steps(digest, run') && run'[0] == run[0]
    ensures
      var s := run[|run| - 1];
      run'[|run'| - 1] == s.(writers := s.writers - {w}, store := s.store.(chunks := DropChunks(s.store.chunks, m)))
  {
    hide DropChunks;
    var s := run[|run| - 1];
    assert s.store.chunks == Undropped(s.store.chunks, m, 0);
    run' := DeleteAll(digest, run, w, s.store.chunks, m, 0);
    var s6 := run'[|run'| - 1];
    var s7 := s6.(writers := s6.writers - {w});
    assert Stop(s6, s7, w);
    OneMore(digest, run', s7);
    run' := run' + [s7];
    assert s7.writers == s.writers - {w};
  }
}
