/**
 * A document's durable snapshot: one generation of chunks per write, a manifest committed last, and the
 * previous manifest kept as a fallback. Models document-persistence.ts lines 39-98 and 126-205.
 */
module SnapshotStore {
  import opened OrderedStrings

  newtype byte = x: int | 0 <= x < 256

  type Bytes = seq<byte>

  const DOCUMENT_CHUNK_BYTES: nat := 98304
  const MAX_DOCUMENT_BYTES: nat := 8388608
  const SNAPSHOT_VERSION := 2

  datatype Manifest = Manifest(version: int, generation: string, chunkCount: int, byteLength: int, checksum: string,
                               savedAt: int)

  type ChunkKey = (string, nat)

  /** Durable storage: the chunk keys, the two manifest keys, and what version 1 left behind. */
  datatype Store = Store(chunks: map<ChunkKey, Bytes>, current: Option<Manifest>, previous: Option<Manifest>,
                         legacyCount: Option<int>, legacyChunks: map<nat, Bytes>)

  datatype Source = FromCurrent | FromPrevious | FromLegacy

  datatype Snapshot = Snapshot(update: Bytes, source: Source)

  predicate HexDigest(s: string) {
    |s| == 64 && forall i | 0 <= i < 64 :: 'a' <= s[i] <= 'f' || '0' <= s[i] <= '9'
  }

  predicate IsSnapshotManifest(value: Option<Manifest>) {
    && value.Some?
    && var m := value.value;
       && m.version == SNAPSHOT_VERSION && m.generation != ""
       && 0 < m.chunkCount <= 128 && 0 <= m.byteLength <= MAX_DOCUMENT_BYTES
       && HexDigest(m.checksum)
  }

  // ------------------------------------------------------------- chunking

  function ChunkCount(length: nat): nat {
    (length + DOCUMENT_CHUNK_BYTES - 1) / DOCUMENT_CHUNK_BYTES
  }

  function Min(a: nat, b: nat): nat {
    if a < b then a else b
  }

  function ChunkAt(update: Bytes, k: nat): Bytes
    requires k < ChunkCount(|update|)
  {
    update[k * DOCUMENT_CHUNK_BYTES..Min((k + 1) * DOCUMENT_CHUNK_BYTES, |update|)]
  }

  function Flatten(parts: seq<Bytes>): Bytes {
    if parts == [] then [] else Flatten(parts[..|parts| - 1]) + parts[|parts| - 1]
  }

  function Chunks(update: Bytes): (r: seq<Bytes>) {
    seq(ChunkCount(|update|), k requires 0 <= k < ChunkCount(|update|) => ChunkAt(update, k))
  }

  lemma {:induction false} FlattenPrefix(update: Bytes, k: nat)
    requires k <= ChunkCount(|update|)
    ensures Flatten(Chunks(update)[..k]) == update[..Min(k * DOCUMENT_CHUNK_BYTES, |update|)]
  {
    if k > 0 {
      FlattenPrefix(update, k - 1);
      var parts := Chunks(update)[..k];
      assert parts[..k - 1] == Chunks(update)[..k - 1];
      var from := (k - 1) * DOCUMENT_CHUNK_BYTES;
      assert from < |update|;
      assert update[..Min(k * DOCUMENT_CHUNK_BYTES, |update|)] == update[..from] + ChunkAt(update, k - 1);
    } else {
      assert Chunks(update)[..0] == [];
    }
  }

  /** Concatenating the chunks of an update gives the update back. */
  lemma FlattenChunks(update: Bytes)
    ensures Flatten(Chunks(update)) == update
  {
    FlattenPrefix(update, ChunkCount(|update|));
    assert Chunks(update)[..ChunkCount(|update|)] == Chunks(update);
  }

  // -------------------------------------------------------------- reading

  predicate HasChunks(chunks: map<ChunkKey, Bytes>, generation: string, count: nat) {
    forall i | 0 <= i < count :: (generation, i) in chunks
  }

  function Parts(chunks: map<ChunkKey, Bytes>, generation: string, count: nat): seq<Bytes>
    requires HasChunks(chunks, generation, count)
  {
    seq(count, i requires 0 <= i < count => chunks[(generation, i)])
  }

  function ReadManifest(digest: Bytes -> string, chunks: map<ChunkKey, Bytes>, value: Option<Manifest>): Option<Bytes> {
    if !IsSnapshotManifest(value) then None
    else
      var m := value.value;
      if !HasChunks(chunks, m.generation, m.chunkCount) then None
      else
        var update := Flatten(Parts(chunks, m.generation, m.chunkCount));
        if |update| == m.byteLength && digest(update) == m.checksum then Some(update) else None
  }

  function ReadLegacy(s: Store): Option<Bytes> {
    var count := if s.legacyCount.Some? then s.legacyCount.value else 0;
    if count < 1 || count > 128 || exists i :: 0 <= i < count && i !in s.legacyChunks then None
    else
      var update := Flatten(seq(count, i requires 0 <= i < count => s.legacyChunks[i]));
      if |update| > MAX_DOCUMENT_BYTES then None else Some(update)
  }

  /** The newest intact generation, then the one before, then version 1 data. */
  function ReadSnapshot(digest: Bytes -> string, s: Store): Option<Snapshot> {
    var current := ReadManifest(digest, s.chunks, s.current);
    if current.Some? then Some(Snapshot(current.value, FromCurrent))
    else
      var previous := ReadManifest(digest, s.chunks, s.previous);
      if previous.Some? then Some(Snapshot(previous.value, FromPrevious))
      else
        var legacy := ReadLegacy(s);
        if legacy.Some? then Some(Snapshot(legacy.value, FromLegacy)) else None
  }

  // -------------------------------------------------------------- writing

  function MakeManifest(digest: Bytes -> string, update: Bytes, generation: string, now: int): Manifest {
    Manifest(SNAPSHOT_VERSION, generation, ChunkCount(|update|), |update|, digest(update), now)
  }

  function PutChunks(chunks: map<ChunkKey, Bytes>, update: Bytes, generation: string, count: nat): map<ChunkKey, Bytes>
    requires count <= ChunkCount(|update|)
  {
    if count == 0 then chunks
    else PutChunks(chunks, update, generation, count - 1)[(generation, count - 1) := ChunkAt(update, count - 1)]
  }

  function CommitManifest(s: Store, m: Manifest, seen: Option<Manifest>): Store {
    if IsSnapshotManifest(seen) then s.(current := Some(m), previous := seen) else s.(current := Some(m))
  }

  /** The previous generation a writer deletes after committing, if any. */
  predicate Deletes(seen: Option<Manifest>, seenPrevious: Option<Manifest>) {
    IsSnapshotManifest(seenPrevious) && (seen.None? || seenPrevious.value.generation != seen.value.generation)
  }

  function DropChunks(chunks: map<ChunkKey, Bytes>, m: Manifest): map<ChunkKey, Bytes> {
    map key | key in chunks && !(key.0 == m.generation && key.1 < m.chunkCount) :: chunks[key]
  }

  /** The store after an undisturbed write. */
  function Written(digest: Bytes -> string, s: Store, update: Bytes, generation: string, now: int): Store {
    var put := s.(chunks := PutChunks(s.chunks, update, generation, ChunkCount(|update|)));
    var committed := CommitManifest(put, MakeManifest(digest, update, generation, now), s.current);
    if Deletes(s.current, s.previous) then committed.(chunks := DropChunks(committed.chunks, s.previous.value))
      else committed
  }

  lemma {:induction false} PutChunksAt(chunks: map<ChunkKey, Bytes>, update: Bytes, generation: string, count: nat)
    requires count <= ChunkCount(|update|)
    ensures
      var put := PutChunks(chunks, update, generation, count);
      && HasChunks(put, generation, count)
      && (forall i | 0 <= i < count :: put[(generation, i)] == ChunkAt(update, i))
      && (forall key | key in chunks && key.0 != generation :: key in put && put[key] == chunks[key])
      && (forall key | key in put && key.0 != generation :: key in chunks)
  {
    hide ChunkAt;
    if count > 0 { PutChunksAt(chunks, update, generation, count - 1); }
  }

  /** A manifest whose chunks are the chunks of its update reads back as that update, unless it is empty. */
  lemma ManifestReads(digest: Bytes -> string, chunks: map<ChunkKey, Bytes>, update: Bytes, generation: string,
                      now: int)
    requires |update| <= MAX_DOCUMENT_BYTES && generation != "" && HexDigest(digest(update))
    requires HasChunks(chunks, generation, ChunkCount(|update|))
    requires forall i | 0 <= i < ChunkCount(|update|) :: chunks[(generation, i)] == ChunkAt(update, i)
    ensures IsSnapshotManifest(Some(MakeManifest(digest, update, generation, now))) <==> update != []
    ensures ReadManifest(digest, chunks, Some(MakeManifest(digest, update, generation, now)))
         == if update != [] then Some(update) else None
  {
    FlattenChunks(update);
    assert Parts(chunks, generation, ChunkCount(|update|)) == Chunks(update);
  }

  /** The generation is new: no key and no manifest mentions it. */
  predicate NewGeneration(s: Store, generation: string) {
    && generation != ""
    && (forall key | key in s.chunks :: key.0 != generation)
    && (s.current.Some? ==> s.current.value.generation != generation)
    && (s.previous.Some? ==> s.previous.value.generation != generation)
  }

  /** Reading after an undisturbed write gives the update just written, exactly when it is not empty. */
  lemma WriteThenRead(digest: Bytes -> string, s: Store, update: Bytes, generation: string, now: int)
    requires |update| <= MAX_DOCUMENT_BYTES && NewGeneration(s, generation) && HexDigest(digest(update))
    ensures ReadSnapshot(digest, Written(digest, s, update, generation, now)) == Some(Snapshot(update, FromCurrent))
            <==> update != []
  {
    var count := ChunkCount(|update|);
    PutChunksAt(s.chunks, update, generation, count);
    var written := Written(digest, s, update, generation, now);
    assert written.current == Some(MakeManifest(digest, update, generation, now));
    ManifestReads(digest, written.chunks, update, generation, now);
  }

  /**
   * If a chunk of the generation just written is lost, or damaged so that the digest notices, reading
   * gives back what was readable before the write.
   */
  lemma FallsBackToPreviousWrite(digest: Bytes -> string, s: Store, update: Bytes, generation: string, now: int,
                                 damaged: map<ChunkKey, Bytes>)
    requires |update| <= MAX_DOCUMENT_BYTES && update != [] && NewGeneration(s, generation) && HexDigest(digest(update))
    requires ReadManifest(digest, s.chunks, s.current).Some?
    requires
      var written := Written(digest, s, update, generation, now);
      && (forall key: ChunkKey | key.0 != generation :: key in damaged <==> key in written.chunks)
      && (forall key | key in damaged && key.0 != generation :: damaged[key] == written.chunks[key])
      && ReadManifest(digest, damaged, written.current).None?
    ensures ReadSnapshot(digest, Written(digest, s, update, generation, now).(chunks := damaged))
         == Some(Snapshot(ReadManifest(digest, s.chunks, s.current).value, FromPrevious))
  {
    var count := ChunkCount(|update|);
    PutChunksAt(s.chunks, update, generation, count);
    var m := s.current.value;
    var written := Written(digest, s, update, generation, now);
    assert written.previous == s.current;
    forall i | 0 <= i < m.chunkCount
      ensures (m.generation, i) in damaged && damaged[(m.generation, i)] == s.chunks[(m.generation, i)]
    {
      assert (m.generation, i) in s.chunks;
    }
    assert HasChunks(damaged, m.generation, m.chunkCount);
    assert Parts(damaged, m.generation, m.chunkCount) == Parts(s.chunks, m.generation, m.chunkCount);
  }

  // --------------------------------------------------------- what a write leaves

  /** A manifest the program itself could have stored. */
  predicate WellFormed(value: Option<Manifest>) {
    match value
    case None => false
    case Some(m) =>
      && m.version == 2 && m.generation != "" && 1 <= m.chunkCount <= 128 && 0 <= m.byteLength <= 8388608
      && |m.checksum| == 64
      && forall i | 0 <= i < 64 :: '0' <= m.checksum[i] <= '9' || 'a' <= m.checksum[i] <= 'f'
  }

  /** The key belongs to a chunk of the manifest. */
  predicate Names(value: Option<Manifest>, key: ChunkKey) {
    value.Some? && key.0 == value.value.generation && key.1 < value.value.chunkCount
  }

  /** The generation before the previous one has no use left: neither manifest names it after the write. */
  predicate Outlived(s: Store) {
    WellFormed(s.previous) && (s.current.Some? ==> s.current.value.generation != s.previous.value.generation)
  }

  /** The keys of the update's chunks: one for every 96 KiB begun. */
  predicate IsNewKey(update: Bytes, generation: string, key: ChunkKey) {
    key.0 == generation && key.1 * 98304 < |update|
  }

  /** What a write leaves, key by key. */
  ghost predicate WriteLeaves(digest: Bytes -> string, s: Store, t: Store, update: Bytes, generation: string,
                              now: int) {
    && t.current.Some? && WriteNames(digest, t.current.value, update, generation, now)
    && t.previous == (if WellFormed(s.current) then s.current else s.previous)
    && t.legacyCount == s.legacyCount && t.legacyChunks == s.legacyChunks
    && (forall key: ChunkKey ::
          key in t.chunks <==>
            (IsNewKey(update, generation, key) || key in s.chunks) && !(Outlived(s) && Names(s.previous, key)))
    && forall key: ChunkKey | key in t.chunks ::
         t.chunks[key] == if IsNewKey(update, generation, key)
           then update[key.1 * 98304..if (key.1 + 1) * 98304 < |update| then (key.1 + 1) * 98304 else |update|]
           else s.chunks[key]
  }

  /** The manifest of the update. */
  predicate WriteNames(digest: Bytes -> string, m: Manifest, update: Bytes, generation: string, now: int) {
    && m.version == 2 && m.generation == generation && m.byteLength == |update| && m.savedAt == now
    && m.checksum == digest(update)
    && (m.chunkCount - 1) * 98304 < |update| <= m.chunkCount * 98304
  }

  lemma NewKeyIff(update: Bytes, k: nat)
    ensures k < ChunkCount(|update|) <==> k * 98304 < |update|
  {
  }

  lemma {:induction false} PutChunksIs(chunks: map<ChunkKey, Bytes>, update: Bytes, generation: string, count: nat)
    requires count <= ChunkCount(|update|)
    ensures
      var put := PutChunks(chunks, update, generation, count);
      && (forall key: ChunkKey :: key in put <==> key in chunks || (key.0 == generation && key.1 < count))
      && (forall key: ChunkKey | key in put ::
            put[key] == if key.0 == generation && key.1 < count then ChunkAt(update, key.1) else chunks[key])
  {
    hide ChunkAt;
    if count > 0 { PutChunksIs(chunks, update, generation, count - 1); }
  }

  lemma WrittenLeaves(digest: Bytes -> string, s: Store, update: Bytes, generation: string, now: int)
    ensures WriteLeaves(digest, s, Written(digest, s, update, generation, now), update, generation, now)
  {
    hide ChunkCount, PutChunks, WellFormed, IsSnapshotManifest;
    PutChunksIs(s.chunks, update, generation, ChunkCount(|update|));
    CountIs(update);
    forall k: nat ensures k < ChunkCount(|update|) <==> k * 98304 < |update| { NewKeyIff(update, k); }
    WellFormedIff(s.current);
    WellFormedIff(s.previous);
    PreviousCounts(s.previous);
  }

  lemma WellFormedIff(value: Option<Manifest>)
    ensures WellFormed(value) <==> IsSnapshotManifest(value)
  {
  }

  lemma PreviousCounts(value: Option<Manifest>)
    ensures WellFormed(value) ==> value.Some? && value.value.chunkCount >= 0
  {
  }

  lemma CountIs(update: Bytes)
    ensures (ChunkCount(|update|) - 1) * 98304 < |update| <= ChunkCount(|update|) * 98304
  {
  }

  // ------------------------------------------------------ the storage object

  datatype WriteResult = Saved(manifest: Manifest) | LimitExceeded

  class DocumentStorage {
    var chunks: map<ChunkKey, Bytes>
    var current: Option<Manifest>
    var previous: Option<Manifest>
    var legacyCount: Option<int>
    var legacyChunks: map<nat, Bytes>

    function Contents(): Store
      reads this
    {
      Store(chunks, current, previous, legacyCount, legacyChunks)
    }

    constructor ()
      ensures Contents() == Store(map[], None, None, None, map[])
    {
      chunks, current, previous, legacyCount, legacyChunks := map[], None, None, None, map[];
    }

    /** Writes a generation under new keys and commits its manifest last. */
    method Write(digest: Bytes -> string, update: Bytes, generation: string, now: int) returns (result: WriteResult)
      modifies this
      ensures |update| > MAX_DOCUMENT_BYTES ==> result == LimitExceeded && Contents() == old(Contents())
      ensures |update| <= MAX_DOCUMENT_BYTES ==>
        && result == Saved(MakeManifest(digest, update, generation, now))
        && Contents() == Written(digest, old(Contents()), update, generation, now)
        && WriteLeaves(digest, old(Contents()), Contents(), update, generation, now)
    {
      if |update| > MAX_DOCUMENT_BYTES { return LimitExceeded; }
      var seen, seenPrevious := current, previous;
      var offset, chunkCount := 0, 0;
      ghost var before := chunks;
      while offset < |update|
        invariant offset == chunkCount * DOCUMENT_CHUNK_BYTES && chunkCount <= ChunkCount(|update|)
        invariant Contents() == old(Contents()).(chunks := PutChunks(before, update, generation, chunkCount))
        decreases |update| - offset
      {
        var slice := update[offset..Min(offset + DOCUMENT_CHUNK_BYTES, |update|)];
        assert slice == ChunkAt(update, chunkCount);
        chunks := chunks[(generation, chunkCount) := slice];
        chunkCount := chunkCount + 1;
        offset := offset + DOCUMENT_CHUNK_BYTES;
      }
      assert chunkCount == ChunkCount(|update|);
      var manifest := Manifest(SNAPSHOT_VERSION, generation, chunkCount, |update|, digest(update), now);
      if IsSnapshotManifest(seen) {
        current, previous := Some(manifest), seen;
      } else {
        current := Some(manifest);
      }
      if Deletes(seen, seenPrevious) {
        chunks := DropChunks(chunks, seenPrevious.value);
      }
      WrittenLeaves(digest, old(Contents()), update, generation, now);
      return Saved(manifest);
    }

    method ReadParts(digest: Bytes -> string, value: Option<Manifest>) returns (update: Option<Bytes>)
      ensures update == ReadManifest(digest, chunks, value)
    {
      if !IsSnapshotManifest(value) { return None; }
      var m := value.value;
      var parts: seq<Bytes>, total := [], 0;
      for i := 0 to m.chunkCount
        invariant HasChunks(chunks, m.generation, i) && parts == Parts(chunks, m.generation, i)
        invariant total == |Flatten(parts)|
      {
        if (m.generation, i) !in chunks { return None; }
        var part := chunks[(m.generation, i)];
        assert (parts + [part])[..i] == parts;
        parts := parts + [part];
        total := total + |part|;
      }
      if total != m.byteLength || total > MAX_DOCUMENT_BYTES { return None; }
      var joined := Concatenate(parts, total);
      return if digest(joined[..]) == m.checksum then Some(joined[..]) else None;
    }

    method Read(digest: Bytes -> string) returns (snapshot: Option<Snapshot>)
      ensures snapshot == ReadSnapshot(digest, Contents())
    {
      var update := ReadParts(digest, current);
      if update.Some? { return Some(Snapshot(update.value, FromCurrent)); }
      update := ReadParts(digest, previous);
      if update.Some? { return Some(Snapshot(update.value, FromPrevious)); }
      var legacy := ReadLegacy(Contents());
      return if legacy.Some? then Some(Snapshot(legacy.value, FromLegacy)) else None;
    }
  }

  /** Copies the parts one after another into one buffer. */
  method Concatenate(parts: seq<Bytes>, total: nat) returns (update: array<byte>)
    requires total == |Flatten(parts)|
    ensures fresh(update) && update[..] == Flatten(parts)
  {
    update := new byte[total];
    var offset := 0;
    for i := 0 to |parts|
      invariant offset == |Flatten(parts[..i])| <= total
      invariant update[..offset] == Flatten(parts[..i])
    {
      var part := parts[i];
      assert parts[..i + 1][..i] == parts[..i];
      FlattenShorter(parts, i + 1);
      ghost var done := update[..offset];
      for j := 0 to |part|
        invariant update[..offset] == done && update[offset..offset + j] == part[..j]
      {
        update[offset + j] := part[j];
      }
      assert part[..|part|] == part;
      assert update[..offset + |part|] == update[..offset] + update[offset..offset + |part|];
      offset := offset + |part|;
    }
    assert parts[..|parts|] == parts;
    assert update[..offset] == update[..];
  }

  lemma {:induction false} FlattenShorter(parts: seq<Bytes>, k: nat)
    requires k <= |parts|
    ensures |Flatten(parts[..k])| <= |Flatten(parts)|
    decreases |parts| - k
  {
    if k < |parts| {
      FlattenShorter(parts, k + 1);
      assert parts[..k + 1][..k] == parts[..k];
    } else {
      assert parts[..k] == parts;
    }
  }
}
