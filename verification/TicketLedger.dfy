/**
 * Single-use tickets in one room: the expiry check of ticket.ts lines 214-217, claimTicketID in room-policy.ts
 * lines 73-82, and entering, burning, sweeping and purging in document-room.ts lines 120-190, 500-508 and 560-584.
 */
module TicketLedger {
  import opened OrderedStrings

  const RETENTION_MS := 5 * 60 * 1000

  // ----------------------------------------------------------- the storage

  function Claimed(records: map<string, int>, jti: string, now: int): map<string, int> {
    if jti in records then records else records[jti := now]
  }

  /** The listed identities whose record is past retention. */
  function StaleAmong(records: map<string, int>, listed: set<string>, now: int): set<string> {
    set k | k in listed && k in records && now - records[k] > RETENTION_MS
  }

  class TicketRecords {
    var records: map<string, int>

    constructor ()
      ensures records == map[]
    {
      records := map[];
    }

    /** False on a replay; otherwise the identity is recorded with the time. */
    method Claim(jti: string, storedAt: int) returns (first: bool)
      modifies this
      ensures first <==> jti !in old(records)
      ensures records == Claimed(old(records), jti, storedAt)
      ensures forall k :: k in records <==> k in old(records) || k == jti
      ensures forall k | k in records :: records[k] == if k in old(records) then old(records)[k] else storedAt
    {
      if jti in records { return false; }
      records := records[jti := storedAt];
      return true;
    }

    /** Collects what is past retention among the identities listed, then deletes it. */
    method Sweep(listed: seq<string>, now: int)
      modifies this
      ensures records == old(records) - StaleAmong(old(records), Elements(listed), now)
      ensures forall k ::
        k in records <==> k in old(records) && (k in listed ==> now - old(records)[k] <= 300_000)
      ensures forall k | k in records :: records[k] == old(records)[k]
    {
      var stale: set<string> := {};
      for i := 0 to |listed|
        invariant records == old(records)
        invariant stale == StaleAmong(records, Elements(listed[..i]), now)
      {
        assert Elements(listed[..i + 1]) == Elements(listed[..i]) + {listed[i]} by {
          assert listed[..i + 1] == listed[..i] + [listed[i]];
        }
        if listed[i] in records && now - records[listed[i]] > RETENTION_MS { stale := stale + {listed[i]}; }
      }
      assert listed[..|listed|] == listed;
      records := records - stale;
    }

    method Purge()
      modifies this
      ensures records == map[]
    {
      records := map[];
    }
  }

  // --------------------------------------------------------------- the room

  /** How far a request has got; the times are milliseconds. */
  datatype Phase = Entered | Verified(at: int) | Burned(at: int) | Sweeping(at: int, stale: set<string>) | Replayed

  datatype Handler = Handler(jti: string, phase: Phase)

  datatype Room = Room(records: map<string, int>, purged: bool, clock: int, handlers: seq<Handler>)

  function Opened(clock: int): Room {
    Room(map[], false, clock, [])
  }

  /** Expiry of each ticket in seconds, its longest lifetime and the longest wait from its check to its claim. */
  datatype Terms = Terms(exp: string -> int, lifetime: int, delay: int)

  /** The expiry check against the clock rounded down to seconds. */
  predicate NotExpired(exp: int, now: int) {
    exp > now / 1000
  }

  datatype Event =
    | Enter(jti: string)
    | Verify(h: nat, now: int)
    | Burn(h: nat, now: int)
    | List(h: nat, listed: set<string>)
    | Delete(h: nat)
    | Purge

  /** A burned identity counts once for each request that claimed it. */
  predicate HoldsClaim(h: Handler) {
    h.phase.Burned? || h.phase.Sweeping?
  }

  /**
   * The clock never goes back; a ticket is checked while it lives and claimed no later than the delay after.
   * The claim is one step, as storage is serialized per room; a sweep lists and deletes in two.
   */
  predicate Enabled(t: Terms, r: Room, e: Event) {
    match e
    case Enter(_) => !r.purged
    case Verify(h, now) =>
      && now >= r.clock && h < |r.handlers| && r.handlers[h].phase.Entered?
      && NotExpired(t.exp(r.handlers[h].jti), now) && now >= t.exp(r.handlers[h].jti) * 1000 - t.lifetime
    case Burn(h, now) =>
      && now >= r.clock && h < |r.handlers| && r.handlers[h].phase.Verified? && now - r.handlers[h].phase.at <= t.delay
    case List(h, listed) => h < |r.handlers| && r.handlers[h].phase.Burned? && listed <= r.records.Keys
    case Delete(h) => h < |r.handlers| && r.handlers[h].phase.Sweeping?
    case Purge => true
  }

  function Moved(r: Room, h: nat, phase: Phase): Room requires h < |r.handlers| {
    r.(handlers := r.handlers[h := Handler(r.handlers[h].jti, phase)])
  }

  function Next(t: Terms, r: Room, e: Event): Room requires Enabled(t, r, e) {
    match e
    case Enter(jti) => r.(handlers := r.handlers + [Handler(jti, Entered)])
    case Verify(h, now) => Moved(r, h, Verified(now)).(clock := now)
    case Burn(h, now) =>
      var jti := r.handlers[h].jti;
      Moved(r, h, if jti in r.records then Replayed else Burned(now)).(clock := now,
                                                                       records := Claimed(r.records, jti, now))
    case List(h, listed) =>
      var at := r.handlers[h].phase.at;
      Moved(r, h, Sweeping(at, StaleAmong(r.records, listed, at)))
    case Delete(h) => Moved(r, h, Burned(r.handlers[h].phase.at)).(records := r.records - r.handlers[h].phase.stale)
    case Purge => r.(records := map[], purged := true)
  }

  ghost predicate Run(t: Terms, run: seq<Room>, events: seq<Event>) {
    && |run| == |events| + 1 && run[0] == Opened(run[0].clock)
    && forall i | 0 <= i < |events| :: Enabled(t, run[i], events[i]) && run[i + 1] == Next(t, run[i], events[i])
  }

  /** No identity has been claimed by two requests. */
  ghost predicate SingleUse(r: Room) {
    forall g, h | 0 <= g < h < |r.handlers| && HoldsClaim(r.handlers[g]) && HoldsClaim(r.handlers[h]) ::
      r.handlers[g].jti != r.handlers[h].jti
  }

  /** The request can still come to claim its ticket: it is unexpired, or was checked recently enough. */
  predicate CanClaim(t: Terms, clock: int, h: Handler) {
    match h.phase
    case Entered => clock < t.exp(h.jti) * 1000
    case Verified(at) => clock - at <= t.delay
    case _ => false
  }

  /** No request in flight can still claim a ticket that was claimed already. */
  predicate PurgeSafe(t: Terms, r: Room) {
    forall g, h | 0 <= g < |r.handlers| && 0 <= h < |r.handlers| && HoldsClaim(r.handlers[g]) &&
      CanClaim(t, r.clock, r.handlers[h]) ::
      r.handlers[g].jti != r.handlers[h].jti
  }

  ghost predicate SafePurges(t: Terms, run: seq<Room>, events: seq<Event>)
    requires |run| == |events| + 1
  {
    forall i | 0 <= i < |events| && events[i].Purge? :: PurgeSafe(t, run[i])
  }

  // -------------------------------------------------------------- invariant

  /** After a purge nobody is left who could claim this identity. */
  ghost predicate Retired(t: Terms, r: Room, jti: string) {
    r.purged && forall g | 0 <= g < |r.handlers| && r.handlers[g].jti == jti :: !CanClaim(t, r.clock, r.handlers[g])
  }

  /** A claim is still recorded, or retention has run out and it may have been swept, or nobody can repeat it. */
  ghost predicate ClaimKept(t: Terms, r: Room, h: Handler) requires HoldsClaim(h) {
    && (h.jti in r.records || r.clock > h.phase.at + RETENTION_MS || Retired(t, r, h.jti))
    && t.exp(h.jti) * 1000 - t.lifetime <= h.phase.at <= r.clock
  }

  ghost predicate ChecksOk(t: Terms, r: Room, h: Handler) {
    && (h.phase.Verified? ==>
          t.exp(h.jti) * 1000 - t.lifetime <= h.phase.at < t.exp(h.jti) * 1000 && h.phase.at <= r.clock)
    && (HoldsClaim(h) ==> ClaimKept(t, r, h))
    && (h.phase.Sweeping? ==> forall k | k in h.phase.stale :: PastRetention(r, k))
  }

  ghost predicate ClaimedAt(r: Room, k: string, at: int) {
    exists g :: 0 <= g < |r.handlers| && HoldsClaim(r.handlers[g]) && r.handlers[g].jti == k &&
      r.handlers[g].phase.at == at
  }

  /** A claim of this identity is older than retention. */
  ghost predicate PastRetention(r: Room, k: string) {
    exists g :: 0 <= g < |r.handlers| && HoldsClaim(r.handlers[g]) && r.handlers[g].jti == k &&
      r.clock > r.handlers[g].phase.at + RETENTION_MS
  }

  ghost predicate Inv(t: Terms, r: Room) {
    && SingleUse(r)
    && (forall h | 0 <= h < |r.handlers| :: ChecksOk(t, r, r.handlers[h]))
    && (forall k | k in r.records :: ClaimedAt(r, k, r.records[k]))
  }

  /** Claims that stay where they are stay what they are when the clock moves on. */
  ghost predicate ClaimsStay(r: Room, r': Room) {
    && r.clock <= r'.clock && |r.handlers| <= |r'.handlers|
    && forall g | 0 <= g < |r.handlers| && HoldsClaim(r.handlers[g]) ::
         HoldsClaim(r'.handlers[g]) && r'.handlers[g].jti == r.handlers[g].jti &&
           r'.handlers[g].phase.at == r.handlers[g].phase.at
  }

  lemma ClaimsStayClaims(r: Room, r': Room, k: string)
    requires ClaimsStay(r, r')
    ensures PastRetention(r, k) ==> PastRetention(r', k)
    ensures k in r.records && ClaimedAt(r, k, r.records[k]) ==> ClaimedAt(r', k, r.records[k])
  {
    if PastRetention(r, k) {
      var g :| 0 <= g < |r.handlers| && HoldsClaim(r.handlers[g]) && r.handlers[g].jti == k &&
        r.clock > r.handlers[g].phase.at + RETENTION_MS;
      assert HoldsClaim(r'.handlers[g]);
    }
    if k in r.records && ClaimedAt(r, k, r.records[k]) {
      var g :| 0 <= g < |r.handlers| && HoldsClaim(r.handlers[g]) && r.handlers[g].jti == k &&
        r.handlers[g].phase.at == r.records[k];
      assert HoldsClaim(r'.handlers[g]);
    }
  }

  /** A request that can no longer claim never moves on, and nobody enters after a purge. */
  lemma RetiredStays(t: Terms, r: Room, e: Event, jti: string)
    requires Enabled(t, r, e) && Retired(t, r, jti)
    ensures Retired(t, Next(t, r, e), jti)
  {
    var r' := Next(t, r, e);
    forall g | 0 <= g < |r'.handlers| && r'.handlers[g].jti == jti ensures !CanClaim(t, r'.clock, r'.handlers[g]) {
      assert r.handlers[g].jti == jti && !CanClaim(t, r.clock, r.handlers[g]);
    }
  }

  /** What a handler needs survives any step that keeps its own phase and the records. */
  lemma ChecksStay(t: Terms, r: Room, r': Room, h: Handler)
    requires ClaimsStay(r, r') && ChecksOk(t, r, h)
    requires h.jti in r.records ==> h.jti in r'.records || (HoldsClaim(h) && r'.clock > h.phase.at + RETENTION_MS)
    requires Retired(t, r, h.jti) ==> Retired(t, r', h.jti)
    ensures ChecksOk(t, r', h)
  {
    if h.phase.Sweeping? {
      forall k | k in h.phase.stale ensures PastRetention(r', k) { ClaimsStayClaims(r, r', k); }
    }
  }

  lemma EnterInv(t: Terms, r: Room, jti: string)
    requires Inv(t, r) && Enabled(t, r, Enter(jti))
    ensures Inv(t, Next(t, r, Enter(jti)))
  {
    var r' := Next(t, r, Enter(jti));
    hide ChecksOk, ClaimedAt, Next;
    assert r' == r.(handlers := r.handlers + [Handler(jti, Entered)]) by { Entering(t, r, jti); }
    forall h | 0 <= h < |r'.handlers| ensures ChecksOk(t, r', r'.handlers[h]) {
      if h < |r.handlers| { ChecksStay(t, r, r', r.handlers[h]); } else { Newcomer(t, r', jti); }
    }
    forall k | k in r'.records ensures ClaimedAt(r', k, r'.records[k]) { ClaimsStayClaims(r, r', k); }
  }

  lemma Entering(t: Terms, r: Room, jti: string)
    requires Enabled(t, r, Enter(jti))
    ensures Next(t, r, Enter(jti)) == r.(handlers := r.handlers + [Handler(jti, Entered)])
  {
  }

  lemma Newcomer(t: Terms, r: Room, jti: string)
    ensures ChecksOk(t, r, Handler(jti, Entered))
  {
  }

  lemma VerifyInv(t: Terms, r: Room, h: nat, now: int)
    requires Inv(t, r) && Enabled(t, r, Verify(h, now))
    ensures Inv(t, Next(t, r, Verify(h, now)))
  {
    forall k: string | Retired(t, r, k) ensures Retired(t, Next(t, r, Verify(h, now)), k) {
      RetiredStays(t, r, Verify(h, now), k);
    }
    var r' := Next(t, r, Verify(h, now));
    forall g | 0 <= g < |r'.handlers| ensures ChecksOk(t, r', r'.handlers[g]) {
      if g != h { ChecksStay(t, r, r', r.handlers[g]); }
    }
    forall k | k in r'.records ensures ClaimedAt(r', k, r'.records[k]) { ClaimsStayClaims(r, r', k); }
  }

  /** Within the terms a ticket that is already claimed is still recorded when it is presented again. */
  lemma StillRecorded(t: Terms, r: Room, h: nat, now: int, g: nat)
    requires t.lifetime + t.delay <= RETENTION_MS + 1
    requires Inv(t, r) && Enabled(t, r, Burn(h, now)) && g < |r.handlers| && HoldsClaim(r.handlers[g])
    requires r.handlers[g].jti == r.handlers[h].jti
    ensures r.handlers[h].jti in r.records
  {
    assert ChecksOk(t, r, r.handlers[g]) && ChecksOk(t, r, r.handlers[h]);
  }

  lemma BurnInv(t: Terms, r: Room, h: nat, now: int)
    requires t.lifetime + t.delay <= RETENTION_MS + 1
    requires Inv(t, r) && Enabled(t, r, Burn(h, now))
    ensures Inv(t, Next(t, r, Burn(h, now)))
  {
    forall k: string | Retired(t, r, k) ensures Retired(t, Next(t, r, Burn(h, now)), k) {
      RetiredStays(t, r, Burn(h, now), k);
    }
    var r' := Next(t, r, Burn(h, now));
    var jti := r.handlers[h].jti;
    assert ChecksOk(t, r, r.handlers[h]);
    forall g | 0 <= g < |r'.handlers| ensures ChecksOk(t, r', r'.handlers[g]) {
      if g != h { ChecksStay(t, r, r', r.handlers[g]); }
    }
    if jti !in r.records {
      forall g | 0 <= g < |r.handlers| && HoldsClaim(r.handlers[g]) ensures r.handlers[g].jti != jti {
        if r.handlers[g].jti == jti { StillRecorded(t, r, h, now, g); }
      }
      assert r'.handlers[h] == Handler(jti, Burned(now));
      assert ClaimedAt(r', jti, now);
    }
    forall k | k in r'.records ensures ClaimedAt(r', k, r'.records[k]) {
      if k in r.records { ClaimsStayClaims(r, r', k); }
    }
  }

  lemma ListInv(t: Terms, r: Room, h: nat, listed: set<string>)
    requires Inv(t, r) && Enabled(t, r, List(h, listed))
    ensures Inv(t, Next(t, r, List(h, listed)))
  {
    forall k: string | Retired(t, r, k) ensures Retired(t, Next(t, r, List(h, listed)), k) {
      RetiredStays(t, r, List(h, listed), k);
    }
    var r' := Next(t, r, List(h, listed));
    assert ChecksOk(t, r, r.handlers[h]);
    forall k | k in r'.handlers[h].phase.stale ensures PastRetention(r', k) {
      assert ClaimedAt(r, k, r.records[k]);
      ClaimsStayClaims(r, r', k);
    }
    forall g | 0 <= g < |r'.handlers| ensures ChecksOk(t, r', r'.handlers[g]) {
      if g != h { ChecksStay(t, r, r', r.handlers[g]); }
    }
    forall k | k in r'.records ensures ClaimedAt(r', k, r'.records[k]) { ClaimsStayClaims(r, r', k); }
  }

  /** A swept identity's claim is past retention, whoever made it. */
  lemma SweptIsOld(t: Terms, r: Room, h: nat, g: nat)
    requires Inv(t, r) && h < |r.handlers| && r.handlers[h].phase.Sweeping?
    requires g < |r.handlers| && HoldsClaim(r.handlers[g]) && r.handlers[g].jti in r.handlers[h].phase.stale
    ensures r.clock > r.handlers[g].phase.at + RETENTION_MS
  {
    assert ChecksOk(t, r, r.handlers[h]);
    assert PastRetention(r, r.handlers[g].jti);
  }

  lemma DeleteInv(t: Terms, r: Room, h: nat)
    requires Inv(t, r) && Enabled(t, r, Delete(h))
    ensures Inv(t, Next(t, r, Delete(h)))
  {
    forall k: string | Retired(t, r, k) ensures Retired(t, Next(t, r, Delete(h)), k) {
      RetiredStays(t, r, Delete(h), k);
    }
    var r' := Next(t, r, Delete(h));
    var stale := r.handlers[h].phase.stale;
    forall g | 0 <= g < |r'.handlers| ensures ChecksOk(t, r', r'.handlers[g]) {
      assert ChecksOk(t, r, r.handlers[g]);
      if HoldsClaim(r.handlers[g]) && r.handlers[g].jti in stale { SweptIsOld(t, r, h, g); }
      if g != h { KeptOrNoClaim(t, r, r', g); }
    }
    forall k | k in r'.records ensures ClaimedAt(r', k, r'.records[k]) { ClaimsStayClaims(r, r', k); }
  }

  lemma KeptOrNoClaim(t: Terms, r: Room, r': Room, g: nat)
    requires ClaimsStay(r, r') && g < |r.handlers| && ChecksOk(t, r, r.handlers[g])
    requires HoldsClaim(r.handlers[g]) && r.handlers[g].jti in r.records ==>
      r.handlers[g].jti in r'.records || r'.clock > r.handlers[g].phase.at + RETENTION_MS
    requires Retired(t, r, r.handlers[g].jti) ==> Retired(t, r', r.handlers[g].jti)
    ensures ChecksOk(t, r', r.handlers[g])
  {
    var h := r.handlers[g];
    if h.phase.Sweeping? {
      forall k | k in h.phase.stale ensures PastRetention(r', k) { ClaimsStayClaims(r, r', k); }
    }
  }

  /** A purge at a safe moment leaves every claim unrepeatable. */
  lemma PurgeInv(t: Terms, r: Room)
    requires Inv(t, r) && PurgeSafe(t, r)
    ensures Inv(t, Next(t, r, Purge))
  {
    var r' := Next(t, r, Purge);
    forall h | 0 <= h < |r'.handlers| ensures ChecksOk(t, r', r'.handlers[h]) {
      assert ChecksOk(t, r, r.handlers[h]);
      if HoldsClaim(r.handlers[h]) { assert Retired(t, r', r.handlers[h].jti); }
      if r.handlers[h].phase.Sweeping? {
        forall k | k in r.handlers[h].phase.stale ensures PastRetention(r', k) { ClaimsStayClaims(r, r', k); }
      }
    }
  }

  lemma NextInv(t: Terms, r: Room, e: Event)
    requires t.lifetime + t.delay <= RETENTION_MS + 1
    requires Inv(t, r) && Enabled(t, r, e) && (e.Purge? ==> PurgeSafe(t, r))
    ensures Inv(t, Next(t, r, e))
  {
    hide Inv;
    match e
    case Enter(jti) => EnterInv(t, r, jti);
    case Verify(h, now) => VerifyInv(t, r, h, now);
    case Burn(h, now) => BurnInv(t, r, h, now);
    case List(h, listed) => ListInv(t, r, h, listed);
    case Delete(h) => DeleteInv(t, r, h);
    case Purge => PurgeInv(t, r);
  }

  lemma OpenedInv(t: Terms, clock: int)
    ensures Inv(t, Opened(clock))
  {
  }

  lemma {:induction false} RunInv(t: Terms, run: seq<Room>, events: seq<Event>, k: nat)
    requires t.lifetime + t.delay <= RETENTION_MS + 1
    requires Run(t, run, events) && SafePurges(t, run, events) && k < |run|
    ensures Inv(t, run[k])
  {
    hide Inv, Next, Enabled, PurgeSafe;
    if k == 0 {
      OpenedInv(t, run[0].clock);
    } else {
      RunInv(t, run, events, k - 1);
      NextInv(t, run[k - 1], events[k - 1]);
    }
  }

  // ------------------------------------------------------------ main results

  ghost predicate AlwaysSingleUse(lifetime: int, delay: int) {
    forall t: Terms, run: seq<Room>, events: seq<Event>, k: nat |
      t.lifetime == lifetime && t.delay == delay && Run(t, run, events) && SafePurges(t, run, events) && k < |run| ::
      SingleUse(run[k])
  }

  lemma Extend(t: Terms, run: seq<Room>, events: seq<Event>, e: Event, r: Room)
    requires Run(t, run, events) && Enabled(t, run[|run| - 1], e) && r == Next(t, run[|run| - 1], e)
    ensures Run(t, run + [r], events + [e])
  {
    hide Enabled, Next;
    var run', events' := run + [r], events + [e];
    forall i | 0 <= i < |events'| ensures Enabled(t, run'[i], events'[i]) &&
      run'[i + 1] == Next(t, run'[i], events'[i]) {
      if i < |events| { assert Enabled(t, run[i], events[i]) && run[i + 1] == Next(t, run[i], events[i]); }
    }
  }

  /** Every ticket here expires at zero. */
  function TightTerms(lifetime: int, delay: int): Terms {
    Terms(_ => 0, lifetime, delay)
  }

  lemma CheckedLate(t: Terms, first: int, check: int) returns (run: seq<Room>, events: seq<Event>)
    requires t == TightTerms(-first, t.delay) && t.delay >= 0 && first <= check <= -1
    ensures |run| > 0 && Run(t, run, events) && Purge !in events
    ensures run[|run| - 1] ==
      Room(map["a" := first], false, check,
           [Handler("a", Burned(first)), Handler("a", Verified(check)), Handler("b", Verified(check))])
  {
    hide Run;
    run, events := Beginning(t, first);
    run, events := ExtendBy(t, run, events, Enter("a"), Room(map[], false, first, [Handler("a", Entered)]));
    run, events := ExtendBy(t, run, events, Verify(0, first),
                            Room(map[], false, first, [Handler("a", Verified(first))]));
    run, events := ExtendBy(t, run, events, Burn(0, first),
                            Room(map["a" := first], false, first, [Handler("a", Burned(first))]));
    run, events := ExtendBy(t, run, events, Enter("a"),
      Room(map["a" := first], false, first, [Handler("a", Burned(first)), Handler("a", Entered)]));
    run, events := ExtendBy(t, run, events, Enter("b"),
      Room(map["a" := first], false, first,
           [Handler("a", Burned(first)), Handler("a", Entered), Handler("b", Entered)]));
    run, events := ExtendBy(t, run, events, Verify(1, check),
      Room(map["a" := first], false, check,
           [Handler("a", Burned(first)), Handler("a", Verified(check)), Handler("b", Entered)]));
    run, events := ExtendBy(t, run, events, Verify(2, check),
      Room(map["a" := first], false, check,
           [Handler("a", Burned(first)), Handler("a", Verified(check)), Handler("b", Verified(check))]));
  }

  /**
   * Past the bound: a ticket is claimed as soon as it is minted; two more requests, one for the same ticket,
   * pass the check as late as they can, and the other's claim sweeps the first record before the last claim.
   */
  lemma ClaimedTwice(lifetime: int, delay: int) returns (t: Terms, run: seq<Room>, events: seq<Event>)
    requires lifetime >= 1 && delay >= 0 && lifetime + delay > RETENTION_MS + 1
    ensures t.lifetime == lifetime && t.delay == delay
    ensures |run| > 0 && Run(t, run, events) && SafePurges(t, run, events) && !SingleUse(run[|run| - 1])
  {
    hide Run;
    t := TightTerms(lifetime, delay);
    var first := -lifetime;
    var late := first + RETENTION_MS + 1;
    var check := if late < -1 then late else -1;
    run, events := CheckedLate(t, first, check);
    run, events := ExtendBy(t, run, events, Burn(2, late),
      Room(map["a" := first, "b" := late], false, late,
           [Handler("a", Burned(first)), Handler("a", Verified(check)), Handler("b", Burned(late))]));
    assert StaleAmong(map["a" := first, "b" := late], {"a"}, late) == {"a"};
    run, events := ExtendBy(t, run, events, List(2, {"a"}),
      Room(map["a" := first, "b" := late], false, late,
           [Handler("a", Burned(first)), Handler("a", Verified(check)), Handler("b", Sweeping(late, {"a"}))]));
    run, events := ExtendBy(t, run, events, Delete(2),
      Room(map["b" := late], false, late,
           [Handler("a", Burned(first)), Handler("a", Verified(check)), Handler("b", Burned(late))]));
    run, events := ExtendBy(t, run, events, Burn(1, late),
      Room(map["b" := late, "a" := late], false, late,
           [Handler("a", Burned(first)), Handler("a", Burned(late)), Handler("b", Burned(late))]));
    var end := run[|run| - 1];
    assert HoldsClaim(end.handlers[0]) && HoldsClaim(end.handlers[1]) && end.handlers[0].jti == end.handlers[1].jti;
    NoPurges(t, run, events);
  }

  lemma NoPurges(t: Terms, run: seq<Room>, events: seq<Event>)
    requires Run(t, run, events) && Purge !in events
    ensures |run| == |events| + 1 && SafePurges(t, run, events)
  {
    forall i | 0 <= i < |events| ensures !events[i].Purge? { assert events[i] in events; }
  }

  lemma Beginning(t: Terms, clock: int) returns (run: seq<Room>, events: seq<Event>)
    ensures |run| > 0 && Run(t, run, events) && run[|run| - 1] == Opened(clock) && events == []
  {
    run, events := [Opened(clock)], [];
  }

  lemma ExtendBy(t: Terms, run: seq<Room>, events: seq<Event>, e: Event, r: Room)
    returns (run': seq<Room>, events': seq<Event>)
    requires |run| > 0 && Run(t, run, events) && Enabled(t, run[|run| - 1], e) && r == Next(t, run[|run| - 1], e)
    ensures |run'| > 0 && Run(t, run', events') && run'[|run'| - 1] == r
    ensures Purge in events' <==> Purge in events || e.Purge?
  {
    Extend(t, run, events, e, r);
    run', events' := run + [r], events + [e];
  }

  /**
   * While purges come when nobody can repeat a claim, a ticket is claimed at most once, whatever is swept,
   * exactly when its lifetime and the delay fit retention.
   */
  lemma SingleUseIffRetained(lifetime: int, delay: int)
    requires lifetime >= 1 && delay >= 0
    ensures AlwaysSingleUse(lifetime, delay) <==> lifetime + delay <= RETENTION_MS + 1
  {
    if lifetime + delay <= RETENTION_MS + 1 {
      forall t: Terms, run: seq<Room>, events: seq<Event>, k: nat
        | t.lifetime == lifetime && t.delay == delay && Run(t, run, events) && SafePurges(t, run, events) && k < |run|
        ensures SingleUse(run[k])
      {
        RunInv(t, run, events, k);
      }
    } else {
      var t, run, events := ClaimedTwice(lifetime, delay);
      var k: nat := |run| - 1;
      assert Run(t, run, events) && SafePurges(t, run, events) && !SingleUse(run[k]);
    }
  }

  /** This run goes on with a purge, and purges only safely after it. */
  ghost predicate PurgedNow(t: Terms, run: seq<Room>, events: seq<Event>, run': seq<Room>, events': seq<Event>) {
    && |run| == |events| + 1 <= |events'| && |run'| == |events'| + 1 && Run(t, run', events')
    && run'[..|run|] == run && events'[..|events|] == events && events'[|events|] == Purge
    && forall i | |events| < i < |events'| && events'[i].Purge? :: PurgeSafe(t, run'[i])
  }

  /**
   * At any moment of a run whose purges were safe, a purge keeps every ticket single use from then on exactly
   * when no request in flight can still claim a ticket that was claimed already.
   */
  lemma PurgeSafeIff(t: Terms, run: seq<Room>, events: seq<Event>)
    requires t.lifetime >= 1 && t.delay >= 0 && t.lifetime + t.delay <= RETENTION_MS + 1
    requires |run| == |events| + 1 && Run(t, run, events) && SafePurges(t, run, events)
    ensures
      (forall run': seq<Room>, events': seq<Event>, k: nat | PurgedNow(t, run, events, run', events') && k < |run'| ::
       SingleUse(run'[k]))
      <==> PurgeSafe(t, run[|run| - 1])
  {
    if PurgeSafe(t, run[|run| - 1]) {
      forall run': seq<Room>, events': seq<Event>, k: nat | PurgedNow(t, run, events, run', events') && k < |run'|
        ensures SingleUse(run'[k])
      {
        StillSafe(t, run, events, run', events');
        RunInv(t, run', events', k);
      }
    } else {
      var run', events' := Reclaimed(t, run, events);
      var k: nat := |run'| - 1;
      assert PurgedNow(t, run, events, run', events') && !SingleUse(run'[k]);
    }
  }

  lemma StillSafe(t: Terms, run: seq<Room>, events: seq<Event>, run': seq<Room>, events': seq<Event>)
    requires PurgedNow(t, run, events, run', events') && SafePurges(t, run, events) && PurgeSafe(t, run[|run| - 1])
    ensures SafePurges(t, run', events')
  {
    hide PurgeSafe, Run;
    forall i | 0 <= i < |events'| && events'[i].Purge? ensures PurgeSafe(t, run'[i]) {
      if i <= |events| { assert run'[i] == run'[..|run|][i]; }
      if i < |events| { assert events'[i] == events'[..|events|][i]; }
    }
  }

  /** After an unsafe purge the request in flight goes on, is checked if it still must be, and claims again. */
  lemma Reclaimed(t: Terms, run: seq<Room>, events: seq<Event>) returns (run': seq<Room>, events': seq<Event>)
    requires t.lifetime >= 1 && t.delay >= 0 && |run| == |events| + 1 && Run(t, run, events)
    requires !PurgeSafe(t, run[|run| - 1])
    ensures |run'| > 0 && PurgedNow(t, run, events, run', events') && !SingleUse(run'[|run'| - 1])
  {
    hide Run, Next, Enabled, SingleUse;
    var r := run[|run| - 1];
    var g, h := UnsafePair(t, r);
    var r1 := r.(records := map[], purged := true);
    Purging(t, r);
    Extend(t, run, events, Purge, r1);
    var end, more := ClaimsAgain(t, r1, g, h);
    if |more| == 2 {
      var r2 := Next(t, r1, more[0]);
      Extend(t, run + [r1], events + [Purge], more[0], r2);
      Extend(t, run + [r1] + [r2], events + [Purge] + [more[0]], more[1], end);
      run', events' := run + [r1] + [r2] + [end], events + [Purge] + [more[0]] + [more[1]];
    } else {
      Extend(t, run + [r1], events + [Purge], more[0], end);
      run', events' := run + [r1] + [end], events + [Purge] + [more[0]];
    }
    assert run'[..|run|] == run && events'[..|events|] == events;
  }

  lemma UnsafePair(t: Terms, r: Room) returns (g: nat, h: nat)
    requires !PurgeSafe(t, r)
    ensures g < |r.handlers| && h < |r.handlers| && HoldsClaim(r.handlers[g]) && CanClaim(t, r.clock, r.handlers[h])
    ensures r.handlers[g].jti == r.handlers[h].jti
  {
    g, h :| 0 <= g < |r.handlers| && 0 <= h < |r.handlers| && HoldsClaim(r.handlers[g]) &&
      CanClaim(t, r.clock, r.handlers[h])
      && r.handlers[g].jti == r.handlers[h].jti;
  }

  lemma Purging(t: Terms, r: Room)
    ensures Enabled(t, r, Purge) && Next(t, r, Purge) == r.(records := map[], purged := true)
  {
  }

  /** With the record gone, one or two steps of the request make the second claim. */
  lemma ClaimsAgain(t: Terms, r: Room, g: nat, h: nat) returns (end: Room, more: seq<Event>)
    requires t.lifetime >= 1 && t.delay >= 0 && r.records == map[]
    requires g < |r.handlers| && h < |r.handlers| && HoldsClaim(r.handlers[g]) && CanClaim(t, r.clock, r.handlers[h])
    requires r.handlers[g].jti == r.handlers[h].jti
    ensures !SingleUse(end) && 1 <= |more| <= 2 && forall i | 0 <= i < |more| :: !more[i].Purge?
    ensures Enabled(t, r, more[0])
    ensures |more| == 1 ==> end == Next(t, r, more[0])
    ensures |more| == 2 ==> Enabled(t, Next(t, r, more[0]), more[1]) && end == Next(t, Next(t, r, more[0]), more[1])
  {
    var now := r.clock;
    if r.handlers[h].phase.Entered? {
      var exp := t.exp(r.handlers[h].jti);
      now := if now >= exp * 1000 - t.lifetime then now else exp * 1000 - t.lifetime;
      var r2 := Next(t, r, Verify(h, now));
      more := [Verify(h, now), Burn(h, now)];
      end := Next(t, r2, Burn(h, now));
    } else {
      more := [Burn(h, now)];
      end := Next(t, r, Burn(h, now));
    }
    assert HoldsClaim(end.handlers[g]) && HoldsClaim(end.handlers[h]) && g != h &&
      end.handlers[g].jti == end.handlers[h].jti;
  }

  /** Once purged a room stays purged and lets no request in. */
  lemma {:induction false} NoneEntersAfterPurge(t: Terms, run: seq<Room>, events: seq<Event>, i: nat, k: nat)
    requires Run(t, run, events) && i <= k < |run| && run[i].purged
    ensures run[k].purged && |run[k].handlers| == |run[i].handlers|
  {
    if i < k {
      NoneEntersAfterPurge(t, run, events, i, k - 1);
      assert Enabled(t, run[k - 1], events[k - 1]);
    }
  }

  /** A request let in before a purge can claim a ticket again after it. */
  lemma PurgeForgetsClaims(t: Terms, now: int)
    requires t.delay >= 0 && NotExpired(t.exp("a"), now) && now >= t.exp("a") * 1000 - t.lifetime
    ensures exists run: seq<Room>, events: seq<Event> :: |run| > 0 && Run(t, run, events) && !SingleUse(run[|run| - 1])
  {
    hide Run;
    var run, events := Beginning(t, now);
    run, events := ExtendBy(t, run, events, Enter("a"), Room(map[], false, now, [Handler("a", Entered)]));
    run, events := ExtendBy(t, run, events, Enter("a"),
                            Room(map[], false, now, [Handler("a", Entered), Handler("a", Entered)]));
    run, events := ExtendBy(t, run, events, Verify(0, now),
                            Room(map[], false, now, [Handler("a", Verified(now)), Handler("a", Entered)]));
    run, events := ExtendBy(t, run, events, Verify(1, now),
      Room(map[], false, now, [Handler("a", Verified(now)), Handler("a", Verified(now))]));
    run, events := ExtendBy(t, run, events, Burn(0, now),
      Room(map["a" := now], false, now, [Handler("a", Burned(now)), Handler("a", Verified(now))]));
    run, events := ExtendBy(t, run, events, Purge,
                            Room(map[], true, now, [Handler("a", Burned(now)), Handler("a", Verified(now))]));
    var end := Room(map["a" := now], true, now, [Handler("a", Burned(now)), Handler("a", Burned(now))]);
    run, events := ExtendBy(t, run, events, Burn(1, now), end);
    assert HoldsClaim(end.handlers[0]) && HoldsClaim(end.handlers[1]) && end.handlers[0].jti == end.handlers[1].jti;
    assert |run| > 0 && Run(t, run, events) && !SingleUse(run[|run| - 1]);
  }
}
