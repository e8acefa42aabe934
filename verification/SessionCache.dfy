/**
 * The in-memory cache of agent sessions: lookups that race to load, holders, cleanup and Forget. Models
 * acquireEntry and cleanupLocked (store_acquire_entry.go lines 10-53 and 81-98) and creation, release and
 * Forget (store_errors.go lines 108-130, 191-195 and 227-241).
 */
module SessionCache {
  import opened OrderedStrings

  // -------------------------------------------------------------- the store

  /** The map of cached entries, and for every entry ever made how many users it counts. */
  datatype Store<E> = Store(sessions: map<string, E>, active: map<E, int>)

  /** Expired entries that nobody uses and whose lock is free leave the map. */
  function Cleaned<E>(s: Store<E>, expired: set<string>): Store<E> {
    s.(sessions := map id | id in s.sessions && !(id in expired && Idle(s, s.sessions[id])) :: s.sessions[id])
  }

  predicate Idle<E>(s: Store<E>, e: E) {
    e in s.active && s.active[e] <= 0
  }

  /** Cleaning up takes away exactly the entries that are expired and that nobody uses, and no counts. */
  lemma CleanedKeeps<E>(s: Store<E>, expired: set<string>)
    ensures
      var t := Cleaned(s, expired);
      && t.active == s.active
      && (forall id :: id in t.sessions <==>
            id in s.sessions && (id !in expired || s.sessions[id] !in s.active || s.active[s.sessions[id]] >= 1))
      && forall id | id in t.sessions :: t.sessions[id] == s.sessions[id]
  {
  }

  function Counted<E>(s: Store<E>, e: E, change: int): Store<E> {
    if e in s.active then s.(active := s.active[e := s.active[e] + change]) else s
  }

  function Placed<E>(s: Store<E>, id: string, e: E, active: int): Store<E> {
    Store(s.sessions[id := e], s.active[e := active])
  }

  class SessionEntry {
    const userID: string
    var active: int

    constructor (userID: string, active: int)
      ensures this.userID == userID && this.active == active
    {
      this.userID, this.active := userID, active;
    }
  }

  class SessionStore {
    var sessions: map<string, SessionEntry>
    ghost var made: set<SessionEntry>

    ghost predicate Valid() reads this {
      sessions.Values <= made
    }

    ghost function Value(): (s: Store<SessionEntry>) reads this, made {
      Store(sessions, map e | e in made :: e.active)
    }

    constructor ()
      ensures Valid() && Value() == Store(map[], map[])
    {
      sessions, made := map[], {};
    }

    method Cleanup(expired: set<string>)
      requires Valid()
      modifies this`sessions
      ensures Valid() && Value() == Cleaned(old(Value()), expired)
    {
      ghost var before := sessions;
      var ids := sessions.Keys;
      ghost var seen: set<string> := {};
      while ids != {}
        invariant seen * ids == {} && seen + ids == before.Keys
        invariant sessions == map id | id in before && !(id in seen && id in expired && before[id].active <= 0) ::
          before[id]
        decreases ids
      {
        var id :| id in ids;
        ids, seen := ids - {id}, seen + {id};
        if id in expired && sessions[id].active <= 0 { sessions := sessions - {id}; }
      }
    }

    /** A cached entry is counted and returned; otherwise the caller goes on to load. */
    method Lookup(id: string, expired: set<string>) returns (entry: SessionEntry?)
      requires Valid()
      modifies this`sessions, made
      ensures Valid() && made == old(made)
      ensures
        var cleaned := Cleaned(old(Value()), expired);
        if id in cleaned.sessions then entry == cleaned.sessions[id] &&
          Value() == Counted(cleaned, cleaned.sessions[id], 1)
        else entry == null && Value() == cleaned
    {
      Cleanup(expired);
      if id !in sessions { return null; }
      entry := sessions[id];
      entry.active := entry.active + 1;
    }

    /** A loaded session gives way to one that was placed meanwhile. */
    method Insert(id: string, userID: string) returns (entry: SessionEntry)
      requires Valid()
      modifies this, made
      ensures Valid()
      ensures
        if id in old(sessions) then entry == old(sessions)[id] && Value() == Counted(old(Value()), old(sessions)[id], 1)
        else fresh(entry) && Value() == Placed(old(Value()), id, entry, 1)
    {
      if id in sessions {
        entry := sessions[id];
        entry.active := entry.active + 1;
      } else {
        entry := new SessionEntry(userID, 1);
        sessions, made := sessions[id := entry], made + {entry};
      }
    }

    method Create(id: string, userID: string, expired: set<string>) returns (entry: SessionEntry)
      requires Valid()
      modifies this
      ensures Valid() && fresh(entry)
      ensures Value() == Placed(Cleaned(old(Value()), expired), id, entry, 0)
    {
      Cleanup(expired);
      entry := new SessionEntry(userID, 0);
      sessions, made := sessions[id := entry], made + {entry};
    }

    method Release(entry: SessionEntry)
      requires Valid() && entry in made
      modifies entry
      ensures Valid() && Value() == Counted(old(Value()), entry, -1)
    {
      entry.active := entry.active - 1;
    }

    method Forget(id: string, userID: string) returns (found: bool)
      requires Valid()
      modifies this`sessions
      ensures Valid() && made == old(made)
      ensures found <==> id in old(sessions) && old(sessions)[id].userID == userID
      ensures Value() == if found then old(Value()).(sessions := old(sessions) - {id}) else old(Value())
    {
      if id !in sessions || sessions[id].userID != userID { return false; }
      sessions := sessions - {id};
      return true;
    }
  }

  // ------------------------------------------------------------ all interleavings

  /** A user of the cache: loading outside the lock, loaded, holding an entry, or gone. */
  datatype Phase = Loading | Loaded | Holding(entry: nat) | Gone

  datatype User = User(id: string, phase: Phase)

  datatype State = State(store: Store<nat>, users: seq<User>)

  const EMPTY := State(Store(map[], map[]), [])

  /** One critical section, or the end of a load; a new entry is one never made before. */
  datatype Event =
    | Lookup(id: string, expired: set<string>)
    | LoadEnds(k: nat, found: bool)
    | Insert(k: nat, entry: nat)
    | Release(k: nat)
    | Create(id: string, entry: nat, expired: set<string>)
    | Forget(id: string)

  /** A created session's identity is new to everybody. */
  predicate Enabled(s: State, e: Event) {
    match e
    case Lookup(_, _) => true
    case LoadEnds(k, _) => k < |s.users| && s.users[k].phase.Loading?
    case Insert(k, entry) => k < |s.users| && s.users[k].phase.Loaded? && entry !in s.store.active
    case Release(k) => k < |s.users| && s.users[k].phase.Holding?
    case Create(id, entry, _) => entry !in s.store.active && id !in s.store.sessions &&
      forall k | 0 <= k < |s.users| :: s.users[k].id != id
    case Forget(_) => true
  }

  function Moved(users: seq<User>, k: nat, phase: Phase): seq<User> requires k < |users| {
    users[k := User(users[k].id, phase)]
  }

  function Next(s: State, e: Event): State
    requires Enabled(s, e)
  {
    match e
    case Lookup(id, expired) =>
      var cleaned := Cleaned(s.store, expired);
      if id in cleaned.sessions then
        State(Counted(cleaned, cleaned.sessions[id], 1), s.users + [User(id, Holding(cleaned.sessions[id]))])
      else State(cleaned, s.users + [User(id, Loading)])
    case LoadEnds(k, found) => s.(users := Moved(s.users, k, if found then Loaded else Gone))
    case Insert(k, entry) =>
      var id := s.users[k].id;
      if id in s.store.sessions then
        State(Counted(s.store, s.store.sessions[id], 1), Moved(s.users, k, Holding(s.store.sessions[id])))
      else State(Placed(s.store, id, entry, 1), Moved(s.users, k, Holding(entry)))
    case Release(k) => State(Counted(s.store, s.users[k].phase.entry, -1), Moved(s.users, k, Gone))
    case Create(id, entry, expired) => s.(store := Placed(Cleaned(s.store, expired), id, entry, 0))
    case Forget(id) => s.(store := s.store.(sessions := s.store.sessions - {id}))
  }

  /** Everything referred to was made, and no entry is cached twice. */
  predicate WellFormed(s: State) {
    && s.store.sessions.Values <= s.store.active.Keys
    && (forall k | 0 <= k < |s.users| && s.users[k].phase.Holding? :: s.users[k].phase.entry in s.store.active)
    && (forall a, b | a in s.store.sessions && b in s.store.sessions && s.store.sessions[a] == s.store.sessions[b] ::
        a == b)
  }

  ghost function Holders(users: seq<User>, entry: nat): set<nat> {
    set k | 0 <= k < |users| && users[k].phase == Holding(entry)
  }

  /** Every entry counts its holders. */
  ghost predicate CountsHolders(s: State) {
    forall e | e in s.store.active :: s.store.active[e] == |Holders(s.users, e)|
  }

  /** Whoever holds a session holds the one entry the map has for it. */
  ghost predicate Shared(s: State) {
    forall k | 0 <= k < |s.users| && s.users[k].phase.Holding? ::
      s.users[k].id in s.store.sessions && s.store.sessions[s.users[k].id] == s.users[k].phase.entry
  }

  ghost predicate Inv(s: State) {
    WellFormed(s) && CountsHolders(s)
  }

  ghost predicate Run(run: seq<State>, events: seq<Event>) {
    && |run| == |events| + 1 && run[0] == EMPTY
    && forall i | 0 <= i < |events| :: Enabled(run[i], events[i]) && run[i + 1] == Next(run[i], events[i])
  }

  lemma HoldersAppended(users: seq<User>, u: User, e: nat)
    ensures Holders(users + [u], e) == Holders(users, e) + (if u.phase == Holding(e) then {|users|} else {})
    ensures |users| !in Holders(users, e)
  {
  }

  lemma HoldersMoved(users: seq<User>, k: nat, phase: Phase, e: nat)
    requires k < |users|
    ensures Holders(Moved(users, k, phase), e) == Holders(users, e) - {k} + (if phase == Holding(e) then {k} else {})
    ensures k in Holders(users, e) <==> users[k].phase == Holding(e)
  {
  }

  /** Nobody holds an entry that was not made yet. */
  lemma UnmadeUnheld(s: State, e: nat)
    requires WellFormed(s) && e !in s.store.active
    ensures Holders(s.users, e) == {}
  {
  }

  lemma LookupInv(s: State, id: string, expired: set<string>)
    requires Inv(s)
    ensures Inv(Next(s, Lookup(id, expired)))
  {
    var s' := Next(s, Lookup(id, expired));
    forall e | e in s'.store.active ensures s'.store.active[e] == |Holders(s'.users, e)| {
      HoldersAppended(s.users, s'.users[|s.users|], e);
    }
  }

  lemma InsertInv(s: State, k: nat, entry: nat)
    requires Inv(s) && Enabled(s, Insert(k, entry))
    ensures Inv(Next(s, Insert(k, entry)))
  {
    if s.users[k].id in s.store.sessions { JoinInv(s, k, entry); } else { PlaceInv(s, k, entry); }
  }

  lemma JoinInv(s: State, k: nat, entry: nat)
    requires Inv(s) && Enabled(s, Insert(k, entry)) && s.users[k].id in s.store.sessions
    ensures Inv(Next(s, Insert(k, entry)))
  {
    var s' := Next(s, Insert(k, entry));
    var joined := s.store.sessions[s.users[k].id];
    assert s'.store == Counted(s.store, joined, 1) && s'.users == Moved(s.users, k, Holding(joined));
    OneMoreHolder(s, s', k, joined);
    assert joined in s.store.active;
  }

  lemma OneMoreHolder(s: State, s': State, k: nat, joined: nat)
    requires CountsHolders(s) && k < |s.users| && !s.users[k].phase.Holding? && joined in s.store.active
    requires s'.store.active == s.store.active[joined := s.store.active[joined] + 1]
    requires s'.users == Moved(s.users, k, Holding(joined))
    ensures CountsHolders(s')
  {
    hide Holders, Moved;
    forall e | e in s'.store.active ensures s'.store.active[e] == |Holders(s'.users, e)| {
      HoldersMoved(s.users, k, Holding(joined), e);
    }
  }

  lemma PlaceInv(s: State, k: nat, entry: nat)
    requires Inv(s) && Enabled(s, Insert(k, entry)) && s.users[k].id !in s.store.sessions
    ensures Inv(Next(s, Insert(k, entry)))
  {
    var s' := Next(s, Insert(k, entry));
    hide Holders;
    UnmadeUnheld(s, entry);
    forall e | e in s'.store.active ensures s'.store.active[e] == |Holders(s'.users, e)| {
      HoldersMoved(s.users, k, s'.users[k].phase, e);
    }
  }

  lemma ReleaseInv(s: State, k: nat)
    requires Inv(s) && Enabled(s, Release(k))
    ensures Inv(Next(s, Release(k)))
  {
    var s' := Next(s, Release(k));
    forall e | e in s'.store.active ensures s'.store.active[e] == |Holders(s'.users, e)| {
      HoldersMoved(s.users, k, Gone, e);
    }
  }

  lemma LoadEndsInv(s: State, k: nat, found: bool)
    requires Inv(s) && Enabled(s, LoadEnds(k, found))
    ensures Inv(Next(s, LoadEnds(k, found)))
  {
    var s' := Next(s, LoadEnds(k, found));
    forall e | e in s'.store.active ensures s'.store.active[e] == |Holders(s'.users, e)| {
      HoldersMoved(s.users, k, s'.users[k].phase, e);
    }
  }

  lemma CreateInv(s: State, id: string, entry: nat, expired: set<string>)
    requires Inv(s) && Enabled(s, Create(id, entry, expired))
    ensures Inv(Next(s, Create(id, entry, expired)))
  {
    UnmadeUnheld(s, entry);
  }

  lemma NextInv(s: State, e: Event)
    requires Inv(s) && Enabled(s, e)
    ensures Inv(Next(s, e))
  {
    match e
    case Lookup(id, expired) => LookupInv(s, id, expired);
    case LoadEnds(k, found) => LoadEndsInv(s, k, found);
    case Insert(k, entry) => InsertInv(s, k, entry);
    case Release(k) => ReleaseInv(s, k);
    case Create(id, entry, expired) => CreateInv(s, id, entry, expired);
    case Forget(id) =>
  }

  /** The entry a Forget takes out of the map is in use. */
  ghost predicate ForgetsHeld(s: State, e: Event) {
    e.Forget? && e.id in s.store.sessions && s.store.sessions[e.id] in s.store.active &&
      s.store.active[s.store.sessions[e.id]] != 0
  }

  /** Cleanup never takes out an entry somebody holds. */
  lemma CleanedKeepsHeld(s: State, expired: set<string>, k: nat)
    requires Inv(s) && Shared(s) && k < |s.users| && s.users[k].phase.Holding?
    ensures
      var cleaned := Cleaned(s.store, expired);
      s.users[k].id in cleaned.sessions && cleaned.sessions[s.users[k].id] == s.users[k].phase.entry
  {
    assert k in Holders(s.users, s.users[k].phase.entry);
  }

  /** One step keeps the sharing exactly when it does not forget an entry in use. */
  lemma SharedStep(s: State, e: Event)
    requires Inv(s) && Enabled(s, e) && Shared(s)
    ensures Shared(Next(s, e)) <==> !ForgetsHeld(s, e)
  {
    match e
    case Lookup(id, expired) => SharedLookup(s, id, expired);
    case LoadEnds(k, found) =>
    case Insert(k, entry) =>
    case Release(k) =>
    case Create(id, entry, expired) => SharedCreate(s, id, entry, expired);
    case Forget(id) => SharedForget(s, id);
  }

  lemma SharedLookup(s: State, id: string, expired: set<string>)
    requires Inv(s) && Shared(s)
    ensures Shared(Next(s, Lookup(id, expired)))
  {
    var s' := Next(s, Lookup(id, expired));
    forall k | 0 <= k < |s'.users| && s'.users[k].phase.Holding?
      ensures s'.users[k].id in s'.store.sessions && s'.store.sessions[s'.users[k].id] == s'.users[k].phase.entry
    {
      if k < |s.users| { CleanedKeepsHeld(s, expired, k); }
    }
  }

  lemma SharedCreate(s: State, id: string, entry: nat, expired: set<string>)
    requires Inv(s) && Shared(s) && Enabled(s, Create(id, entry, expired))
    ensures Shared(Next(s, Create(id, entry, expired)))
  {
    forall k | 0 <= k < |s.users| && s.users[k].phase.Holding?
      ensures
        var cleaned := Cleaned(s.store, expired);
        s.users[k].id in cleaned.sessions && cleaned.sessions[s.users[k].id] == s.users[k].phase.entry
    {
      CleanedKeepsHeld(s, expired, k);
    }
  }

  lemma SharedForget(s: State, id: string)
    requires Inv(s) && Shared(s)
    ensures Shared(Next(s, Forget(id))) <==> !ForgetsHeld(s, Forget(id))
  {
    var s' := Next(s, Forget(id));
    if ForgetsHeld(s, Forget(id)) {
      var held := Holders(s.users, s.store.sessions[id]);
      assert |held| != 0;
      var k :| k in held;
      assert s.users[k].id == id;
      assert s'.users[k].id !in s'.store.sessions;
    } else {
      forall k | 0 <= k < |s.users| && s.users[k].phase.Holding? ensures s.users[k].id != id {
        assert s.users[k].id == id ==> k in Holders(s.users, s.users[k].phase.entry);
      }
    }
  }

  lemma {:induction false} RunInv(run: seq<State>, events: seq<Event>, k: nat)
    requires Run(run, events) && k < |run|
    ensures Inv(run[k])
  {
    if k == 0 {
      assert run[0] == EMPTY;
    } else {
      RunInv(run, events, k - 1);
      NextInv(run[k - 1], events[k - 1]);
    }
  }

  // ------------------------------------------------------------ main results

  /** In every interleaving an entry's count is the number of its holders, forgotten or not. */
  lemma ActiveCountsHolders(run: seq<State>, events: seq<Event>, k: nat, e: nat)
    requires Run(run, events) && k < |run| && e in run[k].store.active
    ensures run[k].store.active[e] == |Holders(run[k].users, e)|
  {
    RunInv(run, events, k);
  }

  /** All holders of a session share the map's entry throughout a run exactly when no Forget hits an entry in use. */
  lemma SharedIffNoHeldForget(run: seq<State>, events: seq<Event>)
    requires Run(run, events)
    ensures (forall k | 0 <= k < |run| :: Shared(run[k])) <==>
      (forall i | 0 <= i < |events| :: !ForgetsHeld(run[i], events[i]))
  {
    if forall i | 0 <= i < |events| :: !ForgetsHeld(run[i], events[i]) {
      forall k | 0 <= k < |run| ensures Shared(run[k]) { StaysShared(run, events, k); }
    }
    if forall k | 0 <= k < |run| :: Shared(run[k]) {
      forall i | 0 <= i < |events| ensures !ForgetsHeld(run[i], events[i]) {
        RunInv(run, events, i);
        assert Shared(run[i]) && Shared(run[i + 1]);
        SharedStep(run[i], events[i]);
      }
    }
  }

  lemma {:induction false} StaysShared(run: seq<State>, events: seq<Event>, k: nat)
    requires Run(run, events) && k < |run| && forall i | 0 <= i < |events| :: !ForgetsHeld(run[i], events[i])
    ensures Shared(run[k])
  {
    if k == 0 {
      assert run[0] == EMPTY;
    } else {
      StaysShared(run, events, k - 1);
      RunInv(run, events, k - 1);
      SharedStep(run[k - 1], events[k - 1]);
    }
  }

  /** Two users of one session then hold one entry. */
  lemma HoldersAgree(run: seq<State>, events: seq<Event>, k: nat, a: nat, b: nat)
    requires Run(run, events) && k < |run| && forall i | 0 <= i < |events| :: !ForgetsHeld(run[i], events[i])
    requires a < |run[k].users| && b < |run[k].users| && run[k].users[a].id == run[k].users[b].id
    requires run[k].users[a].phase.Holding? && run[k].users[b].phase.Holding?
    ensures run[k].users[a].phase == run[k].users[b].phase
  {
    StaysShared(run, events, k);
  }

  lemma Extend(run: seq<State>, events: seq<Event>, e: Event, s: State) returns (run': seq<State>, events': seq<Event>)
    requires |run| > 0 && Run(run, events) && Enabled(run[|run| - 1], e) && s == Next(run[|run| - 1], e)
    ensures |run'| > 0 && Run(run', events') && run'[|run'| - 1] == s
  {
    hide Enabled, Next;
    run', events' := run + [s], events + [e];
    forall i | 0 <= i < |events'| ensures Enabled(run'[i], events'[i]) && run'[i + 1] == Next(run'[i], events'[i]) {
      if i < |events| { assert Enabled(run[i], events[i]) && run[i + 1] == Next(run[i], events[i]); }
    }
  }

  lemma Beginning() returns (run: seq<State>, events: seq<Event>)
    ensures |run| > 0 && Run(run, events) && run[|run| - 1] == EMPTY
  {
    run, events := [EMPTY], [];
  }

  /** Forgotten while held and loaded again, a session has two holders of two entries. */
  lemma ForgetSplitsHolders(id: string)
    ensures
      exists run: seq<State>, events: seq<Event> ::
        && |run| > 0 && Run(run, events)
        && run[|run| - 1].users == [User(id, Holding(0)), User(id, Holding(1))]
  {
    hide Run;
    var run, events := Beginning();
    run, events := Extend(run, events, Create(id, 0, {}), State(Store(map[id := 0], map[0 := 0]), []));
    run, events := Extend(run, events, Lookup(id, {}), State(Store(map[id := 0], map[0 := 1]), [User(id, Holding(0))]));
    run, events := Extend(run, events, Forget(id), State(Store(map[], map[0 := 1]), [User(id, Holding(0))]));
    run, events := Extend(run, events, Lookup(id, {}),
                          State(Store(map[], map[0 := 1]), [User(id, Holding(0)), User(id, Loading)]));
    run, events := Extend(run, events, LoadEnds(1, true),
                          State(Store(map[], map[0 := 1]), [User(id, Holding(0)), User(id, Loaded)]));
    run, events := Extend(run, events, Insert(1, 1),
      State(Store(map[id := 1], map[0 := 1, 1 := 1]), [User(id, Holding(0)), User(id, Holding(1))]));
  }
}
