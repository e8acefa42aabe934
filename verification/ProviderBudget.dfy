/**
 * The deployment-wide ceiling on model calls: sliding windows over calls and over tokens, and a limit on
 * calls in flight. Models provider_budget_limits.go lines 33-240 and provider_budget_next.go lines 5-28
 * as values; ProviderBudgetObjects holds the objects that keep them in place.
 */
module ProviderBudget {
  /** Times count nanoseconds. */
  const MINUTE := 60_000_000_000
  const HOUR := 60 * MINUTE
  const DAY := 24 * HOUR

  datatype CallWindow = CallWindow(limit: int, window: int, events: seq<int>)

  datatype TokenEvent = TokenEvent(at: int, tokens: int)

  datatype TokenWindow = TokenWindow(limit: int, window: int, events: seq<TokenEvent>, total: int)

  datatype Budget = Budget(
    minute: CallWindow, hour: CallWindow, day: CallWindow,
    tokenHour: TokenWindow, tokenDay: TokenWindow,
    inFlight: int, maxFlight: int, refusals: int, lastRefusal: int, spentTokens: int)

  datatype Limits = Limits(perMinute: int, perHour: int, perDay: int, maxConcurrent: int, tokensPerHour: int,
                           tokensPerDay: int)

  const DEFAULT_LIMITS := Limits(90, 1500, 10000, 8, 2000000, 20000000)

  function OrDefault(value: int, fallback: int): int {
    if value <= 0 then fallback else value
  }

  /** An unset ceiling means the safe default. */
  function Normalized(given: Limits): Limits {
    var l := if given.maxConcurrent <= 0 then DEFAULT_LIMITS else given;
    Limits(OrDefault(l.perMinute, DEFAULT_LIMITS.perMinute), OrDefault(l.perHour, DEFAULT_LIMITS.perHour),
           OrDefault(l.perDay, DEFAULT_LIMITS.perDay), l.maxConcurrent,
           OrDefault(l.tokensPerHour, DEFAULT_LIMITS.tokensPerHour),
             OrDefault(l.tokensPerDay, DEFAULT_LIMITS.tokensPerDay))
  }

  function NewBudget(given: Limits): Budget {
    var l := Normalized(given);
    Budget(CallWindow(l.perMinute, MINUTE, []), CallWindow(l.perHour, HOUR, []), CallWindow(l.perDay, DAY, []),
           TokenWindow(l.tokensPerHour, HOUR, [], 0), TokenWindow(l.tokensPerDay, DAY, [], 0),
           0, l.maxConcurrent, 0, 0, 0)
  }

  // ---------------------------------------------------------------- windows

  /** The events after the cutoff, in order. */
  function Live(events: seq<int>, cutoff: int): seq<int> {
    if events == [] then []
    else
      var e := events[|events| - 1];
      Live(events[..|events| - 1], cutoff) + (if e > cutoff then [e] else [])
  }

  function LiveTokens(events: seq<TokenEvent>, cutoff: int): seq<TokenEvent> {
    if events == [] then []
    else
      var e := events[|events| - 1];
      LiveTokens(events[..|events| - 1], cutoff) + (if e.at > cutoff then [e] else [])
  }

  function TokenSum(events: seq<TokenEvent>): int {
    if events == [] then 0 else TokenSum(events[..|events| - 1]) + events[|events| - 1].tokens
  }

  function Pruned(w: CallWindow, now: int): CallWindow {
    w.(events := Live(w.events, now - w.window))
  }

  function PrunedTokens(w: TokenWindow, now: int): TokenWindow {
    var live := LiveTokens(w.events, now - w.window);
    w.(events := live, total := TokenSum(live))
  }

  predicate HasRoom(w: CallWindow, now: int) {
    |Pruned(w, now).events| < w.limit
  }

  predicate HasTokenRoom(w: TokenWindow, now: int) {
    PrunedTokens(w, now).total < w.limit
  }

  function Recorded(w: CallWindow, now: int): CallWindow {
    w.(events := w.events + [now])
  }

  function RecordedTokens(w: TokenWindow, now: int, tokens: int): TokenWindow {
    if tokens <= 0 then w else w.(events := w.events + [TokenEvent(now, tokens)], total := w.total + tokens)
  }

  // ----------------------------------------------------------------- acquire

  datatype Verdict = Granted | CallBudgetExceeded | TokenBudgetExceeded

  function Refused(b: Budget, now: int): Budget {
    b.(refusals := b.refusals + 1, lastRefusal := now)
  }

  /** The windows are looked at, and so pruned, one after another until one is full. */
  function Acquire(b: Budget, now: int): (Budget, Verdict) {
    if b.inFlight >= b.maxFlight then (Refused(b, now), CallBudgetExceeded)
    else
      var b1 := b.(minute := Pruned(b.minute, now));
      if !HasRoom(b.minute, now) then (Refused(b1, now), CallBudgetExceeded)
      else
        var b2 := b1.(hour := Pruned(b.hour, now));
        if !HasRoom(b.hour, now) then (Refused(b2, now), CallBudgetExceeded)
        else
          var b3 := b2.(day := Pruned(b.day, now));
          if !HasRoom(b.day, now) then (Refused(b3, now), CallBudgetExceeded)
          else
            var b4 := b3.(tokenHour := PrunedTokens(b.tokenHour, now));
            if !HasTokenRoom(b.tokenHour, now) then (Refused(b4, now), TokenBudgetExceeded)
            else
              var b5 := b4.(tokenDay := PrunedTokens(b.tokenDay, now));
              if !HasTokenRoom(b.tokenDay, now) then (Refused(b5, now), TokenBudgetExceeded)
              else
                (b5.(minute := Recorded(b5.minute, now), hour := Recorded(b5.hour, now), day := Recorded(b5.day, now),
                     inFlight := b5.inFlight + 1), Granted)
  }

  function Spend(b: Budget, now: int, tokens: int): Budget {
    if tokens <= 0 then b
    else b.(tokenHour := RecordedTokens(b.tokenHour, now, tokens), tokenDay := RecordedTokens(b.tokenDay, now, tokens),
            spentTokens := b.spentTokens + tokens)
  }

  function Release(b: Budget): Budget {
    if b.inFlight > 0 then b.(inFlight := b.inFlight - 1) else b
  }

  /** A refused call leaves every window as it was, up to forgetting events already out of it. */
  lemma RefusalOnlyPrunes(b: Budget, now: int)
    requires Acquire(b, now).1 != Granted
    ensures
      var r := Acquire(b, now).0;
      && (r.minute == b.minute || r.minute == Pruned(b.minute, now))
      && (r.hour == b.hour || r.hour == Pruned(b.hour, now))
      && (r.day == b.day || r.day == Pruned(b.day, now))
      && (r.tokenHour == b.tokenHour || r.tokenHour == PrunedTokens(b.tokenHour, now))
      && (r.tokenDay == b.tokenDay || r.tokenDay == PrunedTokens(b.tokenDay, now))
      && r.inFlight == b.inFlight && r.maxFlight == b.maxFlight && r.spentTokens == b.spentTokens
      && r.refusals == b.refusals + 1 && r.lastRefusal == now
  {
  }

  /** A ceiling that is set stays; one that is not, or all of them without a limit on concurrency, is the default. */
  predicate Ceiling(given: Limits, value: int, chosen: int, fallback: int) {
    chosen == if given.maxConcurrent > 0 && value > 0 then value else fallback
  }

  /** The ceilings and windows of a new budget, in calls, tokens and nanoseconds. */
  lemma NewBudgetIs(given: Limits)
    ensures
      var b := NewBudget(given);
      && Ceiling(given, given.perMinute, b.minute.limit, 90) && b.minute.window == 60_000_000_000
      && Ceiling(given, given.perHour, b.hour.limit, 1500) && b.hour.window == 3_600_000_000_000
      && Ceiling(given, given.perDay, b.day.limit, 10000) && b.day.window == 86_400_000_000_000
      && Ceiling(given, given.tokensPerHour, b.tokenHour.limit, 2000000) && b.tokenHour.window == 3_600_000_000_000
      && Ceiling(given, given.tokensPerDay, b.tokenDay.limit, 20000000) && b.tokenDay.window == 86_400_000_000_000
      && b.maxFlight == (if given.maxConcurrent > 0 then given.maxConcurrent else 8)
      && b.minute.events == [] && b.hour.events == [] && b.day.events == []
      && b.tokenHour.events == [] && b.tokenDay.events == [] && b.tokenHour.total == b.tokenDay.total == 0
      && b.inFlight == 0 && b.refusals == 0 && b.spentTokens == 0
  {
  }

  // ------------------------------------------------------------- whole runs

  /** One entry of the critical section; a call is the index of its grant. */
  datatype Event =
    | Ask(now: int)
    | Report(call: nat, now: int, tokens: int)
    | Done(call: nat)

  datatype Reported = Reported(call: nat, event: TokenEvent)

  /**
   * The budget with what happened so far: when calls were granted, what calls reported, which calls are not
   * released, which of those have not reported, when the last grant was and which were in flight just after it.
   */
  datatype State = State(budget: Budget, clock: int, granted: seq<int>, reports: seq<Reported>,
                         unreleased: set<nat>, unreported: set<nat>, lastGrant: int, sinceGrant: set<nat>)

  function Start(given: Limits, clock: int): State {
    State(NewBudget(given), clock, [], [], {}, {}, clock, {})
  }

  /** The clock never goes back; a call reports at most once, before it is released. */
  predicate Enabled(s: State, e: Event) {
    match e
    case Ask(now) => now >= s.clock
    case Report(call, now, _) => now >= s.clock && call in s.unreported
    case Done(call) => call in s.unreleased
  }

  function Next(s: State, e: Event): State {
    match e
    case Ask(now) =>
      var (b, verdict) := Acquire(s.budget, now);
      if verdict == Granted then
        var call := |s.granted|;
        s.(budget := b, clock := now, granted := s.granted + [now],
           unreleased := s.unreleased + {call}, unreported := s.unreported + {call},
           lastGrant := now, sinceGrant := s.unreleased + {call})
      else s.(budget := b, clock := now)
    case Report(call, now, tokens) =>
      s.(budget := Spend(s.budget, now, tokens), clock := now, unreported := s.unreported - {call},
         reports := if tokens > 0 then s.reports + [Reported(call, TokenEvent(now, tokens))] else s.reports)
    case Done(call) =>
      s.(budget := Release(s.budget), unreleased := s.unreleased - {call}, unreported := s.unreported - {call})
  }

  ghost predicate Run(given: Limits, run: seq<State>, events: seq<Event>) {
    && |run| == |events| + 1 && run[0] == Start(given, run[0].clock)
    && forall i | 0 <= i < |events| :: Enabled(run[i], events[i]) && run[i + 1] == Next(run[i], events[i])
  }

  /** How many of these times lie after lo and not after hi. */
  function CountIn(times: seq<int>, lo: int, hi: int): nat {
    if times == [] then 0
    else
      var t := times[|times| - 1];
      CountIn(times[..|times| - 1], lo, hi) + (if lo < t <= hi then 1 else 0)
  }

  /** Tokens reported after lo and not after hi, leaving out the calls in a set. */
  function TokensIn(reports: seq<Reported>, lo: int, hi: int, except: set<nat>): int {
    if reports == [] then 0
    else
      var r := reports[|reports| - 1];
      TokensIn(reports[..|reports| - 1], lo, hi, except) +
        (if lo < r.event.at <= hi && r.call !in except then r.event.tokens else 0)
  }

  function EventsOf(reports: seq<Reported>): seq<TokenEvent> {
    seq(|reports|, i requires 0 <= i < |reports| => reports[i].event)
  }

  // ------------------------------------------------------ facts about windows

  lemma {:induction false} LiveLive(events: seq<int>, c: int, d: int)
    requires c <= d
    ensures Live(Live(events, c), d) == Live(events, d)
  {
    if events != [] {
      var init, e := events[..|events| - 1], events[|events| - 1];
      LiveLive(init, c, d);
      var live := Live(events, c);
      if e > c {
        assert live == Live(init, c) + [e];
        assert live[..|live| - 1] == Live(init, c);
      } else {
        assert live == Live(init, c);
      }
    }
  }

  lemma {:induction false} LiveTokensLive(events: seq<TokenEvent>, c: int, d: int)
    requires c <= d
    ensures LiveTokens(LiveTokens(events, c), d) == LiveTokens(events, d)
  {
    if events != [] {
      var init, e := events[..|events| - 1], events[|events| - 1];
      LiveTokensLive(init, c, d);
      var live := LiveTokens(events, c);
      if e.at > c {
        assert live == LiveTokens(init, c) + [e];
        assert live[..|live| - 1] == LiveTokens(init, c);
      } else {
        assert live == LiveTokens(init, c);
      }
    }
  }

  lemma LiveSnoc(events: seq<int>, e: int, c: int)
    ensures Live(events + [e], c) == Live(events, c) + (if e > c then [e] else [])
  {
    assert (events + [e])[..|events|] == events;
  }

  lemma LiveTokensSnoc(events: seq<TokenEvent>, e: TokenEvent, c: int)
    ensures LiveTokens(events + [e], c) == LiveTokens(events, c) + (if e.at > c then [e] else [])
    ensures TokenSum(events + [e]) == TokenSum(events) + e.tokens
  {
    assert (events + [e])[..|events|] == events;
  }

  /** An interval that starts no earlier than the cutoff holds at most the live events. */
  lemma {:induction false} CountWithinLive(times: seq<int>, cutoff: int, lo: int, hi: int)
    requires cutoff <= lo
    ensures CountIn(times, lo, hi) <= |Live(times, cutoff)|
  {
    if times != [] { CountWithinLive(times[..|times| - 1], cutoff, lo, hi); }
  }

  lemma {:induction false} TokensWithinLive(reports: seq<Reported>, cutoff: int, lo: int, hi: int, except: set<nat>)
    requires cutoff <= lo && forall i | 0 <= i < |reports| :: reports[i].event.tokens > 0
    ensures 0 <= TokensIn(reports, lo, hi, except) <= TokenSum(LiveTokens(EventsOf(reports), cutoff))
  {
    if reports != [] {
      var init, r := reports[..|reports| - 1], reports[|reports| - 1];
      TokensWithinLive(init, cutoff, lo, hi, except);
      assert EventsOf(reports) == EventsOf(init) + [r.event];
      assert LiveTokens(EventsOf(init), cutoff) + [] == LiveTokens(EventsOf(init), cutoff);
    }
  }

  /** Only when every event still stored is counted do the two readings of a window agree. */
  lemma {:induction false} TokensStored(reports: seq<Reported>, cutoff: int, hi: int)
    requires forall i | 0 <= i < |reports| :: reports[i].event.at <= hi
    ensures TokenSum(LiveTokens(EventsOf(reports), cutoff)) == TokensIn(reports, cutoff, hi, {})
  {
    if reports != [] {
      var init, r := reports[..|reports| - 1], reports[|reports| - 1];
      TokensStored(init, cutoff, hi);
      assert EventsOf(reports) == EventsOf(init) + [r.event];
      assert LiveTokens(EventsOf(init), cutoff) + [] == LiveTokens(EventsOf(init), cutoff);
    }
  }

  // -------------------------------------------------------------- invariant

  ghost predicate StoredAfter(w: CallWindow, granted: seq<int>, clock: int, c: int) {
    c <= clock - w.window && w.events == Live(granted, c)
  }

  /** The stored events are the granted calls after some cutoff that is already out of the window. */
  ghost predicate StoresCalls(w: CallWindow, granted: seq<int>, clock: int) {
    exists c :: StoredAfter(w, granted, clock, c)
  }

  ghost predicate TokensStoredAfter(w: TokenWindow, reports: seq<Reported>, from: int, clock: int, c: int) {
    from - w.window <= c <= clock - w.window && w.events == LiveTokens(EventsOf(reports), c)
  }

  /** The stored reports are those after some cutoff no older than the last grant's. */
  ghost predicate StoresTokens(w: TokenWindow, reports: seq<Reported>, from: int, clock: int) {
    && w.total == TokenSum(w.events)
    && exists c :: TokensStoredAfter(w, reports, from, clock, c)
  }

  ghost predicate RateAt(limit: int, window: int, granted: seq<int>, from: int) {
    CountIn(granted, from, from + window) <= limit
  }

  ghost predicate RateOk(w: CallWindow, granted: seq<int>) {
    forall x :: RateAt(w.limit, w.window, granted, x)
  }

  /** The tokens between two moments fit under the limit, leaving out the calls in a set. */
  ghost predicate Within(w: TokenWindow, reports: seq<Reported>, lo: int, hi: int, late: set<nat>) {
    TokensIn(reports, lo, hi, late) <= w.limit - 1
  }

  ghost predicate WithinBarFew(w: TokenWindow, reports: seq<Reported>, lo: int, few: int) {
    exists late: set<nat> :: |late| <= few && Within(w, reports, lo, lo + w.window, late)
  }

  /** Since the last grant's window began only the calls in flight at that grant add to it; older intervals are over. */
  ghost predicate TokensOk(w: TokenWindow, s: State) {
    && (forall x, hi | x >= s.lastGrant - w.window :: Within(w, s.reports, x, hi, s.sinceGrant))
    && (forall x | x < s.lastGrant - w.window :: WithinBarFew(w, s.reports, x, s.budget.maxFlight))
  }

  ghost predicate CallWindowOk(w: CallWindow, s: State) {
    w.limit >= 1 && w.window >= 1 && StoresCalls(w, s.granted, s.clock) && RateOk(w, s.granted)
  }

  ghost predicate TokenWindowOk(w: TokenWindow, s: State) {
    w.limit >= 1 && w.window >= 1 && StoresTokens(w, s.reports, s.lastGrant, s.clock) && TokensOk(w, s)
  }

  ghost predicate CallsOk(s: State) {
    && s.budget.inFlight == |s.unreleased| <= s.budget.maxFlight && s.budget.maxFlight >= 1
    && s.unreported <= s.unreleased && s.unreported <= s.sinceGrant && |s.sinceGrant| <= s.budget.maxFlight
    && (forall c | c in s.unreleased :: c < |s.granted|)
    && s.lastGrant <= s.clock
    && (forall i | 0 <= i < |s.granted| :: s.granted[i] <= s.clock)
    && ReportsOk(s.reports, s.clock)
    && s.budget.spentTokens == TokenSum(EventsOf(s.reports))
  }

  ghost predicate ReportsOk(reports: seq<Reported>, clock: int) {
    forall i | 0 <= i < |reports| :: reports[i].event.at <= clock && reports[i].event.tokens > 0
  }

  ghost predicate Inv(s: State) {
    && CallWindowOk(s.budget.minute, s) && CallWindowOk(s.budget.hour, s) && CallWindowOk(s.budget.day, s)
    && TokenWindowOk(s.budget.tokenHour, s) && TokenWindowOk(s.budget.tokenDay, s)
    && CallsOk(s)
  }

  lemma StoresCallsLater(w: CallWindow, granted: seq<int>, clock: int, later: int)
    requires StoresCalls(w, granted, clock) && clock <= later
    ensures StoresCalls(w, granted, later)
    ensures StoresCalls(Pruned(w, later), granted, later)
    ensures Pruned(w, later).events == Live(granted, later - w.window)
  {
    var c :| StoredAfter(w, granted, clock, c);
    LiveLive(granted, c, later - w.window);
    assert StoredAfter(w, granted, later, c);
    assert StoredAfter(Pruned(w, later), granted, later, later - w.window);
  }

  lemma StoresTokensLater(w: TokenWindow, reports: seq<Reported>, from: int, clock: int, later: int)
    requires StoresTokens(w, reports, from, clock) && from <= clock <= later
    ensures StoresTokens(w, reports, from, later)
    ensures StoresTokens(PrunedTokens(w, later), reports, from, later)
    ensures StoresTokens(PrunedTokens(w, later), reports, later, later)
    ensures PrunedTokens(w, later).events == LiveTokens(EventsOf(reports), later - w.window)
  {
    var c :| TokensStoredAfter(w, reports, from, clock, c);
    LiveTokensLive(EventsOf(reports), c, later - w.window);
    assert TokensStoredAfter(w, reports, from, later, c);
    assert TokensStoredAfter(PrunedTokens(w, later), reports, from, later, later - w.window);
    assert TokensStoredAfter(PrunedTokens(w, later), reports, later, later, later - w.window);
  }

  /** A grant at a moment when the window had room keeps every interval within the limit. */
  lemma GrantCalls(w: CallWindow, s: State, s': State, now: int)
    requires CallWindowOk(w, s) && now >= s.clock && HasRoom(w, now)
    requires s'.granted == s.granted + [now] && s'.clock == now
    ensures CallWindowOk(Recorded(Pruned(w, now), now), s')
  {
    var w' := Recorded(Pruned(w, now), now);
    StoresCallsLater(w, s.granted, s.clock, now);
    LiveSnoc(s.granted, now, now - w.window);
    assert StoredAfter(w', s'.granted, now, now - w.window);
    forall x ensures RateAt(w.limit, w.window, s'.granted, x) {
      assert s'.granted[..|s.granted|] == s.granted;
      assert RateAt(w.limit, w.window, s.granted, x);
      if x < now <= x + w.window {
        CountWithinLive(s.granted, now - w.window, x, x + w.window);
      }
    }
  }

  /** Time passing, and pruning, change nothing a call window stands for. */
  lemma KeepCalls(w: CallWindow, s: State, s': State)
    requires CallWindowOk(w, s) && s'.clock >= s.clock && s'.granted == s.granted
    ensures CallWindowOk(w, s') && CallWindowOk(Pruned(w, s'.clock), s')
  {
    StoresCallsLater(w, s.granted, s.clock, s'.clock);
  }

  lemma KeepTokens(w: TokenWindow, s: State, s': State)
    requires TokenWindowOk(w, s) && s'.clock >= s.clock >= s.lastGrant && s'.reports == s.reports
    requires s'.lastGrant == s.lastGrant && s'.sinceGrant == s.sinceGrant && s'.budget.maxFlight == s.budget.maxFlight
    ensures TokenWindowOk(w, s') && TokenWindowOk(PrunedTokens(w, s'.clock), s')
  {
    StoresTokensLater(w, s.reports, s.lastGrant, s.clock, s'.clock);
    var p := PrunedTokens(w, s'.clock);
    hide LiveTokens, TokenSum, StoresTokens, TokensOk;
    SameTokens(w, w, s, s');
    SameTokens(w, p, s, s');
  }

  lemma SameTokens(w: TokenWindow, w': TokenWindow, s: State, s': State)
    requires TokensOk(w, s) && w'.limit == w.limit && w'.window == w.window && s'.reports == s.reports
    requires s'.lastGrant == s.lastGrant && s'.sinceGrant == s.sinceGrant && s'.budget.maxFlight == s.budget.maxFlight
    ensures TokensOk(w', s')
  {
    hide TokensIn;
    forall x, hi | x >= s.lastGrant - w.window ensures Within(w', s.reports, x, hi, s.sinceGrant) {
      assert Within(w, s.reports, x, hi, s.sinceGrant);
    }
    forall x | x < s.lastGrant - w.window ensures WithinBarFew(w', s.reports, x, s.budget.maxFlight) {
      assert WithinBarFew(w, s.reports, x, s.budget.maxFlight);
      var late: set<nat> :| |late| <= s.budget.maxFlight && Within(w, s.reports, x, x + w.window, late);
      assert Within(w', s.reports, x, x + w.window, late);
    }
  }

  /** At a grant, what a token window holds fits under the limit; what was granted before is now an older interval. */
  lemma GrantTokens(w: TokenWindow, s: State, s': State, now: int)
    requires TokenWindowOk(w, s) && CallsOk(s) && now >= s.clock && HasTokenRoom(w, now)
    requires s'.reports == s.reports && s'.clock == now == s'.lastGrant && s'.budget.maxFlight == s.budget.maxFlight
    ensures TokenWindowOk(PrunedTokens(w, now), s')
  {
    StoresTokensLater(w, s.reports, s.lastGrant, s.clock, now);
    assert ReportsOk(s.reports, s.clock);
    assert |s.sinceGrant| <= s.budget.maxFlight;
    hide LiveTokens, StoresTokens, TokensIn, TokenSum, CallsOk;
    assert TokensOk(PrunedTokens(w, now), s') by {
      hide ReportsOk, TokensOk;
      GrantIntervals(w, PrunedTokens(w, now), s, s', now);
    }
  }

  lemma GrantIntervals(w: TokenWindow, w': TokenWindow, s: State, s': State, now: int)
    requires TokensOk(w, s) && |s.sinceGrant| <= s.budget.maxFlight && ReportsOk(s.reports, s.clock)
    requires TokenSum(LiveTokens(EventsOf(s.reports), now - w.window)) <= w.limit - 1
    requires w'.limit == w.limit && w'.window == w.window
    requires s'.reports == s.reports && now == s'.lastGrant && s'.budget.maxFlight == s.budget.maxFlight
    ensures TokensOk(w', s')
  {
    hide LiveTokens, TokensIn, TokenSum, EventsOf;
    forall x, hi | x >= now - w.window ensures Within(w', s.reports, x, hi, s'.sinceGrant) {
      TokensWithinLive(s.reports, now - w.window, x, hi, s'.sinceGrant);
    }
    forall x | x < now - w.window ensures WithinBarFew(w', s.reports, x, s.budget.maxFlight) {
      AnyInterval(w, s, x);
      var late: set<nat> :| |late| <= s.budget.maxFlight && Within(w, s.reports, x, x + w.window, late);
      assert Within(w', s.reports, x, x + w.window, late);
    }
  }

  lemma AnyInterval(w: TokenWindow, s: State, x: int)
    requires TokensOk(w, s) && |s.sinceGrant| <= s.budget.maxFlight
    ensures WithinBarFew(w, s.reports, x, s.budget.maxFlight)
  {
    if x >= s.lastGrant - w.window {
      assert Within(w, s.reports, x, x + w.window, s.sinceGrant);
    }
  }

  /** A report comes from a call in flight at the last grant, and lands after every older interval. */
  lemma ReportTokens(w: TokenWindow, s: State, s': State, call: nat, now: int, tokens: int)
    requires TokenWindowOk(w, s) && CallsOk(s) && now >= s.clock && call in s.sinceGrant && tokens > 0
    requires s'.reports == s.reports + [Reported(call, TokenEvent(now, tokens))] && s'.clock == now
    requires s'.lastGrant == s.lastGrant && s'.sinceGrant == s.sinceGrant && s'.budget.maxFlight == s.budget.maxFlight
    ensures TokenWindowOk(RecordedTokens(w, now, tokens), s')
  {
    ReportStored(w, s.reports, s'.reports, call, s.lastGrant, s.clock, now, tokens);
    var w' := RecordedTokens(w, now, tokens);
    assert w'.limit == w.limit && w'.window == w.window;
    assert TokensOk(w', s') by {
      hide StoresTokens, ReportsOk, RecordedTokens;
      ReportIntervals(w, w', s, s', call, TokenEvent(now, tokens));
    }
  }

  lemma ReportStored(w: TokenWindow, reports: seq<Reported>, reports': seq<Reported>, call: nat, from: int, clock: int,
                     now: int, tokens: int)
    requires StoresTokens(w, reports, from, clock) && from <= clock <= now && tokens > 0 && w.window >= 1
    requires reports' == reports + [Reported(call, TokenEvent(now, tokens))]
    ensures StoresTokens(RecordedTokens(w, now, tokens), reports', from, now)
  {
    hide LiveTokens, TokenSum;
    var e := TokenEvent(now, tokens);
    var w' := RecordedTokens(w, now, tokens);
    assert EventsOf(reports') == EventsOf(reports) + [e];
    StoresTokensLater(w, reports, from, clock, now);
    var c :| TokensStoredAfter(w, reports, from, now, c);
    LiveTokensSnoc(EventsOf(reports), e, c);
    LiveTokensSnoc(w.events, e, c);
    assert TokensStoredAfter(w', reports', from, now, c);
  }

  lemma ReportIntervals(w: TokenWindow, w': TokenWindow, s: State, s': State, call: nat, e: TokenEvent)
    requires TokensOk(w, s) && e.at >= s.lastGrant && call in s.sinceGrant && w'.limit == w.limit &&
      w'.window == w.window
    requires s'.reports == s.reports + [Reported(call, e)]
    requires s'.lastGrant == s.lastGrant && s'.sinceGrant == s.sinceGrant && s'.budget.maxFlight == s.budget.maxFlight
    ensures TokensOk(w', s')
  {
    assert s'.reports[..|s.reports|] == s.reports;
    forall x, hi | x >= s.lastGrant - w.window ensures Within(w', s'.reports, x, hi, s.sinceGrant) {
      assert Within(w, s.reports, x, hi, s.sinceGrant);
    }
    forall x | x < s.lastGrant - w.window ensures WithinBarFew(w', s'.reports, x, s.budget.maxFlight) {
      assert WithinBarFew(w, s.reports, x, s.budget.maxFlight);
      var late: set<nat> :| |late| <= s.budget.maxFlight && Within(w, s.reports, x, x + w.window, late);
      assert Within(w', s'.reports, x, x + w.window, late);
    }
  }

  lemma StartInv(given: Limits, clock: int)
    ensures Inv(Start(given, clock))
  {
    var s := Start(given, clock);
    StartCalls(s.budget.minute, s);
    StartCalls(s.budget.hour, s);
    StartCalls(s.budget.day, s);
    StartTokens(s.budget.tokenHour, s);
    StartTokens(s.budget.tokenDay, s);
  }

  lemma StartCalls(w: CallWindow, s: State)
    requires w.limit >= 1 && w.window >= 1 && w.events == [] && s.granted == []
    ensures CallWindowOk(w, s)
  {
    assert StoredAfter(w, s.granted, s.clock, s.clock - w.window);
  }

  lemma StartTokens(w: TokenWindow, s: State)
    requires w.limit >= 1 && w.window >= 1 && w.events == [] && w.total == 0 && s.reports == [] &&
      s.lastGrant == s.clock
    requires s.budget.maxFlight >= 0
    ensures TokenWindowOk(w, s)
  {
    assert EventsOf([]) == [];
    assert TokensStoredAfter(w, s.reports, s.clock, s.clock, s.clock - w.window);
    forall x ensures WithinBarFew(w, s.reports, x, s.budget.maxFlight) {
      var none: set<nat> := {};
      assert Within(w, s.reports, x, x + w.window, none) && |none| == 0;
    }
  }

  /** What a granted call does to each part. */
  lemma GrantedParts(b: Budget, now: int)
    requires Acquire(b, now).1 == Granted
    ensures
      && HasRoom(b.minute, now) && HasRoom(b.hour, now) && HasRoom(b.day, now)
      && HasTokenRoom(b.tokenHour, now) && HasTokenRoom(b.tokenDay, now) && b.inFlight < b.maxFlight
      && Acquire(b, now).0 == b.(
        minute := Recorded(Pruned(b.minute, now), now), hour := Recorded(Pruned(b.hour, now), now),
        day := Recorded(Pruned(b.day, now), now),
        tokenHour := PrunedTokens(b.tokenHour, now), tokenDay := PrunedTokens(b.tokenDay, now),
          inFlight := b.inFlight + 1)
  {
    hide HasRoom, HasTokenRoom, Recorded, Pruned, PrunedTokens;
  }

  lemma GrantedInv(s: State, now: int)
    requires Inv(s) && Enabled(s, Ask(now)) && Acquire(s.budget, now).1 == Granted
    ensures Inv(Next(s, Ask(now)))
  {
    var b, s' := s.budget, Next(s, Ask(now));
    GrantedParts(b, now);
    hide CallWindowOk, TokenWindowOk, Acquire, HasRoom, HasTokenRoom, Recorded, Pruned, PrunedTokens, ReportsOk,
         TokenSum, EventsOf;
    assert CallsOk(s') by { GrantedCallsOk(s, s', now); }
    hide CallsOk;
    GrantCalls(b.minute, s, s', now);
    GrantCalls(b.hour, s, s', now);
    GrantCalls(b.day, s, s', now);
    GrantTokens(b.tokenHour, s, s', now);
    GrantTokens(b.tokenDay, s, s', now);
  }

  lemma GrantedCallsOk(s: State, s': State, now: int)
    requires CallsOk(s) && now >= s.clock && s.budget.inFlight < s.budget.maxFlight
    requires s'.granted == s.granted + [now] && s'.unreleased == s.unreleased + {|s.granted|}
    requires s'.unreported == s.unreported + {|s.granted|} && s'.sinceGrant == s'.unreleased
    requires s'.lastGrant == s'.clock == now && s'.reports == s.reports
    requires s'.budget.inFlight == s.budget.inFlight + 1 && s'.budget.maxFlight == s.budget.maxFlight
    requires s'.budget.spentTokens == s.budget.spentTokens
    ensures CallsOk(s')
  {
    hide TokenSum, EventsOf;
    assert |s.granted| !in s.unreleased;
  }

  lemma RefusedInv(s: State, now: int)
    requires Inv(s) && Enabled(s, Ask(now)) && Acquire(s.budget, now).1 != Granted
    ensures Inv(Next(s, Ask(now)))
  {
    var b, s' := s.budget, Next(s, Ask(now));
    RefusalOnlyPrunes(b, now);
    var b' := s'.budget;
    hide Next, CallWindowOk, TokenWindowOk, CallsOk, Acquire, HasRoom, HasTokenRoom, Recorded, Pruned, PrunedTokens;
    assert CallsOk(s') by { RefusedCallsOk(s, now); }
    assert s.lastGrant <= s.clock by { KeptClock(s); }
    KeepCalls(b.minute, s, s');
    KeepCalls(b.hour, s, s');
    KeepCalls(b.day, s, s');
    KeepTokens(b.tokenHour, s, s');
    KeepTokens(b.tokenDay, s, s');
  }

  lemma KeptClock(s: State)
    requires CallsOk(s)
    ensures s.lastGrant <= s.clock
  {
  }

  lemma RefusedCallsOk(s: State, now: int)
    requires CallsOk(s) && Enabled(s, Ask(now)) && Acquire(s.budget, now).1 != Granted
    ensures CallsOk(Next(s, Ask(now)))
  {
    RefusalOnlyPrunes(s.budget, now);
    hide Acquire, TokenSum, EventsOf;
  }

  lemma ReportInv(s: State, call: nat, now: int, tokens: int)
    requires Inv(s) && Enabled(s, Report(call, now, tokens))
    ensures Inv(Next(s, Report(call, now, tokens)))
  {
    var b, s' := s.budget, Next(s, Report(call, now, tokens));
    hide CallWindowOk, TokenWindowOk;
    KeepCalls(b.minute, s, s');
    KeepCalls(b.hour, s, s');
    KeepCalls(b.day, s, s');
    if tokens > 0 {
      assert EventsOf(s'.reports) == EventsOf(s.reports) + [TokenEvent(now, tokens)];
      ReportTokens(b.tokenHour, s, s', call, now, tokens);
      ReportTokens(b.tokenDay, s, s', call, now, tokens);
    } else {
      KeepTokens(b.tokenHour, s, s');
      KeepTokens(b.tokenDay, s, s');
    }
  }

  lemma DoneInv(s: State, call: nat)
    requires Inv(s) && Enabled(s, Done(call))
    ensures Inv(Next(s, Done(call)))
  {
    var b, s' := s.budget, Next(s, Done(call));
    hide CallWindowOk, TokenWindowOk;
    KeepCalls(b.minute, s, s');
    KeepCalls(b.hour, s, s');
    KeepCalls(b.day, s, s');
    KeepTokens(b.tokenHour, s, s');
    KeepTokens(b.tokenDay, s, s');
  }

  lemma NextInv(s: State, e: Event)
    requires Inv(s) && Enabled(s, e)
    ensures Inv(Next(s, e))
  {
    hide Inv;
    match e
    case Ask(now) => if Acquire(s.budget, now).1 == Granted { GrantedInv(s, now); } else { RefusedInv(s, now); }
    case Report(call, now, tokens) => ReportInv(s, call, now, tokens);
    case Done(call) => DoneInv(s, call);
  }

  lemma {:induction false} RunInv(given: Limits, run: seq<State>, events: seq<Event>, k: nat)
    requires Run(given, run, events) && k < |run|
    ensures Inv(run[k]) && SameLimits(run[k].budget, NewBudget(given))
  {
    hide Inv, SameLimits, Next, Enabled, NewBudget;
    if k == 0 {
      StartInv(given, run[0].clock);
      StartLimits(given, run[0].clock);
    } else {
      RunInv(given, run, events, k - 1);
      NextInv(run[k - 1], events[k - 1]);
      NextLimits(run[k - 1], events[k - 1], NewBudget(given));
    }
  }

  lemma StartLimits(given: Limits, clock: int)
    ensures SameLimits(Start(given, clock).budget, NewBudget(given))
  {
  }

  lemma NextLimits(s: State, e: Event, b: Budget)
    requires SameLimits(s.budget, b)
    ensures SameLimits(Next(s, e).budget, b)
  {
  }

  predicate SameLimits(a: Budget, b: Budget) {
    && a.minute.limit == b.minute.limit && a.hour.limit == b.hour.limit && a.day.limit == b.day.limit
    && a.minute.window == b.minute.window && a.hour.window == b.hour.window && a.day.window == b.day.window
    && a.tokenHour.limit == b.tokenHour.limit && a.tokenDay.limit == b.tokenDay.limit
    && a.tokenHour.window == b.tokenHour.window && a.tokenDay.window == b.tokenDay.window
    && a.maxFlight == b.maxFlight
  }

  // ------------------------------------------------------------ main results

  /** Wherever a minute, an hour or a day starts, no more calls are granted in it than its limit. */
  lemma RateBound(given: Limits, run: seq<State>, events: seq<Event>, k: nat, from: int)
    requires Run(given, run, events) && k < |run|
    ensures CountIn(run[k].granted, from, from + MINUTE) <= Normalized(given).perMinute
    ensures CountIn(run[k].granted, from, from + HOUR) <= Normalized(given).perHour
    ensures CountIn(run[k].granted, from, from + DAY) <= Normalized(given).perDay
  {
    RunInv(given, run, events, k);
    var b := run[k].budget;
    assert RateAt(b.minute.limit, b.minute.window, run[k].granted, from);
    assert RateAt(b.hour.limit, b.hour.window, run[k].granted, from);
    assert RateAt(b.day.limit, b.day.window, run[k].granted, from);
  }

  lemma LimitsPositive(given: Limits)
    ensures
      var l := Normalized(given);
      l.perMinute >= 1 && l.perHour >= 1 && l.perDay >= 1 && l.maxConcurrent >= 1 && l.tokensPerHour >= 1 &&
        l.tokensPerDay >= 1
  {
  }

  /** Take away at most as many calls as may be in flight and every interval is under its token limit. */
  lemma TokenBound(given: Limits, run: seq<State>, events: seq<Event>, k: nat, from: int)
    requires Run(given, run, events) && k < |run|
    ensures exists late: set<nat> ::
      |late| <= Normalized(given).maxConcurrent &&
        TokensIn(run[k].reports, from, from + HOUR, late) <= Normalized(given).tokensPerHour - 1
    ensures exists late: set<nat> ::
      |late| <= Normalized(given).maxConcurrent &&
        TokensIn(run[k].reports, from, from + DAY, late) <= Normalized(given).tokensPerDay - 1
  {
    RunInv(given, run, events, k);
    var s := run[k];
    AnyInterval(s.budget.tokenHour, s, from);
    var late: set<nat> :| |late| <= s.budget.maxFlight &&
      Within(s.budget.tokenHour, s.reports, from, from + HOUR, late);
    assert TokensIn(s.reports, from, from + HOUR, late) <= Normalized(given).tokensPerHour - 1;
    AnyInterval(s.budget.tokenDay, s, from);
    var later: set<nat> :| |later| <= s.budget.maxFlight &&
      Within(s.budget.tokenDay, s.reports, from, from + DAY, later);
    assert TokensIn(s.reports, from, from + DAY, later) <= Normalized(given).tokensPerDay - 1;
  }

  /** What a token window stores, expired entries included: the recent reports, under the limit but for a few calls. */
  ghost predicate StoredBound(w: TokenWindow, s: State, from: int, late: set<nat>) {
    && from <= s.clock - w.window
    && w.total == TokenSum(w.events) == TokensIn(s.reports, from, s.clock, {})
    && |late| <= s.budget.maxFlight && TokensIn(s.reports, from, s.clock, late) <= w.limit - 1
  }

  lemma StoredTokens(w: TokenWindow, s: State)
    requires TokenWindowOk(w, s) && CallsOk(s)
    ensures exists from, late :: StoredBound(w, s, from, late)
  {
    var c :| TokensStoredAfter(w, s.reports, s.lastGrant, s.clock, c);
    TokensStored(s.reports, c, s.clock);
    assert Within(w, s.reports, c, s.clock, s.sinceGrant);
    assert StoredBound(w, s, c, s.sinceGrant);
  }

  /** The running totals are the sums they stand for, and the count in flight is the number of calls not released. */
  lemma Accounting(given: Limits, run: seq<State>, events: seq<Event>, k: nat)
    requires Run(given, run, events) && k < |run|
    ensures run[k].budget.inFlight == |run[k].unreleased| <= Normalized(given).maxConcurrent
    ensures run[k].budget.spentTokens == TokenSum(EventsOf(run[k].reports))
    ensures exists from, late :: StoredBound(run[k].budget.tokenHour, run[k], from, late)
    ensures exists from, late :: StoredBound(run[k].budget.tokenDay, run[k], from, late)
  {
    RunInv(given, run, events, k);
    StoredTokens(run[k].budget.tokenHour, run[k]);
    StoredTokens(run[k].budget.tokenDay, run[k]);
  }

  /** A slot is free and every interval ending now has room. */
  ghost predicate RoomEverywhere(l: Limits, s: State, now: int) {
    && |s.unreleased| < l.maxConcurrent
    && CountIn(s.granted, now - MINUTE, now) < l.perMinute && CountIn(s.granted, now - HOUR, now) < l.perHour
    && CountIn(s.granted, now - DAY, now) < l.perDay
    && TokensIn(s.reports, now - HOUR, now, {}) < l.tokensPerHour &&
          TokensIn(s.reports, now - DAY, now, {}) < l.tokensPerDay
  }

  /** A call is granted exactly when a slot is free and every interval ending now has room for it. */
  lemma GrantedIffRoom(given: Limits, run: seq<State>, events: seq<Event>, k: nat, now: int)
    requires Run(given, run, events) && k < |run| && now >= run[k].clock
    ensures Acquire(run[k].budget, now).1 == Granted <==> RoomEverywhere(Normalized(given), run[k], now)
  {
    RunInv(given, run, events, k);
    GrantedIffRoomAt(given, run[k], now);
  }

  lemma GrantedIffRoomAt(given: Limits, s: State, now: int)
    requires Inv(s) && SameLimits(s.budget, NewBudget(given)) && now >= s.clock
    ensures Acquire(s.budget, now).1 == Granted <==> RoomEverywhere(Normalized(given), s, now)
  {
    GrantedIffWindows(s.budget, now);
    hide CallWindowOk, TokenWindowOk, Acquire, HasRoom, HasTokenRoom, CountIn, TokensIn, Pruned, PrunedTokens,
         TokenSum, ReportsOk, EventsOf, Normalized;
    RoomIsCount(s.budget.minute, s, now);
    RoomIsCount(s.budget.hour, s, now);
    RoomIsCount(s.budget.day, s, now);
    TokenRoomIsSum(s.budget.tokenHour, s, now);
    TokenRoomIsSum(s.budget.tokenDay, s, now);
  }

  /** A call is granted when no check refuses it. */
  lemma GrantedIffWindows(b: Budget, now: int)
    ensures
      Acquire(b, now).1 == Granted <==>
        && b.inFlight < b.maxFlight && HasRoom(b.minute, now) && HasRoom(b.hour, now) && HasRoom(b.day, now)
        && HasTokenRoom(b.tokenHour, now) && HasTokenRoom(b.tokenDay, now)
  {
    hide HasRoom, HasTokenRoom, Recorded, Pruned, PrunedTokens;
  }

  lemma RoomIsCount(w: CallWindow, s: State, now: int)
    requires CallWindowOk(w, s) && CallsOk(s) && now >= s.clock
    ensures HasRoom(w, now) <==> CountIn(s.granted, now - w.window, now) < w.limit
  {
    StoresCallsLater(w, s.granted, s.clock, now);
    CountIsLive(s.granted, now - w.window, now);
  }

  lemma {:induction false} CountIsLive(times: seq<int>, cutoff: int, hi: int)
    requires forall i | 0 <= i < |times| :: times[i] <= hi
    ensures CountIn(times, cutoff, hi) == |Live(times, cutoff)|
  {
    if times != [] { CountIsLive(times[..|times| - 1], cutoff, hi); }
  }

  lemma TokenRoomIsSum(w: TokenWindow, s: State, now: int)
    requires TokenWindowOk(w, s) && CallsOk(s) && now >= s.clock
    ensures HasTokenRoom(w, now) <==> TokensIn(s.reports, now - w.window, now, {}) < w.limit
  {
    hide LiveTokens, TokenSum, TokensIn, EventsOf, StoresTokens, TokensOk;
    StoresTokensLater(w, s.reports, s.lastGrant, s.clock, now);
    TokensStored(s.reports, now - w.window, now);
  }

  /** A slot is free and every interval ending now has room for a call. */
  ghost predicate RoomForCall(l: Limits, s: State, now: int) {
    && |s.unreleased| < l.maxConcurrent
    && CountIn(s.granted, now - MINUTE, now) < l.perMinute && CountIn(s.granted, now - HOUR, now) < l.perHour
    && CountIn(s.granted, now - DAY, now) < l.perDay
  }

  /** What a refusal says: that calls are used up, or, where there is room for a call, that tokens are. */
  lemma RefusalSays(given: Limits, run: seq<State>, events: seq<Event>, k: nat, now: int)
    requires Run(given, run, events) && k < |run| && now >= run[k].clock
    ensures
      var verdict := Acquire(run[k].budget, now).1;
      && (verdict == CallBudgetExceeded <==> !RoomForCall(Normalized(given), run[k], now))
      && (verdict == TokenBudgetExceeded <==>
            RoomForCall(Normalized(given), run[k], now) && !RoomEverywhere(Normalized(given), run[k], now))
  {
    RunInv(given, run, events, k);
    RefusalSaysAt(given, run[k], now);
  }

  lemma RefusalSaysAt(given: Limits, s: State, now: int)
    requires Inv(s) && SameLimits(s.budget, NewBudget(given)) && now >= s.clock
    ensures Acquire(s.budget, now).1 == CallBudgetExceeded <==> !RoomForCall(Normalized(given), s, now)
    ensures Acquire(s.budget, now).1 == Granted <==> RoomEverywhere(Normalized(given), s, now)
    ensures RoomEverywhere(Normalized(given), s, now) ==> RoomForCall(Normalized(given), s, now)
  {
    GrantedIffRoomAt(given, s, now);
    CallsRefusedIff(s.budget, now);
    hide CallWindowOk, TokenWindowOk, Acquire, HasRoom, HasTokenRoom, CountIn, TokensIn, Pruned, PrunedTokens,
         TokenSum, ReportsOk, EventsOf, Normalized;
    RoomIsCount(s.budget.minute, s, now);
    RoomIsCount(s.budget.hour, s, now);
    RoomIsCount(s.budget.day, s, now);
  }

  lemma CallsRefusedIff(b: Budget, now: int)
    ensures
      Acquire(b, now).1 == CallBudgetExceeded <==>
        !(b.inFlight < b.maxFlight && HasRoom(b.minute, now) && HasRoom(b.hour, now) && HasRoom(b.day, now))
  {
    hide HasRoom, HasTokenRoom, Recorded, Pruned, PrunedTokens;
  }

  function Asks(events: seq<Event>): nat {
    if events == [] then 0 else Asks(events[..|events| - 1]) + (if events[|events| - 1].Ask? then 1 else 0)
  }

  /** Every ask is either granted or counted as refused. */
  lemma {:induction false} AsksCounted(given: Limits, run: seq<State>, events: seq<Event>, k: nat)
    requires Run(given, run, events) && k < |run|
    ensures run[k].budget.refusals + |run[k].granted| == Asks(events[..k])
  {
    if k > 0 {
      AsksCounted(given, run, events, k - 1);
      assert events[..k][..k - 1] == events[..k - 1] && events[..k][k - 1] == events[k - 1];
      NextCounts(run[k - 1], events[k - 1]);
    }
  }

  lemma NextCounts(s: State, e: Event)
    ensures
      Next(s, e).budget.refusals + |Next(s, e).granted| == s.budget.refusals + |s.granted| + (if e.Ask? then 1 else 0)
  {
    hide HasRoom, HasTokenRoom, Pruned, PrunedTokens;
  }
}
