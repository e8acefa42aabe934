/**
 * Intervals that count both their ends. An event exactly as old as its window is dropped
 * (provider_budget_limits.go lines 93-103), so such an interval can hold more calls than its limit; this
 * module says exactly when, and by how much at most.
 */
module ProviderBudgetEdges {
  import opened ProviderBudget

  /** Some run comes to this state. */
  ghost predicate Reaches(given: Limits, s: State) {
    exists run: seq<State>, events: seq<Event> :: |run| > 0 && Run(given, run, events) && run[|run| - 1] == s
  }

  /** The calls of an interval that counts both its ends. */
  function Closed(times: seq<int>, window: int, from: int): nat {
    CountIn(times, from - 1, from + window)
  }

  ghost predicate ClosedWithin(given: Limits, window: int, limit: int) {
    forall s: State, from: int | Reaches(given, s) :: Closed(s.granted, window, from) <= limit
  }

  function Min(a: int, b: int): int {
    if a <= b then a else b
  }

  // ------------------------------------------------------------------ counting

  lemma CountSnoc(times: seq<int>, t: int, lo: int, hi: int)
    ensures CountIn(times + [t], lo, hi) == CountIn(times, lo, hi) + (if lo < t <= hi then 1 else 0)
  {
    assert (times + [t])[..|times|] == times;
  }

  lemma {:induction false} CountSplit(times: seq<int>, lo: int, mid: int, hi: int)
    requires lo <= mid <= hi
    ensures CountIn(times, lo, hi) == CountIn(times, lo, mid) + CountIn(times, mid, hi)
  {
    if times != [] { CountSplit(times[..|times| - 1], lo, mid, hi); }
  }

  lemma CountWider(times: seq<int>, lo: int, hi: int, lower: int, higher: int)
    requires lower <= lo && hi <= higher
    ensures CountIn(times, lo, hi) <= CountIn(times, lower, higher)
  {
    if lo <= hi {
      CountSplit(times, lower, lo, higher);
      CountSplit(times, lo, hi, higher);
    } else {
      CountNone(times, lo, hi);
    }
  }

  /** No time lies in the interval. */
  lemma {:induction false} CountNone(times: seq<int>, lo: int, hi: int)
    requires forall i | 0 <= i < |times| :: !(lo < times[i] <= hi)
    ensures CountIn(times, lo, hi) == 0
  {
    if times != [] { CountNone(times[..|times| - 1], lo, hi); }
  }

  // -------------------------------------------------------------- upper bounds

  lemma HalfOpen(given: Limits, s: State, from: int)
    requires Reaches(given, s)
    ensures CountIn(s.granted, from, from + MINUTE) <= Normalized(given).perMinute
    ensures CountIn(s.granted, from, from + HOUR) <= Normalized(given).perHour
    ensures CountIn(s.granted, from, from + DAY) <= Normalized(given).perDay
  {
    hide *;
    var run, events := Witness(given, s);
    RateBound(given, run, events, |run| - 1, from);
  }

  lemma Witness(given: Limits, s: State) returns (run: seq<State>, events: seq<Event>)
    requires Reaches(given, s)
    ensures |run| > 0 && Run(given, run, events) && run[|run| - 1] == s
  {
    run, events :| |run| > 0 && Run(given, run, events) && run[|run| - 1] == s;
  }

  lemma {:induction false} Minutes(given: Limits, s: State, from: int, n: nat)
    requires Reaches(given, s)
    ensures CountIn(s.granted, from, from + n * MINUTE) <= n * Normalized(given).perMinute
  {
    hide Reaches, Normalized;
    if n == 0 {
      CountNone(s.granted, from, from);
    } else {
      var mid := from + (n - 1) * MINUTE;
      Minutes(given, s, from, n - 1);
      HalfOpen(given, s, mid);
      assert mid + MINUTE == from + n * MINUTE;
      CountSplit(s.granted, from, mid, mid + MINUTE);
    }
  }

  lemma {:induction false} Hours(given: Limits, s: State, from: int, n: nat)
    requires Reaches(given, s)
    ensures CountIn(s.granted, from, from + n * HOUR) <= n * Normalized(given).perHour
  {
    hide Reaches, Normalized;
    if n == 0 {
      CountNone(s.granted, from, from);
    } else {
      var mid := from + (n - 1) * HOUR;
      Hours(given, s, from, n - 1);
      HalfOpen(given, s, mid);
      assert mid + HOUR == from + n * HOUR;
      CountSplit(s.granted, from, mid, mid + HOUR);
    }
  }

  /** What closed intervals hold at most, under all three limits together. */
  lemma ClosedBounds(given: Limits, s: State, from: int)
    requires Reaches(given, s)
    ensures
      var l := Normalized(given);
      && Closed(s.granted, MINUTE, from) <= Min(2 * l.perMinute, Min(l.perHour, l.perDay))
      && Closed(s.granted, HOUR, from) <= Min(Min(2 * l.perHour, 61 * l.perMinute), l.perDay)
      && Closed(s.granted, DAY, from) <= Min(2 * l.perDay,
                                             Min(1441 * l.perMinute, 24 * l.perHour + Min(l.perMinute, l.perHour)))
  {
    hide Reaches, CountIn, Normalized;
    var times, start := s.granted, from - 1;
    HalfOpen(given, s, start);
    HalfOpen(given, s, from);
    Minutes(given, s, start, 2);
    Minutes(given, s, start, 61);
    Minutes(given, s, start, 1441);
    Hours(given, s, start, 24);
    CountWider(times, start, from + MINUTE, start, start + 2 * MINUTE);
    CountWider(times, start, from + MINUTE, start, start + HOUR);
    CountWider(times, start, from + MINUTE, start, start + DAY);
    CountWider(times, start, from + HOUR, start, start + 61 * MINUTE);
    CountWider(times, start, from + HOUR, start, start + DAY);
    CountWider(times, start, from + DAY, start, start + 1441 * MINUTE);
    CountSplit(times, start, start + HOUR, from + HOUR);
    CountWider(times, start + HOUR, from + HOUR, from, from + HOUR);
    CountSplit(times, start, start + DAY, from + DAY);
    CountWider(times, start + DAY, from + DAY, from, from + DAY);
    HalfOpen(given, s, start + DAY);
    CountWider(times, start + DAY, from + DAY, start + DAY, start + DAY + MINUTE);
    CountWider(times, start + DAY, from + DAY, start + DAY, start + DAY + HOUR);
  }

  // ---------------------------------------------------------- runs to a schedule

  /** Nothing is in flight and no tokens have been reported. */
  predicate Calm(s: State) {
    s.unreleased == {} && s.reports == []
  }

  lemma {:induction false} ReachesNext(given: Limits, s: State, e: Event)
    requires Reaches(given, s) && Enabled(s, e)
    ensures Reaches(given, Next(s, e))
  {
    hide Enabled, Next;
    var run, events := Witness(given, s);
    var run', events' := run + [Next(s, e)], events + [e];
    forall i | 0 <= i < |events'| ensures Enabled(run'[i], events'[i]) && run'[i + 1] == Next(run'[i], events'[i]) {
      if i < |events| { assert Enabled(run[i], events[i]) && run[i + 1] == Next(run[i], events[i]); }
    }
    assert Run(given, run', events') && run'[|run'| - 1] == Next(s, e);
  }

  /** Room for so many more calls at this moment. */
  predicate RoomFor(l: Limits, times: seq<int>, now: int, n: nat) {
    && CountIn(times, now - MINUTE, now) + n <= l.perMinute && CountIn(times, now - HOUR, now) + n <= l.perHour
    && CountIn(times, now - DAY, now) + n <= l.perDay
  }

  /** A call is granted and at once released. */
  lemma GrantOne(given: Limits, s: State, now: int) returns (s': State)
    requires Reaches(given, s) && Calm(s) && s.clock <= now && RoomFor(Normalized(given), s.granted, now, 1)
    ensures Reaches(given, s') && Calm(s') && s'.clock == now && s'.granted == s.granted + [now]
  {
    hide Reaches, Acquire;
    var run, events := Witness(given, s);
    GrantedIffRoom(given, run, events, |run| - 1, now);
    LimitsPositive(given);
    assert Acquire(s.budget, now).1 == Granted;
    var s1 := Next(s, Ask(now));
    ReachesNext(given, s, Ask(now));
    s' := Next(s1, Done(|s.granted|));
    ReachesNext(given, s1, Done(|s.granted|));
  }

  lemma {:induction false} Burst(given: Limits, s: State, now: int, n: nat) returns (s': State)
    requires Reaches(given, s) && Calm(s) && s.clock <= now && RoomFor(Normalized(given), s.granted, now, n)
    ensures Reaches(given, s') && Calm(s') && s.clock <= s'.clock <= now
    ensures s'.granted == s.granted + seq(n, _ => now)
    decreases n
  {
    hide Reaches, Normalized;
    if n == 0 {
      s' := s;
    } else {
      var s1 := GrantOne(given, s, now);
      CountSnoc(s.granted, now, now - MINUTE, now);
      CountSnoc(s.granted, now, now - HOUR, now);
      CountSnoc(s.granted, now, now - DAY, now);
      s' := Burst(given, s1, now, n - 1);
      assert [now] + seq(n - 1, _ => now) == seq(n, _ => now);
      assert s.granted + [now] + seq(n - 1, _ => now) == s.granted + ([now] + seq(n - 1, _ => now));
    }
  }

  lemma {:induction false} CountBurst(times: seq<int>, t: int, n: nat, lo: int, hi: int)
    ensures CountIn(times + seq(n, _ => t), lo, hi) == CountIn(times, lo, hi) + (if lo < t <= hi then n else 0)
  {
    if n == 0 {
      assert times + [] == times;
    } else {
      CountBurst(times, t, n - 1, lo, hi);
      assert times + seq(n, _ => t) == (times + seq(n - 1, _ => t)) + [t];
      CountSnoc(times + seq(n - 1, _ => t), t, lo, hi);
    }
  }

  /** How many calls a schedule makes in the minutes from a up to b; it makes none before the first. */
  function Total(n: nat -> nat, a: int, b: int): nat
    decreases b
  {
    if b <= a || b <= 0 then 0 else Total(n, a, b - 1) + n(b - 1)
  }

  ghost predicate Paces(l: Limits, n: nat -> nat, minutes: nat) {
    forall k: nat | k < minutes :: Fits(l, n, k)
  }

  predicate Fits(l: Limits, n: nat -> nat, k: nat) {
    n(k) <= l.perMinute && Total(n, k - 59, k + 1) <= l.perHour && Total(n, k - 1439, k + 1) <= l.perDay
  }

  predicate Counts(times: seq<int>, n: nat -> nat, a: int, b: int) {
    CountIn(times, (a - 1) * MINUTE, (b - 1) * MINUTE) == Total(n, a, b)
  }

  /** The calls are those of the schedule's first minutes. */
  ghost predicate Follows(times: seq<int>, n: nat -> nat, minutes: nat) {
    && (forall i | 0 <= i < |times| :: 0 <= times[i] <= (minutes - 1) * MINUTE)
    && forall a: int, b: int | a <= b <= minutes :: Counts(times, n, a, b)
  }

  /** At the start of its next minute the windows hold what the schedule put into them. */
  lemma RoomToFollow(l: Limits, times: seq<int>, n: nat -> nat, k: nat)
    requires Follows(times, n, k) && Fits(l, n, k)
    ensures RoomFor(l, times, k * MINUTE, n(k))
  {
    var now, last := k * MINUTE, (k - 1) * MINUTE;
    CountNone(times, last, now);
    assert Counts(times, n, k - 59, k) || k - 59 > k;
    CountSplit(times, now - HOUR, last, now);
    assert now - HOUR == (k - 59 - 1) * MINUTE;
    assert Counts(times, n, k - 1439, k);
    CountSplit(times, now - DAY, last, now);
    assert now - DAY == (k - 1439 - 1) * MINUTE;
  }

  lemma FollowsNext(times: seq<int>, n: nat -> nat, k: nat, times': seq<int>)
    requires Follows(times, n, k) && times' == times + seq(n(k), _ => k * MINUTE)
    ensures Follows(times', n, k + 1)
  {
    var now, last := k * MINUTE, (k - 1) * MINUTE;
    forall a: int, b: int | a <= b <= k + 1 ensures Counts(times', n, a, b) {
      var lo, hi := (a - 1) * MINUTE, (b - 1) * MINUTE;
      CountBurst(times, now, n(k), lo, hi);
      if b <= k {
        assert Counts(times, n, a, b);
      } else if a <= k {
        assert Counts(times, n, a, k);
        CountNone(times, last, now);
        CountSplit(times, lo, last, now);
      } else {
        CountNone(times, lo, hi);
      }
    }
  }

  lemma {:induction false} Paced(given: Limits, n: nat -> nat, minutes: nat) returns (s: State)
    requires Paces(Normalized(given), n, minutes)
    ensures Reaches(given, s) && Calm(s) && s.clock <= (if minutes == 0 then 0 else (minutes - 1) * MINUTE)
    ensures Follows(s.granted, n, minutes)
  {
    hide Reaches, Normalized, Follows, Fits;
    if minutes == 0 {
      s := Start(given, 0);
      StartReached(given);
      NothingFollows(n);
    } else {
      var k: nat := minutes - 1;
      assert Fits(Normalized(given), n, k);
      var s0 := Paced(given, n, k);
      RoomToFollow(Normalized(given), s0.granted, n, k);
      s := Burst(given, s0, k * MINUTE, n(k));
      FollowsNext(s0.granted, n, k, s.granted);
    }
  }

  lemma StartReached(given: Limits)
    ensures Reaches(given, Start(given, 0))
  {
    var run: seq<State>, events: seq<Event> := [Start(given, 0)], [];
    assert Run(given, run, events) && run[|run| - 1] == Start(given, 0);
  }

  lemma NothingFollows(n: nat -> nat)
    ensures Follows([], n, 0)
  {
  }

  // --------------------------------------------------- a schedule that exceeds

  /** An hour's bursts: as much as the minute allows until the hour's calls are made. */
  function Pattern(m: nat, h: nat, i: nat): nat {
    if (i + 1) * m <= h then m else if i * m <= h then h - i * m else 0
  }

  function Hourly(m: nat, h: nat): nat -> nat {
    (k: nat) => Pattern(m, h, k % 60)
  }

  /** The hourly bursts up to a number of calls, and some more calls in one last minute. */
  function ExceedingAt(m: nat, h: nat, minutes: nat, calls: nat, more: nat, k: nat): nat {
    if k > minutes then 0
    else if k == minutes then more
    else
      var before, after := Total(Hourly(m, h), 0, k), Total(Hourly(m, h), 0, k + 1);
      if after <= calls then Hourly(m, h)(k) else if before <= calls then calls - before else 0
  }

  function Exceeding(m: nat, h: nat, minutes: nat, calls: nat, more: nat): nat -> nat {
    (k: nat) => ExceedingAt(m, h, minutes, calls, more, k)
  }

  lemma {:induction false} TotalSplit(n: nat -> nat, a: int, b: int, c: int)
    requires a <= b <= c
    ensures Total(n, a, c) == Total(n, a, b) + Total(n, b, c)
    decreases c
  {
    if b < c && 0 < c { TotalSplit(n, a, b, c - 1); }
  }

  lemma {:induction false} PatternTotal(m: nat, h: nat, b: nat)
    requires b <= 60
    ensures Total(Hourly(m, h), 0, b) == Min(b * m, h)
  {
    if b > 0 {
      PatternTotal(m, h, b - 1);
      assert Hourly(m, h)(b - 1) == Pattern(m, h, b - 1);
      PatternAt(m, h, b - 1);
    }
  }

  lemma PatternAt(m: nat, h: nat, i: nat)
    ensures Pattern(m, h, i) == Min((i + 1) * m, h) - Min(i * m, h)
  {
    assert (i + 1) * m == i * m + m;
  }

  lemma {:induction false} AnyHour(m: nat, h: nat, a: nat)
    ensures Total(Hourly(m, h), a, a + 60) == Min(60 * m, h)
  {
    var q := Hourly(m, h);
    if a == 0 {
      PatternTotal(m, h, 60);
    } else {
      AnyHour(m, h, a - 1);
      TotalSplit(q, a - 1, a, a + 60);
      assert Total(q, a - 1, a + 60) == Total(q, a - 1, a + 59) + q(a + 59);
      assert Total(q, a - 1, a) == q(a - 1) && (a + 59) % 60 == (a - 1) % 60;
    }
  }

  lemma TotalEmpty(n: nat -> nat)
    ensures Total(n, 0, 0) == 0
  {
  }

  lemma {:induction false} WholeHours(m: nat, h: nat, hours: nat)
    ensures Total(Hourly(m, h), 0, 60 * hours) == hours * Min(60 * m, h)
  {
    hide Total, Hourly, Min;
    if hours == 0 {
      TotalEmpty(Hourly(m, h));
    } else {
      WholeHours(m, h, hours - 1);
      AnyHour(m, h, 60 * (hours - 1));
      TotalSplit(Hourly(m, h), 0, 60 * (hours - 1), 60 * hours);
    }
  }

  lemma CutAt(m: nat, h: nat, minutes: nat, calls: nat, more: nat, k: nat)
    requires k < minutes
    ensures
      var q, n := Hourly(m, h), Exceeding(m, h, minutes, calls, more);
      && n(k) <= q(k)
      && n(k) == Min(Total(q, 0, k + 1), calls) - Min(Total(q, 0, k), calls)
  {
    assert Total(Hourly(m, h), 0, k + 1) == Total(Hourly(m, h), 0, k) + Hourly(m, h)(k);
    hide Total, Hourly, Pattern;
  }

  /** Cut off at so many calls, the schedule makes no more than the bursts in any stretch. */
  lemma {:induction false} CutTotal(m: nat, h: nat, minutes: nat, calls: nat, more: nat, a: int, b: nat)
    requires a <= b <= minutes
    ensures
      var n := Exceeding(m, h, minutes, calls, more);
      && Total(n, 0, b) == Min(Total(Hourly(m, h), 0, b), calls)
      && Total(n, a, b) <= Total(Hourly(m, h), a, b)
    decreases b
  {
    hide Hourly, Exceeding;
    if b > 0 {
      CutAt(m, h, minutes, calls, more, b - 1);
      CutTotal(m, h, minutes, calls, more, if a < b then a else b - 1, b - 1);
    }
  }

  /** A run in which one closed interval from time zero holds one call more than a limit. */
  lemma Exceeds(given: Limits, minutes: nat, calls: nat, more: nat) returns (s: State)
    requires minutes >= 1 && Paces(Normalized(given), Planned(given, minutes, calls, more), minutes + 1)
    ensures Reaches(given, s)
    ensures Closed(s.granted, minutes * MINUTE, 0) == Total(Planned(given, minutes, calls, more), 0, minutes + 1)
  {
    hide Reaches, Normalized, Planned, Paces;
    var n := Planned(given, minutes, calls, more);
    s := Paced(given, n, minutes + 1);
    assert Counts(s.granted, n, 0, minutes + 1);
    CountNone(s.granted, -MINUTE, -1);
    CountSplit(s.granted, -MINUTE, -1, minutes * MINUTE);
  }

  function Planned(given: Limits, minutes: nat, calls: nat, more: nat): nat -> nat {
    var l := Normalized(given);
    LimitsPositive(given);
    Exceeding(l.perMinute, l.perHour, minutes, calls, more)
  }

  lemma TotalFromZero(n: nat -> nat, a: int, b: nat)
    requires a <= 0
    ensures Total(n, a, b) == Total(n, 0, b)
  {
    TotalSplit(n, a, 0, b);
  }

  /** No hour of the bursts holds more than an hour's calls. */
  lemma HourOfBursts(m: nat, h: nat, k: nat)
    ensures Total(Hourly(m, h), k - 59, k + 1) <= Min(60 * m, h)
  {
    if k >= 59 {
      AnyHour(m, h, k - 59);
    } else {
      TotalFromZero(Hourly(m, h), k - 59, k + 1);
      PatternTotal(m, h, k + 1);
      MoreMinutes(k + 1, 60, m);
    }
  }

  lemma MoreMinutes(a: nat, b: nat, m: nat)
    requires a <= b
    ensures a * m <= b * m
  {
  }

  /** The cut schedule keeps all windows; its last minute must be checked. */
  lemma PlannedPaces(given: Limits, minutes: nat, calls: nat, more: nat)
    requires 1 <= minutes <= 1440 && calls <= Normalized(given).perDay && more <= Normalized(given).perMinute
    requires Total(Planned(given, minutes, calls, more), minutes - 59, minutes) + more <= Normalized(given).perHour
    requires Total(Planned(given, minutes, calls, more), minutes - 1439, minutes) + more <= Normalized(given).perDay
    ensures Paces(Normalized(given), Planned(given, minutes, calls, more), minutes + 1)
  {
    LimitsPositive(given);
    var l := Normalized(given);
    var m, h, n := l.perMinute, l.perHour, Planned(given, minutes, calls, more);
    hide Normalized, Total, Hourly;
    forall k: nat | k < minutes + 1 ensures Fits(l, n, k) {
      LastMinute(n, k - 59, k);
      LastMinute(n, k - 1439, k);
      if k < minutes {
        CutAt(m, h, minutes, calls, more, k);
        BurstWithinMinute(m, h, k);
        CutTotal(m, h, minutes, calls, more, k - 59, k + 1);
        HourOfBursts(m, h, k);
        TotalFromZero(n, k - 1439, k + 1);
        CutTotal(m, h, minutes, calls, more, 0, k + 1);
      }
    }
  }

  lemma LastMinute(n: nat -> nat, a: int, k: nat)
    requires a <= k
    ensures Total(n, a, k + 1) == Total(n, a, k) + n(k)
  {
  }

  lemma BurstWithinMinute(m: nat, h: nat, k: nat)
    ensures Hourly(m, h)(k) <= m
  {
    assert (k % 60 + 1) * m == k % 60 * m + m;
  }

  /** The first minute of the schedule is not empty. */
  lemma FirstMinute(m: nat, h: nat, minutes: nat, calls: nat, more: nat)
    requires m >= 1 && h >= 1 && minutes >= 1 && calls >= 1
    ensures Total(Exceeding(m, h, minutes, calls, more), 0, 1) == Min(Min(m, h), calls) >= 1
    ensures Hourly(m, h)(0) == Min(m, h)
  {
    CutTotal(m, h, minutes, calls, more, 0, 1);
    PatternTotal(m, h, 1);
    assert Total(Hourly(m, h), 0, 1) == Hourly(m, h)(0);
  }

  lemma PlannedIs(given: Limits, minutes: nat, calls: nat, more: nat)
    ensures
      var l := Normalized(given);
      && l.perMinute >= 1 && l.perHour >= 1 && l.perDay >= 1
      && Planned(given, minutes, calls, more) == Exceeding(l.perMinute, l.perHour, minutes, calls, more)
  {
    LimitsPositive(given);
  }

  /** The last hour of a day of bursts, without its first minute. */
  lemma LastHourOfBursts(m: nat, h: nat)
    ensures Total(Hourly(m, h), 1381, 1440) == Min(60 * m, h) - Hourly(m, h)(0)
  {
    AnyHour(m, h, 1380);
    TotalSplit(Hourly(m, h), 1380, 1381, 1440);
    assert Total(Hourly(m, h), 1380, 1381) == Hourly(m, h)(1380);
  }

  lemma MinuteExceeded(given: Limits) returns (s: State)
    requires Normalized(given).perHour > Normalized(given).perMinute &&
      Normalized(given).perDay > Normalized(given).perMinute
    ensures Reaches(given, s) && Closed(s.granted, MINUTE, 0) == Normalized(given).perMinute + 1
  {
    hide Normalized, Total, Hourly, Planned, Exceeding, Closed, Reaches;
    PlannedIs(given, 0, 0, 0);
    var m: nat := Normalized(given).perMinute;
    PlannedIs(given, 1, m, 1);
    var n := Planned(given, 1, m, 1);
    FirstMinute(m, Normalized(given).perHour, 1, m, 1);
    TotalFromZero(n, -58, 1);
    TotalFromZero(n, -1438, 1);
    PlannedPaces(given, 1, m, 1);
    s := Exceeds(given, 1, m, 1);
    LastMinute(n, 0, 1);
    LastIs(m, Normalized(given).perHour, 1, m, 1);
  }

  lemma LastIs(m: nat, h: nat, minutes: nat, calls: nat, more: nat)
    ensures Exceeding(m, h, minutes, calls, more)(minutes) == more
  {
  }

  lemma HourExceeded(given: Limits) returns (s: State)
    requires Normalized(given).perDay > Normalized(given).perHour &&
      61 * Normalized(given).perMinute > Normalized(given).perHour
    ensures Reaches(given, s) && Closed(s.granted, HOUR, 0) == Normalized(given).perHour + 1
  {
    hide Normalized, Total, Hourly, Planned, Exceeding, Closed, Reaches;
    PlannedIs(given, 0, 0, 0);
    var m: nat, h: nat := Normalized(given).perMinute, Normalized(given).perHour;
    var calls: nat := Min(60 * m, h);
    var more: nat := h + 1 - calls;
    PlannedIs(given, 60, calls, more);
    var n := Planned(given, 60, calls, more);
    FirstMinute(m, h, 60, calls, more);
    PatternTotal(m, h, 60);
    CutTotal(m, h, 60, calls, more, 0, 60);
    TotalSplit(n, 0, 1, 60);
    TotalFromZero(n, -1379, 60);
    PlannedPaces(given, 60, calls, more);
    s := Exceeds(given, 60, calls, more);
    LastMinute(n, 0, 60);
    LastIs(m, h, 60, calls, more);
  }

  lemma DayExceeded(given: Limits) returns (s: State)
    requires 1441 * Normalized(given).perMinute > Normalized(given).perDay
    requires 24 * Normalized(given).perHour +
      Min(Normalized(given).perMinute, Normalized(given).perHour) > Normalized(given).perDay
    ensures Reaches(given, s) && Closed(s.granted, DAY, 0) == Normalized(given).perDay + 1
  {
    hide Normalized, Total, Hourly, Planned, Exceeding, Closed, Reaches;
    PlannedIs(given, 0, 0, 0);
    var m: nat, h: nat, d: nat := Normalized(given).perMinute, Normalized(given).perHour, Normalized(given).perDay;
    var hour: nat := Min(60 * m, h);
    var calls: nat := Min(d, 24 * hour);
    var more: nat := d + 1 - calls;
    PlannedIs(given, 1440, calls, more);
    var n := Planned(given, 1440, calls, more);
    FirstMinute(m, h, 1440, calls, more);
    WholeHours(m, h, 24);
    CutTotal(m, h, 1440, calls, more, 0, 1440);
    TotalSplit(n, 0, 1, 1440);
    LastHourOfBursts(m, h);
    CutTotal(m, h, 1440, calls, more, 1381, 1440);
    PlannedPaces(given, 1440, calls, more);
    s := Exceeds(given, 1440, calls, more);
    LastMinute(n, 0, 1440);
    LastIs(m, h, 1440, calls, more);
  }

  // ------------------------------------------------------------ main results

  /** A closed minute keeps the minute's limit in every run exactly when a longer window's limit is no larger. */
  lemma ClosedMinuteIff(given: Limits)
    ensures
      var l := Normalized(given);
      ClosedWithin(given, MINUTE, l.perMinute) <==> l.perHour <= l.perMinute || l.perDay <= l.perMinute
  {
    hide Normalized, Closed, Reaches;
    var l := Normalized(given);
    if l.perHour <= l.perMinute || l.perDay <= l.perMinute {
      forall s: State, from: int | Reaches(given, s) ensures Closed(s.granted, MINUTE, from) <= l.perMinute {
        ClosedBounds(given, s, from);
      }
    } else {
      var s := MinuteExceeded(given);
    }
  }

  /** Likewise for the hour; here the minute's limit can keep it too, having room for sixty-one bursts. */
  lemma ClosedHourIff(given: Limits)
    ensures
      var l := Normalized(given);
      ClosedWithin(given, HOUR, l.perHour) <==> l.perDay <= l.perHour || 61 * l.perMinute <= l.perHour
  {
    hide Normalized, Closed, Reaches;
    var l := Normalized(given);
    if l.perDay <= l.perHour || 61 * l.perMinute <= l.perHour {
      forall s: State, from: int | Reaches(given, s) ensures Closed(s.granted, HOUR, from) <= l.perHour {
        ClosedBounds(given, s, from);
      }
    } else {
      var s := HourExceeded(given);
    }
  }

  /** Likewise for the day, which the minute's and the hour's limits can keep. */
  lemma ClosedDayIff(given: Limits)
    ensures
      var l := Normalized(given);
      ClosedWithin(given, DAY, l.perDay) <==>
        1441 * l.perMinute <= l.perDay || 24 * l.perHour + Min(l.perMinute, l.perHour) <= l.perDay
  {
    hide Normalized, Closed, Reaches;
    var l := Normalized(given);
    if 1441 * l.perMinute <= l.perDay || 24 * l.perHour + Min(l.perMinute, l.perHour) <= l.perDay {
      forall s: State, from: int | Reaches(given, s) ensures Closed(s.granted, DAY, from) <= l.perDay {
        ClosedBounds(given, s, from);
      }
    } else {
      var s := DayExceeded(given);
    }
  }
}
