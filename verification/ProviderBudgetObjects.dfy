/**
 * The windows and the budgeted provider as the objects that are kept: events live in a backing array that
 * is compacted in place and grown when full. Each method leaves the value that ProviderBudget prescribes.
 * Models provider_budget_limits.go lines 81-235 and provider_budget_next.go lines 18-28.
 */
module ProviderBudgetObjects {
  import opened ProviderBudget

  /** What is kept of the first i events. */
  ghost function LiveUpTo(events: seq<int>, i: nat, cutoff: int): seq<int> requires i <= |events| {
    Live(events[..i], cutoff)
  }

  lemma LiveUpToEnds(events: seq<int>, cutoff: int)
    ensures LiveUpTo(events, 0, cutoff) == [] && LiveUpTo(events, |events|, cutoff) == Live(events, cutoff)
  {
    assert events[..|events|] == events;
  }

  lemma LiveUpToNext(events: seq<int>, i: nat, cutoff: int)
    requires i < |events|
    ensures
      var kept, next := LiveUpTo(events, i, cutoff), LiveUpTo(events, i + 1, cutoff);
      if events[i] > cutoff then |next| == |kept| + 1 && next[|kept|] == events[i] && forall j | 0 <= j < |kept| ::
        next[j] == kept[j]
      else next == kept
  {
    assert events[..i + 1] == events[..i] + [events[i]];
    LiveSnoc(events[..i], events[i], cutoff);
  }

  /** Moves the calls after the cutoff to the front, in order. */
  method CompactCalls(events: array<int>, len: nat, ghost was: seq<int>, cutoff: int) returns (live: nat)
    requires |was| == len <= events.Length && forall j | 0 <= j < len :: events[j] == was[j]
    modifies events
    ensures live == |Live(was, cutoff)| <= len && forall j | 0 <= j < live :: events[j] == Live(was, cutoff)[j]
  {
    hide *;
    live := 0;
    var i := 0;
    LiveUpToEnds(was, cutoff);
    while i < len
      invariant live <= i <= len
      invariant forall j | i <= j < len :: events[j] == was[j]
      invariant |LiveUpTo(was, i, cutoff)| == live
      invariant forall j | 0 <= j < live :: events[j] == LiveUpTo(was, i, cutoff)[j]
    {
      LiveUpToNext(was, i, cutoff);
      var event := events[i];
      if event > cutoff {
        events[live] := event;
        live := live + 1;
      }
      i := i + 1;
    }
  }

  class CallWindowObject {
    const limit: int
    const window: int
    var events: array<int>
    var len: nat

    ghost predicate Valid() reads this {
      len <= events.Length
    }

    ghost function Value(): CallWindow reads this, events requires Valid() {
      CallWindow(limit, window, events[..len])
    }

    constructor (limit: int, window: int)
      ensures Valid() && fresh(events) && Value() == CallWindow(limit, window, [])
    {
      this.limit, this.window := limit, window;
      events, len := new int[0], 0;
    }

    method HasRoom(now: int) returns (room: bool)
      requires Valid()
      modifies this`len, events
      ensures Valid()
      ensures Value() == Pruned(old(Value()), now)
      ensures room == ProviderBudget.HasRoom(old(Value()), now)
    {
      ghost var was := events[..len];
      len := CompactCalls(events, len, was, now - window);
      assert events[..len] == Live(was, now - window);
      room := len < limit;
    }

    method Record(now: int)
      requires Valid()
      modifies this, events
      ensures Valid() && (events == old(events) || fresh(events))
      ensures Value() == Recorded(old(Value()), now)
    {
      if len == events.Length {
        var grown := new int[2 * len + 1];
        for i := 0 to len
          invariant grown[..i] == events[..i]
          modifies grown
        {
          grown[i] := events[i];
        }
        events := grown;
      }
      events[len] := now;
      len := len + 1;
    }
  }

  ghost function TokensUpTo(events: seq<TokenEvent>, i: nat, cutoff: int): seq<TokenEvent> requires i <= |events| {
    LiveTokens(events[..i], cutoff)
  }

  ghost function SumUpTo(events: seq<TokenEvent>, i: nat, cutoff: int): int requires i <= |events| {
    TokenSum(TokensUpTo(events, i, cutoff))
  }

  lemma TokensUpToEnds(events: seq<TokenEvent>, cutoff: int)
    ensures TokensUpTo(events, 0, cutoff) == [] && TokensUpTo(events, |events|, cutoff) == LiveTokens(events, cutoff)
    ensures SumUpTo(events, 0, cutoff) == 0 && SumUpTo(events, |events|, cutoff) == TokenSum(LiveTokens(events, cutoff))
  {
    assert events[..|events|] == events;
  }

  lemma TokensUpToNext(events: seq<TokenEvent>, i: nat, cutoff: int)
    requires i < |events|
    ensures
      var kept, next := TokensUpTo(events, i, cutoff), TokensUpTo(events, i + 1, cutoff);
      if events[i].at > cutoff then |next| == |kept| + 1 && next[|kept|] == events[i] && forall j | 0 <= j < |kept| ::
        next[j] == kept[j]
      else next == kept
    ensures SumUpTo(events, i + 1, cutoff) ==
      SumUpTo(events, i, cutoff) + (if events[i].at > cutoff then events[i].tokens else 0)
  {
    assert TokensUpTo(events, i, cutoff) + [] == TokensUpTo(events, i, cutoff);
    assert events[..i + 1] == events[..i] + [events[i]];
  }

  /** Moves the events after the cutoff to the front, in order, and adds up their tokens. */
  method Compact(events: array<TokenEvent>, len: nat, ghost was: seq<TokenEvent>, cutoff: int)
    returns (live: nat, sum: int)
    requires |was| == len <= events.Length && forall j | 0 <= j < len :: events[j] == was[j]
    modifies events
    ensures live == |LiveTokens(was, cutoff)| <= len && sum == TokenSum(LiveTokens(was, cutoff))
    ensures forall j | 0 <= j < live :: events[j] == LiveTokens(was, cutoff)[j]
  {
    hide *;
    live, sum := 0, 0;
    var i := 0;
    TokensUpToEnds(was, cutoff);
    while i < len
      invariant live <= i <= len
      invariant forall j | i <= j < len :: events[j] == was[j]
      invariant |TokensUpTo(was, i, cutoff)| == live
      invariant forall j | 0 <= j < live :: events[j] == TokensUpTo(was, i, cutoff)[j]
      invariant sum == SumUpTo(was, i, cutoff)
    {
      TokensUpToNext(was, i, cutoff);
      var event := events[i];
      if event.at > cutoff {
        events[live] := event;
        live, sum := live + 1, sum + event.tokens;
      }
      i := i + 1;
    }
  }

  class TokenWindowObject {
    const limit: int
    const window: int
    var events: array<TokenEvent>
    var len: nat
    var total: int

    ghost predicate Valid() reads this {
      len <= events.Length
    }

    ghost function Value(): TokenWindow reads this, events requires Valid() {
      TokenWindow(limit, window, events[..len], total)
    }

    constructor (limit: int, window: int)
      ensures Valid() && fresh(events) && Value() == TokenWindow(limit, window, [], 0)
    {
      this.limit, this.window := limit, window;
      events, len, total := new TokenEvent[0], 0, 0;
    }

    method Prune(now: int)
      requires Valid()
      modifies this`len, this`total, events
      ensures Valid()
      ensures Value() == PrunedTokens(old(Value()), now)
    {
      ghost var was := events[..len];
      len, total := Compact(events, len, was, now - window);
      assert events[..len] == LiveTokens(was, now - window);
    }

    method HasRoom(now: int) returns (room: bool)
      requires Valid()
      modifies this`len, this`total, events
      ensures Valid()
      ensures Value() == PrunedTokens(old(Value()), now)
      ensures room == HasTokenRoom(old(Value()), now)
    {
      Prune(now);
      room := total < limit;
    }

    method Record(now: int, tokens: int)
      requires Valid()
      modifies this, events
      ensures Valid() && (events == old(events) || fresh(events))
      ensures Value() == RecordedTokens(old(Value()), now, tokens)
    {
      if tokens <= 0 { return; }
      if len == events.Length {
        var grown := new TokenEvent[2 * len + 1](_ => TokenEvent(0, 0));
        for i := 0 to len
          invariant grown[..i] == events[..i]
          modifies grown
        {
          grown[i] := events[i];
        }
        events := grown;
      }
      events[len] := TokenEvent(now, tokens);
      len, total := len + 1, total + tokens;
    }
  }

  /** The call windows are looked at in turn until one is full. */
  function CallsChecked(b: Budget, now: int): (Budget, bool) {
    var atMinute := HasRoom(b.minute, now);
    var atHour := atMinute && HasRoom(b.hour, now);
    (b.(minute := Pruned(b.minute, now), hour := if atMinute then Pruned(b.hour, now) else b.hour,
        day := if atHour then Pruned(b.day, now) else b.day),
     atHour && HasRoom(b.day, now))
  }

  function TokensChecked(b: Budget, now: int): (Budget, bool) {
    var atHour := HasTokenRoom(b.tokenHour, now);
    (b.(tokenHour := PrunedTokens(b.tokenHour, now),
        tokenDay := if atHour then PrunedTokens(b.tokenDay, now) else b.tokenDay),
     atHour && HasTokenRoom(b.tokenDay, now))
  }

  function Charged(b: Budget, now: int): Budget {
    b.(minute := Recorded(b.minute, now), hour := Recorded(b.hour, now), day := Recorded(b.day, now),
       inFlight := b.inFlight + 1)
  }

  lemma AcquireInParts(b: Budget, now: int)
    ensures
      var (b1, calls) := CallsChecked(b, now);
      var (b2, tokens) := TokensChecked(b1, now);
      Acquire(b, now) ==
        if b.inFlight >= b.maxFlight then (Refused(b, now), CallBudgetExceeded)
        else if !calls then (Refused(b1, now), CallBudgetExceeded)
        else if !tokens then (Refused(b2, now), TokenBudgetExceeded)
        else (Charged(b2, now), Granted)
  {
    hide Pruned, HasRoom, PrunedTokens, HasTokenRoom, Recorded;
  }

  class BudgetedProvider {
    const minute: CallWindowObject
    const hour: CallWindowObject
    const day: CallWindowObject
    const tokenHour: TokenWindowObject
    const tokenDay: TokenWindowObject
    const maxFlight: int
    var inFlight: int
    var refusals: int
    var lastRefusal: int
    var spentTokens: int

    ghost function Windows(): set<object> {
      {minute, hour, day, tokenHour, tokenDay}
    }

    ghost function Arrays(): set<object> reads Windows() {
      var calls: set<object> := {minute.events, hour.events, day.events};
      var tokens: set<object> := {tokenHour.events, tokenDay.events};
      calls + tokens
    }

    /** No two windows share an object or a backing array. */
    ghost predicate Valid() reads this, Windows() {
      && minute.Valid() && hour.Valid() && day.Valid() && tokenHour.Valid() && tokenDay.Valid()
      && minute != hour && minute != day && hour != day && tokenHour != tokenDay
      && minute.events != hour.events && minute.events != day.events && hour.events != day.events
      && tokenHour.events != tokenDay.events
    }

    /** Each backing array is the one it was or a new one. */
    twostate predicate OnlyGrown() reads Windows() {
      && (minute.events == old(minute.events) || fresh(minute.events))
      && (hour.events == old(hour.events) || fresh(hour.events))
      && (day.events == old(day.events) || fresh(day.events))
      && (tokenHour.events == old(tokenHour.events) || fresh(tokenHour.events))
      && (tokenDay.events == old(tokenDay.events) || fresh(tokenDay.events))
    }

    twostate predicate SameArrays() reads Windows() {
      && minute.events == old(minute.events) && hour.events == old(hour.events) && day.events == old(day.events)
      && tokenHour.events == old(tokenHour.events) && tokenDay.events == old(tokenDay.events)
    }

    ghost function Value(): Budget reads this, Windows(), Arrays() requires Valid() {
      Budget(minute.Value(), hour.Value(), day.Value(), tokenHour.Value(), tokenDay.Value(),
             inFlight, maxFlight, refusals, lastRefusal, spentTokens)
    }

    constructor (given: Limits)
      ensures Valid() && fresh(Windows() + Arrays())
      ensures Value() == NewBudget(given)
    {
      var l := Normalized(given);
      minute := new CallWindowObject(l.perMinute, MINUTE);
      hour := new CallWindowObject(l.perHour, HOUR);
      day := new CallWindowObject(l.perDay, DAY);
      tokenHour := new TokenWindowObject(l.tokensPerHour, HOUR);
      tokenDay := new TokenWindowObject(l.tokensPerDay, DAY);
      maxFlight, inFlight, refusals, lastRefusal, spentTokens := l.maxConcurrent, 0, 0, 0, 0;
    }

    method Refuse(now: int)
      requires Valid()
      modifies this`refusals, this`lastRefusal
      ensures Valid() && SameArrays()
      ensures Value() == Refused(old(Value()), now)
    {
      refusals, lastRefusal := refusals + 1, now;
    }

    method CallsHaveRoom(now: int) returns (room: bool)
      requires Valid()
      modifies Windows(), Arrays()
      ensures Valid() && SameArrays()
      ensures (Value(), room) == CallsChecked(old(Value()), now)
    {
      hide Pruned, HasRoom;
      room := minute.HasRoom(now);
      if room { room := hour.HasRoom(now); }
      if room { room := day.HasRoom(now); }
    }

    method TokensHaveRoom(now: int) returns (room: bool)
      requires Valid()
      modifies Windows(), Arrays()
      ensures Valid() && SameArrays()
      ensures (Value(), room) == TokensChecked(old(Value()), now)
    {
      hide PrunedTokens, HasTokenRoom;
      room := tokenHour.HasRoom(now);
      if room { room := tokenDay.HasRoom(now); }
    }

    method Charge(now: int)
      requires Valid()
      modifies this`inFlight, Windows(), Arrays()
      ensures Valid() && OnlyGrown()
      ensures Value() == Charged(old(Value()), now)
    {
      hide Recorded;
      minute.Record(now);
      hour.Record(now);
      day.Record(now);
      inFlight := inFlight + 1;
    }

    /** Every window is checked before any is charged. */
    method Acquire(now: int) returns (verdict: Verdict)
      requires Valid()
      modifies this, Windows(), Arrays()
      ensures Valid() && OnlyGrown()
      ensures (Value(), verdict) == ProviderBudget.Acquire(old(Value()), now)
    {
      assert Value().inFlight == inFlight && Value().maxFlight == maxFlight;
      AcquireInParts(Value(), now);
      hide CallsChecked, TokensChecked, Charged, Refused, ProviderBudget.Acquire, Valid, Value, Arrays;
      verdict := Granted;
      if inFlight >= maxFlight {
        verdict := CallBudgetExceeded;
      } else {
        var calls := CallsHaveRoom(now);
        if !calls {
          verdict := CallBudgetExceeded;
        } else {
          var tokens := TokensHaveRoom(now);
          if !tokens { verdict := TokenBudgetExceeded; }
        }
      }
      if verdict == Granted { Charge(now); } else { Refuse(now); }
    }

    method RecordSpend(now: int, tokens: int)
      requires Valid()
      modifies this, Windows(), Arrays()
      ensures Valid() && OnlyGrown()
      ensures Value() == Spend(old(Value()), now, tokens)
    {
      if tokens <= 0 { return; }
      tokenHour.Record(now, tokens);
      tokenDay.Record(now, tokens);
      spentTokens := spentTokens + tokens;
    }

    method Release()
      requires Valid()
      modifies this`inFlight
      ensures Valid() && Value() == ProviderBudget.Release(old(Value()))
    {
      if inFlight > 0 { inFlight := inFlight - 1; }
    }
  }
}
