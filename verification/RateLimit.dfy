/** The in-memory fixed-window rate limiter (auth/rate_limit.py), the value-level meaning of one
    check, and numeric bounds over whole timed runs. The clock is a parameter of every call. */
module RateLimit {
  import opened Common

  datatype Config = Config(maxRequests: int, windowSeconds: real)

  /** One key's entry: when its current window opened and how many calls it has counted. */
  datatype Window = Window(start: real, count: int)

  type Windows = map<string, Window>

  function WindowOf(windows: Windows, key: string): Window {
    if key in windows then windows[key] else Window(0.0, 0)
  }

  /** The entry after one more call at time `now`. */
  function Advance(config: Config, w: Window, now: real): Window {
    if now - w.start >= config.windowSeconds then Window(now, 1) else Window(w.start, w.count + 1)
  }

  predicate Accepts(config: Config, windows: Windows, key: string, now: real) {
    Advance(config, WindowOf(windows, key), now).count <= config.maxRequests
  }

  function AfterCheck(config: Config, windows: Windows, key: string, now: real): Windows {
    windows[key := Advance(config, WindowOf(windows, key), now)]
  }

  class InMemoryFixedWindowRateLimiter {
    const config: Config
    var windows: Windows

    constructor (maxRequests: int, windowSeconds: real)
      ensures config == Config(maxRequests, windowSeconds) && windows == map[]
    {
      config := Config(maxRequests, windowSeconds);
      windows := map[];
    }

    /** Counts the call even when it is refused. */
    method Check(key: string, now: real) returns (accepted: bool)
      modifies this
      ensures windows == AfterCheck(config, old(windows), key, now)
      ensures accepted <==> Accepts(config, old(windows), key, now)
    {
      var w := WindowOf(windows, key);
      var windowStart, count := w.start, w.count;
      if now - windowStart >= config.windowSeconds {
        windowStart, count := now, 0;
      }
      count := count + 1;
      windows := windows[key := Window(windowStart, count)];
      accepted := count <= config.maxRequests;
    }
  }

  // ---- timed runs ---------------------------------------------------------------------------

  datatype Call = Call(key: string, now: real)

  ghost predicate ClockNeverGoesBack(calls: seq<Call>) {
    forall i, j :: 0 <= i < j < |calls| ==> calls[i].now <= calls[j].now
  }

  function AfterRun(config: Config, windows: Windows, calls: seq<Call>): Windows
    decreases |calls|
  {
    if calls == [] then windows
    else AfterRun(config, AfterCheck(config, windows, calls[0].key, calls[0].now), calls[1..])
  }

  /** How many calls on `key` made in the closed interval [lo, hi] are accepted in the run. */
  function AcceptedBetween(config: Config, windows: Windows, calls: seq<Call>, key: string, lo: real, hi: real): nat
    decreases |calls|
  {
    if calls == [] then 0
    else
      var c := calls[0];
      var counted := c.key == key && lo <= c.now <= hi && Accepts(config, windows, key, c.now);
      (if counted then 1 else 0)
      + AcceptedBetween(config, AfterCheck(config, windows, c.key, c.now), calls[1..], key, lo, hi)
  }

  /** How many calls on `key` are accepted in the run into the window that opened at `start`. */
  function AcceptedInWindow(config: Config, windows: Windows, calls: seq<Call>, key: string, start: real): nat
    decreases |calls|
  {
    if calls == [] then 0
    else
      var c := calls[0];
      var after := AfterCheck(config, windows, c.key, c.now);
      var counted := c.key == key && Accepts(config, windows, key, c.now) && WindowOf(after, key).start == start;
      (if counted then 1 else 0) + AcceptedInWindow(config, after, calls[1..], key, start)
  }

  function Positive(n: int): (p: nat)
  {
    if n < 0 then 0 else n
  }

  ghost predicate CountsAreNatural(windows: Windows) {
    forall key :: key in windows ==> windows[key].count >= 0
  }

  // ---- at most `maxRequests` per window ------------------------------------------------------

  /** What the window that opened at `start` can still accept, seen from entry `w`. */
  function RoomInWindow(config: Config, w: Window, start: real): nat {
    if w.start == start then Positive(config.maxRequests - w.count)
    else if w.start < start then Positive(config.maxRequests)
    else 0
  }

  lemma {:induction false} WindowNeverOverfills(config: Config, windows: Windows, calls: seq<Call>, key: string,
                                                start: real)
    requires config.windowSeconds > 0.0
    requires CountsAreNatural(windows)
    ensures AcceptedInWindow(config, windows, calls, key, start) <= RoomInWindow(config, WindowOf(windows, key), start)
    decreases |calls|
  {
    if calls == [] {
    } else {
      var c := calls[0];
      WindowNeverOverfills(config, AfterCheck(config, windows, c.key, c.now), calls[1..], key, start);
    }
  }

  lemma {:induction false} NothingAcceptedWithoutAllowance(config: Config, windows: Windows, calls: seq<Call>,
                                                           key: string, start: real)
    requires config.maxRequests <= 0 && CountsAreNatural(windows)
    ensures AcceptedInWindow(config, windows, calls, key, start) == 0
    decreases |calls|
  {
    if calls != [] {
      NothingAcceptedWithoutAllowance(config, AfterCheck(config, windows, calls[0].key, calls[0].now), calls[1..], key,
                                      start);
    }
  }

  /** `n` calls at one instant. */
  function Burst(key: string, n: nat): (calls: seq<Call>)
    ensures |calls| == n && forall i :: 0 <= i < n ==> calls[i] == Call(key, 0.0)
  {
    seq(n, i => Call(key, 0.0))
  }

  /** Without a positive window length every call of a burst opens its own window. */
  lemma {:induction false} BurstIsAccepted(config: Config, windows: Windows, key: string, n: nat)
    requires config.windowSeconds <= 0.0 && config.maxRequests >= 1 && WindowOf(windows, key).start == 0.0
    ensures AcceptedInWindow(config, windows, Burst(key, n), key, 0.0) == n
    ensures WindowOf(AfterRun(config, windows, Burst(key, n)), key).start == 0.0
    decreases n
  {
    if n > 0 {
      assert Burst(key, n)[1..] == Burst(key, n - 1);
      BurstIsAccepted(config, AfterCheck(config, windows, key, 0.0), key, n - 1);
    }
  }

  ghost predicate EveryWindowIsBounded(config: Config) {
    forall calls, key, start :: AcceptedInWindow(config, map[], calls, key, start) <= Positive(config.maxRequests)
  }

  /** In every run from the fresh limiter each window of each key accepts at most `maxRequests` calls: if
      and only if the window length is positive, or nothing is ever accepted. */
  lemma AtMostMaxPerWindow(config: Config)
    ensures EveryWindowIsBounded(config) <==> config.windowSeconds > 0.0 || config.maxRequests <= 0
  {
    if config.windowSeconds <= 0.0 && config.maxRequests >= 1 {
      BurstIsAccepted(config, map[], "k", config.maxRequests + 1);
    } else {
      forall calls, key, start
        ensures AcceptedInWindow(config, map[], calls, key, start) <= Positive(config.maxRequests)
      {
        if config.windowSeconds > 0.0 {
          WindowNeverOverfills(config, map[], calls, key, start);
        } else {
          NothingAcceptedWithoutAllowance(config, map[], calls, key, start);
        }
      }
    }
  }

  /** The entry's counter, capped at the maximum, accounts for the accepted calls of its window exactly. */
  ghost predicate CounterIsExact(config: Config, windows: Windows, calls: seq<Call>, key: string) {
    var before := WindowOf(windows, key);
    var after := WindowOf(AfterRun(config, windows, calls), key);
    var room := Positive(config.maxRequests);
    && after.count >= 0
    && AcceptedInWindow(config, windows, calls, key, after.start)
       == Min(after.count, room) - (if after.start == before.start then Min(before.count, room) else 0)
  }

  /** From any entries: the counter is exact, and unless the window length is negative the windows of a key
      only move forward. */
  lemma {:induction false} CounterAccountsForAccepted(config: Config, windows: Windows, calls: seq<Call>, key: string)
    requires config.windowSeconds > 0.0 || config.maxRequests <= 0
    requires CountsAreNatural(windows)
    ensures CounterIsExact(config, windows, calls, key)
    ensures config.windowSeconds >= 0.0 ==>
              WindowOf(AfterRun(config, windows, calls), key).start >= WindowOf(windows, key).start
    decreases |calls|
  {
    if calls != [] {
      var c := calls[0];
      CounterAccountsForAccepted(config, AfterCheck(config, windows, c.key, c.now), calls[1..], key);
    }
  }

  /** In every run from the fresh limiter, the counter is exact: if and only if the window length is
      positive or nothing is ever accepted. */
  lemma CounterIsExactExactlyWhen(config: Config)
    ensures (forall calls, key :: ClockNeverGoesBack(calls) ==> CounterIsExact(config, map[], calls, key))
            <==> config.windowSeconds > 0.0 || config.maxRequests <= 0
  {
    if config.windowSeconds <= 0.0 && config.maxRequests >= 1 {
      BurstIsAccepted(config, map[], "k", 2);
      BurstCountsOne(config);
      assert !CounterIsExact(config, map[], Burst("k", 2), "k");
    } else {
      forall calls, key
        ensures CounterIsExact(config, map[], calls, key)
      {
        CounterAccountsForAccepted(config, map[], calls, key);
      }
    }
  }

  lemma BurstCountsOne(config: Config)
    requires config.windowSeconds <= 0.0
    ensures WindowOf(AfterRun(config, map[], Burst("k", 2)), "k") == Window(0.0, 1)
  {
    var calls, windows := Burst("k", 2), AfterCheck(config, map[], "k", 0.0);
    assert calls[1..] == Burst("k", 1) && Burst("k", 1)[1..] == [];
    assert AfterRun(config, windows, Burst("k", 1)) == AfterCheck(config, windows, "k", 0.0);
  }

  ghost predicate RefusedExactlyWhenFull(config: Config, calls: seq<Call>, key: string, now: real) {
    var before := AfterRun(config, map[], calls);
    var start := Advance(config, WindowOf(before, key), now).start;
    !Accepts(config, before, key, now)
    <==> AcceptedInWindow(config, map[], calls, key, start) >= Positive(config.maxRequests)
  }

  /** A call is refused exactly when its window has already accepted `maxRequests` calls on that key, so
      calls on other keys never use up its allowance: true of every run if and only if the window
      length is positive, or nothing is ever accepted. */
  lemma RefusedExactlyWhenWindowIsFull(config: Config)
    ensures (forall calls, key, now :: RefusedExactlyWhenFull(config, calls, key, now))
            <==> config.windowSeconds > 0.0 || config.maxRequests <= 0
  {
    if config.windowSeconds <= 0.0 && config.maxRequests >= 1 {
      BurstIsAccepted(config, map[], "k", config.maxRequests);
      assert !RefusedExactlyWhenFull(config, Burst("k", config.maxRequests), "k", 0.0);
    } else {
      forall calls, key, now
        ensures RefusedExactlyWhenFull(config, calls, key, now)
      {
        if config.windowSeconds > 0.0 {
          RefusedWhenFull(config, calls, key, now);
        } else {
          CountsStayNatural(config, map[], calls);
        }
      }
    }
  }

  lemma {:induction false} CountsStayNatural(config: Config, windows: Windows, calls: seq<Call>)
    requires CountsAreNatural(windows)
    ensures CountsAreNatural(AfterRun(config, windows, calls))
    decreases |calls|
  {
    if calls != [] {
      CountsStayNatural(config, AfterCheck(config, windows, calls[0].key, calls[0].now), calls[1..]);
    }
  }

  lemma RefusedWhenFull(config: Config, calls: seq<Call>, key: string, now: real)
    requires config.windowSeconds > 0.0
    ensures RefusedExactlyWhenFull(config, calls, key, now)
  {
    var before := AfterRun(config, map[], calls);
    var w := WindowOf(before, key);
    CounterAccountsForAccepted(config, map[], calls, key);
    if now - w.start >= config.windowSeconds {
      NothingAcceptedAhead(config, map[], calls, key, now);
    }
  }

  /** No call lands in a window that opens after the run's last one. */
  lemma {:induction false} NothingAcceptedAhead(config: Config, windows: Windows, calls: seq<Call>, key: string,
                                                start: real)
    requires config.windowSeconds > 0.0
    requires CountsAreNatural(windows)
    requires WindowOf(AfterRun(config, windows, calls), key).start < start
    ensures AcceptedInWindow(config, windows, calls, key, start) == 0
    decreases |calls|
  {
    if calls == [] {
    } else {
      var c := calls[0];
      var after := AfterCheck(config, windows, c.key, c.now);
      CounterAccountsForAccepted(config, after, calls[1..], key);
      NothingAcceptedAhead(config, after, calls[1..], key, start);
    }
  }

  /** After any run: a call at least a window length after its key's window opened opens a new window and is
      accepted, and an earlier one still counts in the old window. */
  lemma WindowsLastTheirLength(config: Config, calls: seq<Call>, key: string, now: real)
    ensures var before := AfterRun(config, map[], calls);
            var start := WindowOf(before, key).start;
            var after := WindowOf(AfterCheck(config, before, key, now), key);
            && (now - start >= config.windowSeconds ==>
                  && after.start == now && after.count == 1
                  && (Accepts(config, before, key, now) <==> config.maxRequests >= 1))
            && (now - start < config.windowSeconds ==>
                  after.start == start && after.count == WindowOf(before, key).count + 1)
  {
  }

  // ---- at most `2 * maxRequests` in any closed interval of one window length -----------------

  /** What can still be accepted in [lo, lo + windowSeconds], seen from entry `w`: the rest of the
      current window when no other can open in time, that plus one full window when the current
      one reaches past `lo`, and two full windows otherwise. */
  function RoomInInterval(config: Config, w: Window, lo: real): nat {
    var full := Positive(config.maxRequests);
    var left := Positive(config.maxRequests - w.count);
    if w.start > lo then left
    else if w.start + config.windowSeconds > lo then left + full
    else full + full
  }

  lemma {:induction false} NothingAfterInterval(config: Config, windows: Windows, calls: seq<Call>, key: string,
                                                lo: real, hi: real)
    requires forall i :: 0 <= i < |calls| ==> calls[i].now > hi
    ensures AcceptedBetween(config, windows, calls, key, lo, hi) == 0
    decreases |calls|
  {
    if calls == [] {
    } else {
      NothingAfterInterval(config, AfterCheck(config, windows, calls[0].key, calls[0].now), calls[1..], key, lo, hi);
    }
  }

  lemma {:induction false} IntervalBound(config: Config, windows: Windows, calls: seq<Call>, key: string, lo: real)
    requires config.windowSeconds > 0.0
    requires CountsAreNatural(windows)
    requires ClockNeverGoesBack(calls)
    ensures AcceptedBetween(config, windows, calls, key, lo, lo + config.windowSeconds)
            <= RoomInInterval(config, WindowOf(windows, key), lo)
    decreases |calls|
  {
    if calls == [] {
    } else {
      var c := calls[0];
      var after := AfterCheck(config, windows, c.key, c.now);
      if c.now > lo + config.windowSeconds {
        NothingAfterInterval(config, after, calls[1..], key, lo, lo + config.windowSeconds);
      } else {
        IntervalBound(config, after, calls[1..], key, lo);
      }
    }
  }

  /** Zero-length windows: every call at one instant opens a new window and is accepted. */
  lemma {:induction false} ZeroWindowAdmitsEverything(config: Config, windows: Windows, key: string, n: nat)
    requires config.windowSeconds == 0.0 && config.maxRequests >= 1
    requires WindowOf(windows, key).start == 0.0
    ensures AcceptedBetween(config, windows, Burst(key, n), key, 0.0, 0.0) == n
    decreases n
  {
    if n == 0 {
    } else {
      assert Burst(key, n)[1..] == Burst(key, n - 1);
      ZeroWindowAdmitsEverything(config, AfterCheck(config, windows, key, 0.0), key, n - 1);
    }
  }

  ghost predicate IntervalIsBounded(config: Config, calls: seq<Call>, key: string, lo: real) {
    AcceptedBetween(config, map[], calls, key, lo, lo + config.windowSeconds) <= 2 * Positive(config.maxRequests)
  }

  ghost predicate EveryIntervalIsBounded(config: Config) {
    forall calls, key, lo :: ClockNeverGoesBack(calls) ==> IntervalIsBounded(config, calls, key, lo)
  }

  /** In every timed run, for every key and every closed interval one window long, at most twice
      `maxRequests` calls are accepted — exactly when the window length is not zero (or nothing is
      ever accepted). */
  lemma AtMostTwiceMaxPerInterval(config: Config)
    ensures EveryIntervalIsBounded(config) <==> config.windowSeconds != 0.0 || config.maxRequests <= 0
  {
    if config.windowSeconds == 0.0 && config.maxRequests >= 1 {
      var burst := Burst("k", 2 * config.maxRequests + 1);
      ZeroWindowAdmitsEverything(config, map[], "k", |burst|);
      assert ClockNeverGoesBack(burst);
      assert !IntervalIsBounded(config, burst, "k", 0.0);
    } else {
      forall calls, key, lo | ClockNeverGoesBack(calls)
        ensures IntervalIsBounded(config, calls, key, lo)
      {
        if config.windowSeconds > 0.0 {
          IntervalBound(config, map[], calls, key, lo);
        } else if config.maxRequests <= 0 {
          NothingFromNothing(config, map[], calls, key, lo, lo + config.windowSeconds);
        } else {
          EmptyInterval(config, map[], calls, key, lo, lo + config.windowSeconds);
        }
      }
    }
  }

  lemma {:induction false} NothingFromNothing(config: Config, windows: Windows, calls: seq<Call>, key: string,
                                              lo: real, hi: real)
    requires config.maxRequests <= 0 && CountsAreNatural(windows)
    ensures AcceptedBetween(config, windows, calls, key, lo, hi) == 0
    decreases |calls|
  {
    if calls == [] {
    } else {
      NothingFromNothing(config, AfterCheck(config, windows, calls[0].key, calls[0].now), calls[1..], key, lo, hi);
    }
  }

  lemma {:induction false} EmptyInterval(config: Config, windows: Windows, calls: seq<Call>, key: string, lo: real,
                                         hi: real)
    requires hi < lo
    ensures AcceptedBetween(config, windows, calls, key, lo, hi) == 0
    decreases |calls|
  {
    if calls == [] {
    } else {
      EmptyInterval(config, AfterCheck(config, windows, calls[0].key, calls[0].now), calls[1..], key, lo, hi);
    }
  }

  // ---- keys do not interfere -----------------------------------------------------------------

  function OnlyKey(calls: seq<Call>, key: string): seq<Call> {
    if calls == [] then []
    else (if calls[0].key == key then [calls[0]] else []) + OnlyKey(calls[1..], key)
  }

  /** Dropping every call on other keys changes nothing a key observes. */
  lemma {:induction false} KeysAreIndependent(config: Config, windows: Windows, alone: Windows, calls: seq<Call>,
                                              key: string, lo: real, hi: real)
    requires WindowOf(windows, key) == WindowOf(alone, key)
    ensures AcceptedBetween(config, windows, calls, key, lo, hi)
            == AcceptedBetween(config, alone, OnlyKey(calls, key), key, lo, hi)
    ensures WindowOf(AfterRun(config, windows, calls), key)
            == WindowOf(AfterRun(config, alone, OnlyKey(calls, key)), key)
    decreases |calls|
  {
    if calls == [] {
    } else {
      var c := calls[0];
      var after := AfterCheck(config, windows, c.key, c.now);
      if c.key == key {
        assert OnlyKey(calls, key) == [c] + OnlyKey(calls[1..], key);
        assert OnlyKey(calls, key)[1..] == OnlyKey(calls[1..], key);
        KeysAreIndependent(config, after, AfterCheck(config, alone, key, c.now), calls[1..], key, lo, hi);
      } else {
        assert OnlyKey(calls, key) == OnlyKey(calls[1..], key);
        KeysAreIndependent(config, after, alone, calls[1..], key, lo, hi);
      }
    }
  }
}
