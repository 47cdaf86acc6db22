/** The circuit breaker (inference/resilience.py) and a bound on how often a failing dependency
    is contacted over whole timed runs. The clock readings and the outcome of the guarded
    operation are parameters; calls do not overlap. */
module CircuitBreakers {
  import opened Common
  import opened RealFacts

  datatype CircuitState = Closed | Open | HalfOpen

  datatype Config = Config(failureThreshold: int, resetTimeout: real)

  datatype Breaker = Breaker(state: CircuitState, failureCount: nat, openedAt: Option<real>)

  const FRESH := Breaker(Closed, 0, None)

  /** One use of the breaker: when it is asked, when the operation would end, and whether the
      operation would succeed. */
  datatype Attempt = Attempt(start: real, end: real, succeeds: bool)

  datatype CallResult = FailedFast | Failed | Succeeded

  // ---- what one call means --------------------------------------------------------------------

  /** Reading the state moves an expired OPEN circuit to HALF_OPEN. */
  function Observed(config: Config, b: Breaker, now: real): Breaker {
    if b.state.Open? && b.openedAt.Some? && now - b.openedAt.value >= config.resetTimeout
    then b.(state := HalfOpen)
    else b
  }

  predicate Invokes(config: Config, b: Breaker, start: real) {
    !Observed(config, b, start).state.Open?
  }

  function AfterFailure(config: Config, b: Breaker, now: real): Breaker {
    var counted := b.(failureCount := b.failureCount + 1);
    if counted.failureCount >= config.failureThreshold then counted.(state := Open, openedAt := Some(now))
    else counted
  }

  function AfterAttempt(config: Config, b: Breaker, a: Attempt): Breaker {
    var seen := Observed(config, b, a.start);
    if seen.state.Open? then seen
    else if a.succeeds then FRESH
    else AfterFailure(config, seen, a.end)
  }

  function ResultOf(config: Config, b: Breaker, a: Attempt): CallResult {
    if !Invokes(config, b, a.start) then FailedFast else if a.succeeds then Succeeded else Failed
  }

  class CircuitBreaker {
    const config: Config
    var state: CircuitState
    var failureCount: nat
    var openedAt: Option<real>

    function Value(): Breaker
      reads this
    {
      Breaker(state, failureCount, openedAt)
    }

    constructor (config: Config)
      ensures this.config == config && Value() == FRESH
    {
      this.config := config;
      state, failureCount, openedAt := Closed, 0, None;
    }

    method State(now: real) returns (s: CircuitState)
      modifies this
      ensures Value() == Observed(config, old(Value()), now) && s == state
    {
      var elapsedSinceOpen := openedAt.Some? && now - openedAt.value >= config.resetTimeout;
      if state.Open? && elapsedSinceOpen {
        state := HalfOpen;
      }
      return state;
    }

    method Call(a: Attempt) returns (r: CallResult)
      modifies this
      ensures Value() == AfterAttempt(config, old(Value()), a)
      ensures r == ResultOf(config, old(Value()), a)
    {
      var current := State(a.start);
      if current.Open? {
        return FailedFast;
      }
      if !a.succeeds {
        OnFailure(a.end);
        return Failed;
      }
      OnSuccess();
      return Succeeded;
    }

    method OnSuccess()
      modifies this
      ensures Value() == FRESH
    {
      failureCount := 0;
      state := Closed;
      openedAt := None;
    }

    method OnFailure(now: real)
      modifies this
      ensures Value() == AfterFailure(config, old(Value()), now)
    {
      failureCount := failureCount + 1;
      if failureCount >= config.failureThreshold {
        state := Open;
        openedAt := Some(now);
      }
    }
  }

  // ---- runs -----------------------------------------------------------------------------------

  function AfterAttempts(config: Config, b: Breaker, attempts: seq<Attempt>): Breaker
    decreases |attempts|
  {
    if attempts == [] then b else AfterAttempts(config, AfterAttempt(config, b, attempts[0]), attempts[1..])
  }

  /** How many attempts of the run reach the dependency. */
  function Invocations(config: Config, b: Breaker, attempts: seq<Attempt>): nat
    decreases |attempts|
  {
    if attempts == [] then 0
    else
      (if Invokes(config, b, attempts[0].start) then 1 else 0)
      + Invocations(config, AfterAttempt(config, b, attempts[0]), attempts[1..])
  }

  /** Calls happen one after another, none before `from`. */
  ghost predicate Serialised(attempts: seq<Attempt>, from: real)
    decreases |attempts|
  {
    attempts == [] || (from <= attempts[0].start <= attempts[0].end && Serialised(attempts[1..], attempts[0].end))
  }

  /** No attempt that reaches the dependency succeeds. */
  predicate SuccessFree(config: Config, b: Breaker, attempts: seq<Attempt>)
    decreases |attempts|
  {
    attempts != [] ==>
      && (Invokes(config, b, attempts[0].start) ==> !attempts[0].succeeds)
      && SuccessFree(config, AfterAttempt(config, b, attempts[0]), attempts[1..])
  }

  /** What every breaker that has only seen serialised calls satisfies at time `now`. */
  ghost predicate Consistent(config: Config, b: Breaker, now: real) {
    if b.state.Closed? then b.openedAt.None? && b.failureCount < Threshold(config)
    else b.openedAt.Some? && b.openedAt.value <= now && b.failureCount >= config.failureThreshold
  }

  function Threshold(config: Config): (t: nat)
    ensures t >= 1
  {
    if config.failureThreshold < 1 then 1 else config.failureThreshold
  }

  lemma {:induction false} RunsStayConsistent(config: Config, b: Breaker, attempts: seq<Attempt>, from: real)
    requires Consistent(config, b, from) && Serialised(attempts, from)
    ensures Consistent(config, AfterAttempts(config, b, attempts), if attempts == [] then from else Last(attempts).end)
    decreases |attempts|
  {
    if attempts == [] {
    } else {
      var a := attempts[0];
      RunsStayConsistent(config, AfterAttempt(config, b, a), attempts[1..], a.end);
      assert |attempts| > 1 ==> Last(attempts) == Last(attempts[1..]);
    }
  }

  function Last(attempts: seq<Attempt>): Attempt
    requires attempts != []
  {
    attempts[|attempts| - 1]
  }

  /** From every reachable breaker, a failed half-open trial re-opens the circuit at once, and a
      successful one closes it. */
  lemma HalfOpenTrial(config: Config, history: seq<Attempt>, from: real, a: Attempt)
    requires Serialised(history + [a], from)
    requires var b := AfterAttempts(config, FRESH, history); Observed(config, b, a.start).state.HalfOpen?
    ensures var after := AfterAttempt(config, AfterAttempts(config, FRESH, history), a);
            if a.succeeds then after == FRESH else after.state.Open? && after.openedAt == Some(a.end)
  {
    SerialisedPrefix(history, [a], from);
    RunsStayConsistent(config, FRESH, history, from);
  }

  lemma {:induction false} SerialisedPrefix(xs: seq<Attempt>, ys: seq<Attempt>, from: real)
    requires Serialised(xs + ys, from)
    ensures Serialised(xs, from)
    ensures Serialised(ys, if xs == [] then from else Last(xs).end)
    decreases |xs|
  {
    if xs == [] {
      assert xs + ys == ys;
    } else {
      assert (xs + ys)[0] == xs[0] && (xs + ys)[1..] == xs[1..] + ys;
      SerialisedPrefix(xs[1..], ys, xs[0].end);
      assert |xs| > 1 ==> Last(xs) == Last(xs[1..]);
    }
  }

  // ---- the bound ------------------------------------------------------------------------------

  /** How many trials fit in [first, until] when consecutive ones are a reset timeout apart. */
  function Trials(config: Config, first: real, until: real): nat
    requires config.resetTimeout > 0.0
  {
    if until < first then 0
    else
      NonNegativeQuotient(until - first, config.resetTimeout);
      1 + ((until - first) / config.resetTimeout).Floor
  }

  lemma FewerTrialsLater(config: Config, first: real, later: real, until: real)
    requires config.resetTimeout > 0.0 && first <= later
    ensures Trials(config, later, until) <= Trials(config, first, until)
  {
    QuotientMonotone(until - later, until - first, config.resetTimeout);
  }

  /** After one trial, the rest wait a full timeout. */
  lemma OneTrialThenTheRest(config: Config, trial: real, reopened: real, until: real)
    requires config.resetTimeout > 0.0 && trial <= reopened && trial <= until
    ensures 1 + Trials(config, reopened + config.resetTimeout, until) <= Trials(config, trial, until)
  {
    var next := trial + config.resetTimeout;
    FewerTrialsLater(config, next, reopened + config.resetTimeout, until);
    NonNegativeQuotient(until - trial, config.resetTimeout);
    if next <= until {
      QuotientOfOneMore(until - next, config.resetTimeout);
      assert until - next + config.resetTimeout == until - trial;
    }
  }

  /** The most invocations a success-free run in [now, until] can make from breaker `b`. */
  function Budget(config: Config, b: Breaker, now: real, until: real): nat
    requires config.resetTimeout > 0.0
  {
    match b.state
    case Closed =>
      var failuresLeft := if b.failureCount < Threshold(config) then Threshold(config) - b.failureCount else 0;
      failuresLeft + Trials(config, now + config.resetTimeout, until)
    case Open =>
      var expires := if b.openedAt.Some? then b.openedAt.value + config.resetTimeout else now;
      Trials(config, if now < expires then expires else now, until)
    case HalfOpen =>
      Trials(config, now, until)
  }

  lemma {:induction false} InvocationsWithinBudget(config: Config, b: Breaker, attempts: seq<Attempt>, now: real,
                                                   until: real)
    requires config.resetTimeout > 0.0
    requires Consistent(config, b, now) && Serialised(attempts, now) && SuccessFree(config, b, attempts)
    requires attempts != [] ==> Last(attempts).start <= until
    ensures Invocations(config, b, attempts) <= Budget(config, b, now, until)
    decreases |attempts|
  {
    if attempts == [] {
    } else {
      var a := attempts[0];
      var after := AfterAttempt(config, b, a);
      StartsAreOrdered(attempts, now);
      assert |attempts| > 1 ==> Last(attempts) == Last(attempts[1..]);
      InvocationsWithinBudget(config, after, attempts[1..], a.end, until);
      OneAttemptSpends(config, b, a, now, until);
    }
  }

  lemma {:induction false} StartsAreOrdered(attempts: seq<Attempt>, now: real)
    requires attempts != [] && Serialised(attempts, now)
    ensures attempts[0].start <= Last(attempts).start
    decreases |attempts|
  {
    if |attempts| == 1 {
    } else {
      StartsAreOrdered(attempts[1..], attempts[0].end);
      assert Last(attempts) == Last(attempts[1..]);
    }
  }

  /** One attempt never costs more than it takes off the budget. */
  lemma OneAttemptSpends(config: Config, b: Breaker, a: Attempt, now: real, until: real)
    requires config.resetTimeout > 0.0 && Consistent(config, b, now)
    requires now <= a.start <= a.end && a.start <= until && (Invokes(config, b, a.start) ==> !a.succeeds)
    ensures (if Invokes(config, b, a.start) then 1 else 0) + Budget(config, AfterAttempt(config, b, a), a.end, until)
            <= Budget(config, b, now, until)
  {
    var reset := config.resetTimeout;
    if b.state.Closed? {
      FewerTrialsLater(config, now + reset, a.end + reset, until);
    } else if Invokes(config, b, a.start) {
      OneTrialThenTheRest(config, a.start, a.end, until);
      var first := if b.state.HalfOpen? || now >= b.openedAt.value + reset then now else b.openedAt.value + reset;
      FewerTrialsLater(config, first, a.start, until);
    } else {
      var expires := b.openedAt.value + reset;
      FewerTrialsLater(config, if now < expires then expires else now, if a.end < expires then expires else a.end,
                       until);
    }
  }

  /** From any breaker reachable by any history, in any success-free stretch whose calls start
      within `length` of `now`, the dependency is invoked at most
      failureThreshold + floor(length / resetTimeout) times. */
  lemma FailingDependencyIsContactedRarely(config: Config, history: seq<Attempt>, from: real,
                                           attempts: seq<Attempt>, now: real, length: real)
    requires config.resetTimeout > 0.0 && length >= 0.0
    requires Serialised(history, from) && from <= now && (history != [] ==> Last(history).end <= now)
    requires Serialised(attempts, now) && SuccessFree(config, AfterAttempts(config, FRESH, history), attempts)
    requires attempts != [] ==> Last(attempts).start <= now + length
    ensures Invocations(config, AfterAttempts(config, FRESH, history), attempts)
            <= Threshold(config) + (length / config.resetTimeout).Floor
  {
    var b := AfterAttempts(config, FRESH, history);
    RunsStayConsistent(config, FRESH, history, from);
    var until := now + length;
    InvocationsWithinBudget(config, b, attempts, now, until);
    NonNegativeQuotient(length, config.resetTimeout);
    assert until - now == length;
    assert Trials(config, now, until) == 1 + (length / config.resetTimeout).Floor;
    if b.state.Closed? {
      OneTrialThenTheRest(config, now, now, until);
    } else {
      var expires := b.openedAt.value + config.resetTimeout;
      FewerTrialsLater(config, now, if now < expires then expires else now, until);
    }
  }

  // ---- what a caller sees -----------------------------------------------------------------------

  function ResultsOf(config: Config, b: Breaker, attempts: seq<Attempt>): seq<CallResult>
    decreases |attempts|
  {
    if attempts == [] then []
    else [ResultOf(config, b, attempts[0])] + ResultsOf(config, AfterAttempt(config, b, attempts[0]), attempts[1..])
  }

  /** Failures in a row: since the last success, refused attempts left out. */
  function Streak(results: seq<CallResult>): nat {
    if results == [] then 0
    else
      var front := results[..|results| - 1];
      match results[|results| - 1]
      case FailedFast => Streak(front)
      case Failed => Streak(front) + 1
      case Succeeded => 0
  }

  /** When the last failed attempt ended. */
  function LastFailureEnd(attempts: seq<Attempt>, results: seq<CallResult>): Option<real>
    requires |attempts| == |results|
  {
    if results == [] then None
    else
      var n := |results| - 1;
      if results[n].Failed? then Some(attempts[n].end) else LastFailureEnd(attempts[..n], results[..n])
  }

  /** After these results an attempt at `start` is refused: enough failures in a row, the last of them
      less than a reset timeout ago. */
  predicate Refuses(config: Config, attempts: seq<Attempt>, results: seq<CallResult>, start: real)
    requires |attempts| == |results|
  {
    && Streak(results) >= Threshold(config)
    && var failed := LastFailureEnd(attempts, results);
       failed.Some? && start - failed.value < config.resetTimeout
  }

  /** Every attempt that is not refused reaches the dependency, whose outcome is the result. */
  predicate IsTrace(config: Config, attempts: seq<Attempt>, results: seq<CallResult>) {
    && |attempts| == |results|
    && forall i :: 0 <= i < |results| ==> FollowsTrace(config, attempts, results, i)
  }

  predicate FollowsTrace(config: Config, attempts: seq<Attempt>, results: seq<CallResult>, i: nat)
    requires i < |attempts| == |results|
  {
    if Refuses(config, attempts[..i], results[..i], attempts[i].start) then results[i].FailedFast?
    else results[i] == if attempts[i].succeeds then Succeeded else Failed
  }

  /** The breaker these results leave behind. */
  ghost predicate Explains(config: Config, attempts: seq<Attempt>, results: seq<CallResult>, b: Breaker)
    requires |attempts| == |results|
  {
    && b.failureCount == Streak(results)
    && (b.state.Closed? <==> Streak(results) < Threshold(config))
    && (b.state.Open? <==> Streak(results) >= Threshold(config))
    && b.openedAt == if b.state.Open? then LastFailureEnd(attempts, results) else None
  }

  lemma {:induction false} StreakHasAFailure(attempts: seq<Attempt>, results: seq<CallResult>)
    requires |attempts| == |results| && Streak(results) > 0
    ensures LastFailureEnd(attempts, results).Some?
    decreases |results|
  {
    var n := |results| - 1;
    if results[n].FailedFast? {
      StreakHasAFailure(attempts[..n], results[..n]);
    }
  }

  lemma OneMoreResult(config: Config, attempts: seq<Attempt>, results: seq<CallResult>, b: Breaker, a: Attempt)
    requires IsTrace(config, attempts, results) && Explains(config, attempts, results, b)
    ensures IsTrace(config, attempts + [a], results + [ResultOf(config, b, a)])
    ensures Explains(config, attempts + [a], results + [ResultOf(config, b, a)], AfterAttempt(config, b, a))
  {
    var r := ResultOf(config, b, a);
    var attempts', results' := attempts + [a], results + [r];
    assert attempts'[..|attempts|] == attempts && results'[..|results|] == results;
    if Streak(results) > 0 {
      StreakHasAFailure(attempts, results);
    }
    forall i | 0 <= i < |results'|
      ensures FollowsTrace(config, attempts', results', i)
    {
      if i < |results| {
        assert FollowsTrace(config, attempts, results, i);
        assert attempts'[..i] == attempts[..i] && results'[..i] == results[..i];
      }
    }
  }

  lemma {:induction false} ResultsFollow(config: Config, attempts: seq<Attempt>, results: seq<CallResult>, b: Breaker,
                                         rest: seq<Attempt>)
    requires IsTrace(config, attempts, results) && Explains(config, attempts, results, b)
    ensures IsTrace(config, attempts + rest, results + ResultsOf(config, b, rest))
    ensures Explains(config, attempts + rest, results + ResultsOf(config, b, rest), AfterAttempts(config, b, rest))
    decreases |rest|
  {
    if rest == [] {
      assert attempts + rest == attempts && results + ResultsOf(config, b, rest) == results;
    } else {
      var r := ResultOf(config, b, rest[0]);
      OneMoreResult(config, attempts, results, b, rest[0]);
      ResultsFollow(config, attempts + [rest[0]], results + [r], AfterAttempt(config, b, rest[0]), rest[1..]);
      assert attempts + [rest[0]] + rest[1..] == attempts + rest;
      assert results + [r] + ResultsOf(config, AfterAttempt(config, b, rest[0]), rest[1..])
             == results + ResultsOf(config, b, rest);
    }
  }

  /** Over every run, whatever its times: an attempt is refused exactly when the last `failureThreshold`
      or more attempts that reached the dependency all failed and the last of them ended less than a reset
      timeout ago; every other attempt reaches the dependency. The circuit is open exactly while the
      streak of failures has that length, and a closed circuit's count is the streak. */
  lemma RunsFollowTheirResults(config: Config, attempts: seq<Attempt>)
    ensures IsTrace(config, attempts, ResultsOf(config, FRESH, attempts))
    ensures Explains(config, attempts, ResultsOf(config, FRESH, attempts), AfterAttempts(config, FRESH, attempts))
  {
    ResultsFollow(config, [], [], FRESH, attempts);
    assert [] + attempts == attempts;
    assert [] + ResultsOf(config, FRESH, attempts) == ResultsOf(config, FRESH, attempts);
  }

  /** These rules leave no choice: only one sequence of results follows them. */
  lemma {:induction false} TraceIsUnique(config: Config, attempts: seq<Attempt>, results: seq<CallResult>,
                                         results': seq<CallResult>)
    requires IsTrace(config, attempts, results) && IsTrace(config, attempts, results')
    ensures results == results'
    decreases |attempts|
  {
    if attempts != [] {
      var n := |attempts| - 1;
      forall i | 0 <= i < n
        ensures FollowsTrace(config, attempts[..n], results[..n], i)
        ensures FollowsTrace(config, attempts[..n], results'[..n], i)
      {
        assert FollowsTrace(config, attempts, results, i) && FollowsTrace(config, attempts, results', i);
        assert attempts[..n][..i] == attempts[..i];
        assert results[..n][..i] == results[..i] && results'[..n][..i] == results'[..i];
      }
      TraceIsUnique(config, attempts[..n], results[..n], results'[..n]);
      assert FollowsTrace(config, attempts, results, n) && FollowsTrace(config, attempts, results', n);
    }
  }

  /** An open circuit is tried again as soon as a reset timeout has passed since it opened. */
  lemma OpenCircuitIsTriedAgain(config: Config, history: seq<Attempt>, a: Attempt)
    requires var b := AfterAttempts(config, FRESH, history);
             b.state.Open? && (b.openedAt.Some? ==> a.start - b.openedAt.value >= config.resetTimeout)
    ensures AfterAttempts(config, FRESH, history).openedAt.Some?
    ensures ResultOf(config, AfterAttempts(config, FRESH, history), a) == if a.succeeds then Succeeded else Failed
  {
    RunsFollowTheirResults(config, history);
    StreakHasAFailure(history, ResultsOf(config, FRESH, history));
  }

  /** While an OPEN circuit has not timed out nothing reaches the dependency and nothing changes. */
  lemma OpenCircuitIsSilent(config: Config, b: Breaker, attempts: seq<Attempt>)
    requires b.state.Open? && b.openedAt.Some?
    requires forall i :: 0 <= i < |attempts| ==> attempts[i].start < b.openedAt.value + config.resetTimeout
    ensures Invocations(config, b, attempts) == 0 && AfterAttempts(config, b, attempts) == b
    decreases |attempts|
  {
    if attempts == [] {
    } else {
      OpenCircuitIsSilent(config, b, attempts[1..]);
    }
  }

  lemma {:induction false} RunsCompose(config: Config, b: Breaker, xs: seq<Attempt>, ys: seq<Attempt>)
    ensures AfterAttempts(config, b, xs + ys) == AfterAttempts(config, AfterAttempts(config, b, xs), ys)
    ensures Invocations(config, b, xs + ys)
            == Invocations(config, b, xs) + Invocations(config, AfterAttempts(config, b, xs), ys)
    decreases |xs|
  {
    if xs == [] {
      assert xs + ys == ys;
    } else {
      assert (xs + ys)[0] == xs[0] && (xs + ys)[1..] == xs[1..] + ys;
      RunsCompose(config, AfterAttempt(config, b, xs[0]), xs[1..], ys);
    }
  }
}
