/** Loading a served model (inference/model_loading.py): a cache, and behind it a retry loop
    around the circuit breaker around one contact with the artifact store. The store's answers
    are an oracle; the loader's lock makes whole loads happen one after another. */
module ModelLoading {
  import opened Common
  import opened CircuitBreakers

  datatype ModelVersion = ModelVersion(id: Uuid, name: string, artifactChecksum: string)

  /** What is stored under a version's artifact URI. */
  type Artifact = seq<int>

  datatype Family = Sklearn | HermesRpt

  datatype LoadedModel = LoadedModel(versionId: Uuid, family: Family, content: Artifact)

  datatype LoadError =
    | CircuitOpen
    | TimedOut
    | IntegrityMismatch(expected: string, actual: string)
    | NoCheckpoint
    | LoadFailed
    | NeverAttempted

  /** One contact with the artifact store. The artifact is downloaded twice: once to verify its
      checksum, once to load it. */
  datatype Contact = Contact(start: real, end: real, timesOut: bool, verified: Artifact,
                             hasCheckpoint: bool, deserialises: bool, loaded: Artifact)

  datatype RetryConfig = RetryConfig(maxAttempts: int, initialBackoff: real, multiplier: real)

  /** The fixed surroundings: breaker and retry settings, and the checksum function. */
  datatype Setting = Setting(breaker: Config, retry: RetryConfig, checksum: Artifact -> string)

  const HERMES_RPT_NAME_MARKER := "hermes-rpt"

  predicate ContainsAt(s: string, part: string, i: nat) {
    i + |part| <= |s| && s[i..i + |part|] == part
  }

  predicate Contains(s: string, part: string) {
    exists i :: 0 <= i <= |s| && ContainsAt(s, part, i)
  }

  function FamilyOf(version: ModelVersion): Family {
    if Contains(version.name, HERMES_RPT_NAME_MARKER) then HermesRpt else Sklearn
  }

  /** What one contact yields: the checksum gate comes before anything is deserialised. */
  function Fetch(setting: Setting, version: ModelVersion, c: Contact): Result<LoadedModel, LoadError> {
    if c.timesOut then Err(TimedOut)
    else if setting.checksum(c.verified) != version.artifactChecksum then
      Err(IntegrityMismatch(version.artifactChecksum, setting.checksum(c.verified)))
    else if FamilyOf(version).HermesRpt? && !c.hasCheckpoint then Err(NoCheckpoint)
    else if !c.deserialises then Err(LoadFailed)
    else Ok(LoadedModel(version.id, FamilyOf(version), c.loaded))
  }

  function AttemptOf(setting: Setting, version: ModelVersion, c: Contact): Attempt {
    Attempt(c.start, c.end, Fetch(setting, version, c).Ok?)
  }

  /** What the k-th try of a load yields when the breaker is `b`. */
  function TryThrough(setting: Setting, version: ModelVersion, b: Breaker, c: Contact): Result<LoadedModel, LoadError> {
    if Invokes(setting.breaker, b, c.start) then Fetch(setting, version, c) else Err(CircuitOpen)
  }

  function Grown(delay: real, multiplier: real): real {
    delay * multiplier
  }

  function NextDelay(retry: RetryConfig, delay: real): real {
    Grown(delay, retry.multiplier)
  }

  datatype LoadRun = LoadRun(result: Result<LoadedModel, LoadError>, breaker: Breaker,
                             attempts: seq<Attempt>, slept: real)

  /** The retry loop from its k-th attempt on, with `delay` the next backoff and `last` the error
      so far. */
  function Retry(setting: Setting, version: ModelVersion, store: nat -> Contact, b: Breaker,
                 k: nat, delay: real, last: LoadError): LoadRun
    decreases setting.retry.maxAttempts - k
  {
    if k >= setting.retry.maxAttempts then LoadRun(Err(last), b, [], 0.0)
    else
      var a := AttemptOf(setting, version, store(k));
      var after := AfterAttempt(setting.breaker, b, a);
      match TryThrough(setting, version, b, store(k))
      case Ok(m) => LoadRun(Ok(m), after, [a], 0.0)
      case Err(e) =>
        var rest := Retry(setting, version, store, after, k + 1, NextDelay(setting.retry, delay), e);
        var pause := if k + 1 < setting.retry.maxAttempts then delay else 0.0;
        rest.(attempts := [a] + rest.attempts, slept := pause + rest.slept)
  }

  /** A run with earlier attempts and pauses before it. */
  function After(attempts: seq<Attempt>, slept: real, run: LoadRun): LoadRun {
    run.(attempts := attempts + run.attempts, slept := slept + run.slept)
  }

  lemma RetryStep(setting: Setting, version: ModelVersion, store: nat -> Contact, b: Breaker, k: nat, delay: real,
                  last: LoadError,
                  attempts: seq<Attempt>, slept: real, e: LoadError)
    requires k < setting.retry.maxAttempts && TryThrough(setting, version, b, store(k)) == Err(e)
    ensures var a := AttemptOf(setting, version, store(k));
            var pause := if k + 1 < setting.retry.maxAttempts then delay else 0.0;
            After(attempts, slept, Retry(setting, version, store, b, k, delay, last))
            == After(attempts + [a], slept + pause,
                     Retry(setting, version, store, AfterAttempt(setting.breaker, b, a), k + 1,
                           NextDelay(setting.retry, delay), e))
  {
    var a := AttemptOf(setting, version, store(k));
    var rest :=
      Retry(setting, version, store, AfterAttempt(setting.breaker, b, a), k + 1, NextDelay(setting.retry, delay), e);
    assert attempts + ([a] + rest.attempts) == attempts + [a] + rest.attempts;
  }

  function LoadUncached(setting: Setting, version: ModelVersion, store: nat -> Contact, b: Breaker): LoadRun {
    Retry(setting, version, store, b, 0, setting.retry.initialBackoff, NeverAttempted)
  }

  type Cache = map<Uuid, LoadedModel>

  function Load(setting: Setting, cache: Cache, version: ModelVersion, store: nat -> Contact, b: Breaker): LoadRun {
    if version.id in cache then LoadRun(Ok(cache[version.id]), b, [], 0.0)
    else LoadUncached(setting, version, store, b)
  }

  function CacheAfter(cache: Cache, version: ModelVersion, run: LoadRun): Cache {
    if run.result.Ok? then cache[version.id := run.result.value] else cache
  }

  class ModelLoader {
    const setting: Setting
    const breaker: CircuitBreaker
    var cache: Cache

    ghost predicate Valid() {
      breaker.config == setting.breaker
    }

    constructor (setting: Setting)
      ensures Valid() && this.setting == setting && fresh(breaker)
      ensures cache == map[] && breaker.Value() == FRESH
    {
      this.setting := setting;
      breaker := new CircuitBreaker(setting.breaker);
      cache := map[];
    }

    method LoadModel(version: ModelVersion, store: nat -> Contact)
      returns (result: Result<LoadedModel, LoadError>, attempts: seq<Attempt>, slept: real)
      requires Valid()
      modifies this, breaker
      ensures LoadRun(result, breaker.Value(), attempts, slept)
              == Load(setting, old(cache), version, store, old(breaker.Value()))
      ensures cache == CacheAfter(old(cache), version, LoadRun(result, breaker.Value(), attempts, slept))
    {
      if version.id in cache {
        return Ok(cache[version.id]), [], 0.0;
      }
      result, attempts, slept := RetryWithBackoff(version, store);
      if result.Ok? {
        cache := cache[version.id := result.value];
      }
    }

    /** One try through the breaker. */
    method TryOnce(version: ModelVersion, c: Contact) returns (a: Attempt, r: Result<LoadedModel, LoadError>)
      requires Valid()
      modifies breaker
      ensures a == AttemptOf(setting, version, c)
      ensures breaker.Value() == AfterAttempt(setting.breaker, old(breaker.Value()), a)
      ensures r == TryThrough(setting, version, old(breaker.Value()), c)
    {
      a := AttemptOf(setting, version, c);
      var outcome := breaker.Call(a);
      r := if outcome.FailedFast? then Err(CircuitOpen) else Fetch(setting, version, c);
    }

    method RetryWithBackoff(version: ModelVersion, store: nat -> Contact)
      returns (result: Result<LoadedModel, LoadError>, attempts: seq<Attempt>, slept: real)
      requires Valid()
      modifies breaker
      ensures LoadRun(result, breaker.Value(), attempts, slept)
              == LoadUncached(setting, version, store, old(breaker.Value()))
    {
      var delay, lastError := setting.retry.initialBackoff, NeverAttempted;
      attempts, slept := [], 0.0;
      var k: nat := 0;
      ghost var whole := LoadUncached(setting, version, store, breaker.Value());
      while k < setting.retry.maxAttempts
        invariant k == 0 || k <= setting.retry.maxAttempts
        invariant whole == After(attempts, slept, Retry(setting, version, store, breaker.Value(), k, delay, lastError))
      {
        ghost var before := breaker.Value();
        var a, r := TryOnce(version, store(k));
        if r.Ok? {
          attempts := attempts + [a];
          return r, attempts, slept;
        }
        ghost var previous := lastError;
        lastError := r.error;
        RetryStep(setting, version, store, before, k, delay, previous, attempts, slept, lastError);
        attempts := attempts + [a];
        if k + 1 < setting.retry.maxAttempts {
          slept := slept + delay;
        }
        delay := NextDelay(setting.retry, delay);
        k := k + 1;
      }
      assert attempts + [] == attempts;
      result := Err(lastError);
    }
  }

  // ---- what a load guarantees -----------------------------------------------------------------

  /** What the i-th try from now yields, when the breaker is `b` and the next try is the k-th:
      every earlier try has gone through the breaker first. */
  function TryAt(setting: Setting, version: ModelVersion, store: nat -> Contact, b: Breaker, k: nat, i: nat)
    : Result<LoadedModel, LoadError>
    decreases i
  {
    if i == 0 then TryThrough(setting, version, b, store(k))
    else TryAt(setting, version, store, AfterAttempt(setting.breaker, b, AttemptOf(setting, version, store(k))), k + 1,
               i - 1)
  }

  /** A load's tries are consecutive contacts, never more than `maxAttempts`. */
  lemma {:induction false} TriesAreConsecutive(setting: Setting, version: ModelVersion, store: nat -> Contact,
                                               b: Breaker,
                                               k: nat, delay: real, last: LoadError)
    ensures var attempts := Retry(setting, version, store, b, k, delay, last).attempts;
            && (attempts == [] || k + |attempts| <= setting.retry.maxAttempts)
            && forall i :: 0 <= i < |attempts| ==> attempts[i] == AttemptOf(setting, version, store(k + i))
    decreases setting.retry.maxAttempts - k
  {
    if k >= setting.retry.maxAttempts {
    } else {
      var r := TryThrough(setting, version, b, store(k));
      if r.Err? {
        var after := AfterAttempt(setting.breaker, b, AttemptOf(setting, version, store(k)));
        TriesAreConsecutive(setting, version, store, after, k + 1, NextDelay(setting.retry, delay), r.error);
        var rest := Retry(setting, version, store, after, k + 1, NextDelay(setting.retry, delay), r.error).attempts;
        forall i | 0 <= i < |rest|
          ensures rest[i] == AttemptOf(setting, version, store(k + (i + 1)))
        {
          assert k + 1 + i == k + (i + 1);
        }
      }
    }
  }

  /** The breaker sees exactly the load's tries. */
  lemma {:induction false} RetryDrivesBreaker(setting: Setting, version: ModelVersion, store: nat -> Contact,
                                              b: Breaker,
                                              k: nat, delay: real, last: LoadError)
    ensures var run := Retry(setting, version, store, b, k, delay, last);
            run.breaker == AfterAttempts(setting.breaker, b, run.attempts)
    decreases setting.retry.maxAttempts - k
  {
    if k >= setting.retry.maxAttempts {
    } else {
      var a := AttemptOf(setting, version, store(k));
      var after := AfterAttempt(setting.breaker, b, a);
      var r := TryThrough(setting, version, b, store(k));
      if r.Ok? {
        assert [a][1..] == [];
      } else {
        RetryDrivesBreaker(setting, version, store, after, k + 1, NextDelay(setting.retry, delay), r.error);
        var rest := Retry(setting, version, store, after, k + 1, NextDelay(setting.retry, delay), r.error).attempts;
        assert ([a] + rest)[1..] == rest;
      }
    }
  }

  /** A load stops at its first successful try and returns it; without one it uses up all
      `maxAttempts` and reports the last try's error. */
  lemma {:induction false} RetryMeaning(setting: Setting, version: ModelVersion, store: nat -> Contact, b: Breaker,
                                        k: nat, delay: real, last: LoadError)
    ensures var run := Retry(setting, version, store, b, k, delay, last);
            var n := |run.attempts|;
            && (forall i: nat :: i + 1 < n ==> TryAt(setting, version, store, b, k, i).Err?)
            && (run.result.Ok? ==> n > 0)
            && (run.result.Err? && k <= setting.retry.maxAttempts ==> k + n == setting.retry.maxAttempts)
            && run.result == (if n == 0 then Err(last) else TryAt(setting, version, store, b, k, n - 1))
    decreases setting.retry.maxAttempts - k
  {
    if k >= setting.retry.maxAttempts {
    } else {
      var after := AfterAttempt(setting.breaker, b, AttemptOf(setting, version, store(k)));
      var r := TryThrough(setting, version, b, store(k));
      if r.Err? {
        RetryMeaning(setting, version, store, after, k + 1, NextDelay(setting.retry, delay), r.error);
        var run := Retry(setting, version, store, b, k, delay, last);
        forall i: nat | i + 1 < |run.attempts|
          ensures TryAt(setting, version, store, b, k, i).Err?
        {
          if i > 0 {
            assert TryAt(setting, version, store, after, k + 1, i - 1).Err?;
          }
        }
      }
    }
  }

  /** What a load returns is what some contact fetched: it passed the checksum gate. */
  lemma {:induction false} LoadedMeansFetched(setting: Setting, version: ModelVersion, store: nat -> Contact,
                                              b: Breaker,
                                              k: nat, delay: real, last: LoadError)
    ensures var run := Retry(setting, version, store, b, k, delay, last);
            run.result.Ok? ==>
              exists i: nat :: i < setting.retry.maxAttempts && Fetch(setting, version, store(i)) == run.result
    decreases setting.retry.maxAttempts - k
  {
    if k >= setting.retry.maxAttempts {
    } else {
      var r := TryThrough(setting, version, b, store(k));
      if r.Err? {
        var after := AfterAttempt(setting.breaker, b, AttemptOf(setting, version, store(k)));
        LoadedMeansFetched(setting, version, store, after, k + 1, NextDelay(setting.retry, delay), r.error);
      }
    }
  }

  /** A successful try returns what its contact fetches. */
  lemma {:induction false} TryFetches(setting: Setting, version: ModelVersion, store: nat -> Contact, b: Breaker,
                                           k: nat, i: nat)
    requires TryAt(setting, version, store, b, k, i).Ok?
    ensures TryAt(setting, version, store, b, k, i) == Fetch(setting, version, store(k + i))
    decreases i
  {
    if i > 0 {
      var after := AfterAttempt(setting.breaker, b, AttemptOf(setting, version, store(k)));
      TryFetches(setting, version, store, after, k + 1, i - 1);
    }
  }

  /** The i-th contact is the first of a load that goes through the breaker and passes the gates. */
  ghost predicate IsFirstFetch(setting: Setting, version: ModelVersion, store: nat -> Contact, b: Breaker, i: nat) {
    && i < setting.retry.maxAttempts && TryAt(setting, version, store, b, 0, i).Ok?
    && forall j: nat :: j < i ==> TryAt(setting, version, store, b, 0, j).Err?
  }

  /** The bytes of the second download have the registered checksum too. */
  predicate LoadsRegistered(setting: Setting, version: ModelVersion, c: Contact) {
    setting.checksum(c.loaded) == version.artifactChecksum
  }

  /** A load returns what its first fetch loads, and nothing without one. */
  lemma LoadReturnsFirstFetch(setting: Setting, version: ModelVersion, store: nat -> Contact, b: Breaker)
    ensures var result := LoadUncached(setting, version, store, b).result;
            && (result.Ok? <==> exists i: nat :: IsFirstFetch(setting, version, store, b, i))
            && forall i: nat :: IsFirstFetch(setting, version, store, b, i) ==>
                 result.Ok? && result.value.content == store(i).loaded
  {
    var run := LoadUncached(setting, version, store, b);
    var n := |run.attempts|;
    RetryMeaning(setting, version, store, b, 0, setting.retry.initialBackoff, NeverAttempted);
    TriesAreConsecutive(setting, version, store, b, 0, setting.retry.initialBackoff, NeverAttempted);
    if run.result.Ok? {
      TryFetches(setting, version, store, b, 0, n - 1);
      assert IsFirstFetch(setting, version, store, b, n - 1);
    }
    forall i: nat | IsFirstFetch(setting, version, store, b, i)
      ensures run.result.Ok? && i == n - 1
    {
      assert !(i + 1 < n);
    }
  }

  /** The contact answers in time with an artifact of the registered checksum, holds a checkpoint if the model's
      name calls for one, and what it loads can be read. */
  predicate PassesGates(setting: Setting, version: ModelVersion, c: Contact) {
    && !c.timesOut && setting.checksum(c.verified) == version.artifactChecksum
    && (Contains(version.name, "hermes-rpt") ==> c.hasCheckpoint) && c.deserialises
  }

  /** A load that succeeds returns what the second download of some contact that passed all gates held, as the
      requested version and of the family its name says. */
  lemma LoadedPassedTheGates(setting: Setting, version: ModelVersion, store: nat -> Contact, b: Breaker)
    ensures var result := LoadUncached(setting, version, store, b).result;
            result.Ok? ==>
              && result.value.versionId == version.id
              && (result.value.family.HermesRpt? <==> Contains(version.name, "hermes-rpt"))
              && exists i: nat :: i < setting.retry.maxAttempts && PassesGates(setting, version, store(i))
                                  && result.value.content == store(i).loaded
  {
    LoadedMeansFetched(setting, version, store, b, 0, setting.retry.initialBackoff, NeverAttempted);
  }

  /** A contact that does not pass is reported by the first gate it fails. */
  lemma ErrorsNameTheGate(setting: Setting, version: ModelVersion, c: Contact)
    ensures Fetch(setting, version, c).Ok? <==> PassesGates(setting, version, c)
    ensures var r := Fetch(setting, version, c);
            && (r == Err(TimedOut) <==> c.timesOut)
            && (r.Err? && r.error.IntegrityMismatch? <==>
                  !c.timesOut && setting.checksum(c.verified) != version.artifactChecksum)
            && (r == Err(NoCheckpoint) ==> Contains(version.name, "hermes-rpt") && !c.hasCheckpoint)
            && (r == Err(LoadFailed) ==> !c.deserialises)
            && r != Err(CircuitOpen) && r != Err(NeverAttempted)
  {
  }

  function Power(x: real, n: nat): real {
    if n == 0 then 1.0 else x * Power(x, n - 1)
  }

  /** The sum of `n` pauses, the first of them `delay` and each `m` times the one before. */
  function SumOfPauses(delay: real, m: real, n: nat): real
    decreases n
  {
    if n == 0 then 0.0 else delay + SumOfPauses(Grown(delay, m), m, n - 1)
  }

  predicate InClosedForm(sum: real, delay: real, m: real, n: nat) {
    sum * (m - 1.0) == delay * (Power(m, n) - 1.0)
  }

  lemma OneMorePause(rest: real, delay: real, m: real, n: nat)
    requires InClosedForm(rest, Grown(delay, m), m, n)
    ensures InClosedForm(delay + rest, delay, m, n + 1)
  {
    var p := Power(m, n);
    calc {
      (delay + rest) * (m - 1.0);
      delay * (m - 1.0) + rest * (m - 1.0);
      delay * (m - 1.0) + delay * m * (p - 1.0);
      delay * (m * p - 1.0);
    }
  }

  /** The closed form of a growing pause ... */
  lemma {:induction false} SumOfPausesInClosedForm(delay: real, m: real, n: nat)
    ensures InClosedForm(SumOfPauses(delay, m, n), delay, m, n)
    decreases n
  {
    if n > 0 {
      SumOfPausesInClosedForm(Grown(delay, m), m, n - 1);
      OneMorePause(SumOfPauses(Grown(delay, m), m, n - 1), delay, m, n - 1);
    }
  }

  /** ... and of a constant one. */
  lemma {:induction false} ConstantPausesAddUp(delay: real, n: nat)
    ensures SumOfPauses(delay, 1.0, n) == delay * n as real
    decreases n
  {
    if n > 0 {
      assert Grown(delay, 1.0) == delay;
      ConstantPausesAddUp(delay, n - 1);
      OnePauseMore(delay, n);
    }
  }

  lemma OnePauseMore(delay: real, n: nat)
    requires n > 0
    ensures delay + delay * (n - 1) as real == delay * n as real
  {
  }

  function Pauses(run: LoadRun): nat {
    if run.attempts == [] then 0 else |run.attempts| - 1
  }

  /** A failed try adds its pause and attempt to the rest of the run. */
  lemma FailedTry(setting: Setting, version: ModelVersion, store: nat -> Contact, b: Breaker, k: nat, delay: real,
                  last: LoadError, e: LoadError)
    requires k < setting.retry.maxAttempts && TryThrough(setting, version, b, store(k)) == Err(e)
    ensures var run := Retry(setting, version, store, b, k, delay, last);
            var after := AfterAttempt(setting.breaker, b, AttemptOf(setting, version, store(k)));
            var rest := Retry(setting, version, store, after, k + 1, NextDelay(setting.retry, delay), e);
            if k + 1 < setting.retry.maxAttempts then Pauses(run) == Pauses(rest) + 1 && run.slept == delay + rest.slept
            else Pauses(run) == 0 && run.slept == 0.0
  {
  }

  /** The total time slept is the sum of one pause fewer than there were attempts. */
  lemma {:induction false} BackoffIsGeometric(setting: Setting, version: ModelVersion, store: nat -> Contact,
                                              b: Breaker,
                                              k: nat, delay: real, last: LoadError)
    ensures var run := Retry(setting, version, store, b, k, delay, last);
            run.slept == SumOfPauses(delay, setting.retry.multiplier, Pauses(run))
    decreases setting.retry.maxAttempts - k
  {
    if k < setting.retry.maxAttempts {
      var r := TryThrough(setting, version, b, store(k));
      if r.Err? {
        FailedTry(setting, version, store, b, k, delay, last, r.error);
        if k + 1 < setting.retry.maxAttempts {
          var after := AfterAttempt(setting.breaker, b, AttemptOf(setting, version, store(k)));
          BackoffIsGeometric(setting, version, store, after, k + 1, NextDelay(setting.retry, delay), r.error);
        }
      }
    }
  }

  // ---- whole runs of the loader ---------------------------------------------------------------

  datatype Request = Request(version: ModelVersion, store: nat -> Contact)

  datatype LoaderState = LoaderState(cache: Cache, breaker: Breaker)

  function AfterLoad(setting: Setting, s: LoaderState, r: Request): LoaderState {
    var run := Load(setting, s.cache, r.version, r.store, s.breaker);
    LoaderState(CacheAfter(s.cache, r.version, run), run.breaker)
  }

  function AfterLoads(setting: Setting, s: LoaderState, requests: seq<Request>): LoaderState
    decreases |requests|
  {
    if requests == [] then s else AfterLoads(setting, AfterLoad(setting, s, requests[0]), requests[1..])
  }

  /** Every breaker attempt the requests make, in order. */
  function AllAttempts(setting: Setting, s: LoaderState, requests: seq<Request>): seq<Attempt>
    decreases |requests|
  {
    if requests == [] then []
    else
      var r := requests[0];
      Load(setting, s.cache, r.version, r.store, s.breaker).attempts
      + AllAttempts(setting, AfterLoad(setting, s, r), requests[1..])
  }

  ghost predicate SameVersions(registry: map<Uuid, ModelVersion>, requests: seq<Request>) {
    forall i :: 0 <= i < |requests| ==>
      requests[i].version.id in registry && registry[requests[i].version.id] == requests[i].version
  }

  ghost predicate CacheIsVerified(setting: Setting, registry: map<Uuid, ModelVersion>, cache: Cache) {
    forall id :: id in cache ==>
      && id in registry
      && cache[id].versionId == id
      && cache[id].family == FamilyOf(registry[id])
      && setting.checksum(cache[id].content) == registry[id].artifactChecksum
  }

  /** If the request has to be loaded, its first fetch loads the registered bytes. */
  ghost predicate FetchIsRegistered(setting: Setting, s: LoaderState, r: Request) {
    r.version.id !in s.cache ==>
      forall i: nat :: IsFirstFetch(setting, r.version, r.store, s.breaker, i) ==>
        LoadsRegistered(setting, r.version, r.store(i))
  }

  lemma VerifiedExactlyWhenFetched(setting: Setting, registry: map<Uuid, ModelVersion>, s: LoaderState, r: Request)
    requires r.version.id in registry && registry[r.version.id] == r.version
    requires CacheIsVerified(setting, registry, s.cache)
    ensures CacheIsVerified(setting, registry, AfterLoad(setting, s, r).cache) <==> FetchIsRegistered(setting, s, r)
  {
    if r.version.id !in s.cache {
      var run := LoadUncached(setting, r.version, r.store, s.breaker);
      LoadReturnsFirstFetch(setting, r.version, r.store, s.breaker);
      LoadedMeansFetched(setting, r.version, r.store, s.breaker, 0, setting.retry.initialBackoff, NeverAttempted);
      if run.result.Ok? {
        var after := AfterLoad(setting, s, r).cache;
        assert after == s.cache[r.version.id := run.result.value];
        assert CacheIsVerified(setting, registry, after)
               <==> setting.checksum(run.result.value.content) == r.version.artifactChecksum;
      }
    }
  }

  /** A cached version never contacts the store again, and is served unchanged for ever. */
  lemma {:induction false} CachedModelsArePermanent(setting: Setting, s: LoaderState, requests: seq<Request>, id: Uuid)
    requires id in s.cache
    requires forall id :: id in s.cache ==> s.cache[id].versionId == id
    ensures id in AfterLoads(setting, s, requests).cache
    ensures AfterLoads(setting, s, requests).cache[id] == s.cache[id]
    decreases |requests|
  {
    if requests == [] {
    } else {
      var r := requests[0];
      LoadedMeansFetched(setting, r.version, r.store, s.breaker, 0, setting.retry.initialBackoff, NeverAttempted);
      CachedModelsArePermanent(setting, AfterLoad(setting, s, r), requests[1..], id);
    }
  }

  ghost predicate EveryFetchIsRegistered(setting: Setting, s: LoaderState, requests: seq<Request>) {
    forall n :: 0 <= n < |requests| ==>
      FetchIsRegistered(setting, AfterLoads(setting, s, requests[..n]), requests[n])
  }

  lemma FirstFetchAndRest(setting: Setting, s: LoaderState, requests: seq<Request>)
    requires requests != []
    ensures EveryFetchIsRegistered(setting, s, requests)
            <==> FetchIsRegistered(setting, s, requests[0])
                 && EveryFetchIsRegistered(setting, AfterLoad(setting, s, requests[0]), requests[1..])
  {
    var after, rest := AfterLoad(setting, s, requests[0]), requests[1..];
    assert AfterLoads(setting, s, requests[..0]) == s;
    forall n | 0 <= n < |rest|
      ensures AfterLoads(setting, s, requests[..n + 1]) == AfterLoads(setting, after, rest[..n])
      ensures requests[n + 1] == rest[n]
    {
      assert requests[..n + 1][1..] == rest[..n];
    }
    if EveryFetchIsRegistered(setting, s, requests) {
      assert FetchIsRegistered(setting, AfterLoads(setting, s, requests[..0]), requests[0]);
      forall n | 0 <= n < |rest|
        ensures FetchIsRegistered(setting, AfterLoads(setting, after, rest[..n]), rest[n])
      {
        assert FetchIsRegistered(setting, AfterLoads(setting, s, requests[..n + 1]), requests[n + 1]);
      }
    } else if FetchIsRegistered(setting, s, requests[0]) {
      var n :| 0 <= n < |requests| && !FetchIsRegistered(setting, AfterLoads(setting, s, requests[..n]), requests[n]);
      assert !FetchIsRegistered(setting, AfterLoads(setting, after, rest[..n - 1]), rest[n - 1]);
    }
  }

  /** Over any run of loads, everything served from memory has the registered checksum if and only if,
      each time a version had to be loaded, its first fetch loaded registered bytes. The checksum gate
      is about the first download and says nothing about the bytes of the second. */
  lemma {:induction false} VerifiedContentIsCachedExactlyWhen(setting: Setting, registry: map<Uuid, ModelVersion>,
                                                              s: LoaderState, requests: seq<Request>)
    requires forall id :: id in registry ==> registry[id].id == id
    requires CacheIsVerified(setting, registry, s.cache) && SameVersions(registry, requests)
    ensures CacheIsVerified(setting, registry, AfterLoads(setting, s, requests).cache)
            <==> EveryFetchIsRegistered(setting, s, requests)
    decreases |requests|
  {
    if requests != [] {
      var r, rest := requests[0], requests[1..];
      var after := AfterLoad(setting, s, r);
      FirstFetchAndRest(setting, s, requests);
      VerifiedExactlyWhenFetched(setting, registry, s, r);
      if FetchIsRegistered(setting, s, r) {
        VerifiedContentIsCachedExactlyWhen(setting, registry, after, rest);
      } else {
        LoadedMeansFetched(setting, r.version, r.store, s.breaker, 0, setting.retry.initialBackoff, NeverAttempted);
        CachedModelsArePermanent(setting, after, rest, r.version.id);
      }
    }
  }

  /** No store changes an artifact between the two downloads of one contact. */
  ghost predicate Stable(requests: seq<Request>) {
    forall i, k: nat :: 0 <= i < |requests| ==> requests[i].store(k).verified == requests[i].store(k).loaded
  }

  /** In particular stores that do not change in between keep the cache verified. */
  lemma OnlyVerifiedContentIsCached(setting: Setting, registry: map<Uuid, ModelVersion>, s: LoaderState,
                                    requests: seq<Request>)
    requires forall id :: id in registry ==> registry[id].id == id
    requires CacheIsVerified(setting, registry, s.cache)
    requires SameVersions(registry, requests) && Stable(requests)
    ensures CacheIsVerified(setting, registry, AfterLoads(setting, s, requests).cache)
  {
    forall n | 0 <= n < |requests|
      ensures FetchIsRegistered(setting, AfterLoads(setting, s, requests[..n]), requests[n])
    {
      var r, before := requests[n], AfterLoads(setting, s, requests[..n]);
      forall i: nat | IsFirstFetch(setting, r.version, r.store, before.breaker, i)
        ensures LoadsRegistered(setting, r.version, r.store(i))
      {
        TryFetches(setting, r.version, r.store, before.breaker, 0, i);
        assert requests[n].store(i).verified == requests[n].store(i).loaded;
      }
    }
    VerifiedContentIsCachedExactlyWhen(setting, registry, s, requests);
  }

  /** A contact whose first download is `good` and whose second is `other`. */
  function SwappedContact(good: Artifact, other: Artifact): Contact {
    Contact(0.0, 0.0, false, good, true, true, other)
  }

  /** The failing run: with any setting that tries at all, one load from the fresh loader checks one
      artifact and serves another. */
  lemma SwappedArtifactIsServed(setting: Setting, version: ModelVersion, good: Artifact, other: Artifact)
    requires setting.retry.maxAttempts >= 1
    requires setting.checksum(good) == version.artifactChecksum != setting.checksum(other)
    ensures var cache :=
              AfterLoad(setting, LoaderState(map[], FRESH), Request(version, k => SwappedContact(good, other))).cache;
            version.id in cache && cache[version.id].content == other
  {
  }

  /** The breaker sees exactly the tries of all loads, so its bound carries over to the loader:
      in a success-free stretch of loads the artifact store is contacted at most
      failureThreshold + floor(length / resetTimeout) times, however many loads are asked for
      and whatever the retry settings. */
  lemma LoadsContactFailingStoreRarely(setting: Setting, s: LoaderState, requests: seq<Request>,
                                       history: seq<Attempt>, from: real, now: real, length: real)
    requires setting.breaker.resetTimeout > 0.0 && length >= 0.0
    requires s.breaker == AfterAttempts(setting.breaker, FRESH, history)
    requires Serialised(history, from) && from <= now && (history != [] ==> Last(history).end <= now)
    requires var attempts := AllAttempts(setting, s, requests);
             Serialised(attempts, now) && SuccessFree(setting.breaker, s.breaker, attempts)
             && (attempts != [] ==> Last(attempts).start <= now + length)
    ensures Invocations(setting.breaker, s.breaker, AllAttempts(setting, s, requests))
            <= Threshold(setting.breaker) + (length / setting.breaker.resetTimeout).Floor
    ensures AfterLoads(setting, s, requests).breaker
            == AfterAttempts(setting.breaker, s.breaker, AllAttempts(setting, s, requests))
  {
    FailingDependencyIsContactedRarely(setting.breaker, history, from, AllAttempts(setting, s, requests), now, length);
    BreakerSeesAllAttempts(setting, s, requests);
  }

  lemma {:induction false} BreakerSeesAllAttempts(setting: Setting, s: LoaderState, requests: seq<Request>)
    ensures AfterLoads(setting, s, requests).breaker
            == AfterAttempts(setting.breaker, s.breaker, AllAttempts(setting, s, requests))
    decreases |requests|
  {
    if requests == [] {
    } else {
      var r := requests[0];
      RetryDrivesBreaker(setting, r.version, r.store, s.breaker, 0, setting.retry.initialBackoff, NeverAttempted);
      var first := Load(setting, s.cache, r.version, r.store, s.breaker).attempts;
      BreakerSeesAllAttempts(setting, AfterLoad(setting, s, r), requests[1..]);
      RunsCompose(setting.breaker, s.breaker, first, AllAttempts(setting, AfterLoad(setting, s, r), requests[1..]));
    }
  }
}
