/** The per-tenant pool registry (connectors/pool_registry.py). Engines are identified by the
    order they were built in. First the critical sections and the class whose methods are made of
    them, then a state machine in which any number of tasks interleave at lock granularity. */
module PoolRegistry {
  import opened Common

  /** (tenant id, connection id) */
  type PoolKey = (Uuid, Uuid)

  type EngineId = nat

  /** What an engine was built for and from. */
  datatype Engine<Target> = Engine(key: PoolKey, target: Target)

  /** `built[e]` describes engine `e`; `disposed` lists the disposed engines in order. */
  datatype Registry<Target> = Registry(engines: map<PoolKey, EngineId>, built: seq<Engine<Target>>,
                                       disposed: seq<EngineId>)

  // ---- critical sections ------------------------------------------------------------------------

  function GotOrCreated<T>(r: Registry<T>, key: PoolKey, target: T): Registry<T> {
    if key in r.engines then r
    else r.(engines := r.engines[key := |r.built|], built := r.built + [Engine(key, target)])
  }

  function Popped<T>(r: Registry<T>, key: PoolKey): Registry<T> {
    r.(engines := r.engines - {key})
  }

  function Lookup<T>(r: Registry<T>, key: PoolKey): Option<EngineId> {
    if key in r.engines then Some(r.engines[key]) else None
  }

  function Disposed<T>(r: Registry<T>, e: EngineId): Registry<T> {
    r.(disposed := r.disposed + [e])
  }

  function KeysOf<T>(r: Registry<T>, tenant: Uuid): set<PoolKey> {
    set key | key in r.engines && key.0 == tenant
  }

  function Evicted<T>(r: Registry<T>, key: PoolKey): Registry<T> {
    var popped := Popped(r, key);
    match Lookup(r, key)
    case Some(e) => Disposed(popped, e)
    case None => popped
  }

  /** Of the keys `all`, all but `keys` have been evicted since `start`. */
  ghost predicate PartlyEvicted<T>(start: Registry<T>, now: Registry<T>, all: set<PoolKey>, keys: set<PoolKey>) {
    && keys <= all <= start.engines.Keys && now.built == start.built
    && now.engines == start.engines - (all - keys)
    && start.disposed <= now.disposed && |now.disposed| == |start.disposed| + |all| - |keys|
    && forall key :: key in all && key !in keys ==> start.engines[key] in now.disposed
  }

  lemma OneMoreEvicted<T>(start: Registry<T>, now: Registry<T>, all: set<PoolKey>, keys: set<PoolKey>, key: PoolKey)
    requires PartlyEvicted(start, now, all, keys) && key in keys
    ensures PartlyEvicted(start, Evicted(now, key), all, keys - {key})
  {
    assert key in now.engines && now.engines[key] == start.engines[key];
    assert Evicted(now, key).disposed == now.disposed + [now.engines[key]];
    assert all - (keys - {key}) == all - keys + {key};
  }

  class TenantConnectionPoolRegistry<Target> {
    var engines: map<PoolKey, EngineId>
    var built: seq<Engine<Target>>
    var disposed: seq<EngineId>

    function Value(): Registry<Target>
      reads this
    {
      Registry(engines, built, disposed)
    }

    /** Every key has its own engine, and it has been built. */
    ghost predicate Valid()
      reads this
    {
      && (forall k :: k in engines ==> engines[k] < |built|)
      && (forall k, l :: k in engines && l in engines && k != l ==> engines[k] != engines[l])
    }

    constructor ()
      ensures Valid() && Value() == Registry(map[], [], [])
    {
      engines, built, disposed := map[], [], [];
    }

    method GetOrCreate(tenantId: Uuid, connectionId: Uuid, target: Target) returns (engine: EngineId)
      requires Valid()
      modifies this
      ensures Valid() && Value() == GotOrCreated(old(Value()), (tenantId, connectionId), target)
      ensures Lookup(Value(), (tenantId, connectionId)) == Some(engine)
    {
      var key := (tenantId, connectionId);
      if key !in engines {
        engines := engines[key := |built|];
        built := built + [Engine(key, target)];
      }
      engine := engines[key];
    }

    method Evict(tenantId: Uuid, connectionId: Uuid)
      requires Valid()
      modifies this
      ensures Valid() && Value() == Evicted(old(Value()), (tenantId, connectionId))
    {
      var key := (tenantId, connectionId);
      var engine := Lookup(Value(), key);
      engines := engines - {key};
      if engine.Some? {
        disposed := disposed + [engine.value];
      }
    }

    /** Without interference: exactly the tenant's pools go, and as many engines as there were
        pools are disposed, each of theirs among them. */
    method EvictAllForTenant(tenantId: Uuid)
      requires Valid()
      modifies this
      ensures Valid() && built == old(built)
      ensures engines == old(engines) - KeysOf(old(Value()), tenantId)
      ensures old(disposed) <= disposed && |disposed| == |old(disposed)| + |KeysOf(old(Value()), tenantId)|
      ensures forall key :: key in KeysOf(old(Value()), tenantId) ==> old(engines)[key] in disposed
    {
      var keys := KeysOf(Value(), tenantId);
      ghost var all, start := keys, Value();
      while keys != {}
        invariant Valid() && PartlyEvicted(start, Value(), all, keys)
      {
        var key :| key in keys;
        OneMoreEvicted(start, Value(), all, keys, key);
        Evict(key.0, key.1);
        keys := keys - {key};
      }
      assert all - keys == all;
    }
  }

  // ---- interleaved tasks --------------------------------------------------------------------------

  /** Where one task stands. Between two steps of a task any other tasks may run. */
  datatype Task<Target> =
    | Getting(key: PoolKey, target: Target)
    | Got(key: PoolKey, engine: EngineId)
    | Evicting(key: PoolKey)
    | Disposing(engine: EngineId)
    | EvictDone
    | Listing(tenant: Uuid)
    | EvictingAll(tenant: Uuid, remaining: set<PoolKey>, popped: Option<EngineId>)
    | EvictAllDone(tenant: Uuid)

  datatype System<Target> = System(registry: Registry<Target>, tasks: seq<Task<Target>>)

  /** The engine a task has popped and not disposed yet. */
  function Held<T>(task: Task<T>): Option<EngineId> {
    match task
    case Disposing(e) => Some(e)
    case EvictingAll(_, _, popped) => popped
    case _ => None
  }

  /** The registry and a task after its next step; `choice` is the key an evict-all
      turns to. A step is one lock-protected section or one disposal. */
  function StepOf<T>(r: Registry<T>, task: Task<T>, choice: PoolKey): (Registry<T>, Task<T>) {
    match task
    case Getting(key, target) =>
      var after := GotOrCreated(r, key, target);
      (after, Got(key, after.engines[key]))
    case Evicting(key) =>
      (Popped(r, key), if key in r.engines then Disposing(r.engines[key]) else EvictDone)
    case Disposing(e) => (Disposed(r, e), EvictDone)
    case Listing(tenant) => (r, EvictingAll(tenant, KeysOf(r, tenant), None))
    case EvictingAll(tenant, remaining, Some(e)) => (Disposed(r, e), EvictingAll(tenant, remaining, None))
    case EvictingAll(tenant, remaining, None) =>
      if remaining == {} then (r, EvictAllDone(tenant))
      else if choice in remaining then
        (Popped(r, choice), EvictingAll(tenant, remaining - {choice}, Lookup(r, choice)))
      else (r, task)
    case _ => (r, task)
  }

  /** Task `i` takes a step. */
  ghost predicate Step<T>(s: System<T>, s': System<T>, i: nat, choice: PoolKey) {
    && i < |s.tasks|
    && var (registry, task) := StepOf(s.registry, s.tasks[i], choice);
       s' == System(registry, s.tasks[i := task])
  }

  ghost predicate Next<T>(s: System<T>, s': System<T>) {
    exists i, choice :: Step(s, s', i, choice)
  }

  ghost predicate IsRun<T(!new)>(run: seq<System<T>>) {
    && run != []
    && Initial(run[0])
    && forall j :: 0 < j < |run| ==> MovesTo(run, j)
  }

  ghost predicate MovesTo<T>(run: seq<System<T>>, j: nat)
    requires 0 < j < |run|
  {
    Next(run[j - 1], run[j])
  }

  /** An empty registry and any number of tasks that have not started. */
  ghost predicate Initial<T>(s: System<T>) {
    && s.registry == Registry(map[], [], [])
    && forall i :: 0 <= i < |s.tasks| ==> s.tasks[i].Getting? || s.tasks[i].Evicting? || s.tasks[i].Listing?
  }

  ghost predicate Pooled<T>(s: System<T>, e: EngineId) {
    exists key :: key in s.registry.engines && s.registry.engines[key] == e
  }

  ghost predicate AwaitingDispose<T>(s: System<T>, e: EngineId) {
    exists i :: 0 <= i < |s.tasks| && Held(s.tasks[i]) == Some(e)
  }

  /** Every engine built is in exactly one place: pooled under its own key and no other, held by
      exactly one task that popped it, or disposed, once. */
  ghost predicate EachEngineInOnePlace<T>(s: System<T>) {
    var r := s.registry;
    && (forall key :: key in r.engines ==> r.engines[key] < |r.built| && r.built[r.engines[key]].key == key)
    && (forall i, e :: 0 <= i < |s.tasks| && Held(s.tasks[i]) == Some(e) ==> e < |r.built|)
    && (forall i, j :: 0 <= i < j < |s.tasks| && Held(s.tasks[i]).Some? ==> Held(s.tasks[i]) != Held(s.tasks[j]))
    && Distinct(r.disposed)
    && (forall e :: e in r.disposed ==> e < |r.built|)
    && (forall e :: 0 <= e < |r.built| ==> Pooled(s, e) || AwaitingDispose(s, e) || e in r.disposed)
    && (forall e :: !(Pooled(s, e) && AwaitingDispose(s, e)))
    && (forall e :: e in r.disposed ==> !Pooled(s, e) && !AwaitingDispose(s, e))
  }

  /** A task that obtained an engine obtained one built for its own tenant and connection. */
  ghost predicate ResultsBelongToTheirKey<T>(s: System<T>) {
    forall i :: 0 <= i < |s.tasks| && s.tasks[i].Got? ==>
      s.tasks[i].engine < |s.registry.built| && s.registry.built[s.tasks[i].engine].key == s.tasks[i].key
  }

  ghost predicate Invariant<T>(s: System<T>) {
    && EachEngineInOnePlace(s) && ResultsBelongToTheirKey(s)
    && (forall i, key :: 0 <= i < |s.tasks| && s.tasks[i].EvictingAll? && key in s.tasks[i].remaining ==>
          key.0 == s.tasks[i].tenant)
  }

  lemma StepKeepsInvariant<T>(s: System<T>, s': System<T>, i: nat, choice: PoolKey)
    requires Invariant(s) && Step(s, s', i, choice)
    ensures Invariant(s')
  {
    var r, r' := s.registry, s'.registry;
    assert forall j :: 0 <= j < |s.tasks| && j != i ==> s'.tasks[j] == s.tasks[j];
    match s.tasks[i]
    case Getting(key, target) =>
      PlacesAfterGet(s, s', i);
    case Evicting(key) =>
      PlacesAfterPop(s, s', i, key);
    case Disposing(e) =>
      PlacesAfterDispose(s, s', i, e);
    case Listing(tenant) =>
      PlacesUnchanged(s, s', i);
    case EvictingAll(tenant, remaining, Some(e)) =>
      PlacesAfterDispose(s, s', i, e);
    case EvictingAll(tenant, remaining, None) =>
      if choice in remaining {
        PlacesAfterPop(s, s', i, choice);
      } else {
        PlacesUnchanged(s, s', i);
      }
    case _ =>
      PlacesUnchanged(s, s', i);
  }

  /** Only task `i` moved. */
  ghost predicate OnlyTaskMoved<T>(s: System<T>, s': System<T>, i: nat) {
    && |s'.tasks| == |s.tasks| && i < |s.tasks|
    && forall j :: 0 <= j < |s.tasks| && j != i ==> s'.tasks[j] == s.tasks[j]
  }

  lemma PlacesUnchanged<T>(s: System<T>, s': System<T>, i: nat)
    requires EachEngineInOnePlace(s) && OnlyTaskMoved(s, s', i)
    requires s'.registry == s.registry && Held(s'.tasks[i]) == Held(s.tasks[i])
    ensures EachEngineInOnePlace(s')
  {
    assert forall j :: 0 <= j < |s.tasks| ==> Held(s'.tasks[j]) == Held(s.tasks[j]);
    forall e
      ensures Pooled(s', e) <==> Pooled(s, e)
      ensures AwaitingDispose(s', e) <==> AwaitingDispose(s, e)
    {
    }
  }

  lemma PlacesAfterGet<T>(s: System<T>, s': System<T>, i: nat)
    requires EachEngineInOnePlace(s) && OnlyTaskMoved(s, s', i)
    requires s.tasks[i].Getting? && s'.tasks[i].Got?
    requires s'.registry == GotOrCreated(s.registry, s.tasks[i].key, s.tasks[i].target)
    ensures EachEngineInOnePlace(s')
  {
    var r, r', key := s.registry, s'.registry, s.tasks[i].key;
    assert forall j :: 0 <= j < |s.tasks| ==> Held(s'.tasks[j]) == Held(s.tasks[j]);
    forall e
      ensures Pooled(s', e) <==> Pooled(s, e) || (key !in r.engines && e == |r.built|)
      ensures AwaitingDispose(s', e) <==> AwaitingDispose(s, e)
    {
      if key !in r.engines && e == |r.built| {
        assert key in r'.engines && r'.engines[key] == e;
      }
      if Pooled(s, e) {
        var k :| k in r.engines && r.engines[k] == e;
        assert k in r'.engines && r'.engines[k] == e;
      }
    }
  }

  lemma PlacesAfterPop<T>(s: System<T>, s': System<T>, i: nat, key: PoolKey)
    requires EachEngineInOnePlace(s) && OnlyTaskMoved(s, s', i)
    requires s'.registry == Popped(s.registry, key)
    requires Held(s.tasks[i]).None? && Held(s'.tasks[i]) == Lookup(s.registry, key)
    ensures EachEngineInOnePlace(s')
  {
    var r, r' := s.registry, s'.registry;
    forall e: EngineId
      ensures Pooled(s', e) <==> Pooled(s, e) && Lookup(r, key) != Some(e)
      ensures AwaitingDispose(s', e) <==> AwaitingDispose(s, e) || Lookup(r, key) == Some(e)
    {
      if Pooled(s, e) && Lookup(r, key) != Some(e) {
        var k :| k in r.engines && r.engines[k] == e;
        assert k in r'.engines && r'.engines[k] == e;
      }
      if AwaitingDispose(s, e) {
        var j :| 0 <= j < |s.tasks| && Held(s.tasks[j]) == Some(e);
        assert j != i && Held(s'.tasks[j]) == Some(e);
      }
      if Lookup(r, key) == Some(e) {
        assert Held(s'.tasks[i]) == Some(e);
        assert Pooled(s, e);
      }
    }
    forall j, l | 0 <= j < l < |s.tasks| && Held(s'.tasks[j]).Some?
      ensures Held(s'.tasks[j]) != Held(s'.tasks[l])
    {
      if key in r.engines {
        assert Pooled(s, r.engines[key]);
        assert !AwaitingDispose(s, r.engines[key]);
      }
    }
  }

  lemma PlacesAfterDispose<T>(s: System<T>, s': System<T>, i: nat, e: EngineId)
    requires EachEngineInOnePlace(s) && OnlyTaskMoved(s, s', i)
    requires s'.registry == Disposed(s.registry, e)
    requires Held(s.tasks[i]) == Some(e) && Held(s'.tasks[i]).None?
    ensures EachEngineInOnePlace(s')
  {
    assert AwaitingDispose(s, e);
    forall d
      ensures Pooled(s', d) <==> Pooled(s, d)
      ensures AwaitingDispose(s', d) <==> AwaitingDispose(s, d) && d != e
    {
      if AwaitingDispose(s, d) && d != e {
        var j :| 0 <= j < |s.tasks| && Held(s.tasks[j]) == Some(d);
        assert Held(s'.tasks[j]) == Some(d);
      }
    }
  }

  /** Safety over every interleaving of any number of tasks. */
  lemma {:induction false} EveryReachableStateIsSafe<T(!new)>(run: seq<System<T>>, n: nat)
    requires IsRun(run) && n < |run|
    ensures Invariant(run[n])
  {
    if n == 0 {
    } else {
      EveryReachableStateIsSafe(run, n - 1);
      assert MovesTo(run, n);
      var i, choice :| Step(run[n - 1], run[n], i, choice);
      StepKeepsInvariant(run[n - 1], run[n], i, choice);
    }
  }

  /** Once no task holds an engine, every engine built is either still pooled or disposed. */
  lemma NothingLeaksWhenQuiet<T(!new)>(run: seq<System<T>>, n: nat, e: EngineId)
    requires IsRun(run) && n < |run|
    requires forall i :: 0 <= i < |run[n].tasks| ==> Held(run[n].tasks[i]).None?
    requires e < |run[n].registry.built|
    ensures Pooled(run[n], e) <==> e !in run[n].registry.disposed
  {
    EveryReachableStateIsSafe(run, n);
  }

  // ---- evict-all against concurrent tasks -----------------------------------------------------------

  /** An engine that left the pool never comes back. */
  lemma StepNeverRepools<T>(s: System<T>, s': System<T>, i: nat, choice: PoolKey, e: EngineId)
    requires Invariant(s) && Step(s, s', i, choice)
    requires e < |s.registry.built| && Pooled(s', e)
    ensures Pooled(s, e) && e < |s'.registry.built| && s'.registry.built[e] == s.registry.built[e]
  {
    var k :| k in s'.registry.engines && s'.registry.engines[k] == e;
    if s.tasks[i].Getting? && s.tasks[i].key == k && k !in s.registry.engines {
      assert false;
    }
    assert k in s.registry.engines && s.registry.engines[k] == e;
  }

  /** If engine `e` is still pooled, evict-all task `t` has yet to turn to its key. */
  ghost predicate StillToEvict<T>(s: System<T>, t: nat, key: PoolKey, e: EngineId) {
    && t < |s.tasks| && e < |s.registry.built| && s.registry.built[e].key == key
    && (Pooled(s, e) ==> s.tasks[t].EvictingAll? && key in s.tasks[t].remaining)
  }

  lemma StepKeepsStillToEvict<T>(s: System<T>, s': System<T>, i: nat, choice: PoolKey, t: nat, key: PoolKey,
                                 e: EngineId)
    requires Invariant(s) && Step(s, s', i, choice) && StillToEvict(s, t, key, e)
    ensures StillToEvict(s', t, key, e)
  {
    assert e < |s'.registry.built| && s'.registry.built[e] == s.registry.built[e];
    if Pooled(s', e) {
      StepNeverRepools(s, s', i, choice, e);
      assert key in s.registry.engines && s.registry.engines[key] == e;
      if i == t {
        var k :| k in s'.registry.engines && s'.registry.engines[k] == e;
        assert k == key;
      }
    }
  }

  lemma ListingStarts<T>(s: System<T>, s': System<T>, i: nat, choice: PoolKey, t: nat, key: PoolKey)
    requires Invariant(s) && Step(s, s', i, choice)
    requires t < |s.tasks| && s.tasks[t].Listing? && s.tasks[t].tenant == key.0 && key in s.registry.engines
    requires s'.tasks[t].EvictingAll?
    ensures StillToEvict(s', t, key, s.registry.engines[key])
  {
    assert i == t;
  }

  lemma {:induction false} ListedEnginesArePending<T(!new)>(run: seq<System<T>>, t: nat, from: nat, n: nat,
                                                     key: PoolKey)
    requires IsRun(run) && from < n < |run| && t < |run[from].tasks|
    requires run[from].tasks[t].Listing? && run[from].tasks[t].tenant == key.0 && key in run[from].registry.engines
    requires from + 1 < |run| && t < |run[from + 1].tasks| && run[from + 1].tasks[t].EvictingAll?
    ensures StillToEvict(run[n], t, key, run[from].registry.engines[key])
    decreases n
  {
    assert MovesTo(run, n);
    var i, choice :| Step(run[n - 1], run[n], i, choice);
    EveryReachableStateIsSafe(run, n - 1);
    if n == from + 1 {
      ListingStarts(run[from], run[n], i, choice, t, key);
    } else {
      ListedEnginesArePending(run, t, from, n - 1, key);
      StepKeepsStillToEvict(run[n - 1], run[n], i, choice, t, key, run[from].registry.engines[key]);
    }
  }

  /** When an evict-all finishes, every engine its tenant had pooled at the moment the keys were
      listed is out of the pool, whatever ran in between. */
  lemma EvictAllClearsWhatItListed<T(!new)>(run: seq<System<T>>, t: nat, from: nat, n: nat, key: PoolKey)
    requires IsRun(run) && from < n < |run| && t < |run[from].tasks|
    requires run[from].tasks[t].Listing? && run[from].tasks[t].tenant == key.0 && key in run[from].registry.engines
    requires from + 1 < |run| && t < |run[from + 1].tasks| && run[from + 1].tasks[t].EvictingAll?
    requires t < |run[n].tasks| && run[n].tasks[t].EvictAllDone?
    ensures !Pooled(run[n], run[from].registry.engines[key])
    ensures AwaitingDispose(run[n], run[from].registry.engines[key])
            || run[from].registry.engines[key] in run[n].registry.disposed
  {
    ListedEnginesArePending(run, t, from, n, key);
    EveryReachableStateIsSafe(run, n);
  }

  // ---- a single eviction against concurrent tasks -------------------------------------------------

  /** If engine `e` is still pooled, evict task `t` has yet to take its step. */
  ghost predicate StillToPop<T>(s: System<T>, t: nat, key: PoolKey, e: EngineId) {
    && t < |s.tasks| && e < |s.registry.built| && s.registry.built[e].key == key
    && (Pooled(s, e) ==> s.tasks[t] == Evicting(key))
  }

  lemma StepKeepsStillToPop<T>(s: System<T>, s': System<T>, i: nat, choice: PoolKey, t: nat, key: PoolKey, e: EngineId)
    requires Invariant(s) && Step(s, s', i, choice) && StillToPop(s, t, key, e)
    ensures StillToPop(s', t, key, e)
  {
    assert e < |s'.registry.built| && s'.registry.built[e] == s.registry.built[e];
    if Pooled(s', e) {
      StepNeverRepools(s, s', i, choice, e);
      assert key in s.registry.engines && s.registry.engines[key] == e;
    }
  }

  lemma {:induction false} EvictedIsPending<T(!new)>(run: seq<System<T>>, t: nat, from: nat, n: nat, key: PoolKey)
    requires IsRun(run) && from <= n < |run| && t < |run[from].tasks|
    requires run[from].tasks[t] == Evicting(key) && key in run[from].registry.engines
    ensures StillToPop(run[n], t, key, run[from].registry.engines[key])
    decreases n
  {
    EveryReachableStateIsSafe(run, from);
    if n > from {
      assert MovesTo(run, n);
      var i, choice :| Step(run[n - 1], run[n], i, choice);
      EveryReachableStateIsSafe(run, n - 1);
      EvictedIsPending(run, t, from, n - 1, key);
      StepKeepsStillToPop(run[n - 1], run[n], i, choice, t, key, run[from].registry.engines[key]);
    }
  }

  /** When an eviction finishes, every engine pooled under its key at any moment since it was asked for is
      out of the pool, and disposed or about to be, whatever ran in between. */
  lemma EvictClearsItsKey<T(!new)>(run: seq<System<T>>, t: nat, from: nat, n: nat, key: PoolKey)
    requires IsRun(run) && from <= n < |run| && t < |run[from].tasks|
    requires run[from].tasks[t] == Evicting(key) && key in run[from].registry.engines
    requires t < |run[n].tasks| && run[n].tasks[t].EvictDone?
    ensures !Pooled(run[n], run[from].registry.engines[key])
    ensures AwaitingDispose(run[n], run[from].registry.engines[key])
            || run[from].registry.engines[key] in run[n].registry.disposed
  {
    EvictedIsPending(run, t, from, n, key);
    EveryReachableStateIsSafe(run, n);
  }
}
