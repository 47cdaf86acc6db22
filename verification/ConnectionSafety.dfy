/** What holds in every reachable state of the connection manager: pooled engines are what a fresh
    build would give, and secrets, active credentials and connections correspond one to one. */
module ConnectionSafety {
  import opened Common
  import opened Repository
  import opened Secrets
  import opened PoolRegistry
  import opened Connections

  // ---- secrets, credentials and connections ------------------------------------------------------

  /** Every connection has its own active credential of the same tenant, no active credential is
      without a connection, and no two credentials share a secret. */
  ghost predicate CredentialsMatch(w: World) {
    && (forall id :: id in w.connections ==>
          var cid := w.connections[id].body.credentialId;
          cid in w.credentials && w.credentials[cid].tenantId == w.connections[id].tenantId
            && w.credentials[cid].body.isActive)
    && (forall i, j :: i in w.connections && j in w.connections && i != j ==>
          w.connections[i].body.credentialId != w.connections[j].body.credentialId)
    && (forall cid :: cid in w.credentials && w.credentials[cid].body.isActive ==> InUse(w, cid))
    && (forall c, d :: c in w.credentials && d in w.credentials && c != d ==>
          w.credentials[c].body.referenceKey != w.credentials[d].body.referenceKey)
  }

  ghost predicate InUse(w: World, cid: Uuid) {
    exists id :: id in w.connections && w.connections[id].body.credentialId == cid
  }

  /** Exactly the active credentials' secrets are stored. */
  ghost predicate SecretsMatch(w: World) {
    && (forall cid :: cid in w.credentials ==>
          (w.credentials[cid].body.referenceKey in w.secrets <==> w.credentials[cid].body.isActive))
    && (forall key :: key in w.secrets ==> Issued(w, key))
  }

  ghost predicate Issued(w: World, key: string) {
    exists cid :: cid in w.credentials && w.credentials[cid].body.referenceKey == key
  }

  // ---- the pool ------------------------------------------------------------------------------------

  /** A pooled engine belongs to a live, not disabled connection of its own tenant and was built
      from exactly what a fresh build would use now. */
  ghost predicate PoolEntryCoherent(w: World, key: PoolKey)
    requires key in w.pool.engines
  {
    && w.pool.engines[key] < |w.pool.built|
    && key.1 in w.connections && w.connections[key.1].tenantId == key.0
    && !w.connections[key.1].body.status.Disabled?
    && var engine := w.pool.built[w.pool.engines[key]];
       engine.key == key && ResolveTarget(w, w.connections[key.1].body, key.0) == Ok(engine.target)
  }

  ghost predicate PoolCoherent(w: World) {
    forall key :: key in w.pool.engines ==> PoolEntryCoherent(w, key)
  }

  /** What the engine pooled under `key` was built from is the same in both states, and the
      connection is not disabled in the second. */
  ghost predicate SameSources(w: World, w': World, key: PoolKey) {
    && key.1 in w.connections && key.1 in w'.connections
    && w'.connections[key.1].tenantId == w.connections[key.1].tenantId
    && !w'.connections[key.1].body.status.Disabled?
    && ResolveTarget(w', w'.connections[key.1].body, key.0) == ResolveTarget(w, w.connections[key.1].body, key.0)
  }

  lemma PoolSurvives(w: World, w': World)
    requires PoolCoherent(w) && w'.pool == w.pool
    requires forall key :: key in w.pool.engines ==> SameSources(w, w', key)
    ensures PoolCoherent(w')
  {
    forall key | key in w'.pool.engines
      ensures PoolEntryCoherent(w', key)
    {
      assert PoolEntryCoherent(w, key);
      assert SameSources(w, w', key);
    }
  }

  ghost predicate Coherent(w: World) {
    CredentialsMatch(w) && SecretsMatch(w) && PoolCoherent(w)
  }

  // ---- every operation keeps all of it ----------------------------------------------------------------

  lemma RegisterKeepsCredentials(w: World, tenantId: Uuid, op: Op)
    requires Coherent(w) && op.Register? && GeneratesFreshIds(w, op)
    ensures CredentialsMatch(AfterRegister(w, tenantId, op))
  {
    var w' := AfterRegister(w, tenantId, op);
    forall cid | cid in w'.credentials && w'.credentials[cid].body.isActive
      ensures InUse(w', cid)
    {
      if cid == op.credentialId {
        assert op.connectionId in w'.connections;
      } else {
        var id :| id in w.connections && w.connections[id].body.credentialId == cid;
        assert id in w'.connections;
      }
    }
  }

  lemma RegisterKeepsSecrets(w: World, tenantId: Uuid, op: Op)
    requires Coherent(w) && op.Register? && GeneratesFreshIds(w, op)
    ensures SecretsMatch(AfterRegister(w, tenantId, op))
  {
    var w' := AfterRegister(w, tenantId, op);
    forall key | key in w'.secrets
      ensures Issued(w', key)
    {
      if key == op.referenceKey {
        assert op.credentialId in w'.credentials;
      } else {
        var cid :| cid in w.credentials && w.credentials[cid].body.referenceKey == key;
        assert cid in w'.credentials;
      }
    }
  }

  lemma RegisterKeepsPool(w: World, tenantId: Uuid, op: Op)
    requires Coherent(w) && op.Register? && GeneratesFreshIds(w, op)
    ensures PoolCoherent(AfterRegister(w, tenantId, op))
  {
    var w' := AfterRegister(w, tenantId, op);
    forall key | key in w.pool.engines
      ensures SameSources(w, w', key)
    {
      assert PoolEntryCoherent(w, key);
    }
    PoolSurvives(w, w');
  }

  lemma RegisterKeeps(w: World, tenantId: Uuid, op: Op)
    requires Coherent(w) && op.Register? && GeneratesFreshIds(w, op)
    ensures Coherent(AfterRegister(w, tenantId, op))
  {
    RegisterKeepsCredentials(w, tenantId, op);
    RegisterKeepsSecrets(w, tenantId, op);
    RegisterKeepsPool(w, tenantId, op);
  }

  /** Replacing a connection's status and health fields touches no credential. */
  lemma SetConnectionKeeps(w: World, tenantId: Uuid, id: Uuid, c: Connection)
    requires CredentialsMatch(w) && SecretsMatch(w)
    requires id in w.connections && w.connections[id].tenantId == tenantId
    requires c.credentialId == w.connections[id].body.credentialId
    ensures CredentialsMatch(SetConnection(w, tenantId, id, c)) && SecretsMatch(SetConnection(w, tenantId, id, c))
  {
    var w' := SetConnection(w, tenantId, id, c);
    forall cid | cid in w'.credentials && w'.credentials[cid].body.isActive
      ensures InUse(w', cid)
    {
      var i :| i in w.connections && w.connections[i].body.credentialId == cid;
      assert i in w'.connections && w'.connections[i].body.credentialId == cid;
    }
    forall key | key in w'.secrets
      ensures Issued(w', key)
    {
      assert Issued(w, key);
    }
  }

  /** The pool plays no part in the correspondence of secrets and connections. */
  lemma PoolIsSeparate(w: World, w': World)
    requires CredentialsMatch(w) && SecretsMatch(w)
    requires w' == w.(pool := w'.pool)
    ensures CredentialsMatch(w') && SecretsMatch(w')
  {
    forall cid | cid in w'.credentials && w'.credentials[cid].body.isActive
      ensures InUse(w', cid)
    {
      assert InUse(w, cid);
    }
    forall key | key in w'.secrets
      ensures Issued(w', key)
    {
      assert Issued(w, key);
    }
  }

  lemma GetEngineKeeps(w: World, tenantId: Uuid, id: Uuid, target: ConnectionTarget)
    requires Coherent(w)
    requires id in w.connections && w.connections[id].tenantId == tenantId && !w.connections[id].body.status.Disabled?
    requires ResolveTarget(w, w.connections[id].body, tenantId) == Ok(target)
    ensures Coherent(WithEngine(w, tenantId, id, target))
  {
    var w' := WithEngine(w, tenantId, id, target);
    PoolIsSeparate(w, w');
    forall key | key in w'.pool.engines
      ensures PoolEntryCoherent(w', key)
    {
      if key in w.pool.engines {
        assert PoolEntryCoherent(w, key);
      }
    }
  }

  /** Changing health fields and any status but DISABLED leaves the pool as it is. */
  lemma UpdateKeepsPool(w: World, tenantId: Uuid, id: Uuid, c: Connection)
    requires PoolCoherent(w) && id in w.connections && w.connections[id].tenantId == tenantId
    requires c.address == w.connections[id].body.address && c.credentialId == w.connections[id].body.credentialId
    requires !c.status.Disabled?
    ensures PoolCoherent(SetConnection(w, tenantId, id, c))
  {
    var w' := SetConnection(w, tenantId, id, c);
    forall key | key in w.pool.engines
      ensures SameSources(w, w', key)
    {
      assert PoolEntryCoherent(w, key);
    }
    PoolSurvives(w, w');
  }

  lemma UpdateKeeps(w: World, tenantId: Uuid, id: Uuid, c: Connection)
    requires Coherent(w) && id in w.connections && w.connections[id].tenantId == tenantId
    requires c.address == w.connections[id].body.address && c.credentialId == w.connections[id].body.credentialId
    requires !c.status.Disabled?
    ensures Coherent(SetConnection(w, tenantId, id, c))
  {
    SetConnectionKeeps(w, tenantId, id, c);
    UpdateKeepsPool(w, tenantId, id, c);
  }

  /** Validation also probes disabled connections; whatever it finds, the status is then ACTIVE or
      ERROR, so the order of pooling the engine and updating the row does not matter. */
  lemma ValidateKeeps(w: World, tenantId: Uuid, id: Uuid, target: ConnectionTarget, health: Health)
    requires Coherent(w)
    requires id in w.connections && w.connections[id].tenantId == tenantId
    requires ResolveTarget(w, w.connections[id].body, tenantId) == Ok(target)
    ensures Coherent(SetConnection(WithEngine(w, tenantId, id, target), tenantId, id,
                                   AfterHealth(w.connections[id].body, health)))
  {
    var c := AfterHealth(w.connections[id].body, health);
    UpdateKeeps(w, tenantId, id, c);
    var updated := SetConnection(w, tenantId, id, c);
    GetEngineKeeps(updated, tenantId, id, target);
    assert WithEngine(updated, tenantId, id, target)
           == SetConnection(WithEngine(w, tenantId, id, target), tenantId, id, c);
  }

  /** Evicting a connection's engine is enough when nothing the other pooled engines were built
      from changes. */
  lemma PoolAfterEvict(w: World, w': World, tenantId: Uuid, id: Uuid)
    requires PoolCoherent(w) && id in w.connections && w.connections[id].tenantId == tenantId
    requires w'.pool == Evicted(w.pool, (tenantId, id))
    requires forall key :: key in w.pool.engines && key.1 != id ==> SameSources(w, w', key)
    ensures PoolCoherent(w')
  {
    forall key | key in w'.pool.engines
      ensures PoolEntryCoherent(w', key)
    {
      assert PoolEntryCoherent(w, key);
      assert key.1 != id;
      assert SameSources(w, w', key);
    }
  }

  lemma DisableKeeps(w: World, tenantId: Uuid, id: Uuid)
    requires Coherent(w) && id in w.connections && w.connections[id].tenantId == tenantId
    ensures Coherent(WithoutEngine(SetConnection(w, tenantId, id, w.connections[id].body.(status := Disabled)),
                                   tenantId, id))
  {
    var updated := SetConnection(w, tenantId, id, w.connections[id].body.(status := Disabled));
    var w' := WithoutEngine(updated, tenantId, id);
    SetConnectionKeeps(w, tenantId, id, w.connections[id].body.(status := Disabled));
    PoolIsSeparate(updated, w');
    forall key | key in w.pool.engines && key.1 != id
      ensures SameSources(w, w', key)
    {
      assert PoolEntryCoherent(w, key);
    }
    PoolAfterEvict(w, w', tenantId, id);
  }

  lemma RotateKeepsCredentials(w: World, tenantId: Uuid, op: Op, c: Connection, current: Credential)
    requires Coherent(w) && op.Rotate? && GeneratesFreshIds(w, op)
    requires op.id in w.connections && w.connections[op.id] == Row(tenantId, c)
    requires Get(w.credentials, c.credentialId, tenantId) == Some(current)
    ensures CredentialsMatch(AfterRotate(w, tenantId, op, c, current))
  {
    var w' := AfterRotate(w, tenantId, op, c, current);
    forall cid | cid in w'.credentials && w'.credentials[cid].body.isActive
      ensures InUse(w', cid)
    {
      if cid == op.newCredentialId {
        assert op.id in w'.connections;
      } else {
        var id :| id in w.connections && w.connections[id].body.credentialId == cid;
        assert id in w'.connections && id != op.id;
      }
    }
  }

  lemma RotateKeepsSecrets(w: World, tenantId: Uuid, op: Op, c: Connection, current: Credential)
    requires Coherent(w) && op.Rotate? && GeneratesFreshIds(w, op)
    requires op.id in w.connections && w.connections[op.id] == Row(tenantId, c)
    requires Get(w.credentials, c.credentialId, tenantId) == Some(current)
    ensures SecretsMatch(AfterRotate(w, tenantId, op, c, current))
  {
    var w' := AfterRotate(w, tenantId, op, c, current);
    forall key | key in w'.secrets
      ensures Issued(w', key)
    {
      if key == op.newReferenceKey {
        assert op.newCredentialId in w'.credentials;
      } else {
        var cid :| cid in w.credentials && w.credentials[cid].body.referenceKey == key;
        assert cid in w'.credentials && w'.credentials[cid].body.referenceKey == key;
      }
    }
  }

  lemma RotateKeepsPool(w: World, tenantId: Uuid, op: Op, c: Connection, current: Credential)
    requires Coherent(w) && op.Rotate? && GeneratesFreshIds(w, op)
    requires op.id in w.connections && w.connections[op.id] == Row(tenantId, c)
    requires Get(w.credentials, c.credentialId, tenantId) == Some(current)
    ensures PoolCoherent(AfterRotate(w, tenantId, op, c, current))
  {
    var w' := AfterRotate(w, tenantId, op, c, current);
    forall key | key in w.pool.engines && key.1 != op.id
      ensures SameSources(w, w', key)
    {
      assert PoolEntryCoherent(w, key);
      assert w.connections[key.1].body.credentialId != c.credentialId;
    }
    PoolAfterEvict(w, w', tenantId, op.id);
  }

  lemma RotateKeeps(w: World, tenantId: Uuid, op: Op, c: Connection, current: Credential)
    requires Coherent(w) && op.Rotate? && GeneratesFreshIds(w, op)
    requires op.id in w.connections && w.connections[op.id] == Row(tenantId, c)
    requires Get(w.credentials, c.credentialId, tenantId) == Some(current)
    ensures Coherent(AfterRotate(w, tenantId, op, c, current))
  {
    RotateKeepsCredentials(w, tenantId, op, c, current);
    RotateKeepsSecrets(w, tenantId, op, c, current);
    RotateKeepsPool(w, tenantId, op, c, current);
  }

  lemma DeleteKeepsCredentials(w: World, tenantId: Uuid, id: Uuid, c: Connection)
    requires Coherent(w) && id in w.connections && w.connections[id] == Row(tenantId, c)
    ensures CredentialsMatch(AfterDelete(w, tenantId, id, c)) && SecretsMatch(AfterDelete(w, tenantId, id, c))
  {
    var w' := AfterDelete(w, tenantId, id, c);
    forall cid | cid in w'.credentials && w'.credentials[cid].body.isActive
      ensures InUse(w', cid)
    {
      var i :| i in w.connections && w.connections[i].body.credentialId == cid;
      assert i in w'.connections;
    }
    forall key | key in w'.secrets
      ensures Issued(w', key)
    {
      var cid :| cid in w.credentials && w.credentials[cid].body.referenceKey == key;
      assert cid in w'.credentials;
    }
  }

  lemma DeleteKeeps(w: World, tenantId: Uuid, id: Uuid, c: Connection)
    requires Coherent(w) && id in w.connections && w.connections[id] == Row(tenantId, c)
    ensures Coherent(AfterDelete(w, tenantId, id, c))
  {
    var w' := AfterDelete(w, tenantId, id, c);
    DeleteKeepsCredentials(w, tenantId, id, c);
    forall key | key in w.pool.engines && key.1 != id
      ensures SameSources(w, w', key)
    {
      assert PoolEntryCoherent(w, key);
      assert w.connections[key.1].body.credentialId != c.credentialId;
    }
    PoolAfterEvict(w, w', tenantId, id);
  }

  lemma ApplyKeeps(w: World, tenantId: Uuid, op: Op)
    requires Coherent(w) && GeneratesFreshIds(w, op)
    ensures Coherent(Apply(w, tenantId, op).0)
  {
    if op.Register? {
      RegisterKeeps(w, tenantId, op);
    } else if Get(w.connections, op.id, tenantId).Some? {
      var c := w.connections[op.id].body;
      assert w.connections[op.id] == Row(tenantId, c);
      match op
      case GetOrCreateEngine(id) =>
        if !c.status.Disabled? && ResolveTarget(w, c, tenantId).Ok? {
          GetEngineKeeps(w, tenantId, id, ResolveTarget(w, c, tenantId).value);
        }
      case Validate(id, health) =>
        if ResolveTarget(w, c, tenantId).Ok? {
          ValidateKeeps(w, tenantId, id, ResolveTarget(w, c, tenantId).value, health);
        }
      case Enable(id) =>
        UpdateKeeps(w, tenantId, id, c.(status := Active));
      case Disable(id) =>
        DisableKeeps(w, tenantId, id);
      case Rotate(_, _, _, _, _) =>
        if Get(w.credentials, c.credentialId, tenantId).Some? {
          RotateKeeps(w, tenantId, op, c, Get(w.credentials, c.credentialId, tenantId).value);
        }
      case Delete(id) =>
        DeleteKeeps(w, tenantId, id, c);
    }
  }

  // ---- whole runs ---------------------------------------------------------------------------------------

  datatype Call = Call(tenantId: Uuid, op: Op)

  const EMPTY := World(map[], map[], map[], Registry(map[], [], []))

  function AfterCalls(w: World, calls: seq<Call>): World
    decreases |calls|
  {
    if calls == [] then w else AfterCalls(Apply(w, calls[0].tenantId, calls[0].op).0, calls[1..])
  }

  ghost predicate FreshRun(w: World, calls: seq<Call>)
    decreases |calls|
  {
    calls == []
      || (GeneratesFreshIds(w, calls[0].op) && FreshRun(Apply(w, calls[0].tenantId, calls[0].op).0, calls[1..]))
  }

  lemma {:induction false} LastCall(w: World, calls: seq<Call>)
    requires calls != []
    ensures var front, last := calls[..|calls| - 1], calls[|calls| - 1];
            && AfterCalls(w, calls) == Apply(AfterCalls(w, front), last.tenantId, last.op).0
            && (FreshRun(w, calls) ==> FreshRun(w, front) && GeneratesFreshIds(AfterCalls(w, front), last.op))
    decreases |calls|
  {
    var front := calls[..|calls| - 1];
    if |calls| > 1 {
      LastCall(Apply(w, calls[0].tenantId, calls[0].op).0, calls[1..]);
      assert calls[1..][..|calls| - 2] == front[1..];
    }
  }

  /** Every state reachable by any tenants' calls is coherent. */
  lemma {:induction false} ReachableWorldsAreCoherent(w: World, calls: seq<Call>)
    requires Coherent(w) && FreshRun(w, calls)
    ensures Coherent(AfterCalls(w, calls))
    decreases |calls|
  {
    if calls == [] {
    } else {
      ApplyKeeps(w, calls[0].tenantId, calls[0].op);
      ReachableWorldsAreCoherent(Apply(w, calls[0].tenantId, calls[0].op).0, calls[1..]);
    }
  }

  /** Asking for an engine is refused exactly for an unknown or disabled connection, and otherwise
      gives one built from the connection's address and current secret. */
  ghost predicate EngineIsCurrent(w: World, tenantId: Uuid, id: Uuid) {
    var (after, answer) := Apply(w, tenantId, GetOrCreateEngine(id));
    var found := Get(w.connections, id, tenantId);
    if found.None? || found.value.status.Disabled? then answer.Refused? && after == w
    else
      && answer.EngineReady? && answer.connection == found.value
      && answer.engine < |after.pool.built| && after.pool.built[answer.engine].key == (tenantId, id)
      && ResolveTarget(w, found.value, tenantId) == Ok(after.pool.built[answer.engine].target)
  }

  lemma CoherentEnginesAreCurrent(w: World, tenantId: Uuid, id: Uuid)
    requires Coherent(w)
    ensures EngineIsCurrent(w, tenantId, id)
  {
    if (tenantId, id) in w.pool.engines {
      assert PoolEntryCoherent(w, (tenantId, id));
    }
  }

  /** In every reachable state the pool never hands out a stale engine. */
  lemma EnginesAreNeverStale(calls: seq<Call>, tenantId: Uuid, id: Uuid)
    requires FreshRun(EMPTY, calls)
    ensures EngineIsCurrent(AfterCalls(EMPTY, calls), tenantId, id)
  {
    ReachableWorldsAreCoherent(EMPTY, calls);
    CoherentEnginesAreCurrent(AfterCalls(EMPTY, calls), tenantId, id);
  }

  /** Disabled, deleted and foreign connections have no pooled engine. */
  lemma NoPoolWithoutALiveConnection(calls: seq<Call>, tenantId: Uuid, id: Uuid)
    requires FreshRun(EMPTY, calls)
    ensures var w := AfterCalls(EMPTY, calls);
            var found := Get(w.connections, id, tenantId);
            found.None? || found.value.status.Disabled? ==> (tenantId, id) !in w.pool.engines
  {
    var w := AfterCalls(EMPTY, calls);
    ReachableWorldsAreCoherent(EMPTY, calls);
    if (tenantId, id) in w.pool.engines {
      assert PoolEntryCoherent(w, (tenantId, id));
    }
  }

  /** The reference key a connection's secret is stored under. */
  function SecretKeyOf(w: World, id: Uuid): string
    requires id in w.connections && w.connections[id].body.credentialId in w.credentials
  {
    w.credentials[w.connections[id].body.credentialId].body.referenceKey
  }

  /** Conservation: connection to secret is a one-to-one correspondence between the live connections
      and all stored secrets, through an active credential of the connection's own tenant; a
      credential that has been rotated out no longer resolves. */
  lemma SecretsAreConserved(calls: seq<Call>)
    requires FreshRun(EMPTY, calls)
    ensures var w := AfterCalls(EMPTY, calls);
            && (forall id :: id in w.connections ==>
                  var cid := w.connections[id].body.credentialId;
                  cid in w.credentials && w.credentials[cid].tenantId == w.connections[id].tenantId
                  && w.credentials[cid].body.isActive && SecretKeyOf(w, id) in w.secrets)
            && (forall i, j :: i in w.connections && j in w.connections && i != j ==>
                  SecretKeyOf(w, i) != SecretKeyOf(w, j))
            && (forall key :: key in w.secrets ==> exists id :: id in w.connections && SecretKeyOf(w, id) == key)
            && (forall cid :: cid in w.credentials && !w.credentials[cid].body.isActive ==>
                  Resolved(w.secrets, w.credentials[cid].body.referenceKey).Err?)
  {
    var w := AfterCalls(EMPTY, calls);
    ReachableWorldsAreCoherent(EMPTY, calls);
    forall key | key in w.secrets
      ensures exists id :: id in w.connections && SecretKeyOf(w, id) == key
    {
      var cid :| cid in w.credentials && w.credentials[cid].body.referenceKey == key;
      assert InUse(w, cid);
      var id :| id in w.connections && w.connections[id].body.credentialId == cid;
      assert SecretKeyOf(w, id) == key;
    }
  }

  // ---- what rotation and deletion retire stays retired ----------------------------------------------------

  /** The reference key an operation stores a new secret under. */
  function NewKey(op: Op): Option<string> {
    match op
    case Register(_, _, _, _, referenceKey) => Some(referenceKey)
    case Rotate(_, _, _, newReferenceKey, _) => Some(newReferenceKey)
    case _ => None
  }

  /** No operation ever generates `key` again. */
  ghost predicate NeverReissued(calls: seq<Call>, key: string) {
    forall i :: 0 <= i < |calls| ==> NewKey(calls[i].op) != Some(key)
  }

  lemma {:induction false} RetiredKeysStayRetired(w: World, calls: seq<Call>, key: string)
    requires Resolved(w.secrets, key).Err? && NeverReissued(calls, key)
    ensures Resolved(AfterCalls(w, calls).secrets, key).Err?
    decreases |calls|
  {
    if calls == [] {
    } else {
      assert NewKey(calls[0].op) != Some(key);
      RetiredKeysStayRetired(Apply(w, calls[0].tenantId, calls[0].op).0, calls[1..], key);
    }
  }

  /** After a successful rotation or deletion in any reachable state, the secret the connection had
      before can never be resolved again. */
  lemma OldSecretNeverResolvesAgain(before: seq<Call>, tenantId: Uuid, op: Op, later: seq<Call>)
    requires FreshRun(EMPTY, before) && (op.Rotate? || op.Delete?)
    requires var w := AfterCalls(EMPTY, before);
             GeneratesFreshIds(w, op) && op.id in w.connections && w.connections[op.id].tenantId == tenantId
             && w.connections[op.id].body.credentialId in w.credentials
             && NeverReissued(later, SecretKeyOf(w, op.id))
    ensures var w := AfterCalls(EMPTY, before);
            Resolved(AfterCalls(Apply(w, tenantId, op).0, later).secrets, SecretKeyOf(w, op.id)).Err?
  {
    var w := AfterCalls(EMPTY, before);
    ReachableWorldsAreCoherent(EMPTY, before);
    var key := SecretKeyOf(w, op.id);
    RetiredKeysStayRetired(Apply(w, tenantId, op).0, later, key);
  }

  // ---- enabling --------------------------------------------------------------------------------------------

  /** Enabling asks only that a validation has been attempted: one failed validation is enough, so a
      connection can become ACTIVE without ever having been reached. */
  lemma EnableAfterFailedValidation(tenant: Uuid, id: Uuid, credential: Uuid, address: Address, secret: string,
                                    key: string,
                                    failure: Health)
    requires !failure.healthy
    ensures var calls := [Call(tenant, Register(address, secret, id, credential, key)),
                          Call(tenant, Validate(id, failure)), Call(tenant, Enable(id))];
            FreshRun(EMPTY, calls) && id in AfterCalls(EMPTY, calls).connections
            && AfterCalls(EMPTY, calls).connections[id].body.status == Active
  {
    var register, validate, enable :=
      Call(tenant, Register(address, secret, id, credential, key)), Call(tenant, Validate(id, failure)),
        Call(tenant, Enable(id));
    var w1 := Apply(EMPTY, tenant, register.op).0;
    var w2 := Apply(w1, tenant, validate.op).0;
    FirstCall(EMPTY, register, [validate, enable]);
    FirstCall(w1, validate, [enable]);
    FirstCall(w2, enable, []);
    assert [register] + ([validate] + ([enable] + [])) == [register, validate, enable];
    assert [validate] + [enable] == [validate, enable];
  }

  lemma FirstCall(w: World, c: Call, rest: seq<Call>)
    ensures AfterCalls(w, [c] + rest) == AfterCalls(Apply(w, c.tenantId, c.op).0, rest)
    ensures FreshRun(w, [c] + rest) <==> GeneratesFreshIds(w, c.op) && FreshRun(Apply(w, c.tenantId, c.op).0, rest)
  {
    assert ([c] + rest)[1..] == rest;
  }

  /** Whether the connection has had a validation answered (healthy or not) since it was last
      registered, given whether it had at the start. */
  function ValidationAttempted(w: World, calls: seq<Call>, tenantId: Uuid, id: Uuid, already: bool): bool
    decreases |calls|
  {
    if calls == [] then already
    else
      var op := calls[0].op;
      var (after, answer) := Apply(w, calls[0].tenantId, op);
      var now := if op.Register? && op.connectionId == id then false
                 else already || (op.Validate? && op.id == id && calls[0].tenantId == tenantId && answer.Connected?);
      ValidationAttempted(after, calls[1..], tenantId, id, now)
  }

  lemma {:induction false} ValidationLeavesItsMark(w: World, calls: seq<Call>, tenantId: Uuid, id: Uuid, already: bool)
    requires FreshRun(w, calls)
    requires var c := Get(w.connections, id, tenantId); c.Some? ==> c.value.lastValidatedAt.Some? == already
    ensures var c := Get(AfterCalls(w, calls).connections, id, tenantId);
            c.Some? ==> c.value.lastValidatedAt.Some? == ValidationAttempted(w, calls, tenantId, id, already)
    decreases |calls|
  {
    if calls == [] {
    } else {
      var op := calls[0].op;
      var (after, answer) := Apply(w, calls[0].tenantId, op);
      var now := if op.Register? && op.connectionId == id then false
                 else already || (op.Validate? && op.id == id && calls[0].tenantId == tenantId && answer.Connected?);
      ValidationLeavesItsMark(after, calls[1..], tenantId, id, now);
    }
  }

  /** In every reachable state enabling succeeds exactly when the tenant owns the connection and a
      validation of it has been attempted since it was registered, with whatever outcome. */
  lemma EnableNeedsAnAttemptedValidation(calls: seq<Call>, tenantId: Uuid, id: Uuid)
    requires FreshRun(EMPTY, calls)
    ensures var w := AfterCalls(EMPTY, calls);
            Apply(w, tenantId, Enable(id)).1.Connected?
            <==> Get(w.connections, id, tenantId).Some? && ValidationAttempted(EMPTY, calls, tenantId, id, false)
  {
    ValidationLeavesItsMark(EMPTY, calls, tenantId, id, false);
  }
}
