/** Connection metadata (connectors/models.py, connectors/enums.py) and what each operation of the
    connection lifecycle does to the platform's state, as one atomic step. */
module Connections {
  import opened Common
  import opened Repository
  import opened Secrets
  import opened PoolRegistry

  datatype Status = PendingValidation | Active | Disabled | Error

  /** Where a customer database is and how to reach it; fixed at registration. */
  datatype Address = Address(host: string, port: int, database: string, username: string, tlsMode: string)

  datatype Connection = Connection(address: Address, credentialId: Uuid, status: Status,
                                   lastValidatedAt: Option<int>, lastError: Option<string>)

  datatype Credential = Credential(provider: string, referenceKey: string, isActive: bool, rotatedAt: Option<int>)

  datatype ConnectionTarget = ConnectionTarget(address: Address, password: string)

  datatype Health = Health(healthy: bool, checkedAt: int, errorSummary: string)

  datatype World = World(connections: Table<Connection>, credentials: Table<Credential>,
                         secrets: SecretStore, pool: Registry<ConnectionTarget>)

  datatype Refusal = NotFound(id: Uuid) | NoSecret(referenceKey: string) | NotReady | IsDisabled

  datatype Answer =
    | Connected(connection: Connection)
    | EngineReady(connection: Connection, engine: EngineId)
    | Deleted
    | Refused(reason: Refusal)

  datatype Op =
    | Register(address: Address, secretValue: string, connectionId: Uuid, credentialId: Uuid, referenceKey: string)
    | GetOrCreateEngine(id: Uuid)
    | Validate(id: Uuid, health: Health)
    | Enable(id: Uuid)
    | Disable(id: Uuid)
    | Rotate(id: Uuid, newSecretValue: string, newCredentialId: Uuid, newReferenceKey: string, now: int)
    | Delete(id: Uuid)

  /** What a fresh build of the connection would use: its address and its current secret. */
  function ResolveTarget(w: World, c: Connection, tenantId: Uuid): Result<ConnectionTarget, Refusal> {
    match Get(w.credentials, c.credentialId, tenantId)
    case None => Err(NotFound(c.credentialId))
    case Some(credential) =>
      match Resolved(w.secrets, credential.referenceKey)
      case Err(e) => Err(NoSecret(e.referenceKey))
      case Ok(password) => Ok(ConnectionTarget(c.address, password))
  }

  function SetConnection(w: World, tenantId: Uuid, id: Uuid, c: Connection): World {
    w.(connections := w.connections[id := Row(tenantId, c)])
  }

  function AfterHealth(c: Connection, h: Health): Connection {
    if h.healthy then c.(lastValidatedAt := Some(h.checkedAt), status := Active, lastError := None)
    else c.(lastValidatedAt := Some(h.checkedAt), status := Error, lastError := Some(h.errorSummary))
  }

  function WithEngine(w: World, tenantId: Uuid, id: Uuid, target: ConnectionTarget): World {
    w.(pool := GotOrCreated(w.pool, (tenantId, id), target))
  }

  function WithoutEngine(w: World, tenantId: Uuid, id: Uuid): World {
    w.(pool := Evicted(w.pool, (tenantId, id)))
  }

  function AfterRegister(w: World, tenantId: Uuid, op: Op): World
    requires op.Register?
  {
    World(w.connections[op.connectionId :=
                          Row(tenantId, Connection(op.address, op.credentialId, PendingValidation, None, None))],
          w.credentials[op.credentialId := Row(tenantId, Credential("local_dev", op.referenceKey, true, None))],
          w.secrets[op.referenceKey := op.secretValue],
          w.pool)
  }

  function AfterRotate(w: World, tenantId: Uuid, op: Op, c: Connection, current: Credential): World
    requires op.Rotate?
  {
    World(w.connections[op.id := Row(tenantId, c.(credentialId := op.newCredentialId, status := PendingValidation))],
          w.credentials[op.newCredentialId :=
                          Row(tenantId, Credential(current.provider, op.newReferenceKey, true, None))]
                       [c.credentialId := Row(tenantId, current.(isActive := false, rotatedAt := Some(op.now)))],
          w.secrets[op.newReferenceKey := op.newSecretValue] - {current.referenceKey},
          Evicted(w.pool, (tenantId, op.id)))
  }

  function AfterDelete(w: World, tenantId: Uuid, id: Uuid, c: Connection): World {
    var gone := WithoutEngine(w, tenantId, id).(connections := w.connections - {id});
    match Get(w.credentials, c.credentialId, tenantId)
    case None => gone
    case Some(credential) =>
      gone.(credentials := w.credentials - {c.credentialId}, secrets := w.secrets - {credential.referenceKey})
  }

  /** One operation of one tenant. */
  function Apply(w: World, tenantId: Uuid, op: Op): (World, Answer) {
    if op.Register? then
      var after := AfterRegister(w, tenantId, op);
      (after, Connected(after.connections[op.connectionId].body))
    else
      match Get(w.connections, op.id, tenantId)
      case None => (w, Refused(NotFound(op.id)))
      case Some(c) => ApplyTo(w, tenantId, op, c)
  }

  function ApplyTo(w: World, tenantId: Uuid, op: Op, c: Connection): (World, Answer)
    requires !op.Register?
  {
    match op
    case GetOrCreateEngine(id) =>
      if c.status.Disabled? then (w, Refused(IsDisabled))
      else
        (match ResolveTarget(w, c, tenantId)
         case Err(e) => (w, Refused(e))
         case Ok(target) =>
           var after := WithEngine(w, tenantId, id, target);
           (after, EngineReady(c, after.pool.engines[(tenantId, id)])))
    case Validate(id, health) =>
      (match ResolveTarget(w, c, tenantId)
       case Err(e) => (w, Refused(e))
       case Ok(target) =>
         var checked := AfterHealth(c, health);
         (SetConnection(WithEngine(w, tenantId, id, target), tenantId, id, checked), Connected(checked)))
    case Enable(id) =>
      if c.lastValidatedAt.None? then (w, Refused(NotReady))
      else
        var enabled := c.(status := Active);
        (SetConnection(w, tenantId, id, enabled), Connected(enabled))
    case Disable(id) =>
      var disabled := c.(status := Disabled);
      (WithoutEngine(SetConnection(w, tenantId, id, disabled), tenantId, id), Connected(disabled))
    case Rotate(id, _, _, _, _) =>
      (match Get(w.credentials, c.credentialId, tenantId)
       case None => (w, Refused(NotFound(c.credentialId)))
       case Some(current) =>
         var after := AfterRotate(w, tenantId, op, c, current);
         (after, Connected(after.connections[id].body)))
    case Delete(id) => (AfterDelete(w, tenantId, id, c), Deleted)
  }

  /** The identifiers an operation generates (UUIDs) have never been used. */
  ghost predicate GeneratesFreshIds(w: World, op: Op) {
    match op
    case Register(_, _, connectionId, credentialId, referenceKey) =>
      connectionId !in w.connections && credentialId !in w.credentials && FreshKey(w, referenceKey)
    case Rotate(_, _, newCredentialId, newReferenceKey, _) =>
      newCredentialId !in w.credentials && FreshKey(w, newReferenceKey)
    case _ => true
  }

  ghost predicate FreshKey(w: World, key: string) {
    key !in w.secrets && forall id :: id in w.credentials ==> w.credentials[id].body.referenceKey != key
  }
}
