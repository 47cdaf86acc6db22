/** The connection lifecycle manager (connectors/service.py): an object over shared repositories,
    the secret provider and the pool registry. Each method is one atomic step. */
module ConnectionManager {
  import opened Common
  import opened Repository
  import opened Secrets
  import opened PoolRegistry
  import opened Connections

  class ConnectionLifecycleManager {
    const connections: TenantScopedRepository<Connection>
    const credentials: TenantScopedRepository<Credential>
    const secretProvider: LocalDevSecretProvider
    const poolRegistry: TenantConnectionPoolRegistry<ConnectionTarget>

    ghost function Value(): World
      reads connections, credentials, secretProvider, poolRegistry
    {
      World(connections.rows, credentials.rows, secretProvider.secrets, poolRegistry.Value())
    }

    ghost predicate Valid()
      reads poolRegistry
    {
      && connections as object != credentials
      && poolRegistry.Valid()
    }

    constructor ()
      ensures Valid() && Value() == World(map[], map[], map[], Registry(map[], [], []))
      ensures fresh(connections) && fresh(credentials) && fresh(secretProvider) && fresh(poolRegistry)
    {
      connections := new TenantScopedRepository<Connection>();
      credentials := new TenantScopedRepository<Credential>();
      secretProvider := new LocalDevSecretProvider();
      poolRegistry := new TenantConnectionPoolRegistry<ConnectionTarget>();
    }

    method RegisterConnection(tenantId: Uuid, address: Address, secretValue: string,
                              connectionId: Uuid, credentialId: Uuid, referenceKey: string)
      returns (r: Answer)
      requires Valid()
               && GeneratesFreshIds(Value(), Register(address, secretValue, connectionId, credentialId, referenceKey))
      modifies connections, credentials, secretProvider
      ensures Valid()
      ensures (Value(), r)
              == Apply(old(Value()), tenantId, Register(address, secretValue, connectionId, credentialId, referenceKey))
    {
      secretProvider.Store(referenceKey, secretValue);
      var credential := Credential("local_dev", referenceKey, true, None);
      var _ := credentials.Add(credentialId, None, credential, tenantId);
      var connection := Connection(address, credentialId, PendingValidation, None, None);
      var _ := connections.Add(connectionId, None, connection, tenantId);
      return Connected(connection);
    }

    method ResolveConnectionTarget(c: Connection, tenantId: Uuid) returns (r: Result<ConnectionTarget, Refusal>)
      ensures r == ResolveTarget(Value(), c, tenantId)
    {
      var found := credentials.Require(c.credentialId, tenantId);
      if found.Err? {
        return Err(NotFound(c.credentialId));
      }
      var password := secretProvider.Resolve(found.value.referenceKey);
      if password.Err? {
        return Err(NoSecret(password.error.referenceKey));
      }
      return Ok(ConnectionTarget(c.address, password.value));
    }

    method GetEngine(id: Uuid, tenantId: Uuid) returns (r: Answer)
      requires Valid()
      modifies poolRegistry
      ensures Valid()
      ensures (Value(), r) == Apply(old(Value()), tenantId, GetOrCreateEngine(id))
    {
      var found := connections.Require(id, tenantId);
      if found.Err? {
        return Refused(NotFound(id));
      }
      var connection := found.value;
      if connection.status.Disabled? {
        return Refused(IsDisabled);
      }
      var target := ResolveConnectionTarget(connection, tenantId);
      if target.Err? {
        return Refused(target.error);
      }
      var engine := poolRegistry.GetOrCreate(tenantId, id, target.value);
      return EngineReady(connection, engine);
    }

    method ValidateConnection(id: Uuid, tenantId: Uuid, health: Health) returns (r: Answer)
      requires Valid()
      modifies connections, poolRegistry
      ensures Valid()
      ensures (Value(), r) == Apply(old(Value()), tenantId, Validate(id, health))
    {
      var found := connections.Require(id, tenantId);
      if found.Err? {
        return Refused(NotFound(id));
      }
      var connection := found.value;
      var target := ResolveConnectionTarget(connection, tenantId);
      if target.Err? {
        return Refused(target.error);
      }
      var engine := poolRegistry.GetOrCreate(tenantId, id, target.value);
      connection := connection.(lastValidatedAt := Some(health.checkedAt));
      if health.healthy {
        connection := connection.(status := Active, lastError := None);
      } else {
        connection := connection.(status := Error, lastError := Some(health.errorSummary));
      }
      connections.Update(id, connection);
      return Connected(connection);
    }

    method EnableConnection(id: Uuid, tenantId: Uuid) returns (r: Answer)
      requires Valid()
      modifies connections
      ensures Valid()
      ensures (Value(), r) == Apply(old(Value()), tenantId, Enable(id))
    {
      var found := connections.Require(id, tenantId);
      if found.Err? {
        return Refused(NotFound(id));
      }
      var connection := found.value;
      if connection.lastValidatedAt.None? {
        return Refused(NotReady);
      }
      connection := connection.(status := Active);
      connections.Update(id, connection);
      return Connected(connection);
    }

    method DisableConnection(id: Uuid, tenantId: Uuid) returns (r: Answer)
      requires Valid()
      modifies connections, poolRegistry
      ensures Valid()
      ensures (Value(), r) == Apply(old(Value()), tenantId, Disable(id))
    {
      var found := connections.Require(id, tenantId);
      if found.Err? {
        return Refused(NotFound(id));
      }
      var connection := found.value.(status := Disabled);
      connections.Update(id, connection);
      poolRegistry.Evict(tenantId, id);
      return Connected(connection);
    }

    method RotateSecret(id: Uuid, tenantId: Uuid, newSecretValue: string,
                        newCredentialId: Uuid, newReferenceKey: string, now: int)
      returns (r: Answer)
      requires Valid() && GeneratesFreshIds(Value(), Rotate(id, newSecretValue, newCredentialId, newReferenceKey, now))
      modifies connections, credentials, secretProvider, poolRegistry
      ensures Valid()
      ensures (Value(), r)
              == Apply(old(Value()), tenantId, Rotate(id, newSecretValue, newCredentialId, newReferenceKey, now))
    {
      var found := connections.Require(id, tenantId);
      if found.Err? {
        return Refused(NotFound(id));
      }
      var connection := found.value;
      var credential := credentials.Require(connection.credentialId, tenantId);
      if credential.Err? {
        return Refused(NotFound(connection.credentialId));
      }
      var oldCredential := credential.value;
      secretProvider.Store(newReferenceKey, newSecretValue);
      var _ := credentials.Add(newCredentialId, None, Credential(oldCredential.provider, newReferenceKey, true, None),
                               tenantId);
      var oldReferenceKey := oldCredential.referenceKey;
      credentials.Update(connection.credentialId, oldCredential.(isActive := false, rotatedAt := Some(now)));
      connection := connection.(credentialId := newCredentialId, status := PendingValidation);
      connections.Update(id, connection);
      poolRegistry.Evict(tenantId, id);
      secretProvider.Delete(oldReferenceKey);
      return Connected(connection);
    }

    method DeleteConnection(id: Uuid, tenantId: Uuid) returns (r: Answer)
      requires Valid()
      modifies connections, credentials, secretProvider, poolRegistry
      ensures Valid()
      ensures (Value(), r) == Apply(old(Value()), tenantId, Delete(id))
    {
      var found := connections.Require(id, tenantId);
      if found.Err? {
        return Refused(NotFound(id));
      }
      var connection := found.value;
      var credential := credentials.GetRow(connection.credentialId, tenantId);
      poolRegistry.Evict(tenantId, id);
      var _ := connections.Delete(id, tenantId);
      if credential.Some? {
        var _ := credentials.Delete(connection.credentialId, tenantId);
        secretProvider.Delete(credential.value.referenceKey);
      }
      return Deleted;
    }
  }
}
