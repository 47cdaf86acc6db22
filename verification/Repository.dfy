/** Tenant-scoped storage (common/repository.py): one shared table per entity, in which every
    row carries its owner and every access is filtered by the caller's tenant. */
module Repository {
  import opened Common

  datatype Row<T> = Row(tenantId: Uuid, body: T)

  type Table<T> = map<Uuid, Row<T>>

  datatype AccessError = TenantMismatch(id: Uuid)

  /** A row of another tenant looks exactly like a missing one. */
  function Get<T>(rows: Table<T>, id: Uuid, tenantId: Uuid): Option<T> {
    if id in rows && rows[id].tenantId == tenantId then Some(rows[id].body) else None
  }

  /** Everything one tenant owns. */
  function OwnedBy<T>(rows: Table<T>, tenantId: Uuid): Table<T> {
    map id | id in rows && rows[id].tenantId == tenantId :: rows[id]
  }

  class TenantScopedRepository<T> {
    var rows: Table<T>

    constructor ()
      ensures rows == map[]
    {
      rows := map[];
    }

    method GetRow(id: Uuid, tenantId: Uuid) returns (r: Option<T>)
      ensures r == Get(rows, id, tenantId)
    {
      if id !in rows {
        return None;
      }
      var row := rows[id];
      if row.tenantId != tenantId {
        return None;
      }
      return Some(row.body);
    }

    method Require(id: Uuid, tenantId: Uuid) returns (r: Result<T, AccessError>)
      ensures r == (match Get(rows, id, tenantId) case Some(body) => Ok(body) case None => Err(TenantMismatch(id)))
    {
      var found := GetRow(id, tenantId);
      match found {
        case Some(body) => r := Ok(body);
        case None => r := Err(TenantMismatch(id));
      }
    }

    method ListForTenant(tenantId: Uuid) returns (r: Table<T>)
      ensures r == OwnedBy(rows, tenantId)
    {
      r := map id | id in rows && rows[id].tenantId == tenantId :: rows[id];
    }

    /** Stamps an unowned entity with the caller's tenant and refuses one stamped for another.
        The new row's id has never been used. */
    method Add(id: Uuid, owner: Option<Uuid>, body: T, tenantId: Uuid) returns (r: Result<T, AccessError>)
      requires id !in rows
      modifies this
      ensures r.Err? <==> owner.Some? && owner.value != tenantId
      ensures r == if r.Err? then Err(TenantMismatch(id)) else Ok(body)
      ensures rows == if r.Err? then old(rows) else old(rows)[id := Row(tenantId, body)]
    {
      var stamp := owner;
      if stamp.None? {
        stamp := Some(tenantId);
      } else if stamp.value != tenantId {
        return Err(TenantMismatch(id));
      }
      rows := rows[id := Row(stamp.value, body)];
      return Ok(body);
    }

    /** Attribute assignments on a row obtained from this repository. */
    method Update(id: Uuid, body: T)
      requires id in rows
      modifies this
      ensures rows == old(rows)[id := Row(old(rows)[id].tenantId, body)]
    {
      rows := rows[id := Row(rows[id].tenantId, body)];
    }

    method Delete(id: Uuid, tenantId: Uuid) returns (r: Result<(), AccessError>)
      requires id in rows
      modifies this
      ensures r.Err? <==> old(rows)[id].tenantId != tenantId
      ensures r == if r.Err? then Err(TenantMismatch(id)) else Ok(())
      ensures rows == if r.Err? then old(rows) else old(rows) - {id}
    {
      if rows[id].tenantId != tenantId {
        return Err(TenantMismatch(id));
      }
      rows := rows - {id};
      return Ok(());
    }
  }

  // ---- one tenant's slice -----------------------------------------------------------------------

  /** A tenant reads from its own slice exactly what it reads from the shared table. */
  lemma SliceAnswersForTenant<T>(rows: Table<T>, id: Uuid, tenantId: Uuid)
    ensures Get(OwnedBy(rows, tenantId), id, tenantId) == Get(rows, id, tenantId)
    ensures OwnedBy(OwnedBy(rows, tenantId), tenantId) == OwnedBy(rows, tenantId)
  {
  }

  /** Writing a tenant's row changes that tenant's slice and no other. */
  lemma SliceOfWrite<T>(rows: Table<T>, id: Uuid, writer: Uuid, body: T, tenantId: Uuid)
    requires id in rows ==> rows[id].tenantId == writer
    ensures OwnedBy(rows[id := Row(writer, body)], tenantId)
            == if tenantId == writer then OwnedBy(rows, tenantId)[id := Row(writer, body)] else OwnedBy(rows, tenantId)
  {
  }
}
