/** The mapping service (mappings/service.py) and resolver (features/resolver.py) as objects over
    shared tenant-scoped repositories. Each method is one atomic step. */
module MappingServices {
  import opened Common
  import opened Documents
  import opened Repository
  import opened Snapshots
  import opened MappingLifecycle
  import opened MappingSafety
  import Validation
  import Metadata = SchemaMetadata

  /** The version with the highest number. */
  method MaxByNumber(versions: map<Uuid, MappingVersion>) returns (best: Uuid)
    requires versions != map[]
    ensures IsLatest(versions, best)
  {
    assert versions.Keys != {};
    ghost var first := SomeMember(versions.Keys);
    best :| best in versions;
    var todo := versions.Keys - {best};
    while todo != {}
      invariant todo <= versions.Keys && best in versions
      invariant forall id :: id in versions && id !in todo ==> versions[id].number <= versions[best].number
    {
      ghost var some := SomeMember(todo);
      var id :| id in todo;
      if versions[id].number > versions[best].number {
        best := id;
      }
      todo := todo - {id};
    }
  }

  class MappingService {
    const mappings: TenantScopedRepository<SchemaMapping>
    const versions: TenantScopedRepository<MappingVersion>
    const snapshots: TenantScopedRepository<SchemaSnapshot>
    const ontology: Ontology

    ghost function Value(): Store
      reads mappings, versions, snapshots
    {
      Store(mappings.rows, versions.rows, snapshots.rows)
    }

    ghost predicate Valid()
      reads mappings, versions, snapshots
    {
      && mappings as object != versions && mappings as object != snapshots && versions as object != snapshots
      && Sound(ontology, Value())
    }

    constructor (ontology: Ontology)
      ensures Valid() && Value() == Store(map[], map[], map[]) && this.ontology == ontology
      ensures fresh(mappings) && fresh(versions) && fresh(snapshots)
    {
      mappings := new TenantScopedRepository<SchemaMapping>();
      versions := new TenantScopedRepository<MappingVersion>();
      snapshots := new TenantScopedRepository<SchemaSnapshot>();
      this.ontology := ontology;
    }

    method CreateDraft(caller: Caller, snapshotId: Uuid, document: MappingDocument, ontologyVersion: string,
                       mappingId: Uuid, versionId: Uuid) returns (r: Answer)
      requires Valid() && mappingId !in mappings.rows && versionId !in versions.rows
      modifies mappings, versions
      ensures Valid()
      ensures (Value(), r) == Apply(ontology, old(Value()), caller,
                                    Op.CreateDraft(snapshotId, document, ontologyVersion, mappingId, versionId))
    {
      var op := Op.CreateDraft(snapshotId, document, ontologyVersion, mappingId, versionId);
      ApplyKeepsSound(ontology, Value(), caller, op);
      var mapping := SchemaMapping(document.entity, snapshotId, ontologyVersion, Draft, None, false);
      var _ := mappings.Add(mappingId, None, mapping, caller.tenantId);
      var version := MappingVersion(mappingId, 1, document, caller.principalId, None);
      var _ := versions.Add(versionId, None, version, caller.tenantId);
      return Created(mappingId, versionId);
    }

    /** The highest version number of the mapping so far, or 0. */
    method HighestVersionNumber(tenantId: Uuid, mappingId: Uuid) returns (n: nat)
      requires Valid() && Get(mappings.rows, mappingId, tenantId).Some?
      ensures n == HighestNumber(VersionsOf(Value(), tenantId, mappingId))
    {
      var latest := LatestVersionFor(tenantId, mappingId);
      return versions.rows[latest].body.number;
    }

    method CreateNewVersion(caller: Caller, mappingId: Uuid, document: MappingDocument,
                            versionId: Uuid) returns (r: Answer)
      requires Valid() && versionId !in versions.rows
      modifies mappings, versions
      ensures Valid()
      ensures (Value(), r) == Apply(ontology, old(Value()), caller, Op.CreateNewVersion(mappingId, document, versionId))
    {
      ghost var (after, answer) :=
        Apply(ontology, Value(), caller, Op.CreateNewVersion(mappingId, document, versionId));
      ApplyKeepsSound(ontology, Value(), caller, Op.CreateNewVersion(mappingId, document, versionId));
      var found := mappings.Require(mappingId, caller.tenantId);
      if found.Err? {
        return Refused(NotFound(mappingId));
      }
      var highest := HighestVersionNumber(caller.tenantId, mappingId);
      var version := MappingVersion(mappingId, highest + 1, document, caller.principalId, None);
      var _ := versions.Add(versionId, None, version, caller.tenantId);
      mappings.Update(mappingId, found.value.(state := Draft));
      assert Value() == after;
      return VersionAdded(highest + 1);
    }

    method LatestVersionFor(tenantId: Uuid, mappingId: Uuid) returns (latest: Uuid)
      requires Valid() && Get(mappings.rows, mappingId, tenantId).Some?
      ensures LatestOf(VersionsOf(Value(), tenantId, mappingId)) == Some(latest)
      ensures latest in VersionsOf(Value(), tenantId, mappingId)
    {
      ghost var newest := NewestOf(ontology, Value(), tenantId, mappingId, mappings.rows[mappingId].body);
      var existing := versions.ListForTenant(tenantId);
      var own := map id | id in existing && existing[id].body.mappingId == mappingId :: existing[id].body;
      assert own == VersionsOf(Value(), tenantId, mappingId);
      latest := MaxByNumber(own);
      assert own[newest].number <= own[latest].number;
    }

    method FindSourceTable(found: Metadata.Introspection, name: string) returns (columns: Option<set<string>>)
      ensures columns == (match FindTable(found.tables, name) case Some(t) => Some(ColumnNames(t)) case None => None)
    {
      for i := 0 to |found.tables|
        invariant FindTable(found.tables, name) == FindTable(found.tables[i..], name)
      {
        if found.tables[i].QualifiedName() == name {
          return Some(set c | c in found.tables[i].columns :: c.name);
        }
      }
      return None;
    }

    method SubmitForValidation(caller: Caller, mappingId: Uuid) returns (r: Answer)
      requires Valid()
      modifies mappings
      ensures Valid()
      ensures (Value(), r) == Apply(ontology, old(Value()), caller, Op.SubmitForValidation(mappingId))
    {
      ApplyKeepsSound(ontology, Value(), caller, Op.SubmitForValidation(mappingId));
      var found := mappings.Require(mappingId, caller.tenantId);
      if found.Err? {
        return Refused(NotFound(mappingId));
      }
      var mapping := found.value;
      if !mapping.state.Draft? {
        return Refused(InvalidTransition(mapping.state));
      }
      var latest := LatestVersionFor(caller.tenantId, mappingId);
      var document := versions.rows[latest].body.document;
      var snapshot := snapshots.Require(mapping.snapshotId, caller.tenantId);
      if snapshot.Err? {
        return Refused(NotFound(mapping.snapshotId));
      }
      if !KnownEntity(ontology, mapping.ontologyVersion, mapping.entityName) {
        return Refused(UnknownOntology);
      }
      if snapshot.value.metadata.None? {
        return Refused(SnapshotUnreadable);
      }
      var columns := FindSourceTable(snapshot.value.metadata.value, document.SourceTable());
      var setting :=
        Validation.Setting(ontology.entities[mapping.ontologyVersion][mapping.entityName], columns, None, None,
                                        ontology.convertible);
      var errors := Validation.ValidateMappingDocument(setting, document);
      if errors != [] {
        return Refused(ValidationFailed);
      }
      mappings.Update(mappingId, mapping.(state := PendingValidation));
      return Updated(mapping.(state := PendingValidation));
    }

    method Approve(caller: Caller, mappingId: Uuid) returns (r: Answer)
      requires Valid()
      modifies mappings, versions
      ensures Valid()
      ensures (Value(), r) == Apply(ontology, old(Value()), caller, Op.Approve(mappingId))
    {
      ApplyKeepsSound(ontology, Value(), caller, Op.Approve(mappingId));
      var found := mappings.Require(mappingId, caller.tenantId);
      if found.Err? {
        return Refused(NotFound(mappingId));
      }
      var mapping := found.value;
      if !mapping.state.PendingValidation? {
        return Refused(InvalidTransition(mapping.state));
      }
      var latest := LatestVersionFor(caller.tenantId, mappingId);
      versions.Update(latest, versions.rows[latest].body.(approvedBy := Some(caller.principalId)));
      mappings.Update(mappingId, mapping.(state := Approved));
      return Updated(mapping.(state := Approved));
    }

    method Activate(caller: Caller, mappingId: Uuid) returns (r: Answer)
      requires Valid()
      modifies mappings
      ensures Valid()
      ensures (Value(), r) == Apply(ontology, old(Value()), caller, Op.Activate(mappingId))
    {
      ApplyKeepsSound(ontology, Value(), caller, Op.Activate(mappingId));
      var found := mappings.Require(mappingId, caller.tenantId);
      if found.Err? {
        return Refused(NotFound(mappingId));
      }
      var mapping := found.value;
      if !mapping.state.Approved? {
        return Refused(InvalidTransition(mapping.state));
      }
      var latest := LatestVersionFor(caller.tenantId, mappingId);
      mapping := mapping.(activeVersionId := Some(latest));
      mapping := mapping.(state := Active);
      mapping := mapping.(suspendedDueToDrift := false);
      mappings.Update(mappingId, mapping);
      return Updated(mapping);
    }

    method Deprecate(caller: Caller, mappingId: Uuid) returns (r: Answer)
      requires Valid()
      modifies mappings
      ensures Valid()
      ensures (Value(), r) == Apply(ontology, old(Value()), caller, Op.Deprecate(mappingId))
    {
      ApplyKeepsSound(ontology, Value(), caller, Op.Deprecate(mappingId));
      var found := mappings.Require(mappingId, caller.tenantId);
      if found.Err? {
        return Refused(NotFound(mappingId));
      }
      if !found.value.state.Active? {
        return Refused(InvalidTransition(found.value.state));
      }
      mappings.Update(mappingId, found.value.(state := Deprecated));
      return Updated(found.value.(state := Deprecated));
    }

    method Reject(caller: Caller, mappingId: Uuid) returns (r: Answer)
      requires Valid()
      modifies mappings
      ensures Valid()
      ensures (Value(), r) == Apply(ontology, old(Value()), caller, Op.Reject(mappingId))
    {
      ApplyKeepsSound(ontology, Value(), caller, Op.Reject(mappingId));
      var found := mappings.Require(mappingId, caller.tenantId);
      if found.Err? {
        return Refused(NotFound(mappingId));
      }
      if !found.value.state.Draft? && !found.value.state.PendingValidation? {
        return Refused(InvalidTransition(found.value.state));
      }
      mappings.Update(mappingId, found.value.(state := Rejected));
      return Updated(found.value.(state := Rejected));
    }

    method GetProductionVersion(caller: Caller, mappingId: Uuid) returns (r: Answer)
      requires Valid()
      ensures r == Apply(ontology, Value(), caller, Op.GetProductionVersion(mappingId)).1
    {
      var found := mappings.Require(mappingId, caller.tenantId);
      if found.Err? {
        return Refused(NotFound(mappingId));
      }
      var mapping := found.value;
      if !mapping.state.Active? || mapping.activeVersionId.None? || mapping.suspendedDueToDrift {
        return Refused(NotProductionReady);
      }
      var version := versions.Require(mapping.activeVersionId.value, caller.tenantId);
      match version {
        case Ok(v) => r := Served(v);
        case Err(problem) => r := Refused(NotFound(problem.id));
      }
    }

    /** Suspends the tenant's ACTIVE mappings whose source table is affected. */
    method SuspendAffectedByDrift(caller: Caller, snapshot: SchemaSnapshot) returns (r: Answer)
      requires Valid()
      modifies mappings
      ensures Valid()
      ensures (Value(), r) == Apply(ontology, old(Value()), caller, Op.SuspendAffectedByDrift(snapshot))
    {
      ApplyKeepsSound(ontology, Value(), caller, Op.SuspendAffectedByDrift(snapshot));
      var affected := AffectedTables(snapshot);
      if affected == {} {
        NoneAffected(Value(), caller.tenantId);
        return Suspended({});
      }
      ActiveVersionsResolve(ontology, Value());
      var suspended := SuspendEach(caller.tenantId, affected);
      return Suspended(suspended);
    }

    /** One mapping after the other. */
    method SuspendEach(tenantId: Uuid, affected: set<string>) returns (suspended: set<Uuid>)
      requires mappings as object != versions && mappings as object != snapshots
      requires forall id :: id in mappings.rows ==> ActiveResolves(Value(), id)
      modifies mappings
      ensures suspended == AffectedMappings(old(Value()), tenantId, affected)
      ensures Value() == SuspendAll(old(Value()), tenantId, affected)
    {
      var all := mappings.ListForTenant(tenantId);
      suspended := {};
      var todo := all.Keys;
      while todo != {}
        invariant todo <= all.Keys
        invariant suspended == (set id | id in AffectedMappings(old(Value()), tenantId, affected) && id !in todo)
        invariant mappings.rows == SuspendedRows(old(mappings.rows), suspended)
      {
        ghost var some := SomeMember(todo);
        var id :| id in todo;
        var mapping := all[id].body;
        if mapping.state.Active? && mapping.activeVersionId.Some? {
          assert ActiveResolves(old(Value()), id);
          var version := versions.Require(mapping.activeVersionId.value, tenantId);
          if version.value.document.SourceTable() in affected {
            mappings.Update(id, mapping.(suspendedDueToDrift := true));
            suspended := suspended + {id};
          }
        }
        todo := todo - {id};
      }
      assert suspended == AffectedMappings(old(Value()), tenantId, affected);
      assert mappings.rows == SuspendAll(old(Value()), tenantId, affected).mappings;
    }

    /** The resolver: the entity's one ACTIVE mapping, if it may be used. */
    method Resolve(caller: Caller, entityName: string) returns (r: Answer)
      requires Valid()
      ensures r == Apply(ontology, Value(), caller, Op.Resolve(entityName)).1
    {
      var own := mappings.ListForTenant(caller.tenantId);
      var active := set id | id in own && own[id].body.entityName == entityName && own[id].body.state.Active?;
      assert active == ActiveFor(Value(), caller.tenantId, entityName);
      if |active| > 1 {
        return Refused(SeveralActive);
      }
      if active == {} {
        return NothingToServe;
      }
      ghost var some := SomeMember(active);
      var id :| id in active;
      ResolvedIs(Value(), caller.tenantId, entityName, id);
      var mapping := own[id].body;
      if mapping.activeVersionId.None? || mapping.suspendedDueToDrift {
        return NothingToServe;
      }
      var version := versions.GetRow(mapping.activeVersionId.value, caller.tenantId);
      if version.None? {
        return NothingToServe;
      }
      return Served(version.value);
    }
  }

  ghost predicate ActiveResolves(s: Store, id: Uuid) {
    id in s.mappings && s.mappings[id].body.activeVersionId.Some? ==>
      Get(s.versions, s.mappings[id].body.activeVersionId.value, s.mappings[id].tenantId).Some?
  }

  lemma ActiveVersionsResolve(o: Ontology, s: Store)
    requires Sound(o, s)
    ensures forall id :: id in s.mappings ==> ActiveResolves(s, id)
  {
    forall id | id in s.mappings
      ensures ActiveResolves(s, id)
    {
      assert MappingAt(o, s, id);
    }
  }

  lemma NoneAffected(s: Store, tenantId: Uuid)
    ensures SuspendAll(s, tenantId, {}) == s && AffectedMappings(s, tenantId, {}) == {}
  {
    assert SuspendAll(s, tenantId, {}).mappings == s.mappings;
  }

  ghost function SuspendedRows(rows: Table<SchemaMapping>, suspended: set<Uuid>): Table<SchemaMapping> {
    map id | id in rows ::
      if id in suspended then Row(rows[id].tenantId, rows[id].body.(suspendedDueToDrift := true)) else rows[id]
  }
}
