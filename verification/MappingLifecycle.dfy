/** Mappings and their versions (mappings/models.py), and what each operation of the mapping service
    and resolver does to the shared store, as one atomic step. */
module MappingLifecycle {
  import opened Common
  import opened Documents
  import opened Repository
  import Validation
  import Metadata = SchemaMetadata
  import opened Snapshots

  datatype MappingState = Draft | PendingValidation | Approved | Active | Deprecated | Rejected

  datatype SchemaMapping = SchemaMapping(entityName: string, snapshotId: Uuid, ontologyVersion: string,
                                         state: MappingState,
                                         activeVersionId: Option<Uuid>, suspendedDueToDrift: bool)

  datatype MappingVersion = MappingVersion(mappingId: Uuid, number: nat, document: MappingDocument,
                                           createdBy: Uuid, approvedBy: Option<Uuid>)

  datatype Store = Store(mappings: Table<SchemaMapping>, versions: Table<MappingVersion>,
                         snapshots: Table<SchemaSnapshot>)

  /** The ontology, by version and entity name, and which units convert into which. */
  datatype Ontology = Ontology(entities: map<string, map<string, EntityDefinition>>, convertible: (string,
                               string) -> bool)

  datatype Caller = Caller(tenantId: Uuid, principalId: Uuid)

  datatype Refusal =
    | NotFound(id: Uuid)
    | InvalidTransition(current: MappingState)
    | UnknownOntology
    | SnapshotUnreadable
    | ValidationFailed
    | NotProductionReady
    | NoVersions
    | SeveralActive

  datatype Answer =
    | Created(mappingId: Uuid, versionId: Uuid)
    | VersionAdded(number: nat)
    | Updated(mapping: SchemaMapping)
    | Served(version: MappingVersion)
    | NothingToServe
    | Suspended(ids: set<Uuid>)
    | Recorded
    | Refused(reason: Refusal)

  datatype Op =
    | CreateDraft(snapshotId: Uuid, document: MappingDocument, ontologyVersion: string, newMappingId: Uuid,
                  newVersionId: Uuid)
    | CreateNewVersion(mappingId: Uuid, newDocument: MappingDocument, versionId: Uuid)
    | SubmitForValidation(mappingId: Uuid)
    | Approve(mappingId: Uuid)
    | Activate(mappingId: Uuid)
    | Deprecate(mappingId: Uuid)
    | Reject(mappingId: Uuid)
    | GetProductionVersion(mappingId: Uuid)
    | Resolve(entityName: string)
    | SuspendAffectedByDrift(snapshot: SchemaSnapshot)
    | RecordSnapshot(newSnapshotId: Uuid, recorded: SchemaSnapshot)

  // ---- versions of one mapping ------------------------------------------------------------------

  /** The versions of a mapping, as the tenant's own list of versions filtered by mapping. */
  function VersionsOf(s: Store, tenantId: Uuid, mappingId: Uuid): map<Uuid, MappingVersion> {
    map id | id in s.versions && s.versions[id].tenantId == tenantId && s.versions[id].body.mappingId == mappingId ::
      s.versions[id].body
  }

  ghost predicate IsLatest(versions: map<Uuid, MappingVersion>, id: Uuid) {
    id in versions && forall other :: other in versions ==> versions[other].number <= versions[id].number
  }

  /** The id of the version with the highest number. */
  ghost function LatestOf(versions: map<Uuid, MappingVersion>): Option<Uuid> {
    if exists id :: IsLatest(versions, id) then
      var id :| IsLatest(versions, id);
      Some(id)
    else None
  }

  ghost function HighestNumber(versions: map<Uuid, MappingVersion>): nat {
    match LatestOf(versions)
    case Some(id) => if id in versions then versions[id].number else 0
    case None => 0
  }

  lemma {:induction false} NonEmptyHasLatest(versions: map<Uuid, MappingVersion>)
    requires versions != map[]
    ensures LatestOf(versions).Some? && IsLatest(versions, LatestOf(versions).value)
    decreases |versions|
  {
    assert versions.Keys != {};
    var id := SomeMember(versions.Keys);
    var rest := versions - {id};
    assert versions.Keys == rest.Keys + {id};
    if rest == map[] {
      assert IsLatest(versions, id);
    } else {
      NonEmptyHasLatest(rest);
      var other := LatestOf(rest).value;
      forall k | k in versions
        ensures k == id || k in rest
      {
      }
      if versions[other].number < versions[id].number {
        assert IsLatest(versions, id);
      } else {
        assert IsLatest(versions, other);
      }
    }
  }

  // ---- validation in the store's terms --------------------------------------------------------------

  function FindTable(tables: seq<Metadata.Table>, name: string): Option<Metadata.Table> {
    if tables == [] then None
    else if tables[0].QualifiedName() == name then Some(tables[0])
    else FindTable(tables[1..], name)
  }

  function ColumnNames(t: Metadata.Table): set<string> {
    set c | c in t.columns :: c.name
  }

  /** What a document is validated against: its ontology entity and, if the snapshot has its source
      table, that table's columns. */
  function ValidationSetting(o: Ontology, found: Metadata.Introspection, entity: EntityDefinition,
                             d: MappingDocument): Validation.Setting {
    var table := FindTable(found.tables, d.SourceTable());
    Validation.Setting(entity, if table.Some? then Some(ColumnNames(table.value)) else None, None, None, o.convertible)
  }

  predicate KnownEntity(o: Ontology, version: string, entityName: string) {
    version in o.entities && entityName in o.entities[version]
  }

  /** Why submitting the document would be refused, if it would. */
  ghost function SubmissionProblem(o: Ontology, snapshots: Table<SchemaSnapshot>, tenantId: Uuid, m: SchemaMapping,
                                   d: MappingDocument): Option<Refusal> {
    match Get(snapshots, m.snapshotId, tenantId)
    case None => Some(NotFound(m.snapshotId))
    case Some(snapshot) =>
      if !KnownEntity(o, m.ontologyVersion, m.entityName) then Some(UnknownOntology)
      else if snapshot.metadata.None? then Some(SnapshotUnreadable)
      else
        var entity := o.entities[m.ontologyVersion][m.entityName];
        if !Validation.Passes(ValidationSetting(o, snapshot.metadata.value, entity, d), d) then Some(ValidationFailed)
        else None
  }

  // ---- the operations ----------------------------------------------------------------------------------

  function SetMapping(s: Store, tenantId: Uuid, id: Uuid, m: SchemaMapping): Store {
    s.(mappings := s.mappings[id := Row(tenantId, m)])
  }

  function SetVersion(s: Store, tenantId: Uuid, id: Uuid, v: MappingVersion): Store {
    s.(versions := s.versions[id := Row(tenantId, v)])
  }

  /** Tables some drift event is about. */
  function AffectedTables(snapshot: SchemaSnapshot): set<string> {
    match snapshot.driftSummary
    case None => {}
    case Some(events) => set e | e in events :: e.table
  }

  /** An ACTIVE mapping of the tenant whose active version reads from an affected table. The
      mapping's own connection is not compared with the snapshot's. */
  predicate IsAffected(s: Store, tenantId: Uuid, id: Uuid, affected: set<string>) {
    && id in s.mappings && s.mappings[id].tenantId == tenantId
    && var m := s.mappings[id].body;
       m.state.Active? && m.activeVersionId.Some?
       && match Get(s.versions, m.activeVersionId.value, tenantId)
          case None => false
          case Some(v) => v.document.SourceTable() in affected
  }

  function SuspendAll(s: Store, tenantId: Uuid, affected: set<string>): Store {
    s.(mappings := map id | id in s.mappings ::
        if IsAffected(s, tenantId, id, affected) then
          Row(s.mappings[id].tenantId, s.mappings[id].body.(suspendedDueToDrift := true))
        else s.mappings[id])
  }

  function AffectedMappings(s: Store, tenantId: Uuid, affected: set<string>): set<Uuid> {
    set id | id in s.mappings && IsAffected(s, tenantId, id, affected)
  }

  /** The tenant's ACTIVE mappings of an entity. */
  function ActiveFor(s: Store, tenantId: Uuid, entityName: string): set<Uuid> {
    set id | id in s.mappings && s.mappings[id].tenantId == tenantId
             && s.mappings[id].body.entityName == entityName && s.mappings[id].body.state.Active?
  }

  function ServeActive(s: Store, tenantId: Uuid, m: SchemaMapping, otherwise: Answer): Answer {
    if m.activeVersionId.None? || m.suspendedDueToDrift then otherwise
    else
      match Get(s.versions, m.activeVersionId.value, tenantId)
      case Some(v) => Served(v)
      case None => Refused(NotFound(m.activeVersionId.value))
  }

  ghost function Resolved(s: Store, tenantId: Uuid, entityName: string): Answer {
    var active := ActiveFor(s, tenantId, entityName);
    if |active| > 1 then Refused(SeveralActive)
    else if forall id :: id !in active then NothingToServe
    else
      var id :| id in active;
      match ServeActive(s, tenantId, s.mappings[id].body, NothingToServe)
      case Served(v) => Served(v)
      case _ => NothingToServe
  }

  lemma ResolvedIs(s: Store, tenantId: Uuid, entityName: string, id: Uuid)
    requires var active := ActiveFor(s, tenantId, entityName); |active| <= 1 && id in active
    ensures ActiveFor(s, tenantId, entityName) == {id}
    ensures Resolved(s, tenantId, entityName)
            == match ServeActive(s, tenantId, s.mappings[id].body, NothingToServe)
               case Served(v) => Served(v)
               case _ => NothingToServe
  {
    var active := ActiveFor(s, tenantId, entityName);
    assert |active - {id}| == |active| - 1;
    assert forall other :: other in active && other != id ==> other in active - {id};
  }

  /** One call of the service or resolver. */
  ghost function Apply(o: Ontology, s: Store, caller: Caller, op: Op): (Store, Answer) {
    var t := caller.tenantId;
    match op
    case CreateDraft(snapshotId, document, ontologyVersion, newMappingId, newVersionId) =>
      var m := SchemaMapping(document.entity, snapshotId, ontologyVersion, Draft, None, false);
      var v := MappingVersion(newMappingId, 1, document, caller.principalId, None);
      (SetVersion(SetMapping(s, t, newMappingId, m), t, newVersionId, v), Created(newMappingId, newVersionId))
    case Resolve(entityName) => (s, Resolved(s, t, entityName))
    case SuspendAffectedByDrift(snapshot) =>
      (SuspendAll(s, t, AffectedTables(snapshot)), Suspended(AffectedMappings(s, t, AffectedTables(snapshot))))
    case RecordSnapshot(id, snapshot) => (s.(snapshots := s.snapshots[id := Row(t, snapshot)]), Recorded)
    case _ =>
      match Get(s.mappings, op.mappingId, t)
      case None => (s, Refused(NotFound(op.mappingId)))
      case Some(m) => ApplyToMapping(o, s, caller, op, m)
  }

  ghost predicate ConcernsOneMapping(op: Op) {
    !op.CreateDraft? && !op.Resolve? && !op.SuspendAffectedByDrift? && !op.RecordSnapshot?
  }

  ghost function ApplyToMapping(o: Ontology, s: Store, caller: Caller, op: Op, m: SchemaMapping): (Store, Answer)
    requires ConcernsOneMapping(op)
  {
    var t, id := caller.tenantId, op.mappingId;
    match op
    case CreateNewVersion(_, document, versionId) => Redrafted(s, caller, id, m, versionId, document)
    case SubmitForValidation(_) =>
      if !m.state.Draft? then (s, Refused(InvalidTransition(m.state))) else Submitted(o, s, t, id, m)
    case Approve(_) =>
      if !m.state.PendingValidation? then (s, Refused(InvalidTransition(m.state))) else ApprovedBy(s, caller, id, m)
    case Activate(_) => if !m.state.Approved? then (s, Refused(InvalidTransition(m.state))) else Activated(s, t, id, m)
    case Deprecate(_) =>
      if !m.state.Active? then (s, Refused(InvalidTransition(m.state))) else Moved(s, t, id, m.(state := Deprecated))
    case Reject(_) =>
      if !m.state.Draft? && !m.state.PendingValidation? then (s, Refused(InvalidTransition(m.state)))
      else Moved(s, t, id, m.(state := Rejected))
    case GetProductionVersion(_) =>
      (s, if !m.state.Active? then Refused(NotProductionReady) else ServeActive(s, t, m, Refused(NotProductionReady)))
  }

  function Moved(s: Store, tenantId: Uuid, id: Uuid, m: SchemaMapping): (Store, Answer) {
    (SetMapping(s, tenantId, id, m), Updated(m))
  }

  /** A new version, whatever state the mapping was in; the mapping is a draft again. */
  ghost function Redrafted(s: Store, caller: Caller, id: Uuid, m: SchemaMapping, versionId: Uuid,
                           document: MappingDocument): (Store, Answer) {
    var number := HighestNumber(VersionsOf(s, caller.tenantId, id)) + 1;
    var v := MappingVersion(id, number, document, caller.principalId, None);
    (SetMapping(SetVersion(s, caller.tenantId, versionId, v), caller.tenantId, id, m.(state := Draft)),
     VersionAdded(number))
  }

  ghost function Submitted(o: Ontology, s: Store, tenantId: Uuid, id: Uuid, m: SchemaMapping): (Store, Answer) {
    var versions := VersionsOf(s, tenantId, id);
    match LatestOf(versions)
    case None => (s, Refused(NoVersions))
    case Some(latest) =>
      if latest !in versions then (s, Refused(NoVersions))
      else
        match SubmissionProblem(o, s.snapshots, tenantId, m, versions[latest].document)
        case Some(problem) => (s, Refused(problem))
        case None => Moved(s, tenantId, id, m.(state := PendingValidation))
  }

  ghost function ApprovedBy(s: Store, caller: Caller, id: Uuid, m: SchemaMapping): (Store, Answer) {
    var versions := VersionsOf(s, caller.tenantId, id);
    match LatestOf(versions)
    case None => (s, Refused(NoVersions))
    case Some(latest) =>
      if latest !in versions then (s, Refused(NoVersions))
      else
        var v := versions[latest].(approvedBy := Some(caller.principalId));
        Moved(SetVersion(s, caller.tenantId, latest, v), caller.tenantId, id, m.(state := Approved))
  }

  ghost function Activated(s: Store, tenantId: Uuid, id: Uuid, m: SchemaMapping): (Store, Answer) {
    match LatestOf(VersionsOf(s, tenantId, id))
    case None => (s, Refused(NoVersions))
    case Some(latest) =>
      Moved(s, tenantId, id, m.(activeVersionId := Some(latest), state := Active, suspendedDueToDrift := false))
  }

  /** Generated ids have never been used. */
  ghost predicate GeneratesFreshIds(s: Store, op: Op) {
    match op
    case CreateDraft(_, _, _, newMappingId, newVersionId) => newMappingId !in s.mappings && newVersionId !in s.versions
    case CreateNewVersion(_, _, versionId) => versionId !in s.versions
    case RecordSnapshot(id, _) => id !in s.snapshots
    case _ => true
  }
}
