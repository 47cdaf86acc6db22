/** From schema drift to suspended mappings: which mappings a completed discovery takes out of
    production, and until when. */
module DriftSuspension {
  import opened Common
  import opened Documents
  import opened Expressions
  import opened Repository
  import opened Fingerprints
  import opened Drift
  import opened Snapshots
  import opened Discovery
  import opened MappingLifecycle
  import opened MappingSafety
  import opened MappingHistory
  import opened MappingServing
  import Validation
  import Metadata = SchemaMetadata

  /** What the source table of an ACTIVE mapping is named. */
  ghost predicate ActiveOn(s: Store, tenantId: Uuid, id: Uuid, table: string) {
    && id in s.mappings && s.mappings[id].tenantId == tenantId && s.mappings[id].body.state.Active?
    && var active := s.mappings[id].body.activeVersionId;
       active.Some? && active.value in s.versions && s.versions[active.value].body.document.SourceTable() == table
  }

  lemma SuspendedExactlyWhenMentioned(o: Ontology, s: Store, caller: Caller, snapshot: SchemaSnapshot, id: Uuid,
                                      table: string)
    requires Sound(o, s) && ActiveOn(s, caller.tenantId, id, table) && snapshot.driftSummary.Some?
    ensures var (s', answer) := Apply(o, s, caller, SuspendAffectedByDrift(snapshot));
            && answer.Suspended? && id in s'.mappings
            && (id in answer.ids <==> Mentions(snapshot.driftSummary.value, table))
            && s'.mappings[id]
               == if id !in answer.ids then s.mappings[id]
                  else Row(caller.tenantId, s.mappings[id].body.(suspendedDueToDrift := true))
  {
    assert MappingAt(o, s, id);
    assert table in AffectedTables(snapshot) <==> Mentions(snapshot.driftSummary.value, table);
    assert IsAffected(s, caller.tenantId, id, AffectedTables(snapshot)) <==> table in AffectedTables(snapshot);
  }

  /** An ACTIVE mapping on a table the previous snapshot had is suspended exactly when that table was
      removed, likely renamed, or changed in a column's presence, type or nullability or in its
      foreign keys; otherwise the mapping's row is left as it was. */
  lemma SuspensionIsExact(h: Hashing, o: Ontology, s: Store, caller: Caller, snapshot: SchemaSnapshot,
                          before: Metadata.Introspection, after: Metadata.Introspection, id: Uuid, table: string)
    requires Sound(o, s) && ActiveOn(s, caller.tenantId, id, table)
    requires snapshot.driftSummary.Some? && IsDriftReport(h, before, after, snapshot.driftSummary.value)
    requires table in Metadata.TablesByName(before.tables)
    ensures var oldTables, newTables := Metadata.TablesByName(before.tables), Metadata.TablesByName(after.tables);
            var (s', answer) := Apply(o, s, caller, SuspendAffectedByDrift(snapshot));
            && answer.Suspended? && id in s'.mappings
            && (id in answer.ids <==> table !in newTables || !Unchanged(oldTables[table], newTables[table]))
            && s'.mappings[id]
               == if id !in answer.ids then s.mappings[id]
                  else Row(caller.tenantId, s.mappings[id].body.(suspendedDueToDrift := true))
  {
    var oldTables, newTables := Metadata.TablesByName(before.tables), Metadata.TablesByName(after.tables);
    var events := snapshot.driftSummary.value;
    var renamed :| RenamesAreBest(h, oldTables, newTables, renamed) && Reports(oldTables, newTables, renamed, events);
    MentionedExactlyWhenChanged(h, oldTables, newTables, renamed, events, table);
    SuspendedExactlyWhenMentioned(o, s, caller, snapshot, id, table);
  }

  /** The comparison is by table name alone, so a mapping on a table of a different connection is
      suspended too when that name occurs there: one whose table the snapshot reports as added, unless
      it is what a removed table was likely renamed to. */
  lemma AddedTablesSuspendToo(h: Hashing, o: Ontology, s: Store, caller: Caller, snapshot: SchemaSnapshot,
                              before: Metadata.Introspection, after: Metadata.Introspection, id: Uuid, table: string)
    requires Sound(o, s) && ActiveOn(s, caller.tenantId, id, table)
    requires snapshot.driftSummary.Some? && IsDriftReport(h, before, after, snapshot.driftSummary.value)
    requires table !in Metadata.TablesByName(before.tables)
    ensures var answer := Apply(o, s, caller, SuspendAffectedByDrift(snapshot)).1;
            answer.Suspended?
            && (id in answer.ids <==> table in Metadata.TablesByName(after.tables)
                                      && !exists t :: TableRenamedLikely(t, table) in snapshot.driftSummary.value)
  {
    var oldTables, newTables := Metadata.TablesByName(before.tables), Metadata.TablesByName(after.tables);
    var events := snapshot.driftSummary.value;
    var renamed :| RenamesAreBest(h, oldTables, newTables, renamed) && Reports(oldTables, newTables, renamed, events);
    MentionedOnlyAsAdded(h, oldTables, newTables, renamed, events, table);
    SuspendedExactlyWhenMentioned(o, s, caller, snapshot, id, table);
  }

  lemma MentionedOnlyAsAdded(h: Hashing, oldTables: Tables, newTables: Tables, renamed: map<string, string>,
                             events: seq<DriftEvent>, table: string)
    requires RenamesAreBest(h, oldTables, newTables, renamed) && Reports(oldTables, newTables, renamed, events)
    requires table !in oldTables
    ensures Mentions(events, table) <==> table in newTables && !exists t :: TableRenamedLikely(t, table) in events
  {
    if Mentions(events, table) {
      var e :| e in events && e.table == table;
      assert IsEvent(oldTables, newTables, renamed, e);
      assert e == TableAdded(table);
    }
    if table in newTables {
      AddedTablesAreAccountedFor(h, oldTables, newTables, renamed, events, table);
    }
  }

  // ---- across connections --------------------------------------------------------------------------

  /** The connection whose schema the mapping was drawn up against. */
  function ConnectionOf(s: Store, tenantId: Uuid, id: Uuid): Option<Uuid> {
    match Get(s.mappings, id, tenantId)
    case None => None
    case Some(m) =>
      match Get(s.snapshots, m.snapshotId, tenantId)
      case None => None
      case Some(snapshot) => Some(snapshot.connectionId)
  }

  /** An ACTIVE mapping of another connection reads from a table of this name. */
  ghost predicate ActiveElsewhere(s: Store, tenantId: Uuid, connectionId: Uuid, id: Uuid, table: string) {
    ActiveOn(s, tenantId, id, table) && ConnectionOf(s, tenantId, id) != Some(connectionId)
  }

  ghost predicate SuspendsOwnConnectionOnly(o: Ontology, s: Store, caller: Caller, snapshot: SchemaSnapshot) {
    var answer := Apply(o, s, caller, SuspendAffectedByDrift(snapshot)).1;
    && answer.Suspended?
    && forall id :: id in answer.ids ==> ConnectionOf(s, caller.tenantId, id) == Some(snapshot.connectionId)
  }

  ghost function TableReadBy(s: Store, id: Uuid): string
    requires id in s.mappings && s.mappings[id].body.activeVersionId.Some?
    requires s.mappings[id].body.activeVersionId.value in s.versions
  {
    s.versions[s.mappings[id].body.activeVersionId.value].body.document.SourceTable()
  }

  lemma AffectedIsActive(o: Ontology, s: Store, tenantId: Uuid, id: Uuid, affected: set<string>)
    requires Sound(o, s)
    ensures (exists table :: ActiveOn(s, tenantId, id, table) && table in affected) ==>
              IsAffected(s, tenantId, id, affected)
    ensures IsAffected(s, tenantId, id, affected) ==>
              && s.mappings[id].body.activeVersionId.value in s.versions
              && ActiveOn(s, tenantId, id, TableReadBy(s, id)) && TableReadBy(s, id) in affected
  {
    if id in s.mappings {
      assert MappingAt(o, s, id);
    }
  }

  /** A snapshot suspends mappings of its own connection alone if and only if no ACTIVE mapping of the
      tenant on another connection reads from a table of a name the snapshot's drift mentions. */
  lemma OwnConnectionOnlyExactlyWhen(o: Ontology, s: Store, caller: Caller, snapshot: SchemaSnapshot)
    requires Sound(o, s)
    ensures SuspendsOwnConnectionOnly(o, s, caller, snapshot) <==>
            !exists id, table :: ActiveElsewhere(s, caller.tenantId, snapshot.connectionId, id, table)
                                 && table in AffectedTables(snapshot)
  {
    SuspendedAreAffected(o, s, caller, snapshot);
    ElsewhereExactlyWhenAffected(o, s, caller.tenantId, snapshot.connectionId, AffectedTables(snapshot));
  }

  lemma SuspendedAreAffected(o: Ontology, s: Store, caller: Caller, snapshot: SchemaSnapshot)
    ensures SuspendsOwnConnectionOnly(o, s, caller, snapshot) <==>
            forall id :: IsAffected(s, caller.tenantId, id, AffectedTables(snapshot)) ==>
              ConnectionOf(s, caller.tenantId, id) == Some(snapshot.connectionId)
  {
    var answer := Apply(o, s, caller, SuspendAffectedByDrift(snapshot)).1;
    assert answer == Suspended(AffectedMappings(s, caller.tenantId, AffectedTables(snapshot)));
    assert forall id :: id in answer.ids <==> IsAffected(s, caller.tenantId, id, AffectedTables(snapshot));
  }

  lemma ElsewhereExactlyWhenAffected(o: Ontology, s: Store, tenantId: Uuid, connectionId: Uuid, affected: set<string>)
    requires Sound(o, s)
    ensures (exists id, table :: ActiveElsewhere(s, tenantId, connectionId, id, table) && table in affected) <==>
            (exists id :: IsAffected(s, tenantId, id, affected) && ConnectionOf(s, tenantId, id) != Some(connectionId))
  {
    if id, table :| ActiveElsewhere(s, tenantId, connectionId, id, table) && table in affected {
      AffectedIsActive(o, s, tenantId, id, affected);
    }
    if id :| IsAffected(s, tenantId, id, affected) && ConnectionOf(s, tenantId, id) != Some(connectionId) {
      AffectedIsActive(o, s, tenantId, id, affected);
      assert ActiveElsewhere(s, tenantId, connectionId, id, TableReadBy(s, id));
    }
  }

  /** What a completed discovery of the connection records. */
  function Discovered(h: Hashing, connectionId: Uuid, number: nat, found: Metadata.Introspection,
                      drift: Option<seq<DriftEvent>>): (snapshot: SchemaSnapshot)
    ensures snapshot.connectionId == connectionId && snapshot.metadata == Some(found)
    ensures snapshot.driftSummary == drift && Fingerprinted(h, snapshot)
  {
    SchemaSnapshot(connectionId, number, Completed, Some(found), TableFingerprints(h, found),
                   Some(SchemaFingerprint(h, found)), drift)
  }

  /** ... after it lost the table the document reads from. */
  function TableLost(h: Hashing, connectionId: Uuid, d: MappingDocument): SchemaSnapshot {
    Discovered(h, connectionId, 2, Metadata.Introspection([], []), Some([TableRemoved(d.SourceTable())]))
  }

  function TableKept(d: MappingDocument): Metadata.Introspection {
    Metadata.Introspection([], [Metadata.Table(d.schemaName, d.table, "table", [], [], [], [])])
  }

  lemma LosingTheTableIsDrift(h: Hashing, connectionId: Uuid, d: MappingDocument)
    ensures var lost := TableLost(h, connectionId, d);
            IsDriftReport(h, TableKept(d), lost.metadata.value, lost.driftSummary.value)
  {
    var name := d.SourceTable();
    var tables := TableKept(d).tables;
    assert tables[0].QualifiedName() == name;
    var oldTables, newTables := Metadata.TablesByName(tables), Metadata.TablesByName([]);
    var events := [TableRemoved(name)];
    forall e | IsEvent(oldTables, newTables, map[], e)
      ensures e in events
    {
      assert e == TableRemoved(name);
    }
    assert IsEvent(oldTables, newTables, map[], events[0]);
    assert RenamesAreBest(h, oldTables, newTables, map[]);
    assert Reports(oldTables, newTables, map[], events);
  }

  /** `later` is what a discovery records when `rows` holds one earlier snapshot of its connection. */
  ghost predicate IsNextDiscovery(h: Hashing, rows: Table<SchemaSnapshot>, tenantId: Uuid, id: Uuid,
                                  later: SchemaSnapshot)
    requires id in rows && rows[id].body.metadata.Some? && later.metadata.Some?
  {
    && Discovery.Recorded(h, rows) && Fingerprinted(h, later)
    && IsLatestEarlier(rows, tenantId, later.connectionId, later.sequenceNumber, Some(id))
    && DriftRecorded(h, rows, tenantId, later, Some(id))
  }

  lemma NextDiscovery(h: Hashing, rows: Table<SchemaSnapshot>, tenantId: Uuid, id: Uuid, later: SchemaSnapshot)
    requires rows.Keys == {id} && rows[id].tenantId == tenantId && rows[id].body.metadata.Some?
    requires later.metadata.Some? && later.driftSummary.Some?
    requires rows[id].body.connectionId == later.connectionId
    requires rows[id].body.sequenceNumber < later.sequenceNumber
    requires rows[id].body.status.Completed? && Fingerprinted(h, rows[id].body) && Fingerprinted(h, later)
    requires IsDriftReport(h, rows[id].body.metadata.value, later.metadata.value, later.driftSummary.value)
    ensures IsNextDiscovery(h, rows, tenantId, id, later)
  {
    assert SequencesUnique(rows);
    forall other | IsEarlier(rows, tenantId, later.connectionId, later.sequenceNumber, other)
      ensures other == id
    {
    }
  }

  /** The rows after a first discovery that found the table. */
  function KeptRows(h: Hashing, tenantId: Uuid, connectionId: Uuid, id: Uuid, d: MappingDocument)
    : (rows: Table<SchemaSnapshot>)
    ensures rows.Keys == {id} && rows[id].tenantId == tenantId && rows[id].body.metadata == Some(TableKept(d))
    ensures rows[id].body.connectionId == connectionId && rows[id].body.sequenceNumber == 1
    ensures rows[id].body.status.Completed? && Fingerprinted(h, rows[id].body)
  {
    map[id := Row(tenantId, Discovered(h, connectionId, 1, TableKept(d), None))]
  }

  /** Losing the table is recorded so by the second discovery of the connection. */
  lemma SecondDiscoveryRecordsTheLoss(h: Hashing, tenantId: Uuid, connectionId: Uuid, id: Uuid, d: MappingDocument)
    ensures IsNextDiscovery(h, KeptRows(h, tenantId, connectionId, id, d), tenantId, id, TableLost(h, connectionId, d))
  {
    LosingTheTableIsDrift(h, connectionId, d);
    NextDiscovery(h, KeptRows(h, tenantId, connectionId, id, d), tenantId, id, TableLost(h, connectionId, d));
  }

  /** Every ACTIVE mapping is exposed: whatever other connection the tenant has, losing a table of the
      same name there is drift that suspends the mapping. */
  lemma DriftElsewhereSuspends(h: Hashing, o: Ontology, s: Store, caller: Caller, id: Uuid, table: string,
                               connectionId: Uuid)
    requires Sound(o, s) && ActiveOn(s, caller.tenantId, id, table)
    requires ConnectionOf(s, caller.tenantId, id) != Some(connectionId)
    ensures exists before, snapshot: SchemaSnapshot ::
              && snapshot.connectionId == connectionId && snapshot.metadata.Some? && snapshot.driftSummary.Some?
              && snapshot.status.Completed? && Fingerprinted(h, snapshot)
              && IsDriftReport(h, before, snapshot.metadata.value, snapshot.driftSummary.value)
              && var answer := Apply(o, s, caller, SuspendAffectedByDrift(snapshot)).1;
                 answer.Suspended? && id in answer.ids
  {
    var d := s.versions[s.mappings[id].body.activeVersionId.value].body.document;
    var snapshot := TableLost(h, connectionId, d);
    LosingTheTableIsDrift(h, connectionId, d);
    assert table == d.SourceTable() && snapshot.driftSummary.value[0].table == table;
    SuspendedExactlyWhenMentioned(o, s, caller, snapshot, id, table);
  }

  /** From nothing to production: the connection's snapshot is recorded, and a mapping of the document
      is drafted against it, submitted, approved and activated. */
  function IntoProduction(caller: Caller, snapshot: SchemaSnapshot, d: MappingDocument, version: string): seq<Call> {
    [Call(caller, RecordSnapshot(1, snapshot)), Call(caller, CreateDraft(1, d, version, 2, 3)),
     Call(caller, SubmitForValidation(2)), Call(caller, Approve(2)), Call(caller, Activate(2))]
  }

  ghost predicate Submittable(o: Ontology, snapshot: SchemaSnapshot, d: MappingDocument, version: string) {
    && snapshot.metadata.Some? && KnownEntity(o, version, d.entity)
    && Validation.Passes(ValidationSetting(o, snapshot.metadata.value, o.entities[version][d.entity], d), d)
  }

  function Drafted(t: Uuid, snapshot: SchemaSnapshot, m: SchemaMapping, v: MappingVersion): Store {
    Store(map[2 := Row(t, m)], map[3 := Row(t, v)], map[1 := Row(t, snapshot)])
  }

  lemma OnlyVersionIsLatest(t: Uuid, snapshot: SchemaSnapshot, m: SchemaMapping, v: MappingVersion)
    requires v.mappingId == 2
    ensures VersionsOf(Drafted(t, snapshot, m, v), t, 2) == map[3 := v]
    ensures LatestOf(map[3 := v]) == Some(3)
  {
    assert IsLatest(map[3 := v], 3);
  }

  /** The store after the first `n` calls. */
  function Stage(caller: Caller, snapshot: SchemaSnapshot, d: MappingDocument, version: string, n: nat): Store {
    var m := SchemaMapping(d.entity, 1, version, Draft, None, false);
    var v := MappingVersion(2, 1, d, caller.principalId, None);
    var checked := v.(approvedBy := Some(caller.principalId));
    match n
    case 0 => EMPTY
    case 1 => Store(map[], map[], map[1 := Row(caller.tenantId, snapshot)])
    case 2 => Drafted(caller.tenantId, snapshot, m, v)
    case 3 => Drafted(caller.tenantId, snapshot, m.(state := PendingValidation), v)
    case 4 => Drafted(caller.tenantId, snapshot, m.(state := Approved), checked)
    case _ => Drafted(caller.tenantId, snapshot, m.(state := Active, activeVersionId := Some(3)), checked)
  }

  lemma NextStage(o: Ontology, caller: Caller, snapshot: SchemaSnapshot, d: MappingDocument, version: string, n: nat)
    requires Submittable(o, snapshot, d, version) && n < 5
    ensures var s, op := Stage(caller, snapshot, d, version, n), IntoProduction(caller, snapshot, d, version)[n].op;
            GeneratesFreshIds(s, op) && Apply(o, s, caller, op).0 == Stage(caller, snapshot, d, version, n + 1)
  {
    var s := Stage(caller, snapshot, d, version, n);
    if n >= 2 {
      var m, v := s.mappings[2].body, s.versions[3].body;
      assert s == Drafted(caller.tenantId, snapshot, m, v);
      OnlyVersionIsLatest(caller.tenantId, snapshot, m, v);
      assert n == 2 ==> SubmissionProblem(o, s.snapshots, caller.tenantId, m, d).None?;
    }
  }

  lemma {:induction false} RunsThroughStages(o: Ontology, caller: Caller, snapshot: SchemaSnapshot, d: MappingDocument,
                                             version: string, n: nat)
    requires Submittable(o, snapshot, d, version) && n <= 5
    ensures var s, run := Stage(caller, snapshot, d, version, n), IntoProduction(caller, snapshot, d, version);
            FreshRun(o, s, run[n..]) && After(o, s, run[n..]) == Stage(caller, snapshot, d, version, 5)
    decreases 5 - n
  {
    if n < 5 {
      var run := IntoProduction(caller, snapshot, d, version);
      NextStage(o, caller, snapshot, d, version, n);
      RunsThroughStages(o, caller, snapshot, d, version, n + 1);
      assert run[n..][0] == run[n] && run[n..][1..] == run[n + 1..] && run[n].caller == caller;
    }
  }

  /** ACTIVE mappings of any connection are reachable, for any document that validates. */
  lemma IntoProductionActivates(o: Ontology, caller: Caller, snapshot: SchemaSnapshot, d: MappingDocument,
                                version: string)
    requires Submittable(o, snapshot, d, version)
    ensures var run := IntoProduction(caller, snapshot, d, version);
            && FreshRun(o, EMPTY, run) && Sound(o, After(o, EMPTY, run))
            && ActiveOn(After(o, EMPTY, run), caller.tenantId, 2, d.SourceTable())
            && After(o, EMPTY, run).mappings.Keys == {2}
            && ConnectionOf(After(o, EMPTY, run), caller.tenantId, 2) == Some(snapshot.connectionId)
  {
    var run := IntoProduction(caller, snapshot, d, version);
    RunsThroughStages(o, caller, snapshot, d, version, 0);
    assert run[0..] == run;
    EmptyIsSound(o);
    ReachableStoresAreSound(o, EMPTY, run);
  }

  /** The whole failing run: the document's mapping, on one connection, is taken out of production
      because a table of the same name disappeared from another. */
  lemma ProductionIsExposedElsewhere(h: Hashing, o: Ontology, caller: Caller, snapshot: SchemaSnapshot,
                                     d: MappingDocument, version: string, other: Uuid)
    requires Submittable(o, snapshot, d, version) && other != snapshot.connectionId
    ensures var s, lost := After(o, EMPTY, IntoProduction(caller, snapshot, d, version)), TableLost(h, other, d);
            && FreshRun(o, EMPTY, IntoProduction(caller, snapshot, d, version))
            && IsDriftReport(h, TableKept(d), lost.metadata.value, lost.driftSummary.value)
            && ConnectionOf(s, caller.tenantId, 2) == Some(snapshot.connectionId) && lost.connectionId == other
            && Apply(o, s, caller, SuspendAffectedByDrift(lost)).1 == Suspended({2})
  {
    var run, lost := IntoProduction(caller, snapshot, d, version), TableLost(h, other, d);
    IntoProductionActivates(o, caller, snapshot, d, version);
    LosingTheTableIsDrift(h, other, d);
    OnlyMappingIsAffected(o, After(o, EMPTY, run), caller, lost, d.SourceTable());
  }

  lemma OnlyMappingIsAffected(o: Ontology, s: Store, caller: Caller, lost: SchemaSnapshot, table: string)
    requires Sound(o, s) && s.mappings.Keys == {2} && ActiveOn(s, caller.tenantId, 2, table)
    requires lost.driftSummary == Some([TableRemoved(table)])
    ensures Apply(o, s, caller, SuspendAffectedByDrift(lost)).1 == Suspended({2})
  {
    assert lost.driftSummary.value[0].table == table;
    SuspendedExactlyWhenMentioned(o, s, caller, lost, 2, table);
  }

  const DRIVERS: MappingDocument :=
    MappingDocument("Driver", "app", "drivers", map["id" := FieldMapping([FromColumn("id", None, None)], Null)], map[],
                    [])

  function DriverOntology(): Ontology {
    Ontology(map["v1" := map["Driver" :=
                               EntityDefinition("Driver", map["id" := FieldDefinition(true, false, {}, None)], {})]],
             (from, to) => false)
  }

  const DRIVER_TABLE: Metadata.Table :=
    Metadata.Table("app", "drivers", "table", [Metadata.Column("id", "INTEGER", false)], ["id"], [], [])

  function DriverSnapshot(h: Hashing, connectionId: Uuid): SchemaSnapshot {
    Discovered(h, connectionId, 1, Metadata.Introspection(["app"], [DRIVER_TABLE]), None)
  }

  lemma DriversAreSubmittable(snapshot: SchemaSnapshot)
    requires snapshot.metadata == Some(Metadata.Introspection(["app"], [DRIVER_TABLE]))
    ensures Submittable(DriverOntology(), snapshot, DRIVERS, "v1")
  {
    var o := DriverOntology();
    var entity := o.entities["v1"]["Driver"];
    var tables := snapshot.metadata.value.tables;
    assert FindTable(tables, DRIVERS.SourceTable()) == Some(tables[0]);
    assert tables[0].columns[0] in tables[0].columns;
    assert "id" in ColumnNames(tables[0]);
    var setting := ValidationSetting(o, snapshot.metadata.value, entity, DRIVERS);
    forall e
      ensures !Validation.IsError(setting, DRIVERS, e)
    {
    }
  }

  lemma DriversAreExposedElsewhere(h: Hashing, caller: Caller)
    ensures var o, lost := DriverOntology(), TableLost(h, 200, DRIVERS);
            var s := After(o, EMPTY, IntoProduction(caller, DriverSnapshot(h, 100), DRIVERS, "v1"));
            && ConnectionOf(s, caller.tenantId, 2) == Some(100) && lost.connectionId == 200
            && Apply(o, s, caller, SuspendAffectedByDrift(lost)).1 == Suspended({2})
  {
    DriversAreSubmittable(DriverSnapshot(h, 100));
    ProductionIsExposedElsewhere(h, DriverOntology(), caller, DriverSnapshot(h, 100), DRIVERS, "v1", 200);
  }

  /** After a discovery that found the mapping's table removed, renamed or changed has been acted on,
      no run of further calls makes either query serve the mapping again before a strictly newer
      version of it is active. */
  lemma DriftedMappingsServeNothingUntilNewer(h: Hashing, o: Ontology, s: Store, caller: Caller,
                                              snapshot: SchemaSnapshot,
                                              before: Metadata.Introspection, after: Metadata.Introspection, id: Uuid,
                                              table: string, calls: seq<Call>, reader: Caller, query: Op)
    requires Sound(o, s) && ActiveOn(s, caller.tenantId, id, table)
    requires snapshot.driftSummary.Some? && IsDriftReport(h, before, after, snapshot.driftSummary.value)
    requires table in Metadata.TablesByName(before.tables)
    requires var newTables := Metadata.TablesByName(after.tables);
             table !in newTables || !Unchanged(Metadata.TablesByName(before.tables)[table], newTables[table])
    requires FreshRun(o, Apply(o, s, caller, SuspendAffectedByDrift(snapshot)).0, calls)
    ensures var later := After(o, Apply(o, s, caller, SuspendAffectedByDrift(snapshot)).0, calls);
            var answer := Apply(o, later, reader, query).1;
            answer.Served? && answer.version.mappingId == id ==>
              answer.version.number > NumberOf(s, s.mappings[id].body.activeVersionId.value)
  {
    var s' := Apply(o, s, caller, SuspendAffectedByDrift(snapshot)).0;
    SuspensionIsExact(h, o, s, caller, snapshot, before, after, id, table);
    ApplyKeepsSound(o, s, caller, SuspendAffectedByDrift(snapshot));
    SuspendedServesNothingUntilNewer(o, s', calls, id, reader, query);
  }
}
