/** What the mapping service and the resolver serve: only approved, validated, newest versions of
    mappings that are ACTIVE and not suspended. */
module MappingServing {
  import opened Common
  import opened Repository
  import opened MappingLifecycle
  import opened MappingSafety
  import opened MappingHistory
  import Metadata = SchemaMetadata
  import Expressions
  import Validation

  /** In every state reached from an empty store: versions are numbered exactly 1..n; an ACTIVE mapping's
      active version is the newest, approved and validated; and a draft or rejected one's newest
      version has neither been approved nor activated. */
  lemma ReachableMappings(o: Ontology, calls: seq<Call>, id: Uuid, newest: Uuid)
    requires FreshRun(o, EMPTY, calls) && id in After(o, EMPTY, calls).mappings
    requires var s := After(o, EMPTY, calls); IsNewest(VersionsOf(s, s.mappings[id].tenantId, id), newest)
    ensures var s := After(o, EMPTY, calls);
            var t, m := s.mappings[id].tenantId, s.mappings[id].body;
            var versions := VersionsOf(s, t, id);
            && NumberedFromOne(versions)
            && (m.state.Active? ==> m.activeVersionId == Some(newest) && versions[newest].approvedBy.Some?
                                    && SubmissionProblem(o, s.snapshots, t, m, versions[newest].document).None?)
            && (m.state.Draft? || m.state.Rejected? ==>
                  m.activeVersionId != Some(newest) && versions[newest].approvedBy.None?)
            && (m.suspendedDueToDrift ==> m.activeVersionId.Some? && m.activeVersionId.value in versions)
  {
    EmptyIsSound(o);
    ReachableStoresAreSound(o, EMPTY, calls);
    var s := After(o, EMPTY, calls);
    assert MappingAt(o, s, id);
    assert StateSound(o, s.snapshots, s.mappings[id].tenantId, s.mappings[id].body,
                      VersionsOf(s, s.mappings[id].tenantId, id), newest);
  }

  /** `v` is what production may use of the mapping: newest, active, approved and validated. */
  ghost predicate ProductionReady(o: Ontology, s: Store, tenantId: Uuid, id: Uuid, v: MappingVersion) {
    && id in s.mappings && s.mappings[id].tenantId == tenantId
    && var m, versions := s.mappings[id].body, VersionsOf(s, tenantId, id);
       && m.state.Active? && !m.suspendedDueToDrift && m.activeVersionId.Some?
       && IsNewest(versions, m.activeVersionId.value) && versions[m.activeVersionId.value] == v
       && v.approvedBy.Some?
       && SubmissionProblem(o, s.snapshots, tenantId, m, v.document).None?
  }

  lemma ActiveIsReady(o: Ontology, s: Store, tenantId: Uuid, id: Uuid, m: SchemaMapping)
    requires Sound(o, s) && Get(s.mappings, id, tenantId) == Some(m) && m.state.Active? && !m.suspendedDueToDrift
    ensures m.activeVersionId.Some? && m.activeVersionId.value in VersionsOf(s, tenantId, id)
    ensures ProductionReady(o, s, tenantId, id, VersionsOf(s, tenantId, id)[m.activeVersionId.value])
    ensures forall otherwise ::
              ServeActive(s, tenantId, m, otherwise) == Served(VersionsOf(s, tenantId, id)[m.activeVersionId.value])
  {
    var newest := NewestOf(o, s, tenantId, id, m);
    assert StateSound(o, s.snapshots, tenantId, m, VersionsOf(s, tenantId, id), newest);
  }

  /** The production query serves a mapping exactly when it is the tenant's, ACTIVE and not
      suspended, and what it serves is ready for production. */
  lemma ProductionQueryIsExact(o: Ontology, s: Store, caller: Caller, id: Uuid)
    requires Sound(o, s)
    ensures var answer := Apply(o, s, caller, GetProductionVersion(id)).1;
            var m := Get(s.mappings, id, caller.tenantId);
            && (answer.Served? <==> m.Some? && m.value.state.Active? && !m.value.suspendedDueToDrift)
            && (answer.Served? ==> ProductionReady(o, s, caller.tenantId, id, answer.version))
            && (!answer.Served? ==> answer == Refused(if m.None? then NotFound(id) else NotProductionReady))
  {
    match Get(s.mappings, id, caller.tenantId)
    case None =>
    case Some(m) =>
      if m.state.Active? && !m.suspendedDueToDrift {
        ActiveIsReady(o, s, caller.tenantId, id, m);
      }
  }

  /** The resolver serves an entity exactly when one mapping of it is ACTIVE and that one is not
      suspended; two ACTIVE mappings of an entity, which nothing prevents, make it fail. */
  lemma ResolverIsExact(o: Ontology, s: Store, caller: Caller, entityName: string)
    requires Sound(o, s)
    ensures var answer := Apply(o, s, caller, Resolve(entityName)).1;
            var active := ActiveFor(s, caller.tenantId, entityName);
            && (answer == Refused(SeveralActive) <==> |active| > 1)
            && (answer.Served? <==> exists id :: active == {id} && !s.mappings[id].body.suspendedDueToDrift)
            && (forall id :: active == {id} && answer.Served? ==>
                  ProductionReady(o, s, caller.tenantId, id, answer.version))
            && (answer.Served? || answer == NothingToServe || answer == Refused(SeveralActive))
  {
    var active := ActiveFor(s, caller.tenantId, entityName);
    if |active| <= 1 && exists id :: id in active {
      var id :| id in active;
      ResolvedIs(s, caller.tenantId, entityName, id);
      if !s.mappings[id].body.suspendedDueToDrift {
        ActiveIsReady(o, s, caller.tenantId, id, s.mappings[id].body);
      }
    }
  }

  /** Whatever either query serves is ready for production under one of the caller's own mappings. */
  lemma OnlyProductionReadyIsServed(o: Ontology, s: Store, caller: Caller, op: Op)
    requires Sound(o, s) && Apply(o, s, caller, op).1.Served?
    ensures exists id :: ProductionReady(o, s, caller.tenantId, id, Apply(o, s, caller, op).1.version)
  {
    if op.GetProductionVersion? {
      ProductionQueryIsExact(o, s, caller, op.mappingId);
    } else {
      ResolverIsExact(o, s, caller, op.entityName);
    }
  }

  /** Once suspended, a mapping serves nothing, by either query, until a strictly newer version than
      the one suspended is active. */
  lemma SuspendedServesNothingUntilNewer(o: Ontology, s: Store, calls: seq<Call>, id: Uuid, caller: Caller, op: Op)
    requires Sound(o, s) && FreshRun(o, s, calls)
    requires id in s.mappings && s.mappings[id].body.suspendedDueToDrift
    ensures s.mappings[id].body.activeVersionId.Some?
    ensures var answer := Apply(o, After(o, s, calls), caller, op).1;
            answer.Served? && answer.version.mappingId == id ==>
              answer.version.number > NumberOf(s, s.mappings[id].body.activeVersionId.value)
  {
    var later := After(o, s, calls);
    assert MappingAt(o, s, id);
    ReachableStoresAreSound(o, s, calls);
    RunsOnlyMoveForward(o, s, calls);
    var answer := Apply(o, later, caller, op).1;
    if answer.Served? && answer.version.mappingId == id {
      OnlyProductionReadyIsServed(o, later, caller, op);
      var served :| ProductionReady(o, later, caller.tenantId, served, answer.version);
      assert served == id;
    }
  }

  // ---- drafting ----------------------------------------------------------------------------------

  ghost predicate Activates(c: Call, tenantId: Uuid, id: Uuid) {
    c.op.Activate? && c.op.mappingId == id && c.caller.tenantId == tenantId
  }

  ghost predicate Inactive(s: Store, tenantId: Uuid, id: Uuid) {
    id in s.mappings && s.mappings[id].tenantId == tenantId && !s.mappings[id].body.state.Active?
  }

  lemma OnlyActivateMakesActive(o: Ontology, s: Store, c: Call, tenantId: Uuid, id: Uuid, s': Store)
    requires GeneratesFreshIds(s, c.op) && s' == Apply(o, s, c.caller, c.op).0
    requires Inactive(s, tenantId, id) && !Activates(c, tenantId, id)
    ensures Inactive(s', tenantId, id)
  {
    if ConcernsOneMapping(c.op) {
      match Get(s.mappings, c.op.mappingId, c.caller.tenantId)
      case None =>
      case Some(m) => assert s' == ApplyToMapping(o, s, c.caller, c.op, m).0;
    }
  }

  lemma {:induction false} StaysInactive(o: Ontology, s: Store, calls: seq<Call>, tenantId: Uuid, id: Uuid)
    requires FreshRun(o, s, calls) && Inactive(s, tenantId, id)
    requires forall c :: c in calls ==> !Activates(c, tenantId, id)
    ensures Inactive(After(o, s, calls), tenantId, id)
    decreases |calls|
  {
    if calls != [] {
      var next := Apply(o, s, calls[0].caller, calls[0].op).0;
      OnlyActivateMakesActive(o, s, calls[0], tenantId, id, next);
      StaysInactive(o, next, calls[1..], tenantId, id);
    }
  }

  /** Drafting a new version keeps the old active version on record, but takes it out of production
      at once: until the mapping is activated again, neither query serves any version of it. */
  lemma DraftingStopsServing(o: Ontology, s: Store, caller: Caller, draft: Op, calls: seq<Call>, reader: Caller,
                             query: Op)
    requires Sound(o, s) && draft.CreateNewVersion? && FreshRun(o, s, [Call(caller, draft)] + calls)
    requires Get(s.mappings, draft.mappingId, caller.tenantId).Some?
    requires forall c :: c in calls ==> !Activates(c, caller.tenantId, draft.mappingId)
    ensures Get(Apply(o, s, caller, draft).0.mappings, draft.mappingId, caller.tenantId).value.activeVersionId
            == Get(s.mappings, draft.mappingId, caller.tenantId).value.activeVersionId
    ensures var answer := Apply(o, After(o, s, [Call(caller, draft)] + calls), reader, query).1;
            answer.Served? ==> answer.version.mappingId != draft.mappingId
  {
    var run := [Call(caller, draft)] + calls;
    assert run[1..] == calls;
    var drafted := Apply(o, s, caller, draft).0;
    ApplyKeepsSound(o, s, caller, draft);
    StaysInactive(o, drafted, calls, caller.tenantId, draft.mappingId);
    var later := After(o, s, run);
    ReachableStoresAreSound(o, drafted, calls);
    var answer := Apply(o, later, reader, query).1;
    if answer.Served? {
      OnlyProductionReadyIsServed(o, later, reader, query);
      var served :| ProductionReady(o, later, reader.tenantId, served, answer.version);
    }
  }

  // ---- evaluation -----------------------------------------------------------------------------------

  /** A served document evaluates: if the mapping's snapshot has the document's source table, every
      derived source in effect succeeds on every row of that table. */
  lemma ServedDocumentsEvaluate(o: Ontology, s: Store, tenantId: Uuid, id: Uuid, v: MappingVersion,
                                table: Metadata.Table,
                                ops: Expressions.TextOps, field: string, i: nat, row: Expressions.Record)
    requires ProductionReady(o, s, tenantId, id, v)
    requires var snapshot := Get(s.snapshots, s.mappings[id].body.snapshotId, tenantId);
             snapshot.Some? && snapshot.value.metadata.Some?
               && FindTable(snapshot.value.metadata.value.tables, v.document.SourceTable()) == Some(table)
    requires field in v.document.AllFields() && i < |v.document.AllFields()[field].sources|
    requires v.document.AllFields()[field].sources[i].Derived?
    requires ColumnNames(table) <= row.Keys
    ensures Expressions.Evaluate(ops, v.document.AllFields()[field].sources[i].expression, row).Ok?
  {
    var m := s.mappings[id].body;
    var snapshot := Get(s.snapshots, m.snapshotId, tenantId).value;
    var setting :=
      ValidationSetting(o, snapshot.metadata.value, o.entities[m.ontologyVersion][m.entityName], v.document);
    Validation.PassingMeansSafe(setting, v.document, field);
    Validation.SafeExpressionsEvaluate(ops, v.document.AllFields()[field].sources[i].expression, ColumnNames(table),
                                       row);
  }
}
