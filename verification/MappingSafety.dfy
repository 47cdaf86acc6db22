/** What holds of every mapping in every reachable state of the mapping service, over whole runs of
    calls by any number of tenants. */
module MappingSafety {
  import opened Common
  import opened Documents
  import opened Repository
  import opened Snapshots
  import opened MappingLifecycle

  // ---- the invariant -----------------------------------------------------------------------------

  /** The version numbers are exactly 1..n, each used once. */
  ghost predicate NumberedFromOne(versions: map<Uuid, MappingVersion>) {
    && (forall id :: id in versions ==> 1 <= versions[id].number <= |versions|)
    && (forall i, j :: i in versions && j in versions && versions[i].number == versions[j].number ==> i == j)
    && (forall n :: 1 <= n <= |versions| ==> HasNumber(versions, n))
  }

  ghost predicate HasNumber(versions: map<Uuid, MappingVersion>, n: nat) {
    exists id :: id in versions && versions[id].number == n
  }

  /** `id` is the newest version. */
  ghost predicate IsNewest(versions: map<Uuid, MappingVersion>, id: Uuid) {
    id in versions && versions[id].number == |versions|
  }

  /** How far the newest version `id` has come, by the mapping's state. */
  ghost predicate StateSound(o: Ontology, snapshots: Table<SchemaSnapshot>, tenantId: Uuid, m: SchemaMapping,
                             versions: map<Uuid, MappingVersion>, id: Uuid)
    requires id in versions
  {
    var v := versions[id];
    && (v.approvedBy.Some? <==> m.state.Approved? || m.state.Active? || m.state.Deprecated?)
    && (m.activeVersionId == Some(id) <==> m.state.Active? || m.state.Deprecated?)
    && (m.state.PendingValidation? || v.approvedBy.Some? ==>
          SubmissionProblem(o, snapshots, tenantId, m, v.document).None?)
  }

  ghost predicate MappingSound(o: Ontology, snapshots: Table<SchemaSnapshot>, tenantId: Uuid, m: SchemaMapping,
                               versions: map<Uuid, MappingVersion>) {
    && NumberedFromOne(versions)
    && (exists id :: IsNewest(versions, id))
    && (forall id :: IsNewest(versions, id) ==> StateSound(o, snapshots, tenantId, m, versions, id))
    && (m.activeVersionId.Some? ==>
          m.activeVersionId.value in versions && versions[m.activeVersionId.value].approvedBy.Some?)
    && (m.suspendedDueToDrift ==> m.activeVersionId.Some?)
  }

  ghost predicate MappingAt(o: Ontology, s: Store, id: Uuid)
    requires id in s.mappings
  {
    var t := s.mappings[id].tenantId;
    MappingSound(o, s.snapshots, t, s.mappings[id].body, VersionsOf(s, t, id))
  }

  /** Every version belongs to a mapping of its own tenant. */
  ghost predicate VersionsOwned(s: Store) {
    forall v :: v in s.versions ==>
      s.versions[v].body.mappingId in s.mappings
        && s.mappings[s.versions[v].body.mappingId].tenantId == s.versions[v].tenantId
  }

  ghost predicate Sound(o: Ontology, s: Store) {
    && VersionsOwned(s)
    && (forall id :: id in s.mappings ==> MappingAt(o, s, id))
  }

  lemma NewestIsLatest(versions: map<Uuid, MappingVersion>, id: Uuid)
    requires NumberedFromOne(versions) && IsNewest(versions, id)
    ensures LatestOf(versions) == Some(id) && HighestNumber(versions) == |versions|
  {
    assert IsLatest(versions, id);
    var latest := LatestOf(versions).value;
    assert IsLatest(versions, latest);
  }

  // ---- one mapping at a time ------------------------------------------------------------------------

  lemma FirstVersion(o: Ontology, snapshots: Table<SchemaSnapshot>, tenantId: Uuid, m: SchemaMapping, id: Uuid,
                     v: MappingVersion)
    requires m.state.Draft? && m.activeVersionId.None? && !m.suspendedDueToDrift && v.number == 1 && v.approvedBy.None?
    ensures MappingSound(o, snapshots, tenantId, m, map[id := v])
  {
    var versions := map[id := v];
    assert IsNewest(versions, id);
    assert HasNumber(versions, 1);
  }

  lemma NextVersion(o: Ontology, snapshots: Table<SchemaSnapshot>, tenantId: Uuid, m: SchemaMapping,
                    versions: map<Uuid, MappingVersion>, id: Uuid, v: MappingVersion)
    requires MappingSound(o, snapshots, tenantId, m, versions)
    requires id !in versions && v.number == |versions| + 1 && v.approvedBy.None?
    ensures MappingSound(o, snapshots, tenantId, m.(state := Draft), versions[id := v])
  {
    var more := versions[id := v];
    assert |more| == |versions| + 1;
    assert IsNewest(more, id);
    forall n | 1 <= n <= |more|
      ensures HasNumber(more, n)
    {
      if n == |more| {
        assert id in more && more[id].number == n;
      } else {
        assert HasNumber(versions, n);
        var same :| same in versions && versions[same].number == n;
        assert same in more && more[same].number == n;
      }
    }
  }

  lemma ApprovedVersion(o: Ontology, snapshots: Table<SchemaSnapshot>, tenantId: Uuid, m: SchemaMapping,
                        versions: map<Uuid, MappingVersion>, id: Uuid, approver: Uuid)
    requires MappingSound(o, snapshots, tenantId, m, versions) && m.state.PendingValidation? && IsNewest(versions, id)
    ensures MappingSound(o, snapshots, tenantId, m.(state := Approved),
                         versions[id := versions[id].(approvedBy := Some(approver))])
  {
    var after := versions[id := versions[id].(approvedBy := Some(approver))];
    assert after.Keys == versions.Keys;
    assert |after| == |versions|;
    assert IsNewest(after, id);
    forall n | 1 <= n <= |after|
      ensures HasNumber(after, n)
    {
      assert HasNumber(versions, n);
      var same :| same in versions && versions[same].number == n;
      assert same in after && after[same].number == n;
    }
  }

  /** The remaining transitions leave the versions alone. */
  lemma MovedMapping(o: Ontology, snapshots: Table<SchemaSnapshot>, tenantId: Uuid, m: SchemaMapping, m': SchemaMapping,
                     versions: map<Uuid, MappingVersion>, id: Uuid)
    requires MappingSound(o, snapshots, tenantId, m, versions) && IsNewest(versions, id)
    requires m'.snapshotId == m.snapshotId && m'.ontologyVersion == m.ontologyVersion && m'.entityName == m.entityName
    requires
      || (m.state.Draft? && m' == m.(state := PendingValidation)
          && SubmissionProblem(o, snapshots, tenantId, m, versions[id].document).None?)
      || (m.state.Approved? && m' == m.(activeVersionId := Some(id), state := Active, suspendedDueToDrift := false))
      || (m.state.Active? && m' == m.(state := Deprecated))
      || ((m.state.Draft? || m.state.PendingValidation?) && m' == m.(state := Rejected))
      || (m.state.Active? && m' == m.(suspendedDueToDrift := true))
    ensures MappingSound(o, snapshots, tenantId, m', versions)
  {
    forall newest | IsNewest(versions, newest)
      ensures newest == id
    {
    }
  }

  // ---- one call -----------------------------------------------------------------------------------------

  /** Writing a version shows only in its own mapping's list. */
  lemma VersionsAfterWrite(s: Store, tenantId: Uuid, id: Uuid, v: MappingVersion, t: Uuid, mappingId: Uuid)
    requires id in s.versions ==> s.versions[id].tenantId == tenantId && s.versions[id].body.mappingId == v.mappingId
    ensures VersionsOf(SetVersion(s, tenantId, id, v), t, mappingId)
            == if t == tenantId && mappingId == v.mappingId then VersionsOf(s, t, mappingId)[id := v]
               else VersionsOf(s, t, mappingId)
  {
  }

  lemma VersionsAfterMove(s: Store, tenantId: Uuid, id: Uuid, m: SchemaMapping, t: Uuid, mappingId: Uuid)
    ensures VersionsOf(SetMapping(s, tenantId, id, m), t, mappingId) == VersionsOf(s, t, mappingId)
  {
  }

  lemma MoveKeepsSound(o: Ontology, s: Store, tenantId: Uuid, id: Uuid, m: SchemaMapping)
    requires Sound(o, s) && id in s.mappings && s.mappings[id].tenantId == tenantId
    requires MappingSound(o, s.snapshots, tenantId, m, VersionsOf(s, tenantId, id))
    ensures Sound(o, SetMapping(s, tenantId, id, m))
  {
    var s' := SetMapping(s, tenantId, id, m);
    forall other | other in s'.mappings
      ensures MappingAt(o, s', other)
    {
      VersionsAfterMove(s, tenantId, id, m, s'.mappings[other].tenantId, other);
      if other != id {
        assert MappingAt(o, s, other);
      }
    }
  }

  lemma WriteKeepsSound(o: Ontology, s: Store, tenantId: Uuid, id: Uuid, m: SchemaMapping, versionId: Uuid,
                        v: MappingVersion)
    requires Sound(o, s) && v.mappingId == id
    requires id in s.mappings ==> s.mappings[id].tenantId == tenantId
    requires versionId in s.versions ==>
               s.versions[versionId].tenantId == tenantId && s.versions[versionId].body.mappingId == id
    requires MappingSound(o, s.snapshots, tenantId, m, VersionsOf(s, tenantId, id)[versionId := v])
    ensures Sound(o, SetMapping(SetVersion(s, tenantId, versionId, v), tenantId, id, m))
  {
    var s1 := SetVersion(s, tenantId, versionId, v);
    var s' := SetMapping(s1, tenantId, id, m);
    forall other | other in s'.mappings
      ensures MappingAt(o, s', other)
    {
      var t := s'.mappings[other].tenantId;
      VersionsAfterMove(s1, tenantId, id, m, t, other);
      VersionsAfterWrite(s, tenantId, versionId, v, t, other);
      if other != id {
        assert MappingAt(o, s, other);
      }
    }
  }

  lemma CreateDraftKeeps(o: Ontology, s: Store, caller: Caller, op: Op)
    requires Sound(o, s) && GeneratesFreshIds(s, op) && op.CreateDraft?
    ensures Sound(o, Apply(o, s, caller, op).0)
  {
    var s' := Apply(o, s, caller, op).0;
    var t, id := caller.tenantId, op.newMappingId;
    var m, v := s'.mappings[id].body, s'.versions[op.newVersionId].body;
    FirstVersionIsAlone(s, t, id, op.newVersionId, v);
    FirstVersion(o, s.snapshots, t, m, op.newVersionId, v);
    WriteKeepsSound(o, s, t, id, m, op.newVersionId, v);
  }

  lemma FirstVersionIsAlone(s: Store, tenantId: Uuid, id: Uuid, versionId: Uuid, v: MappingVersion)
    requires VersionsOwned(s) && id !in s.mappings
    ensures VersionsOf(s, tenantId, id)[versionId := v] == map[versionId := v]
  {
    assert forall x :: x in s.versions ==> s.versions[x].body.mappingId != id;
    assert forall x :: x !in VersionsOf(s, tenantId, id);
  }

  /** The newest version of a mapping is the one the service finds. */
  lemma NewestOf(o: Ontology, s: Store, tenantId: Uuid, id: Uuid, m: SchemaMapping) returns (newest: Uuid)
    requires Sound(o, s) && Get(s.mappings, id, tenantId) == Some(m)
    ensures var versions := VersionsOf(s, tenantId, id);
            MappingSound(o, s.snapshots, tenantId, m, versions) && IsNewest(versions, newest)
            && LatestOf(versions) == Some(newest) && HighestNumber(versions) == |versions|
  {
    assert MappingAt(o, s, id);
    newest :| IsNewest(VersionsOf(s, tenantId, id), newest);
    NewestIsLatest(VersionsOf(s, tenantId, id), newest);
  }

  lemma RedraftedMapping(o: Ontology, s: Store, tenantId: Uuid, id: Uuid, m: SchemaMapping, versionId: Uuid,
                         v: MappingVersion)
    requires Sound(o, s) && versionId !in s.versions && Get(s.mappings, id, tenantId) == Some(m)
    requires v.number == HighestNumber(VersionsOf(s, tenantId, id)) + 1 && v.approvedBy.None?
    ensures MappingSound(o, s.snapshots, tenantId, m.(state := Draft), VersionsOf(s, tenantId, id)[versionId := v])
  {
    var newest := NewestOf(o, s, tenantId, id, m);
    NextVersion(o, s.snapshots, tenantId, m, VersionsOf(s, tenantId, id), versionId, v);
  }

  lemma RedraftKeeps(o: Ontology, s: Store, caller: Caller, id: Uuid, m: SchemaMapping, versionId: Uuid,
                     document: MappingDocument, s': Store)
    requires Sound(o, s) && versionId !in s.versions && Get(s.mappings, id, caller.tenantId) == Some(m)
    requires s' == Redrafted(s, caller, id, m, versionId, document).0
    ensures Sound(o, s')
  {
    var v := s'.versions[versionId].body;
    RedraftedMapping(o, s, caller.tenantId, id, m, versionId, v);
    WriteKeepsSound(o, s, caller.tenantId, id, m.(state := Draft), versionId, v);
  }

  lemma ApproveKeeps(o: Ontology, s: Store, caller: Caller, op: Op, m: SchemaMapping, s': Store)
    requires Sound(o, s) && op.Approve? && Get(s.mappings, op.mappingId, caller.tenantId) == Some(m)
    requires s' == ApplyToMapping(o, s, caller, op, m).0
    ensures Sound(o, s')
  {
    var t, id := caller.tenantId, op.mappingId;
    if m.state.PendingValidation? {
      var versions := VersionsOf(s, t, id);
      var newest := NewestOf(o, s, t, id, m);
      ApprovedVersion(o, s.snapshots, t, m, versions, newest, caller.principalId);
      WriteKeepsSound(o, s, t, id, m.(state := Approved), newest,
                      versions[newest].(approvedBy := Some(caller.principalId)));
    }
  }

  lemma MoveKeeps(o: Ontology, s: Store, caller: Caller, op: Op, m: SchemaMapping, s': Store, answer: Answer)
    requires Sound(o, s) && (op.SubmitForValidation? || op.Activate? || op.Deprecate? || op.Reject?)
    requires Get(s.mappings, op.mappingId, caller.tenantId) == Some(m)
    requires (s', answer) == ApplyToMapping(o, s, caller, op, m)
    ensures Sound(o, s')
  {
    var t, id := caller.tenantId, op.mappingId;
    if answer.Updated? {
      var versions := VersionsOf(s, t, id);
      var newest := NewestOf(o, s, t, id, m);
      MovedMapping(o, s.snapshots, t, m, answer.mapping, versions, newest);
      MoveKeepsSound(o, s, t, id, answer.mapping);
    }
  }

  lemma SuspendKeepsMapping(o: Ontology, s: Store, tenantId: Uuid, affected: set<string>, id: Uuid, s': Store)
    requires s' == SuspendAll(s, tenantId, affected) && id in s.mappings && MappingAt(o, s, id)
    ensures MappingAt(o, s', id)
  {
    var t := s.mappings[id].tenantId;
    var versions := VersionsOf(s, t, id);
    assert VersionsOf(s', t, id) == versions;
    if IsAffected(s, tenantId, id, affected) {
      var newest :| IsNewest(versions, newest);
      MovedMapping(o, s.snapshots, t, s.mappings[id].body, s'.mappings[id].body, versions, newest);
    }
  }

  lemma SuspendKeeps(o: Ontology, s: Store, tenantId: Uuid, affected: set<string>, s': Store)
    requires Sound(o, s) && s' == SuspendAll(s, tenantId, affected)
    ensures Sound(o, s')
  {
    forall id | id in s'.mappings
      ensures MappingAt(o, s', id)
    {
      SuspendKeepsMapping(o, s, tenantId, affected, id, s');
    }
  }

  lemma RecordSnapshotKeeps(o: Ontology, s: Store, caller: Caller, op: Op)
    requires Sound(o, s) && GeneratesFreshIds(s, op) && op.RecordSnapshot?
    ensures Sound(o, Apply(o, s, caller, op).0)
  {
    var s' := Apply(o, s, caller, op).0;
    forall id | id in s'.mappings
      ensures MappingAt(o, s', id)
    {
      var t := s.mappings[id].tenantId;
      assert MappingAt(o, s, id);
      assert VersionsOf(s', t, id) == VersionsOf(s, t, id);
    }
  }

  lemma MappingCallKeepsSound(o: Ontology, s: Store, caller: Caller, op: Op, m: SchemaMapping, s': Store,
                              answer: Answer)
    requires Sound(o, s) && GeneratesFreshIds(s, op) && ConcernsOneMapping(op)
    requires Get(s.mappings, op.mappingId, caller.tenantId) == Some(m)
    requires (s', answer) == ApplyToMapping(o, s, caller, op, m)
    ensures Sound(o, s')
  {
    if op.CreateNewVersion? {
      RedraftKeeps(o, s, caller, op.mappingId, m, op.versionId, op.newDocument, s');
    } else if op.Approve? {
      ApproveKeeps(o, s, caller, op, m, s');
    } else if !op.GetProductionVersion? {
      MoveKeeps(o, s, caller, op, m, s', answer);
    }
  }

  lemma ApplyKeepsSound(o: Ontology, s: Store, caller: Caller, op: Op)
    requires Sound(o, s) && GeneratesFreshIds(s, op)
    ensures Sound(o, Apply(o, s, caller, op).0)
  {
    match op
    case CreateDraft(_, _, _, _, _) => CreateDraftKeeps(o, s, caller, op);
    case SuspendAffectedByDrift(snapshot) =>
      SuspendKeeps(o, s, caller.tenantId, AffectedTables(snapshot), Apply(o, s, caller, op).0);
    case RecordSnapshot(_, _) => RecordSnapshotKeeps(o, s, caller, op);
    case Resolve(_) =>
    case _ =>
      var m := Get(s.mappings, op.mappingId, caller.tenantId);
      if m.Some? {
        var (s', answer) := ApplyToMapping(o, s, caller, op, m.value);
        MappingCallKeepsSound(o, s, caller, op, m.value, s', answer);
      }
  }
}
