/** Tenants do not interfere: whatever other tenants do in between, a tenant's part of the store and
    every answer it gets are those of a run of its own calls alone. */
module MappingIsolation {
  import opened Common
  import opened Documents
  import opened Repository
  import opened MappingLifecycle
  import opened MappingHistory

  function Slice(s: Store, tenantId: Uuid): Store {
    Store(OwnedBy(s.mappings, tenantId), OwnedBy(s.versions, tenantId), OwnedBy(s.snapshots, tenantId))
  }

  lemma SliceHasSameVersions(s: Store, tenantId: Uuid, id: Uuid)
    ensures VersionsOf(Slice(s, tenantId), tenantId, id) == VersionsOf(s, tenantId, id)
    ensures Get(Slice(s, tenantId).mappings, id, tenantId) == Get(s.mappings, id, tenantId)
    ensures Get(Slice(s, tenantId).snapshots, id, tenantId) == Get(s.snapshots, id, tenantId)
    ensures Get(Slice(s, tenantId).versions, id, tenantId) == Get(s.versions, id, tenantId)
  {
  }

  lemma SliceOfMappingWrite(s: Store, writer: Uuid, id: Uuid, m: SchemaMapping, tenantId: Uuid)
    requires id in s.mappings ==> s.mappings[id].tenantId == writer
    ensures Slice(SetMapping(s, writer, id, m), tenantId)
            == if tenantId == writer then SetMapping(Slice(s, tenantId), writer, id, m) else Slice(s, tenantId)
  {
    SliceOfWrite(s.mappings, id, writer, m, tenantId);
  }

  lemma SliceOfVersionWrite(s: Store, writer: Uuid, id: Uuid, v: MappingVersion, tenantId: Uuid)
    requires id in s.versions ==> s.versions[id].tenantId == writer
    ensures Slice(SetVersion(s, writer, id, v), tenantId)
            == if tenantId == writer then SetVersion(Slice(s, tenantId), writer, id, v) else Slice(s, tenantId)
  {
    SliceOfWrite(s.versions, id, writer, v, tenantId);
  }

  lemma SliceOfSuspension(s: Store, writer: Uuid, affected: set<string>, tenantId: Uuid)
    ensures Slice(SuspendAll(s, writer, affected), tenantId)
            == if tenantId == writer then SuspendAll(Slice(s, tenantId), writer, affected) else Slice(s, tenantId)
    ensures AffectedMappings(Slice(s, writer), writer, affected) == AffectedMappings(s, writer, affected)
  {
    forall id
      ensures IsAffected(Slice(s, writer), writer, id, affected) <==> IsAffected(s, writer, id, affected)
    {
      if id in s.mappings && s.mappings[id].tenantId == writer && s.mappings[id].body.activeVersionId.Some? {
        SliceHasSameVersions(s, writer, s.mappings[id].body.activeVersionId.value);
      }
    }
    var lhs, rhs := Slice(SuspendAll(s, writer, affected), tenantId),
      if tenantId == writer then SuspendAll(Slice(s, tenantId), writer, affected) else Slice(s, tenantId);
    assert lhs.mappings == rhs.mappings;
  }

  // ---- one call ------------------------------------------------------------------------------------

  /** What a call does to a tenant's slice: as if on the slice alone if it is the tenant's own call,
      and nothing otherwise. */
  ghost predicate Isolated(o: Ontology, s: Store, caller: Caller, op: Op, tenantId: Uuid, s': Store, answer: Answer) {
    if caller.tenantId == tenantId then Apply(o, Slice(s, tenantId), caller, op) == (Slice(s', tenantId), answer)
    else Slice(s', tenantId) == Slice(s, tenantId)
  }

  lemma RedraftIsIsolated(s: Store, caller: Caller, id: Uuid, m: SchemaMapping, versionId: Uuid,
                          document: MappingDocument,
                          tenantId: Uuid, s': Store, answer: Answer)
    requires versionId !in s.versions && Get(s.mappings, id, caller.tenantId) == Some(m)
    requires (s', answer) == Redrafted(s, caller, id, m, versionId, document)
    ensures if caller.tenantId == tenantId
            then Redrafted(Slice(s, tenantId), caller, id, m, versionId, document) == (Slice(s', tenantId), answer)
            else Slice(s', tenantId) == Slice(s, tenantId)
  {
    SliceHasSameVersions(s, caller.tenantId, id);
    var v := s'.versions[versionId].body;
    SliceOfVersionWrite(s, caller.tenantId, versionId, v, tenantId);
    SliceOfMappingWrite(SetVersion(s, caller.tenantId, versionId, v), caller.tenantId, id, m.(state := Draft),
                        tenantId);
  }

  lemma ApprovalIsIsolated(s: Store, caller: Caller, id: Uuid, m: SchemaMapping, tenantId: Uuid, s': Store,
                           answer: Answer)
    requires Get(s.mappings, id, caller.tenantId) == Some(m)
    requires (s', answer) == ApprovedBy(s, caller, id, m)
    ensures if caller.tenantId == tenantId
            then ApprovedBy(Slice(s, tenantId), caller, id, m) == (Slice(s', tenantId), answer)
            else Slice(s', tenantId) == Slice(s, tenantId)
  {
    SliceHasSameVersions(s, caller.tenantId, id);
    var versions := VersionsOf(s, caller.tenantId, id);
    var latest := LatestOf(versions);
    if latest.Some? && latest.value in versions {
      var v := versions[latest.value].(approvedBy := Some(caller.principalId));
      SliceOfVersionWrite(s, caller.tenantId, latest.value, v, tenantId);
      SliceOfMappingWrite(SetVersion(s, caller.tenantId, latest.value, v), caller.tenantId, id, m.(state := Approved),
                          tenantId);
    }
  }

  lemma SubmissionIsIsolated(o: Ontology, s: Store, tenantId: Uuid, id: Uuid, m: SchemaMapping)
    ensures Submitted(o, Slice(s, tenantId), tenantId, id, m).1 == Submitted(o, s, tenantId, id, m).1
    ensures var (s', answer) := Submitted(o, s, tenantId, id, m); answer.Updated? || s' == s
  {
    SliceHasSameVersions(s, tenantId, id);
    SliceHasSameVersions(s, tenantId, m.snapshotId);
  }

  lemma QueryIsIsolated(s: Store, tenantId: Uuid, m: SchemaMapping, otherwise: Answer)
    ensures ServeActive(Slice(s, tenantId), tenantId, m, otherwise) == ServeActive(s, tenantId, m, otherwise)
  {
    if m.activeVersionId.Some? {
      SliceHasSameVersions(s, tenantId, m.activeVersionId.value);
    }
  }

  lemma MoveIsIsolated(o: Ontology, s: Store, caller: Caller, op: Op, m: SchemaMapping, tenantId: Uuid, s': Store,
                       answer: Answer)
    requires op.SubmitForValidation? || op.Activate? || op.Deprecate? || op.Reject? || op.GetProductionVersion?
             || (op.Approve? && !m.state.PendingValidation?)
    requires Get(s.mappings, op.mappingId, caller.tenantId) == Some(m)
    requires (s', answer) == ApplyToMapping(o, s, caller, op, m)
    ensures if caller.tenantId == tenantId
            then ApplyToMapping(o, Slice(s, tenantId), caller, op, m) == (Slice(s', tenantId), answer)
            else Slice(s', tenantId) == Slice(s, tenantId)
  {
    SliceHasSameVersions(s, caller.tenantId, op.mappingId);
    SubmissionIsIsolated(o, s, caller.tenantId, op.mappingId, m);
    QueryIsIsolated(s, caller.tenantId, m, Refused(NotProductionReady));
    if answer.Updated? {
      assert s' == SetMapping(s, caller.tenantId, op.mappingId, answer.mapping);
      SliceOfMappingWrite(s, caller.tenantId, op.mappingId, answer.mapping, tenantId);
    }
  }

  lemma ResolveIsIsolated(s: Store, tenantId: Uuid, entityName: string)
    ensures Resolved(Slice(s, tenantId), tenantId, entityName) == Resolved(s, tenantId, entityName)
  {
    var active := ActiveFor(s, tenantId, entityName);
    assert ActiveFor(Slice(s, tenantId), tenantId, entityName) == active;
    forall id | id in active
      ensures ServeActive(Slice(s, tenantId), tenantId, s.mappings[id].body, NothingToServe)
              == ServeActive(s, tenantId, s.mappings[id].body, NothingToServe)
    {
      QueryIsIsolated(s, tenantId, s.mappings[id].body, NothingToServe);
    }
  }

  lemma MappingCallIsIsolated(o: Ontology, s: Store, caller: Caller, op: Op, tenantId: Uuid, s': Store, answer: Answer)
    requires GeneratesFreshIds(s, op) && ConcernsOneMapping(op) && (s', answer) == Apply(o, s, caller, op)
    ensures Isolated(o, s, caller, op, tenantId, s', answer)
  {
    SliceHasSameVersions(s, caller.tenantId, op.mappingId);
    match Get(s.mappings, op.mappingId, caller.tenantId)
    case None =>
    case Some(m) =>
      if op.CreateNewVersion? {
        RedraftIsIsolated(s, caller, op.mappingId, m, op.versionId, op.newDocument, tenantId, s', answer);
      } else if op.Approve? && m.state.PendingValidation? {
        ApprovalIsIsolated(s, caller, op.mappingId, m, tenantId, s', answer);
      } else {
        MoveIsIsolated(o, s, caller, op, m, tenantId, s', answer);
      }
  }

  lemma ApplyIsIsolated(o: Ontology, s: Store, caller: Caller, op: Op, tenantId: Uuid, s': Store, answer: Answer)
    requires GeneratesFreshIds(s, op) && (s', answer) == Apply(o, s, caller, op)
    ensures Isolated(o, s, caller, op, tenantId, s', answer)
  {
    var t := caller.tenantId;
    match op
    case CreateDraft(_, _, _, mappingId, versionId) =>
      var m, v := s'.mappings[mappingId].body, s'.versions[versionId].body;
      SliceOfMappingWrite(s, t, mappingId, m, tenantId);
      SliceOfVersionWrite(SetMapping(s, t, mappingId, m), t, versionId, v, tenantId);
    case Resolve(entityName) => ResolveIsIsolated(s, t, entityName);
    case SuspendAffectedByDrift(snapshot) => SliceOfSuspension(s, t, AffectedTables(snapshot), tenantId);
    case RecordSnapshot(id, snapshot) => SliceOfWrite(s.snapshots, id, t, snapshot, tenantId);
    case _ => MappingCallIsIsolated(o, s, caller, op, tenantId, s', answer);
  }

  // ---- whole runs ---------------------------------------------------------------------------------

  function OwnCalls(calls: seq<Call>, tenantId: Uuid): seq<Call> {
    if calls == [] then []
    else (if calls[0].caller.tenantId == tenantId then [calls[0]] else []) + OwnCalls(calls[1..], tenantId)
  }

  /** The answers one tenant gets in a run. */
  ghost function AnswersTo(o: Ontology, s: Store, calls: seq<Call>, tenantId: Uuid): seq<Answer>
    decreases |calls|
  {
    if calls == [] then []
    else
      var (next, answer) := Apply(o, s, calls[0].caller, calls[0].op);
      (if calls[0].caller.tenantId == tenantId then [answer] else []) + AnswersTo(o, next, calls[1..], tenantId)
  }

  lemma FreshOnSlice(s: Store, op: Op, tenantId: Uuid)
    requires GeneratesFreshIds(s, op)
    ensures GeneratesFreshIds(Slice(s, tenantId), op)
  {
  }

  lemma OwnCallFirst(o: Ontology, s: Store, c: Call, rest: seq<Call>)
    ensures After(o, s, [c] + rest) == After(o, Apply(o, s, c.caller, c.op).0, rest)
    ensures FreshRun(o, s, [c] + rest) <==>
              GeneratesFreshIds(s, c.op) && FreshRun(o, Apply(o, s, c.caller, c.op).0, rest)
    ensures AnswersTo(o, s, [c] + rest, c.caller.tenantId)
            == [Apply(o, s, c.caller, c.op).1] + AnswersTo(o, Apply(o, s, c.caller, c.op).0, rest, c.caller.tenantId)
  {
    assert ([c] + rest)[1..] == rest;
  }

  /** The tenant's view of a run: its slice, its answers, and that its ids are fresh. */
  ghost predicate SeenAlone(o: Ontology, s: Store, calls: seq<Call>, tenantId: Uuid) {
    && FreshRun(o, Slice(s, tenantId), OwnCalls(calls, tenantId))
    && Slice(After(o, s, calls), tenantId) == After(o, Slice(s, tenantId), OwnCalls(calls, tenantId))
    && AnswersTo(o, s, calls, tenantId) == AnswersTo(o, Slice(s, tenantId), OwnCalls(calls, tenantId), tenantId)
  }

  lemma OwnCallSeenAlone(o: Ontology, s: Store, c: Call, rest: seq<Call>, tenantId: Uuid, next: Store, answer: Answer)
    requires GeneratesFreshIds(s, c.op) && c.caller.tenantId == tenantId
             && (next, answer) == Apply(o, s, c.caller, c.op)
    requires SeenAlone(o, next, rest, tenantId)
    ensures SeenAlone(o, s, [c] + rest, tenantId)
  {
    ApplyIsIsolated(o, s, c.caller, c.op, tenantId, next, answer);
    FreshOnSlice(s, c.op, tenantId);
    OwnCallFirst(o, s, c, rest);
    OwnCallFirst(o, Slice(s, tenantId), c, OwnCalls(rest, tenantId));
    assert ([c] + rest)[1..] == rest;
  }

  lemma ForeignCallUnseen(o: Ontology, s: Store, c: Call, rest: seq<Call>, tenantId: Uuid, next: Store, answer: Answer)
    requires GeneratesFreshIds(s, c.op) && c.caller.tenantId != tenantId
             && (next, answer) == Apply(o, s, c.caller, c.op)
    requires SeenAlone(o, next, rest, tenantId)
    ensures SeenAlone(o, s, [c] + rest, tenantId)
  {
    ApplyIsIsolated(o, s, c.caller, c.op, tenantId, next, answer);
    OwnCallFirst(o, s, c, rest);
    assert ([c] + rest)[1..] == rest;
    assert OwnCalls([c] + rest, tenantId) == OwnCalls(rest, tenantId);
    assert AnswersTo(o, s, [c] + rest, tenantId) == AnswersTo(o, next, rest, tenantId);
  }

  lemma {:induction false} RunsAreSeenAlone(o: Ontology, s: Store, calls: seq<Call>, tenantId: Uuid)
    requires FreshRun(o, s, calls)
    ensures SeenAlone(o, s, calls, tenantId)
    decreases |calls|
  {
    if calls != [] {
      var (next, answer) := Apply(o, s, calls[0].caller, calls[0].op);
      RunsAreSeenAlone(o, next, calls[1..], tenantId);
      assert [calls[0]] + calls[1..] == calls;
      if calls[0].caller.tenantId == tenantId {
        OwnCallSeenAlone(o, s, calls[0], calls[1..], tenantId, next, answer);
      } else {
        ForeignCallUnseen(o, s, calls[0], calls[1..], tenantId, next, answer);
      }
    }
  }

  /** One tenant's view of any interleaved run is a run of its own calls on its own slice. */
  lemma TenantsDoNotInterfere(o: Ontology, s: Store, calls: seq<Call>, tenantId: Uuid)
    requires FreshRun(o, s, calls)
    ensures FreshRun(o, Slice(s, tenantId), OwnCalls(calls, tenantId))
    ensures Slice(After(o, s, calls), tenantId) == After(o, Slice(s, tenantId), OwnCalls(calls, tenantId))
    ensures AnswersTo(o, s, calls, tenantId) == AnswersTo(o, Slice(s, tenantId), OwnCalls(calls, tenantId), tenantId)
  {
    RunsAreSeenAlone(o, s, calls, tenantId);
  }
}
