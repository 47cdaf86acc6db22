/** What runs of mapping calls, by any number of tenants, never undo, and what is ever served. */
module MappingHistory {
  import opened Common
  import opened Documents
  import opened Repository
  import opened MappingLifecycle
  import opened MappingSafety

  datatype Call = Call(caller: Caller, op: Op)

  const EMPTY: Store := Store(map[], map[], map[])

  ghost function After(o: Ontology, s: Store, calls: seq<Call>): Store
    decreases |calls|
  {
    if calls == [] then s else After(o, Apply(o, s, calls[0].caller, calls[0].op).0, calls[1..])
  }

  ghost predicate FreshRun(o: Ontology, s: Store, calls: seq<Call>)
    decreases |calls|
  {
    calls == []
      || (GeneratesFreshIds(s, calls[0].op) && FreshRun(o, Apply(o, s, calls[0].caller, calls[0].op).0, calls[1..]))
  }

  lemma {:induction false} LastCall(o: Ontology, s: Store, calls: seq<Call>)
    requires calls != []
    ensures var front, last := calls[..|calls| - 1], calls[|calls| - 1];
            && After(o, s, calls) == Apply(o, After(o, s, front), last.caller, last.op).0
            && (FreshRun(o, s, calls) ==> FreshRun(o, s, front) && GeneratesFreshIds(After(o, s, front), last.op))
    decreases |calls|
  {
    hide Apply, GeneratesFreshIds;
    var front := calls[..|calls| - 1];
    if |calls| > 1 {
      LastCall(o, Apply(o, s, calls[0].caller, calls[0].op).0, calls[1..]);
      assert calls[1..][..|calls| - 2] == front[1..];
    }
  }

  lemma EmptyIsSound(o: Ontology)
    ensures Sound(o, EMPTY)
  {
  }

  lemma {:induction false} ReachableStoresAreSound(o: Ontology, s: Store, calls: seq<Call>)
    requires Sound(o, s) && FreshRun(o, s, calls)
    ensures Sound(o, After(o, s, calls))
    decreases |calls|
  {
    if calls != [] {
      ApplyKeepsSound(o, s, calls[0].caller, calls[0].op);
      ReachableStoresAreSound(o, Apply(o, s, calls[0].caller, calls[0].op).0, calls[1..]);
    }
  }

  // ---- what is never undone --------------------------------------------------------------------

  /** A version never changes, except that an approver may be recorded once. */
  ghost predicate VersionFollows(v: MappingVersion, v': MappingVersion) {
    && v' == v.(approvedBy := v'.approvedBy)
    && (v.approvedBy.Some? ==> v'.approvedBy == v.approvedBy)
  }

  ghost function NumberOf(s: Store, id: Uuid): nat {
    if id in s.versions then s.versions[id].body.number else 0
  }

  /** The active version only moves to strictly higher numbers, and a suspension is only lifted by
      such a move. */
  ghost predicate MappingFollows(s': Store, m: SchemaMapping, m': SchemaMapping) {
    && m'.entityName == m.entityName && m'.snapshotId == m.snapshotId && m'.ontologyVersion == m.ontologyVersion
    && (m.activeVersionId.Some? ==>
          && m'.activeVersionId.Some?
          && (m'.activeVersionId == m.activeVersionId
              || NumberOf(s', m'.activeVersionId.value) > NumberOf(s', m.activeVersionId.value)))
    && (m.suspendedDueToDrift && !m'.suspendedDueToDrift ==> m'.activeVersionId != m.activeVersionId)
  }

  ghost predicate VersionsFollow(s: Store, s': Store) {
    forall v :: v in s.versions ==>
      v in s'.versions && s'.versions[v].tenantId == s.versions[v].tenantId
      && VersionFollows(s.versions[v].body, s'.versions[v].body)
  }

  ghost predicate MappingsFollow(s: Store, s': Store) {
    forall id :: id in s.mappings ==>
      id in s'.mappings && s'.mappings[id].tenantId == s.mappings[id].tenantId
      && MappingFollows(s', s.mappings[id].body, s'.mappings[id].body)
  }

  ghost predicate Follows(s: Store, s': Store) {
    VersionsFollow(s, s') && MappingsFollow(s, s')
  }

  lemma WriteFollows(s: Store, tenantId: Uuid, id: Uuid, m: SchemaMapping, m': SchemaMapping,
                     versionId: Uuid, v: MappingVersion, s': Store)
    requires id in s.mappings && s.mappings[id] == Row(tenantId, m)
    requires versionId in s.versions ==>
               s.versions[versionId].tenantId == tenantId && VersionFollows(s.versions[versionId].body, v)
    requires s' == SetMapping(SetVersion(s, tenantId, versionId, v), tenantId, id, m')
    requires MappingFollows(s', m, m')
    ensures Follows(s, s')
  {
  }

  lemma MoveFollows(s: Store, tenantId: Uuid, id: Uuid, m: SchemaMapping, m': SchemaMapping, s': Store)
    requires id in s.mappings && s.mappings[id] == Row(tenantId, m)
    requires s' == SetMapping(s, tenantId, id, m') && MappingFollows(s', m, m')
    ensures Follows(s, s')
  {
  }

  /** An activation replaces the active version by a strictly newer one. */
  lemma ActivationIsNewer(o: Ontology, s: Store, tenantId: Uuid, id: Uuid, m: SchemaMapping)
    requires Sound(o, s) && Get(s.mappings, id, tenantId) == Some(m) && m.state.Approved?
    ensures var latest := LatestOf(VersionsOf(s, tenantId, id));
            latest.Some? && latest.value in s.versions
            && (m.activeVersionId.Some? ==> NumberOf(s, m.activeVersionId.value) < NumberOf(s, latest.value))
  {
    var newest := NewestOf(o, s, tenantId, id, m);
  }

  lemma ApproveFollows(o: Ontology, s: Store, caller: Caller, id: Uuid, m: SchemaMapping, s': Store, answer: Answer)
    requires Sound(o, s) && Get(s.mappings, id, caller.tenantId) == Some(m) && m.state.PendingValidation?
    requires (s', answer) == ApprovedBy(s, caller, id, m)
    ensures Follows(s, s')
  {
    var newest := NewestOf(o, s, caller.tenantId, id, m);
    var versions := VersionsOf(s, caller.tenantId, id);
    assert StateSound(o, s.snapshots, caller.tenantId, m, versions, newest);
    var v := versions[newest].(approvedBy := Some(caller.principalId));
    WriteFollows(s, caller.tenantId, id, m, m.(state := Approved), newest, v, s');
  }

  lemma ActivateFollows(o: Ontology, s: Store, tenantId: Uuid, id: Uuid, m: SchemaMapping, s': Store, answer: Answer)
    requires Sound(o, s) && Get(s.mappings, id, tenantId) == Some(m) && m.state.Approved?
    requires (s', answer) == Activated(s, tenantId, id, m)
    ensures Follows(s, s')
  {
    ActivationIsNewer(o, s, tenantId, id, m);
    MoveFollows(s, tenantId, id, m, answer.mapping, s');
  }

  lemma RedraftFollows(o: Ontology, s: Store, caller: Caller, id: Uuid, m: SchemaMapping, versionId: Uuid,
                       document: MappingDocument, s': Store)
    requires Sound(o, s) && versionId !in s.versions && Get(s.mappings, id, caller.tenantId) == Some(m)
    requires s' == Redrafted(s, caller, id, m, versionId, document).0
    ensures Follows(s, s')
  {
    WriteFollows(s, caller.tenantId, id, m, m.(state := Draft), versionId, s'.versions[versionId].body, s');
  }

  lemma MappingCallFollows(o: Ontology, s: Store, caller: Caller, op: Op, m: SchemaMapping, s': Store, answer: Answer)
    requires Sound(o, s) && GeneratesFreshIds(s, op) && ConcernsOneMapping(op)
    requires Get(s.mappings, op.mappingId, caller.tenantId) == Some(m)
    requires (s', answer) == ApplyToMapping(o, s, caller, op, m)
    ensures Follows(s, s')
  {
    var t, id := caller.tenantId, op.mappingId;
    if s' == s {
      FollowsItself(s);
    } else if op.CreateNewVersion? {
      RedraftFollows(o, s, caller, id, m, op.versionId, op.newDocument, s');
    } else if op.Approve? {
      ApproveFollows(o, s, caller, id, m, s', answer);
    } else if op.Activate? {
      ActivateFollows(o, s, t, id, m, s', answer);
    } else {
      MoveFollows(s, t, id, m, answer.mapping, s');
    }
  }

  lemma FollowsItself(s: Store)
    ensures Follows(s, s)
  {
  }

  lemma SuspendFollows(s: Store, tenantId: Uuid, affected: set<string>)
    ensures Follows(s, SuspendAll(s, tenantId, affected))
  {
  }

  lemma AdditionFollows(s: Store, s': Store)
    requires forall id :: id in s.mappings ==> id in s'.mappings && s'.mappings[id] == s.mappings[id]
    requires forall id :: id in s.versions ==> id in s'.versions && s'.versions[id] == s.versions[id]
    ensures Follows(s, s')
  {
  }

  lemma OtherCallFollows(o: Ontology, s: Store, caller: Caller, op: Op, s': Store)
    requires !ConcernsOneMapping(op) && GeneratesFreshIds(s, op) && s' == Apply(o, s, caller, op).0
    ensures Follows(s, s')
  {
    match op
    case SuspendAffectedByDrift(snapshot) => SuspendFollows(s, caller.tenantId, AffectedTables(snapshot));
    case Resolve(_) => FollowsItself(s);
    case _ => AdditionFollows(s, s');
  }

  lemma ApplyFollows(o: Ontology, s: Store, caller: Caller, op: Op, s': Store)
    requires Sound(o, s) && GeneratesFreshIds(s, op) && s' == Apply(o, s, caller, op).0
    ensures Follows(s, s')
  {
    if ConcernsOneMapping(op) {
      match Get(s.mappings, op.mappingId, caller.tenantId)
      case None => FollowsItself(s);
      case Some(m) =>
        var step := ApplyToMapping(o, s, caller, op, m);
        MappingCallFollows(o, s, caller, op, m, s', step.1);
    } else {
      OtherCallFollows(o, s, caller, op, s');
    }
  }

  lemma FollowsIsTransitive(s: Store, s1: Store, s2: Store)
    requires Follows(s, s1) && Follows(s1, s2)
    requires forall id :: id in s.mappings && s.mappings[id].body.activeVersionId.Some? ==>
               s.mappings[id].body.activeVersionId.value in s.versions
    requires forall id :: id in s1.mappings && s1.mappings[id].body.activeVersionId.Some? ==>
               s1.mappings[id].body.activeVersionId.value in s1.versions
    ensures Follows(s, s2)
  {
  }

  lemma ActiveVersionsExist(o: Ontology, s: Store)
    requires Sound(o, s)
    ensures forall id :: id in s.mappings && s.mappings[id].body.activeVersionId.Some? ==>
              s.mappings[id].body.activeVersionId.value in s.versions
  {
    forall id | id in s.mappings && s.mappings[id].body.activeVersionId.Some?
      ensures s.mappings[id].body.activeVersionId.value in s.versions
    {
      assert MappingAt(o, s, id);
    }
  }

  /** Over any run: documents, numbers and approvals are permanent, active versions only move to
      strictly higher numbers, and suspensions are only lifted that way. */
  lemma {:induction false} RunsOnlyMoveForward(o: Ontology, s: Store, calls: seq<Call>)
    requires Sound(o, s) && FreshRun(o, s, calls)
    ensures Follows(s, After(o, s, calls))
    decreases |calls|
  {
    if calls != [] {
      var next := Apply(o, s, calls[0].caller, calls[0].op).0;
      ApplyKeepsSound(o, s, calls[0].caller, calls[0].op);
      ApplyFollows(o, s, calls[0].caller, calls[0].op, next);
      RunsOnlyMoveForward(o, next, calls[1..]);
      ActiveVersionsExist(o, s);
      ActiveVersionsExist(o, next);
      FollowsIsTransitive(s, next, After(o, next, calls[1..]));
    }
  }

  // ---- at most once ------------------------------------------------------------------------------

  ghost predicate ApprovesVersion(o: Ontology, s: Store, c: Call, versionId: Uuid) {
    && c.op.Approve? && Apply(o, s, c.caller, c.op).1.Updated?
    && LatestOf(VersionsOf(s, c.caller.tenantId, c.op.mappingId)) == Some(versionId)
  }

  ghost predicate ActivatesVersion(o: Ontology, s: Store, c: Call, versionId: Uuid) {
    && c.op.Activate? && Apply(o, s, c.caller, c.op).1.Updated?
    && Apply(o, s, c.caller, c.op).1.mapping.activeVersionId == Some(versionId)
  }

  /** How often a run approves a version. */
  ghost function Approvals(o: Ontology, s: Store, calls: seq<Call>, versionId: Uuid): nat
    decreases |calls|
  {
    if calls == [] then 0
    else
      (if ApprovesVersion(o, s, calls[0], versionId) then 1 else 0)
      + Approvals(o, Apply(o, s, calls[0].caller, calls[0].op).0, calls[1..], versionId)
  }

  /** How often a run activates a version. */
  ghost function Activations(o: Ontology, s: Store, calls: seq<Call>, versionId: Uuid): nat
    decreases |calls|
  {
    if calls == [] then 0
    else
      (if ActivatesVersion(o, s, calls[0], versionId) then 1 else 0)
      + Activations(o, Apply(o, s, calls[0].caller, calls[0].op).0, calls[1..], versionId)
  }

  ghost predicate IsApproved(s: Store, versionId: Uuid) {
    versionId in s.versions && s.versions[versionId].body.approvedBy.Some?
  }

  /** The version's mapping has at some time made it, or a newer one, active. */
  ghost predicate HasBeenActive(s: Store, versionId: Uuid) {
    && versionId in s.versions && s.versions[versionId].body.mappingId in s.mappings
    && var active := s.mappings[s.versions[versionId].body.mappingId].body.activeVersionId;
       active.Some? && NumberOf(s, active.value) >= NumberOf(s, versionId)
  }

  lemma ApprovalIsFresh(o: Ontology, s: Store, c: Call, versionId: Uuid, s': Store)
    requires Sound(o, s) && ApprovesVersion(o, s, c, versionId) && s' == Apply(o, s, c.caller, c.op).0
    ensures !IsApproved(s, versionId) && IsApproved(s', versionId)
  {
    var t, id := c.caller.tenantId, c.op.mappingId;
    var m := Get(s.mappings, id, t).value;
    var newest := NewestOf(o, s, t, id, m);
    assert StateSound(o, s.snapshots, t, m, VersionsOf(s, t, id), newest);
  }

  lemma ActivationIsFresh(o: Ontology, s: Store, c: Call, versionId: Uuid, s': Store)
    requires Sound(o, s) && ActivatesVersion(o, s, c, versionId) && s' == Apply(o, s, c.caller, c.op).0
    ensures !HasBeenActive(s, versionId) && HasBeenActive(s', versionId)
  {
    var t, id := c.caller.tenantId, c.op.mappingId;
    var m := Get(s.mappings, id, t).value;
    ActivationIsNewer(o, s, t, id, m);
    var newest := NewestOf(o, s, t, id, m);
    assert s'.mappings[id].body.activeVersionId == Some(versionId);
  }

  lemma BeenActiveStays(o: Ontology, s: Store, s': Store, versionId: Uuid)
    requires Sound(o, s) && Follows(s, s') && HasBeenActive(s, versionId)
    ensures HasBeenActive(s', versionId)
  {
    ActiveVersionsExist(o, s);
  }

  /** No version is approved twice in any run, or at all once it has been. */
  lemma {:induction false} ApprovedAtMostOnce(o: Ontology, s: Store, calls: seq<Call>, versionId: Uuid)
    requires Sound(o, s) && FreshRun(o, s, calls)
    ensures Approvals(o, s, calls, versionId) <= if IsApproved(s, versionId) then 0 else 1
    decreases |calls|
  {
    if calls != [] {
      var next := Apply(o, s, calls[0].caller, calls[0].op).0;
      ApplyKeepsSound(o, s, calls[0].caller, calls[0].op);
      ApplyFollows(o, s, calls[0].caller, calls[0].op, next);
      ApprovedAtMostOnce(o, next, calls[1..], versionId);
      if ApprovesVersion(o, s, calls[0], versionId) {
        ApprovalIsFresh(o, s, calls[0], versionId, next);
      }
    }
  }

  /** No version is activated twice in any run, or at all once it or a newer one has been active. */
  lemma {:induction false} ActivatedAtMostOnce(o: Ontology, s: Store, calls: seq<Call>, versionId: Uuid)
    requires Sound(o, s) && FreshRun(o, s, calls)
    ensures Activations(o, s, calls, versionId) <= if HasBeenActive(s, versionId) then 0 else 1
    decreases |calls|
  {
    if calls != [] {
      var next := Apply(o, s, calls[0].caller, calls[0].op).0;
      ApplyKeepsSound(o, s, calls[0].caller, calls[0].op);
      ApplyFollows(o, s, calls[0].caller, calls[0].op, next);
      ActivatedAtMostOnce(o, next, calls[1..], versionId);
      if ActivatesVersion(o, s, calls[0], versionId) {
        ActivationIsFresh(o, s, calls[0], versionId, next);
      }
      if HasBeenActive(s, versionId) {
        BeenActiveStays(o, s, next, versionId);
      }
    }
  }
}
