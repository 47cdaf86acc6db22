/** When a mapping is served again: suspensions, drafts and deprecations take it out of production, and
    nothing but an activation brings it back. */
module MappingReturn {
  import opened Common
  import opened Repository
  import opened MappingLifecycle
  import opened MappingSafety
  import opened MappingHistory
  import opened MappingServing

  /** The production query serves the mapping to its tenant. */
  ghost predicate IsServed(o: Ontology, s: Store, reader: Caller, id: Uuid) {
    Apply(o, s, reader, GetProductionVersion(id)).1.Served?
  }

  /** The call activates the tenant's mapping and is not refused. */
  ghost predicate Brings(o: Ontology, s: Store, c: Call, tenantId: Uuid, id: Uuid) {
    c.caller.tenantId == tenantId && c.op == Activate(id) && Apply(o, s, c.caller, c.op).1.Updated?
  }

  /** The call drafts a further version of the tenant's mapping, deprecates it or suspends it. */
  ghost predicate Withdraws(o: Ontology, s: Store, c: Call, tenantId: Uuid, id: Uuid) {
    var answer := Apply(o, s, c.caller, c.op).1;
    && c.caller.tenantId == tenantId
    && (|| (c.op.CreateNewVersion? && c.op.mappingId == id && answer.VersionAdded?)
        || (c.op == Deprecate(id) && answer.Updated?)
        || (c.op.SuspendAffectedByDrift? && answer.Suspended? && id in answer.ids))
  }

  /** An activation that is not refused serves the newest version at once, suspended or not before. */
  lemma ActivationServesNewest(o: Ontology, s: Store, caller: Caller, id: Uuid, reader: Caller)
    requires Sound(o, s) && Apply(o, s, caller, Activate(id)).1.Updated? && reader.tenantId == caller.tenantId
    ensures var s' := Apply(o, s, caller, Activate(id)).0;
            var answer := Apply(o, s', reader, GetProductionVersion(id)).1;
            && answer.Served? && answer.version.mappingId == id
            && (exists v :: v in s'.versions && s'.versions[v].tenantId == caller.tenantId
                            && s'.versions[v].body == answer.version)
            && (forall v :: v in s'.versions && s'.versions[v].tenantId == caller.tenantId
                            && s'.versions[v].body.mappingId == id ==>
                  s'.versions[v].body.number <= answer.version.number)
  {
    var s' := Apply(o, s, caller, Activate(id)).0;
    ApplyKeepsSound(o, s, caller, Activate(id));
    ProductionQueryIsExact(o, s', reader, id);
    var versions := VersionsOf(s', caller.tenantId, id);
    var v := s'.mappings[id].body.activeVersionId.value;
    assert v in versions && IsNewest(versions, v);
    assert MappingAt(o, s', id);
    forall v' | v' in s'.versions && s'.versions[v'].tenantId == caller.tenantId && s'.versions[v'].body.mappingId == id
      ensures s'.versions[v'].body.number <= versions[v].number
    {
      assert v' in versions;
    }
  }

  /** No other mapping of the tenant for the entity is ACTIVE. */
  ghost predicate NoOtherActive(s: Store, tenantId: Uuid, entity: string, id: Uuid) {
    forall other :: other in s.mappings && s.mappings[other].tenantId == tenantId && other != id ==>
      !(s.mappings[other].body.entityName == entity && s.mappings[other].body.state.Active?)
  }

  /** So does the resolver, unless another mapping of the entity is ACTIVE too. */
  lemma ActivationResolves(o: Ontology, s: Store, caller: Caller, id: Uuid, reader: Caller)
    requires Sound(o, s) && Apply(o, s, caller, Activate(id)).1.Updated? && reader.tenantId == caller.tenantId
    ensures var s' := Apply(o, s, caller, Activate(id)).0;
            && id in s'.mappings
            && var entity := s'.mappings[id].body.entityName;
               NoOtherActive(s', caller.tenantId, entity, id) ==>
                 Apply(o, s', reader, Resolve(entity)).1 == Apply(o, s', reader, GetProductionVersion(id)).1
  {
    var s' := Apply(o, s, caller, Activate(id)).0;
    ApplyKeepsSound(o, s, caller, Activate(id));
    ProductionQueryIsExact(o, s', reader, id);
    var entity := s'.mappings[id].body.entityName;
    if NoOtherActive(s', caller.tenantId, entity, id) {
      forall other | other in ActiveFor(s', caller.tenantId, entity)
        ensures other == id
      {
        assert other in s'.mappings;
      }
      assert id in ActiveFor(s', caller.tenantId, entity);
      assert ActiveFor(s', caller.tenantId, entity) == {id};
      ResolvedIs(s', caller.tenantId, entity, id);
      ActiveIsReady(o, s', caller.tenantId, id, s'.mappings[id].body);
    }
  }

  /** What one call does to the question whether the mapping is served. */
  lemma ServedAfterCall(o: Ontology, s: Store, c: Call, reader: Caller, id: Uuid, s': Store)
    requires Sound(o, s) && GeneratesFreshIds(s, c.op) && s' == Apply(o, s, c.caller, c.op).0
    ensures IsServed(o, s', reader, id)
            <==> Brings(o, s, c, reader.tenantId, id)
                 || (IsServed(o, s, reader, id) && !Withdraws(o, s, c, reader.tenantId, id))
  {
    ApplyKeepsSound(o, s, c.caller, c.op);
    ProductionQueryIsExact(o, s, reader, id);
    ProductionQueryIsExact(o, s', reader, id);
    AvailabilityAfterCall(o, s, c, reader.tenantId, id, s');
  }

  ghost predicate IsAvailable(s: Store, tenantId: Uuid, id: Uuid) {
    var m := Get(s.mappings, id, tenantId);
    m.Some? && m.value.state.Active? && !m.value.suspendedDueToDrift
  }

  lemma AvailabilityAfterCall(o: Ontology, s: Store, c: Call, tenantId: Uuid, id: Uuid, s': Store)
    requires Sound(o, s) && GeneratesFreshIds(s, c.op) && s' == Apply(o, s, c.caller, c.op).0
    ensures IsAvailable(s', tenantId, id)
            <==> Brings(o, s, c, tenantId, id) || (IsAvailable(s, tenantId, id) && !Withdraws(o, s, c, tenantId, id))
  {
    if ConcernsOneMapping(c.op) {
      match Get(s.mappings, c.op.mappingId, c.caller.tenantId)
      case None =>
      case Some(m) => AvailabilityAfterMappingCall(o, s, c, m, tenantId, id, s');
    } else if c.op.SuspendAffectedByDrift? {
      AvailabilityAfterSuspension(o, s, c, tenantId, id, s');
    }
  }

  lemma AvailabilityAfterSuspension(o: Ontology, s: Store, c: Call, tenantId: Uuid, id: Uuid, s': Store)
    requires c.op.SuspendAffectedByDrift? && s' == Apply(o, s, c.caller, c.op).0
    ensures IsAvailable(s', tenantId, id) <==> IsAvailable(s, tenantId, id) && !Withdraws(o, s, c, tenantId, id)
  {
    var affected := AffectedTables(c.op.snapshot);
    assert Apply(o, s, c.caller, c.op).1 == Suspended(AffectedMappings(s, c.caller.tenantId, affected));
    assert id in AffectedMappings(s, c.caller.tenantId, affected) <==> IsAffected(s, c.caller.tenantId, id, affected);
  }

  lemma AvailabilityAfterMappingCall(o: Ontology, s: Store, c: Call, m: SchemaMapping, tenantId: Uuid, id: Uuid,
                                     s': Store)
    requires Sound(o, s) && ConcernsOneMapping(c.op) && s' == Apply(o, s, c.caller, c.op).0
    requires Get(s.mappings, c.op.mappingId, c.caller.tenantId) == Some(m)
    ensures IsAvailable(s', tenantId, id)
            <==> Brings(o, s, c, tenantId, id) || (IsAvailable(s, tenantId, id) && !Withdraws(o, s, c, tenantId, id))
  {
    hide Sound, Submitted, Redrafted, ApprovedBy, Activated;
    assert Apply(o, s, c.caller, c.op) == ApplyToMapping(o, s, c.caller, c.op, m);
    StateAfterMappingCall(o, s, c, m);
  }

  /** The mapping a call concerns, before and after it; no other mapping's row changes. */
  lemma StateAfterMappingCall(o: Ontology, s: Store, c: Call, m: SchemaMapping)
    requires ConcernsOneMapping(c.op) && Get(s.mappings, c.op.mappingId, c.caller.tenantId) == Some(m)
    ensures var (s', answer) := ApplyToMapping(o, s, c.caller, c.op, m);
            && (forall other :: other in s'.mappings <==> other in s.mappings)
            && (forall other :: other in s.mappings && other != c.op.mappingId ==>
                  s'.mappings[other] == s.mappings[other])
            && s'.mappings[c.op.mappingId].tenantId == c.caller.tenantId
            && var m' := s'.mappings[c.op.mappingId].body;
               && (c.op.CreateNewVersion? ==> answer.VersionAdded? && m' == m.(state := Draft))
               && (!c.op.CreateNewVersion? && !answer.Updated? ==> m' == m)
               && (answer.Updated? ==>
                     match c.op
                     case SubmitForValidation(_) => m.state.Draft? && m' == m.(state := PendingValidation)
                     case Approve(_) => m.state.PendingValidation? && m' == m.(state := Approved)
                     case Activate(_) => m.state.Approved? && m'.state.Active? && !m'.suspendedDueToDrift
                     case Deprecate(_) => m.state.Active? && m' == m.(state := Deprecated)
                     case Reject(_) => !m.state.Active? && m' == m.(state := Rejected)
                     case _ => false)
               && (c.op.Deprecate? && m.state.Active? ==> answer.Updated?)
  {
    hide VersionsOf, SubmissionProblem, LatestOf, HighestNumber, ServeActive;
    match c.op
    case CreateNewVersion(_, _, _) =>
    case SubmitForValidation(_) =>
    case Approve(_) =>
    case Activate(_) =>
    case Deprecate(_) =>
    case Reject(_) =>
    case GetProductionVersion(_) => ServingUpdatesNothing(s, c.caller.tenantId, m);
  }

  lemma ServingUpdatesNothing(s: Store, tenantId: Uuid, m: SchemaMapping)
    ensures !ServeActive(s, tenantId, m, Refused(NotProductionReady)).Updated?
  {
  }

  // ---- runs ---------------------------------------------------------------------------------------

  /** Call `i` brings the mapping back and no later call withdraws it. */
  ghost predicate BroughtForGood(o: Ontology, s: Store, calls: seq<Call>, tenantId: Uuid, id: Uuid, i: nat) {
    && i < |calls| && Brings(o, After(o, s, calls[..i]), calls[i], tenantId, id)
    && forall j :: i < j < |calls| ==> !Withdraws(o, After(o, s, calls[..j]), calls[j], tenantId, id)
  }

  lemma LastCallDecides(o: Ontology, s: Store, calls: seq<Call>, tenantId: Uuid, id: Uuid)
    requires calls != []
    ensures var front, last := calls[..|calls| - 1], calls[|calls| - 1];
            (exists i :: BroughtForGood(o, s, calls, tenantId, id, i))
            <==> Brings(o, After(o, s, front), last, tenantId, id)
                 || ((exists i :: BroughtForGood(o, s, front, tenantId, id, i))
                     && !Withdraws(o, After(o, s, front), last, tenantId, id))
  {
    hide Brings, Withdraws, After;
    var n := |calls| - 1;
    var front := calls[..n];
    forall i: nat | i < n
      ensures BroughtForGood(o, s, calls, tenantId, id, i)
              <==> BroughtForGood(o, s, front, tenantId, id, i)
                   && !Withdraws(o, After(o, s, front), calls[n], tenantId, id)
    {
      assert forall j :: 0 <= j < n ==> front[..j] == calls[..j];
    }
    assert BroughtForGood(o, s, calls, tenantId, id, n) <==> Brings(o, After(o, s, front), calls[n], tenantId, id);
  }

  /** From any sound store in which a mapping is not served, because it is suspended or for any other reason,
      a run makes the production query serve it if and only if an activation of it succeeds with no later
      suspension, draft or deprecation. */
  lemma {:induction false} ServedAgainExactlyWhen(o: Ontology, s: Store, calls: seq<Call>, reader: Caller, id: Uuid)
    requires Sound(o, s) && FreshRun(o, s, calls) && !IsServed(o, s, reader, id)
    ensures IsServed(o, After(o, s, calls), reader, id)
            <==> exists i :: BroughtForGood(o, s, calls, reader.tenantId, id, i)
    decreases |calls|
  {
    hide IsServed, BroughtForGood;
    if calls != [] {
      var front, last := calls[..|calls| - 1], calls[|calls| - 1];
      LastCall(o, s, calls);
      ReachableStoresAreSound(o, s, front);
      ServedAgainExactlyWhen(o, s, front, reader, id);
      ServedAfterCall(o, After(o, s, front), last, reader, id, After(o, s, calls));
      LastCallDecides(o, s, calls, reader.tenantId, id);
    } else {
      assert forall i: nat :: !BroughtForGood(o, s, calls, reader.tenantId, id, i) by {
        NothingBrings(o, s, reader.tenantId, id);
      }
    }
  }

  lemma NothingBrings(o: Ontology, s: Store, tenantId: Uuid, id: Uuid)
    ensures forall i: nat :: !BroughtForGood(o, s, [], tenantId, id, i)
  {
  }
}
