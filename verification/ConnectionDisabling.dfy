/** How long a disabled connection stays unusable. */
module ConnectionDisabling {
  import opened Common
  import opened Repository
  import opened Connections
  import opened ConnectionSafety

  /** The tenant has the connection and it is not disabled. */
  predicate IsUsable(w: World, tenantId: Uuid, id: Uuid) {
    var c := Get(w.connections, id, tenantId);
    c.Some? && !c.value.status.Disabled?
  }

  /** The call enables, validates or rotates the tenant's connection, and is not refused (or registers
      the connection anew). */
  predicate Reopens(w: World, c: Call, tenantId: Uuid, id: Uuid) {
    && c.tenantId == tenantId
    && if c.op.Register? then c.op.connectionId == id
       else
         && c.op.id == id && (c.op.Enable? || c.op.Validate? || c.op.Rotate?)
         && Apply(w, tenantId, c.op).1.Connected?
  }

  predicate Closes(c: Call, tenantId: Uuid, id: Uuid) {
    c.tenantId == tenantId && (c.op.Disable? || c.op.Delete?) && c.op.id == id
  }

  lemma UsableAfterCall(w: World, c: Call, tenantId: Uuid, id: Uuid, w': World)
    requires Coherent(w) && GeneratesFreshIds(w, c.op) && w' == Apply(w, c.tenantId, c.op).0
    ensures IsUsable(w', tenantId, id)
            <==> Reopens(w, c, tenantId, id) || (IsUsable(w, tenantId, id) && !Closes(c, tenantId, id))
  {
  }

  /** Call `i` of the run reopens the connection and no later call closes it again. */
  predicate ReopenedForGood(w: World, calls: seq<Call>, tenantId: Uuid, id: Uuid, i: nat) {
    && i < |calls| && Reopens(AfterCalls(w, calls[..i]), calls[i], tenantId, id)
    && forall j :: i < j < |calls| ==> !Closes(calls[j], tenantId, id)
  }

  /** What the last call of a run does to the question whether the run reopens the connection. */
  lemma LastCallDecides(w: World, calls: seq<Call>, tenantId: Uuid, id: Uuid)
    requires calls != []
    ensures var front, last := calls[..|calls| - 1], calls[|calls| - 1];
            (exists i :: ReopenedForGood(w, calls, tenantId, id, i))
            <==> Reopens(AfterCalls(w, front), last, tenantId, id)
                 || ((exists i :: ReopenedForGood(w, front, tenantId, id, i)) && !Closes(last, tenantId, id))
  {
    var n := |calls| - 1;
    var front := calls[..n];
    forall i: nat | i < n
      ensures ReopenedForGood(w, calls, tenantId, id, i)
              <==> ReopenedForGood(w, front, tenantId, id, i) && !Closes(calls[n], tenantId, id)
    {
      assert front[..i] == calls[..i];
    }
    assert ReopenedForGood(w, calls, tenantId, id, n) <==> Reopens(AfterCalls(w, front), calls[n], tenantId, id);
  }

  lemma {:induction false} UsableExactlyWhenReopened(w: World, calls: seq<Call>, tenantId: Uuid, id: Uuid)
    requires Coherent(w) && FreshRun(w, calls) && !IsUsable(w, tenantId, id)
    ensures IsUsable(AfterCalls(w, calls), tenantId, id) <==> exists i :: ReopenedForGood(w, calls, tenantId, id, i)
    decreases |calls|
  {
    if calls != [] {
      var front, last := calls[..|calls| - 1], calls[|calls| - 1];
      LastCall(w, calls);
      ReachableWorldsAreCoherent(w, front);
      UsableExactlyWhenReopened(w, front, tenantId, id);
      UsableAfterCall(AfterCalls(w, front), last, tenantId, id, AfterCalls(w, calls));
      LastCallDecides(w, calls, tenantId, id);
    }
  }

  /** From any reachable state in which a connection is disabled, a run makes an engine available again
      if and only if it holds an enabling, an answered validation or a rotation of the connection with
      no later disabling or deletion. */
  lemma DisabledUntilReopened(before: seq<Call>, calls: seq<Call>, tenantId: Uuid, id: Uuid)
    requires FreshRun(EMPTY, before) && FreshRun(AfterCalls(EMPTY, before), calls)
    requires var c := Get(AfterCalls(EMPTY, before).connections, id, tenantId); c.Some? && c.value.status.Disabled?
    ensures var w := AfterCalls(EMPTY, before);
            Apply(AfterCalls(w, calls), tenantId, GetOrCreateEngine(id)).1.EngineReady?
            <==> exists i :: ReopenedForGood(w, calls, tenantId, id, i)
  {
    var w := AfterCalls(EMPTY, before);
    ReachableWorldsAreCoherent(EMPTY, before);
    UsableExactlyWhenReopened(w, calls, tenantId, id);
    ReachableWorldsAreCoherent(w, calls);
    CoherentEnginesAreCurrent(AfterCalls(w, calls), tenantId, id);
  }

  /** In every reachable state, rotating the secret of a disabled connection makes it usable, although
      nobody has enabled it. */
  lemma RotationReopensDisabled(before: seq<Call>, tenantId: Uuid, op: Op)
    requires FreshRun(EMPTY, before) && op.Rotate? && GeneratesFreshIds(AfterCalls(EMPTY, before), op)
    requires var c := Get(AfterCalls(EMPTY, before).connections, op.id, tenantId); c.Some? && c.value.status.Disabled?
    ensures var w := AfterCalls(EMPTY, before);
            && Apply(w, tenantId, GetOrCreateEngine(op.id)).1 == Refused(IsDisabled)
            && Apply(Apply(w, tenantId, op).0, tenantId, GetOrCreateEngine(op.id)).1.EngineReady?
  {
    var w := AfterCalls(EMPTY, before);
    var after := Apply(w, tenantId, op).0;
    ReachableWorldsAreCoherent(EMPTY, before);
    ApplyKeeps(w, tenantId, op);
    UsableAfterCall(w, Call(tenantId, op), tenantId, op.id, after);
    CoherentEnginesAreCurrent(after, tenantId, op.id);
  }

  /** Such a state is reached by registering, validating and disabling any connection. */
  lemma DisablingIsReachable(tenant: Uuid, id: Uuid, credential: Uuid, address: Address, secret: string, key: string,
                             health: Health)
    ensures var calls := [Call(tenant, Register(address, secret, id, credential, key)),
                          Call(tenant, Validate(id, health)), Call(tenant, Disable(id))];
            FreshRun(EMPTY, calls) && id in AfterCalls(EMPTY, calls).connections
            && AfterCalls(EMPTY, calls).connections[id].tenantId == tenant
            && AfterCalls(EMPTY, calls).connections[id].body.status == Disabled
  {
    var register := Call(tenant, Register(address, secret, id, credential, key));
    var validate, disable := Call(tenant, Validate(id, health)), Call(tenant, Disable(id));
    var w1 := Apply(EMPTY, tenant, register.op).0;
    var w2 := Apply(w1, tenant, validate.op).0;
    FirstCall(EMPTY, register, [validate, disable]);
    FirstCall(w1, validate, [disable]);
    FirstCall(w2, disable, []);
    assert [register] + ([validate] + ([disable] + [])) == [register, validate, disable];
    assert [validate] + [disable] == [validate, disable];
  }
}
