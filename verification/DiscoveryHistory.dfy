/** Discovery over whole runs, told from the calls alone: how discoveries are numbered, and since which earlier
    one a completed discovery reports the drift. */
module DiscoveryHistory {
  import opened Common
  import opened Repository
  import opened SchemaMetadata
  import opened Fingerprints
  import opened Snapshots
  import opened Discovery

  datatype Call =
    | Start(tenantId: Uuid, connectionId: Uuid, id: Uuid)
    | Run(tenantId: Uuid, id: Uuid, introspected: Result<Introspection, DiscoveryError>)

  type Rows = Repository.Table<SchemaSnapshot>

  ghost predicate Step(h: Hashing, rows: Rows, rows': Rows, c: Call) {
    match c
    case Start(t, connectionId, id) => exists snapshot :: Started(rows, rows', t, connectionId, id, snapshot)
    case Run(t, id, introspected) => exists r, previous :: Ran(h, rows, rows', t, id, introspected, r, previous)
  }

  ghost predicate StepAt(h: Hashing, calls: seq<Call>, states: seq<Rows>, i: nat)
    requires i < |calls| < |states|
  {
    Step(h, states[i], states[i + 1], calls[i])
  }

  /** Each call leads from one state of the table to the next, starting with the empty one. */
  ghost predicate IsRun(h: Hashing, calls: seq<Call>, states: seq<Rows>) {
    |states| == |calls| + 1 && states[0] == map[] && forall i :: 0 <= i < |calls| ==> StepAt(h, calls, states, i)
  }

  // ---- what the calls tell ------------------------------------------------------------------------

  /** Where the discovery was started. */
  function StartOf(calls: seq<Call>, id: Uuid): (i: Option<nat>)
    ensures i.Some? ==> i.value < |calls| && calls[i.value].Start? && calls[i.value].id == id
  {
    if calls == [] then None
    else
      var last := calls[|calls| - 1];
      if last.Start? && last.id == id then Some(|calls| - 1) else StartOf(calls[..|calls| - 1], id)
  }

  /** What its last run by the tenant found, unless that failed. */
  function FoundBy(calls: seq<Call>, tenantId: Uuid, id: Uuid): Option<Introspection> {
    if calls == [] then None
    else
      match calls[|calls| - 1]
      case Run(t, ran, r) =>
        if t != tenantId || ran != id then FoundBy(calls[..|calls| - 1], tenantId, id)
        else if r.Ok? then Some(r.value)
        else None
      case Start(_, _, started) => if started == id then None else FoundBy(calls[..|calls| - 1], tenantId, id)
  }

  /** How many discoveries of the connection were started. */
  function StartedFor(calls: seq<Call>, tenantId: Uuid, connectionId: Uuid): nat {
    if calls == [] then 0
    else
      var last := calls[|calls| - 1];
      StartedFor(calls[..|calls| - 1], tenantId, connectionId)
      + if last.Start? && last.tenantId == tenantId && last.connectionId == connectionId then 1 else 0
  }

  predicate IsOf(calls: seq<Call>, tenantId: Uuid, connectionId: Uuid, id: Uuid) {
    && StartOf(calls, id).Some?
    && calls[StartOf(calls, id).value].tenantId == tenantId
    && calls[StartOf(calls, id).value].connectionId == connectionId
  }

  /** Another discovery of the connection, started before this one, whose last run succeeded. */
  predicate Precedes(calls: seq<Call>, tenantId: Uuid, connectionId: Uuid, id: Uuid, other: Uuid) {
    && IsOf(calls, tenantId, connectionId, id) && IsOf(calls, tenantId, connectionId, other)
    && StartOf(calls, other).value < StartOf(calls, id).value
    && FoundBy(calls, tenantId, other).Some?
  }

  ghost predicate IsLastBefore(calls: seq<Call>, tenantId: Uuid, connectionId: Uuid, id: Uuid, other: Uuid) {
    && Precedes(calls, tenantId, connectionId, id, other)
    && forall o :: Precedes(calls, tenantId, connectionId, id, o) ==>
         StartOf(calls, o).value <= StartOf(calls, other).value
  }

  // ---- the rows follow the calls ------------------------------------------------------------------

  /** The snapshot of one discovery, as far as the calls tell it. */
  ghost predicate TellsOf(calls: seq<Call>, rows: Rows, id: Uuid) {
    && (id in rows <==> StartOf(calls, id).Some?)
    && (id in rows ==>
          && var row, i := rows[id], StartOf(calls, id).value;
             IsOf(calls, row.tenantId, row.body.connectionId, id)
             && row.body.sequenceNumber == StartedFor(calls[..i], row.tenantId, row.body.connectionId) + 1
             && (row.body.status.Completed? <==> FoundBy(calls, row.tenantId, id).Some?)
             && (row.body.status.Completed? ==> row.body.metadata == FoundBy(calls, row.tenantId, id)))
  }

  ghost predicate Follows(calls: seq<Call>, rows: Rows) {
    forall id :: TellsOf(calls, rows, id)
  }

  lemma {:induction false} StartsCount(calls: seq<Call>, tenantId: Uuid, connectionId: Uuid, i: nat)
    requires i < |calls|
    requires calls[i].Start? && calls[i].tenantId == tenantId && calls[i].connectionId == connectionId
    ensures StartedFor(calls[..i], tenantId, connectionId) < StartedFor(calls, tenantId, connectionId)
  {
    var front := calls[..|calls| - 1];
    if i < |calls| - 1 {
      assert front[..i] == calls[..i];
      StartsCount(front, tenantId, connectionId, i);
    } else {
      assert front == calls[..i];
    }
  }

  /** As long as the rows follow the calls, the highest number of a connection is how many of its discoveries
      were started. */
  lemma NumbersCountStarts(calls: seq<Call>, rows: Rows, tenantId: Uuid, connectionId: Uuid, n: nat)
    requires Follows(calls, rows) && IsNextNumber(rows, tenantId, connectionId, n)
    requires DistinctStarts(calls)
    ensures n == StartedFor(calls, tenantId, connectionId) + 1
  {
    if StartedFor(calls, tenantId, connectionId) > 0 {
      var i := LastStart(calls, tenantId, connectionId);
      var id := calls[i].id;
      StartOfIs(calls, i);
      assert TellsOf(calls, rows, id);
      assert rows[id].body.sequenceNumber == StartedFor(calls, tenantId, connectionId);
    }
    if n > 1 {
      var id :| id in rows && OfConnection(rows[id], tenantId, connectionId) && rows[id].body.sequenceNumber == n - 1;
      assert TellsOf(calls, rows, id);
      StartsCount(calls, tenantId, connectionId, StartOf(calls, id).value);
    }
  }

  ghost predicate DistinctStarts(calls: seq<Call>) {
    forall i, j :: 0 <= i < j < |calls| && calls[i].Start? && calls[j].Start? ==> calls[i].id != calls[j].id
  }

  lemma {:induction false} StartOfIs(calls: seq<Call>, i: nat)
    requires DistinctStarts(calls) && i < |calls| && calls[i].Start?
    ensures StartOf(calls, calls[i].id) == Some(i)
  {
    if i < |calls| - 1 {
      StartOfIs(calls[..|calls| - 1], i);
    }
  }

  lemma {:induction false} LastStart(calls: seq<Call>, tenantId: Uuid, connectionId: Uuid) returns (i: nat)
    requires StartedFor(calls, tenantId, connectionId) > 0
    ensures i < |calls| && calls[i].Start? && calls[i].tenantId == tenantId && calls[i].connectionId == connectionId
    ensures StartedFor(calls[..i], tenantId, connectionId) + 1 == StartedFor(calls, tenantId, connectionId)
  {
    var n := |calls| - 1;
    if calls[n].Start? && calls[n].tenantId == tenantId && calls[n].connectionId == connectionId {
      i := n;
    } else {
      i := LastStart(calls[..n], tenantId, connectionId);
      assert calls[..n][..i] == calls[..i];
    }
  }

  /** Over every run the snapshots are those the calls tell: the n-th discovery started for a connection carries
      the number n, and it is completed, with what was found, exactly when its last run succeeded. */
  lemma {:induction false} RunsFollowTheirCalls(h: Hashing, calls: seq<Call>, states: seq<Rows>)
    requires IsRun(h, calls, states)
    ensures Follows(calls, states[|calls|]) && DistinctStarts(calls)
  {
    hide Step, TellsOf;
    if calls == [] {
      forall id
        ensures TellsOf(calls, states[0], id)
      {
        NothingToTell(calls, states[0], id);
      }
    } else {
      var n := |calls| - 1;
      var front, rows, last := calls[..n], states[..n + 1], states[n + 1];
      forall i | 0 <= i < n
        ensures StepAt(h, front, rows, i)
      {
        assert StepAt(h, calls, states, i);
      }
      RunsFollowTheirCalls(h, front, rows);
      assert StepAt(h, calls, states, n);
      forall id
        ensures TellsOf(calls, last, id)
      {
        StepFollows(h, calls, states[n], last, id);
      }
      StartIsNew(h, calls, states[n], last);
    }
  }

  lemma NothingToTell(calls: seq<Call>, rows: Rows, id: Uuid)
    requires calls == [] && rows == map[]
    ensures TellsOf(calls, rows, id)
  {
  }

  lemma StartIsNew(h: Hashing, calls: seq<Call>, before: Rows, rows: Rows)
    requires calls != [] && Follows(calls[..|calls| - 1], before) && DistinctStarts(calls[..|calls| - 1])
    requires Step(h, before, rows, calls[|calls| - 1])
    ensures DistinctStarts(calls)
  {
    var n := |calls| - 1;
    var front := calls[..n];
    if calls[n].Start? {
      forall i | 0 <= i < n && calls[i].Start?
        ensures calls[i].id != calls[n].id
      {
        StartOfIs(front, i);
        assert TellsOf(front, before, calls[i].id);
      }
    }
  }

  lemma StepFollows(h: Hashing, calls: seq<Call>, before: Rows, rows: Rows, id: Uuid)
    requires calls != [] && Follows(calls[..|calls| - 1], before) && DistinctStarts(calls[..|calls| - 1])
    requires Step(h, before, rows, calls[|calls| - 1])
    ensures TellsOf(calls, rows, id)
  {
    var n := |calls| - 1;
    var front := calls[..n];
    assert TellsOf(front, before, id);
    if StartOf(front, id).Some? {
      assert calls[..StartOf(front, id).value] == front[..StartOf(front, id).value];
    }
    match calls[n]
    case Start(t, connectionId, started) =>
      var snapshot :| Started(before, rows, t, connectionId, started, snapshot);
      NumbersCountStarts(front, before, t, connectionId, snapshot.sequenceNumber);
    case Run(t, ran, introspected) =>
      var r, previous :| Ran(h, before, rows, t, ran, introspected, r, previous);
  }

  // ---- since when the drift is reported -----------------------------------------------------------

  lemma {:induction false} LaterStartsCountMore(calls: seq<Call>, tenantId: Uuid, connectionId: Uuid, i: nat, j: nat)
    requires i <= j <= |calls|
    ensures StartedFor(calls[..i], tenantId, connectionId) <= StartedFor(calls[..j], tenantId, connectionId)
    decreases j
  {
    if i < j {
      LaterStartsCountMore(calls, tenantId, connectionId, i, j - 1);
      assert calls[..j][..j - 1] == calls[..j - 1];
    }
  }

  /** Of two discoveries of a connection the one started earlier has the lower number. */
  lemma EarlierStartsCountLess(calls: seq<Call>, rows: Rows, tenantId: Uuid, connectionId: Uuid, a: Uuid, b: Uuid)
    requires Follows(calls, rows) && IsOf(calls, tenantId, connectionId, a) && IsOf(calls, tenantId, connectionId, b)
    ensures a in rows && b in rows
    ensures StartOf(calls, a).value < StartOf(calls, b).value
            <==> rows[a].body.sequenceNumber < rows[b].body.sequenceNumber
  {
    assert TellsOf(calls, rows, a) && TellsOf(calls, rows, b);
    var i, j := StartOf(calls, a).value, StartOf(calls, b).value;
    if i < j {
      StartsCount(calls[..j], tenantId, connectionId, i);
      assert calls[..j][..i] == calls[..i];
    } else {
      LaterStartsCountMore(calls, tenantId, connectionId, j, i);
    }
  }

  /** After every run, a discovery that succeeds is completed with what it found, and reports the drift since the
      last discovery of its own connection that was started before it and has succeeded; it reports none exactly
      when there is no such discovery. */
  lemma DriftIsSinceTheLastDiscovery(h: Hashing, calls: seq<Call>, states: seq<Rows>, rows: Rows, tenantId: Uuid,
                                     connectionId: Uuid, id: Uuid, found: Introspection)
    requires IsRun(h, calls, states) && IsOf(calls, tenantId, connectionId, id)
    requires Step(h, states[|calls|], rows, Run(tenantId, id, Ok(found)))
    ensures id in rows && rows[id].body.status.Completed? && rows[id].body.metadata == Some(found)
    ensures var drift := rows[id].body.driftSummary;
            && (drift.None? <==> forall other :: !Precedes(calls, tenantId, connectionId, id, other))
            && forall other :: IsLastBefore(calls, tenantId, connectionId, id, other) ==>
                 drift.Some? && IsDriftReport(h, FoundBy(calls, tenantId, other).value, found, drift.value)
  {
    RunsFollowTheirCalls(h, calls, states);
    var before := states[|calls|];
    hide IsRun;
    assert TellsOf(calls, before, id);
    var r, previous :| Ran(h, before, rows, tenantId, id, Ok(found), r, previous);
    var number := before[id].body.sequenceNumber;
    hide IsDriftReport;
    assert IsLatestEarlier(before, tenantId, connectionId, number, previous);
    forall other
      ensures IsEarlier(before, tenantId, connectionId, number, other)
              <==> Precedes(calls, tenantId, connectionId, id, other)
    {
      EarlierIsPreceding(calls, before, tenantId, connectionId, id, other);
    }
    forall other | IsLastBefore(calls, tenantId, connectionId, id, other)
      ensures previous == Some(other) && before[other].body.metadata == FoundBy(calls, tenantId, other)
    {
      assert TellsOf(calls, before, other);
      LatestIsLast(calls, before, tenantId, connectionId, id, previous, other);
    }
  }

  lemma EarlierIsPreceding(calls: seq<Call>, rows: Rows, tenantId: Uuid, connectionId: Uuid, id: Uuid, other: Uuid)
    requires Follows(calls, rows) && IsOf(calls, tenantId, connectionId, id) && id in rows
    ensures IsEarlier(rows, tenantId, connectionId, rows[id].body.sequenceNumber, other)
            <==> Precedes(calls, tenantId, connectionId, id, other)
  {
    assert TellsOf(calls, rows, other);
    if IsOf(calls, tenantId, connectionId, other) {
      EarlierStartsCountLess(calls, rows, tenantId, connectionId, other, id);
    }
  }

  lemma LatestIsLast(calls: seq<Call>, rows: Rows, tenantId: Uuid, connectionId: Uuid, id: Uuid,
                     latest: Option<Uuid>, other: Uuid)
    requires Follows(calls, rows) && IsLastBefore(calls, tenantId, connectionId, id, other) && id in rows
    requires IsLatestEarlier(rows, tenantId, connectionId, rows[id].body.sequenceNumber, latest)
    ensures latest == Some(other)
  {
    EarlierIsPreceding(calls, rows, tenantId, connectionId, id, other);
    assert IsEarlier(rows, tenantId, connectionId, rows[id].body.sequenceNumber, other);
    var found := latest.value;
    EarlierIsPreceding(calls, rows, tenantId, connectionId, id, found);
    EarlierStartsCountLess(calls, rows, tenantId, connectionId, found, other);
  }
}
