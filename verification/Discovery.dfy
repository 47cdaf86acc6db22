/** Schema discovery (schemas/service.py, schemas/repository.py): what a completed discovery records
    about a database and about its drift since the connection's previous snapshot. */
module Discovery {
  import opened Common
  import opened Repository
  import opened SchemaMetadata
  import opened Fingerprints
  import opened Drift
  import opened Snapshots

  datatype DiscoveryError = NoSuchSnapshot(id: Uuid) | IntrospectionFailed

  predicate OfConnection(row: Row<SchemaSnapshot>, tenantId: Uuid, connectionId: Uuid) {
    row.tenantId == tenantId && row.body.connectionId == connectionId
  }

  /** A completed snapshot of the connection that precedes the given sequence number. */
  predicate IsEarlier(rows: Repository.Table<SchemaSnapshot>, tenantId: Uuid, connectionId: Uuid, before: nat,
                      id: Uuid) {
    id in rows && OfConnection(rows[id], tenantId, connectionId) && rows[id].body.status.Completed?
    && rows[id].body.sequenceNumber < before
  }

  ghost predicate IsLatestEarlier(rows: Repository.Table<SchemaSnapshot>, tenantId: Uuid, connectionId: Uuid,
                                  before: nat, latest: Option<Uuid>) {
    match latest
    case None => forall id :: !IsEarlier(rows, tenantId, connectionId, before, id)
    case Some(best) =>
      && IsEarlier(rows, tenantId, connectionId, before, best)
      && forall id :: IsEarlier(rows, tenantId, connectionId, before, id) ==>
           rows[id].body.sequenceNumber <= rows[best].body.sequenceNumber
  }

  /** The database never holds two snapshots of one connection with one sequence number. */
  ghost predicate SequencesUnique(rows: Repository.Table<SchemaSnapshot>) {
    forall i, j ::
      i in rows && j in rows && i != j && OfConnection(rows[j], rows[i].tenantId, rows[i].body.connectionId) ==>
      rows[i].body.sequenceNumber != rows[j].body.sequenceNumber
  }

  /** Completed snapshots carry what was found and its fingerprints. */
  ghost predicate Fingerprinted(h: Hashing, snapshot: SchemaSnapshot) {
    snapshot.status.Completed? ==>
      && snapshot.metadata.Some?
      && snapshot.schemaFingerprint == Some(SchemaFingerprint(h, snapshot.metadata.value))
      && snapshot.tableFingerprints == TableFingerprints(h, snapshot.metadata.value)
  }

  ghost predicate Recorded(h: Hashing, rows: Repository.Table<SchemaSnapshot>) {
    SequencesUnique(rows) && forall id :: id in rows ==> Fingerprinted(h, rows[id].body)
  }

  /** `events` is a complete drift report between the two introspections. */
  ghost predicate IsDriftReport(h: Hashing, before: Introspection, after: Introspection, events: seq<DriftEvent>) {
    var oldTables, newTables := TablesByName(before.tables), TablesByName(after.tables);
    exists renamed :: RenamesAreBest(h, oldTables, newTables, renamed) && Reports(oldTables, newTables, renamed, events)
  }

  /** The drift summary is missing exactly when there is nothing to compare with. */
  ghost predicate DriftRecorded(h: Hashing, rows: Repository.Table<SchemaSnapshot>, tenantId: Uuid,
                                snapshot: SchemaSnapshot, previous: Option<Uuid>)
    requires snapshot.metadata.Some?
             && (previous.Some? ==> previous.value in rows && rows[previous.value].body.metadata.Some?)
  {
    match previous
    case None => snapshot.driftSummary.None?
    case Some(id) =>
      && snapshot.driftSummary.Some?
      && IsDriftReport(h, rows[id].body.metadata.value, snapshot.metadata.value, snapshot.driftSummary.value)
  }

  /** The number after the highest of the connection so far, counted from 1. */
  ghost predicate IsNextNumber(rows: Repository.Table<SchemaSnapshot>, tenantId: Uuid, connectionId: Uuid, n: nat) {
    && n > 0
    && (forall id :: id in rows && OfConnection(rows[id], tenantId, connectionId) ==>
          rows[id].body.sequenceNumber < n)
    && (n == 1 || exists id :: id in rows && OfConnection(rows[id], tenantId, connectionId)
                               && rows[id].body.sequenceNumber == n - 1)
  }

  /** A discovery is started: one more pending snapshot. */
  ghost predicate Started(rows: Repository.Table<SchemaSnapshot>, rows': Repository.Table<SchemaSnapshot>,
                          tenantId: Uuid, connectionId: Uuid, id: Uuid, snapshot: SchemaSnapshot) {
    && id !in rows && rows' == rows[id := Row(tenantId, snapshot)]
    && snapshot == SchemaSnapshot(connectionId, snapshot.sequenceNumber, Pending, None, map[], None, None)
    && IsNextNumber(rows, tenantId, connectionId, snapshot.sequenceNumber)
  }

  /** A discovery is run: it fails, or records what was found and how it differs from `previous`. */
  ghost predicate Ran(h: Hashing, rows: Repository.Table<SchemaSnapshot>, rows': Repository.Table<SchemaSnapshot>,
                      tenantId: Uuid, id: Uuid, introspected: Result<Introspection, DiscoveryError>,
                      r: Result<SchemaSnapshot, DiscoveryError>, previous: Option<Uuid>) {
    match Get(rows, id, tenantId)
    case None => r == Err(NoSuchSnapshot(id)) && rows' == rows
    case Some(before) =>
      match introspected
      case Err(e) => r == Err(e) && rows' == rows[id := Row(tenantId, before.(status := Failed))]
      case Ok(result) =>
        && r.Ok? && rows' == rows[id := Row(tenantId, r.value)]
        && r.value == before.(status := Completed, metadata := Some(result),
                              tableFingerprints := TableFingerprints(h, result),
                              schemaFingerprint := Some(SchemaFingerprint(h, result)),
                              driftSummary := r.value.driftSummary)
        && IsLatestEarlier(rows, tenantId, before.connectionId, before.sequenceNumber, previous)
        && (previous.Some? ==> previous.value in rows && rows[previous.value].body.metadata.Some?)
        && DriftRecorded(h, rows, tenantId, r.value, previous)
  }

  class SchemaDiscoveryService {
    const snapshots: TenantScopedRepository<SchemaSnapshot>
    const hashing: Hashing

    ghost predicate Valid()
      reads snapshots
    {
      Recorded(hashing, snapshots.rows)
    }

    constructor (hashing: Hashing)
      ensures Valid() && snapshots.rows == map[] && this.hashing == hashing && fresh(snapshots)
    {
      snapshots := new TenantScopedRepository<SchemaSnapshot>();
      this.hashing := hashing;
    }

    /** One more than the highest sequence number of the connection so far. */
    method NextSequenceNumber(tenantId: Uuid, connectionId: Uuid) returns (n: nat)
      ensures IsNextNumber(snapshots.rows, tenantId, connectionId, n)
    {
      var current := 0;
      var rows := snapshots.rows;
      var todo := rows.Keys;
      while todo != {}
        invariant todo <= rows.Keys
        invariant forall id :: id in rows && id !in todo && OfConnection(rows[id], tenantId, connectionId) ==>
          rows[id].body.sequenceNumber <= current
        invariant current == 0 || exists id :: id in rows && OfConnection(rows[id], tenantId, connectionId)
                                               && rows[id].body.sequenceNumber == current
      {
        ghost var some := SomeMember(todo);
        var id :| id in todo;
        if OfConnection(rows[id], tenantId, connectionId) && rows[id].body.sequenceNumber > current {
          current := rows[id].body.sequenceNumber;
        }
        todo := todo - {id};
      }
      return current + 1;
    }

    method LatestCompleted(tenantId: Uuid, connectionId: Uuid, before: nat) returns (latest: Option<Uuid>)
      ensures IsLatestEarlier(snapshots.rows, tenantId, connectionId, before, latest)
    {
      latest := None;
      var rows := snapshots.rows;
      var todo := rows.Keys;
      while todo != {}
        invariant todo <= rows.Keys
        invariant latest.Some? ==> IsEarlier(rows, tenantId, connectionId, before, latest.value)
        invariant forall id :: id !in todo && IsEarlier(rows, tenantId, connectionId, before, id) ==>
          latest.Some? && rows[id].body.sequenceNumber <= rows[latest.value].body.sequenceNumber
      {
        ghost var some := SomeMember(todo);
        var id :| id in todo;
        if IsEarlier(rows, tenantId, connectionId, before, id)
           && (latest.None? || rows[id].body.sequenceNumber > rows[latest.value].body.sequenceNumber) {
          latest := Some(id);
        }
        todo := todo - {id};
      }
    }

    /** A new pending snapshot, numbered after all earlier ones of its connection. */
    method StartDiscovery(tenantId: Uuid, connectionId: Uuid, id: Uuid) returns (snapshot: SchemaSnapshot)
      requires Valid() && id !in snapshots.rows
      modifies snapshots
      ensures Valid()
      ensures Started(old(snapshots.rows), snapshots.rows, tenantId, connectionId, id, snapshot)
    {
      var sequence := NextSequenceNumber(tenantId, connectionId);
      snapshot := SchemaSnapshot(connectionId, sequence, Pending, None, map[], None, None);
      var _ := snapshots.Add(id, None, snapshot, tenantId);
    }

    /** Runs the discovery: `introspected` is what reaching and reading the database gave. */
    method RunDiscovery(tenantId: Uuid, id: Uuid, introspected: Result<Introspection, DiscoveryError>)
      returns (r: Result<SchemaSnapshot, DiscoveryError>, ghost previous: Option<Uuid>)
      requires Valid()
      modifies snapshots
      ensures Valid()
      ensures Ran(hashing, old(snapshots.rows), snapshots.rows, tenantId, id, introspected, r, previous)
    {
      previous := None;
      var required := snapshots.Require(id, tenantId);
      if required.Err? {
        return Err(NoSuchSnapshot(id)), None;
      }
      var snapshot := required.value;
      snapshot := snapshot.(status := Running);
      if introspected.Err? {
        snapshot := snapshot.(status := Failed);
        snapshots.Update(id, snapshot);
        return Err(introspected.error), None;
      }
      var result := introspected.value;
      var latest := LatestCompleted(tenantId, snapshot.connectionId, snapshot.sequenceNumber);
      previous := latest;
      var driftEvents: seq<DriftEvent> := [];
      if latest.Some? {
        var previousRow := snapshots.rows[latest.value].body;
        assert Fingerprinted(hashing, previousRow);
        var renamed;
        driftEvents, renamed := CompareSnapshots(hashing, previousRow.metadata.value, result);
      }
      snapshot := snapshot.(metadata := Some(result));
      snapshot := snapshot.(tableFingerprints := TableFingerprints(hashing, result));
      snapshot := snapshot.(schemaFingerprint := Some(SchemaFingerprint(hashing, result)));
      snapshot := snapshot.(driftSummary := if latest.Some? then Some(driftEvents) else None);
      snapshot := snapshot.(status := Completed);
      snapshots.Update(id, snapshot);
      return Ok(snapshot), previous;
    }
  }
}
