/** The dry run (features/planner.py): what a plan says about a feature, against what extraction then
    gives for it. */
module FeaturePlanning {
  import opened Common
  import opened Documents
  import Expressions
  import opened FeatureContracts
  import opened FeatureQueries
  import opened FeatureExtraction

  datatype PlanReason = TargetFieldNotMapped | NoProductionMapping(entity: string) | JoinNotMappedOnOneSide

  datatype PlanEntry = PlanEntry(feature: string, kind: FeatureKind, available: bool, reason: Option<PlanReason>,
                                 sourceTable: Option<string>, columns: seq<string>)

  function Columns(column: Option<string>): seq<string> {
    if Given(column) then [column.value] else []
  }

  function PlanTargetFeature(target: MappingDocument, f: FeatureSpec): Result<PlanEntry, FeatureError>
    requires ValidSpec(f) && OnTarget(f)
  {
    match ResolveColumn(target, f.targetField.value)
    case Err(e) => Err(e)
    case Ok(column) =>
      Ok(PlanEntry(f.name, f.kind, column.Some?, if column.Some? then None else Some(TargetFieldNotMapped),
                   Some(target.SourceTable()), Columns(column)))
  }

  function PlanRelatedFeature(q: Request, target: MappingDocument, f: FeatureSpec): Result<PlanEntry, FeatureError>
    requires ValidSpec(f) && !OnTarget(f)
  {
    match RelatedMapping(q, f)
    case None => Ok(PlanEntry(f.name, f.kind, false, Some(NoProductionMapping(f.relatedEntity.value)), None, []))
    case Some(m) =>
      match (ResolveColumn(target, f.joinField.value), ResolveColumn(m.document, f.joinField.value))
      case (Err(e), _) => Err(e)
      case (_, Err(e)) => Err(e)
      case (Ok(join), Ok(relatedJoin)) =>
        var available := join.Some? && relatedJoin.Some?;
        Ok(PlanEntry(f.name, f.kind, available, if available then None else Some(JoinNotMappedOnOneSide),
                     Some(m.document.SourceTable()), Columns(join) + Columns(relatedJoin)))
  }

  function PlanOne(q: Request, target: MappingDocument, f: FeatureSpec): Result<PlanEntry, FeatureError>
    requires ValidSpec(f)
  {
    if OnTarget(f) then PlanTargetFeature(target, f) else PlanRelatedFeature(q, target, f)
  }

  /** The plan lists one entry per feature, in contract order, or stops at the first feature a needed
      field of which is not plainly mapped. */
  ghost predicate IsPlan(q: Request, target: MappingDocument, r: Result<seq<PlanEntry>, FeatureError>)
    requires ValidContract(q.contract)
  {
    match r
    case Ok(entries) =>
      && |entries| == |q.contract.features|
      && forall i :: 0 <= i < |entries| ==> PlanOne(q, target, q.contract.features[i]) == Ok(entries[i])
    case Err(e) =>
      exists i :: 0 <= i < |q.contract.features| && PlanOne(q, target, q.contract.features[i]) == Err(e)
                  && forall j :: 0 <= j < i ==> PlanOne(q, target, q.contract.features[j]).Ok?
  }

  method BuildQueryPlan(q: Request, target: MappingDocument) returns (r: Result<seq<PlanEntry>, FeatureError>)
    requires ValidContract(q.contract)
    ensures IsPlan(q, target, r)
  {
    var entries: seq<PlanEntry> := [];
    for n := 0 to |q.contract.features|
      invariant |entries| == n
      invariant forall i :: 0 <= i < n ==> PlanOne(q, target, q.contract.features[i]) == Ok(entries[i])
    {
      var f := q.contract.features[n];
      ghost var one := PlanOne(q, target, f);
      if OnTarget(f) {
        var column := ResolveColumn(target, f.targetField.value);
        if column.Err? {
          return Err(column.error);
        }
        var reason := if column.value.Some? then None else Some(TargetFieldNotMapped);
        entries := entries + [PlanEntry(f.name, f.kind, column.value.Some?, reason, Some(target.SourceTable()),
                                        Columns(column.value))];
        continue;
      }
      var related := RelatedMapping(q, f);
      if related.None? {
        var reason := NoProductionMapping(f.relatedEntity.value);
        entries := entries + [PlanEntry(f.name, f.kind, false, Some(reason), None, [])];
        continue;
      }
      var join := ResolveColumn(target, f.joinField.value);
      if join.Err? {
        return Err(join.error);
      }
      var relatedJoin := ResolveColumn(related.value.document, f.joinField.value);
      if relatedJoin.Err? {
        return Err(relatedJoin.error);
      }
      var available := join.value.Some? && relatedJoin.value.Some?;
      var reason := if available then None else Some(JoinNotMappedOnOneSide);
      entries := entries + [PlanEntry(f.name, f.kind, available, reason, Some(related.value.document.SourceTable()),
                                      Columns(join.value) + Columns(relatedJoin.value))];
    }
    r := Ok(entries);
  }

  // ---- dry run against extraction --------------------------------------------------------------------

  predicate IsStartDelay(f: FeatureSpec) {
    f.derive == Some("loading_start_delay_minutes") && !f.kind.DirectField?
  }

  /** Zero as a value of the feature's type. */
  function ZeroOf(f: FeatureSpec): FeatureValue {
    if f.dataType.BooleanType? then Flag(false) else Amount(0.0)
  }

  predicate ZeroIsMissing(f: FeatureSpec) {
    DeclaredMissing(f) == ZeroOf(f)
  }

  lemma UnmappedFieldIsNull(q: Request, db: Databases, row: Row, field: string)
    requires q.target.Some? && TargetRowOf(q, db) == Ok(Some(row))
    requires ResolveColumn(q.target.value.document, field) == Ok(None)
    ensures At(row, field) == Null
  {
  }

  /** Where nothing is found, a derived value is null too, except the start delay, which is zero. */
  lemma DerivedFromNothing(q: Request, f: FeatureSpec, secondary: Cell, used: Option<Uuid>)
    requires f.derive.Some? && !f.kind.DirectField?
             && ApplyDerive(f.derive.value, Null, secondary, q.predictionTime).Ok?
    ensures var derived := ApplyDerive(f.derive.value, Null, secondary, q.predictionTime).value;
            Finish(q, f, derived, used).Ok?
            && (Finish(q, f, derived, used).value.value == DeclaredMissing(f) <==>
                  (IsStartDelay(f) ==> ZeroIsMissing(f)))
  {
    assert Truncated(0.0) == 0;
  }

  /** A target feature the plan calls unavailable gets its declared missing value, unless it is a
      start delay whose missing value is not zero: then it gets zero. */
  lemma UnavailableTargetFeature(q: Request, db: Databases, row: Row, f: FeatureSpec)
    requires ValidSpec(f) && OnTarget(f) && q.target.Some? && TargetRowOf(q, db) == Ok(Some(row))
    requires PlanOne(q, q.target.value.document, f).Ok? && !PlanOne(q, q.target.value.document, f).value.available
    requires ExtractOne(q, db, row, f).Ok?
    ensures ExtractOne(q, db, row, f).value.value == DeclaredMissing(f) <==> (IsStartDelay(f) ==> ZeroIsMissing(f))
  {
    UnmappedFieldIsNull(q, db, row, f.targetField.value);
    if f.kind.DerivedFromTarget? {
      DerivedFromNothing(q, f, if Given(f.secondaryField) then At(row, f.secondaryField.value) else Null, None);
    }
  }

  /** A related feature is only derived once there is a mapping and a value to join on. */
  predicate Reaches(q: Request, row: Row, f: FeatureSpec) {
    OnTarget(f) || (RelatedMapping(q, f).Some? && f.joinField.Some? && !At(row, f.joinField.value).Null?)
  }

  /** Where there is nothing to extract, extraction falls back on the declared missing value. */
  predicate IsDefaulted(q: Request, row: Row, f: FeatureSpec) {
    IsStartDelay(f) && Reaches(q, row, f) ==> ZeroIsMissing(f)
  }

  /** A related feature the plan calls unavailable gets its declared missing value, unless it is a start
      delay that is derived from nothing and whose missing value is not zero. */
  lemma UnavailableRelatedFeature(q: Request, db: Databases, row: Row, f: FeatureSpec)
    requires ValidSpec(f) && !OnTarget(f) && q.target.Some? && TargetRowOf(q, db) == Ok(Some(row))
    requires PlanOne(q, q.target.value.document, f).Ok? && !PlanOne(q, q.target.value.document, f).value.available
    requires ExtractOne(q, db, row, f).Ok?
    ensures ExtractOne(q, db, row, f).value.value == DeclaredMissing(f) <==> IsDefaulted(q, row, f)
  {
    if RelatedMapping(q, f).Some? {
      var m := RelatedMapping(q, f).value;
      if ResolveColumn(q.target.value.document, f.joinField.value).value.None? {
        UnmappedFieldIsNull(q, db, row, f.joinField.value);
      } else {
        var joinValue := At(row, f.joinField.value);
        if !joinValue.Null? && f.derive.Some? {
          DerivedFromNothing(q, f, Null, Some(m.versionId));
        }
      }
    }
  }

  lemma {:induction false} FeatureInBatch(q: Request, db: Databases, row: Row, n: nat, i: nat)
    requires ValidContract(q.contract) && UniqueNames(q.contract) && i < n <= |q.contract.features|
    requires ExtractFirst(q, db, row, n).Ok?
    ensures var f := q.contract.features[i];
            ExtractOne(q, db, row, f).Ok? && f.name in ExtractFirst(q, db, row, n).value.features
            && ExtractFirst(q, db, row, n).value.features[f.name] == ExtractOne(q, db, row, f).value.value
  {
    if i < n - 1 {
      FeatureInBatch(q, db, row, n - 1, i);
      assert q.contract.features[i].name != q.contract.features[n - 1].name;
    }
  }

  lemma DelayOfNothingIsZero(q: Request, f: FeatureSpec, secondary: Cell, used: Option<Uuid>)
    requires IsStartDelay(f) && ApplyDerive(f.derive.value, Null, secondary, q.predictionTime).Ok?
    ensures var derived := ApplyDerive(f.derive.value, Null, secondary, q.predictionTime).value;
            Finish(q, f, derived, used).Ok? && Finish(q, f, derived, used).value.value == ZeroOf(f)
  {
    assert Truncated(0.0) == 0;
  }

  lemma UnavailableTargetDelayIsZero(q: Request, db: Databases, row: Row, f: FeatureSpec)
    requires ValidSpec(f) && OnTarget(f) && q.target.Some? && TargetRowOf(q, db) == Ok(Some(row))
    requires PlanOne(q, q.target.value.document, f).Ok? && !PlanOne(q, q.target.value.document, f).value.available
    requires ExtractOne(q, db, row, f).Ok? && IsStartDelay(f)
    ensures ExtractOne(q, db, row, f).value.value == ZeroOf(f)
  {
    UnmappedFieldIsNull(q, db, row, f.targetField.value);
    DelayOfNothingIsZero(q, f, if Given(f.secondaryField) then At(row, f.secondaryField.value) else Null, None);
  }

  lemma UnavailableRelatedDelayIsZero(q: Request, db: Databases, row: Row, f: FeatureSpec)
    requires ValidSpec(f) && !OnTarget(f) && q.target.Some? && TargetRowOf(q, db) == Ok(Some(row))
    requires PlanOne(q, q.target.value.document, f).Ok? && !PlanOne(q, q.target.value.document, f).value.available
    requires ExtractOne(q, db, row, f).Ok? && IsStartDelay(f) && Reaches(q, row, f)
    ensures ExtractOne(q, db, row, f).value.value == ZeroOf(f)
  {
    if ResolveColumn(q.target.value.document, f.joinField.value).value.None? {
      UnmappedFieldIsNull(q, db, row, f.joinField.value);
    } else {
      DelayOfNothingIsZero(q, f, Null, Some(RelatedMapping(q, f).value.versionId));
    }
  }

  /** When both succeed, a feature the plan reports unavailable gets its declared missing value if and
      only if it is not a start delay that is derived from nothing, or its missing value is zero. */
  lemma DryRunAgreesWithExtraction(q: Request, db: Databases, entries: seq<PlanEntry>, i: nat)
    requires ValidContract(q.contract) && UniqueNames(q.contract) && q.target.Some? && i < |q.contract.features|
    requires IsPlan(q, q.target.value.document, Ok(entries)) && !entries[i].available
    requires Extraction(q, db).Ok?
    ensures var f := q.contract.features[i];
            && f.name in Extraction(q, db).value.features
            && TargetRowOf(q, db).Ok? && TargetRowOf(q, db).value.Some?
            && (Extraction(q, db).value.features[f.name] == DeclaredMissing(f)
                <==> IsDefaulted(q, TargetRowOf(q, db).value.value, f))
  {
    var row := TargetRowOf(q, db).value.value;
    var f := q.contract.features[i];
    FeatureInBatch(q, db, row, |q.contract.features|, i);
    if OnTarget(f) {
      UnavailableTargetFeature(q, db, row, f);
    } else {
      UnavailableRelatedFeature(q, db, row, f);
    }
  }

  /** What a start delay that is derived from nothing gets otherwise is zero. */
  lemma StartDelayWithoutZeroDisagrees(q: Request, db: Databases, entries: seq<PlanEntry>, i: nat)
    requires ValidContract(q.contract) && UniqueNames(q.contract) && q.target.Some? && i < |q.contract.features|
    requires IsPlan(q, q.target.value.document, Ok(entries)) && !entries[i].available
    requires Extraction(q, db).Ok?
    requires !IsDefaulted(q, TargetRowOf(q, db).value.value, q.contract.features[i])
    ensures var f := q.contract.features[i];
            && f.name in Extraction(q, db).value.features
            && Extraction(q, db).value.features[f.name] == ZeroOf(f) != DeclaredMissing(f)
  {
    var row, f := TargetRowOf(q, db).value.value, q.contract.features[i];
    FeatureInBatch(q, db, row, |q.contract.features|, i);
    DryRunAgreesWithExtraction(q, db, entries, i);
    if OnTarget(f) {
      UnavailableTargetDelayIsZero(q, db, row, f);
    } else {
      UnavailableRelatedDelayIsZero(q, db, row, f);
    }
  }

  /** Such a feature, and a mapping that knows a trip's id alone. */
  const START_DELAY: FeatureSpec :=
    FromTarget("delay", FloatType, LeaveNull, false, "actual", None, Some("loading_start_delay_minutes"))

  const TRIPS: MappingDocument :=
    MappingDocument("Trip", "app", "trips",
                    map["trip" := FieldMapping([FromColumn("id", None, None)], Expressions.Null)], map[], [])

  function StartDelayRequest(reference: string, predictionTime: int, conversions: TextConversions): Request {
    Request(FeatureContract("Trip", [START_DELAY]), Some(ResolvedMapping(1, TRIPS, 1, ["app"], ["trips"])), map[],
            reference, predictionTime, conversions)
  }

  function OneTrip(reference: string): Databases {
    (connectionId, table) => [map["id" := Text(reference)]]
  }

  /** A row that carries the reference in the column of a document's one identity field is found. */
  lemma ReferencedRowIsFetched(d: MappingDocument, field: string, column: string, reference: string,
                               needed: set<string>, schemaAllowlist: seq<string>, tableAllowlist: seq<string>,
                               rows: seq<Row>)
    requires d.identity.Keys == {field} && ResolveColumn(d, field) == Ok(Some(column))
    requires Allowed(d, schemaAllowlist, tableAllowlist) && !SomeFieldUnplain(d, field, needed)
    requires rows != [] && At(rows[0], column) == Text(reference)
    ensures TargetRow(d, reference, needed, schemaAllowlist, tableAllowlist, rows).Ok?
    ensures TargetRow(d, reference, needed, schemaAllowlist, tableAllowlist, rows).value.Some?
    ensures forall other: string ::
              other in needed && ResolveColumn(d, other).Ok? && ResolveColumn(d, other).value.Some? ==>
              At(TargetRow(d, reference, needed, schemaAllowlist, tableAllowlist, rows).value.value, other)
              == At(rows[0], ResolveColumn(d, other).value.value)
  {
    assert |d.identity| == |d.identity.Keys| == 1;
    assert field in d.identity;
    assert IdentityColumn(d) == Ok((field, column));
    assert AllHold(rows[0], [EqualTo(column, Text(reference))]);
    assert rows[0] in Select(rows, [EqualTo(column, Text(reference))]);
  }

  lemma OneTripIsFetched(reference: string, predictionTime: int, conversions: TextConversions)
    ensures var q := StartDelayRequest(reference, predictionTime, conversions);
            TargetRowOf(q, OneTrip(reference)).Ok? && TargetRowOf(q, OneTrip(reference)).value.Some?
  {
    var needed := NeededFields(StartDelayRequest(reference, predictionTime, conversions).contract.features);
    assert needed == {"actual"} by {
      assert NeededFields([START_DELAY]) == FieldsUsedBy(START_DELAY) + NeededFields([]);
    }
    var row: Row := map["id" := Text(reference)];
    ReferencedRowIsFetched(TRIPS, "trip", "id", reference, needed, ["app"], ["trips"], [row]);
    assert OneTrip(reference)(1, TRIPS.SourceTable()) == [row];
  }

  /** A contract of one start delay, for a mapping without its departure. */
  ghost predicate AsksForUnmappedDelay(q: Request, f: FeatureSpec) {
    && q.contract.features == [f] && ValidSpec(f) && f.kind.DerivedFromTarget? && IsStartDelay(f)
    && f.dataType.FloatType? && f.secondaryField.None? && f.missingValue.LeaveNull?
    && q.target.Some? && ResolveColumn(q.target.value.document, f.targetField.value) == Ok(None)
  }

  lemma UnmappedDelayIsZero(q: Request, db: Databases, f: FeatureSpec)
    requires AsksForUnmappedDelay(q, f) && TargetRowOf(q, db).Ok? && TargetRowOf(q, db).value.Some?
    ensures PlanOne(q, q.target.value.document, f).Ok? && !PlanOne(q, q.target.value.document, f).value.available
    ensures DeclaredMissing(f) == Missing
    ensures Extraction(q, db).Ok? && Extraction(q, db).value.features == map[f.name := Amount(0.0)]
  {
    var row := TargetRowOf(q, db).value.value;
    UnmappedFieldIsNull(q, db, row, f.targetField.value);
    assert ExtractFirst(q, db, row, 0) == Ok(Batch(map[], [], map[]));
  }

  lemma TripsAsksForUnmappedDelay(reference: string, predictionTime: int, conversions: TextConversions)
    ensures AsksForUnmappedDelay(StartDelayRequest(reference, predictionTime, conversions), START_DELAY)
  {
  }

  /** The failing input: the plan calls the delay unavailable, its missing value is null, and the batch
      says zero. */
  lemma StartDelayIsExtractedAsZero(reference: string, predictionTime: int, conversions: TextConversions)
    ensures var q := StartDelayRequest(reference, predictionTime, conversions);
            && PlanOne(q, TRIPS, START_DELAY).Ok? && !PlanOne(q, TRIPS, START_DELAY).value.available
            && DeclaredMissing(START_DELAY) == Missing
            && Extraction(q, OneTrip(reference)).Ok?
            && Extraction(q, OneTrip(reference)).value.features == map[START_DELAY.name := Amount(0.0)]
  {
    TripsAsksForUnmappedDelay(reference, predictionTime, conversions);
    OneTripIsFetched(reference, predictionTime, conversions);
    UnmappedDelayIsZero(StartDelayRequest(reference, predictionTime, conversions), OneTrip(reference), START_DELAY);
  }

  /** A contract of one related start delay, for a related mapping without the join field. */
  ghost predicate AsksForUnjoinedDelay(q: Request, f: FeatureSpec) {
    && q.contract.features == [f] && ValidSpec(f) && !OnTarget(f) && IsStartDelay(f)
    && f.dataType.FloatType? && f.missingValue.LeaveNull?
    && q.target.Some? && ResolveColumn(q.target.value.document, f.joinField.value).Ok?
    && RelatedMapping(q, f).Some?
    && var m := RelatedMapping(q, f).value;
       && Allowed(m.document, m.schemaAllowlist, m.tableAllowlist)
       && ResolveColumn(m.document, f.joinField.value) == Ok(None)
  }

  lemma UnjoinedDelayIsZero(q: Request, db: Databases, f: FeatureSpec)
    requires AsksForUnjoinedDelay(q, f) && TargetRowOf(q, db).Ok? && TargetRowOf(q, db).value.Some?
    requires !At(TargetRowOf(q, db).value.value, f.joinField.value).Null?
    ensures PlanOne(q, q.target.value.document, f).Ok? && !PlanOne(q, q.target.value.document, f).value.available
    ensures DeclaredMissing(f) == Missing
    ensures Extraction(q, db).Ok? && Extraction(q, db).value.features == map[f.name := Amount(0.0)]
  {
    var row := TargetRowOf(q, db).value.value;
    DelayOfNothingIsZero(q, f, Null, Some(RelatedMapping(q, f).value.versionId));
    assert ExtractRelated(q, db, row, f).Ok? && ExtractRelated(q, db, row, f).value.value == Amount(0.0);
    assert ExtractFirst(q, db, row, 0) == Ok(Batch(map[], [], map[]));
  }

  /** The delay of the trip's vehicle, and a vehicle mapping that lacks the field to join on. */
  const VEHICLE_DELAY: FeatureSpec :=
    LatestOfVehicle("delay", "Vehicle", None, "actual", Some("loading_start_delay_minutes"))

  const TRIPS_WITH_VEHICLE: MappingDocument :=
    TRIPS.(fields := map["vehicle_id" := FieldMapping([FromColumn("vehicle", None, None)], Expressions.Null)])

  const VEHICLES: MappingDocument :=
    MappingDocument("Vehicle", "app", "vehicles",
                    map["plate" := FieldMapping([FromColumn("plate", None, None)], Expressions.Null)], map[], [])

  function VehicleDelayRequest(reference: string, predictionTime: int, conversions: TextConversions): Request {
    Request(FeatureContract("Trip", [VEHICLE_DELAY]),
            Some(ResolvedMapping(1, TRIPS_WITH_VEHICLE, 1, ["app"], ["trips"])),
            map["Vehicle" := Some(ResolvedMapping(2, VEHICLES, 1, ["app"], ["vehicles"]))],
            reference, predictionTime, conversions)
  }

  function OneDrivenTrip(reference: string): Databases {
    (connectionId, table) => [map["id" := Text(reference), "vehicle" := Text("van")]]
  }

  lemma VehiclesAskForUnjoinedDelay(reference: string, predictionTime: int, conversions: TextConversions)
    ensures AsksForUnjoinedDelay(VehicleDelayRequest(reference, predictionTime, conversions), VEHICLE_DELAY)
  {
    assert "vehicle_id" !in VEHICLES.AllFields();
    assert "vehicle_id" in TRIPS_WITH_VEHICLE.AllFields();
  }

  lemma DrivenTripIsFetched(reference: string, predictionTime: int, conversions: TextConversions)
    ensures var q := VehicleDelayRequest(reference, predictionTime, conversions);
            && TargetRowOf(q, OneDrivenTrip(reference)).Ok? && TargetRowOf(q, OneDrivenTrip(reference)).value.Some?
            && At(TargetRowOf(q, OneDrivenTrip(reference)).value.value, "vehicle_id") == Text("van")
  {
    var needed := NeededFields(VehicleDelayRequest(reference, predictionTime, conversions).contract.features);
    assert needed == {"vehicle_id"} by {
      assert NeededFields([VEHICLE_DELAY]) == FieldsUsedBy(VEHICLE_DELAY) + NeededFields([]);
    }
    var row: Row := map["id" := Text(reference), "vehicle" := Text("van")];
    assert ResolveColumn(TRIPS_WITH_VEHICLE, "vehicle_id") == Ok(Some("vehicle"));
    ReferencedRowIsFetched(TRIPS_WITH_VEHICLE, "trip", "id", reference, needed, ["app"], ["trips"], [row]);
    assert OneDrivenTrip(reference)(1, TRIPS_WITH_VEHICLE.SourceTable()) == [row];
  }

  /** The failing input for a related feature: the join is unavailable, nothing is found, and the batch
      says zero. */
  lemma VehicleDelayIsExtractedAsZero(reference: string, predictionTime: int, conversions: TextConversions)
    ensures var q, db := VehicleDelayRequest(reference, predictionTime, conversions), OneDrivenTrip(reference);
            && PlanOne(q, TRIPS_WITH_VEHICLE, VEHICLE_DELAY).Ok?
            && !PlanOne(q, TRIPS_WITH_VEHICLE, VEHICLE_DELAY).value.available
            && DeclaredMissing(VEHICLE_DELAY) == Missing
            && Extraction(q, db).Ok? && Extraction(q, db).value.features == map[VEHICLE_DELAY.name := Amount(0.0)]
  {
    VehiclesAskForUnjoinedDelay(reference, predictionTime, conversions);
    DrivenTripIsFetched(reference, predictionTime, conversions);
    UnjoinedDelayIsZero(VehicleDelayRequest(reference, predictionTime, conversions), OneDrivenTrip(reference),
                        VEHICLE_DELAY);
  }

  // ---- the delivery-delay contract --------------------------------------------------------------------

  predicate DerivesOther(f: FeatureSpec) {
    f.derive != Some("loading_start_delay_minutes")
  }

  lemma OnlyTheDelayIsAStartDelay()
    ensures forall i :: 0 <= i < |DELIVERY_DELAY_RISK_CONTRACT.features| && i != 12 ==>
              DerivesOther(DELIVERY_DELAY_RISK_CONTRACT.features[i])
  {
  }

  lemma DeliveryDelayZeroIsMissing()
    ensures ZeroIsMissing(DELIVERY_DELAY_RISK_CONTRACT.features[12])
  {
  }

  lemma DeliveryDelayNamesAreUnique()
    ensures UniqueNames(DELIVERY_DELAY_RISK_CONTRACT)
  {
    var features := DELIVERY_DELAY_RISK_CONTRACT.features;
    // Names of equal length differ in one of these characters.
    assert features[0].name[10] != features[11].name[10];
    assert features[1].name[0] != features[5].name[0];
    assert features[2].name[1] != features[7].name[1] && features[2].name[0] != features[8].name[0]
           && features[7].name[0] != features[8].name[0];
    assert features[6].name[0] != features[12].name[0];
  }

  /** Every feature of the delivery-delay contract meets the provision. */
  lemma DryRunSuitsDeliveryDelay(i: nat)
    requires i < |DELIVERY_DELAY_RISK_CONTRACT.features|
    ensures IsStartDelay(DELIVERY_DELAY_RISK_CONTRACT.features[i]) ==>
              ZeroIsMissing(DELIVERY_DELAY_RISK_CONTRACT.features[i])
  {
    OnlyTheDelayIsAStartDelay();
    DeliveryDelayZeroIsMissing();
  }
}
