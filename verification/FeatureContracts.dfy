/** Feature contracts (features/contract.py): which features a prediction task needs and how each is
    obtained. */
module FeatureContracts {
  import opened Common

  datatype DataType = FloatType | IntegerType | BooleanType

  datatype MissingValueBehavior = LeaveNull | UseZero | UseConstant

  datatype FeatureKind =
    | DirectField
    | DerivedFromTarget
    | RelatedCount
    | RelatedRatio
    | RelatedRecencyDays
    | RelatedLatestValue

  datatype FeatureSpec = FeatureSpec(name: string, dataType: DataType, missingValue: MissingValueBehavior,
                                     defaultValue: Option<real>, windowDays: Option<int>, required: bool,
                                     kind: FeatureKind,
                                     targetField: Option<string>, secondaryField: Option<string>,
                                     derive: Option<string>, relatedEntity: Option<string>, joinField: Option<string>,
                                     timestampField: Option<string>, filterField: Option<string>,
                                     filterEquals: Option<string>, valueField: Option<string>)

  datatype FeatureContract = FeatureContract(targetEntity: string, features: seq<FeatureSpec>)

  /** An optional text that counts as given: neither missing nor empty. */
  predicate Given(text: Option<string>) {
    text.Some? && text.value != ""
  }

  predicate OnTarget(f: FeatureSpec) {
    f.kind.DirectField? || f.kind.DerivedFromTarget?
  }

  /** What the specification's validator enforces. */
  predicate ValidSpec(f: FeatureSpec) {
    if OnTarget(f) then
      Given(f.targetField) && (f.kind.DerivedFromTarget? ==> Given(f.derive))
    else
      && Given(f.relatedEntity) && Given(f.joinField)
      && (f.kind.RelatedRecencyDays? || f.kind.RelatedRatio? || f.windowDays.Some? ==> Given(f.timestampField))
      && (f.kind.RelatedRatio? ==> f.filterField.Some? && f.filterEquals.Some?)
      && (f.kind.RelatedLatestValue? ==> f.valueField.Some?)
  }

  predicate ValidContract(c: FeatureContract) {
    c.features != [] && forall i :: 0 <= i < |c.features| ==> ValidSpec(c.features[i])
  }

  ghost predicate UniqueNames(c: FeatureContract) {
    forall i, j :: 0 <= i < j < |c.features| ==> c.features[i].name != c.features[j].name
  }

  // ---- the delivery-delay contract ---------------------------------------------------------------

  function FromTarget(name: string, dataType: DataType, missing: MissingValueBehavior, required: bool, field: string,
                      secondary: Option<string>, derive: Option<string>): FeatureSpec {
    FeatureSpec(name, dataType, missing, None, None, required, if derive.None? then DirectField else DerivedFromTarget,
                Some(field), secondary, derive, None, None, None, None, None, None)
  }

  function CountOf(name: string, entity: string, joinField: string, timestampField: Option<string>,
                   windowDays: Option<int>,
                   filterField: Option<string>, filterEquals: Option<string>): FeatureSpec {
    FeatureSpec(name, IntegerType, UseZero, None, windowDays, false, RelatedCount, None, None, None,
                Some(entity), Some(joinField), timestampField, filterField, filterEquals, None)
  }

  function CancelledRatio(name: string, joinField: string): FeatureSpec {
    FeatureSpec(name, FloatType, LeaveNull, None, Some(90), false, RelatedRatio, None, None, None,
                Some("Trip"), Some(joinField), Some("planned_departure_at"), Some("status"), Some("cancelled"), None)
  }

  function LatestOfVehicle(name: string, entity: string, timestampField: Option<string>, valueField: string,
                           derive: Option<string>): FeatureSpec {
    FeatureSpec(name, FloatType, LeaveNull, None, None, false, RelatedLatestValue, None, None, derive,
                Some(entity), Some("vehicle_id"), timestampField, None, None, Some(valueField))
  }

  const DELIVERY_DELAY_RISK_CONTRACT: FeatureContract :=
    FeatureContract("Trip", [
      FromTarget("planned_departure_hour", IntegerType, LeaveNull, true, "planned_departure_at", None,
                 Some("hour_of_day")),
      FromTarget("day_of_week", IntegerType, LeaveNull, true, "planned_departure_at", None, Some("day_of_week")),
      FromTarget("planned_trip_distance_km", FloatType, LeaveNull, true, "planned_distance_km", None, None),
      CountOf("number_of_stops", "RouteStop", "route_id", None, None, None, None),
      LatestOfVehicle("vehicle_age_years", "Vehicle", None, "acquired_at", Some("age_years_at_prediction")),
      LatestOfVehicle("odometer_km", "OdometerReading", Some("recorded_at"), "reading_km", None),
      FeatureSpec("days_since_last_maintenance", FloatType, LeaveNull, None, None, false, RelatedRecencyDays, None,
                  None, None, Some("MaintenanceEvent"), Some("vehicle_id"), Some("completed_at"), None, None, None),
      CountOf("previous_breakdown_count", "MaintenanceEvent", "vehicle_id", Some("started_at"), Some(180),
              Some("event_type"), Some("unscheduled")),
      CountOf("driver_recent_trip_count", "Trip", "driver_id", Some("planned_departure_at"), Some(30), None, None),
      CancelledRatio("driver_late_delivery_ratio", "driver_id"),
      CancelledRatio("route_historical_delay_ratio", "route_id"),
      CountOf("planned_delivery_count", "Delivery", "trip_id", None, None, None, None),
      FromTarget("loading_start_delay_minutes", FloatType, UseZero, false, "actual_departure_at",
                 Some("planned_departure_at"), Some("loading_start_delay_minutes")),
      CountOf("recent_fuel_anomaly_count", "FuelEvent", "vehicle_id", Some("occurred_at"), Some(30), None, None)
    ])
}
