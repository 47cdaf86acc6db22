/** The fixed record schemas and vocabularies of the relational transformer
    (models/transformer/schema.py). */
module TransformerSchema {
  import opened Common

  const NUMERIC_SLOTS := 2
  const CATEGORICAL_SLOTS := 4
  const DATETIME_SLOTS := 4

  const PAD_NAME := "__pad__"
  const TARGET_NAME := "__target__"

  datatype FieldSchema = FieldSchema(numericFields: seq<string>, categoricalFields: seq<string>,
                                     datetimeFields: seq<string>)

  /** Which entities and relationships there are, and at which index of their embeddings. */
  datatype Layout = Layout(schemas: map<string, FieldSchema>, entityVocab: seq<string>, relationshipVocab: seq<string>)

  predicate FitsSlots(schema: FieldSchema) {
    && |schema.numericFields| <= NUMERIC_SLOTS
    && |schema.categoricalFields| <= CATEGORICAL_SLOTS
    && |schema.datetimeFields| <= DATETIME_SLOTS
  }

  ghost predicate ValidLayout(l: Layout) {
    && (forall entity :: entity in l.schemas ==> FitsSlots(l.schemas[entity]))
    && (forall entity :: entity in l.schemas <==> entity in l.entityVocab && entity != PAD_NAME)
    && Distinct(l.entityVocab) && |l.entityVocab| > 0 && l.entityVocab[0] == PAD_NAME
    && Distinct(l.relationshipVocab) && |l.relationshipVocab| > 0 && l.relationshipVocab[0] == PAD_NAME
  }

  /** The relationships that have a block of slots, in block order. */
  function RelationOrder(l: Layout): (order: seq<string>)
    ensures forall name :: name in order <==> name in l.relationshipVocab && name != PAD_NAME && name != TARGET_NAME
  {
    Filter(l.relationshipVocab, name => name != PAD_NAME && name != TARGET_NAME)
  }

  function IndexOf(names: seq<string>, name: string): (i: Option<nat>)
    ensures i.None? <==> name !in names
    ensures i.Some? ==> i.value < |names| && names[i.value] == name
  {
    if names == [] then None
    else if names[0] == name then Some(0)
    else
      match IndexOf(names[1..], name)
      case None => None
      case Some(i) => Some(i + 1)
  }

  // ---- version 0.1 ---------------------------------------------------------------------------------

  const HERMES_LAYOUT: Layout :=
    Layout(map[
      "Trip" := FieldSchema(["planned_distance_km"], ["status", "driver_id", "route_id", "vehicle_id"],
                            ["planned_departure_at", "planned_arrival_at", "actual_departure_at", "actual_arrival_at"]),
      "Vehicle" := FieldSchema(["manufacture_year"], ["model_name", "registration_number"], ["acquired_at"]),
      "MaintenanceEvent" := FieldSchema([], ["event_type", "vehicle_id"], ["started_at", "completed_at"]),
      "OdometerReading" := FieldSchema(["reading_km"], ["source", "vehicle_id"], ["recorded_at"]),
      "FuelEvent" := FieldSchema(["quantity_litres"], ["vehicle_id", "trip_id"], ["occurred_at"]),
      "RouteStop" := FieldSchema(["sequence_number"], ["route_id", "location_label"], []),
      "Delivery" := FieldSchema([], ["status", "trip_id"], ["planned_at", "delivered_at"])
    ],
    ["__pad__", "Trip", "Vehicle", "MaintenanceEvent", "OdometerReading", "FuelEvent", "RouteStop", "Delivery"],
    ["__pad__", "__target__", "uses_vehicle", "assigned_driver_history", "follows_route_history", "has_deliveries",
     "has_maintenance_events", "has_fuel_events"])

  lemma HermesVocabulariesAreDistinct()
    ensures Distinct(HERMES_LAYOUT.entityVocab) && Distinct(HERMES_LAYOUT.relationshipVocab)
  {
    var e, r := HERMES_LAYOUT.entityVocab, HERMES_LAYOUT.relationshipVocab;
    // Names of equal length differ in their first letter.
    assert e[0][0] == '_' && e[2][0] == 'V';
    assert e[5][0] == 'F' && e[6][0] == 'R';
    assert r[3][0] == 'a' && r[4][0] == 'f' && r[6][0] == 'h';
  }

  lemma HermesLayoutIsValid()
    ensures ValidLayout(HERMES_LAYOUT)
  {
    HermesVocabulariesAreDistinct();
    var l := HERMES_LAYOUT;
    forall entity | entity in l.schemas
      ensures FitsSlots(l.schemas[entity])
    {
    }
    assert l.entityVocab[0] == PAD_NAME;
    assert l.schemas.Keys == {l.entityVocab[1], l.entityVocab[2], l.entityVocab[3], l.entityVocab[4], l.entityVocab[5],
                              l.entityVocab[6], l.entityVocab[7]};
  }
}
