/** What the temporal pairs of a pretraining batch tell: when both records have a timestamp of their own, and
    when the label gives the order of the two. */
module TemporalPairs {
  import opened Common
  import opened TransformerSchema
  import opened FeatureQueries
  import opened Encoding
  import opened Pretraining

  // ---- which positions are links ------------------------------------------------------------------

  /** In the row of an example whose target is marked as such, the links to corrupt and the records to pair are
      exactly the positions that hold a related record: never the target, never padding. */
  lemma LinksAreRelatedRecords(e: Encoder, k: nat, ex: Example, row: seq<Position>, i: nat, j: nat)
    requires e.vocabSize >= 2 && IsRow(e, k, ex, row) && ex.target.relationship == TARGET_NAME
    requires i < |RelationOrder(e.layout)| && j < k
    ensures PositionOf(k, i, j) < |row|
    ensures !IsRelated(e.layout, row[0])
    ensures IsRelated(e.layout, row[PositionOf(k, i, j)])
            <==> j < |Placed(ex, RelationOrder(e.layout)[i], k)|
  {
    var relation := RelationOrder(e.layout)[i];
    var placed := Placed(ex, relation, k);
    assert SlotWritten(e, k, ex, row, i, j);
    if j < |placed| {
      assert placed[j] in RelatedOf(ex, relation);
      assert placed[j].relationship == relation;
      assert relation in RelationOrder(e.layout);
    }
  }

  // ---- timestamps of candidates -----------------------------------------------------------------

  predicate HasTimestamp(p: Position) {
    |p.datetimeMask| > 0 && p.datetimeMask[0]
  }

  /** Away from corrupted links a candidate has its own timestamp, and it is not a target. */
  lemma GenuineCandidatesHaveTimestamps(c: Masking, row: seq<Position>, b: nat, r: RowResult, s: nat)
    requires IsRowResult(c, row, b, r) && s < |row| && !IsCorrupted(r, s) && IsCandidate(c.layout, row, r.masked, s)
    ensures HasTimestamp(row[s]) && !r.targets[s].datetime[0]
  {
    assert PositionOutcome(c, row, s, r.masked[s], r.targets[s], r.links[s], r.genuine[s]);
  }

  /** Whatever is drawn for the row, every candidate for a temporal pair has its own timestamp. */
  ghost predicate CandidatesHaveTimestamps(c: Masking, row: seq<Position>) {
    forall b: nat, r: RowResult, s: nat :: IsRowResult(c, row, b, r) && IsCandidate(c.layout, row, r.masked, s) ==>
      HasTimestamp(row[s])
  }

  /** A related record without a timestamp can be corrupted with one of another entity that has one. */
  predicate IsExposed(l: Layout, row: seq<Position>, s: nat, other: nat) {
    IsCrossEntity(l, row, s, other) && IsRelated(l, row[s]) && !HasTimestamp(row[s]) && HasTimestamp(row[other])
  }

  /** Both members of a temporal pair have usable timestamps, whatever is drawn, if and only if links are
      never corrupted or no related record without a timestamp has a cross-entity one with a timestamp. */
  lemma CandidatesHaveTimestampsExactlyWhen(c: Masking, row: seq<Position>)
    requires ValidLayout(c.layout) && WellFormedRow(c.layout, row)
    ensures CandidatesHaveTimestamps(c, row)
            <==> c.corruptionProbability <= 0.0 || forall s: nat, other: nat :: !IsExposed(c.layout, row, s, other)
  {
    if c.corruptionProbability > 0.0 && exists s: nat, other: nat :: IsExposed(c.layout, row, s, other) {
      var s: nat, other: nat :| IsExposed(c.layout, row, s, other);
      var r := SomeResult(c, row, 0, s, other);
      assert IsCandidate(c.layout, row, r.masked, s);
    } else {
      forall b: nat, r: RowResult, s: nat | IsRowResult(c, row, b, r) && IsCandidate(c.layout, row, r.masked, s)
        ensures HasTimestamp(row[s])
      {
        if IsCorrupted(r, s) {
          var other := CorruptedLinksCarryAnotherEntity(c, row, b, r, s);
          assert PositionOutcome(c, row, s, r.masked[s], r.targets[s], r.links[s], r.genuine[s]);
          assert !IsExposed(c.layout, row, s, other);
        } else {
          GenuineCandidatesHaveTimestamps(c, row, b, r, s);
        }
      }
    }
  }

  /** The related records of one entity, at least two, all lack a timestamp, and all other related records
      have one. */
  ghost predicate OnlyUndated(l: Layout, row: seq<Position>, entityType: nat) {
    && (exists s: nat, s': nat :: s < s' < |row| && IsRelated(l, row[s]) && IsRelated(l, row[s'])
                                  && row[s].entityType == entityType && row[s'].entityType == entityType)
    && (exists s: nat :: s < |row| && IsRelated(l, row[s]) && row[s].entityType != entityType)
    && (forall s: nat :: s < |row| && IsRelated(l, row[s]) ==>
          (HasTimestamp(row[s]) <==> row[s].entityType != entityType))
  }

  lemma UndatedRecordIsCandidate(c: Masking, row: seq<Position>, b: nat, r: RowResult, entityType: nat, s: nat)
    requires c.corruptionProbability >= 1.0 && IsRowResult(c, row, b, r) && OnlyUndated(c.layout, row, entityType)
    requires s < |row| && IsRelated(c.layout, row[s]) && row[s].entityType == entityType
    ensures IsCandidate(c.layout, row, r.masked, s)
  {
    assert PositionOutcome(c, row, s, r.masked[s], r.targets[s], r.links[s], r.genuine[s]);
    var dated: nat :| dated < |row| && IsRelated(c.layout, row[dated]) && row[dated].entityType != entityType;
    assert IsCrossEntity(c.layout, row, s, dated);
    var other := CorruptedLinksCarryAnotherEntity(c, row, b, r, s);
  }

  /** If every link is corrupted and every entity paired, all draws for such a row pair two records neither
      of which has a timestamp. */
  lemma UndatedRecordsArePaired(c: Masking, row: seq<Position>, b: nat, r: RowResult, entityType: nat) returns (p: Pair)
    requires c.corruptionProbability >= 1.0 && c.pairProbability >= 1.0
    requires IsRowResult(c, row, b, r) && OnlyUndated(c.layout, row, entityType)
    ensures p in r.pairs && ValidPair(c.layout, row, r.masked, p)
    ensures !HasTimestamp(row[p.first]) && !HasTimestamp(row[p.second])
  {
    var s: nat, s': nat :| s < s' < |row| && IsRelated(c.layout, row[s]) && IsRelated(c.layout, row[s'])
                           && row[s].entityType == entityType && row[s'].entityType == entityType;
    UndatedRecordIsCandidate(c, row, b, r, entityType, s);
    UndatedRecordIsCandidate(c, row, b, r, entityType, s');
    assert TwoCandidates(c.layout, row, r.masked, entityType);
    p :| p in r.pairs && p.first < |row| && row[p.first].entityType == entityType;
  }

  // ---- timestamps of encoded records ------------------------------------------------------------

  /** The record's first datetime field, the one pairs are about. */
  function FirstTimestamp(e: Encoder, r: Record): Option<int>
    requires Known(e, r)
  {
    var fields := e.layout.schemas[r.entity].datetimeFields;
    if fields != [] && At(r.fields, fields[0]).Instant? then Some(At(r.fields, fields[0]).t) else None
  }

  lemma FirstTimestampIsEncoded(e: Encoder, p: Position, r: Record)
    requires e.vocabSize >= 2 && HoldsRecord(e, p, r)
    ensures HasTimestamp(p) <==> FirstTimestamp(e, r).Some?
    ensures |p.datetimeValues| > 0
    ensures p.datetimeValues[0]
            == match FirstTimestamp(e, r) { case Some(t) => EncodeDatetime(t) case None => NO_MOMENT }
  {
    var fields := e.layout.schemas[r.entity].datetimeFields;
    if fields != [] {
      assert ViewOf(e, r).datetime[0] == DatetimeCell(r, fields[0]);
    }
  }

  // ---- what the label says ----------------------------------------------------------------------

  /** The first day whose feature is at its upper bound. */
  const LAST_DAY := EPOCH_DAY + 3653

  /** The day the year feature still tells: days up to the epoch are one, and so are those from the last day
      on; a missing timestamp counts as the epoch. */
  function EncodedDay(timestamp: Option<int>): int {
    match timestamp
    case None => EPOCH_DAY
    case Some(t) =>
      var day := t / MICROSECONDS_PER_DAY;
      if day < EPOCH_DAY then EPOCH_DAY else if day > LAST_DAY then LAST_DAY else day
  }

  function YearsOf(timestamp: Option<int>): real {
    match timestamp
    case None => NO_MOMENT.years
    case Some(t) => EncodeDatetime(t).years
  }

  function YearsAt(day: int): real {
    Clamp((day - EPOCH_DAY) as real / 365.25 / 10.0)
  }

  lemma YearsGrowByDay(day: int, day': int)
    requires EPOCH_DAY <= day <= LAST_DAY && EPOCH_DAY <= day' <= LAST_DAY
    ensures YearsAt(day) < YearsAt(day') <==> day < day'
  {
    var x, x' := (day - EPOCH_DAY) as real, (day' - EPOCH_DAY) as real;
    assert YearsAt(day) == if x > 3652.5 then 1.0 else x / 365.25 / 10.0;
    assert YearsAt(day') == if x' > 3652.5 then 1.0 else x' / 365.25 / 10.0;
  }

  lemma YearsTellTheDay(timestamp: Option<int>)
    ensures YearsOf(timestamp) == YearsAt(EncodedDay(timestamp))
  {
    if timestamp.Some? {
      var day := timestamp.value / MICROSECONDS_PER_DAY;
      if day > LAST_DAY {
        assert (day - EPOCH_DAY) as real >= 3653.0;
      }
    }
  }

  /** The label of a pair: true exactly when the first record's encoded day is before the second's. */
  lemma LabelComparesDays(e: Encoder, row: seq<Position>, masked: seq<Position>, p: Pair, r: Record, r': Record)
    requires e.vocabSize >= 2 && ValidPair(e.layout, row, masked, p)
    requires HoldsRecord(e, row[p.first], r) && HoldsRecord(e, row[p.second], r')
    ensures p.firstIsEarlier <==> EncodedDay(FirstTimestamp(e, r)) < EncodedDay(FirstTimestamp(e, r'))
  {
    FirstTimestampIsEncoded(e, row[p.first], r);
    FirstTimestampIsEncoded(e, row[p.second], r');
    YearsTellTheDay(FirstTimestamp(e, r));
    YearsTellTheDay(FirstTimestamp(e, r'));
    YearsGrowByDay(EncodedDay(FirstTimestamp(e, r)), EncodedDay(FirstTimestamp(e, r')));
  }

  /** Of two records with timestamps, a label that says earlier is always right, and the label agrees with
      the order of the instants if and only if an earlier first record has an earlier encoded day: not on
      one day, not up to the epoch, not from the last day on. */
  lemma LabelAgreesExactlyWhen(e: Encoder, row: seq<Position>, masked: seq<Position>, p: Pair, r: Record, r': Record)
    requires e.vocabSize >= 2 && ValidPair(e.layout, row, masked, p)
    requires HoldsRecord(e, row[p.first], r) && HoldsRecord(e, row[p.second], r')
    requires FirstTimestamp(e, r).Some? && FirstTimestamp(e, r').Some?
    ensures var t, t' := FirstTimestamp(e, r).value, FirstTimestamp(e, r').value;
            && (p.firstIsEarlier ==> t < t')
            && ((p.firstIsEarlier <==> t < t') <==> t >= t' || EncodedDay(Some(t)) < EncodedDay(Some(t')))
  {
    LabelComparesDays(e, row, masked, p, r, r');
    var t, t' := FirstTimestamp(e, r).value, FirstTimestamp(e, r').value;
    if t >= t' {
      DaysKeepOrder(t', t);
    }
  }

  lemma DaysKeepOrder(t: int, t': int)
    requires t <= t'
    ensures t / MICROSECONDS_PER_DAY <= t' / MICROSECONDS_PER_DAY
  {
  }

  // ---- two deliveries without a date ------------------------------------------------------------

  /** The records of one entity all lack a timestamp and two of them are placed; all others have one and one
      of them is placed. */
  ghost predicate IsUndatedExample(e: Encoder, k: nat, ex: Example, entity: string) {
    && (forall r :: r in ex.related && Known(e, r) ==> (FirstTimestamp(e, r).Some? <==> r.entity != entity))
    && (exists relation, j, j' :: TwoPlaced(e, k, ex, entity, relation, j, j'))
    && (exists relation, j :: OtherPlaced(e, k, ex, entity, relation, j))
  }

  predicate TwoPlaced(e: Encoder, k: nat, ex: Example, entity: string, relation: string, j: int, j': int) {
    && relation in RelationOrder(e.layout) && 0 <= j < j' < |Placed(ex, relation, k)|
    && Placed(ex, relation, k)[j].entity == entity && Placed(ex, relation, k)[j'].entity == entity
  }

  predicate OtherPlaced(e: Encoder, k: nat, ex: Example, entity: string, relation: string, j: int) {
    && relation in RelationOrder(e.layout) && 0 <= j < |Placed(ex, relation, k)|
    && Placed(ex, relation, k)[j].entity != entity
  }

  lemma SameNameSameIndex(names: seq<string>, name: string, other: string)
    requires name in names
    ensures IndexOf(names, other) == IndexOf(names, name) <==> name == other
  {
  }

  /** A record of a relation's block is related, not the target. */
  lemma BlockRecordIsRelated(e: Encoder, p: Position, r: Record)
    requires e.vocabSize >= 2 && HoldsRecord(e, p, r) && r.relationship != TARGET_NAME
    ensures IsRelated(e.layout, p)
  {
    SameNameSameIndex(e.layout.relationshipVocab, r.relationship, TARGET_NAME);
  }

  lemma PlacedIsRelated(e: Encoder, k: nat, ex: Example, row: seq<Position>, i: nat, j: nat)
    requires e.vocabSize >= 2 && IsRow(e, k, ex, row)
    requires i < |RelationOrder(e.layout)| && j < |Placed(ex, RelationOrder(e.layout)[i], k)|
    ensures PositionOf(k, i, j) < |row| && IsRelated(e.layout, row[PositionOf(k, i, j)])
    ensures HoldsRecord(e, row[PositionOf(k, i, j)], Placed(ex, RelationOrder(e.layout)[i], k)[j])
    ensures Placed(ex, RelationOrder(e.layout)[i], k)[j] in ex.related
  {
    var relation := RelationOrder(e.layout)[i];
    var r := Placed(ex, relation, k)[j];
    assert SlotWritten(e, k, ex, row, i, j);
    assert r in RelatedOf(ex, relation);
    assert relation in RelationOrder(e.layout);
    BlockRecordIsRelated(e, row[PositionOf(k, i, j)], r);
  }

  lemma RelatedIsPlaced(e: Encoder, k: nat, ex: Example, row: seq<Position>, s: nat) returns (r: Record)
    requires e.vocabSize >= 2 && IsRow(e, k, ex, row) && s < |row| && IsRelated(e.layout, row[s])
    requires ex.target.relationship == TARGET_NAME
    ensures r in ex.related && HoldsRecord(e, row[s], r)
  {
    assert s != 0;
    var i, j := EveryPositionIsASlot(k, |RelationOrder(e.layout)|, s);
    assert SlotWritten(e, k, ex, row, i, j);
    PlacedIsRelated(e, k, ex, row, i, j);
    r := Placed(ex, RelationOrder(e.layout)[i], k)[j];
  }

  lemma EntityIsEncoded(e: Encoder, p: Position, r: Record, entity: string)
    requires e.vocabSize >= 2 && HoldsRecord(e, p, r) && entity in e.layout.entityVocab
    ensures p.entityType == IndexOf(e.layout.entityVocab, entity).value <==> r.entity == entity
  {
    SameNameSameIndex(e.layout.entityVocab, r.entity, entity);
  }

  /** Encoding such an example gives such a row. */
  lemma RowOfUndatedExample(e: Encoder, k: nat, ex: Example, row: seq<Position>, entity: string)
    requires e.vocabSize >= 2 && IsRow(e, k, ex, row) && entity in e.layout.entityVocab
    requires ex.target.relationship == TARGET_NAME && IsUndatedExample(e, k, ex, entity)
    ensures OnlyUndated(e.layout, row, IndexOf(e.layout.entityVocab, entity).value)
  {
    var relation, j, j' :| TwoPlaced(e, k, ex, entity, relation, j, j');
    var i :| 0 <= i < |RelationOrder(e.layout)| && RelationOrder(e.layout)[i] == relation;
    PlacedIsRelated(e, k, ex, row, i, j);
    PlacedIsRelated(e, k, ex, row, i, j');
    EntityIsEncoded(e, row[PositionOf(k, i, j)], Placed(ex, relation, k)[j], entity);
    EntityIsEncoded(e, row[PositionOf(k, i, j')], Placed(ex, relation, k)[j'], entity);
    assert PositionOf(k, i, j) < PositionOf(k, i, j');
    var relation', n :| OtherPlaced(e, k, ex, entity, relation', n);
    var i' :| 0 <= i' < |RelationOrder(e.layout)| && RelationOrder(e.layout)[i'] == relation';
    PlacedIsRelated(e, k, ex, row, i', n);
    EntityIsEncoded(e, row[PositionOf(k, i', n)], Placed(ex, relation', k)[n], entity);
    forall s: nat | s < |row| && IsRelated(e.layout, row[s])
      ensures HasTimestamp(row[s]) <==> row[s].entityType != IndexOf(e.layout.entityVocab, entity).value
    {
      var r := RelatedIsPlaced(e, k, ex, row, s);
      FirstTimestampIsEncoded(e, row[s], r);
      EntityIsEncoded(e, row[s], r, entity);
    }
  }

  /** A trip with two deliveries that have no date yet, and one fuelling of its vehicle. */
  const PLANNED_DELIVERY: Record :=
    Record("Delivery", "has_deliveries", map["trip_id" := Text("T"), "planned_at" := Null])

  const FUELLING: Record :=
    Record("FuelEvent", "has_fuel_events", map["vehicle_id" := Text("V"), "occurred_at" := Instant(0)])

  const TRIP_WITH_DELIVERIES: Example :=
    Example(Record("Trip", TARGET_NAME, map["trip_id" := Text("T"), "vehicle_id" := Text("V")]),
            [PLANNED_DELIVERY, PLANNED_DELIVERY, FUELLING], None)

  lemma TwoAndOneArePlaced(ex: Example, d: Record, f: Record)
    requires ex.related == [d, d, f] && d.relationship != f.relationship
    ensures Placed(ex, d.relationship, 2) == [d, d] && Placed(ex, f.relationship, 2) == [f]
  {
    assert ex.related[1..] == [d, f] && [d, f][1..] == [f] && [f][1..] == [];
    forall relation
      ensures Filter([f], OfRelation(relation)) == if f.relationship == relation then [f] else []
    {
      assert Filter<Record>([], OfRelation(relation)) == [];
    }
    assert Filter([d, f], OfRelation(d.relationship)) == [d];
    assert Filter([d, f], OfRelation(f.relationship)) == [f];
    assert RelatedOf(ex, d.relationship) == [d, d];
    assert RelatedOf(ex, f.relationship) == [f];
  }

  /** What of a layout the example relies on. */
  ghost predicate HasDeliveries(l: Layout) {
    && {"Trip", "Delivery", "FuelEvent"} <= l.schemas.Keys
    && (forall entity :: entity in l.schemas ==> entity in l.entityVocab)
    && l.schemas["Trip"].numericFields == ["planned_distance_km"]
    && l.schemas["Delivery"] == FieldSchema([], ["status", "trip_id"], ["planned_at", "delivered_at"])
    && l.schemas["FuelEvent"] == FieldSchema(["quantity_litres"], ["vehicle_id", "trip_id"], ["occurred_at"])
    && TARGET_NAME in l.relationshipVocab
    && "has_deliveries" in RelationOrder(l) && "has_fuel_events" in RelationOrder(l)
  }

  lemma HermesHasDeliveries()
    ensures HasDeliveries(HERMES_LAYOUT)
  {
    HermesLayoutIsValid();
    HermesRelations();
    var vocab := HERMES_LAYOUT.relationshipVocab;
    assert vocab[5] in vocab && vocab[7] in vocab;
    DeliverySchemas();
  }

  lemma DeliverySchemas()
    ensures {"Trip", "Delivery", "FuelEvent"} <= HERMES_LAYOUT.schemas.Keys
    ensures HERMES_LAYOUT.schemas["Trip"].numericFields == ["planned_distance_km"]
    ensures HERMES_LAYOUT.schemas["Delivery"] == FieldSchema([], ["status", "trip_id"], ["planned_at", "delivered_at"])
    ensures HERMES_LAYOUT.schemas["FuelEvent"]
            == FieldSchema(["quantity_litres"], ["vehicle_id", "trip_id"], ["occurred_at"])
  {
  }

  lemma HermesRelations()
    ensures var vocab := HERMES_LAYOUT.relationshipVocab;
            && |vocab| == 8 && vocab[0] == PAD_NAME && vocab[1] == TARGET_NAME
            && vocab[5] == "has_deliveries" && vocab[7] == "has_fuel_events"
            && forall i :: 2 <= i < 8 ==> vocab[i] != PAD_NAME && vocab[i] != TARGET_NAME
  {
    var vocab := HERMES_LAYOUT.relationshipVocab;
    assert forall i :: 2 <= i < 8 ==> vocab[i][0] != '_';
  }

  lemma PlacedAreRelated(ex: Example, relation: string, k: nat, r: Record)
    requires r in Placed(ex, relation, k)
    ensures r in ex.related
  {
    assert r in RelatedOf(ex, relation);
  }

  lemma UndatedExampleOf(e: Encoder, ex: Example, d: Record, f: Record)
    requires Encodable(e, ex.target) && Encodable(e, d) && Encodable(e, f)
    requires ex.related == [d, d, f] && d.entity != f.entity && d.relationship != f.relationship
    requires d.relationship in RelationOrder(e.layout) && f.relationship in RelationOrder(e.layout)
    requires FirstTimestamp(e, d).None? && FirstTimestamp(e, f).Some?
    ensures IsUndatedExample(e, 2, ex, d.entity) && ExampleEncodable(e, 2, ex)
  {
    TwoAndOneArePlaced(ex, d, f);
    assert TwoPlaced(e, 2, ex, d.entity, d.relationship, 0, 1);
    assert OtherPlaced(e, 2, ex, d.entity, f.relationship, 0);
    assert forall r :: r in ex.related ==> r == d || r == f;
    forall relation, r | relation in RelationOrder(e.layout) && r in Placed(ex, relation, 2)
      ensures Encodable(e, r)
    {
      PlacedAreRelated(ex, relation, 2, r);
    }
  }

  lemma TripRecordsAreEncodable(e: Encoder)
    requires HasDeliveries(e.layout)
    ensures Encodable(e, TRIP_WITH_DELIVERIES.target) && Encodable(e, PLANNED_DELIVERY) && Encodable(e, FUELLING)
  {
    assert |"planned_distance_km"| > |"vehicle_id"| > |"trip_id"|;
    assert |"quantity_litres"| > |"occurred_at"|;
  }

  lemma DeliveriesAreUndated(e: Encoder)
    requires HasDeliveries(e.layout)
    ensures IsUndatedExample(e, 2, TRIP_WITH_DELIVERIES, "Delivery")
    ensures ExampleEncodable(e, 2, TRIP_WITH_DELIVERIES)
  {
    assert PLANNED_DELIVERY.relationship != FUELLING.relationship by {
      assert |PLANNED_DELIVERY.relationship| != |FUELLING.relationship|;
    }
    assert PLANNED_DELIVERY.entity != FUELLING.entity by {
      assert |PLANNED_DELIVERY.entity| != |FUELLING.entity|;
    }
    TripRecordsAreEncodable(e);
    UndatedExampleOf(e, TRIP_WITH_DELIVERIES, PLANNED_DELIVERY, FUELLING);
  }

  /** The failing input: however the trip's row is masked, with every link corrupted and every entity
      paired, its batch holds a temporal pair of two deliveries without a timestamp. */
  lemma UndatedDeliveriesArePaired(e: Encoder, row: seq<Position>, c: Masking, b: nat, r: RowResult) returns (p: Pair)
    requires e.layout == HERMES_LAYOUT == c.layout && e.vocabSize >= 2
    requires IsRow(e, 2, TRIP_WITH_DELIVERIES, row)
    requires c.corruptionProbability >= 1.0 && c.pairProbability >= 1.0 && IsRowResult(c, row, b, r)
    ensures p in r.pairs && ValidPair(c.layout, row, r.masked, p)
    ensures !HasTimestamp(row[p.first]) && !HasTimestamp(row[p.second])
  {
    HermesHasDeliveries();
    DeliveriesAreUndated(e);
    RowOfUndatedExample(e, 2, TRIP_WITH_DELIVERIES, row, "Delivery");
    p := UndatedRecordsArePaired(c, row, b, r, IndexOf(e.layout.entityVocab, "Delivery").value);
  }

  /** That trip can be encoded with the shipped layout, and its row has 13 positions. */
  lemma TripWithDeliveriesIsEncodable(e: Encoder)
    requires e.layout == HERMES_LAYOUT
    ensures ExampleEncodable(e, 2, TRIP_WITH_DELIVERIES) && SequenceLength(e.layout, 2) == 13
  {
    HermesHasDeliveries();
    DeliveriesAreUndated(e);
    HermesHasSixRelations();
  }

  lemma HermesHasSixRelations()
    ensures |RelationOrder(HERMES_LAYOUT)| == 6
  {
    HermesRelations();
    AllButTwoAreKept(HERMES_LAYOUT.relationshipVocab);
  }

  lemma AllButTwoAreKept(vocab: seq<string>)
    requires |vocab| >= 2 && vocab[0] == PAD_NAME && vocab[1] == TARGET_NAME
    requires forall i :: 2 <= i < |vocab| ==> vocab[i] != PAD_NAME && vocab[i] != TARGET_NAME
    ensures |Filter(vocab, name => name != PAD_NAME && name != TARGET_NAME)| == |vocab| - 2
  {
    var keep: string -> bool := name => name != PAD_NAME && name != TARGET_NAME;
    AllKept(vocab[2..], keep);
    assert vocab[1..][1..] == vocab[2..];
    assert Filter(vocab[1..], keep) == Filter(vocab[2..], keep);
  }

  lemma {:induction false} AllKept(names: seq<string>, keep: string -> bool)
    requires forall i :: 0 <= i < |names| ==> keep(names[i])
    ensures Filter(names, keep) == names
  {
    if names != [] {
      AllKept(names[1..], keep);
    }
  }
}
