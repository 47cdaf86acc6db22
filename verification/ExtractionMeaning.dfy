/** What a whole extraction puts in its batch, said of the customer's rows: from the first row that carries the
    reference to the value of each feature, what is left out, what was used, and when there is no batch. */
module ExtractionMeaning {
  import opened Common
  import opened Documents
  import opened FeatureContracts
  import opened FeatureQueries
  import opened FeatureExtraction
  import opened FeaturePlanning
  import opened FeatureMeaning
  import PointInTime

  // ---- the target row -----------------------------------------------------------------------------

  /** The rows of the target mapping's own table on its own connection. */
  function TargetTable(q: Request, db: Databases): seq<Row>
    requires q.target.Some?
  {
    var t := q.target.value;
    db(t.connectionId, t.document.schemaName + "." + t.document.table)
  }

  ghost predicate IdentifiedBy(q: Request, field: string, column: string) {
    q.target.Some? && q.target.value.document.identity.Keys == {field} && MapsTo(q.target.value.document, field, column)
  }

  /** The `n`-th row is the first of the target table that carries the reference. */
  ghost predicate IsTargetRow(q: Request, db: Databases, n: nat)
    requires q.target.Some?
  {
    exists field, column ::
      IdentifiedBy(q, field, column) && IsFirstWith(TargetTable(q, db), column, q.reference, n)
  }

  /** A mapped field that some feature needs is fetched from its column of that row. */
  lemma FetchedFieldMeans(q: Request, db: Databases, n: nat, field: string, column: string)
    requires q.target.Some? && IsTargetRow(q, db, n) && TargetRowOf(q, db).Ok?
    requires field in NeededFields(q.contract.features) && MapsTo(q.target.value.document, field, column)
    ensures TargetRowOf(q, db).value.Some?
    ensures At(TargetRowOf(q, db).value.value, field) == At(TargetTable(q, db)[n], column)
  {
    var t := q.target.value;
    var identity, idColumn :|
      IdentifiedBy(q, identity, idColumn) && IsFirstWith(TargetTable(q, db), idColumn, q.reference, n);
    FetchedRowMeans(t.document, identity, idColumn, q.reference, NeededFields(q.contract.features), t.schemaAllowlist,
                    t.tableAllowlist, TargetTable(q, db));
    var row := TargetRowOf(q, db).value.value;
    assert field in row;
  }

  /** There is no row to extract from exactly when no row of the target table carries the reference. */
  lemma NotFoundExactlyWhen(q: Request, db: Databases, field: string, column: string)
    requires ValidContract(q.contract) && IdentifiedBy(q, field, column) && TargetRowOf(q, db).Ok?
    ensures Extraction(q, db) == Err(TargetRowNotFound)
            <==> forall i :: 0 <= i < |TargetTable(q, db)| ==> !Carries(TargetTable(q, db)[i], column, q.reference)
  {
    var t := q.target.value;
    FetchedRowMeans(t.document, field, column, q.reference, NeededFields(q.contract.features), t.schemaAllowlist,
                    t.tableAllowlist, TargetTable(q, db));
    if TargetRowOf(q, db).value.Some? {
      FeaturesFailOtherwise(q, db, TargetRowOf(q, db).value.value, |q.contract.features|);
    }
  }

  /** Without a production mapping of the target entity there is nothing to extract from, and only then. */
  lemma UnavailableExactlyWhen(q: Request, db: Databases)
    requires ValidContract(q.contract)
    ensures Extraction(q, db) == Err(TargetMappingUnavailable) <==> q.target.None?
  {
    if q.target.Some? && TargetRowOf(q, db).Ok? && TargetRowOf(q, db).value.Some? {
      FeaturesFailOtherwise(q, db, TargetRowOf(q, db).value.value, |q.contract.features|);
    }
  }

  lemma {:induction false} FeaturesFailOtherwise(q: Request, db: Databases, row: Row, n: nat)
    requires ValidContract(q.contract) && n <= |q.contract.features|
    ensures ExtractFirst(q, db, row, n) != Err(TargetMappingUnavailable)
    ensures ExtractFirst(q, db, row, n) != Err(TargetRowNotFound)
  {
    hide ExtractOne;
    if n > 0 {
      FeaturesFailOtherwise(q, db, row, n - 1);
      FeatureFailsOtherwise(q, db, row, q.contract.features[n - 1]);
    }
  }

  lemma FeatureFailsOtherwise(q: Request, db: Databases, row: Row, f: FeatureSpec)
    requires ValidSpec(f)
    ensures ExtractOne(q, db, row, f) != Err(TargetMappingUnavailable)
    ensures ExtractOne(q, db, row, f) != Err(TargetRowNotFound)
  {
    hide RelatedValue, ApplyDerive, Normalize;
    forall cell
      ensures Normalize(q.conversions, f, cell).Err? ==> Normalize(q.conversions, f, cell).error.NotANumber?
    {
      NormalizingFails(q.conversions, f, cell);
    }
    forall name, value, secondary
      ensures var r := ApplyDerive(name, value, secondary, q.predictionTime);
              r.Err? ==> r.error.UnknownDerive? || r.error.NotATimestamp?
    {
      DerivingFails(name, value, secondary, q.predictionTime);
    }
    if !OnTarget(f) && RelatedMapping(q, f).Some? {
      var m := RelatedMapping(q, f).value;
      RelatedFailsExactlyWhen(f, m.document, At(row, f.joinField.value), q.predictionTime, m.schemaAllowlist,
                              m.tableAllowlist, RowsOf(db, m));
    }
  }

  lemma NormalizingFails(conversions: TextConversions, f: FeatureSpec, cell: Cell)
    ensures Normalize(conversions, f, cell).Err? ==> Normalize(conversions, f, cell).error.NotANumber?
  {
  }

  lemma DerivingFails(name: string, value: Cell, secondary: Cell, predictionTime: int)
    ensures var r := ApplyDerive(name, value, secondary, predictionTime);
            r.Err? ==> r.error.UnknownDerive? || r.error.NotATimestamp?
  {
  }

  // ---- features of the target row -----------------------------------------------------------------

  /** What a feature without a value holds. */
  predicate IsAbsent(f: FeatureSpec, value: FeatureValue) {
    && (f.missingValue.UseZero? ==> value == Amount(0.0))
    && (f.missingValue.UseConstant? && f.defaultValue.Some? ==> value == Amount(f.defaultValue.value))
    && (f.missingValue.LeaveNull? || (f.missingValue.UseConstant? && f.defaultValue.None?) ==> value == Missing)
  }

  /** The value is the cell, as far as the data type can hold it. */
  predicate IsKept(f: FeatureSpec, cell: Cell, value: FeatureValue) {
    && (cell.Null? ==> IsAbsent(f, value))
    && (cell.Number? && f.dataType.FloatType? ==> value == Amount(cell.x))
    && (cell.Number? && f.dataType.BooleanType? ==> value == Flag(cell.x != 0.0))
    && (cell.Text? && f.dataType.BooleanType? ==> value == Flag(cell.text != ""))
    && (cell.Boolean? && f.dataType.BooleanType? ==> value == Flag(cell.b))
    && (cell.Boolean? && !f.dataType.BooleanType? ==> value == Amount(if cell.b then 1.0 else 0.0))
  }

  ghost predicate IsFeature(q: Request, db: Databases, b: Batch, i: nat, kind: FeatureKind) {
    && ValidContract(q.contract) && UniqueNames(q.contract) && Extraction(q, db) == Ok(b)
    && i < |q.contract.features| && q.contract.features[i].kind == kind
  }

  lemma TargetFeatureInBatch(q: Request, db: Databases, b: Batch, i: nat)
    requires i < |q.contract.features| && IsFeature(q, db, b, i, q.contract.features[i].kind)
    requires OnTarget(q.contract.features[i])
    ensures q.target.Some? && TargetRowOf(q, db).Ok? && TargetRowOf(q, db).value.Some?
    ensures var f := q.contract.features[i];
            var one := ExtractFromTarget(q, TargetRowOf(q, db).value.value, f);
            one.Ok? && f.name in b.features && b.features[f.name] == one.value.value
    ensures FieldsUsedBy(q.contract.features[i]) <= NeededFields(q.contract.features)
  {
    FeatureInBatch(q, db, TargetRowOf(q, db).value.value, |q.contract.features|, i);
    PointInTime.FieldsAreNeeded(q.contract.features, i);
  }

  /** A direct feature is the cell of its column in the target row. */
  lemma DirectFeatureMeans(q: Request, db: Databases, b: Batch, i: nat, n: nat, column: string)
    requires IsFeature(q, db, b, i, DirectField) && q.target.Some? && IsTargetRow(q, db, n)
    requires MapsTo(q.target.value.document, q.contract.features[i].targetField.value, column)
    ensures var f := q.contract.features[i];
            f.name in b.features && IsKept(f, At(TargetTable(q, db)[n], column), b.features[f.name])
  {
    var f := q.contract.features[i];
    TargetFeatureInBatch(q, db, b, i);
    FetchedFieldMeans(q, db, n, f.targetField.value, column);
  }

  ghost function SecondaryOf(q: Request, db: Databases, f: FeatureSpec): Cell
    requires q.target.Some? && TargetRowOf(q, db).Ok? && TargetRowOf(q, db).value.Some?
  {
    if Given(f.secondaryField) then At(TargetRowOf(q, db).value.value, f.secondaryField.value) else Null
  }

  lemma DerivedFromCell(q: Request, db: Databases, b: Batch, i: nat, n: nat, column: string)
    requires IsFeature(q, db, b, i, DerivedFromTarget) && q.target.Some? && IsTargetRow(q, db, n)
    requires MapsTo(q.target.value.document, q.contract.features[i].targetField.value, column)
    ensures TargetRowOf(q, db).Ok? && TargetRowOf(q, db).value.Some? && q.contract.features[i].derive.Some?
    ensures var f := q.contract.features[i];
            var derived := ApplyDerive(f.derive.value, At(TargetTable(q, db)[n], column), SecondaryOf(q, db, f),
                                       q.predictionTime);
            && derived.Ok? && f.name in b.features
            && Normalize(q.conversions, f, derived.value) == Ok(b.features[f.name])
  {
    hide ApplyDerive, Normalize, IsTargetRow;
    var f := q.contract.features[i];
    TargetFeatureInBatch(q, db, b, i);
    FetchedFieldMeans(q, db, n, f.targetField.value, column);
  }

  /** The hour of day of an instant in the target row. */
  lemma HourFeatureMeans(q: Request, db: Databases, b: Batch, i: nat, n: nat, column: string, day: int, hour: int,
                         rest: int)
    requires IsFeature(q, db, b, i, DerivedFromTarget) && q.target.Some? && IsTargetRow(q, db, n)
    requires q.contract.features[i].derive == Some("hour_of_day") && q.contract.features[i].dataType.IntegerType?
    requires MapsTo(q.target.value.document, q.contract.features[i].targetField.value, column)
    requires 0 <= hour < 24 && 0 <= rest < HOUR
    requires At(TargetTable(q, db)[n], column) == Instant(day * DAY + hour * HOUR + rest)
    ensures var f := q.contract.features[i];
            f.name in b.features && b.features[f.name] == Amount(hour as real)
  {
    hide IsFeature, MapsTo, HourOfDay;
    HourOfDayMeans(day, hour, rest);
    HourInBatch(q, db, b, i, n, column, day * DAY + hour * HOUR + rest);
  }

  lemma HourInBatch(q: Request, db: Databases, b: Batch, i: nat, n: nat, column: string, t: int)
    requires IsFeature(q, db, b, i, DerivedFromTarget) && q.target.Some? && IsTargetRow(q, db, n)
    requires q.contract.features[i].derive == Some("hour_of_day") && q.contract.features[i].dataType.IntegerType?
    requires MapsTo(q.target.value.document, q.contract.features[i].targetField.value, column)
    requires At(TargetTable(q, db)[n], column) == Instant(t)
    ensures var f := q.contract.features[i];
            f.name in b.features && b.features[f.name] == Amount(HourOfDay(t) as real)
  {
    hide IsTargetRow, MapsTo, HourOfDay, Normalize, ApplyDerive;
    DerivedFromCell(q, db, b, i, n, column);
    var f, secondary := q.contract.features[i], SecondaryOf(q, db, q.contract.features[i]);
    HourIsDerived(t, secondary, q.predictionTime);
    WholeNumbersStay(q.conversions, f, HourOfDay(t));
  }

  lemma HourIsDerived(t: int, secondary: Cell, predictionTime: int)
    requires ApplyDerive("hour_of_day", Instant(t), secondary, predictionTime).Ok?
    ensures ApplyDerive("hour_of_day", Instant(t), secondary, predictionTime) == Ok(Number(HourOfDay(t) as real))
  {
    DerivesMean(t, secondary, predictionTime);
  }

  lemma WholeNumbersStay(conversions: TextConversions, f: FeatureSpec, n: int)
    requires f.dataType.IntegerType? && n >= 0
    ensures Normalize(conversions, f, Number(n as real)) == Ok(Amount(n as real))
  {
  }

  /** The start delay of the target row: how many minutes after the planned instant of one column the actual one
      of the other is, once that lies in the past. */
  lemma DelayFeatureMeans(q: Request, db: Databases, b: Batch, i: nat, n: nat, actualColumn: string,
                          plannedColumn: string, actual: int, planned: int)
    requires IsFeature(q, db, b, i, DerivedFromTarget) && q.target.Some? && IsTargetRow(q, db, n)
    requires IsStartDelay(q.contract.features[i]) && q.contract.features[i].dataType.FloatType?
    requires MapsTo(q.target.value.document, q.contract.features[i].targetField.value, actualColumn)
    requires Given(q.contract.features[i].secondaryField)
             && MapsTo(q.target.value.document, q.contract.features[i].secondaryField.value, plannedColumn)
    requires At(TargetTable(q, db)[n], actualColumn) == Instant(actual)
             && At(TargetTable(q, db)[n], plannedColumn) == Instant(planned)
    ensures var f := q.contract.features[i];
            && f.name in b.features && b.features[f.name].Amount?
            && var minutes := b.features[f.name].x;
               && (actual < q.predictionTime ==> minutes * MINUTE as real == (actual - planned) as real)
               && (actual >= q.predictionTime ==> minutes == 0.0)
  {
    var f := q.contract.features[i];
    TargetFeatureInBatch(q, db, b, i);
    FetchedFieldMeans(q, db, n, f.targetField.value, actualColumn);
    FetchedFieldMeans(q, db, n, f.secondaryField.value, plannedColumn);
    StartDelayMeans(actual, planned, q.predictionTime);
  }

  /** A feature reported missing holds its declared missing value. */
  lemma ReportedIsAbsent(q: Request, db: Databases, row: Row, b: Batch, i: nat, reason: MissingReason)
    requires ValidContract(q.contract) && UniqueNames(q.contract) && i < |q.contract.features|
    requires q.target.Some? && TargetRowOf(q, db) == Ok(Some(row)) && Extraction(q, db) == Ok(b)
    requires IsReported(b, q.contract.features[i], reason)
    ensures var f := q.contract.features[i];
            f.name in b.features && IsAbsent(f, b.features[f.name])
  {
    hide ExtractOne, ExtractFirst, IsReported;
    ReportedIsOwn(q, db, row, b, i, reason);
    FeatureInBatch(q, db, row, |q.contract.features|, i);
    ReportedValueIsAbsent(q, db, row, q.contract.features[i]);
  }

  lemma ReportedValueIsAbsent(q: Request, db: Databases, row: Row, f: FeatureSpec)
    requires ValidSpec(f) && ExtractOne(q, db, row, f).Ok? && ExtractOne(q, db, row, f).value.missing.Some?
    ensures IsAbsent(f, ExtractOne(q, db, row, f).value.value)
  {
  }

  /** A related age counts whole days from the instant in the first row that joins, 365.25 to the year. */
  lemma AgeFeatureMeans(q: Request, db: Databases, b: Batch, i: nat, s: Scope, n: nat, column: string, t: int,
                        days: int, rest: int)
    requires IsFeature(q, db, b, i, RelatedLatestValue) && IsJoined(q, db, i, s) && s.timeColumn.None?
    requires q.contract.features[i].derive == Some("age_years_at_prediction")
             && q.contract.features[i].dataType.FloatType?
    requires var m := RelatedMapping(q, q.contract.features[i]).value;
             var rows := db(m.connectionId, m.document.schemaName + "." + m.document.table);
             && MapsTo(m.document, q.contract.features[i].valueField.value, column)
             && n in Scoped(s, rows) && (forall j :: j in Scoped(s, rows) ==> n <= j)
             && At(rows[n], column) == Instant(t)
    requires q.predictionTime == t + days * DAY + rest && 0 <= rest < DAY
    ensures var f := q.contract.features[i];
            f.name in b.features && b.features[f.name].Amount? && b.features[f.name].x * 365.25 == days as real
  {
    hide IsJoined, HasScope, InScope, MapsTo, Extraction;
    JoinedFacts(q, db, i, s);
    var f := q.contract.features[i];
    var m := RelatedMapping(q, f).value;
    JoinedIsExtracted(q, db, i, s);
    FirstValueMeans(f, m.document, s, m.schemaAllowlist, m.tableAllowlist, RowsOf(db, m), column);
    AgeMeans(t, days, rest);
    AgeIsDerived(t, q.predictionTime);
  }

  lemma AgeIsDerived(t: int, predictionTime: int)
    ensures ApplyDerive("age_years_at_prediction", Instant(t), Null, predictionTime)
            == Ok(Number(AgeYears(t, predictionTime)))
  {
    DerivesMean(t, Null, predictionTime);
  }

  // ---- which mappings were used -------------------------------------------------------------------

  /** One of the first `n` features is a related one of the entity. */
  ghost predicate AsksFor(q: Request, n: nat, entity: string)
    requires n <= |q.contract.features|
  {
    exists i :: 0 <= i < n && !OnTarget(q.contract.features[i]) && q.contract.features[i].relatedEntity == Some(entity)
  }

  predicate HasMapping(q: Request, entity: string) {
    entity in q.related && q.related[entity].Some?
  }

  lemma {:induction false} UsedUpTo(q: Request, db: Databases, row: Row, n: nat, entity: string)
    requires ValidContract(q.contract) && n <= |q.contract.features| && ExtractFirst(q, db, row, n).Ok?
    ensures var used := ExtractFirst(q, db, row, n).value.usedVersions;
            && (entity in used <==> AsksFor(q, n, entity) && HasMapping(q, entity))
            && (entity in used && HasMapping(q, entity) ==> used[entity] == q.related[entity].value.versionId)
  {
    hide ExtractOne;
    if n > 0 {
      UsedUpTo(q, db, row, n - 1, entity);
      var f := q.contract.features[n - 1];
      assert AsksFor(q, n, entity)
        <==> AsksFor(q, n - 1, entity) || (!OnTarget(f) && f.relatedEntity == Some(entity));
      UsesItsMapping(q, db, row, f);
    }
  }

  lemma UsesItsMapping(q: Request, db: Databases, row: Row, f: FeatureSpec)
    requires ValidSpec(f) && ExtractOne(q, db, row, f).Ok?
    ensures var used := ExtractOne(q, db, row, f).value.used;
            && (used.Some? <==> !OnTarget(f) && HasMapping(q, f.relatedEntity.value))
            && (used.Some? && !OnTarget(f) ==> used == Some(q.related[f.relatedEntity.value].value.versionId))
  {
  }

  /** The batch names a mapping version for exactly the related entities that a feature asks for and that have a
      production mapping, and it is that mapping's version. */
  lemma UsedVersionsExactlyWhen(q: Request, db: Databases, b: Batch, entity: string)
    requires ValidContract(q.contract) && Extraction(q, db) == Ok(b)
    ensures entity in b.usedVersions
            <==> HasMapping(q, entity) && AsksFor(q, |q.contract.features|, entity)
    ensures entity in b.usedVersions && HasMapping(q, entity) ==>
              b.usedVersions[entity] == q.related[entity].value.versionId
  {
    UsedUpTo(q, db, TargetRowOf(q, db).value.value, |q.contract.features|, entity);
  }

  // ---- when a related query fails -----------------------------------------------------------------

  ghost predicate IsMapped(d: MappingDocument, field: string) {
    exists column :: MapsTo(d, field, column)
  }

  /** The field is mapped, yet not from a column in the first place. */
  ghost predicate IsOdd(d: MappingDocument, field: string) {
    !IsMapped(d, field) && !Unmapped(d, field)
  }

  lemma ResolvedAsMapped(d: MappingDocument, field: string)
    ensures IsOdd(d, field) <==> ResolveColumn(d, field) == Err(NotDirectlyMapped)
    ensures IsMapped(d, field) <==> ResolveColumn(d, field).Ok? && ResolveColumn(d, field).value.Some?
    ensures Unmapped(d, field) <==> ResolveColumn(d, field) == Ok(None)
  {
    if ResolveColumn(d, field).Ok? && ResolveColumn(d, field).value.Some? {
      assert MapsTo(d, field, ResolveColumn(d, field).value.value);
    }
  }

  /** The field that the aggregate itself reads, next to the join and the timestamp. */
  predicate Aggregates(f: FeatureSpec, field: string) {
    || (f.kind.RelatedCount? && Given(f.filterField) && f.filterEquals.Some? && field == f.filterField.value)
    || (f.kind.RelatedRatio? && f.filterField == Some(field))
    || (f.kind.RelatedLatestValue? && f.valueField == Some(field))
  }

  ghost predicate WindowIsTooLong(f: FeatureSpec, d: MappingDocument) {
    && Given(f.timestampField) && IsMapped(d, f.timestampField.value)
    && f.windowDays.Some? && f.windowDays.value > 365
  }

  /** When a related query is refused, and as what: a schema or table off the allowlist; then, if the join field
      is mapped (otherwise the answer is null), a field that is not read from a column, a window of more than 365
      days, a recency without a timestamp column. */
  lemma RelatedFailsExactlyWhen(f: FeatureSpec, d: MappingDocument, joinValue: Cell, predictionTime: int,
                                schemaAllowlist: seq<string>, tableAllowlist: seq<string>, rows: seq<Row>)
    requires ValidSpec(f) && !OnTarget(f)
    ensures var r := RelatedValue(f, d, joinValue, predictionTime, schemaAllowlist, tableAllowlist, rows);
            var allowed := d.schemaName in schemaAllowlist && d.table in tableAllowlist;
            var joined := allowed && IsMapped(d, f.joinField.value);
            var oddTime := Given(f.timestampField) && IsOdd(d, f.timestampField.value);
            && (r == Err(DisallowedObject) <==> !allowed)
            && (allowed && Unmapped(d, f.joinField.value) ==> r == Ok(Null))
            && (r == Err(WindowTooLong) <==> joined && WindowIsTooLong(f, d))
            && (r == Err(NoTimestampColumn)
                <==> joined && f.kind.RelatedRecencyDays? && Unmapped(d, f.timestampField.value))
            && (r == Err(NotDirectlyMapped)
                <==> || (allowed && IsOdd(d, f.joinField.value))
                     || (joined && oddTime)
                     || (joined && !WindowIsTooLong(f, d) && exists field :: Aggregates(f, field) && IsOdd(d, field)))
            && (r.Err? ==> r.error in {DisallowedObject, WindowTooLong, NoTimestampColumn, NotDirectlyMapped})
  {
    ResolvedAsMapped(d, f.joinField.value);
    if Given(f.timestampField) {
      ResolvedAsMapped(d, f.timestampField.value);
    }
    forall field | Aggregates(f, field)
      ensures IsOdd(d, field) <==> ResolveColumn(d, field) == Err(NotDirectlyMapped)
    {
      ResolvedAsMapped(d, field);
    }
    hide Aggregate, IsOdd, IsMapped, Unmapped, ResolveColumn;
    if CutoffOf(f, d, predictionTime).Ok? {
      var cutoff := CutoffOf(f, d, predictionTime).value;
      forall selected
        ensures var r := Aggregate(f, d, cutoff, selected, predictionTime);
                && (r == Err(NotDirectlyMapped)
                    <==> exists field :: Aggregates(f, field) && ResolveColumn(d, field) == Err(NotDirectlyMapped))
                && (r == Err(NoTimestampColumn) <==> f.kind.RelatedRecencyDays? && cutoff.None?)
                && (r.Err? ==> r.error in {NoTimestampColumn, NotDirectlyMapped})
      {
        AggregateFails(f, d, cutoff, selected, predictionTime);
      }
    }
  }

  lemma AggregateFails(f: FeatureSpec, d: MappingDocument, cutoff: Option<Cutoff>, selected: seq<Row>,
                       predictionTime: int)
    requires ValidSpec(f) && !OnTarget(f)
    ensures var r := Aggregate(f, d, cutoff, selected, predictionTime);
            && (r == Err(NotDirectlyMapped)
                <==> exists field :: Aggregates(f, field) && ResolveColumn(d, field) == Err(NotDirectlyMapped))
            && (r == Err(NoTimestampColumn) <==> f.kind.RelatedRecencyDays? && cutoff.None?)
            && (r.Err? ==> r.error in {NoTimestampColumn, NotDirectlyMapped})
  {
    hide Select, MaxInstant, LatestRow;
    forall field | Aggregates(f, field)
      ensures ResolveColumn(d, field).Err? ==> ResolveColumn(d, field).error.NotDirectlyMapped?
    {
    }
    if f.kind.RelatedCount? && Given(f.filterField) && f.filterEquals.Some? {
      assert Aggregates(f, f.filterField.value);
    } else if f.kind.RelatedRatio? {
      assert Aggregates(f, f.filterField.value);
    } else if f.kind.RelatedLatestValue? {
      assert Aggregates(f, f.valueField.value);
    }
  }

  // ---- what the dry run names ---------------------------------------------------------------------

  /** For an available target feature the plan names the table and the column that extraction then reads. */
  lemma PlannedColumnIsRead(q: Request, db: Databases, entries: seq<PlanEntry>, i: nat, n: nat)
    requires ValidContract(q.contract) && q.target.Some? && IsPlan(q, q.target.value.document, Ok(entries))
    requires i < |entries| == |q.contract.features| && OnTarget(q.contract.features[i]) && entries[i].available
    requires entries[i].columns != [] && IsTargetRow(q, db, n) && TargetRowOf(q, db).Ok?
    ensures entries[i].sourceTable.Some? && |entries[i].columns| == 1 && TargetRowOf(q, db).value.Some?
    ensures db(q.target.value.connectionId, entries[i].sourceTable.value) == TargetTable(q, db)
    ensures At(TargetRowOf(q, db).value.value, q.contract.features[i].targetField.value)
            == At(TargetTable(q, db)[n], entries[i].columns[0])
  {
    var d, f := q.target.value.document, q.contract.features[i];
    assert PlanOne(q, d, f) == Ok(entries[i]);
    PointInTime.FieldsAreNeeded(q.contract.features, i);
    assert f.targetField.value in FieldsUsedBy(f);
    var column := ResolveColumn(d, f.targetField.value).value.value;
    assert MapsTo(d, f.targetField.value, column);
    FetchedFieldMeans(q, db, n, f.targetField.value, column);
  }

  /** For an available related feature it names the related table, and the columns that are joined: the one the
      join value is fetched from and the one it is compared with. */
  lemma PlannedJoinIsRead(q: Request, entries: seq<PlanEntry>, i: nat, own: string, s: Scope)
    requires ValidContract(q.contract) && q.target.Some? && IsPlan(q, q.target.value.document, Ok(entries))
    requires i < |entries| == |q.contract.features| && !OnTarget(q.contract.features[i])
    requires var f := q.contract.features[i];
             && MapsTo(q.target.value.document, f.joinField.value, own) && own != "" && s.joinColumn != ""
             && RelatedMapping(q, f).Some? && HasScope(f, RelatedMapping(q, f).value.document, s)
    ensures var d := RelatedMapping(q, q.contract.features[i]).value.document;
            && entries[i].available && entries[i].columns == [own, s.joinColumn]
            && entries[i].sourceTable == Some(d.schemaName + "." + d.table)
  {
    assert PlanOne(q, q.target.value.document, q.contract.features[i]) == Ok(entries[i]);
  }
}
