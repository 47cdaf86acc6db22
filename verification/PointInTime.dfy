/** Point-in-time safety: an extraction sees nothing of a customer database that lies at or after the
    prediction time. Stated over two runs on two databases. */
module PointInTime {
  import opened Common
  import opened Documents
  import opened FeatureContracts
  import opened FeatureQueries
  import opened FeatureExtraction

  // ---- selections and aggregates do not depend on row order -----------------------------------------

  lemma {:induction false} SelectKeepsCounts(rows: seq<Row>, conditions: seq<Condition>, row: Row)
    ensures multiset(Select(rows, conditions))[row] == if AllHold(row, conditions) then multiset(rows)[row] else 0
  {
    if rows != [] {
      SelectKeepsCounts(rows[1..], conditions, row);
      assert rows == [rows[0]] + rows[1..];
      var rest := Select(rows[1..], conditions);
      assert Select(rows, conditions) == if AllHold(rows[0], conditions) then [rows[0]] + rest else rest;
    }
  }

  lemma SameRowsSameSelection(a: seq<Row>, b: seq<Row>, conditions: seq<Condition>)
    requires multiset(a) == multiset(b)
    ensures multiset(Select(a, conditions)) == multiset(Select(b, conditions))
    ensures |Select(a, conditions)| == |Select(b, conditions)|
  {
    forall row
      ensures multiset(Select(a, conditions))[row] == multiset(Select(b, conditions))[row]
    {
      SelectKeepsCounts(a, conditions, row);
      SelectKeepsCounts(b, conditions, row);
    }
    assert |Select(a, conditions)| == |multiset(Select(a, conditions))|;
    assert |Select(b, conditions)| == |multiset(Select(b, conditions))|;
  }

  /** Two tables that agree inside a window agree on every narrower selection. */
  lemma SameWindowSameSelection(a: seq<Row>, b: seq<Row>, join: Condition, window: seq<Condition>)
    requires multiset(Select(a, window)) == multiset(Select(b, window))
    ensures multiset(Select(a, [join] + window)) == multiset(Select(b, [join] + window))
  {
    forall row
      ensures multiset(Select(a, [join] + window))[row] == multiset(Select(b, [join] + window))[row]
    {
      SelectKeepsCounts(a, [join] + window, row);
      SelectKeepsCounts(b, [join] + window, row);
      SelectKeepsCounts(a, window, row);
      SelectKeepsCounts(b, window, row);
      AllHoldSplits(row, join, window);
    }
  }

  lemma AllHoldSplits(row: Row, first: Condition, rest: seq<Condition>)
    ensures AllHold(row, [first] + rest) <==> Holds(row, first) && AllHold(row, rest)
  {
    assert ([first] + rest)[0] == first;
    assert forall i :: 0 <= i < |rest| ==> ([first] + rest)[i + 1] == rest[i];
    if AllHold(row, [first] + rest) {
      forall i | 0 <= i < |rest|
        ensures Holds(row, rest[i])
      {
        assert Holds(row, ([first] + rest)[i + 1]);
      }
    }
  }

  lemma {:induction false} MaxInstantIsMax(rows: seq<Row>, column: string)
    ensures var m := MaxInstant(rows, column);
            && (m.None? <==> forall row :: row in rows ==> !At(row, column).Instant?)
            && (m.Some? ==> exists row :: row in rows && At(row, column) == Instant(m.value))
            && (m.Some? ==> forall row :: row in rows && At(row, column).Instant? ==> At(row, column).t <= m.value)
  {
    if rows != [] {
      MaxInstantIsMax(rows[1..], column);
      assert forall row :: row in rows <==> row == rows[0] || row in rows[1..];
    }
  }

  lemma SameRowsSameMax(a: seq<Row>, b: seq<Row>, column: string)
    requires forall row :: row in a <==> row in b
    ensures MaxInstant(a, column) == MaxInstant(b, column)
  {
    MaxInstantIsMax(a, column);
    MaxInstantIsMax(b, column);
  }

  /** Rows that share join value and time carry the same value. */
  ghost predicate TiesAgree(rows: seq<Row>, joinColumn: string, timeColumn: string, valueColumn: string) {
    forall x, y ::
      x in rows && y in rows && At(x, joinColumn) == At(y, joinColumn) && At(x, timeColumn) == At(y, timeColumn) ==>
      At(x, valueColumn) == At(y, valueColumn)
  }

  lemma LatestRowIsLatest(rows: seq<Row>, column: string)
    ensures var r := LatestRow(rows, column);
            && (r.None? <==> MaxInstant(rows, column).None?)
            && (r.Some? ==> r.value in rows && At(r.value, column) == Instant(MaxInstant(rows, column).value))
  {
    MaxInstantIsMax(rows, column);
    var latest := MaxInstant(rows, column);
    if latest.Some? {
      var candidates := Select(rows, [EqualTo(column, Instant(latest.value))]);
      var row :| row in rows && At(row, column) == Instant(latest.value);
      assert AllHold(row, [EqualTo(column, Instant(latest.value))]);
      assert row in candidates;
      assert candidates[0] in candidates;
      assert Holds(candidates[0], [EqualTo(column, Instant(latest.value))][0]);
    }
  }

  lemma SameMembers(a: seq<Row>, b: seq<Row>)
    requires multiset(a) == multiset(b)
    ensures forall row :: row in a <==> row in b
    ensures |a| == |b|
  {
    assert forall row :: row in a <==> row in multiset(a);
    assert forall row :: row in b <==> row in multiset(b);
    assert |multiset(a)| == |a| && |multiset(b)| == |b|;
  }

  /** Aggregates over a cut-off selection depend only on which rows are in it. */
  lemma AggregateIgnoresOrder(f: FeatureSpec, d: MappingDocument, cutoff: Cutoff, a: seq<Row>, b: seq<Row>,
                              joinColumn: string,
                              joinValue: Cell, predictionTime: int)
    requires ValidSpec(f) && !OnTarget(f) && multiset(a) == multiset(b)
    requires forall row :: row in a ==> At(row, joinColumn) == joinValue
    requires f.kind.RelatedLatestValue? && ResolveColumn(d, f.valueField.value).Ok?
             && ResolveColumn(d, f.valueField.value).value.Some? ==>
               TiesAgree(a, joinColumn, cutoff.column, ResolveColumn(d, f.valueField.value).value.value)
    ensures Aggregate(f, d, Some(cutoff), a, predictionTime) == Aggregate(f, d, Some(cutoff), b, predictionTime)
  {
    SameMembers(a, b);
    SameRowsSameMax(a, b, cutoff.column);
    if f.kind.RelatedLatestValue? {
      LatestRowIsLatest(a, cutoff.column);
      LatestRowIsLatest(b, cutoff.column);
    } else if f.kind.RelatedRatio? || (f.kind.RelatedCount? && f.filterField.Some? && f.filterEquals.Some?) {
      match ResolveColumn(d, f.filterField.value)
      case Ok(Some(column)) => SameRowsSameSelection(a, b, [EqualTo(column, Text(f.filterEquals.value))]);
      case _ =>
    }
  }

  // ---- a query reads few columns -----------------------------------------------------------------------

  function MappedColumn(d: MappingDocument, field: Option<string>): set<string> {
    if field.None? then {}
    else
      match ResolveColumn(d, field.value)
      case Ok(Some(column)) => {column}
      case _ => {}
  }

  /** The columns a related feature's query looks at: join, timestamp, and filter or value. */
  function ReadColumns(f: FeatureSpec, d: MappingDocument): set<string> {
    MappedColumn(d, f.joinField) + (if Given(f.timestampField) then MappedColumn(d, f.timestampField) else {})
    + (if f.kind.RelatedLatestValue? then MappedColumn(d, f.valueField)
       else if f.kind.RelatedCount? || f.kind.RelatedRatio? then MappedColumn(d, f.filterField)
       else {})
  }

  /** What is seen of a row through some columns. */
  function Seen(row: Row, columns: set<string>): Row {
    map column | column in columns :: At(row, column)
  }

  function SeenRows(rows: seq<Row>, columns: set<string>): (seen: seq<Row>)
    ensures |seen| == |rows| && forall i :: 0 <= i < |rows| ==> seen[i] == Seen(rows[i], columns)
  {
    Map(rows, (row: Row) => Seen(row, columns))
  }

  predicate OnlyMention(conditions: seq<Condition>, columns: set<string>) {
    forall i :: 0 <= i < |conditions| ==> conditions[i].column in columns
  }

  lemma {:induction false} SelectSeen(rows: seq<Row>, columns: set<string>, conditions: seq<Condition>)
    requires OnlyMention(conditions, columns)
    ensures Select(SeenRows(rows, columns), conditions) == SeenRows(Select(rows, conditions), columns)
  {
    if rows != [] {
      SelectSeen(rows[1..], columns, conditions);
      assert SeenRows(rows, columns)[1..] == SeenRows(rows[1..], columns);
      assert forall c: Condition :: c.column in columns ==> (Holds(Seen(rows[0], columns), c) <==> Holds(rows[0], c));
      assert AllHold(Seen(rows[0], columns), conditions) <==> AllHold(rows[0], conditions);
      var rest := Select(rows[1..], conditions);
      if AllHold(rows[0], conditions) {
        assert SeenRows([rows[0]] + rest, columns) == [Seen(rows[0], columns)] + SeenRows(rest, columns);
      }
    }
  }

  lemma {:induction false} MaxSeen(rows: seq<Row>, columns: set<string>, column: string)
    requires column in columns
    ensures MaxInstant(SeenRows(rows, columns), column) == MaxInstant(rows, column)
  {
    if rows != [] {
      MaxSeen(rows[1..], columns, column);
      assert SeenRows(rows, columns)[1..] == SeenRows(rows[1..], columns);
    }
  }

  lemma LatestSeen(rows: seq<Row>, columns: set<string>, column: string)
    requires column in columns
    ensures var latest := LatestRow(rows, column);
            LatestRow(SeenRows(rows, columns), column)
            == if latest.None? then None else Some(Seen(latest.value, columns))
  {
    MaxSeen(rows, columns, column);
    if MaxInstant(rows, column).Some? {
      SelectSeen(rows, columns, [EqualTo(column, Instant(MaxInstant(rows, column).value))]);
    }
  }

  lemma AggregateSeen(f: FeatureSpec, d: MappingDocument, cutoff: Option<Cutoff>, selected: seq<Row>,
                      columns: set<string>, predictionTime: int)
    requires ValidSpec(f) && !OnTarget(f) && ReadColumns(f, d) <= columns
             && (cutoff.Some? ==> cutoff.value.column in columns)
    ensures Aggregate(f, d, cutoff, SeenRows(selected, columns), predictionTime)
            == Aggregate(f, d, cutoff, selected, predictionTime)
  {
    if cutoff.Some? {
      MaxSeen(selected, columns, cutoff.value.column);
      LatestSeen(selected, columns, cutoff.value.column);
    }
    if f.kind.RelatedRatio? || (f.kind.RelatedCount? && f.filterField.Some? && f.filterEquals.Some?) {
      match ResolveColumn(d, f.filterField.value)
      case Ok(Some(column)) => SelectSeen(selected, columns, [EqualTo(column, Text(f.filterEquals.value))]);
      case _ =>
    }
  }

  /** A related feature's value depends on nothing but the columns its query reads. */
  lemma OnlyReadColumnsMatter(f: FeatureSpec, d: MappingDocument, joinValue: Cell, predictionTime: int,
                              schemaAllowlist: seq<string>, tableAllowlist: seq<string>, rows: seq<Row>)
    requires ValidSpec(f) && !OnTarget(f)
    ensures RelatedValue(f, d, joinValue, predictionTime, schemaAllowlist, tableAllowlist,
                         SeenRows(rows, ReadColumns(f, d)))
            == RelatedValue(f, d, joinValue, predictionTime, schemaAllowlist, tableAllowlist, rows)
  {
    match (ResolveColumn(d, f.joinField.value), CutoffOf(f, d, predictionTime))
    case (Ok(Some(joinColumn)), Ok(cutoff)) =>
      var conditions := [EqualTo(joinColumn, joinValue)] + Window(cutoff, predictionTime);
      SelectSeen(rows, ReadColumns(f, d), conditions);
      AggregateSeen(f, d, cutoff, Select(rows, conditions), ReadColumns(f, d), predictionTime);
    case _ =>
  }

  // ---- agreement of two databases -----------------------------------------------------------------------

  /** The rows of a table inside a feature's window. */
  function InWindow(rows: seq<Row>, cutoff: Option<Cutoff>, predictionTime: int): seq<Row> {
    Select(rows, Window(cutoff, predictionTime))
  }

  /** What a related feature's query can see of its table. */
  function Visible(q: Request, db: Databases, f: FeatureSpec): seq<Row>
    requires RelatedMapping(q, f).Some?
  {
    var m := RelatedMapping(q, f).value;
    SeenRows(RowsOf(db, m), ReadColumns(f, m.document))
  }

  /** For one related feature, through the columns its query reads: the same table if the feature has no
      cutoff; otherwise the same rows, in any order, inside its window, with no disagreement between
      rows of the same time where the latest value is asked for. */
  ghost predicate RelatedAgrees(q: Request, db: Databases, db': Databases, f: FeatureSpec)
    requires ValidSpec(f) && !OnTarget(f)
  {
    RelatedMapping(q, f).Some? ==>
      var m := RelatedMapping(q, f).value;
      match CutoffOf(f, m.document, q.predictionTime)
      case Err(_) => true
      case Ok(None) => Visible(q, db, f) == Visible(q, db', f)
      case Ok(Some(cutoff)) =>
        && multiset(InWindow(Visible(q, db, f), Some(cutoff), q.predictionTime))
           == multiset(InWindow(Visible(q, db', f), Some(cutoff), q.predictionTime))
        && (f.kind.RelatedLatestValue? ==>
              match (ResolveColumn(m.document, f.joinField.value), ResolveColumn(m.document, f.valueField.value))
              case (Ok(Some(joinColumn)), Ok(Some(valueColumn))) =>
                TiesAgree(InWindow(Visible(q, db, f), Some(cutoff), q.predictionTime), joinColumn, cutoff.column,
                          valueColumn)
              case _ => true)
  }

  /** The field is only ever the actual departure of a loading-start delay. */
  ghost predicate OnlyDeparture(c: FeatureContract, field: string) {
    forall f :: f in c.features && field in FieldsUsedBy(f) ==>
      && f.kind.DerivedFromTarget? && f.derive == Some("loading_start_delay_minutes") && f.targetField == Some(field)
      && !(Given(f.secondaryField) && f.secondaryField.value == field)
  }

  /** Unknown, or not before the prediction. */
  predicate NotYet(cell: Cell, predictionTime: int) {
    cell.Null? || (cell.Instant? && cell.t >= predictionTime)
  }

  ghost predicate CellsAgree(q: Request, row: Row, row': Row, field: string) {
    || At(row, field) == At(row', field)
    || (OnlyDeparture(q.contract, field) && NotYet(At(row, field), q.predictionTime)
        && NotYet(At(row', field), q.predictionTime))
  }

  ghost predicate TargetAgrees(q: Request, db: Databases, db': Databases)
    requires q.target.Some?
  {
    match (TargetRowOf(q, db), TargetRowOf(q, db'))
    case (Ok(Some(row)), Ok(Some(row'))) =>
      forall field :: field in NeededFields(q.contract.features) ==> CellsAgree(q, row, row', field)
    case (one, other) => one == other
  }

  ghost predicate DatabasesAgree(q: Request, db: Databases, db': Databases)
    requires ValidContract(q.contract)
  {
    && (q.target.Some? ==> TargetAgrees(q, db, db'))
    && (forall i :: 0 <= i < |q.contract.features| && !OnTarget(q.contract.features[i]) ==>
          RelatedAgrees(q, db, db', q.contract.features[i]))
  }

  // ---- the theorem ------------------------------------------------------------------------------------------

  lemma RelatedValueAgrees(q: Request, db: Databases, db': Databases, f: FeatureSpec, joinValue: Cell)
    requires ValidSpec(f) && !OnTarget(f) && RelatedMapping(q, f).Some? && RelatedAgrees(q, db, db', f)
    ensures var m := RelatedMapping(q, f).value;
            RelatedValue(f, m.document, joinValue, q.predictionTime, m.schemaAllowlist, m.tableAllowlist, RowsOf(db, m))
            == RelatedValue(f, m.document, joinValue, q.predictionTime, m.schemaAllowlist, m.tableAllowlist,
                            RowsOf(db', m))
  {
    var m := RelatedMapping(q, f).value;
    var a, b := Visible(q, db, f), Visible(q, db', f);
    OnlyReadColumnsMatter(f, m.document, joinValue, q.predictionTime, m.schemaAllowlist, m.tableAllowlist,
                          RowsOf(db, m));
    OnlyReadColumnsMatter(f, m.document, joinValue, q.predictionTime, m.schemaAllowlist, m.tableAllowlist,
                          RowsOf(db', m));
    match (ResolveColumn(m.document, f.joinField.value), CutoffOf(f, m.document, q.predictionTime))
    case (Ok(Some(joinColumn)), Ok(Some(cutoff))) =>
      var join, window := EqualTo(joinColumn, joinValue), Window(Some(cutoff), q.predictionTime);
      SameWindowSameSelection(a, b, join, window);
      var selected := Select(a, [join] + window);
      forall row | row in selected
        ensures At(row, joinColumn) == joinValue && row in InWindow(a, Some(cutoff), q.predictionTime)
      {
        AllHoldSplits(row, join, window);
      }
      AggregateIgnoresOrder(f, m.document, cutoff, selected, Select(b, [join] + window), joinColumn, joinValue,
                            q.predictionTime);
    case _ =>
  }

  lemma {:induction false} FieldsAreNeeded(features: seq<FeatureSpec>, i: nat)
    requires i < |features|
    ensures FieldsUsedBy(features[i]) <= NeededFields(features)
  {
    if i > 0 {
      FieldsAreNeeded(features[1..], i - 1);
    }
  }

  lemma TargetFeatureAgrees(q: Request, row: Row, row': Row, f: FeatureSpec)
    requires ValidSpec(f) && OnTarget(f) && f in q.contract.features
    requires forall field :: field in FieldsUsedBy(f) ==> CellsAgree(q, row, row', field)
    ensures ExtractFromTarget(q, row, f) == ExtractFromTarget(q, row', f)
  {
    assert f.targetField.value in FieldsUsedBy(f);
    assert CellsAgree(q, row, row', f.targetField.value);
    if Given(f.secondaryField) {
      assert CellsAgree(q, row, row', f.secondaryField.value);
      assert At(row, f.secondaryField.value) == At(row', f.secondaryField.value);
    }
  }

  lemma RelatedFeatureAgrees(q: Request, db: Databases, db': Databases, row: Row, row': Row, f: FeatureSpec)
    requires ValidSpec(f) && !OnTarget(f) && f in q.contract.features && RelatedAgrees(q, db, db', f)
    requires forall field :: field in FieldsUsedBy(f) ==> CellsAgree(q, row, row', field)
    ensures ExtractRelated(q, db, row, f) == ExtractRelated(q, db', row', f)
  {
    assert f.joinField.value in FieldsUsedBy(f);
    assert CellsAgree(q, row, row', f.joinField.value);
    if RelatedMapping(q, f).Some? {
      RelatedValueAgrees(q, db, db', f, At(row, f.joinField.value));
    }
  }

  lemma FeatureAgrees(q: Request, db: Databases, db': Databases, row: Row, row': Row, i: nat)
    requires ValidContract(q.contract) && i < |q.contract.features|
    requires !OnTarget(q.contract.features[i]) ==> RelatedAgrees(q, db, db', q.contract.features[i])
    requires forall field :: field in NeededFields(q.contract.features) ==> CellsAgree(q, row, row', field)
    ensures ExtractOne(q, db, row, q.contract.features[i]) == ExtractOne(q, db', row', q.contract.features[i])
  {
    var f := q.contract.features[i];
    FieldsAreNeeded(q.contract.features, i);
    if OnTarget(f) {
      TargetFeatureAgrees(q, row, row', f);
    } else {
      RelatedFeatureAgrees(q, db, db', row, row', f);
    }
  }

  lemma {:induction false} FirstFeaturesAgree(q: Request, db: Databases, db': Databases, row: Row, row': Row, n: nat)
    requires ValidContract(q.contract) && n <= |q.contract.features|
    requires forall i :: 0 <= i < |q.contract.features| ==>
               ExtractOne(q, db, row, q.contract.features[i]) == ExtractOne(q, db', row', q.contract.features[i])
    ensures ExtractFirst(q, db, row, n) == ExtractFirst(q, db', row', n)
  {
    if n > 0 {
      FirstFeaturesAgree(q, db, db', row, row', n - 1);
      NextFeatureAgrees(q, db, db', row, row', n - 1);
    }
  }

  lemma NextFeatureAgrees(q: Request, db: Databases, db': Databases, row: Row, row': Row, n: nat)
    requires ValidContract(q.contract) && n < |q.contract.features|
    requires ExtractFirst(q, db, row, n) == ExtractFirst(q, db', row', n)
    requires ExtractOne(q, db, row, q.contract.features[n]) == ExtractOne(q, db', row', q.contract.features[n])
    ensures ExtractFirst(q, db, row, n + 1) == ExtractFirst(q, db', row', n + 1)
  {
  }

  /** Two customer databases that agree on everything before the prediction time give the same
      extraction: the same batch, missing-feature report and versions, or the same error. */
  lemma ExtractionIsPointInTimeSafe(q: Request, db: Databases, db': Databases)
    requires ValidContract(q.contract) && DatabasesAgree(q, db, db')
    ensures Extraction(q, db) == Extraction(q, db')
  {
    if q.target.Some? {
      match (TargetRowOf(q, db), TargetRowOf(q, db'))
      case (Ok(Some(row)), Ok(Some(row'))) =>
        forall i | 0 <= i < |q.contract.features|
          ensures ExtractOne(q, db, row, q.contract.features[i]) == ExtractOne(q, db', row', q.contract.features[i])
        {
          FeatureAgrees(q, db, db', row, row', i);
        }
        FirstFeaturesAgree(q, db, db', row, row', |q.contract.features|);
      case _ =>
    }
  }

  lemma DeliveryDelayContractIsValid()
    ensures ValidContract(DELIVERY_DELAY_RISK_CONTRACT)
  {
    var c := DELIVERY_DELAY_RISK_CONTRACT;
    forall i | 0 <= i < |c.features|
      ensures ValidSpec(c.features[i])
    {
    }
  }

  predicate Spares(f: FeatureSpec, field: string) {
    f.targetField != Some(field) && f.secondaryField != Some(field) && f.joinField != Some(field)
  }

  lemma OneDelayOnlyDeparture(c: FeatureContract, k: nat, field: string)
    requires k < |c.features| && forall i :: 0 <= i < |c.features| && i != k ==> Spares(c.features[i], field)
    requires c.features[k].kind.DerivedFromTarget? && c.features[k].derive == Some("loading_start_delay_minutes")
    requires c.features[k].targetField == Some(field) && c.features[k].secondaryField != Some(field)
    ensures OnlyDeparture(c, field)
  {
  }

  lemma DelayFeature()
    ensures var f := DELIVERY_DELAY_RISK_CONTRACT.features[12];
            f.kind.DerivedFromTarget? && f.derive == Some("loading_start_delay_minutes")
            && f.targetField == Some("actual_departure_at") && f.secondaryField == Some("planned_departure_at")
  {
  }

  /** In the delivery-delay contract the actual departure is used for the loading-start delay only. */
  lemma ActualDepartureIsOnlyDeparture()
    ensures OnlyDeparture(DELIVERY_DELAY_RISK_CONTRACT, "actual_departure_at")
  {
    OthersSpareTheDeparture();
    DelayFeature();
    assert "planned_departure_at"[0] != "actual_departure_at"[0];
    OneDelayOnlyDeparture(DELIVERY_DELAY_RISK_CONTRACT, 12, "actual_departure_at");
  }

  lemma OthersSpareTheDeparture()
    ensures forall i :: 0 <= i < |DELIVERY_DELAY_RISK_CONTRACT.features| && i != 12 ==>
              Spares(DELIVERY_DELAY_RISK_CONTRACT.features[i], "actual_departure_at")
  {
  }

  // ---- recording a departure late --------------------------------------------------------------------------

  /** The rows differ at most in the departure column, and there only if neither shows a departure
      before the prediction. */
  ghost predicate SameButDeparture(row: Row, row': Row, departure: string, predictionTime: int) {
    && (forall column :: column != departure ==> At(row, column) == At(row', column))
    && (At(row, departure) == At(row', departure)
        || (NotYet(At(row, departure), predictionTime) && NotYet(At(row', departure), predictionTime)))
  }

  ghost predicate TablesSameButDeparture(rows: seq<Row>, rows': seq<Row>, departure: string, predictionTime: int) {
    |rows| == |rows'| && forall i :: 0 <= i < |rows| ==> SameButDeparture(rows[i], rows'[i], departure, predictionTime)
  }

  lemma {:induction false} SameFirstMatch(rows: seq<Row>, rows': seq<Row>, c: Condition, departure: string,
                                          predictionTime: int)
    requires TablesSameButDeparture(rows, rows', departure, predictionTime) && c.column != departure
    ensures var a, b := Select(rows, [c]), Select(rows', [c]);
            (a == [] <==> b == []) && (a != [] ==> SameButDeparture(a[0], b[0], departure, predictionTime))
  {
    if rows != [] {
      SameFirstMatch(rows[1..], rows'[1..], c, departure, predictionTime);
      assert AllHold(rows[0], [c]) <==> Holds(rows[0], [c][0]);
      assert AllHold(rows'[0], [c]) <==> Holds(rows'[0], [c][0]);
    }
  }

  /** The column is not the identity, and every needed field mapped to it is only ever a departure. */
  ghost predicate HoldsOnlyDepartures(c: FeatureContract, d: MappingDocument, column: string) {
    && (IdentityColumn(d).Ok? ==> IdentityColumn(d).value.1 != column)
    && (forall field :: field in NeededFields(c.features) && ResolveColumn(d, field) == Ok(Some(column)) ==>
          OnlyDeparture(c, field))
  }

  lemma SameTargetRow(q: Request, db: Databases, db': Databases, departure: string)
    requires q.target.Some?
    requires var t := q.target.value;
             && TablesSameButDeparture(RowsOf(db, t), RowsOf(db', t), departure, q.predictionTime)
             && HoldsOnlyDepartures(q.contract, t.document, departure)
    ensures TargetAgrees(q, db, db')
  {
    var t := q.target.value;
    if IdentityColumn(t.document).Ok? {
      var column := IdentityColumn(t.document).value.1;
      SameFirstMatch(RowsOf(db, t), RowsOf(db', t), EqualTo(column, Text(q.reference)), departure, q.predictionTime);
    }
  }

  lemma SameVisible(q: Request, db: Databases, db': Databases, f: FeatureSpec, departure: string)
    requires RelatedMapping(q, f).Some?
    requires var m := RelatedMapping(q, f).value;
             TablesSameButDeparture(RowsOf(db, m), RowsOf(db', m), departure, q.predictionTime)
             && departure !in ReadColumns(f, m.document)
    ensures Visible(q, db, f) == Visible(q, db', f)
  {
    var m := RelatedMapping(q, f).value;
    var columns := ReadColumns(f, m.document);
    forall i | 0 <= i < |RowsOf(db, m)|
      ensures Seen(RowsOf(db, m)[i], columns) == Seen(RowsOf(db', m)[i], columns)
    {
      assert SameButDeparture(RowsOf(db, m)[i], RowsOf(db', m)[i], departure, q.predictionTime);
    }
  }

  /** Departures that have not happened by the prediction time may be recorded, moved or removed in any
      rows of any table, the target's own row included: no feature, missing reason or error changes. */
  lemma LaterDeparturesChangeNothing(q: Request, db: Databases, db': Databases, departure: string)
    requires ValidContract(q.contract)
    requires forall connection, table ::
               TablesSameButDeparture(db(connection, table), db'(connection, table), departure, q.predictionTime)
    requires forall f :: f in q.contract.features && !OnTarget(f) && RelatedMapping(q, f).Some? ==>
               departure !in ReadColumns(f, RelatedMapping(q, f).value.document)
    requires q.target.Some? ==> HoldsOnlyDepartures(q.contract, q.target.value.document, departure)
    ensures Extraction(q, db) == Extraction(q, db')
  {
    if q.target.Some? {
      SameTargetRow(q, db, db', departure);
      match (TargetRowOf(q, db), TargetRowOf(q, db'))
      case (Ok(Some(row)), Ok(Some(row'))) =>
        forall i | 0 <= i < |q.contract.features|
          ensures ExtractOne(q, db, row, q.contract.features[i]) == ExtractOne(q, db', row', q.contract.features[i])
        {
          SameDespiteDeparture(q, db, db', departure, row, row', i);
        }
        FirstFeaturesAgree(q, db, db', row, row', |q.contract.features|);
      case _ =>
    }
  }

  lemma SameDespiteDeparture(q: Request, db: Databases, db': Databases, departure: string, row: Row, row': Row, i: nat)
    requires ValidContract(q.contract) && i < |q.contract.features|
    requires var f := q.contract.features[i];
             !OnTarget(f) && RelatedMapping(q, f).Some? ==>
               TablesSameButDeparture(RowsOf(db, RelatedMapping(q, f).value), RowsOf(db', RelatedMapping(q, f).value),
                                      departure, q.predictionTime)
               && departure !in ReadColumns(f, RelatedMapping(q, f).value.document)
    requires forall field :: field in NeededFields(q.contract.features) ==> CellsAgree(q, row, row', field)
    ensures ExtractOne(q, db, row, q.contract.features[i]) == ExtractOne(q, db', row', q.contract.features[i])
  {
    var f := q.contract.features[i];
    FieldsAreNeeded(q.contract.features, i);
    if OnTarget(f) {
      TargetFeatureAgrees(q, row, row', f);
    } else {
      assert f.joinField.value in FieldsUsedBy(f);
      assert CellsAgree(q, row, row', f.joinField.value);
      if RelatedMapping(q, f).Some? {
        var m, joinValue := RelatedMapping(q, f).value, At(row, f.joinField.value);
        SameVisible(q, db, db', f, departure);
        OnlyReadColumnsMatter(f, m.document, joinValue, q.predictionTime, m.schemaAllowlist, m.tableAllowlist,
                              RowsOf(db, m));
        OnlyReadColumnsMatter(f, m.document, joinValue, q.predictionTime, m.schemaAllowlist, m.tableAllowlist,
                              RowsOf(db', m));
      }
    }
  }

  // ---- why the timestamp must be mapped -----------------------------------------------------------------------

  /** The row carries a time, and every instant in it is at or after the prediction time. */
  ghost predicate LiesAhead(row: Row, predictionTime: int) {
    && (exists column :: column in row && row[column].Instant?)
    && (forall column :: column in row && row[column].Instant? ==> row[column].t >= predictionTime)
  }

  /** Rows that lie ahead never change the feature's value. */
  ghost predicate IgnoresTheFuture(f: FeatureSpec, d: MappingDocument, joinValue: Cell, predictionTime: int,
                                   schemaAllowlist: seq<string>, tableAllowlist: seq<string>)
    requires ValidSpec(f) && !OnTarget(f)
  {
    forall rows, ahead :: LiesAhead(ahead, predictionTime) ==>
      RelatedValue(f, d, joinValue, predictionTime, schemaAllowlist, tableAllowlist, rows + [ahead])
      == RelatedValue(f, d, joinValue, predictionTime, schemaAllowlist, tableAllowlist, rows)
  }

  /** The column a count is filtered by, if it is. */
  function FilterColumn(f: FeatureSpec, d: MappingDocument): Option<string> {
    if !Given(f.filterField) || f.filterEquals.None? then None
    else
      match ResolveColumn(d, f.filterField.value)
      case Ok(column) => column
      case Err(_) => None
  }

  /** The query runs, and some row can be seen by it: for a filtered count, a row can have both the join
      value and the filter value. */
  predicate Runs(f: FeatureSpec, d: MappingDocument, joinColumn: string, joinValue: Cell, predictionTime: int,
                 schemaAllowlist: seq<string>, tableAllowlist: seq<string>)
    requires ValidSpec(f) && !OnTarget(f)
  {
    && Allowed(d, schemaAllowlist, tableAllowlist) && ResolveColumn(d, f.joinField.value) == Ok(Some(joinColumn))
    && CutoffOf(f, d, predictionTime).Ok?
    && match f.kind
       case RelatedCount =>
         && (Given(f.filterField) && f.filterEquals.Some? ==> ResolveColumn(d, f.filterField.value).Ok?)
         && (FilterColumn(f, d) == Some(joinColumn) ==> joinValue == Text(f.filterEquals.value))
       case RelatedRatio => IsMapped(d, f.filterField.value)
       case RelatedLatestValue => IsMapped(d, f.valueField.value)
       case _ => false
  }

  predicate IsMapped(d: MappingDocument, field: string) {
    ResolveColumn(d, field).Ok? && ResolveColumn(d, field).value.Some?
  }

  lemma SelectAppend(rows: seq<Row>, row: Row, conditions: seq<Condition>)
    ensures Select(rows + [row], conditions)
            == Select(rows, conditions) + if AllHold(row, conditions) then [row] else []
  {
    if rows == [] {
      assert rows + [row] == [row];
    } else {
      assert (rows + [row])[1..] == rows[1..] + [row];
      SelectAppend(rows[1..], row, conditions);
    }
  }

  /** A count, ratio or latest value ignores the future exactly when its timestamp field is mapped: with
      no mapped timestamp there is no cutoff at all. */
  lemma FutureIsIgnoredExactlyWhenTimestampIsMapped(f: FeatureSpec, d: MappingDocument, joinColumn: string,
                                                    joinValue: Cell,
                                                    predictionTime: int, schemaAllowlist: seq<string>,
                                                    tableAllowlist: seq<string>)
    requires ValidSpec(f) && !OnTarget(f)
             && Runs(f, d, joinColumn, joinValue, predictionTime, schemaAllowlist, tableAllowlist)
    requires joinValue.Text? || joinValue.Number?
    ensures IgnoresTheFuture(f, d, joinValue, predictionTime, schemaAllowlist, tableAllowlist)
            <==> CutoffOf(f, d, predictionTime).value.Some?
  {
    var cutoff := CutoffOf(f, d, predictionTime).value;
    var conditions := [EqualTo(joinColumn, joinValue)] + Window(cutoff, predictionTime);
    if cutoff.Some? {
      forall rows, ahead | LiesAhead(ahead, predictionTime)
        ensures Select(rows + [ahead], conditions) == Select(rows, conditions)
      {
        SelectAppend(rows, ahead, conditions);
        assert conditions[1] == Before(cutoff.value.column, predictionTime);
        assert !Holds(ahead, conditions[1]);
      }
    } else {
      UnmappedTimestampLeaks(f, d, joinColumn, joinValue, predictionTime, schemaAllowlist, tableAllowlist);
    }
  }

  lemma UnmappedTimestampLeaks(f: FeatureSpec, d: MappingDocument, joinColumn: string, joinValue: Cell,
                               predictionTime: int, schemaAllowlist: seq<string>, tableAllowlist: seq<string>)
    requires ValidSpec(f) && !OnTarget(f)
             && Runs(f, d, joinColumn, joinValue, predictionTime, schemaAllowlist, tableAllowlist)
    requires joinValue.Text? || joinValue.Number?
    requires CutoffOf(f, d, predictionTime).value.None?
    ensures !IgnoresTheFuture(f, d, joinValue, predictionTime, schemaAllowlist, tableAllowlist)
  {
    var conditions := [EqualTo(joinColumn, joinValue)] + Window(None, predictionTime);
    assert conditions == [EqualTo(joinColumn, joinValue)];
    var other := if f.kind.RelatedLatestValue? then ResolveColumn(d, f.valueField.value).value.value
                 else if f.kind.RelatedRatio? then ResolveColumn(d, f.filterField.value).value.value
                 else if FilterColumn(f, d).Some? then FilterColumn(f, d).value
                 else joinColumn;
    var value := if f.filterEquals.Some? then Text(f.filterEquals.value) else Number(1.0);
    var ahead := FutureRow(joinColumn, joinValue, other, value, predictionTime);
    assert Holds(ahead, conditions[0]);
    SelectAppend([], ahead, conditions);
    assert [] + [ahead] == [ahead];
    assert Select([ahead], conditions) == [ahead] && Select([], conditions) == [];
    if f.kind.RelatedCount? && FilterColumn(f, d).Some? {
      var filter := [EqualTo(other, value)];
      assert Holds(ahead, filter[0]);
      SelectAppend([], ahead, filter);
    }
    assert RelatedValue(f, d, joinValue, predictionTime, schemaAllowlist, tableAllowlist, [] + [ahead])
           != RelatedValue(f, d, joinValue, predictionTime, schemaAllowlist, tableAllowlist, []);
  }

  /** A row of the join value, with another value and dated at the prediction time. */
  function FutureRow(joinColumn: string, joinValue: Cell, other: string, value: Cell, predictionTime: int): (row: Row)
    requires joinValue.Text? || joinValue.Number?
    requires value.Text? || value.Number?
    ensures LiesAhead(row, predictionTime)
    ensures At(row, joinColumn) == joinValue && (other != joinColumn ==> At(row, other) == value)
  {
    var time := joinColumn + other + "_at";
    assert |time| > |joinColumn| && |time| > |other|;
    var row := map[time := Instant(predictionTime), other := value][joinColumn := joinValue];
    assert time in row && row[time].Instant?;
    row
  }
}
