/** What a feature's value is, said of the table's rows and the instants alone: counts and ratios of index
    sets, ages and hours of the calendar. */
module FeatureMeaning {
  import opened Common
  import RealFacts
  import opened Documents
  import opened FeatureContracts
  import opened FeatureQueries
  import opened FeatureExtraction
  import opened PointInTime
  import opened FeaturePlanning

  const MINUTE := 60_000_000
  const HOUR := 60 * MINUTE
  const DAY := 24 * HOUR

  // ---- the calendar -------------------------------------------------------------------------------

  /** The hour of the `hour`-th hour of any day. */
  lemma HourOfDayMeans(day: int, hour: int, rest: int)
    requires 0 <= hour < 24 && 0 <= rest < HOUR
    ensures HourOfDay(day * DAY + hour * HOUR + rest) == hour
  {
    var t := day * DAY + hour * HOUR + rest;
    assert t == (day * 24 + hour) * HOUR + rest;
    assert t / HOUR == day * 24 + hour;
  }

  /** The first of January 1970 was a Thursday, a weekday lasts the whole day, and the next day has the next
      one, Monday following Sunday. */
  lemma DayOfWeekMeans(day: int, rest: int)
    requires 0 <= rest < DAY
    ensures DayOfWeek(rest) == 3 && DayOfWeek(day * DAY + rest) == DayOfWeek(day * DAY)
    ensures var today := DayOfWeek(day * DAY + rest);
            DayOfWeek((day + 1) * DAY + rest) == if today == 6 then 0 else today + 1
  {
    assert (day * DAY + rest) / DAY == day && (day * DAY) / DAY == day;
    assert ((day + 1) * DAY + rest) / DAY == day + 1;
  }

  /** Ages count whole days, 365.25 of which make a year. */
  lemma AgeMeans(t: int, days: int, rest: int)
    requires 0 <= rest < DAY
    ensures AgeYears(t, t + days * DAY + rest) * 365.25 == days as real
  {
    assert (days * DAY + rest) / DAY == days;
  }

  /** What each derive function gives for an instant, and for none. */
  lemma DerivesMean(t: int, secondary: Cell, predictionTime: int)
    requires CoerceInstant(secondary).Ok?
    ensures ApplyDerive("hour_of_day", Instant(t), secondary, predictionTime) == Ok(Number(HourOfDay(t) as real))
    ensures ApplyDerive("day_of_week", Instant(t), secondary, predictionTime) == Ok(Number(DayOfWeek(t) as real))
    ensures ApplyDerive("age_years_at_prediction", Instant(t), secondary, predictionTime)
            == Ok(Number(AgeYears(t, predictionTime)))
    ensures ApplyDerive("hour_of_day", Null, secondary, predictionTime) == Ok(Null)
    ensures ApplyDerive("day_of_week", Null, secondary, predictionTime) == Ok(Null)
    ensures ApplyDerive("age_years_at_prediction", Null, secondary, predictionTime) == Ok(Null)
  {
    assert |"hour_of_day"| == 11 == |"day_of_week"| && "hour_of_day"[0] != "day_of_week"[0];
    assert |"age_years_at_prediction"| == 23 && |"loading_start_delay_minutes"| == 27;
  }

  /** The start delay is how many minutes after the plan the departure was, once it lies in the past, and
      zero until then. */
  lemma StartDelayMeans(actual: int, planned: int, predictionTime: int)
    ensures var delay := ApplyDerive("loading_start_delay_minutes", Instant(actual), Instant(planned), predictionTime);
            && delay.Ok? && delay.value.Number?
            && (actual < predictionTime ==> delay.value.x * MINUTE as real == (actual - planned) as real)
            && (actual >= predictionTime ==> delay.value.x == 0.0)
  {
  }

  /** Integer features keep the whole part of a number, towards zero. */
  lemma IntegerFeaturesTruncate(conversions: TextConversions, f: FeatureSpec, x: real)
    requires f.dataType.IntegerType?
    ensures var v := Normalize(conversions, f, Number(x));
            && v.Ok? && v.value.Amount? && v.value.x == v.value.x.Floor as real
            && (x >= 0.0 ==> v.value.x <= x < v.value.x + 1.0)
            && (x < 0.0 ==> v.value.x - 1.0 < x <= v.value.x)
  {
  }

  // ---- the rows in scope --------------------------------------------------------------------------

  /** Which columns and window a related query uses. */
  datatype Scope = Scope(joinColumn: string, joinValue: Cell, timeColumn: Option<string>, windowDays: Option<int>,
                         predictionTime: int)

  /** The row joins to the target, and where there is a timestamp column it has an instant before the
      prediction and at most `windowDays` days before it. */
  predicate InScope(s: Scope, row: Row) {
    && !s.joinValue.Null? && s.joinColumn in row && row[s.joinColumn] == s.joinValue
    && (s.timeColumn.Some? ==>
          && s.timeColumn.value in row && row[s.timeColumn.value].Instant?
          && row[s.timeColumn.value].t < s.predictionTime
          && (s.windowDays.Some? ==> s.predictionTime - row[s.timeColumn.value].t <= s.windowDays.value * DAY))
  }

  predicate Carries(row: Row, column: string, text: string) {
    column in row && row[column] == Text(text)
  }

  /** The places of the rows in scope. */
  function Scoped(s: Scope, rows: seq<Row>): set<nat> {
    set i: nat | i < |rows| && InScope(s, rows[i])
  }

  /** ... and of those that carry the text. */
  function ScopedWith(s: Scope, rows: seq<Row>, column: string, text: string): set<nat> {
    set i: nat | i < |rows| && InScope(s, rows[i]) && Carries(rows[i], column, text)
  }

  /** The field is read from this column: the first source of its mapping, where an entry among the fields
      comes before one of the identity. */
  predicate MapsTo(d: MappingDocument, field: string, column: string) {
    && !Unmapped(d, field)
    && var m := if field in d.fields then d.fields[field] else d.identity[field];
       m.sources != [] && m.sources[0].FromColumn? && m.sources[0].column == column
  }

  predicate Unmapped(d: MappingDocument, field: string) {
    field !in d.fields && field !in d.identity
  }

  /** The mapping document gives the feature this scope. */
  predicate HasScope(f: FeatureSpec, d: MappingDocument, s: Scope)
    requires ValidSpec(f) && !OnTarget(f)
  {
    && MapsTo(d, f.joinField.value, s.joinColumn)
    && (if s.timeColumn.Some? then Given(f.timestampField) && MapsTo(d, f.timestampField.value, s.timeColumn.value)
        else Given(f.timestampField) ==> Unmapped(d, f.timestampField.value))
    && s.windowDays == f.windowDays
    && (s.timeColumn.Some? && f.windowDays.Some? ==> f.windowDays.value <= 365)
  }

  function Conditions(s: Scope): seq<Condition> {
    [EqualTo(s.joinColumn, s.joinValue)]
    + if s.timeColumn.None? then []
      else if s.windowDays.None? then [Before(s.timeColumn.value, s.predictionTime)]
      else [Before(s.timeColumn.value, s.predictionTime),
            NotBefore(s.timeColumn.value, s.predictionTime - s.windowDays.value * MICROSECONDS_PER_DAY)]
  }

  lemma ConditionsMeanScope(s: Scope, row: Row)
    ensures AllHold(row, Conditions(s)) <==> InScope(s, row)
  {
    var conditions := Conditions(s);
    assert DAY == MICROSECONDS_PER_DAY;
    if AllHold(row, conditions) {
      assert Holds(row, conditions[0]);
      if s.timeColumn.Some? {
        assert Holds(row, conditions[1]);
        if s.windowDays.Some? {
          assert Holds(row, conditions[2]);
        }
      }
    }
  }

  lemma QuerySelectsScope(f: FeatureSpec, d: MappingDocument, s: Scope)
    requires ValidSpec(f) && !OnTarget(f) && HasScope(f, d, s)
    ensures CutoffOf(f, d, s.predictionTime).Ok?
    ensures var cutoff := CutoffOf(f, d, s.predictionTime).value;
            && [EqualTo(s.joinColumn, s.joinValue)] + Window(cutoff, s.predictionTime) == Conditions(s)
            && (cutoff.Some? <==> s.timeColumn.Some?) && (cutoff.Some? ==> cutoff.value.column == s.timeColumn.value)
  {
  }

  lemma {:induction false} SelectCounts(rows: seq<Row>, conditions: seq<Condition>)
    ensures |Select(rows, conditions)| == |set i: nat | i < |rows| && AllHold(rows[i], conditions)|
    decreases |rows|
  {
    hide AllHold;
    if rows == [] {
      assert (set i: nat | i < |rows| && AllHold(rows[i], conditions)) == {};
    } else {
      var n := |rows| - 1;
      var front := rows[..n];
      SelectCounts(front, conditions);
      SelectAppend(front, rows[n], conditions);
      assert rows == front + [rows[n]];
      var before := set i: nat | i < n && AllHold(front[i], conditions);
      var all := set i: nat | i < |rows| && AllHold(rows[i], conditions);
      assert all == if AllHold(rows[n], conditions) then before + {n} else before;
    }
  }

  lemma ScopeCounts(s: Scope, rows: seq<Row>)
    ensures |Select(rows, Conditions(s))| == |Scoped(s, rows)|
  {
    SelectCounts(rows, Conditions(s));
    forall row
      ensures AllHold(row, Conditions(s)) <==> InScope(s, row)
    {
      ConditionsMeanScope(s, row);
    }
    assert (set i: nat | i < |rows| && AllHold(rows[i], Conditions(s))) == Scoped(s, rows);
  }

  lemma {:induction false} SelectTwice(rows: seq<Row>, conditions: seq<Condition>, more: seq<Condition>)
    ensures Select(Select(rows, conditions), more) == Select(rows, conditions + more)
    decreases |rows|
  {
    if rows != [] {
      var n := |rows| - 1;
      var front := rows[..n];
      SelectTwice(front, conditions, more);
      assert rows == front + [rows[n]];
      SelectAppend(front, rows[n], conditions);
      SelectAppend(front, rows[n], conditions + more);
      SelectAppend(Select(front, conditions), rows[n], more);
      assert AllHold(rows[n], conditions + more) <==> AllHold(rows[n], conditions) && AllHold(rows[n], more) by {
        BothHold(rows[n], conditions, more);
      }
      assert Select(front, conditions) + [] == Select(front, conditions);
    }
  }

  lemma BothHold(row: Row, conditions: seq<Condition>, more: seq<Condition>)
    ensures AllHold(row, conditions + more) <==> AllHold(row, conditions) && AllHold(row, more)
  {
    if AllHold(row, conditions + more) {
      forall i | 0 <= i < |conditions|
        ensures Holds(row, conditions[i])
      {
        assert (conditions + more)[i] == conditions[i];
      }
      forall i | 0 <= i < |more|
        ensures Holds(row, more[i])
      {
        assert (conditions + more)[|conditions| + i] == more[i];
      }
    }
  }

  lemma FilteredScopeCounts(s: Scope, rows: seq<Row>, column: string, text: string)
    ensures |Select(Select(rows, Conditions(s)), [EqualTo(column, Text(text))])| == |ScopedWith(s, rows, column, text)|
  {
    var more := [EqualTo(column, Text(text))];
    SelectTwice(rows, Conditions(s), more);
    SelectCounts(rows, Conditions(s) + more);
    forall row
      ensures AllHold(row, Conditions(s) + more) <==> InScope(s, row) && Carries(row, column, text)
    {
      BothHold(row, Conditions(s), more);
      ConditionsMeanScope(s, row);
      if AllHold(row, more) {
        assert Holds(row, more[0]);
      }
    }
    assert (set i: nat | i < |rows| && AllHold(rows[i], Conditions(s) + more)) == ScopedWith(s, rows, column, text);
  }

  // ---- what each kind of feature gives ------------------------------------------------------------

  /** A count is the number of rows in scope, of those that carry the filter value if there is a filter. */
  lemma CountMeans(f: FeatureSpec, d: MappingDocument, s: Scope, schemaAllowlist: seq<string>,
                   tableAllowlist: seq<string>, rows: seq<Row>, filter: Option<string>)
    requires ValidSpec(f) && f.kind.RelatedCount? && HasScope(f, d, s) && Allowed(d, schemaAllowlist, tableAllowlist)
    requires if !Given(f.filterField) || f.filterEquals.None? then filter.None?
             else if filter.Some? then MapsTo(d, f.filterField.value, filter.value)
             else Unmapped(d, f.filterField.value)
    ensures RelatedValue(f, d, s.joinValue, s.predictionTime, schemaAllowlist, tableAllowlist, rows)
            == Ok(Number(if filter.None? then |Scoped(s, rows)| as real
                         else |ScopedWith(s, rows, filter.value, f.filterEquals.value)| as real))
  {
    QuerySelectsScope(f, d, s);
    ScopeCounts(s, rows);
    if filter.Some? {
      FilteredScopeCounts(s, rows, filter.value, f.filterEquals.value);
    }
  }

  lemma ShareOf(part: set<nat>, all: set<nat>)
    requires part <= all && all != {}
    ensures |all| > 0
    ensures var share := |part| as real / |all| as real;
            share * |all| as real == |part| as real && (part == all ==> share == 1.0) && (part == {} ==> share == 0.0)
  {
    var member :| member in all;
    assert all == all - {member} + {member};
    var n := |all| as real;
    RealFacts.DivideThenMultiply(|part| as real, n);
    if part == all {
      RealFacts.CancelFactor(|part| as real / n, 1.0, n);
    } else if part == {} {
      RealFacts.CancelFactor(|part| as real / n, 0.0, n);
    }
  }

  lemma ValueIsAggregate(f: FeatureSpec, d: MappingDocument, s: Scope, schemaAllowlist: seq<string>,
                         tableAllowlist: seq<string>, rows: seq<Row>)
    requires ValidSpec(f) && !OnTarget(f) && HasScope(f, d, s) && Allowed(d, schemaAllowlist, tableAllowlist)
    ensures CutoffOf(f, d, s.predictionTime).Ok?
    ensures RelatedValue(f, d, s.joinValue, s.predictionTime, schemaAllowlist, tableAllowlist, rows)
            == Aggregate(f, d, CutoffOf(f, d, s.predictionTime).value, Select(rows, Conditions(s)), s.predictionTime)
  {
    hide Aggregate, Select, AllHold;
    QuerySelectsScope(f, d, s);
  }

  lemma RatioOfSelected(f: FeatureSpec, d: MappingDocument, cutoff: Option<Cutoff>, selected: seq<Row>,
                        predictionTime: int, filter: string)
    requires ValidSpec(f) && f.kind.RelatedRatio? && ResolveColumn(d, f.filterField.value) == Ok(Some(filter))
    ensures Aggregate(f, d, cutoff, selected, predictionTime)
            == Ok(if selected == [] then Null
                  else Number(|Select(selected, [EqualTo(filter, Text(f.filterEquals.value))])| as real
                              / |selected| as real))
  {
    hide Select, AllHold;
  }

  /** A ratio times the rows in scope is the number of those that carry the filter value; it is null
      without any. */
  lemma RatioMeans(f: FeatureSpec, d: MappingDocument, s: Scope, schemaAllowlist: seq<string>,
                   tableAllowlist: seq<string>, rows: seq<Row>, filter: string)
    requires ValidSpec(f) && f.kind.RelatedRatio? && HasScope(f, d, s) && Allowed(d, schemaAllowlist, tableAllowlist)
    requires MapsTo(d, f.filterField.value, filter)
    ensures var v := RelatedValue(f, d, s.joinValue, s.predictionTime, schemaAllowlist, tableAllowlist, rows);
            var all, matching := Scoped(s, rows), ScopedWith(s, rows, filter, f.filterEquals.value);
            && v.Ok? && (all == {} <==> v.value.Null?)
            && (all != {} ==>
                  && v.value.Number? && v.value.x * |all| as real == |matching| as real
                  && (matching == all ==> v.value.x == 1.0) && (matching == {} ==> v.value.x == 0.0))
  {
    hide Scoped, ScopedWith, Select, Aggregate, RelatedValue, HasScope;
    var all, matching := Scoped(s, rows), ScopedWith(s, rows, filter, f.filterEquals.value);
    var selected := Select(rows, Conditions(s));
    ValueIsAggregate(f, d, s, schemaAllowlist, tableAllowlist, rows);
    RatioOfSelected(f, d, CutoffOf(f, d, s.predictionTime).value, selected, s.predictionTime, filter);
    ScopeCounts(s, rows);
    FilteredScopeCounts(s, rows, filter, f.filterEquals.value);
    ScopedWithIsScoped(s, rows, filter, f.filterEquals.value);
    if all != {} {
      ShareOf(matching, all);
      assert selected != [];
    }
  }

  lemma ScopedWithIsScoped(s: Scope, rows: seq<Row>, column: string, text: string)
    ensures ScopedWith(s, rows, column, text) <= Scoped(s, rows)
    ensures |Scoped(s, rows)| == 0 <==> Scoped(s, rows) == {}
  {
  }

  /** The row at `i` is in scope and none in scope is later. */
  predicate IsLatestInScope(s: Scope, rows: seq<Row>, i: nat)
    requires s.timeColumn.Some?
  {
    && i in Scoped(s, rows)
    && forall j :: j in Scoped(s, rows) ==> rows[j][s.timeColumn.value].t <= rows[i][s.timeColumn.value].t
  }

  lemma SelectedIsScoped(s: Scope, rows: seq<Row>, row: Row)
    ensures row in Select(rows, Conditions(s)) <==> exists i :: i in Scoped(s, rows) && rows[i] == row
  {
    ConditionsMeanScope(s, row);
    if row in Select(rows, Conditions(s)) {
      var i :| 0 <= i < |rows| && rows[i] == row;
      assert i in Scoped(s, rows);
    }
  }

  /** The maximal instant of the rows in scope is that of a latest one. */
  lemma MaxIsLatestInScope(s: Scope, rows: seq<Row>)
    requires s.timeColumn.Some?
    ensures var m := MaxInstant(Select(rows, Conditions(s)), s.timeColumn.value);
            && (m.None? <==> Scoped(s, rows) == {})
            && (m.Some? ==> forall i :: i in Scoped(s, rows) ==>
                  (rows[i][s.timeColumn.value].t == m.value <==> IsLatestInScope(s, rows, i)))
            && (m.Some? ==> exists i :: i in Scoped(s, rows) && rows[i][s.timeColumn.value].t == m.value)
  {
    var selected, column := Select(rows, Conditions(s)), s.timeColumn.value;
    MaxInstantIsMax(selected, column);
    forall row
      ensures row in selected <==> exists i :: i in Scoped(s, rows) && rows[i] == row
    {
      SelectedIsScoped(s, rows, row);
    }
    forall i | i in Scoped(s, rows)
      ensures rows[i] in selected
    {
      assert rows[i] == rows[i];
    }
    var m := MaxInstant(selected, column);
    if m.Some? {
      var row :| row in selected && At(row, column) == Instant(m.value);
      var i :| i in Scoped(s, rows) && rows[i] == row;
      assert rows[i][column].t == m.value;
    }
  }

  /** The recency is how many days the latest row in scope lies before the prediction; it is null without
      any. */
  lemma RecencyMeans(f: FeatureSpec, d: MappingDocument, s: Scope, schemaAllowlist: seq<string>,
                     tableAllowlist: seq<string>, rows: seq<Row>)
    requires ValidSpec(f) && f.kind.RelatedRecencyDays? && HasScope(f, d, s)
             && Allowed(d, schemaAllowlist, tableAllowlist)
    requires s.timeColumn.Some?
    ensures var v := RelatedValue(f, d, s.joinValue, s.predictionTime, schemaAllowlist, tableAllowlist, rows);
            && v.Ok? && (Scoped(s, rows) == {} <==> v.value.Null?)
            && (Scoped(s, rows) != {} ==> v.value.Number?)
            && forall i: nat :: IsLatestInScope(s, rows, i) ==>
                 v.value.Number?
                 && v.value.x * DAY as real == (s.predictionTime - rows[i][s.timeColumn.value].t) as real
  {
    hide RelatedValue, HasScope, Select, MaxInstant, InScope;
    QuerySelectsScope(f, d, s);
    ValueIsAggregate(f, d, s, schemaAllowlist, tableAllowlist, rows);
    hide CutoffOf;
    MaxIsLatestInScope(s, rows);
    var m := MaxInstant(Select(rows, Conditions(s)), s.timeColumn.value);
    if m.Some? {
      RealFacts.DivideThenMultiply((s.predictionTime - m.value) as real, MICROSECONDS_PER_DAY as real);
    }
  }

  /** With a timestamp column the latest value is that of a latest row in scope; it is null without any. */
  lemma LatestValueMeans(f: FeatureSpec, d: MappingDocument, s: Scope, schemaAllowlist: seq<string>,
                         tableAllowlist: seq<string>, rows: seq<Row>, column: string)
    requires ValidSpec(f) && f.kind.RelatedLatestValue? && HasScope(f, d, s)
             && Allowed(d, schemaAllowlist, tableAllowlist)
    requires MapsTo(d, f.valueField.value, column) && s.timeColumn.Some?
    ensures var v := RelatedValue(f, d, s.joinValue, s.predictionTime, schemaAllowlist, tableAllowlist, rows);
            && v.Ok? && (Scoped(s, rows) == {} ==> v.value.Null?)
            && (Scoped(s, rows) != {} ==>
                  exists i: nat :: IsLatestInScope(s, rows, i) && v.value == At(rows[i], column))
  {
    QuerySelectsScope(f, d, s);
    MaxIsLatestInScope(s, rows);
    var selected := Select(rows, Conditions(s));
    LatestRowIsLatest(selected, s.timeColumn.value);
    var latest := LatestRow(selected, s.timeColumn.value);
    if latest.Some? {
      SelectedIsScoped(s, rows, latest.value);
      var i :| i in Scoped(s, rows) && rows[i] == latest.value;
      assert rows[i][s.timeColumn.value].t == MaxInstant(selected, s.timeColumn.value).value;
      assert IsLatestInScope(s, rows, i);
    }
  }

  lemma {:induction false} FirstSelected(rows: seq<Row>, conditions: seq<Condition>)
    ensures var selected := Select(rows, conditions);
            && (selected == [] <==> forall i :: 0 <= i < |rows| ==> !AllHold(rows[i], conditions))
            && forall i :: 0 <= i < |rows| && AllHold(rows[i], conditions)
                           && (forall j :: 0 <= j < i ==> !AllHold(rows[j], conditions)) ==>
                 selected != [] && selected[0] == rows[i]
    decreases |rows|
  {
    if rows != [] {
      FirstSelected(rows[1..], conditions);
      assert forall i :: 0 < i < |rows| ==> rows[i] == rows[1..][i - 1];
    }
  }

  /** Without one it is the value of the first row that joins. */
  lemma FirstValueMeans(f: FeatureSpec, d: MappingDocument, s: Scope, schemaAllowlist: seq<string>,
                        tableAllowlist: seq<string>, rows: seq<Row>, column: string)
    requires ValidSpec(f) && f.kind.RelatedLatestValue? && HasScope(f, d, s)
             && Allowed(d, schemaAllowlist, tableAllowlist)
    requires MapsTo(d, f.valueField.value, column) && s.timeColumn.None?
    ensures var v := RelatedValue(f, d, s.joinValue, s.predictionTime, schemaAllowlist, tableAllowlist, rows);
            && v.Ok? && (Scoped(s, rows) == {} ==> v.value.Null?)
            && forall i :: i in Scoped(s, rows) && (forall j :: j in Scoped(s, rows) ==> i <= j) ==>
                 v.value == At(rows[i], column)
  {
    QuerySelectsScope(f, d, s);
    FirstSelected(rows, Conditions(s));
    forall row
      ensures AllHold(row, Conditions(s)) <==> InScope(s, row)
    {
      ConditionsMeanScope(s, row);
    }
    if Scoped(s, rows) == {} {
      forall i | 0 <= i < |rows|
        ensures !AllHold(rows[i], Conditions(s))
      {
        assert i !in Scoped(s, rows);
      }
    }
    forall i | i in Scoped(s, rows) && (forall j :: j in Scoped(s, rows) ==> i <= j)
      ensures forall j :: 0 <= j < i ==> !AllHold(rows[j], Conditions(s))
    {
      forall j | 0 <= j < i
        ensures !AllHold(rows[j], Conditions(s))
      {
        assert j !in Scoped(s, rows);
      }
    }
  }

  // ---- in the batch -------------------------------------------------------------------------------

  /** The feature is a related one of the contract, with a mapping and a value to join on. */
  ghost predicate IsJoined(q: Request, db: Databases, i: nat, s: Scope)
    requires ValidContract(q.contract)
  {
    && i < |q.contract.features| && !OnTarget(q.contract.features[i])
    && q.target.Some? && TargetRowOf(q, db).Ok? && TargetRowOf(q, db).value.Some?
    && var f := q.contract.features[i];
       && RelatedMapping(q, f).Some? && s.predictionTime == q.predictionTime
       && HasScope(f, RelatedMapping(q, f).value.document, s)
       && s.joinValue == At(TargetRowOf(q, db).value.value, f.joinField.value) && !s.joinValue.Null?
       && var m := RelatedMapping(q, f).value;
          Allowed(m.document, m.schemaAllowlist, m.tableAllowlist)
  }

  lemma JoinedIsExtracted(q: Request, db: Databases, i: nat, s: Scope)
    requires ValidContract(q.contract) && UniqueNames(q.contract) && Extraction(q, db).Ok? && IsJoined(q, db, i, s)
    ensures var f := q.contract.features[i];
            var m := RelatedMapping(q, f).value;
            var raw := RelatedValue(f, m.document, s.joinValue, s.predictionTime, m.schemaAllowlist, m.tableAllowlist,
                                    RowsOf(db, m));
            && f.name in Extraction(q, db).value.features && raw.Ok?
            && var value := if f.derive.None? then raw
               else ApplyDerive(f.derive.value, raw.value, Null, q.predictionTime);
               value.Ok? && Normalize(q.conversions, f, value.value) == Ok(Extraction(q, db).value.features[f.name])
  {
    var row := TargetRowOf(q, db).value.value;
    FeatureInBatch(q, db, row, |q.contract.features|, i);
  }

  /** The batch holds the count of the rows in scope, or of those with the filter value. */
  lemma ExtractedCountMeans(q: Request, db: Databases, i: nat, s: Scope, filter: Option<string>)
    requires ValidContract(q.contract) && UniqueNames(q.contract) && Extraction(q, db).Ok? && IsJoined(q, db, i, s)
    requires var f := q.contract.features[i];
             && f.kind.RelatedCount? && f.derive.None? && !f.dataType.BooleanType?
             && if !Given(f.filterField) || f.filterEquals.None? then filter.None?
                else if filter.Some? then MapsTo(RelatedMapping(q, f).value.document, f.filterField.value, filter.value)
                else Unmapped(RelatedMapping(q, f).value.document, f.filterField.value)
    ensures var f := q.contract.features[i];
            var m := RelatedMapping(q, f).value;
            var rows := db(m.connectionId, m.document.schemaName + "." + m.document.table);
            && f.name in Extraction(q, db).value.features
            && Extraction(q, db).value.features[f.name]
               == Amount(if filter.None? then |Scoped(s, rows)| as real
                         else |ScopedWith(s, rows, filter.value, f.filterEquals.value)| as real)
  {
    hide IsJoined, Extraction, HasScope;
    JoinedFacts(q, db, i, s);
    var f := q.contract.features[i];
    var m := RelatedMapping(q, f).value;
    JoinedIsExtracted(q, db, i, s);
    CountMeans(f, m.document, s, m.schemaAllowlist, m.tableAllowlist, RowsOf(db, m), filter);
  }

  lemma FloatFeaturesKeepNumbers(conversions: TextConversions, f: FeatureSpec, raw: Cell)
    requires f.dataType.FloatType? && (raw.Null? || raw.Number?)
    ensures Normalize(conversions, f, raw) == Ok(if raw.Null? then DeclaredMissing(f) else Amount(raw.x))
  {
  }

  /** The batch holds the ratio of the rows with the filter value to all in scope, and the declared missing
      value without any. */
  lemma ExtractedRatioMeans(q: Request, db: Databases, i: nat, s: Scope, filter: string)
    requires ValidContract(q.contract) && UniqueNames(q.contract) && Extraction(q, db).Ok? && IsJoined(q, db, i, s)
    requires var f := q.contract.features[i];
             && f.kind.RelatedRatio? && f.derive.None? && f.dataType.FloatType?
             && MapsTo(RelatedMapping(q, f).value.document, f.filterField.value, filter)
    ensures var f := q.contract.features[i];
            var m := RelatedMapping(q, f).value;
            var rows := db(m.connectionId, m.document.schemaName + "." + m.document.table);
            var all, matching := Scoped(s, rows), ScopedWith(s, rows, filter, f.filterEquals.value);
            && f.name in Extraction(q, db).value.features
            && var value := Extraction(q, db).value.features[f.name];
               && (all == {} ==> value == DeclaredMissing(f))
               && (all != {} ==>
                     && value.Amount? && value.x * |all| as real == |matching| as real
                     && (matching == all ==> value.x == 1.0) && (matching == {} ==> value.x == 0.0))
  {
    hide IsJoined, Extraction, HasScope;
    JoinedFacts(q, db, i, s);
    var f := q.contract.features[i];
    var m := RelatedMapping(q, f).value;
    JoinedIsExtracted(q, db, i, s);
    RatioMeans(f, m.document, s, m.schemaAllowlist, m.tableAllowlist, RowsOf(db, m), filter);
    hide Normalize, DeclaredMissing, RelatedValue;
    FloatFeaturesKeepNumbers(q.conversions, f,
                             RelatedValue(f, m.document, s.joinValue, s.predictionTime, m.schemaAllowlist,
                                          m.tableAllowlist, RowsOf(db, m)).value);
  }

  /** The batch holds the days since the latest row in scope. */
  lemma ExtractedRecencyMeans(q: Request, db: Databases, i: nat, s: Scope)
    requires ValidContract(q.contract) && UniqueNames(q.contract) && Extraction(q, db).Ok? && IsJoined(q, db, i, s)
    requires var f := q.contract.features[i];
             f.kind.RelatedRecencyDays? && f.derive.None? && f.dataType.FloatType?
    requires s.timeColumn.Some?
    ensures var f := q.contract.features[i];
            var m := RelatedMapping(q, f).value;
            var rows := db(m.connectionId, m.document.schemaName + "." + m.document.table);
            && f.name in Extraction(q, db).value.features
            && var value := Extraction(q, db).value.features[f.name];
               && (Scoped(s, rows) == {} ==> value == DeclaredMissing(f))
               && forall n: nat :: IsLatestInScope(s, rows, n) ==>
                    value.Amount? && value.x * DAY as real == (s.predictionTime - rows[n][s.timeColumn.value].t) as real
  {
    hide IsJoined, Extraction, HasScope;
    JoinedFacts(q, db, i, s);
    var f := q.contract.features[i];
    var m := RelatedMapping(q, f).value;
    JoinedIsExtracted(q, db, i, s);
    RecencyMeans(f, m.document, s, m.schemaAllowlist, m.tableAllowlist, RowsOf(db, m));
  }

  lemma JoinedFacts(q: Request, db: Databases, i: nat, s: Scope)
    requires ValidContract(q.contract) && IsJoined(q, db, i, s)
    ensures i < |q.contract.features| && ValidSpec(q.contract.features[i]) && !OnTarget(q.contract.features[i])
    ensures var f := q.contract.features[i];
            && RelatedMapping(q, f).Some? && HasScope(f, RelatedMapping(q, f).value.document, s)
            && var m := RelatedMapping(q, f).value;
               Allowed(m.document, m.schemaAllowlist, m.tableAllowlist)
  {
  }

  // ---- the target row -----------------------------------------------------------------------------

  predicate IsFirstWith(rows: seq<Row>, column: string, text: string, i: nat) {
    i < |rows| && Carries(rows[i], column, text) && forall j :: 0 <= j < i ==> !Carries(rows[j], column, text)
  }

  /** The fetched row has the identity field and the needed fields that are mapped, each with the cell of its
      column in the first row that carries the reference; there is none without such a row. */
  lemma FetchedRowMeans(d: MappingDocument, field: string, column: string, reference: string, needed: set<string>,
                        schemaAllowlist: seq<string>, tableAllowlist: seq<string>, rows: seq<Row>)
    requires d.identity.Keys == {field} && MapsTo(d, field, column)
    requires TargetRow(d, reference, needed, schemaAllowlist, tableAllowlist, rows).Ok?
    ensures var row := TargetRow(d, reference, needed, schemaAllowlist, tableAllowlist, rows).value;
            && (row.None? <==> forall i :: 0 <= i < |rows| ==> !Carries(rows[i], column, reference))
            && forall i: nat :: IsFirstWith(rows, column, reference, i) ==>
                 row.Some? && IsReadFrom(d, field, needed, rows[i], row.value) && row.value[field] == Text(reference)
  {
    assert |d.identity| == |d.identity.Keys| == 1;
    assert field in d.identity;
    assert IdentityColumn(d) == Ok((field, column));
    var conditions := [EqualTo(column, Text(reference))];
    forall row
      ensures AllHold(row, conditions) <==> Carries(row, column, reference)
    {
      if AllHold(row, conditions) {
        assert Holds(row, conditions[0]);
      }
    }
    FirstSelected(rows, conditions);
    forall i: nat | IsFirstWith(rows, column, reference, i)
      ensures var row := TargetRow(d, reference, needed, schemaAllowlist, tableAllowlist, rows).value;
              row.Some? && IsReadFrom(d, field, needed, rows[i], row.value) && row.value[field] == Text(reference)
    {
      ProjectedIsReadFrom(d, field, column, needed, rows[i]);
    }
  }

  lemma ProjectedIsReadFrom(d: MappingDocument, field: string, column: string, needed: set<string>, source: Row)
    requires MapsTo(d, field, column) && !SomeFieldUnplain(d, field, needed)
    ensures IsReadFrom(d, field, needed, source, Project(source, TargetColumns(d, field, column, needed)))
  {
    var columns := TargetColumns(d, field, column, needed);
    forall other
      ensures other in columns <==> other == field || (other in needed && exists c :: MapsTo(d, other, c))
    {
      if other in needed && other != field {
        assert ResolveColumn(d, other).Ok?;
        assert ResolveColumn(d, other).value.Some? ==> MapsTo(d, other, ResolveColumn(d, other).value.value);
      }
    }
  }

  ghost predicate IsReadFrom(d: MappingDocument, field: string, needed: set<string>, source: Row, row: Row) {
    && field in row
    && (forall other :: other in row <==> other == field || (other in needed && exists c :: MapsTo(d, other, c)))
    && forall other, c :: other in row && MapsTo(d, other, c) ==> row[other] == At(source, c)
  }

  // ---- what is reported missing -------------------------------------------------------------------

  lemma {:induction false} ReportedUpTo(q: Request, db: Databases, row: Row, n: nat, name: string,
                                        reason: MissingReason)
    requires ValidContract(q.contract) && n <= |q.contract.features| && ExtractFirst(q, db, row, n).Ok?
    ensures (name, reason) in ExtractFirst(q, db, row, n).value.missing
            <==> exists i :: 0 <= i < n && q.contract.features[i].name == name
                             && ExtractOne(q, db, row, q.contract.features[i]).Ok?
                             && ExtractOne(q, db, row, q.contract.features[i]).value.missing == Some(reason)
  {
    hide ExtractOne;
    if n > 0 {
      ReportedUpTo(q, db, row, n - 1, name, reason);
    }
  }

  ghost predicate IsReported(b: Batch, f: FeatureSpec, reason: MissingReason) {
    (f.name, reason) in b.missing
  }

  lemma ReportedIsOwn(q: Request, db: Databases, row: Row, b: Batch, i: nat, reason: MissingReason)
    requires ValidContract(q.contract) && UniqueNames(q.contract) && i < |q.contract.features|
    requires ExtractFirst(q, db, row, |q.contract.features|) == Ok(b)
    ensures ExtractOne(q, db, row, q.contract.features[i]).Ok?
    ensures IsReported(b, q.contract.features[i], reason)
            <==> ExtractOne(q, db, row, q.contract.features[i]).value.missing == Some(reason)
  {
    hide ExtractOne;
    FeatureInBatch(q, db, row, |q.contract.features|, i);
    ReportedUpTo(q, db, row, |q.contract.features|, q.contract.features[i].name, reason);
  }

  /** Why a feature is reported missing: no mapping of its entity, no value to join on, or a required value
      that turns out null; each exactly when that is so. */
  lemma ReportedExactlyWhen(q: Request, db: Databases, row: Row, b: Batch, i: nat)
    requires ValidContract(q.contract) && UniqueNames(q.contract) && i < |q.contract.features|
    requires q.target.Some? && TargetRowOf(q, db) == Ok(Some(row)) && Extraction(q, db) == Ok(b)
    ensures var f := q.contract.features[i];
            && (forall entity :: IsReported(b, f, NoActiveMapping(entity))
                                 <==> !OnTarget(f) && RelatedMapping(q, f).None? && f.relatedEntity == Some(entity))
            && (IsReported(b, f, NoJoinValue)
                <==> !OnTarget(f) && RelatedMapping(q, f).Some? && At(row, f.joinField.value).Null?)
            && (f.kind.DirectField? ==>
                  (IsReported(b, f, NoValue) <==> f.required && At(row, f.targetField.value).Null?))
            && (IsReported(b, f, NoValue) ==>
                  f.required && f.name in b.features && b.features[f.name] == DeclaredMissing(f))
  {
    hide ExtractOne, ExtractFirst, IsReported;
    var f := q.contract.features[i];
    forall reason
      ensures ExtractOne(q, db, row, f).Ok?
      ensures IsReported(b, f, reason) <==> ExtractOne(q, db, row, f).value.missing == Some(reason)
    {
      ReportedIsOwn(q, db, row, b, i, reason);
    }
    ReportedIsOwn(q, db, row, b, i, NoValue);
    FeatureInBatch(q, db, row, |q.contract.features|, i);
    CauseOfMissing(q, db, row, f);
  }

  lemma CauseOfMissing(q: Request, db: Databases, row: Row, f: FeatureSpec)
    requires ValidSpec(f) && ExtractOne(q, db, row, f).Ok?
    ensures var one := ExtractOne(q, db, row, f).value;
            && (forall entity :: one.missing == Some(NoActiveMapping(entity))
                                 <==> !OnTarget(f) && RelatedMapping(q, f).None? && f.relatedEntity == Some(entity))
            && (one.missing == Some(NoJoinValue)
                <==> !OnTarget(f) && RelatedMapping(q, f).Some? && At(row, f.joinField.value).Null?)
            && (f.kind.DirectField? ==>
                  (one.missing == Some(NoValue) <==> f.required && At(row, f.targetField.value).Null?))
            && (one.missing == Some(NoValue) ==> f.required && one.value == DeclaredMissing(f))
  {
  }

  // ---- the dry run --------------------------------------------------------------------------------

  /** A plan calls a feature available if and only if its field, or its join field on both sides, is mapped
      to a column, and gives the reason otherwise. */
  lemma AvailableExactlyWhenMapped(q: Request, d: MappingDocument, entries: seq<PlanEntry>, i: nat)
    requires ValidContract(q.contract) && IsPlan(q, d, Ok(entries)) && i < |entries|
    ensures i < |q.contract.features|
    ensures var f, entry := q.contract.features[i], entries[i];
            && entry.feature == f.name && entry.kind == f.kind && (entry.available <==> entry.reason.None?)
            && (OnTarget(f) ==>
                  && (entry.available <==> f.targetField.value in d.AllFields())
                  && (entry.reason.Some? ==> entry.reason.value.TargetFieldNotMapped?))
            && (!OnTarget(f) ==>
                  && (entry.reason == Some(JoinNotMappedOnOneSide) <==> RelatedMapping(q, f).Some? && !entry.available)
                  && (entry.reason == Some(NoProductionMapping(f.relatedEntity.value)) <==> RelatedMapping(q, f).None?)
                  && (entry.available <==>
                        && RelatedMapping(q, f).Some? && f.joinField.value in d.AllFields()
                        && f.joinField.value in RelatedMapping(q, f).value.document.AllFields()))
  {
    assert PlanOne(q, d, q.contract.features[i]) == Ok(entries[i]);
  }
}
