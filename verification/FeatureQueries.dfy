/** The feature query compiler (features/compiler.py) over an abstract database: tables are sequences
    of rows, and queries are selections and aggregates over them. */
module FeatureQueries {
  import opened Common
  import opened Documents
  import opened FeatureContracts

  /** A database value; instants count microseconds since 1970-01-01 UTC. */
  datatype Cell = Null | Text(text: string) | Number(x: real) | Boolean(b: bool) | Instant(t: int)

  type Row = map<string, Cell>

  datatype FeatureError =
    | TargetMappingUnavailable
    | DisallowedObject
    | NotDirectlyMapped
    | WindowTooLong
    | NoTimestampColumn
    | TargetRowNotFound
    | UnknownDerive
    | NotATimestamp
    | NotANumber

  const MAX_HISTORICAL_WINDOW_DAYS := 365
  const MICROSECONDS_PER_DAY := 86_400_000_000

  /** A column the table lacks reads as null. */
  function At(row: Row, column: string): Cell {
    if column in row then row[column] else Null
  }

  // ---- columns --------------------------------------------------------------------------------

  /** The column a field is plainly mapped to, if it is mapped at all; only the first source counts. */
  function ResolveColumn(d: MappingDocument, field: string): Result<Option<string>, FeatureError> {
    var all := d.AllFields();
    if field !in all then Ok(None)
    else if all[field].sources == [] || !all[field].sources[0].FromColumn? then Err(NotDirectlyMapped)
    else Ok(Some(all[field].sources[0].column))
  }

  predicate Allowed(d: MappingDocument, schemaAllowlist: seq<string>, tableAllowlist: seq<string>) {
    d.schemaName in schemaAllowlist && d.table in tableAllowlist
  }

  // ---- selections -------------------------------------------------------------------------------

  datatype Condition = EqualTo(column: string, value: Cell) | Before(column: string,
                               t: int) | NotBefore(column: string, t: int)

  /** Comparisons with null are never true. */
  predicate Holds(row: Row, c: Condition) {
    var cell := At(row, c.column);
    match c
    case EqualTo(_, value) => cell == value && !value.Null?
    case Before(_, t) => cell.Instant? && cell.t < t
    case NotBefore(_, t) => cell.Instant? && cell.t >= t
  }

  predicate AllHold(row: Row, conditions: seq<Condition>) {
    forall i :: 0 <= i < |conditions| ==> Holds(row, conditions[i])
  }

  function Select(rows: seq<Row>, conditions: seq<Condition>): seq<Row> {
    Filter(rows, (row: Row) => AllHold(row, conditions))
  }

  /** The latest instant in a column. */
  function MaxInstant(rows: seq<Row>, column: string): Option<int> {
    if rows == [] then None
    else
      var rest := MaxInstant(rows[1..], column);
      var cell := At(rows[0], column);
      if !cell.Instant? then rest
      else if rest.None? || rest.value < cell.t then Some(cell.t)
      else rest
  }

  /** The first row when sorted by the column, latest first. */
  function LatestRow(rows: seq<Row>, column: string): Option<Row> {
    var latest := MaxInstant(rows, column);
    if latest.None? then None
    else
      var candidates := Select(rows, [EqualTo(column, Instant(latest.value))]);
      if candidates == [] then None else Some(candidates[0])
  }

  // ---- one related feature -------------------------------------------------------------------------

  /** When the rows a feature looks at are cut off. */
  datatype Cutoff = Cutoff(column: string, windowStart: Option<int>)

  function TimestampColumn(f: FeatureSpec, d: MappingDocument): Result<Option<string>, FeatureError> {
    if Given(f.timestampField) then ResolveColumn(d, f.timestampField.value) else Ok(None)
  }

  /** No cutoff at all when the timestamp field is not mapped. */
  function CutoffOf(f: FeatureSpec, d: MappingDocument, predictionTime: int): Result<Option<Cutoff>, FeatureError> {
    match TimestampColumn(f, d)
    case Err(e) => Err(e)
    case Ok(None) => Ok(None)
    case Ok(Some(column)) =>
      match f.windowDays
      case None => Ok(Some(Cutoff(column, None)))
      case Some(days) =>
        if days > MAX_HISTORICAL_WINDOW_DAYS then Err(WindowTooLong)
        else Ok(Some(Cutoff(column, Some(predictionTime - days * MICROSECONDS_PER_DAY))))
  }

  /** The window of a cutoff: from its start, if any, up to but excluding the prediction time. */
  function Window(cutoff: Option<Cutoff>, predictionTime: int): seq<Condition> {
    match cutoff
    case None => []
    case Some(Cutoff(column, None)) => [Before(column, predictionTime)]
    case Some(Cutoff(column, Some(start))) => [Before(column, predictionTime), NotBefore(column, start)]
  }

  /** What the aggregate of the feature's kind gives on the selected rows. */
  function Aggregate(f: FeatureSpec, d: MappingDocument, cutoff: Option<Cutoff>, selected: seq<Row>,
                     predictionTime: int)
    : Result<Cell, FeatureError>
    requires ValidSpec(f) && !OnTarget(f)
  {
    match f.kind
    case RelatedCount =>
      if Given(f.filterField) && f.filterEquals.Some? then
        match ResolveColumn(d, f.filterField.value)
        case Err(e) => Err(e)
        case Ok(None) => Ok(Number(|selected| as real))
        case Ok(Some(column)) => Ok(Number(|Select(selected, [EqualTo(column, Text(f.filterEquals.value))])| as real))
      else Ok(Number(|selected| as real))
    case RelatedRatio =>
      (match ResolveColumn(d, f.filterField.value)
       case Err(e) => Err(e)
       case Ok(None) => Ok(Null)
       case Ok(Some(column)) =>
         if selected == [] then Ok(Null)
         else
           var matching := Select(selected, [EqualTo(column, Text(f.filterEquals.value))]);
           Ok(Number(|matching| as real / |selected| as real)))
    case RelatedRecencyDays =>
      (match cutoff
       case None => Err(NoTimestampColumn)
       case Some(c) =>
         match MaxInstant(selected, c.column)
         case None => Ok(Null)
         case Some(latest) => Ok(Number((predictionTime - latest) as real / MICROSECONDS_PER_DAY as real)))
    case RelatedLatestValue =>
      match ResolveColumn(d, f.valueField.value)
      case Err(e) => Err(e)
      case Ok(None) => Ok(Null)
      case Ok(Some(column)) =>
        var row := match cutoff
          case None => if selected == [] then None else Some(selected[0])
          case Some(c) => LatestRow(selected, c.column);
        Ok(if row.None? then Null else At(row.value, column))
  }

  /** The raw value of a related feature, given the related entity's table. */
  function RelatedValue(f: FeatureSpec, d: MappingDocument, joinValue: Cell, predictionTime: int,
                        schemaAllowlist: seq<string>, tableAllowlist: seq<string>,
                        rows: seq<Row>): Result<Cell, FeatureError>
    requires ValidSpec(f) && !OnTarget(f)
  {
    if !Allowed(d, schemaAllowlist, tableAllowlist) then Err(DisallowedObject)
    else
      match ResolveColumn(d, f.joinField.value)
      case Err(e) => Err(e)
      case Ok(None) => Ok(Null)
      case Ok(Some(joinColumn)) =>
        match CutoffOf(f, d, predictionTime)
        case Err(e) => Err(e)
        case Ok(cutoff) =>
          Aggregate(f, d, cutoff, Select(rows, [EqualTo(joinColumn, joinValue)] + Window(cutoff, predictionTime)),
                    predictionTime)
  }

  /** The query is compiled by adding one condition after the other, then run. */
  method CompileAndRunRelatedFeature(f: FeatureSpec, d: MappingDocument, joinValue: Cell, predictionTime: int,
                                     schemaAllowlist: seq<string>, tableAllowlist: seq<string>, rows: seq<Row>)
    returns (r: Result<Cell, FeatureError>)
    requires ValidSpec(f) && !OnTarget(f)
    ensures r == RelatedValue(f, d, joinValue, predictionTime, schemaAllowlist, tableAllowlist, rows)
  {
    if !Allowed(d, schemaAllowlist, tableAllowlist) {
      return Err(DisallowedObject);
    }
    var join := ResolveColumn(d, f.joinField.value);
    if join.Err? {
      return Err(join.error);
    }
    if join.value.None? {
      return Ok(Null);
    }
    var conditions := [EqualTo(join.value.value, joinValue)];
    var timestamp := if Given(f.timestampField) then ResolveColumn(d, f.timestampField.value) else Ok(None);
    if timestamp.Err? {
      return Err(timestamp.error);
    }
    var cutoff := None;
    if timestamp.value.Some? {
      var column := timestamp.value.value;
      conditions := conditions + [Before(column, predictionTime)];
      cutoff := Some(Cutoff(column, None));
      if f.windowDays.Some? {
        if f.windowDays.value > MAX_HISTORICAL_WINDOW_DAYS {
          return Err(WindowTooLong);
        }
        var windowStart := predictionTime - f.windowDays.value * MICROSECONDS_PER_DAY;
        conditions := conditions + [NotBefore(column, windowStart)];
        cutoff := Some(Cutoff(column, Some(windowStart)));
      }
    }
    assert conditions == [EqualTo(join.value.value, joinValue)] + Window(cutoff, predictionTime);
    var selected := Select(rows, conditions);
    r := Aggregate(f, d, cutoff, selected, predictionTime);
  }

  // ---- the target row ----------------------------------------------------------------------------------

  /** The single identity field and its column. */
  ghost function IdentityColumn(d: MappingDocument): Result<(string, string), FeatureError> {
    if |d.identity| != 1 then Err(NotDirectlyMapped)
    else if field :| field in d.identity then
      match ResolveColumn(d, field)
      case Ok(Some(column)) => Ok((field, column))
      case _ => Err(NotDirectlyMapped)
    else Err(NotDirectlyMapped)
  }

  predicate SomeFieldUnplain(d: MappingDocument, identityField: string, needed: set<string>) {
    exists field :: field in needed && field != identityField && ResolveColumn(d, field).Err?
  }

  predicate IsFetched(d: MappingDocument, identityField: string, needed: set<string>, field: string) {
    field == identityField || (field in needed && ResolveColumn(d, field).Ok? && ResolveColumn(d, field).value.Some?)
  }

  function ColumnFor(d: MappingDocument, identityField: string, identityColumn: string, field: string): string {
    if field == identityField then identityColumn
    else
      match ResolveColumn(d, field)
      case Ok(Some(column)) => column
      case _ => ""
  }

  /** The columns fetched from the target row: its identity and every needed field that is mapped. */
  function TargetColumns(d: MappingDocument, identityField: string, identityColumn: string,
                         needed: set<string>): map<string, string> {
    map field | field in needed + {identityField} && IsFetched(d, identityField, needed, field)
              :: ColumnFor(d, identityField, identityColumn, field)
  }

  function Project(row: Row, columns: map<string, string>): Row {
    map field | field in columns :: At(row, columns[field])
  }

  ghost function TargetRow(d: MappingDocument, reference: string, needed: set<string>,
                           schemaAllowlist: seq<string>, tableAllowlist: seq<string>,
                           rows: seq<Row>): Result<Option<Row>, FeatureError> {
    if !Allowed(d, schemaAllowlist, tableAllowlist) then Err(DisallowedObject)
    else
      match IdentityColumn(d)
      case Err(e) => Err(e)
      case Ok((identityField, identityColumn)) =>
        if SomeFieldUnplain(d, identityField, needed) then Err(NotDirectlyMapped)
        else
          var matching := Select(rows, [EqualTo(identityColumn, Text(reference))]);
          Ok(if matching == [] then None
             else Some(Project(matching[0], TargetColumns(d, identityField, identityColumn, needed))))
  }

  lemma SingleMember(s: set<string>, a: string, b: string)
    requires |s| == 1 && a in s && b in s
    ensures a == b
  {
    assert |s - {a}| == 0;
    assert b !in s - {a};
  }

  lemma OneMoreColumn(d: MappingDocument, identityField: string, identityColumn: string, needed: set<string>,
                      field: string)
    ensures SomeFieldUnplain(d, identityField, needed + {field})
            <==> SomeFieldUnplain(d, identityField, needed) || (field != identityField && ResolveColumn(d, field).Err?)
    ensures TargetColumns(d, identityField, identityColumn, needed + {field})
            == if IsFetched(d, identityField, {field}, field)
               then
                 var column := ColumnFor(d, identityField, identityColumn, field);
                 TargetColumns(d, identityField, identityColumn, needed)[field := column]
               else TargetColumns(d, identityField, identityColumn, needed)
  {
  }

  /** Resolves the needed fields one after the other. */
  method CollectColumns(d: MappingDocument, identityField: string, identityColumn: string, needed: set<string>)
    returns (r: Result<map<string, string>, FeatureError>)
    ensures r == if SomeFieldUnplain(d, identityField, needed) then Err(NotDirectlyMapped)
                 else Ok(TargetColumns(d, identityField, identityColumn, needed))
  {
    var columns := map[identityField := identityColumn];
    var todo := needed;
    while todo != {}
      invariant todo <= needed
      invariant !SomeFieldUnplain(d, identityField, needed - todo)
      invariant columns == TargetColumns(d, identityField, identityColumn, needed - todo)
    {
      var field :| field in todo;
      assert needed - (todo - {field}) == needed - todo + {field};
      OneMoreColumn(d, identityField, identityColumn, needed - todo, field);
      if field != identityField {
        var column := ResolveColumn(d, field);
        if column.Err? {
          assert field in needed;
          return Err(column.error);
        }
        if column.value.Some? {
          columns := columns[field := column.value.value];
        }
      }
      todo := todo - {field};
    }
    assert needed - todo == needed;
    r := Ok(columns);
  }

  method FetchTargetRow(d: MappingDocument, reference: string, needed: set<string>,
                        schemaAllowlist: seq<string>, tableAllowlist: seq<string>, rows: seq<Row>)
    returns (r: Result<Option<Row>, FeatureError>)
    ensures r == TargetRow(d, reference, needed, schemaAllowlist, tableAllowlist, rows)
  {
    if !Allowed(d, schemaAllowlist, tableAllowlist) {
      return Err(DisallowedObject);
    }
    if |d.identity| != 1 {
      return Err(NotDirectlyMapped);
    }
    assert d.identity.Keys != {};
    var identityField :| identityField in d.identity.Keys;
    forall other | other in d.identity.Keys
      ensures other == identityField
    {
      SingleMember(d.identity.Keys, identityField, other);
    }
    var identity := ResolveColumn(d, identityField);
    if identity.Err? || identity.value.None? {
      return Err(NotDirectlyMapped);
    }
    var identityColumn := identity.value.value;
    var columns := CollectColumns(d, identityField, identityColumn, needed);
    if columns.Err? {
      return Err(columns.error);
    }
    var matching := Select(rows, [EqualTo(identityColumn, Text(reference))]);
    r := Ok(if matching == [] then None else Some(Project(matching[0], columns.value)));
  }
}
