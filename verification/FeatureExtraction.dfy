/** Deriving, normalising and extracting features (features/derive.py, features/normalizer.py,
    features/service.py). */
module FeatureExtraction {
  import opened Common
  import opened Documents
  import opened FeatureContracts
  import opened FeatureQueries

  // ---- derive functions ------------------------------------------------------------------------

  function CoerceInstant(cell: Cell): Result<Option<int>, FeatureError> {
    match cell
    case Null => Ok(None)
    case Instant(t) => Ok(Some(t))
    case _ => Err(NotATimestamp)
  }

  function HourOfDay(t: int): (h: int)
    ensures 0 <= h < 24
  {
    t / 3_600_000_000 % 24
  }

  /** Monday is 0; the first of January 1970 was a Thursday. */
  function DayOfWeek(t: int): (d: int)
    ensures 0 <= d < 7
  {
    (t / MICROSECONDS_PER_DAY + 3) % 7
  }

  function AgeYears(t: int, predictionTime: int): real {
    ((predictionTime - t) / MICROSECONDS_PER_DAY) as real / 365.25
  }

  /** Zero unless the departure is known and lies strictly before the prediction. */
  function LoadingStartDelay(actual: Option<int>, planned: Option<int>, predictionTime: int): real {
    if actual.None? || planned.None? || actual.value >= predictionTime then 0.0
    else (actual.value - planned.value) as real / 60_000_000.0
  }

  function ApplyDerive(name: string, value: Cell, secondary: Cell, predictionTime: int): Result<Cell, FeatureError> {
    if name !in {"hour_of_day", "day_of_week", "age_years_at_prediction", "loading_start_delay_minutes"} then
      Err(UnknownDerive)
    else
      match (CoerceInstant(value), CoerceInstant(secondary))
      case (Err(e), _) => Err(e)
      case (_, Err(e)) => Err(e)
      case (Ok(t), Ok(u)) =>
        Ok(if name == "loading_start_delay_minutes" then Number(LoadingStartDelay(t, u, predictionTime))
           else if t.None? then Null
           else if name == "hour_of_day" then Number(HourOfDay(t.value) as real)
           else if name == "day_of_week" then Number(DayOfWeek(t.value) as real)
           else Number(AgeYears(t.value, predictionTime)))
  }

  // ---- normalising ---------------------------------------------------------------------------------

  datatype FeatureValue = Missing | Amount(x: real) | Flag(b: bool)

  /** The host language's conversions from text. */
  datatype TextConversions = TextConversions(toInteger: string -> Option<int>, toFloat: string -> Option<real>)

  function DeclaredMissing(f: FeatureSpec): FeatureValue {
    match f.missingValue
    case LeaveNull => Missing
    case UseZero => Amount(0.0)
    case UseConstant => if f.defaultValue.Some? then Amount(f.defaultValue.value) else Missing
  }

  /** Towards zero. */
  function Truncated(x: real): int {
    if x >= 0.0 then x.Floor else -((-x).Floor)
  }

  function Normalize(conversions: TextConversions, f: FeatureSpec, raw: Cell): Result<FeatureValue, FeatureError> {
    if raw.Null? then Ok(DeclaredMissing(f))
    else
      match f.dataType
      case BooleanType =>
        Ok(Flag(match raw case Text(s) => s != "" case Number(x) => x != 0.0 case Boolean(b) => b case _ => true))
      case IntegerType =>
        (match raw
         case Text(s) =>
           var n := conversions.toInteger(s); if n.None? then Err(NotANumber) else Ok(Amount(n.value as real))
         case Number(x) => Ok(Amount(Truncated(x) as real))
         case Boolean(b) => Ok(Amount(if b then 1.0 else 0.0))
         case _ => Err(NotANumber))
      case FloatType =>
        match raw
        case Text(s) => var x := conversions.toFloat(s); if x.None? then Err(NotANumber) else Ok(Amount(x.value))
        case Number(x) => Ok(Amount(x))
        case Boolean(b) => Ok(Amount(if b then 1.0 else 0.0))
        case _ => Err(NotANumber)
  }

  // ---- extraction -------------------------------------------------------------------------------------

  /** A mapping the resolver found usable, with the database connection behind its snapshot. */
  datatype ResolvedMapping = ResolvedMapping(versionId: Uuid, document: MappingDocument, connectionId: Uuid,
                                             schemaAllowlist: seq<string>, tableAllowlist: seq<string>)

  /** The customer databases: the rows of a qualified table behind a connection. */
  type Databases = (Uuid, string) -> seq<Row>

  /** Everything an extraction depends on besides the customer databases. */
  datatype Request = Request(contract: FeatureContract, target: Option<ResolvedMapping>,
                             related: map<string, Option<ResolvedMapping>>, reference: string, predictionTime: int,
                             conversions: TextConversions)

  datatype MissingReason = NoValue | NoActiveMapping(entity: string) | NoJoinValue

  datatype Batch = Batch(features: map<string, FeatureValue>, missing: seq<(string, MissingReason)>,
                         usedVersions: map<string, Uuid>)

  function RowsOf(db: Databases, m: ResolvedMapping): seq<Row> {
    db(m.connectionId, m.document.SourceTable())
  }

  /** The fields of the target row that some feature uses. */
  function FieldsUsedBy(f: FeatureSpec): set<string> {
    (if Given(f.targetField) then {f.targetField.value} else {})
    + (if Given(f.secondaryField) then {f.secondaryField.value} else {})
    + (if Given(f.joinField) then {f.joinField.value} else {})
  }

  function NeededFields(features: seq<FeatureSpec>): set<string> {
    if features == [] then {} else FieldsUsedBy(features[0]) + NeededFields(features[1..])
  }

  function RelatedMapping(q: Request, f: FeatureSpec): Option<ResolvedMapping> {
    if f.relatedEntity.Some? && f.relatedEntity.value in q.related then q.related[f.relatedEntity.value] else None
  }

  /** What one feature contributes: its value, why it is missing if it is reported so, and the mapping
      version it used. */
  datatype Extracted = Extracted(value: FeatureValue, missing: Option<MissingReason>, used: Option<Uuid>)

  function Finish(q: Request, f: FeatureSpec, raw: Cell, used: Option<Uuid>): Result<Extracted, FeatureError> {
    match Normalize(q.conversions, f, raw)
    case Err(e) => Err(e)
    case Ok(value) => Ok(Extracted(value, if raw.Null? && f.required then Some(NoValue) else None, used))
  }

  function ExtractFromTarget(q: Request, targetRow: Row, f: FeatureSpec): Result<Extracted, FeatureError>
    requires ValidSpec(f) && OnTarget(f)
  {
    var raw := At(targetRow, f.targetField.value);
    if f.kind.DirectField? then Finish(q, f, raw, None)
    else
      var secondary := if Given(f.secondaryField) then At(targetRow, f.secondaryField.value) else Null;
      match ApplyDerive(f.derive.value, raw, secondary, q.predictionTime)
      case Err(e) => Err(e)
      case Ok(derived) => Finish(q, f, derived, None)
  }

  function ExtractRelated(q: Request, db: Databases, targetRow: Row, f: FeatureSpec): Result<Extracted, FeatureError>
    requires ValidSpec(f) && !OnTarget(f)
  {
    match RelatedMapping(q, f)
    case None => Ok(Extracted(DeclaredMissing(f), Some(NoActiveMapping(f.relatedEntity.value)), None))
    case Some(m) =>
      var joinValue := At(targetRow, f.joinField.value);
      if joinValue.Null? then Ok(Extracted(DeclaredMissing(f), Some(NoJoinValue), Some(m.versionId)))
      else
        match RelatedValue(f, m.document, joinValue, q.predictionTime, m.schemaAllowlist, m.tableAllowlist,
                           RowsOf(db, m))
        case Err(e) => Err(e)
        case Ok(raw) =>
          if f.derive.None? then Finish(q, f, raw, Some(m.versionId))
          else
            match ApplyDerive(f.derive.value, raw, Null, q.predictionTime)
            case Err(e) => Err(e)
            case Ok(derived) => Finish(q, f, derived, Some(m.versionId))
  }

  function ExtractOne(q: Request, db: Databases, targetRow: Row, f: FeatureSpec): Result<Extracted, FeatureError>
    requires ValidSpec(f)
  {
    if OnTarget(f) then ExtractFromTarget(q, targetRow, f) else ExtractRelated(q, db, targetRow, f)
  }

  function Add(b: Batch, f: FeatureSpec, e: Extracted): Batch {
    Batch(b.features[f.name := e.value],
          if e.missing.Some? then b.missing + [(f.name, e.missing.value)] else b.missing,
          if e.used.Some? && f.relatedEntity.Some? then b.usedVersions[f.relatedEntity.value := e.used.value]
          else b.usedVersions)
  }

  /** The batch after the first `n` features of the contract. */
  function ExtractFirst(q: Request, db: Databases, targetRow: Row, n: nat): Result<Batch, FeatureError>
    requires ValidContract(q.contract) && n <= |q.contract.features|
  {
    if n == 0 then Ok(Batch(map[], [], map[]))
    else
      match ExtractFirst(q, db, targetRow, n - 1)
      case Err(e) => Err(e)
      case Ok(b) =>
        match ExtractOne(q, db, targetRow, q.contract.features[n - 1])
        case Err(e) => Err(e)
        case Ok(extracted) => Ok(Add(b, q.contract.features[n - 1], extracted))
  }

  ghost function TargetRowOf(q: Request, db: Databases): Result<Option<Row>, FeatureError>
    requires q.target.Some?
  {
    var t := q.target.value;
    TargetRow(t.document, q.reference, NeededFields(q.contract.features), t.schemaAllowlist, t.tableAllowlist,
              RowsOf(db, t))
  }

  ghost function Extraction(q: Request, db: Databases): Result<Batch, FeatureError>
    requires ValidContract(q.contract)
  {
    if q.target.None? then Err(TargetMappingUnavailable)
    else
      match TargetRowOf(q, db)
      case Err(e) => Err(e)
      case Ok(None) => Err(TargetRowNotFound)
      case Ok(Some(row)) => ExtractFirst(q, db, row, |q.contract.features|)
  }

  lemma {:induction false} ErrorsStay(q: Request, db: Databases, row: Row, n: nat, m: nat)
    requires ValidContract(q.contract) && n <= m <= |q.contract.features|
    requires ExtractFirst(q, db, row, n).Err?
    ensures ExtractFirst(q, db, row, m) == ExtractFirst(q, db, row, n)
  {
    if n < m {
      ErrorsStay(q, db, row, n, m - 1);
    }
  }

  method ExtractTargetFeature(q: Request, targetRow: Row, f: FeatureSpec) returns (r: Result<Extracted, FeatureError>)
    requires ValidSpec(f) && OnTarget(f)
    ensures r == ExtractFromTarget(q, targetRow, f)
  {
    var raw := At(targetRow, f.targetField.value);
    if f.kind.DerivedFromTarget? {
      var secondary := if Given(f.secondaryField) then At(targetRow, f.secondaryField.value) else Null;
      var derived := ApplyDerive(f.derive.value, raw, secondary, q.predictionTime);
      if derived.Err? {
        return Err(derived.error);
      }
      raw := derived.value;
    }
    var value := Normalize(q.conversions, f, raw);
    if value.Err? {
      return Err(value.error);
    }
    return Ok(Extracted(value.value, if raw.Null? && f.required then Some(NoValue) else None, None));
  }

  method ExtractRelatedFeature(q: Request, db: Databases, targetRow: Row,
                               f: FeatureSpec) returns (r: Result<Extracted, FeatureError>)
    requires ValidSpec(f) && !OnTarget(f)
    ensures r == ExtractRelated(q, db, targetRow, f)
  {
    var entity := f.relatedEntity.value;
    var related := if entity in q.related then q.related[entity] else None;
    if related.None? {
      return Ok(Extracted(DeclaredMissing(f), Some(NoActiveMapping(entity)), None));
    }
    var m := related.value;
    var joinValue := At(targetRow, f.joinField.value);
    if joinValue.Null? {
      return Ok(Extracted(DeclaredMissing(f), Some(NoJoinValue), Some(m.versionId)));
    }
    var found :=
      CompileAndRunRelatedFeature(f, m.document, joinValue, q.predictionTime, m.schemaAllowlist, m.tableAllowlist,
                                             RowsOf(db, m));
    if found.Err? {
      return Err(found.error);
    }
    var raw := found.value;
    if f.derive.Some? {
      var derived := ApplyDerive(f.derive.value, raw, Null, q.predictionTime);
      if derived.Err? {
        return Err(derived.error);
      }
      raw := derived.value;
    }
    var value := Normalize(q.conversions, f, raw);
    if value.Err? {
      return Err(value.error);
    }
    return Ok(Extracted(value.value, if raw.Null? && f.required then Some(NoValue) else None, Some(m.versionId)));
  }

  lemma OneMoreFeature(q: Request, db: Databases, row: Row, n: nat, before: Batch, one: Extracted, after: Batch)
    requires ValidContract(q.contract) && n < |q.contract.features|
    requires ExtractFirst(q, db, row, n) == Ok(before)
    requires ExtractOne(q, db, row, q.contract.features[n]) == Ok(one)
    requires after == Add(before, q.contract.features[n], one)
    ensures ExtractFirst(q, db, row, n + 1) == Ok(after)
  {
  }

  /** One loop over the contract fills the batch. */
  method ExtractFeatures(q: Request, db: Databases, targetRow: Row) returns (r: Result<Batch, FeatureError>)
    requires ValidContract(q.contract)
    ensures r == ExtractFirst(q, db, targetRow, |q.contract.features|)
  {
    var features: map<string, FeatureValue> := map[];
    var missing: seq<(string, MissingReason)> := [];
    var usedVersions: map<string, Uuid> := map[];
    for n := 0 to |q.contract.features|
      invariant ExtractFirst(q, db, targetRow, n) == Ok(Batch(features, missing, usedVersions))
    {
      var f := q.contract.features[n];
      var one;
      if OnTarget(f) {
        one := ExtractTargetFeature(q, targetRow, f);
      } else {
        one := ExtractRelatedFeature(q, db, targetRow, f);
      }
      if one.Err? {
        ErrorsStay(q, db, targetRow, n + 1, |q.contract.features|);
        return Err(one.error);
      }
      ghost var before := Batch(features, missing, usedVersions);
      features := features[f.name := one.value.value];
      if one.value.missing.Some? {
        missing := missing + [(f.name, one.value.missing.value)];
      }
      if one.value.used.Some? && f.relatedEntity.Some? {
        usedVersions := usedVersions[f.relatedEntity.value := one.value.used.value];
      }
      ghost var after := Batch(features, missing, usedVersions);
      OneMoreFeature(q, db, targetRow, n, before, one.value, after);
    }
    r := Ok(Batch(features, missing, usedVersions));
  }

  method Extract(q: Request, db: Databases) returns (r: Result<Batch, FeatureError>)
    requires ValidContract(q.contract)
    ensures r == Extraction(q, db)
  {
    if q.target.None? {
      return Err(TargetMappingUnavailable);
    }
    var target := q.target.value;
    var fetched := FetchTargetRow(target.document, q.reference, NeededFields(q.contract.features),
                                  target.schemaAllowlist, target.tableAllowlist, RowsOf(db, target));
    if fetched.Err? {
      return Err(fetched.error);
    }
    if fetched.value.None? {
      return Err(TargetRowNotFound);
    }
    r := ExtractFeatures(q, db, fetched.value.value);
  }
}
