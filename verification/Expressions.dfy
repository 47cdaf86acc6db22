/** The expression language of derived mapping fields (mappings/expressions.py): its evaluation,
    the columns it mentions and the depth check that guards both. */
module Expressions {
  import opened Common

  datatype Scalar = Null | Text(text: string) | Integer(n: int) | Number(x: real) | Boolean(b: bool)

  datatype Expression =
    | ColumnRef(column: string)
    | Literal(value: Scalar)
    | Concat(parts: seq<Expression>, separator: string)
    | Coalesce(options: seq<Expression>)
    | UpperCase(operand: Expression)
    | LowerCase(operand: Expression)
    | Trim(operand: Expression)
    | IfNullThenElse(operand: Expression, ifNull: Expression)

  /** The host language's total string functions. */
  datatype TextOps = TextOps(render: Scalar -> string, upper: string -> string,
                             lower: string -> string, strip: string -> string)

  type Record = map<string, Scalar>

  datatype EvaluationError = UnknownColumn(column: string)

  const MAX_EXPRESSION_DEPTH := 20

  // ---- evaluation -----------------------------------------------------------------------------

  function OnText(v: Scalar, f: string -> string): Scalar {
    if v.Text? then Text(f(v.text)) else v
  }

  function Joined(ops: TextOps, values: seq<Scalar>, separator: string): string {
    if values == [] then ""
    else
      var first := if values[0].Null? then "" else ops.render(values[0]);
      if |values| == 1 then first else first + separator + Joined(ops, values[1..], separator)
  }

  function Evaluate(ops: TextOps, e: Expression, row: Record): Result<Scalar, EvaluationError>
    decreases e, 1
  {
    match e
    case ColumnRef(column) => if column in row then Ok(row[column]) else Err(UnknownColumn(column))
    case Literal(value) => Ok(value)
    case Concat(parts, separator) =>
      (match EvaluateAll(ops, parts, row)
       case Ok(values) => Ok(Text(Joined(ops, values, separator)))
       case Err(error) => Err(error))
    case Coalesce(options) => FirstNonNull(ops, options, row)
    case UpperCase(operand) => OnResult(Evaluate(ops, operand, row), ops.upper)
    case LowerCase(operand) => OnResult(Evaluate(ops, operand, row), ops.lower)
    case Trim(operand) => OnResult(Evaluate(ops, operand, row), ops.strip)
    case IfNullThenElse(operand, ifNull) =>
      var value := Evaluate(ops, operand, row);
      if value == Ok(Null) then Evaluate(ops, ifNull, row) else value
  }

  function OnResult(r: Result<Scalar, EvaluationError>, f: string -> string): Result<Scalar, EvaluationError> {
    match r
    case Ok(v) => Ok(OnText(v, f))
    case Err(error) => Err(error)
  }

  /** All parts, left to right; the first failing one decides the error. */
  function EvaluateAll(ops: TextOps, parts: seq<Expression>, row: Record): Result<seq<Scalar>, EvaluationError>
    decreases parts, 0
  {
    if parts == [] then Ok([])
    else
      match Evaluate(ops, parts[0], row)
      case Err(error) => Err(error)
      case Ok(first) =>
        match EvaluateAll(ops, parts[1..], row)
        case Err(error) => Err(error)
        case Ok(rest) => Ok([first] + rest)
  }

  /** Options are tried in order and only as far as the first non-null value. */
  function FirstNonNull(ops: TextOps, options: seq<Expression>, row: Record): Result<Scalar, EvaluationError>
    decreases options, 0
  {
    if options == [] then Ok(Null)
    else
      var value := Evaluate(ops, options[0], row);
      if value == Ok(Null) then FirstNonNull(ops, options[1..], row) else value
  }

  function ReferencedColumns(e: Expression): set<string>
    decreases e, 1
  {
    match e
    case ColumnRef(column) => {column}
    case Literal(_) => {}
    case Concat(parts, _) => ReferencedByAny(parts)
    case Coalesce(options) => ReferencedByAny(options)
    case UpperCase(operand) => ReferencedColumns(operand)
    case LowerCase(operand) => ReferencedColumns(operand)
    case Trim(operand) => ReferencedColumns(operand)
    case IfNullThenElse(operand, ifNull) => ReferencedColumns(operand) + ReferencedColumns(ifNull)
  }

  function ReferencedByAny(es: seq<Expression>): set<string>
    decreases es, 0
  {
    if es == [] then {} else ReferencedColumns(es[0]) + ReferencedByAny(es[1..])
  }

  /** Evaluation can only fail on a referenced column that the row lacks. */
  lemma {:induction false} EvaluationFailsOnlyOnMissingColumns(ops: TextOps, e: Expression, row: Record)
    ensures var r := Evaluate(ops, e, row);
            r.Err? ==> r.error.column in ReferencedColumns(e) && r.error.column !in row
    decreases e, 1
  {
    match e
    case ColumnRef(_) =>
    case Literal(_) =>
    case Concat(parts, _) => AllFailOnlyOnMissingColumns(ops, parts, row);
    case Coalesce(options) => AllFailOnlyOnMissingColumns(ops, options, row);
    case UpperCase(operand) => EvaluationFailsOnlyOnMissingColumns(ops, operand, row);
    case LowerCase(operand) => EvaluationFailsOnlyOnMissingColumns(ops, operand, row);
    case Trim(operand) => EvaluationFailsOnlyOnMissingColumns(ops, operand, row);
    case IfNullThenElse(operand, ifNull) =>
      EvaluationFailsOnlyOnMissingColumns(ops, operand, row);
      EvaluationFailsOnlyOnMissingColumns(ops, ifNull, row);
  }

  lemma {:induction false} AllFailOnlyOnMissingColumns(ops: TextOps, es: seq<Expression>, row: Record)
    ensures var r := EvaluateAll(ops, es, row);
            r.Err? ==> r.error.column in ReferencedByAny(es) && r.error.column !in row
    ensures var r := FirstNonNull(ops, es, row);
            r.Err? ==> r.error.column in ReferencedByAny(es) && r.error.column !in row
    decreases es, 0
  {
    if es == [] {
    } else {
      EvaluationFailsOnlyOnMissingColumns(ops, es[0], row);
      AllFailOnlyOnMissingColumns(ops, es[1..], row);
    }
  }

  /** Two rows agree on a set of columns: same presence, same values. */
  ghost predicate AgreeOn(row: Record, other: Record, columns: set<string>) {
    forall c :: c in columns ==> (c in row <==> c in other) && (c in row ==> row[c] == other[c])
  }

  /** The value (and the error, if any) depends only on the referenced columns. */
  lemma {:induction false} EvaluationDependsOnReferencedColumns(ops: TextOps, e: Expression, row: Record, other: Record)
    requires AgreeOn(row, other, ReferencedColumns(e))
    ensures Evaluate(ops, e, row) == Evaluate(ops, e, other)
    decreases e, 1
  {
    match e
    case ColumnRef(_) =>
    case Literal(_) =>
    case Concat(parts, _) => AllDependOnReferencedColumns(ops, parts, row, other);
    case Coalesce(options) => AllDependOnReferencedColumns(ops, options, row, other);
    case UpperCase(operand) => EvaluationDependsOnReferencedColumns(ops, operand, row, other);
    case LowerCase(operand) => EvaluationDependsOnReferencedColumns(ops, operand, row, other);
    case Trim(operand) => EvaluationDependsOnReferencedColumns(ops, operand, row, other);
    case IfNullThenElse(operand, ifNull) =>
      EvaluationDependsOnReferencedColumns(ops, operand, row, other);
      EvaluationDependsOnReferencedColumns(ops, ifNull, row, other);
  }

  lemma {:induction false} AllDependOnReferencedColumns(ops: TextOps, es: seq<Expression>, row: Record, other: Record)
    requires AgreeOn(row, other, ReferencedByAny(es))
    ensures EvaluateAll(ops, es, row) == EvaluateAll(ops, es, other)
    ensures FirstNonNull(ops, es, row) == FirstNonNull(ops, es, other)
    decreases es, 0
  {
    if es == [] {
    } else {
      EvaluationDependsOnReferencedColumns(ops, es[0], row, other);
      AllDependOnReferencedColumns(ops, es[1..], row, other);
    }
  }

  /** The conditional node is a two-way coalesce. */
  lemma IfNullIsBinaryCoalesce(ops: TextOps, a: Expression, b: Expression, row: Record)
    ensures Evaluate(ops, IfNullThenElse(a, b), row) == Evaluate(ops, Coalesce([a, b]), row)
  {
    var options := [a, b];
    assert options[1..] == [b] && [b][1..] == [];
    assert FirstNonNull(ops, [b], row) == Evaluate(ops, b, row);
  }

  /** A coalesce yields null exactly when every option does; otherwise the first other value (or
      failure) decides, and nothing after it is looked at. */
  lemma {:induction false} CoalesceTakesFirstNonNull(ops: TextOps, before: seq<Expression>, e: Expression,
                                                     after: seq<Expression>, row: Record)
    requires forall i :: 0 <= i < |before| ==> Evaluate(ops, before[i], row) == Ok(Null)
    requires Evaluate(ops, e, row) != Ok(Null)
    ensures Evaluate(ops, Coalesce(before + [e] + after), row) == Evaluate(ops, e, row)
  {
    var options := before + [e] + after;
    if before == [] {
      assert options[0] == e;
    } else {
      CoalesceTakesFirstNonNull(ops, before[1..], e, after, row);
      assert options[0] == before[0];
      assert options[1..] == before[1..] + [e] + after;
    }
  }

  /** Upper case, lower case and trimming each apply their own function to a text and leave any other value
      alone. */
  lemma TextFunctionsApply(ops: TextOps, e: Expression, row: Record)
    requires Evaluate(ops, e, row).Ok?
    ensures var v := Evaluate(ops, e, row).value;
            && Evaluate(ops, UpperCase(e), row) == Ok(if v.Text? then Text(ops.upper(v.text)) else v)
            && Evaluate(ops, LowerCase(e), row) == Ok(if v.Text? then Text(ops.lower(v.text)) else v)
            && Evaluate(ops, Trim(e), row) == Ok(if v.Text? then Text(ops.strip(v.text)) else v)
  {
  }

  function Rendered(ops: TextOps, v: Scalar): string {
    if v.Null? then "" else ops.render(v)
  }

  lemma {:induction false} JoinedAppends(ops: TextOps, values: seq<Scalar>, v: Scalar, separator: string)
    ensures Joined(ops, values + [v], separator)
            == (if values == [] then "" else Joined(ops, values, separator) + separator) + Rendered(ops, v)
    decreases |values|
  {
    if values != [] {
      assert (values + [v])[1..] == values[1..] + [v];
      JoinedAppends(ops, values[1..], v, separator);
      if |values| > 1 {
        var first, rest := Rendered(ops, values[0]), Joined(ops, values[1..], separator);
        assert first + separator + (rest + separator + Rendered(ops, v))
               == first + separator + rest + separator + Rendered(ops, v);
      }
    }
  }

  lemma {:induction false} EvaluateAllAppends(ops: TextOps, parts: seq<Expression>, e: Expression, row: Record)
    requires EvaluateAll(ops, parts, row).Ok? && Evaluate(ops, e, row).Ok?
    ensures EvaluateAll(ops, parts + [e], row)
            == Ok(EvaluateAll(ops, parts, row).value + [Evaluate(ops, e, row).value])
    ensures |EvaluateAll(ops, parts, row).value| == |parts|
    decreases |parts|
  {
    if parts == [] {
      assert parts + [e] == [e] && EvaluateAll(ops, [e][1..], row) == Ok([]);
      assert [Evaluate(ops, e, row).value] + [] == [] + [Evaluate(ops, e, row).value];
    } else {
      assert (parts + [e])[0] == parts[0] && (parts + [e])[1..] == parts[1..] + [e];
      assert Evaluate(ops, parts[0], row).Ok? && EvaluateAll(ops, parts[1..], row).Ok?;
      EvaluateAllAppends(ops, parts[1..], e, row);
      var first, rest := Evaluate(ops, parts[0], row).value, EvaluateAll(ops, parts[1..], row).value;
      assert [first] + (rest + [Evaluate(ops, e, row).value]) == [first] + rest + [Evaluate(ops, e, row).value];
    }
  }

  /** A concatenation puts the separator between neighbours, once, and writes nothing for a null. */
  lemma ConcatAppends(ops: TextOps, parts: seq<Expression>, e: Expression, separator: string, row: Record)
    requires Evaluate(ops, Concat(parts, separator), row).Ok? && Evaluate(ops, e, row).Ok?
    ensures Evaluate(ops, Concat([], separator), row) == Ok(Text(""))
    ensures Evaluate(ops, Concat(parts, separator), row).value.Text?
    ensures var before := Evaluate(ops, Concat(parts, separator), row).value.text;
            Evaluate(ops, Concat(parts + [e], separator), row)
            == Ok(Text((if parts == [] then "" else before + separator) + Rendered(ops, Evaluate(ops, e, row).value)))
  {
    EvaluateAllAppends(ops, parts, e, row);
    JoinedAppends(ops, EvaluateAll(ops, parts, row).value, Evaluate(ops, e, row).value, separator);
  }

  // ---- depth ------------------------------------------------------------------------------------

  function Max(a: nat, b: nat): nat {
    if a < b then b else a
  }

  function Height(e: Expression): (h: nat)
    decreases e, 1
  {
    match e
    case ColumnRef(_) => 1
    case Literal(_) => 1
    case Concat(parts, _) => 1 + GreatestHeight(parts)
    case Coalesce(options) => 1 + GreatestHeight(options)
    case UpperCase(operand) => 1 + Height(operand)
    case LowerCase(operand) => 1 + Height(operand)
    case Trim(operand) => 1 + Height(operand)
    case IfNullThenElse(operand, ifNull) => 1 + Max(Height(operand), Height(ifNull))
  }

  function GreatestHeight(es: seq<Expression>): nat
    decreases es, 0
  {
    if es == [] then 0 else Max(Height(es[0]), GreatestHeight(es[1..]))
  }

  /** The recursive check; `false` stands for ExpressionTooDeepError. */
  predicate DepthOk(e: Expression, depth: nat)
    decreases e, 1
  {
    if depth > MAX_EXPRESSION_DEPTH then false
    else
      match e
      case ColumnRef(_) => true
      case Literal(_) => true
      case Concat(parts, _) => AllDepthsOk(parts, depth + 1)
      case Coalesce(options) => AllDepthsOk(options, depth + 1)
      case UpperCase(operand) => DepthOk(operand, depth + 1)
      case LowerCase(operand) => DepthOk(operand, depth + 1)
      case Trim(operand) => DepthOk(operand, depth + 1)
      case IfNullThenElse(operand, ifNull) => DepthOk(operand, depth + 1) && DepthOk(ifNull, depth + 1)
  }

  predicate AllDepthsOk(es: seq<Expression>, depth: nat)
    decreases es, 0
  {
    es == [] || (DepthOk(es[0], depth) && AllDepthsOk(es[1..], depth))
  }

  lemma {:induction false} DepthCheckMeasuresHeight(e: Expression, depth: nat)
    requires depth >= 1
    ensures Height(e) >= 1
    ensures DepthOk(e, depth) <==> depth - 1 + Height(e) <= MAX_EXPRESSION_DEPTH
    decreases e, 1
  {
    match e
    case ColumnRef(_) =>
    case Literal(_) =>
    case Concat(parts, _) => DepthChecksMeasureHeights(parts, depth + 1);
    case Coalesce(options) => DepthChecksMeasureHeights(options, depth + 1);
    case UpperCase(operand) => DepthCheckMeasuresHeight(operand, depth + 1);
    case LowerCase(operand) => DepthCheckMeasuresHeight(operand, depth + 1);
    case Trim(operand) => DepthCheckMeasuresHeight(operand, depth + 1);
    case IfNullThenElse(operand, ifNull) =>
      DepthCheckMeasuresHeight(operand, depth + 1);
      DepthCheckMeasuresHeight(ifNull, depth + 1);
  }

  lemma {:induction false} DepthChecksMeasureHeights(es: seq<Expression>, depth: nat)
    requires depth >= 1
    ensures AllDepthsOk(es, depth) <==> es == [] || depth - 1 + GreatestHeight(es) <= MAX_EXPRESSION_DEPTH
    ensures es != [] ==> GreatestHeight(es) >= 1
    decreases es, 0
  {
    if es == [] {
    } else {
      DepthCheckMeasuresHeight(es[0], depth);
      DepthChecksMeasureHeights(es[1..], depth);
    }
  }

  /** The depth check accepts exactly the trees of height at most 20. */
  lemma DepthCheckIsExact(e: Expression)
    ensures DepthOk(e, 1) <==> Height(e) <= 20
  {
    DepthCheckMeasuresHeight(e, 1);
  }
}
