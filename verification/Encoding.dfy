/** Encoding relational examples into fixed-shape tensors (models/transformer/encoding.py). All
    tensors of one batch are kept together, one entry per example and position. */
module Encoding {
  import opened Common
  import opened TransformerSchema
  import opened FeatureQueries
  import Derive = FeatureExtraction

  datatype Record = Record(entity: string, relationship: string, fields: map<string, Cell>)

  datatype Example = Example(target: Record, related: seq<Record>, outcome: Option<int>)

  datatype Moment = Moment(hour: real, weekday: real, years: real)

  const NO_MOMENT: Moment := Moment(0.0, 0.0, 0.0)

  /** Everything the nine tensors hold at one position of one example. */
  datatype Position = Position(numericValues: seq<real>, numericMask: seq<bool>,
                               categoricalIds: seq<nat>, categoricalMask: seq<bool>,
                               datetimeValues: seq<Moment>, datetimeMask: seq<bool>,
                               entityType: nat, relationship: nat, attended: bool)

  const PADDING: Position :=
    Position([0.0, 0.0], [false, false], [0, 0, 0, 0], [false, false, false, false],
             [NO_MOMENT, NO_MOMENT, NO_MOMENT, NO_MOMENT], [false, false, false, false], 0, 0, false)

  datatype EncodingError = UnknownEntity | UnknownRelationship | NotANumber

  /** The layout, the digest of a text (as a number), and the host language's renderings of values. */
  datatype Encoder = Encoder(layout: Layout, vocabSize: nat, digest: string -> nat,
                             render: Cell -> string, toFloat: Cell -> Option<real>)

  // ---- cells --------------------------------------------------------------------------------------

  /** Index 0 is reserved for missing and padding. */
  function HashCategorical(e: Encoder, text: string): (id: nat)
    requires e.vocabSize >= 2
    ensures 1 <= id < e.vocabSize
  {
    1 + e.digest(text) % (e.vocabSize - 1)
  }

  const EPOCH_DAY := 18262 // the first of January 2020

  function Clamp(x: real): (r: real)
    ensures 0.0 <= r <= 1.0
  {
    if x < 0.0 then 0.0 else if x > 1.0 then 1.0 else x
  }

  function EncodeDatetime(t: int): (m: Moment)
    ensures 0.0 <= m.hour < 1.0 && 0.0 <= m.weekday < 1.0 && 0.0 <= m.years <= 1.0
  {
    Moment(Derive.HourOfDay(t) as real / 24.0, Derive.DayOfWeek(t) as real / 7.0,
           Clamp((t / MICROSECONDS_PER_DAY - EPOCH_DAY) as real / 365.25 / 10.0))
  }

  function NumericCell(e: Encoder, r: Record, field: string): Option<real> {
    if At(r.fields, field).Null? then None else e.toFloat(At(r.fields, field))
  }

  function CategoricalCell(e: Encoder, r: Record, field: string): Option<nat>
    requires e.vocabSize >= 2
  {
    if At(r.fields, field).Null? then None else Some(HashCategorical(e, e.render(At(r.fields, field))))
  }

  function DatetimeCell(r: Record, field: string): Option<Moment> {
    if At(r.fields, field).Instant? then Some(EncodeDatetime(At(r.fields, field).t)) else None
  }

  // ---- one record -----------------------------------------------------------------------------------

  /** What an encoded record still tells: its entity, its relationship, and each field up to hashing
      and datetime features. */
  datatype View = View(entity: string, relationship: string, numeric: seq<Option<real>>,
                       categorical: seq<Option<nat>>, datetime: seq<Option<Moment>>)

  predicate Known(e: Encoder, r: Record) {
    r.entity in e.layout.schemas && r.entity in e.layout.entityVocab && r.relationship in e.layout.relationshipVocab
  }

  /** Every numeric field that is present is a number. */
  predicate Encodable(e: Encoder, r: Record) {
    && Known(e, r)
    && forall i :: 0 <= i < |e.layout.schemas[r.entity].numericFields| ==>
         IsNumeric(e, r, e.layout.schemas[r.entity].numericFields[i])
  }

  predicate IsNumeric(e: Encoder, r: Record, field: string) {
    At(r.fields, field).Null? || e.toFloat(At(r.fields, field)).Some?
  }

  /** Why a record cannot be written: an entity without a schema, a numeric field that is no number, a
      relationship outside the vocabulary, in this order. */
  ghost predicate IsProblem(e: Encoder, r: Record, error: EncodingError) {
    var known := r.entity in e.layout.schemas;
    var numeric := known && forall i :: 0 <= i < |e.layout.schemas[r.entity].numericFields| ==>
                     IsNumeric(e, r, e.layout.schemas[r.entity].numericFields[i]);
    match error
    case UnknownEntity => !known
    case NotANumber => known && !numeric
    case UnknownRelationship => numeric && r.relationship !in e.layout.relationshipVocab
  }

  function ViewOf(e: Encoder, r: Record): View
    requires Known(e, r) && e.vocabSize >= 2
  {
    var schema := e.layout.schemas[r.entity];
    View(r.entity, r.relationship, Map(schema.numericFields, f => NumericCell(e, r, f)),
         Map(schema.categoricalFields, f => CategoricalCell(e, r, f)),
         Map(schema.datetimeFields, f => DatetimeCell(r, f)))
  }

  /** A position holds a view: slot by slot the masks say what is present, absent slots are zero, and
      the slots beyond the entity's fields are unused. */
  ghost predicate Holds(l: Layout, p: Position, v: View) {
    && HoldsSlots(p.numericValues, p.numericMask, v.numeric, NUMERIC_SLOTS, 0.0)
    && HoldsSlots(p.categoricalIds, p.categoricalMask, v.categorical, CATEGORICAL_SLOTS, 0)
    && HoldsSlots(p.datetimeValues, p.datetimeMask, v.datetime, DATETIME_SLOTS, NO_MOMENT)
    && IndexOf(l.entityVocab, v.entity) == Some(p.entityType)
    && IndexOf(l.relationshipVocab, v.relationship) == Some(p.relationship)
    && p.attended
  }

  ghost predicate HoldsSlots<T>(values: seq<T>, mask: seq<bool>, cells: seq<Option<T>>, slots: nat, zero: T) {
    && |values| == |mask| == slots && |cells| <= slots
    && (forall i :: 0 <= i < |cells| ==>
          mask[i] == cells[i].Some? && values[i] == if cells[i].Some? then cells[i].value else zero)
    && (forall i :: |cells| <= i < slots ==> !mask[i] && values[i] == zero)
  }

  /** A position holding a view is determined by it. */
  lemma HoldsIsExact(l: Layout, p: Position, p': Position, v: View)
    requires Holds(l, p, v) && Holds(l, p', v)
    ensures p == p'
  {
    assert p.numericValues == p'.numericValues && p.numericMask == p'.numericMask;
    assert p.categoricalIds == p'.categoricalIds && p.categoricalMask == p'.categoricalMask;
    assert p.datetimeValues == p'.datetimeValues && p.datetimeMask == p'.datetimeMask;
  }

  // ---- reading a position back --------------------------------------------------------------------------

  function ReadSlots<T>(values: seq<T>, mask: seq<bool>, n: nat): seq<Option<T>>
    requires n <= |values| && n <= |mask|
  {
    seq(n, i requires 0 <= i < n => if mask[i] then Some(values[i]) else None)
  }

  /** The view a position shows, found from the tensors alone. */
  function Read(l: Layout, p: Position): Option<View> {
    if !p.attended || p.entityType >= |l.entityVocab| || p.relationship >= |l.relationshipVocab| then None
    else
      var entity := l.entityVocab[p.entityType];
      if entity !in l.schemas then None
      else
        var schema := l.schemas[entity];
        var n, c, d := |schema.numericFields|, |schema.categoricalFields|, |schema.datetimeFields|;
        if n > |p.numericValues| || n > |p.numericMask| || c > |p.categoricalIds| || c > |p.categoricalMask|
           || d > |p.datetimeValues| || d > |p.datetimeMask| then None
        else Some(View(entity, l.relationshipVocab[p.relationship], ReadSlots(p.numericValues, p.numericMask, n),
                       ReadSlots(p.categoricalIds, p.categoricalMask, c),
                       ReadSlots(p.datetimeValues, p.datetimeMask, d)))
  }

  lemma ReadSlotsOfHeld<T>(values: seq<T>, mask: seq<bool>, cells: seq<Option<T>>, slots: nat, zero: T)
    requires HoldsSlots(values, mask, cells, slots, zero)
    ensures ReadSlots(values, mask, |cells|) == cells
  {
  }

  /** Reading an encoded record back gives its view. */
  lemma ReadBack(e: Encoder, p: Position, r: Record)
    requires e.vocabSize >= 2 && Known(e, r) && Holds(e.layout, p, ViewOf(e, r))
    ensures Read(e.layout, p) == Some(ViewOf(e, r))
  {
    var v := ViewOf(e, r);
    ReadSlotsOfHeld(p.numericValues, p.numericMask, v.numeric, NUMERIC_SLOTS, 0.0);
    ReadSlotsOfHeld(p.categoricalIds, p.categoricalMask, v.categorical, CATEGORICAL_SLOTS, 0);
    ReadSlotsOfHeld(p.datetimeValues, p.datetimeMask, v.datetime, DATETIME_SLOTS, NO_MOMENT);
  }

  // ---- the block layout -----------------------------------------------------------------------------------

  /** Where slot `j` of relation block `i` lies, for blocks of `k` slots. */
  function PositionOf(k: nat, i: nat, j: nat): nat {
    1 + i * k + j
  }

  function BlockStart(k: nat, i: nat): nat {
    1 + i * k
  }

  function SequenceLength(l: Layout, k: nat): nat {
    1 + |RelationOrder(l)| * k
  }

  lemma BlocksAreOrdered(k: nat, i: nat, i': nat)
    requires i < i'
    ensures i * k + k <= i' * k
  {
    assert i' * k == (i + 1) * k + (i' - i - 1) * k;
  }

  lemma PositionInBounds(l: Layout, k: nat, i: nat, j: nat)
    requires i < |RelationOrder(l)| && j < k
    ensures 0 < PositionOf(k, i, j) < SequenceLength(l, k)
  {
    BlocksAreOrdered(k, i, |RelationOrder(l)|);
  }

  /** No two slots share a position. */
  lemma PositionsDoNotCollide(k: nat, i: nat, j: nat, i': nat, j': nat)
    requires j < k && j' < k
    ensures PositionOf(k, i, j) == PositionOf(k, i', j') <==> i == i' && j == j'
  {
    if i < i' {
      BlocksAreOrdered(k, i, i');
    } else if i' < i {
      BlocksAreOrdered(k, i', i);
    }
  }

  /** Every position but the first is a slot. */
  lemma EveryPositionIsASlot(k: nat, n: nat, s: nat) returns (i: nat, j: nat)
    requires 0 < s < 1 + n * k
    ensures i < n && j < k && PositionOf(k, i, j) == s
  {
    i, j := (s - 1) / k, (s - 1) % k;
    assert i * k + j == s - 1;
    if i >= n {
      ProductMonotone(n, i, k);
    }
  }

  lemma ProductMonotone(n: nat, i: nat, k: nat)
    requires n <= i
    ensures n * k <= i * k
  {
    assert i * k == n * k + (i - n) * k;
  }

  // ---- what a row is -------------------------------------------------------------------------------------------

  function OfRelation(relation: string): Record -> bool {
    (r: Record) => r.relationship == relation
  }

  function RelatedOf(ex: Example, relation: string): seq<Record> {
    Filter(ex.related, OfRelation(relation))
  }

  /** The records of a relation that get a slot. */
  function Placed(ex: Example, relation: string, k: nat): seq<Record> {
    RelatedOf(ex, relation)[..Min(k, |RelatedOf(ex, relation)|)]
  }

  ghost predicate HoldsRecord(e: Encoder, p: Position, r: Record)
    requires e.vocabSize >= 2
  {
    Encodable(e, r) && Holds(e.layout, p, ViewOf(e, r))
  }

  ghost predicate SlotIs(e: Encoder, p: Position, placed: seq<Record>, j: nat)
    requires e.vocabSize >= 2
  {
    if j < |placed| then HoldsRecord(e, p, placed[j]) else p == PADDING
  }

  ghost predicate SlotWritten(e: Encoder, k: nat, ex: Example, row: seq<Position>, i: nat, j: nat)
    requires e.vocabSize >= 2 && i < |RelationOrder(e.layout)|
  {
    PositionOf(k, i, j) < |row| && SlotIs(e, row[PositionOf(k, i, j)], Placed(ex, RelationOrder(e.layout)[i], k), j)
  }

  /** The row of an example: its target first, then per relation the first `k` records in order, and
      padding after them. */
  ghost predicate IsRow(e: Encoder, k: nat, ex: Example, row: seq<Position>)
    requires e.vocabSize >= 2
  {
    && |row| == SequenceLength(e.layout, k)
    && HoldsRecord(e, row[0], ex.target)
    && forall i, j :: 0 <= i < |RelationOrder(e.layout)| && 0 <= j < k ==> SlotWritten(e, k, ex, row, i, j)
  }

  /** When an example can be encoded at all: records beyond a relation's slots are never looked at. */
  ghost predicate ExampleEncodable(e: Encoder, k: nat, ex: Example) {
    && Encodable(e, ex.target)
    && (forall r :: r in ex.related ==> r.relationship in RelationOrder(e.layout))
    && (forall relation :: relation in RelationOrder(e.layout) ==> AllEncodable(e, Placed(ex, relation, k)))
  }

  ghost predicate AllEncodable(e: Encoder, records: seq<Record>) {
    forall r :: r in records ==> Encodable(e, r)
  }

  // ---- writing -----------------------------------------------------------------------------------------------------

  ghost predicate InGrid(grid: array2<Position>, b: nat, s: nat) {
    b < grid.Length0 && s < grid.Length1
  }

  twostate predicate OnlyChangedAt(grid: array2<Position>, b: nat, s: nat)
    reads grid
  {
    forall i, j :: 0 <= i < grid.Length0 && 0 <= j < grid.Length1 && (i != b || j != s) ==>
      grid[i, j] == old(grid[i, j])
  }

  method WriteNumeric(e: Encoder, r: Record, fields: seq<string>, grid: array2<Position>, b: nat,
                      s: nat) returns (ok: bool)
    requires InGrid(grid, b, s) && |fields| <= NUMERIC_SLOTS
    requires grid[b, s].numericValues == PADDING.numericValues && grid[b, s].numericMask == PADDING.numericMask
    modifies grid
    ensures OnlyChangedAt(grid, b, s)
    ensures grid[b, s]
            == old(grid[b, s]).(numericValues := grid[b, s].numericValues, numericMask := grid[b, s].numericMask)
    ensures ok <==> forall i :: 0 <= i < |fields| ==> IsNumeric(e, r, fields[i])
    ensures ok ==> HoldsSlots(grid[b, s].numericValues, grid[b, s].numericMask, Map(fields, f => NumericCell(e, r, f)),
                              NUMERIC_SLOTS, 0.0)
  {
    ghost var cells := Map(fields, f => NumericCell(e, r, f));
    for slot := 0 to |fields|
      invariant OnlyChangedAt(grid, b, s)
      invariant grid[b, s]
                == old(grid[b, s]).(numericValues := grid[b, s].numericValues, numericMask := grid[b, s].numericMask)
      invariant forall i :: 0 <= i < slot ==> IsNumeric(e, r, fields[i])
      invariant HoldsSlots(grid[b, s].numericValues, grid[b, s].numericMask, cells[..slot], NUMERIC_SLOTS, 0.0)
    {
      var value := At(r.fields, fields[slot]);
      if !value.Null? {
        var x := e.toFloat(value);
        if x.None? {
          assert !IsNumeric(e, r, fields[slot]);
          return false;
        }
        var p := grid[b, s];
        grid[b, s] := p.(numericValues := p.numericValues[slot := x.value], numericMask := p.numericMask[slot := true]);
      }
    }
    assert cells[..|fields|] == cells;
    return true;
  }

  method WriteCategorical(e: Encoder, r: Record, fields: seq<string>, grid: array2<Position>, b: nat, s: nat)
    requires e.vocabSize >= 2 && InGrid(grid, b, s) && |fields| <= CATEGORICAL_SLOTS
    requires grid[b, s].categoricalIds == PADDING.categoricalIds
             && grid[b, s].categoricalMask == PADDING.categoricalMask
    modifies grid
    ensures OnlyChangedAt(grid, b, s)
    ensures grid[b, s] == old(grid[b, s]).(categoricalIds := grid[b, s].categoricalIds,
                                           categoricalMask := grid[b, s].categoricalMask)
    ensures HoldsSlots(grid[b, s].categoricalIds, grid[b, s].categoricalMask,
                       Map(fields, f => CategoricalCell(e, r, f)), CATEGORICAL_SLOTS, 0)
  {
    ghost var cells := Map(fields, f => CategoricalCell(e, r, f));
    for slot := 0 to |fields|
      invariant OnlyChangedAt(grid, b, s)
      invariant grid[b, s] == old(grid[b, s]).(categoricalIds := grid[b, s].categoricalIds,
                                               categoricalMask := grid[b, s].categoricalMask)
      invariant HoldsSlots(grid[b, s].categoricalIds, grid[b, s].categoricalMask, cells[..slot], CATEGORICAL_SLOTS, 0)
    {
      var value := At(r.fields, fields[slot]);
      if !value.Null? {
        var p := grid[b, s];
        var id := HashCategorical(e, e.render(value));
        grid[b, s] :=
          p.(categoricalIds := p.categoricalIds[slot := id], categoricalMask := p.categoricalMask[slot := true]);
      }
    }
    assert cells[..|fields|] == cells;
  }

  method WriteDatetimes(r: Record, fields: seq<string>, grid: array2<Position>, b: nat, s: nat)
    requires InGrid(grid, b, s) && |fields| <= DATETIME_SLOTS
    requires grid[b, s].datetimeValues == PADDING.datetimeValues && grid[b, s].datetimeMask == PADDING.datetimeMask
    modifies grid
    ensures OnlyChangedAt(grid, b, s)
    ensures grid[b, s]
            == old(grid[b, s]).(datetimeValues := grid[b, s].datetimeValues, datetimeMask := grid[b, s].datetimeMask)
    ensures HoldsSlots(grid[b, s].datetimeValues, grid[b, s].datetimeMask, Map(fields, f => DatetimeCell(r, f)),
                       DATETIME_SLOTS, NO_MOMENT)
  {
    ghost var cells := Map(fields, f => DatetimeCell(r, f));
    for slot := 0 to |fields|
      invariant OnlyChangedAt(grid, b, s)
      invariant grid[b, s] == old(grid[b, s]).(datetimeValues := grid[b, s].datetimeValues,
                                               datetimeMask := grid[b, s].datetimeMask)
      invariant HoldsSlots(grid[b, s].datetimeValues, grid[b, s].datetimeMask, cells[..slot], DATETIME_SLOTS, NO_MOMENT)
    {
      var value := At(r.fields, fields[slot]);
      if value.Instant? {
        var p := grid[b, s];
        grid[b, s] := p.(datetimeValues := p.datetimeValues[slot := EncodeDatetime(value.t)],
                         datetimeMask := p.datetimeMask[slot := true]);
      }
    }
    assert cells[..|fields|] == cells;
  }

  function RowOf<T>(grid: array2<T>, b: nat): (row: seq<T>)
    requires b < grid.Length0
    reads grid
    ensures |row| == grid.Length1 && forall s :: 0 <= s < |row| ==> row[s] == grid[b, s]
  {
    seq(grid.Length1, s requires 0 <= s < grid.Length1 reads grid => grid[b, s])
  }

  twostate predicate OtherRowsKept<T>(grid: array2<T>, b: nat)
    reads grid
  {
    forall i :: 0 <= i < grid.Length0 && i != b ==> RowOf(grid, i) == old(RowOf(grid, i))
  }

  function PaddingRow(n: nat): seq<Position> {
    seq(n, _ => PADDING)
  }

  method WriteRecord(e: Encoder, r: Record, grid: array2<Position>, b: nat,
                     s: nat) returns (error: Option<EncodingError>)
    requires ValidLayout(e.layout) && e.vocabSize >= 2 && InGrid(grid, b, s) && grid[b, s] == PADDING
    modifies grid
    ensures OtherRowsKept(grid, b) && RowOf(grid, b) == old(RowOf(grid, b))[s := grid[b, s]]
    ensures error.None? <==> Encodable(e, r)
    ensures error.Some? ==> IsProblem(e, r, error.value)
    ensures error.None? ==> HoldsRecord(e, grid[b, s], r)
  {
    if r.entity !in e.layout.schemas {
      return Some(UnknownEntity);
    }
    var schema := e.layout.schemas[r.entity];
    var ok := WriteNumeric(e, r, schema.numericFields, grid, b, s);
    if !ok {
      return Some(EncodingError.NotANumber);
    }
    WriteCategorical(e, r, schema.categoricalFields, grid, b, s);
    WriteDatetimes(r, schema.datetimeFields, grid, b, s);
    var entityType := IndexOf(e.layout.entityVocab, r.entity);
    var relationship := IndexOf(e.layout.relationshipVocab, r.relationship);
    if relationship.None? {
      return Some(UnknownRelationship);
    }
    grid[b, s] := grid[b, s].(entityType := entityType.value, relationship := relationship.value, attended := true);
    return None;
  }

  // ---- one example ------------------------------------------------------------------------------

  lemma {:induction false} FilterAppend(records: seq<Record>, r: Record, keep: Record -> bool)
    ensures Filter(records + [r], keep) == Filter(records, keep) + if keep(r) then [r] else []
  {
    if records == [] {
      assert records + [r] == [r];
    } else {
      assert (records + [r])[1..] == records[1..] + [r];
      FilterAppend(records[1..], r, keep);
    }
  }

  /** The related records by relationship, each group in the given order. */
  method GroupByRelation(order: seq<string>, related: seq<Record>) returns (groups: Option<map<string, seq<Record>>>)
    ensures groups.Some? <==> forall r :: r in related ==> r.relationship in order
    ensures groups.Some? ==> forall relation :: relation in order ==>
              relation in groups.value && groups.value[relation] == Filter(related, OfRelation(relation))
  {
    var byRelation: map<string, seq<Record>> := map relation | relation in order :: [];
    for n := 0 to |related|
      invariant byRelation.Keys == set relation | relation in order
      invariant forall r :: r in related[..n] ==> r.relationship in order
      invariant forall relation :: relation in order ==>
                  byRelation[relation] == Filter(related[..n], OfRelation(relation))
    {
      var r := related[n];
      assert related[..n + 1] == related[..n] + [r];
      if r.relationship !in byRelation {
        return None;
      }
      forall relation | relation in order
        ensures Filter(related[..n + 1], OfRelation(relation))
                == byRelation[relation] + if relation == r.relationship then [r] else []
      {
        FilterAppend(related[..n], r, OfRelation(relation));
      }
      byRelation := byRelation[r.relationship := byRelation[r.relationship] + [r]];
    }
    assert related[..|related|] == related;
    return Some(byRelation);
  }

  /** `row'` is `row` with the records at `start` and after. */
  ghost predicate BlockAdded(e: Encoder, row: seq<Position>, row': seq<Position>, start: nat, placed: seq<Record>)
    requires e.vocabSize >= 2
  {
    && |row'| == |row| && start + |placed| <= |row|
    && (forall s :: 0 <= s < |row| && !(start <= s < start + |placed|) ==> row'[s] == row[s])
    && (forall j :: 0 <= j < |placed| ==> HoldsRecord(e, row'[start + j], placed[j]))
  }

  lemma OneMore(e: Encoder, row: seq<Position>, row': seq<Position>, p: Position, start: nat, records: seq<Record>,
                n: nat)
    requires e.vocabSize >= 2 && n < |records| && BlockAdded(e, row, row', start, records[..n])
    requires start + n < |row| && HoldsRecord(e, p, records[n])
    ensures BlockAdded(e, row, row'[start + n := p], start, records[..n + 1])
  {
  }

  /** Writes records to consecutive positions. */
  method WriteBlock(e: Encoder, records: seq<Record>, grid: array2<Position>, b: nat,
                    start: nat) returns (error: Option<EncodingError>)
    requires ValidLayout(e.layout) && e.vocabSize >= 2 && b < grid.Length0 && start + |records| <= grid.Length1
    requires forall s :: start <= s < start + |records| ==> RowOf(grid, b)[s] == PADDING
    modifies grid
    ensures OtherRowsKept(grid, b)
    ensures error.None? <==> AllEncodable(e, records)
    ensures error.None? ==> BlockAdded(e, old(RowOf(grid, b)), RowOf(grid, b), start, records)
  {
    for slot := 0 to |records|
      invariant OtherRowsKept(grid, b)
      invariant BlockAdded(e, old(RowOf(grid, b)), RowOf(grid, b), start, records[..slot])
    {
      ghost var before := RowOf(grid, b);
      assert before[start + slot] == PADDING;
      error := WriteRecord(e, records[slot], grid, b, start + slot);
      if error.Some? {
        assert records[slot] in records;
        return;
      }
      OneMore(e, old(RowOf(grid, b)), before, grid[b, start + slot], start, records, slot);
    }
    assert records[..|records|] == records;
    return None;
  }

  /** The blocks of the first `n` relations are written, and nothing lies after them. */
  ghost predicate BlocksWritten(e: Encoder, k: nat, ex: Example, row: seq<Position>, n: nat)
    requires e.vocabSize >= 2 && n <= |RelationOrder(e.layout)|
  {
    && (forall i, j :: 0 <= i < n && 0 <= j < k ==> SlotWritten(e, k, ex, row, i, j))
    && (forall s :: BlockStart(k, n) <= s < |row| ==> row[s] == PADDING)
  }

  /** Writing block `n` after the first `n` blocks. */
  lemma NextBlock(e: Encoder, k: nat, ex: Example, row: seq<Position>, row': seq<Position>, n: nat)
    requires e.vocabSize >= 2 && n < |RelationOrder(e.layout)| && BlocksWritten(e, k, ex, row, n)
    requires |row| == SequenceLength(e.layout, k)
    requires BlockAdded(e, row, row', BlockStart(k, n), Placed(ex, RelationOrder(e.layout)[n], k))
    ensures BlocksWritten(e, k, ex, row', n + 1)
  {
    forall i, j | 0 <= i < n + 1 && 0 <= j < k
      ensures SlotWritten(e, k, ex, row', i, j)
    {
      if i < n {
        assert SlotWritten(e, k, ex, row, i, j);
        EarlierSlotKept(e, k, ex, row, row', n, i, j);
      } else {
        PositionInBounds(e.layout, k, n, j);
        AddedSlot(e, k, row, row', n, j, Placed(ex, RelationOrder(e.layout)[n], k));
      }
    }
    RestStaysPadding(e, k, row, row', n, Placed(ex, RelationOrder(e.layout)[n], k));
  }

  lemma RestStaysPadding(e: Encoder, k: nat, row: seq<Position>, row': seq<Position>, n: nat, placed: seq<Record>)
    requires e.vocabSize >= 2 && |placed| <= k && BlockAdded(e, row, row', BlockStart(k, n), placed)
    requires forall s :: BlockStart(k, n) <= s < |row| ==> row[s] == PADDING
    ensures forall s :: BlockStart(k, n + 1) <= s < |row'| ==> row'[s] == PADDING
  {
    assert (n + 1) * k == n * k + k;
  }

  lemma EarlierSlotKept(e: Encoder, k: nat, ex: Example, row: seq<Position>, row': seq<Position>, n: nat, i: nat,
                        j: nat)
    requires e.vocabSize >= 2 && i < n < |RelationOrder(e.layout)| && j < k && |row'| == |row|
    requires SlotWritten(e, k, ex, row, i, j)
    requires BlockAdded(e, row, row', BlockStart(k, n), Placed(ex, RelationOrder(e.layout)[n], k))
    ensures SlotWritten(e, k, ex, row', i, j)
  {
    BlocksAreOrdered(k, i, n);
    assert row'[PositionOf(k, i, j)] == row[PositionOf(k, i, j)];
  }

  lemma AddedSlot(e: Encoder, k: nat, row: seq<Position>, row': seq<Position>, n: nat, j: nat, placed: seq<Record>)
    requires e.vocabSize >= 2 && |row'| == |row| && BlockAdded(e, row, row', BlockStart(k, n), placed)
    requires PositionOf(k, n, j) < |row| && (forall s :: BlockStart(k, n) <= s < |row| ==> row[s] == PADDING)
    ensures SlotIs(e, row'[PositionOf(k, n, j)], placed, j)
  {
    assert PositionOf(k, n, j) == BlockStart(k, n) + j;
  }

  lemma RoomForBlock(e: Encoder, k: nat, ex: Example, row: seq<Position>, i: nat, n: nat)
    requires e.vocabSize >= 2 && i < |RelationOrder(e.layout)| && n <= k
    requires |row| == SequenceLength(e.layout, k) && BlocksWritten(e, k, ex, row, i)
    ensures BlockStart(k, i) + n <= |row|
    ensures forall s :: BlockStart(k, i) <= s < BlockStart(k, i) + n ==> row[s] == PADDING
  {
    BlocksAreOrdered(k, i, |RelationOrder(e.layout)|);
  }

  /** Writes block `i` after the first `i` blocks. */
  method WriteRelation(e: Encoder, k: nat, ex: Example, group: seq<Record>, grid: array2<Position>, b: nat, i: nat)
    returns (error: Option<EncodingError>)
    requires ValidLayout(e.layout) && e.vocabSize >= 2 && b < grid.Length0
             && grid.Length1 == SequenceLength(e.layout, k)
    requires i < |RelationOrder(e.layout)| && group == RelatedOf(ex, RelationOrder(e.layout)[i])
    requires BlocksWritten(e, k, ex, RowOf(grid, b), i)
    modifies grid
    ensures OtherRowsKept(grid, b)
    ensures error.None? ==> RowOf(grid, b)[0] == old(RowOf(grid, b)[0])
    ensures error.None? <==> AllEncodable(e, Placed(ex, RelationOrder(e.layout)[i], k))
    ensures error.None? ==> BlocksWritten(e, k, ex, RowOf(grid, b), i + 1)
  {
    ghost var before := RowOf(grid, b);
    var blockStart := BlockStart(k, i);
    var records := group[..Min(k, |group|)];
    RoomForBlock(e, k, ex, before, i, |records|);
    error := WriteBlock(e, records, grid, b, blockStart);
    if error.None? {
      NextBlock(e, k, ex, before, RowOf(grid, b), i);
    }
  }

  /** One block after the other. */
  method WriteRelations(e: Encoder, k: nat, ex: Example, groups: map<string, seq<Record>>, grid: array2<Position>,
                        b: nat)
    returns (error: Option<EncodingError>)
    requires ValidLayout(e.layout) && e.vocabSize >= 2 && b < grid.Length0
             && grid.Length1 == SequenceLength(e.layout, k)
    requires forall relation :: relation in RelationOrder(e.layout) ==>
               relation in groups && groups[relation] == RelatedOf(ex, relation)
    requires BlocksWritten(e, k, ex, RowOf(grid, b), 0)
    modifies grid
    ensures OtherRowsKept(grid, b)
    ensures error.None? ==> RowOf(grid, b)[0] == old(RowOf(grid, b)[0])
    ensures error.None? <==>
              forall relation :: relation in RelationOrder(e.layout) ==> AllEncodable(e, Placed(ex, relation, k))
    ensures error.None? ==> BlocksWritten(e, k, ex, RowOf(grid, b), |RelationOrder(e.layout)|)
  {
    var order := RelationOrder(e.layout);
    for i := 0 to |order|
      invariant OtherRowsKept(grid, b) && RowOf(grid, b)[0] == old(RowOf(grid, b)[0])
      invariant BlocksWritten(e, k, ex, RowOf(grid, b), i)
      invariant forall n :: 0 <= n < i ==> AllEncodable(e, Placed(ex, order[n], k))
    {
      error := WriteRelation(e, k, ex, groups[order[i]], grid, b, i);
      if error.Some? {
        assert order[i] in order;
        return;
      }
    }
    return None;
  }

  method EncodeExample(e: Encoder, k: nat, ex: Example, grid: array2<Position>,
                       b: nat) returns (error: Option<EncodingError>)
    requires ValidLayout(e.layout) && e.vocabSize >= 2 && b < grid.Length0
             && grid.Length1 == SequenceLength(e.layout, k)
    requires RowOf(grid, b) == PaddingRow(grid.Length1)
    modifies grid
    ensures OtherRowsKept(grid, b)
    ensures error.None? <==> ExampleEncodable(e, k, ex)
    ensures error.Some? && !Encodable(e, ex.target) ==> IsProblem(e, ex.target, error.value)
    ensures Encodable(e, ex.target) && (exists r :: r in ex.related && r.relationship !in RelationOrder(e.layout)) ==>
              error == Some(UnknownRelationship)
    ensures error.None? ==> IsRow(e, k, ex, RowOf(grid, b))
  {
    assert RowOf(grid, b)[0] == PADDING;
    error := WriteRecord(e, ex.target, grid, b, 0);
    if error.Some? {
      return;
    }
    var groups := GroupByRelation(RelationOrder(e.layout), ex.related);
    if groups.None? {
      return Some(UnknownRelationship);
    }
    error := WriteRelations(e, k, ex, groups.value, grid, b);
  }

  // ---- a batch ----------------------------------------------------------------------------------

  datatype EncodedBatch = EncodedBatch(grid: array2<Position>, outcomes: Option<array<real>>)

  predicate AllLabelled(examples: seq<Example>) {
    forall b :: 0 <= b < |examples| ==> examples[b].outcome.Some?
  }

  ghost predicate AreRows(e: Encoder, k: nat, examples: seq<Example>, rows: seq<seq<Position>>)
    requires e.vocabSize >= 2
  {
    |rows| == |examples|
      && forall b :: 0 <= b < |rows| ==> ExampleEncodable(e, k, examples[b]) && IsRow(e, k, examples[b], rows[b])
  }

  lemma OneMoreRow(e: Encoder, k: nat, examples: seq<Example>, rows: seq<seq<Position>>, row: seq<Position>)
    requires e.vocabSize >= 2 && |rows| < |examples| && AreRows(e, k, examples[..|rows|], rows)
    requires ExampleEncodable(e, k, examples[|rows|]) && IsRow(e, k, examples[|rows|], row)
    ensures AreRows(e, k, examples[..|rows| + 1], rows + [row])
  {
  }

  /** One row per example. */
  method EncodeRows(e: Encoder, k: nat, examples: seq<Example>,
                    grid: array2<Position>) returns (error: Option<EncodingError>)
    requires ValidLayout(e.layout) && e.vocabSize >= 2
    requires grid.Length0 == |examples| && grid.Length1 == SequenceLength(e.layout, k)
    requires forall b :: 0 <= b < |examples| ==> RowOf(grid, b) == PaddingRow(grid.Length1)
    modifies grid
    ensures error.None? <==> forall b :: 0 <= b < |examples| ==> ExampleEncodable(e, k, examples[b])
    ensures error.None? ==> forall b :: 0 <= b < |examples| ==> IsRow(e, k, examples[b], RowOf(grid, b))
  {
    ghost var rows: seq<seq<Position>> := [];
    for b := 0 to |examples|
      invariant |rows| == b && forall i :: 0 <= i < b ==> RowOf(grid, i) == rows[i]
      invariant AreRows(e, k, examples[..b], rows)
      invariant forall i :: b <= i < |examples| ==> RowOf(grid, i) == PaddingRow(grid.Length1)
    {
      error := EncodeExample(e, k, examples[b], grid, b);
      if error.Some? {
        return;
      }
      OneMoreRow(e, k, examples, rows, RowOf(grid, b));
      rows := rows + [RowOf(grid, b)];
    }
    assert examples[..|examples|] == examples;
    return None;
  }

  method EncodeBatch(e: Encoder, k: nat, examples: seq<Example>) returns (r: Result<EncodedBatch, EncodingError>)
    requires ValidLayout(e.layout) && e.vocabSize >= 2
    ensures r.Ok? <==> forall b :: 0 <= b < |examples| ==> ExampleEncodable(e, k, examples[b])
    ensures r.Ok? ==> r.value.grid.Length0 == |examples| && r.value.grid.Length1 == SequenceLength(e.layout, k)
    ensures r.Ok? ==> forall b :: 0 <= b < |examples| ==> IsRow(e, k, examples[b], RowOf(r.value.grid, b))
    ensures r.Ok? ==> (r.value.outcomes.Some? <==> AllLabelled(examples))
    ensures r.Ok? && r.value.outcomes.Some? ==>
              r.value.outcomes.value.Length == |examples|
              && forall b :: 0 <= b < |examples| ==> r.value.outcomes.value[b] == examples[b].outcome.value as real
  {
    var outcomes: Option<array<real>> := None;
    if AllLabelled(examples) {
      var values := new real[|examples|](_ => 0.0);
      for b := 0 to |examples|
        invariant forall i :: 0 <= i < b ==> values[i] == examples[i].outcome.value as real
      {
        values[b] := examples[b].outcome.value as real;
      }
      outcomes := Some(values);
    }
    var grid := new Position[|examples|, SequenceLength(e.layout, k)]((_, _) => PADDING);
    var error := EncodeRows(e, k, examples, grid);
    if error.Some? {
      return Err(error.value);
    }
    return Ok(EncodedBatch(grid, outcomes));
  }

  // ---- what a row tells -------------------------------------------------------------------------

  /** A position is attended exactly when it is the first or one of the first min(k, count) slots of a
      relation's block; every other position is zero throughout. */
  lemma AttentionIsExact(e: Encoder, k: nat, ex: Example, row: seq<Position>, s: nat)
    requires e.vocabSize >= 2 && IsRow(e, k, ex, row) && s < |row|
    ensures row[s].attended <==>
              || s == 0
              || exists i, j :: && 0 <= i < |RelationOrder(e.layout)|
                                && 0 <= j < |Placed(ex, RelationOrder(e.layout)[i], k)|
                                && PositionOf(k, i, j) == s
    ensures !row[s].attended ==> row[s] == PADDING
  {
    if s > 0 {
      var i, j := EveryPositionIsASlot(k, |RelationOrder(e.layout)|, s);
      assert SlotWritten(e, k, ex, row, i, j);
      if row[s] == PADDING {
        forall i', j' | 0 <= i' < |RelationOrder(e.layout)| && 0 <= j' < |Placed(ex, RelationOrder(e.layout)[i'], k)|
          ensures PositionOf(k, i', j') != s
        {
          PositionsDoNotCollide(k, i, j, i', j');
        }
      }
    }
  }

  /** The views of the records an example gets encoded. */
  ghost predicate SameViews(e: Encoder, k: nat, ex: Example, ex': Example)
    requires e.vocabSize >= 2
  {
    && SameView(e, ex.target, ex'.target)
    && forall i :: 0 <= i < |RelationOrder(e.layout)| ==>
         SameViewsInOrder(e, Placed(ex, RelationOrder(e.layout)[i], k), Placed(ex', RelationOrder(e.layout)[i], k))
  }

  ghost predicate SameView(e: Encoder, r: Record, r': Record)
    requires e.vocabSize >= 2
  {
    Known(e, r) && Known(e, r') && ViewOf(e, r) == ViewOf(e, r')
  }

  ghost predicate SameViewsInOrder(e: Encoder, records: seq<Record>, records': seq<Record>)
    requires e.vocabSize >= 2
  {
    |records| == |records'| && forall j :: 0 <= j < |records| ==> SameView(e, records[j], records'[j])
  }

  lemma ReadPosition(e: Encoder, p: Position, placed: seq<Record>, j: nat)
    requires e.vocabSize >= 2 && SlotIs(e, p, placed, j)
    ensures Read(e.layout, p) == if j < |placed| then Some(ViewOf(e, placed[j])) else None
  {
    if j < |placed| {
      ReadBack(e, p, placed[j]);
    }
  }

  /** From a row one reads back the view of the target and, per relation, the views of exactly its
      first min(k, count) records in order. */
  lemma RowReadsBack(e: Encoder, k: nat, ex: Example, row: seq<Position>, i: nat, j: nat)
    requires e.vocabSize >= 2 && IsRow(e, k, ex, row) && i < |RelationOrder(e.layout)| && j < k
    ensures Known(e, ex.target) && Read(e.layout, row[0]) == Some(ViewOf(e, ex.target))
    ensures PositionOf(k, i, j) < |row|
    ensures var related := RelatedOf(ex, RelationOrder(e.layout)[i]);
            && (j < |related| ==>
                  Known(e, related[j]) && Read(e.layout, row[PositionOf(k, i, j)]) == Some(ViewOf(e, related[j])))
            && (j >= |related| ==> Read(e.layout, row[PositionOf(k, i, j)]) == None)
  {
    ReadBack(e, row[0], ex.target);
    assert SlotWritten(e, k, ex, row, i, j);
    ReadPosition(e, row[PositionOf(k, i, j)], Placed(ex, RelationOrder(e.layout)[i], k), j);
  }

  /** Two examples have the same row exactly when they agree on these views: nothing else is lost and
      nothing else is kept. In particular a row does not depend on the rest of its batch. */
  lemma RowsAgreeExactlyWhenViewsDo(e: Encoder, k: nat, ex: Example, ex': Example, row: seq<Position>,
                                    row': seq<Position>)
    requires e.vocabSize >= 2 && IsRow(e, k, ex, row) && IsRow(e, k, ex', row')
    ensures row == row' <==> SameViews(e, k, ex, ex')
  {
    if row == row' {
      SameRowSameViews(e, k, ex, ex', row);
    } else if SameViews(e, k, ex, ex') {
      var s :| 0 <= s < |row| && row[s] != row'[s];
      if s == 0 {
        HoldsIsExact(e.layout, row[0], row'[0], ViewOf(e, ex.target));
      } else {
        var i, j := EveryPositionIsASlot(k, |RelationOrder(e.layout)|, s);
        SameViewsSamePosition(e, k, ex, ex', row, row', i, j);
      }
    }
  }

  lemma SameViewsSamePosition(e: Encoder, k: nat, ex: Example, ex': Example, row: seq<Position>, row': seq<Position>,
                              i: nat, j: nat)
    requires e.vocabSize >= 2 && IsRow(e, k, ex, row) && IsRow(e, k, ex', row') && SameViews(e, k, ex, ex')
    requires i < |RelationOrder(e.layout)| && j < k
    ensures PositionOf(k, i, j) < |row| && PositionOf(k, i, j) < |row'|
    ensures row[PositionOf(k, i, j)] == row'[PositionOf(k, i, j)]
  {
    var placed, placed' := Placed(ex, RelationOrder(e.layout)[i], k), Placed(ex', RelationOrder(e.layout)[i], k);
    assert SlotWritten(e, k, ex, row, i, j) && SlotWritten(e, k, ex', row', i, j);
    assert SameViewsInOrder(e, placed, placed');
    if j < |placed| {
      assert SameView(e, placed[j], placed'[j]);
      HoldsIsExact(e.layout, row[PositionOf(k, i, j)], row'[PositionOf(k, i, j)], ViewOf(e, placed[j]));
    }
  }

  lemma SameRowSameViews(e: Encoder, k: nat, ex: Example, ex': Example, row: seq<Position>)
    requires e.vocabSize >= 2 && IsRow(e, k, ex, row) && IsRow(e, k, ex', row)
    ensures SameViews(e, k, ex, ex')
  {
    ReadBack(e, row[0], ex.target);
    ReadBack(e, row[0], ex'.target);
    forall i | 0 <= i < |RelationOrder(e.layout)|
      ensures SameViewsInOrder(e, Placed(ex, RelationOrder(e.layout)[i], k), Placed(ex', RelationOrder(e.layout)[i], k))
    {
      SameRowSameBlock(e, k, ex, ex', row, i);
    }
  }

  lemma SameRowSameBlock(e: Encoder, k: nat, ex: Example, ex': Example, row: seq<Position>, i: nat)
    requires e.vocabSize >= 2 && IsRow(e, k, ex, row) && IsRow(e, k, ex', row) && i < |RelationOrder(e.layout)|
    ensures SameViewsInOrder(e, Placed(ex, RelationOrder(e.layout)[i], k), Placed(ex', RelationOrder(e.layout)[i], k))
  {
    var placed, placed' := Placed(ex, RelationOrder(e.layout)[i], k), Placed(ex', RelationOrder(e.layout)[i], k);
    if |placed| < |placed'| {
      SameRowSameSlot(e, k, ex, ex', row, i, |placed|);
    } else if |placed'| < |placed| {
      SameRowSameSlot(e, k, ex, ex', row, i, |placed'|);
    }
    forall j | 0 <= j < |placed|
      ensures SameView(e, placed[j], placed'[j])
    {
      SameRowSameSlot(e, k, ex, ex', row, i, j);
    }
  }

  lemma SameRowSameSlot(e: Encoder, k: nat, ex: Example, ex': Example, row: seq<Position>, i: nat, j: nat)
    requires e.vocabSize >= 2 && IsRow(e, k, ex, row) && IsRow(e, k, ex', row) && i < |RelationOrder(e.layout)| && j < k
    ensures var placed, placed' := Placed(ex, RelationOrder(e.layout)[i], k),
            Placed(ex', RelationOrder(e.layout)[i], k);
            && (j < |placed| <==> j < |placed'|)
            && (j < |placed| && j < |placed'| ==> SameView(e, placed[j], placed'[j]))
  {
    assert SlotWritten(e, k, ex, row, i, j) && SlotWritten(e, k, ex', row, i, j);
    ReadPosition(e, row[PositionOf(k, i, j)], Placed(ex, RelationOrder(e.layout)[i], k), j);
    ReadPosition(e, row[PositionOf(k, i, j)], Placed(ex', RelationOrder(e.layout)[i], k), j);
  }

  /** A categorical id is 0 exactly where nothing is present, and otherwise within the vocabulary. */
  lemma CategoricalIdsMarkPresence(e: Encoder, p: Position, r: Record, slot: nat)
    requires e.vocabSize >= 2 && HoldsRecord(e, p, r) && slot < CATEGORICAL_SLOTS
    ensures (p.categoricalIds[slot] == 0 <==> !p.categoricalMask[slot]) && p.categoricalIds[slot] < e.vocabSize
  {
    var fields := e.layout.schemas[r.entity].categoricalFields;
    if slot < |fields| {
      assert ViewOf(e, r).categorical[slot] == CategoricalCell(e, r, fields[slot]);
    }
  }
}
