/** Building self-supervised pretraining batches (models/transformer/pretraining.py): masking cells,
    corrupting links and choosing temporal pairs, for arbitrary random draws. */
module Pretraining {
  import opened Common
  import opened TransformerSchema
  import opened Encoding
  import opened RandomDraws

  /** The probabilities, the layout, and the business identifiers of each entity. */
  datatype Masking = Masking(layout: Layout, protected: map<string, set<string>>,
                             maskProbability: real, corruptionProbability: real, pairProbability: real)

  /** Which cells of a position are to be reconstructed. */
  datatype Targets = Targets(numeric: seq<bool>, categorical: seq<bool>, datetime: seq<bool>)

  const NO_TARGETS: Targets := Targets([false, false], [false, false, false, false], [false, false, false, false])

  datatype Pair = Pair(b: nat, first: nat, second: nat, firstIsEarlier: bool)

  // ---- masking cells ---------------------------------------------------------------------------------

  /** A cell may become a target: it is one of the entity's fields, unprotected and present. */
  predicate Eligible(fields: seq<string>, protected: set<string>, mask: seq<bool>, slot: nat) {
    slot < |fields| && fields[slot] !in protected && slot < |mask| && mask[slot]
  }

  /** Only eligible cells are targets; none at probability 0, all at probability 1. */
  ghost predicate TargetsAreEligible(fields: seq<string>, protected: set<string>, mask: seq<bool>, target: seq<bool>,
                                     probability: real) {
    && |target| == |mask|
    && forall i :: 0 <= i < |target| ==>
         && (target[i] ==> Eligible(fields, protected, mask, i) && probability > 0.0)
         && (Eligible(fields, protected, mask, i) && probability >= 1.0 ==> target[i])
  }

  /** How many of the first `slot` cells are eligible: a draw is taken for each. */
  function EligibleBefore(fields: seq<string>, protected: set<string>, mask: seq<bool>, slot: nat): nat {
    if slot == 0 then 0
    else EligibleBefore(fields, protected, mask, slot - 1) + if Eligible(fields, protected, mask, slot - 1) then 1
         else 0
  }

  /** A cell is a target exactly when it is eligible and its draw, in slot order, is below the probability. */
  ghost predicate TargetsFollow(fields: seq<string>, protected: set<string>, mask: seq<bool>, target: seq<bool>,
                                probability: real, stream: nat -> real, start: nat) {
    && |target| == |mask|
    && forall i :: 0 <= i < |target| ==>
         (target[i] <==> Eligible(fields, protected, mask, i)
                         && Draw(stream, start + EligibleBefore(fields, protected, mask, i)) < probability)
  }

  /** The mask without its targets: a masked cell looks missing. */
  function Cleared(mask: seq<bool>, target: seq<bool>): (r: seq<bool>)
    requires |mask| == |target|
    ensures |r| == |mask|
  {
    seq(|mask|, i requires 0 <= i < |mask| => mask[i] && !target[i])
  }

  function Erased<T>(values: seq<T>, target: seq<bool>, zero: T): (r: seq<T>)
    requires |values| == |target|
    ensures |r| == |values|
  {
    seq(|values|, i requires 0 <= i < |values| => if target[i] then zero else values[i])
  }

  /** The position with its targets made to look missing. */
  function Erase(p: Position, t: Targets): Position
    requires Sized(p) && TargetsSized(t)
  {
    p.(numericValues := Erased(p.numericValues, t.numeric, 0.0), numericMask := Cleared(p.numericMask, t.numeric),
       categoricalIds := Erased(p.categoricalIds, t.categorical, 0),
       categoricalMask := Cleared(p.categoricalMask, t.categorical),
       datetimeValues := Erased(p.datetimeValues, t.datetime, NO_MOMENT),
       datetimeMask := Cleared(p.datetimeMask, t.datetime))
  }

  predicate Sized(p: Position) {
    && |p.numericValues| == |p.numericMask| == NUMERIC_SLOTS
    && |p.categoricalIds| == |p.categoricalMask| == CATEGORICAL_SLOTS
    && |p.datetimeValues| == |p.datetimeMask| == DATETIME_SLOTS
  }

  predicate TargetsSized(t: Targets) {
    |t.numeric| == NUMERIC_SLOTS && |t.categorical| == CATEGORICAL_SLOTS && |t.datetime| == DATETIME_SLOTS
  }

  /** A position as the encoder writes it. */
  ghost predicate WellFormed(l: Layout, p: Position) {
    Sized(p) && p.entityType < |l.entityVocab|
  }

  predicate HasSchema(l: Layout, p: Position)
    requires p.entityType < |l.entityVocab|
  {
    p.attended && p.entityType != 0 && l.entityVocab[p.entityType] in l.schemas
  }

  function ProtectedFields(c: Masking, entity: string): set<string> {
    if entity in c.protected then c.protected[entity] else {}
  }

  ghost predicate ValidTargets(c: Masking, p: Position, t: Targets)
    requires WellFormed(c.layout, p)
  {
    if HasSchema(c.layout, p) then
      var entity := c.layout.entityVocab[p.entityType];
      var schema, protected := c.layout.schemas[entity], ProtectedFields(c, entity);
      && TargetsAreEligible(schema.numericFields, protected, p.numericMask, t.numeric, c.maskProbability)
      && TargetsAreEligible(schema.categoricalFields, protected, p.categoricalMask, t.categorical, c.maskProbability)
      && TargetsAreEligible(schema.datetimeFields, protected, p.datetimeMask, t.datetime, c.maskProbability)
    else t == NO_TARGETS
  }

  /** What masking one kind of cells does. */
  ghost predicate KindMasked<T>(fields: seq<string>, protected: set<string>, values: seq<T>, mask: seq<bool>, zero: T,
                                    probability: real, stream: nat -> real, start: nat, values': seq<T>,
                                    mask': seq<bool>, target: seq<bool>) {
    && |values| == |mask| && TargetsAreEligible(fields, protected, mask, target, probability)
    && TargetsFollow(fields, protected, mask, target, probability, stream, start)
    && values' == Erased(values, target, zero) && mask' == Cleared(mask, target)
  }

  method MaskSlots<T>(fields: seq<string>, protected: set<string>, values: seq<T>, mask: seq<bool>, zero: T,
                      probability: real,
                      rng: RandomSource)
    returns (values': seq<T>, mask': seq<bool>, target: seq<bool>)
    requires |values| == |mask| && |fields| <= |mask|
    modifies rng
    ensures KindMasked(fields, protected, values, mask, zero, probability, rng.stream, old(rng.used), values', mask',
                       target)
    ensures rng.used == old(rng.used) + EligibleBefore(fields, protected, mask, |fields|)
  {
    values', mask', target := values, mask, seq(|mask|, _ => false);
    for slot := 0 to |fields|
      invariant |target| == |mask|
      invariant forall i :: 0 <= i < |target| ==>
        && (target[i] ==> i < slot && Eligible(fields, protected, mask, i) && probability > 0.0)
        && (i < slot && Eligible(fields, protected, mask, i) && probability >= 1.0 ==> target[i])
      invariant rng.used == old(rng.used) + EligibleBefore(fields, protected, mask, slot)
      invariant forall i :: 0 <= i < slot && i < |target| ==>
        (target[i] <==> Eligible(fields, protected, mask, i)
                        && Draw(rng.stream, old(rng.used) + EligibleBefore(fields, protected, mask, i)) < probability)
      invariant values' == Erased(values, target, zero) && mask' == Cleared(mask, target)
    {
      if fields[slot] in protected || !mask[slot] {
        continue;
      }
      var draw := rng.Next();
      if draw < probability {
        target := target[slot := true];
        mask' := mask'[slot := false];
        values' := values'[slot := zero];
      }
    }
  }

  function NumericDraws(c: Masking, p: Position): nat
    requires HasSchemaOf(c, p)
  {
    var entity := c.layout.entityVocab[p.entityType];
    var fields := c.layout.schemas[entity].numericFields;
    EligibleBefore(fields, ProtectedFields(c, entity), p.numericMask, |fields|)
  }

  function CategoricalDraws(c: Masking, p: Position): nat
    requires HasSchemaOf(c, p)
  {
    var entity := c.layout.entityVocab[p.entityType];
    var fields := c.layout.schemas[entity].categoricalFields;
    EligibleBefore(fields, ProtectedFields(c, entity), p.categoricalMask, |fields|)
  }

  function DatetimeDraws(c: Masking, p: Position): nat
    requires HasSchemaOf(c, p)
  {
    var entity := c.layout.entityVocab[p.entityType];
    var fields := c.layout.schemas[entity].datetimeFields;
    EligibleBefore(fields, ProtectedFields(c, entity), p.datetimeMask, |fields|)
  }

  predicate HasSchemaOf(c: Masking, p: Position) {
    p.entityType < |c.layout.entityVocab| && HasSchema(c.layout, p)
  }

  /** How many draws masking the position takes: one for each eligible cell. */
  function MaskDraws(c: Masking, p: Position): nat {
    if HasSchemaOf(c, p) then NumericDraws(c, p) + CategoricalDraws(c, p) + DatetimeDraws(c, p) else 0
  }

  /** The position's targets follow the draws from `start` on: numeric, categorical, datetime cells. */
  ghost predicate MaskFollows(c: Masking, p: Position, t: Targets, stream: nat -> real, start: nat) {
    HasSchemaOf(c, p) ==>
      var entity := c.layout.entityVocab[p.entityType];
      var schema, protected := c.layout.schemas[entity], ProtectedFields(c, entity);
      var categorical := start + NumericDraws(c, p);
      var datetime := categorical + CategoricalDraws(c, p);
      && TargetsFollow(schema.numericFields, protected, p.numericMask, t.numeric, c.maskProbability, stream, start)
      && TargetsFollow(schema.categoricalFields, protected, p.categoricalMask, t.categorical, c.maskProbability, stream,
                       categorical)
      && TargetsFollow(schema.datetimeFields, protected, p.datetimeMask, t.datetime, c.maskProbability, stream,
                       datetime)
  }

  ghost predicate NumericMasked(c: Masking, p: Position, q: Position, target: seq<bool>, stream: nat -> real,
                                start: nat)
    requires HasSchemaOf(c, p)
  {
    var entity := c.layout.entityVocab[p.entityType];
    KindMasked(c.layout.schemas[entity].numericFields, ProtectedFields(c, entity), p.numericValues, p.numericMask, 0.0,
               c.maskProbability, stream, start, q.numericValues, q.numericMask, target)
  }

  ghost predicate CategoricalMasked(c: Masking, p: Position, q: Position, target: seq<bool>, stream: nat -> real,
                                    start: nat)
    requires HasSchemaOf(c, p)
  {
    var entity := c.layout.entityVocab[p.entityType];
    KindMasked(c.layout.schemas[entity].categoricalFields, ProtectedFields(c, entity), p.categoricalIds,
               p.categoricalMask, 0, c.maskProbability, stream, start, q.categoricalIds, q.categoricalMask, target)
  }

  ghost predicate DatetimeMasked(c: Masking, p: Position, q: Position, target: seq<bool>, stream: nat -> real,
                                 start: nat)
    requires HasSchemaOf(c, p)
  {
    var entity := c.layout.entityVocab[p.entityType];
    KindMasked(c.layout.schemas[entity].datetimeFields, ProtectedFields(c, entity), p.datetimeValues, p.datetimeMask,
               NO_MOMENT, c.maskProbability, stream, start, q.datetimeValues, q.datetimeMask, target)
  }

  method MaskNumeric(c: Masking, p: Position, rng: RandomSource)
    returns (values: seq<real>, mask: seq<bool>, target: seq<bool>)
    requires ValidLayout(c.layout) && WellFormed(c.layout, p) && HasSchema(c.layout, p)
    modifies rng
    ensures NumericMasked(c, p, p.(numericValues := values, numericMask := mask), target, rng.stream, old(rng.used))
    ensures rng.used == old(rng.used) + NumericDraws(c, p)
  {
    var entity := c.layout.entityVocab[p.entityType];
    values, mask,
      target := MaskSlots(c.layout.schemas[entity].numericFields, ProtectedFields(c, entity), p.numericValues,
                                      p.numericMask, 0.0, c.maskProbability, rng);
  }

  method MaskCategorical(c: Masking, p: Position, rng: RandomSource)
    returns (values: seq<nat>, mask: seq<bool>, target: seq<bool>)
    requires ValidLayout(c.layout) && WellFormed(c.layout, p) && HasSchema(c.layout, p)
    modifies rng
    ensures CategoricalMasked(c, p, p.(categoricalIds := values, categoricalMask := mask), target, rng.stream,
                              old(rng.used))
    ensures rng.used == old(rng.used) + CategoricalDraws(c, p)
  {
    var entity := c.layout.entityVocab[p.entityType];
    values, mask,
      target := MaskSlots(c.layout.schemas[entity].categoricalFields, ProtectedFields(c, entity), p.categoricalIds,
                                      p.categoricalMask, 0, c.maskProbability, rng);
  }

  method MaskDatetime(c: Masking, p: Position, rng: RandomSource)
    returns (values: seq<Moment>, mask: seq<bool>, target: seq<bool>)
    requires ValidLayout(c.layout) && WellFormed(c.layout, p) && HasSchema(c.layout, p)
    modifies rng
    ensures DatetimeMasked(c, p, p.(datetimeValues := values, datetimeMask := mask), target, rng.stream, old(rng.used))
    ensures rng.used == old(rng.used) + DatetimeDraws(c, p)
  {
    var entity := c.layout.entityVocab[p.entityType];
    values, mask,
      target := MaskSlots(c.layout.schemas[entity].datetimeFields, ProtectedFields(c, entity), p.datetimeValues,
                                      p.datetimeMask, NO_MOMENT, c.maskProbability, rng);
  }

  /** The three kinds together. */
  lemma KindsMakePosition(c: Masking, p: Position, q: Position, t: Targets, stream: nat -> real, start: nat)
    requires ValidLayout(c.layout) && WellFormed(c.layout, p) && HasSchema(c.layout, p) && SameStructure(p, q)
    requires NumericMasked(c, p, q, t.numeric, stream, start)
    requires CategoricalMasked(c, p, q, t.categorical, stream, start + NumericDraws(c, p))
    requires DatetimeMasked(c, p, q, t.datetime, stream, start + NumericDraws(c, p) + CategoricalDraws(c, p))
    ensures TargetsSized(t) && ValidTargets(c, p, t) && MaskFollows(c, p, t, stream, start) && q == Erase(p, t)
  {
  }

  /** The cells of a record, by the fields of its entity. */
  method MaskRecord(c: Masking, p: Position, rng: RandomSource) returns (q: Position, t: Targets)
    requires ValidLayout(c.layout) && WellFormed(c.layout, p) && HasSchema(c.layout, p)
    modifies rng
    ensures TargetsSized(t) && ValidTargets(c, p, t) && q == Erase(p, t)
    ensures MaskFollows(c, p, t, rng.stream, old(rng.used)) && rng.used == old(rng.used) + MaskDraws(c, p)
  {
    var numericValues, numericMask, numeric := MaskNumeric(c, p, rng);
    var categoricalIds, categoricalMask, categorical := MaskCategorical(c, p, rng);
    var datetimeValues, datetimeMask, datetime := MaskDatetime(c, p, rng);
    q := p.(numericValues := numericValues, numericMask := numericMask, categoricalIds := categoricalIds,
            categoricalMask := categoricalMask, datetimeValues := datetimeValues, datetimeMask := datetimeMask);
    t := Targets(numeric, categorical, datetime);
    KindsMakePosition(c, p, q, t, rng.stream, old(rng.used));
  }

  method MaskPosition(c: Masking, p: Position, rng: RandomSource) returns (q: Position, t: Targets)
    requires ValidLayout(c.layout) && WellFormed(c.layout, p)
    modifies rng
    ensures TargetsSized(t) && ValidTargets(c, p, t) && q == Erase(p, t)
    ensures MaskFollows(c, p, t, rng.stream, old(rng.used)) && rng.used == old(rng.used) + MaskDraws(c, p)
  {
    q, t := p, NO_TARGETS;
    if !p.attended || p.entityType == 0 {
      return;
    }
    q, t := MaskRecord(c, p, rng);
  }

  // ---- corrupting links -------------------------------------------------------------------------------

  ghost predicate WellFormedRow(l: Layout, row: seq<Position>) {
    forall s :: 0 <= s < |row| ==> WellFormed(l, row[s])
  }

  /** A real record other than the target. */
  predicate IsRelated(l: Layout, p: Position) {
    p.attended && IndexOf(l.relationshipVocab, TARGET_NAME) != Some(p.relationship)
  }

  /** The related positions of a row, in order. */
  function RelatedPositions(l: Layout, row: seq<Position>, n: nat): (positions: seq<nat>)
    requires n <= |row|
    ensures forall s :: s in positions <==> 0 <= s < n && IsRelated(l, row[s])
    ensures Distinct(positions)
  {
    if n == 0 then []
    else
      var rest := RelatedPositions(l, row, n - 1);
      if IsRelated(l, row[n - 1]) then rest + [n - 1] else rest
  }

  /** A related record of the same example and of another entity. */
  predicate IsCrossEntity(l: Layout, row: seq<Position>, s: nat, other: nat) {
    s < |row| && other < |row| && IsRelated(l, row[other]) && row[other].entityType != row[s].entityType
  }

  /** The position with another's cells, but its own claimed entity and relationship. */
  function WithContentOf(p: Position, other: Position): Position {
    p.(numericValues := other.numericValues, numericMask := other.numericMask, categoricalIds := other.categoricalIds,
       categoricalMask := other.categoricalMask, datetimeValues := other.datetimeValues,
       datetimeMask := other.datetimeMask)
  }

  /** The outcome of link corruption at one position: `masked` is the position after masking. */
  ghost predicate LinkOutcome(c: Masking, row: seq<Position>, s: nat, masked: Position, q: Position, link: bool,
                              genuine: real)
    requires s < |row|
  {
    && link == IsRelated(c.layout, row[s])
    && if link && genuine == 0.0 then
         c.corruptionProbability > 0.0
           && exists other: nat :: IsCrossEntity(c.layout, row, s, other) && q == WithContentOf(row[s], row[other])
       else
         && q == masked && genuine == (if link then 1.0 else 0.0)
         && (link && c.corruptionProbability >= 1.0 ==> forall other: nat :: !IsCrossEntity(c.layout, row, s, other))
  }

  /** The related records of other entities, in order. */
  function CrossEntities(l: Layout, row: seq<Position>, s: nat): (others: seq<nat>)
    ensures forall other :: other in others <==> IsCrossEntity(l, row, s, other)
  {
    Filter(RelatedPositions(l, row, |row|), (other: nat) => IsCrossEntity(l, row, s, other))
  }

  /** One draw decides about the link; if it is to be corrupted and can be, another chooses the record. */
  ghost predicate LinkFollows(c: Masking, row: seq<Position>, s: nat, q: Position, genuine: real, stream: nat -> real,
                              n: nat)
    requires s < |row|
  {
    var others := CrossEntities(c.layout, row, s);
    IsRelated(c.layout, row[s]) ==>
      && (genuine == 0.0 <==> Draw(stream, n) < c.corruptionProbability && others != [])
      && (genuine == 0.0 && others != [] ==>
            var other := others[Choice(stream, n + 1, |others|)];
            other < |row| && q == WithContentOf(row[s], row[other]))
  }

  function LinkDraws(c: Masking, row: seq<Position>, s: nat, stream: nat -> real, n: nat): nat
    requires s < |row|
  {
    if !IsRelated(c.layout, row[s]) then 0
    else if Draw(stream, n) >= c.corruptionProbability || CrossEntities(c.layout, row, s) == [] then 1
    else 2
  }

  predicate SameStructure(p: Position, q: Position) {
    p.entityType == q.entityType && p.relationship == q.relationship && p.attended == q.attended
  }

  method CorruptLink(c: Masking, row: seq<Position>, s: nat, masked: Position, rng: RandomSource)
    returns (q: Position, link: bool, genuine: real)
    requires s < |row|
    requires SameStructure(masked, row[s])
    modifies rng
    ensures LinkOutcome(c, row, s, masked, q, link, genuine)
    ensures LinkFollows(c, row, s, q, genuine, rng.stream, old(rng.used))
    ensures rng.used == old(rng.used) + LinkDraws(c, row, s, rng.stream, old(rng.used))
  {
    q, link, genuine := masked, IsRelated(c.layout, row[s]), 0.0;
    if !link {
      return;
    }
    genuine := 1.0;
    var draw := rng.Next();
    if draw >= c.corruptionProbability {
      return;
    }
    var candidates := CrossEntities(c.layout, row, s);
    if candidates == [] {
      return;
    }
    var choice := rng.Choose(|candidates|);
    var other := candidates[choice];
    assert other in candidates;
    q := WithContentOf(masked, row[other]);
    genuine := 0.0;
  }

  // ---- one row --------------------------------------------------------------------------------------------

  ghost predicate PositionOutcome(c: Masking, row: seq<Position>, s: nat, q: Position, t: Targets, link: bool,
                                  genuine: real)
    requires s < |row| && WellFormed(c.layout, row[s])
  {
    && TargetsSized(t) && ValidTargets(c, row[s], t)
    && LinkOutcome(c, row, s, Erase(row[s], t), q, link, genuine)
  }

  ghost predicate RowOutcome(c: Masking, row: seq<Position>, masked: seq<Position>, targets: seq<Targets>,
                             links: seq<bool>, genuine: seq<real>)
    requires WellFormedRow(c.layout, row)
  {
    && |masked| == |targets| == |links| == |genuine| == |row|
    && forall s :: 0 <= s < |row| ==> PositionOutcome(c, row, s, masked[s], targets[s], links[s], genuine[s])
  }

  /** The positions so far are masked with eligible targets. */
  ghost predicate Masked(c: Masking, row: seq<Position>, masked: seq<Position>, targets: seq<Targets>)
    requires WellFormedRow(c.layout, row)
  {
    && |masked| == |targets| <= |row|
    && forall s :: 0 <= s < |masked| ==>
         && TargetsSized(targets[s]) && ValidTargets(c, row[s], targets[s])
         && masked[s] == Erase(row[s], targets[s])
  }

  lemma OneMoreMasked(c: Masking, row: seq<Position>, masked: seq<Position>, targets: seq<Targets>, q: Position,
                      t: Targets)
    requires WellFormedRow(c.layout, row) && Masked(c, row, masked, targets) && |masked| < |row|
    requires TargetsSized(t) && ValidTargets(c, row[|masked|], t) && q == Erase(row[|masked|], t)
    ensures Masked(c, row, masked + [q], targets + [t])
  {
  }

  /** Where the draws for position `s` start when the row's start at `start`. */
  function MaskCursor(c: Masking, row: seq<Position>, start: nat, s: nat): nat
    requires s <= |row|
  {
    if s == 0 then start else MaskCursor(c, row, start, s - 1) + MaskDraws(c, row[s - 1])
  }

  ghost predicate RowMaskFollows(c: Masking, row: seq<Position>, targets: seq<Targets>, stream: nat -> real,
                                 start: nat) {
    && |targets| <= |row|
    && forall s :: 0 <= s < |targets| ==> MaskFollows(c, row[s], targets[s], stream, MaskCursor(c, row, start, s))
  }

  lemma OneMoreFollows(c: Masking, row: seq<Position>, targets: seq<Targets>, t: Targets, stream: nat -> real,
                       start: nat)
    requires RowMaskFollows(c, row, targets, stream, start) && |targets| < |row|
    requires MaskFollows(c, row[|targets|], t, stream, MaskCursor(c, row, start, |targets|))
    ensures RowMaskFollows(c, row, targets + [t], stream, start)
  {
  }

  /** One write, in terms of rows. */
  method SetCell<T>(grid: array2<T>, b: nat, s: nat, value: T)
    requires b < grid.Length0 && s < grid.Length1
    modifies grid
    ensures OtherRowsKept(grid, b) && RowOf(grid, b) == old(RowOf(grid, b))[s := value]
  {
    grid[b, s] := value;
  }

  /** First all cells of the row are masked. */
  method MaskRow(c: Masking, row: seq<Position>, masked: array2<Position>, targets: array2<Targets>, b: nat,
                 rng: RandomSource)
    requires ValidLayout(c.layout) && WellFormedRow(c.layout, row)
    requires b < masked.Length0 && b < targets.Length0 && masked.Length1 == targets.Length1 == |row|
    modifies rng, masked, targets
    ensures OtherRowsKept(masked, b) && OtherRowsKept(targets, b)
    ensures Masked(c, row, RowOf(masked, b), RowOf(targets, b))
    ensures RowMaskFollows(c, row, RowOf(targets, b), rng.stream, old(rng.used))
    ensures rng.used == MaskCursor(c, row, old(rng.used), |row|)
  {
    ghost var doneMasked: seq<Position>, doneTargets: seq<Targets> := [], [];
    for s := 0 to |row|
      invariant OtherRowsKept(masked, b) && OtherRowsKept(targets, b)
      invariant |doneMasked| == s && Masked(c, row, doneMasked, doneTargets)
      invariant RowMaskFollows(c, row, doneTargets, rng.stream, old(rng.used))
      invariant rng.used == MaskCursor(c, row, old(rng.used), s)
      invariant RowOf(masked, b)[..s] == doneMasked && RowOf(targets, b)[..s] == doneTargets
    {
      var q, t := MaskPosition(c, row[s], rng);
      SetCell(masked, b, s, q);
      SetCell(targets, b, s, t);
      OneMoreMasked(c, row, doneMasked, doneTargets, q, t);
      OneMoreFollows(c, row, doneTargets, t, rng.stream, old(rng.used));
      doneMasked, doneTargets := doneMasked + [q], doneTargets + [t];
    }
    assert RowOf(masked, b) == doneMasked && RowOf(targets, b) == doneTargets;
  }

  /** The links so far are decided. */
  ghost predicate Linked(c: Masking, row: seq<Position>, before: seq<Position>, after: seq<Position>,
                         links: seq<bool>, genuine: seq<real>) {
    && |after| == |links| == |genuine| <= |row| == |before|
    && forall s :: 0 <= s < |after| ==> LinkOutcome(c, row, s, before[s], after[s], links[s], genuine[s])
  }

  lemma OneMoreLink(c: Masking, row: seq<Position>, before: seq<Position>, after: seq<Position>, links: seq<bool>,
                    genuine: seq<real>,
                    q: Position, link: bool, value: real)
    requires Linked(c, row, before, after, links, genuine) && |after| < |row|
    requires LinkOutcome(c, row, |after|, before[|after|], q, link, value)
    ensures Linked(c, row, before, after + [q], links + [link], genuine + [value])
  {
  }

  /** Where the draws for the link at `s` start. */
  function LinkCursor(c: Masking, row: seq<Position>, stream: nat -> real, start: nat, s: nat): nat
    requires s <= |row|
  {
    if s == 0 then start
    else
      var before := LinkCursor(c, row, stream, start, s - 1);
      before + LinkDraws(c, row, s - 1, stream, before)
  }

  ghost predicate RowLinksFollow(c: Masking, row: seq<Position>, after: seq<Position>, genuine: seq<real>,
                                 stream: nat -> real, start: nat) {
    && |after| == |genuine| <= |row|
    && forall s :: 0 <= s < |after| ==>
         LinkFollows(c, row, s, after[s], genuine[s], stream, LinkCursor(c, row, stream, start, s))
  }

  lemma OneMoreLinkFollows(c: Masking, row: seq<Position>, after: seq<Position>, genuine: seq<real>, q: Position,
                           value: real, stream: nat -> real, start: nat)
    requires RowLinksFollow(c, row, after, genuine, stream, start) && |after| < |row|
    requires LinkFollows(c, row, |after|, q, value, stream, LinkCursor(c, row, stream, start, |after|))
    ensures RowLinksFollow(c, row, after + [q], genuine + [value], stream, start)
  {
  }

  method CorruptAt(c: Masking, row: seq<Position>, masked: array2<Position>, links: array2<bool>, genuine: array2<real>,
                   b: nat, s: nat, rng: RandomSource)
    returns (ghost q: Position, ghost link: bool, ghost value: real)
    requires s < |row| && b < masked.Length0 && b < links.Length0 && b < genuine.Length0
    requires masked.Length1 == links.Length1 == genuine.Length1 == |row|
    requires SameStructure(RowOf(masked, b)[s], row[s])
    modifies rng, masked, links, genuine
    ensures OtherRowsKept(masked, b) && OtherRowsKept(links, b) && OtherRowsKept(genuine, b)
    ensures LinkOutcome(c, row, s, old(RowOf(masked, b)[s]), q, link, value)
    ensures LinkFollows(c, row, s, q, value, rng.stream, old(rng.used))
    ensures rng.used == old(rng.used) + LinkDraws(c, row, s, rng.stream, old(rng.used))
    ensures RowOf(masked, b) == old(RowOf(masked, b))[s := q]
    ensures RowOf(links, b) == old(RowOf(links, b))[s := link]
            && RowOf(genuine, b) == old(RowOf(genuine, b))[s := value]
  {
    var newPosition, isLink, newValue := CorruptLink(c, row, s, masked[b, s], rng);
    q, link, value := newPosition, isLink, newValue;
    SetCell(masked, b, s, newPosition);
    SetCell(links, b, s, isLink);
    SetCell(genuine, b, s, newValue);
  }

  /** Then the links of the row are corrupted. */
  method CorruptRow(c: Masking, row: seq<Position>, masked: array2<Position>, links: array2<bool>,
                    genuine: array2<real>,
                    b: nat, rng: RandomSource)
    requires b < masked.Length0 && b < links.Length0 && b < genuine.Length0
    requires masked.Length1 == links.Length1 == genuine.Length1 == |row|
    requires forall s :: 0 <= s < |row| ==> SameStructure(RowOf(masked, b)[s], row[s])
    modifies rng, masked, links, genuine
    ensures OtherRowsKept(masked, b) && OtherRowsKept(links, b) && OtherRowsKept(genuine, b)
    ensures Linked(c, row, old(RowOf(masked, b)), RowOf(masked, b), RowOf(links, b), RowOf(genuine, b))
    ensures RowLinksFollow(c, row, RowOf(masked, b), RowOf(genuine, b), rng.stream, old(rng.used))
    ensures rng.used == LinkCursor(c, row, rng.stream, old(rng.used), |row|)
  {
    ghost var before := RowOf(masked, b);
    ghost var after: seq<Position>, doneLinks: seq<bool>, doneGenuine: seq<real> := [], [], [];
    for s := 0 to |row|
      invariant OtherRowsKept(masked, b) && OtherRowsKept(links, b) && OtherRowsKept(genuine, b)
      invariant |after| == s && Linked(c, row, before, after, doneLinks, doneGenuine)
      invariant RowLinksFollow(c, row, after, doneGenuine, rng.stream, old(rng.used))
      invariant rng.used == LinkCursor(c, row, rng.stream, old(rng.used), s)
      invariant RowOf(masked, b)[..s] == after && RowOf(links, b)[..s] == doneLinks
                && RowOf(genuine, b)[..s] == doneGenuine
      invariant forall i :: s <= i < |row| ==> RowOf(masked, b)[i] == before[i]
    {
      ghost var q, link, value := CorruptAt(c, row, masked, links, genuine, b, s, rng);
      OneMoreLink(c, row, before, after, doneLinks, doneGenuine, q, link, value);
      OneMoreLinkFollows(c, row, after, doneGenuine, q, value, rng.stream, old(rng.used));
      after, doneLinks, doneGenuine := after + [q], doneLinks + [link], doneGenuine + [value];
    }
    assert RowOf(masked, b) == after && RowOf(links, b) == doneLinks && RowOf(genuine, b) == doneGenuine;
  }

  lemma MaskedAndLinked(c: Masking, row: seq<Position>, before: seq<Position>, targets: seq<Targets>,
                        after: seq<Position>,
                        links: seq<bool>, genuine: seq<real>)
    requires WellFormedRow(c.layout, row) && Masked(c, row, before, targets) && |before| == |row|
    requires Linked(c, row, before, after, links, genuine) && |after| == |row|
    ensures RowOutcome(c, row, after, targets, links, genuine)
  {
    forall s | 0 <= s < |row|
      ensures PositionOutcome(c, row, s, after[s], targets[s], links[s], genuine[s])
    {
      assert LinkOutcome(c, row, s, before[s], after[s], links[s], genuine[s]);
    }
  }

  // ---- temporal pairs --------------------------------------------------------------------------------------

  /** A related position whose first timestamp the masked batch shows as present. */
  predicate IsCandidate(l: Layout, row: seq<Position>, masked: seq<Position>, s: nat) {
    s < |row| && s < |masked| && IsRelated(l, row[s]) && |masked[s].datetimeMask| > 0 && masked[s].datetimeMask[0]
  }

  predicate Earlier(p: Position, q: Position) {
    |p.datetimeValues| > 0 && |q.datetimeValues| > 0 && p.datetimeValues[0].years < q.datetimeValues[0].years
  }

  /** Two different candidates of one entity, labelled by comparing their original year features. */
  ghost predicate ValidPair(l: Layout, row: seq<Position>, masked: seq<Position>, p: Pair) {
    && IsCandidate(l, row, masked, p.first) && IsCandidate(l, row, masked, p.second) && p.first != p.second
    && row[p.first].entityType == row[p.second].entityType
    && (p.firstIsEarlier <==> Earlier(row[p.first], row[p.second]))
  }

  /** The pairs of one row: valid, of that row, and at most one per entity. */
  ghost predicate PairsOfRow(l: Layout, row: seq<Position>, masked: seq<Position>, b: nat, pairs: seq<Pair>) {
    && (forall n :: 0 <= n < |pairs| ==> pairs[n].b == b && ValidPair(l, row, masked, pairs[n]))
    && (forall m, n :: 0 <= m < n < |pairs| ==> row[pairs[m].first].entityType != row[pairs[n].first].entityType)
  }

  /** The entity types of the related positions, each once, in order of first appearance. */
  function EntityTypes(row: seq<Position>, positions: seq<nat>): (types: seq<nat>)
    requires forall i :: 0 <= i < |positions| ==> positions[i] < |row|
    ensures Distinct(types)
    ensures forall i :: 0 <= i < |positions| ==> row[positions[i]].entityType in types
  {
    if positions == [] then []
    else
      var rest := EntityTypes(row, positions[..|positions| - 1]);
      var last := row[positions[|positions| - 1]].entityType;
      if last in rest then rest else rest + [last]
  }

  ghost predicate TwoCandidates(l: Layout, row: seq<Position>, masked: seq<Position>, entityType: nat) {
    exists s: nat, s': nat :: IsCandidate(l, row, masked, s) && IsCandidate(l, row, masked, s') && s != s'
                              && row[s].entityType == entityType && row[s'].entityType == entityType
  }

  function CandidatesOf(l: Layout, row: seq<Position>, masked: seq<Position>, related: seq<nat>,
                        entityType: nat): (candidates: seq<nat>)
    ensures forall s :: s in candidates <==>
              s in related && IsCandidate(l, row, masked, s) && row[s].entityType == entityType
  {
    Filter(related, (s: nat) => IsCandidate(l, row, masked, s) && row[s].entityType == entityType)
  }

  lemma CandidatesAreAll(l: Layout, row: seq<Position>, masked: seq<Position>, entityType: nat)
    ensures var candidates := CandidatesOf(l, row, masked, RelatedPositions(l, row, |row|), entityType);
            Distinct(candidates) && (TwoCandidates(l, row, masked, entityType) ==> |candidates| >= 2)
  {
    var related := RelatedPositions(l, row, |row|);
    var candidates := CandidatesOf(l, row, masked, related, entityType);
    DistinctFilter(related, (s: nat) => IsCandidate(l, row, masked, s) && row[s].entityType == entityType);
    if TwoCandidates(l, row, masked, entityType) {
      var s: nat, s': nat :| IsCandidate(l, row, masked, s) && IsCandidate(l, row, masked, s') && s != s'
                             && row[s].entityType == entityType && row[s'].entityType == entityType;
      assert s in related && s' in related;
      assert s in candidates && s' in candidates;
    }
  }

  /** The candidates of one entity, in order. */
  function CandidatesIn(l: Layout, row: seq<Position>, masked: seq<Position>, entityType: nat): seq<nat> {
    CandidatesOf(l, row, masked, RelatedPositions(l, row, |row|), entityType)
  }

  /** With two candidates one draw decides whether there is a pair, and two more choose it. */
  ghost predicate PairFollows(c: Masking, row: seq<Position>, masked: seq<Position>, entityType: nat,
                              pair: Option<Pair>, stream: nat -> real, n: nat) {
    var candidates := CandidatesIn(c.layout, row, masked, entityType);
    && (pair.Some? <==> |candidates| >= 2 && Draw(stream, n) <= c.pairProbability)
    && (pair.Some? && |candidates| >= 2 ==>
          && pair.value.first == candidates[Choice(stream, n + 1, |candidates|)]
          && pair.value.second == candidates[OtherChoice(stream, n + 1, |candidates|)])
  }

  function PairDraws(c: Masking, row: seq<Position>, masked: seq<Position>, entityType: nat, stream: nat -> real,
                     n: nat): nat {
    if |CandidatesIn(c.layout, row, masked, entityType)| < 2 then 0
    else if Draw(stream, n) > c.pairProbability then 1
    else 3
  }

  /** Perhaps a pair of one entity. */
  method PairEntity(c: Masking, row: seq<Position>, masked: seq<Position>, entityType: nat, b: nat,
                    rng: RandomSource) returns (pair: Option<Pair>)
    modifies rng
    ensures pair.Some? ==>
              && pair.value.b == b && ValidPair(c.layout, row, masked, pair.value)
              && row[pair.value.first].entityType == entityType
    ensures c.pairProbability >= 1.0 && TwoCandidates(c.layout, row, masked, entityType) ==> pair.Some?
    ensures pair.Some? ==> c.pairProbability >= 0.0
    ensures PairFollows(c, row, masked, entityType, pair, rng.stream, old(rng.used))
    ensures rng.used == old(rng.used) + PairDraws(c, row, masked, entityType, rng.stream, old(rng.used))
  {
    var candidates := CandidatesIn(c.layout, row, masked, entityType);
    CandidatesAreAll(c.layout, row, masked, entityType);
    if |candidates| < 2 {
      return None;
    }
    var draw := rng.Next();
    if draw > c.pairProbability {
      return None;
    }
    var i, j := rng.ChooseTwo(|candidates|);
    var first, second := candidates[i], candidates[j];
    assert first in candidates && second in candidates;
    return Some(Pair(b, first, second, Earlier(row[first], row[second])));
  }

  /** Entities in `types` with two candidates have their pair. */
  ghost predicate AllPaired(l: Layout, row: seq<Position>, masked: seq<Position>, pairs: seq<Pair>, types: seq<nat>) {
    forall t :: t in types && TwoCandidates(l, row, masked, t) ==> HasPair(row, pairs, t)
  }

  ghost predicate HasPair(row: seq<Position>, pairs: seq<Pair>, entityType: nat) {
    exists p :: p in pairs && p.first < |row| && row[p.first].entityType == entityType
  }

  lemma AddPair(l: Layout, row: seq<Position>, masked: seq<Position>, b: nat, pairs: seq<Pair>, types: seq<nat>,
                p: Pair, entityType: nat)
    requires PairsOfRow(l, row, masked, b, pairs) && entityType !in types
    requires forall n :: 0 <= n < |pairs| ==> row[pairs[n].first].entityType in types
    requires p.b == b && ValidPair(l, row, masked, p) && row[p.first].entityType == entityType
    ensures PairsOfRow(l, row, masked, b, pairs + [p])
    ensures AllPaired(l, row, masked, pairs, types) ==> AllPaired(l, row, masked, pairs + [p], types + [entityType])
  {
    var more := pairs + [p];
    assert forall q :: q in more <==> q in pairs || q == p;
    forall t | HasPair(row, pairs, t)
      ensures HasPair(row, more, t)
    {
      var q :| q in pairs && q.first < |row| && row[q.first].entityType == t;
      assert q in more;
    }
    assert p in more;
    assert HasPair(row, more, entityType);
  }

  lemma PairableTypesAreListed(l: Layout, row: seq<Position>, masked: seq<Position>, types: seq<nat>, t: nat)
    requires types == EntityTypesOf(l, row) && TwoCandidates(l, row, masked, t)
    ensures t in types
  {
    var s: nat :| IsCandidate(l, row, masked, s) && row[s].entityType == t;
    assert s in RelatedPositions(l, row, |row|);
  }

  function EntityTypesOf(l: Layout, row: seq<Position>): (types: seq<nat>)
    ensures Distinct(types)
    ensures forall s :: s in RelatedPositions(l, row, |row|) ==> row[s].entityType in types
  {
    var related := RelatedPositions(l, row, |row|);
    assert forall i :: 0 <= i < |related| ==> related[i] in related;
    EntityTypes(row, related)
  }

  /** Where the draws for the n-th entity start. */
  function PairCursor(c: Masking, row: seq<Position>, masked: seq<Position>, types: seq<nat>, stream: nat -> real,
                      start: nat, n: nat): nat
    requires n <= |types|
  {
    if n == 0 then start
    else
      var before := PairCursor(c, row, masked, types, stream, start, n - 1);
      before + PairDraws(c, row, masked, types[n - 1], stream, before)
  }

  /** The pairs follow the draws, entity by entity: `choices` says which entity got which pair. */
  ghost predicate PairsFollow(c: Masking, row: seq<Position>, masked: seq<Position>, types: seq<nat>,
                              choices: seq<Option<Pair>>, pairs: seq<Pair>, stream: nat -> real, start: nat) {
    && |choices| <= |types| && pairs == Chosen(choices)
    && forall n :: 0 <= n < |choices| ==>
         PairFollows(c, row, masked, types[n], choices[n], stream, PairCursor(c, row, masked, types, stream, start, n))
  }

  function Chosen(choices: seq<Option<Pair>>): seq<Pair> {
    if choices == [] then []
    else
      var last := choices[|choices| - 1];
      Chosen(choices[..|choices| - 1]) + if last.Some? then [last.value] else []
  }

  lemma OneMoreChoice(c: Masking, row: seq<Position>, masked: seq<Position>, types: seq<nat>,
                      choices: seq<Option<Pair>>, pairs: seq<Pair>, choice: Option<Pair>, stream: nat -> real,
                      start: nat)
    requires PairsFollow(c, row, masked, types, choices, pairs, stream, start) && |choices| < |types|
    requires PairFollows(c, row, masked, types[|choices|], choice, stream,
                         PairCursor(c, row, masked, types, stream, start, |choices|))
    ensures PairsFollow(c, row, masked, types, choices + [choice],
                        pairs + if choice.Some? then [choice.value] else [], stream, start)
  {
    assert (choices + [choice])[..|choices|] == choices;
  }

  /** The pairs of the first `n` entities. */
  ghost predicate PairedUpTo(c: Masking, row: seq<Position>, masked: seq<Position>, b: nat, types: seq<nat>, n: nat,
                             pairs: seq<Pair>)
    requires n <= |types|
  {
    && PairsOfRow(c.layout, row, masked, b, pairs) && (pairs != [] ==> c.pairProbability >= 0.0)
    && (forall m :: 0 <= m < |pairs| ==> row[pairs[m].first].entityType in types[..n])
    && (c.pairProbability >= 1.0 ==> AllPaired(c.layout, row, masked, pairs, types[..n]))
  }

  lemma OneMorePaired(c: Masking, row: seq<Position>, masked: seq<Position>, b: nat, types: seq<nat>, n: nat,
                      pairs: seq<Pair>, pair: Option<Pair>)
    requires Distinct(types) && n < |types| && PairedUpTo(c, row, masked, b, types, n, pairs)
    requires pair.Some? ==>
               && pair.value.b == b && ValidPair(c.layout, row, masked, pair.value)
               && row[pair.value.first].entityType == types[n] && c.pairProbability >= 0.0
    requires c.pairProbability >= 1.0 && TwoCandidates(c.layout, row, masked, types[n]) ==> pair.Some?
    ensures PairedUpTo(c, row, masked, b, types, n + 1, pairs + if pair.Some? then [pair.value] else [])
  {
    assert types[..n + 1] == types[..n] + [types[n]];
    assert types[n] !in types[..n];
    if pair.Some? {
      AddPair(c.layout, row, masked, b, pairs, types[..n], pair.value, types[n]);
    } else {
      assert pairs + [] == pairs;
    }
  }

  method PairRow(c: Masking, row: seq<Position>, masked: seq<Position>, b: nat,
                 rng: RandomSource) returns (pairs: seq<Pair>, ghost choices: seq<Option<Pair>>)
    modifies rng
    ensures PairsOfRow(c.layout, row, masked, b, pairs)
    ensures pairs != [] ==> c.pairProbability >= 0.0
    ensures c.pairProbability >= 1.0 ==> forall t :: TwoCandidates(c.layout, row, masked, t) ==> HasPair(row, pairs, t)
    ensures var types := EntityTypesOf(c.layout, row);
            && |choices| == |types| && PairsFollow(c, row, masked, types, choices, pairs, rng.stream, old(rng.used))
            && rng.used == PairCursor(c, row, masked, types, rng.stream, old(rng.used), |types|)
  {
    pairs, choices := [], [];
    var types := EntityTypesOf(c.layout, row);
    for n := 0 to |types|
      invariant |choices| == n && PairedUpTo(c, row, masked, b, types, n, pairs)
      invariant PairsFollow(c, row, masked, types, choices, pairs, rng.stream, old(rng.used))
      invariant rng.used == PairCursor(c, row, masked, types, rng.stream, old(rng.used), n)
    {
      var pair := PairEntity(c, row, masked, types[n], b, rng);
      OneMoreChoice(c, row, masked, types, choices, pairs, pair, rng.stream, old(rng.used));
      OneMorePaired(c, row, masked, b, types, n, pairs, pair);
      choices := choices + [pair];
      pairs := pairs + if pair.Some? then [pair.value] else [];
    }
    EveryPairableIsPaired(c, row, masked, b, types, pairs);
  }

  lemma EveryPairableIsPaired(c: Masking, row: seq<Position>, masked: seq<Position>, b: nat, types: seq<nat>,
                              pairs: seq<Pair>)
    requires types == EntityTypesOf(c.layout, row) && PairedUpTo(c, row, masked, b, types, |types|, pairs)
    ensures c.pairProbability >= 1.0 ==> forall t :: TwoCandidates(c.layout, row, masked, t) ==> HasPair(row, pairs, t)
  {
    assert types[..|types|] == types;
    forall t | TwoCandidates(c.layout, row, masked, t)
      ensures t in types
    {
      PairableTypesAreListed(c.layout, row, masked, types, t);
    }
  }

  // ---- the batch -------------------------------------------------------------------------------------------

  /** What the builder made of one row. */
  datatype RowResult = RowResult(masked: seq<Position>, targets: seq<Targets>, links: seq<bool>, genuine: seq<real>,
                                 pairs: seq<Pair>)

  ghost predicate IsRowResult(c: Masking, row: seq<Position>, b: nat, r: RowResult) {
    && WellFormedRow(c.layout, row)
    && RowOutcome(c, row, r.masked, r.targets, r.links, r.genuine)
    && PairsOfRow(c.layout, row, r.masked, b, r.pairs) && (r.pairs != [] ==> c.pairProbability >= 0.0)
    && (c.pairProbability >= 1.0 ==> forall t :: TwoCandidates(c.layout, row, r.masked, t) ==> HasPair(row, r.pairs, t))
  }

  ghost predicate FollowSomeChoices(c: Masking, row: seq<Position>, masked: seq<Position>, types: seq<nat>,
                                    pairs: seq<Pair>, stream: nat -> real, start: nat) {
    exists choices :: |choices| == |types| && PairsFollow(c, row, masked, types, choices, pairs, stream, start)
  }

  /** How the result of a row follows from the draws `start` to `end`: first the masks, then the links, then the
      pairs. */
  ghost predicate RowFollows(c: Masking, row: seq<Position>, r: RowResult, stream: nat -> real, start: nat, end: nat) {
    var types := EntityTypesOf(c.layout, row);
    var links := MaskCursor(c, row, start, |row|);
    var pairs := LinkCursor(c, row, stream, links, |row|);
    && RowMaskFollows(c, row, r.targets, stream, start)
    && RowLinksFollow(c, row, r.masked, r.genuine, stream, links)
    && FollowSomeChoices(c, row, r.masked, types, r.pairs, stream, pairs)
    && end == PairCursor(c, row, r.masked, types, stream, pairs, |types|)
  }

  /** Row after row, each from where the one before stopped. */
  ghost predicate RowsFollow(c: Masking, rows: seq<seq<Position>>, results: seq<RowResult>, stream: nat -> real,
                             cursors: seq<nat>) {
    && |cursors| == |results| + 1 && |results| <= |rows|
    && forall b :: 0 <= b < |results| ==> RowFollows(c, rows[b], results[b], stream, cursors[b], cursors[b + 1])
  }

  lemma OneMoreRowFollows(c: Masking, rows: seq<seq<Position>>, results: seq<RowResult>, r: RowResult,
                          stream: nat -> real, cursors: seq<nat>, end: nat)
    requires RowsFollow(c, rows, results, stream, cursors) && |results| < |rows|
    requires RowFollows(c, rows[|results|], r, stream, cursors[|results|], end)
    ensures RowsFollow(c, rows, results + [r], stream, cursors + [end])
  {
    hide RowFollows;
    var more, ends := results + [r], cursors + [end];
    forall b | 0 <= b < |more|
      ensures RowFollows(c, rows[b], more[b], stream, ends[b], ends[b + 1])
    {
      if b < |results| {
        assert more[b] == results[b] && ends[b] == cursors[b] && ends[b + 1] == cursors[b + 1];
      }
    }
  }

  ghost predicate AreRowResults(c: Masking, rows: seq<seq<Position>>, results: seq<RowResult>) {
    |results| <= |rows| && forall b :: 0 <= b < |results| ==> IsRowResult(c, rows[b], b, results[b])
  }

  lemma OneMoreResult(c: Masking, rows: seq<seq<Position>>, results: seq<RowResult>, r: RowResult)
    requires AreRowResults(c, rows, results) && |results| < |rows| && IsRowResult(c, rows[|results|], |results|, r)
    ensures AreRowResults(c, rows, results + [r])
  {
  }

  ghost function AllPairs(results: seq<RowResult>): seq<Pair> {
    if results == [] then [] else AllPairs(results[..|results| - 1]) + results[|results| - 1].pairs
  }

  lemma ErasedStructure(c: Masking, row: seq<Position>, masked: seq<Position>, targets: seq<Targets>)
    requires WellFormedRow(c.layout, row) && Masked(c, row, masked, targets)
    ensures forall s :: 0 <= s < |masked| ==> SameStructure(masked[s], row[s])
  {
  }

  method BuildRow(c: Masking, row: seq<Position>, masked: array2<Position>, targets: array2<Targets>,
                  links: array2<bool>,
                  genuine: array2<real>, b: nat, rng: RandomSource) returns (pairs: seq<Pair>)
    requires ValidLayout(c.layout) && WellFormedRow(c.layout, row)
    requires b < masked.Length0 && b < targets.Length0 && b < links.Length0 && b < genuine.Length0
    requires masked.Length1 == targets.Length1 == links.Length1 == genuine.Length1 == |row|
    modifies rng, masked, targets, links, genuine
    ensures OtherRowsKept(masked, b) && OtherRowsKept(targets, b) && OtherRowsKept(links, b)
            && OtherRowsKept(genuine, b)
    ensures IsRowResult(c, row, b,
                        RowResult(RowOf(masked, b), RowOf(targets, b), RowOf(links, b), RowOf(genuine, b), pairs))
    ensures RowFollows(c, row,
                       RowResult(RowOf(masked, b), RowOf(targets, b), RowOf(links, b), RowOf(genuine, b), pairs),
                       rng.stream, old(rng.used), rng.used)
  {
    MaskRow(c, row, masked, targets, b, rng);
    ghost var afterMasking, rowTargets := RowOf(masked, b), RowOf(targets, b);
    ErasedStructure(c, row, afterMasking, rowTargets);
    CorruptRow(c, row, masked, links, genuine, b, rng);
    MaskedAndLinked(c, row, afterMasking, rowTargets, RowOf(masked, b), RowOf(links, b), RowOf(genuine, b));
    ghost var choices;
    pairs, choices := PairRow(c, row, RowOf(masked, b), b, rng);
  }

  /** The first rows of the tensors hold the results. */
  ghost predicate AreStored(masked: array2<Position>, targets: array2<Targets>, links: array2<bool>,
                            genuine: array2<real>, results: seq<RowResult>)
    reads masked, targets, links, genuine
  {
    && |results| <= masked.Length0 == targets.Length0 == links.Length0 == genuine.Length0
    && (forall b :: 0 <= b < |results| ==> RowOf(masked, b) == results[b].masked)
    && (forall b :: 0 <= b < |results| ==> RowOf(targets, b) == results[b].targets)
    && (forall b :: 0 <= b < |results| ==> RowOf(links, b) == results[b].links)
    && (forall b :: 0 <= b < |results| ==> RowOf(genuine, b) == results[b].genuine)
  }

  method BuildNextRow(c: Masking, row: seq<Position>, masked: array2<Position>, targets: array2<Targets>,
                      links: array2<bool>, genuine: array2<real>, b: nat, ghost results: seq<RowResult>,
                      rng: RandomSource)
    returns (pairs: seq<Pair>, ghost r: RowResult)
    requires ValidLayout(c.layout) && WellFormedRow(c.layout, row)
    requires AreStored(masked, targets, links, genuine, results) && |results| == b < masked.Length0
    requires masked.Length1 == targets.Length1 == links.Length1 == genuine.Length1 == |row|
    modifies rng, masked, targets, links, genuine
    ensures IsRowResult(c, row, |results|, r) && r.pairs == pairs
    ensures RowFollows(c, row, r, rng.stream, old(rng.used), rng.used)
    ensures AreStored(masked, targets, links, genuine, results + [r])
  {
    hide IsRowResult, RowFollows;
    pairs := BuildRow(c, row, masked, targets, links, genuine, b, rng);
    r := RowResult(RowOf(masked, b), RowOf(targets, b), RowOf(links, b), RowOf(genuine, b), pairs);
  }

  function RowsOf(grid: array2<Position>): (rows: seq<seq<Position>>)
    reads grid
    ensures |rows| == grid.Length0 && forall b :: 0 <= b < |rows| ==> rows[b] == RowOf(grid, b)
  {
    seq(grid.Length0, b requires 0 <= b < grid.Length0 reads grid => RowOf(grid, b))
  }

  method BuildRows(c: Masking, rows: seq<seq<Position>>, masked: array2<Position>, targets: array2<Targets>,
                   links: array2<bool>, genuine: array2<real>, rng: RandomSource)
    returns (pairs: seq<Pair>, ghost results: seq<RowResult>, ghost cursors: seq<nat>)
    requires ValidLayout(c.layout)
    requires masked.Length0 == targets.Length0 == links.Length0 == genuine.Length0 == |rows|
    requires masked.Length1 == targets.Length1 == links.Length1 == genuine.Length1
    requires forall b :: 0 <= b < |rows| ==> WellFormedRow(c.layout, rows[b]) && |rows[b]| == masked.Length1
    modifies rng, masked, targets, links, genuine
    ensures |results| == |rows| && AreRowResults(c, rows, results)
    ensures RowsFollow(c, rows, results, rng.stream, cursors)
    ensures cursors[0] == old(rng.used) && cursors[|results|] == rng.used
    ensures AreStored(masked, targets, links, genuine, results) && pairs == AllPairs(results)
  {
    pairs, results, cursors := [], [], [rng.used];
    for b := 0 to |rows|
      invariant |results| == b && AreRowResults(c, rows, results) && pairs == AllPairs(results)
      invariant RowsFollow(c, rows, results, rng.stream, cursors)
      invariant cursors[0] == old(rng.used) && cursors[b] == rng.used
      invariant AreStored(masked, targets, links, genuine, results)
    {
      var rowPairs;
      ghost var r;
      rowPairs, r := BuildNextRow(c, rows[b], masked, targets, links, genuine, b, results, rng);
      OneMoreResult(c, rows, results, r);
      OneMoreRowFollows(c, rows, results, r, rng.stream, cursors, rng.used);
      cursors := cursors + [rng.used];
      assert (results + [r])[..|results|] == results;
      results := results + [r];
      pairs := pairs + rowPairs;
    }
  }

  /** Builds the masked batch and its targets from fresh tensors; the original batch is only read. */
  method BuildPretrainingBatch(c: Masking, grid: array2<Position>, rng: RandomSource)
    returns (masked: array2<Position>, targets: array2<Targets>, links: array2<bool>, genuine: array2<real>,
             pairs: seq<Pair>, ghost results: seq<RowResult>, ghost cursors: seq<nat>)
    requires ValidLayout(c.layout)
    requires forall b :: 0 <= b < grid.Length0 ==> WellFormedRow(c.layout, RowOf(grid, b))
    modifies rng
    ensures AreRowResults(c, RowsOf(grid), results)
    ensures RowsFollow(c, RowsOf(grid), results, rng.stream, cursors) && cursors[0] == old(rng.used)
    ensures fresh(masked) && fresh(targets) && fresh(links) && fresh(genuine)
    ensures masked.Length0 == targets.Length0 == links.Length0 == genuine.Length0 == grid.Length0 == |results|
    ensures AreStored(masked, targets, links, genuine, results)
    ensures pairs == AllPairs(results)
  {
    masked := new Position[grid.Length0, grid.Length1](
      (i, j) requires 0 <= i < grid.Length0 && 0 <= j < grid.Length1 reads grid => grid[i, j]);
    targets := new Targets[grid.Length0, grid.Length1]((_, _) => NO_TARGETS);
    links := new bool[grid.Length0, grid.Length1]((_, _) => false);
    genuine := new real[grid.Length0, grid.Length1]((_, _) => 0.0);
    pairs, results, cursors := BuildRows(c, RowsOf(grid), masked, targets, links, genuine, rng);
  }

  // ---- what the batch guarantees ---------------------------------------------------------------------------

  /** A row as the encoder writes it can be used. */
  lemma EncodedRowsAreWellFormed(e: Encoder, k: nat, ex: Example, row: seq<Position>)
    requires ValidLayout(e.layout) && e.vocabSize >= 2 && IsRow(e, k, ex, row)
    ensures WellFormedRow(e.layout, row)
  {
    forall s | 0 <= s < |row|
      ensures WellFormed(e.layout, row[s])
    {
      if s > 0 {
        var i, j := EveryPositionIsASlot(k, |RelationOrder(e.layout)|, s);
        assert SlotWritten(e, k, ex, row, i, j);
      }
    }
  }

  /** Structure is never changed, and neither is anything at a position without a record. */
  lemma StructureIsKept(c: Masking, row: seq<Position>, b: nat, r: RowResult, s: nat)
    requires IsRowResult(c, row, b, r) && s < |row|
    ensures SameStructure(r.masked[s], row[s])
    ensures !row[s].attended ==>
              r.masked[s] == row[s] && r.targets[s] == NO_TARGETS && !r.links[s] && r.genuine[s] == 0.0
  {
    assert PositionOutcome(c, row, s, r.masked[s], r.targets[s], r.links[s], r.genuine[s]);
    if !row[s].attended {
      assert Erase(row[s], NO_TARGETS) == row[s];
    }
  }

  /** The position's cells have been replaced by those of another record. */
  predicate IsCorrupted(r: RowResult, s: nat)
    requires s < |r.links| == |r.genuine|
  {
    r.links[s] && r.genuine[s] == 0.0
  }

  /** At every other position: targets were present and unprotected fields of the record's entity and
      now look missing, and all remaining cells are as they were. */
  lemma NumericCellsAreMaskedOrKept(c: Masking, row: seq<Position>, b: nat, r: RowResult, s: nat, slot: nat)
    requires ValidLayout(c.layout) && IsRowResult(c, row, b, r) && s < |row| && slot < NUMERIC_SLOTS
             && !IsCorrupted(r, s)
    ensures Sized(r.masked[s]) && TargetsSized(r.targets[s])
    ensures if r.targets[s].numeric[slot] then
              && row[s].numericMask[slot] && !r.masked[s].numericMask[slot] && r.masked[s].numericValues[slot] == 0.0
              && var entity := c.layout.entityVocab[row[s].entityType];
                 entity in c.layout.schemas && slot < |c.layout.schemas[entity].numericFields|
                 && c.layout.schemas[entity].numericFields[slot] !in ProtectedFields(c, entity)
            else r.masked[s].numericMask[slot] == row[s].numericMask[slot]
                 && r.masked[s].numericValues[slot] == row[s].numericValues[slot]
  {
    assert PositionOutcome(c, row, s, r.masked[s], r.targets[s], r.links[s], r.genuine[s]);
  }

  lemma CategoricalCellsAreMaskedOrKept(c: Masking, row: seq<Position>, b: nat, r: RowResult, s: nat, slot: nat)
    requires ValidLayout(c.layout) && IsRowResult(c, row, b, r) && s < |row| && slot < CATEGORICAL_SLOTS
             && !IsCorrupted(r, s)
    ensures Sized(r.masked[s]) && TargetsSized(r.targets[s])
    ensures if r.targets[s].categorical[slot] then
              && row[s].categoricalMask[slot] && !r.masked[s].categoricalMask[slot]
                 && r.masked[s].categoricalIds[slot] == 0
              && var entity := c.layout.entityVocab[row[s].entityType];
                 entity in c.layout.schemas && slot < |c.layout.schemas[entity].categoricalFields|
                 && c.layout.schemas[entity].categoricalFields[slot] !in ProtectedFields(c, entity)
            else r.masked[s].categoricalMask[slot] == row[s].categoricalMask[slot]
                 && r.masked[s].categoricalIds[slot] == row[s].categoricalIds[slot]
  {
    assert PositionOutcome(c, row, s, r.masked[s], r.targets[s], r.links[s], r.genuine[s]);
  }

  lemma DatetimeCellsAreMaskedOrKept(c: Masking, row: seq<Position>, b: nat, r: RowResult, s: nat, slot: nat)
    requires ValidLayout(c.layout) && IsRowResult(c, row, b, r) && s < |row| && slot < DATETIME_SLOTS
             && !IsCorrupted(r, s)
    ensures Sized(r.masked[s]) && TargetsSized(r.targets[s])
    ensures if r.targets[s].datetime[slot] then
              && row[s].datetimeMask[slot] && !r.masked[s].datetimeMask[slot]
                 && r.masked[s].datetimeValues[slot] == NO_MOMENT
              && var entity := c.layout.entityVocab[row[s].entityType];
                 entity in c.layout.schemas && slot < |c.layout.schemas[entity].datetimeFields|
                 && c.layout.schemas[entity].datetimeFields[slot] !in ProtectedFields(c, entity)
            else r.masked[s].datetimeMask[slot] == row[s].datetimeMask[slot]
                 && r.masked[s].datetimeValues[slot] == row[s].datetimeValues[slot]
  {
    assert PositionOutcome(c, row, s, r.masked[s], r.targets[s], r.links[s], r.genuine[s]);
  }

  /** A corrupted link is a related record carrying exactly the original cells of another related record
      of the same example and of a different entity; the target record never is one. */
  lemma CorruptedLinksCarryAnotherEntity(c: Masking, row: seq<Position>, b: nat, r: RowResult,
                                         s: nat) returns (other: nat)
    requires IsRowResult(c, row, b, r) && s < |row| && IsCorrupted(r, s)
    ensures other < |row| && other != s && IsRelated(c.layout, row[s]) && IsRelated(c.layout, row[other])
    ensures row[other].entityType != row[s].entityType
    ensures r.masked[s] == WithContentOf(row[s], row[other])
  {
    assert PositionOutcome(c, row, s, r.masked[s], r.targets[s], r.links[s], r.genuine[s]);
    other :| IsCrossEntity(c.layout, row, s, other) && r.masked[s] == WithContentOf(row[s], row[other]);
  }

  // ---- a result with a chosen corruption --------------------------------------------------------

  /** The targets there can be: all eligible cells, unless nothing is ever masked. */
  function PossibleTarget(fields: seq<string>, protected: set<string>, mask: seq<bool>, probability: real): seq<bool> {
    seq(|mask|, i requires 0 <= i < |mask| => Eligible(fields, protected, mask, i) && probability > 0.0)
  }

  function PossibleTargets(c: Masking, p: Position): Targets
    requires p.entityType < |c.layout.entityVocab|
  {
    if HasSchema(c.layout, p) then
      var entity := c.layout.entityVocab[p.entityType];
      var schema, protected := c.layout.schemas[entity], ProtectedFields(c, entity);
      Targets(PossibleTarget(schema.numericFields, protected, p.numericMask, c.maskProbability),
              PossibleTarget(schema.categoricalFields, protected, p.categoricalMask, c.maskProbability),
              PossibleTarget(schema.datetimeFields, protected, p.datetimeMask, c.maskProbability))
    else NO_TARGETS
  }

  lemma PossibleTargetsAreValid(c: Masking, p: Position)
    requires WellFormed(c.layout, p)
    ensures TargetsSized(PossibleTargets(c, p)) && ValidTargets(c, p, PossibleTargets(c, p))
  {
  }

  /** An outcome at each position in which only `chosen` is corrupted, with `source`, unless every
      corruptible link has to be. */
  lemma OutcomeAt(c: Masking, row: seq<Position>, s: nat, chosen: nat, source: nat) returns (q: Position, genuine: real)
    requires WellFormedRow(c.layout, row) && s < |row| && c.corruptionProbability > 0.0
    requires IsCrossEntity(c.layout, row, chosen, source) && IsRelated(c.layout, row[chosen])
    ensures PositionOutcome(c, row, s, q, PossibleTargets(c, row[s]), IsRelated(c.layout, row[s]), genuine)
    ensures s == chosen ==> q == WithContentOf(row[s], row[source]) && genuine == 0.0
  {
    var t := PossibleTargets(c, row[s]);
    PossibleTargetsAreValid(c, row[s]);
    q, genuine := Erase(row[s], t), if IsRelated(c.layout, row[s]) then 1.0 else 0.0;
    if s == chosen {
      q, genuine := WithContentOf(row[s], row[source]), 0.0;
    } else if IsRelated(c.layout, row[s]) && exists other: nat :: IsCrossEntity(c.layout, row, s, other) {
      var other: nat :| IsCrossEntity(c.layout, row, s, other);
      if c.corruptionProbability >= 1.0 {
        q, genuine := WithContentOf(row[s], row[other]), 0.0;
      }
    }
  }

  lemma {:induction false} OutcomesUpTo(c: Masking, row: seq<Position>, n: nat, chosen: nat, source: nat)
    returns (masked: seq<Position>, targets: seq<Targets>, links: seq<bool>, genuine: seq<real>)
    requires WellFormedRow(c.layout, row) && n <= |row| && c.corruptionProbability > 0.0
    requires IsCrossEntity(c.layout, row, chosen, source) && IsRelated(c.layout, row[chosen])
    ensures |masked| == |targets| == |links| == |genuine| == n
    ensures forall s :: 0 <= s < n ==> PositionOutcome(c, row, s, masked[s], targets[s], links[s], genuine[s])
    ensures forall s :: 0 <= s < n ==> targets[s] == PossibleTargets(c, row[s])
    ensures chosen < n ==> masked[chosen] == WithContentOf(row[chosen], row[source]) && genuine[chosen] == 0.0
  {
    if n == 0 {
      masked, targets, links, genuine := [], [], [], [];
    } else {
      masked, targets, links, genuine := OutcomesUpTo(c, row, n - 1, chosen, source);
      var q, value := OutcomeAt(c, row, n - 1, chosen, source);
      masked, genuine := masked + [q], genuine + [value];
      targets, links := targets + [PossibleTargets(c, row[n - 1])], links + [IsRelated(c.layout, row[n - 1])];
    }
  }

  /** Pairs for all entities with two candidates. */
  lemma {:induction false} PairsUpTo(l: Layout, row: seq<Position>, masked: seq<Position>, b: nat, types: seq<nat>)
    returns (pairs: seq<Pair>)
    requires Distinct(types)
    ensures PairsOfRow(l, row, masked, b, pairs) && AllPaired(l, row, masked, pairs, types)
    ensures forall n :: 0 <= n < |pairs| ==> row[pairs[n].first].entityType in types
  {
    if types == [] {
      pairs := [];
    } else {
      var front, t := types[..|types| - 1], types[|types| - 1];
      assert types == front + [t];
      pairs := PairsUpTo(l, row, masked, b, front);
      if TwoCandidates(l, row, masked, t) {
        var s: nat, s': nat :| IsCandidate(l, row, masked, s) && IsCandidate(l, row, masked, s') && s != s'
                               && row[s].entityType == t && row[s'].entityType == t;
        var p := Pair(b, s, s', Earlier(row[s], row[s']));
        AddPair(l, row, masked, b, pairs, front, p, t);
        pairs := pairs + [p];
      }
    }
  }

  /** Some result of the row in which `chosen` is corrupted with `source`. */
  lemma SomeResult(c: Masking, row: seq<Position>, b: nat, chosen: nat, source: nat) returns (r: RowResult)
    requires WellFormedRow(c.layout, row) && c.corruptionProbability > 0.0
    requires IsCrossEntity(c.layout, row, chosen, source) && IsRelated(c.layout, row[chosen])
    ensures IsRowResult(c, row, b, r) && IsCorrupted(r, chosen)
    ensures r.masked[chosen] == WithContentOf(row[chosen], row[source])
    ensures forall s :: 0 <= s < |row| ==> r.targets[s] == PossibleTargets(c, row[s])
  {
    var masked, targets, links, genuine := OutcomesUpTo(c, row, |row|, chosen, source);
    var types := EntityTypesOf(c.layout, row);
    var pairs := PairsUpTo(c.layout, row, masked, b, types);
    forall t | TwoCandidates(c.layout, row, masked, t)
      ensures HasPair(row, pairs, t)
    {
      PairableTypesAreListed(c.layout, row, masked, types, t);
    }
    r := RowResult(masked, targets, links, genuine, if c.pairProbability >= 0.0 then pairs else []);
  }

  // ---- the pairs of the batch -----------------------------------------------------------------------------------

  lemma PairsOfOneRow(c: Masking, row: seq<Position>, b: nat, r: RowResult, m: nat, n: nat)
    requires IsRowResult(c, row, b, r) && m < n < |r.pairs|
    ensures r.pairs[m].first < |row| && r.pairs[n].first < |row|
    ensures row[r.pairs[m].first].entityType != row[r.pairs[n].first].entityType
  {
  }

  lemma ResultsWithoutLast(c: Masking, rows: seq<seq<Position>>, results: seq<RowResult>)
    requires AreRowResults(c, rows, results) && results != []
    ensures AreRowResults(c, rows, results[..|results| - 1])
    ensures IsRowResult(c, rows[|results| - 1], |results| - 1, results[|results| - 1])
  {
  }

  /** Each pair of the batch is a valid pair of the row it names. */
  lemma {:induction false} PairComesFromItsRow(c: Masking, rows: seq<seq<Position>>, results: seq<RowResult>, n: nat)
    requires AreRowResults(c, rows, results) && n < |AllPairs(results)|
    ensures var p := AllPairs(results)[n];
            p.b < |results| <= |rows| && ValidPair(c.layout, rows[p.b], results[p.b].masked, p)
  {
    var last := |results| - 1;
    ResultsWithoutLast(c, rows, results);
    if n < |AllPairs(results[..last])| {
      PairComesFromItsRow(c, rows, results[..last], n);
    }
  }

  ghost predicate DifferentEntities(rows: seq<seq<Position>>, p: Pair, q: Pair) {
    p.b == q.b && p.b < |rows| && p.first < |rows[p.b]| && q.first < |rows[q.b]| ==>
      rows[p.b][p.first].entityType != rows[q.b][q.first].entityType
  }

  lemma PairPosition(results: seq<RowResult>, n: nat)
    requires n < |AllPairs(results)|
    ensures results != []
    ensures var earlier := AllPairs(results[..|results| - 1]);
            if n < |earlier| then AllPairs(results)[n] == earlier[n]
            else n - |earlier| < |results[|results| - 1].pairs|
                 && AllPairs(results)[n] == results[|results| - 1].pairs[n - |earlier|]
  {
  }

  lemma {:induction false} PairNamesEarlierRow(c: Masking, rows: seq<seq<Position>>, results: seq<RowResult>, n: nat)
    requires AreRowResults(c, rows, results) && n < |AllPairs(results)|
    ensures AllPairs(results)[n].b < |results|
  {
    PairComesFromItsRow(c, rows, results, n);
  }

  lemma LastRowsPair(c: Masking, row: seq<Position>, b: nat, r: RowResult, n: nat)
    requires IsRowResult(c, row, b, r) && n < |r.pairs|
    ensures r.pairs[n].b == b
  {
  }

  /** No two temporal pairs concern the same entity of the same example. */
  lemma {:induction false} AtMostOnePairPerEntity(c: Masking, rows: seq<seq<Position>>, results: seq<RowResult>,
                                                  m: nat, n: nat)
    requires AreRowResults(c, rows, results) && m < n < |AllPairs(results)|
    ensures DifferentEntities(rows, AllPairs(results)[m], AllPairs(results)[n])
  {
    var last := |results| - 1;
    var before := |AllPairs(results[..last])|;
    PairPosition(results, m);
    PairPosition(results, n);
    ResultsWithoutLast(c, rows, results);
    if n < before {
      AtMostOnePairPerEntity(c, rows, results[..last], m, n);
    } else {
      LastRowsPair(c, rows[last], last, results[last], n - before);
      if m < before {
        PairNamesEarlierRow(c, rows, results[..last], m);
      } else {
        PairsOfOneRow(c, rows[last], last, results[last], m - before, n - before);
      }
    }
  }
}
