/** When a masked cell of a pretraining row cannot be read off elsewhere in that row. Link corruption copies
    original cells, masked or not. */
module MaskedValues {
  import opened TransformerSchema
  import opened Encoding
  import opened Pretraining

  predicate HasTarget(t: Targets) {
    true in t.numeric || true in t.categorical || true in t.datetime
  }

  /** The link at `s` is corrupted and shows the original cells of the record at `other`. */
  ghost predicate Shows(c: Masking, row: seq<Position>, r: RowResult, s: nat, other: nat)
    requires |r.masked| == |r.links| == |r.genuine| == |row|
  {
    && IsCrossEntity(c.layout, row, s, other) && IsCorrupted(r, s)
    && r.masked[s] == WithContentOf(row[s], row[other])
  }

  /** A shown record's targets are present with their original values. */
  lemma ShownTargetsReappear(c: Masking, row: seq<Position>, b: nat, r: RowResult, s: nat, other: nat, slot: nat)
    requires ValidLayout(c.layout) && IsRowResult(c, row, b, r) && Shows(c, row, r, s, other)
    ensures TargetsSized(r.targets[other]) && Sized(row[other]) && Sized(r.masked[s])
    ensures slot < NUMERIC_SLOTS && r.targets[other].numeric[slot] ==>
              r.masked[s].numericMask[slot] && r.masked[s].numericValues[slot] == row[other].numericValues[slot]
    ensures slot < CATEGORICAL_SLOTS && r.targets[other].categorical[slot] ==>
              r.masked[s].categoricalMask[slot] && r.masked[s].categoricalIds[slot] == row[other].categoricalIds[slot]
    ensures slot < DATETIME_SLOTS && r.targets[other].datetime[slot] ==>
              r.masked[s].datetimeMask[slot] && r.masked[s].datetimeValues[slot] == row[other].datetimeValues[slot]
  {
    assert PositionOutcome(c, row, other, r.masked[other], r.targets[other], r.links[other], r.genuine[other]);
  }

  predicate SomeEligible(fields: seq<string>, protected: set<string>, mask: seq<bool>) {
    exists i :: 0 <= i < |mask| && Eligible(fields, protected, mask, i)
  }

  /** Some cell of the record may be masked. */
  predicate IsMaskable(c: Masking, p: Position)
    requires p.entityType < |c.layout.entityVocab|
  {
    HasSchema(c.layout, p) &&
    var entity := c.layout.entityVocab[p.entityType];
    var schema, protected := c.layout.schemas[entity], ProtectedFields(c, entity);
    || SomeEligible(schema.numericFields, protected, p.numericMask)
    || SomeEligible(schema.categoricalFields, protected, p.categoricalMask)
    || SomeEligible(schema.datetimeFields, protected, p.datetimeMask)
  }

  lemma TargetsNeedMaskable(c: Masking, p: Position, t: Targets)
    requires WellFormed(c.layout, p) && ValidTargets(c, p, t) && HasTarget(t)
    ensures c.maskProbability > 0.0 && IsMaskable(c, p)
  {
    if true in t.numeric {
      var i :| 0 <= i < |t.numeric| && t.numeric[i];
    } else if true in t.categorical {
      var i :| 0 <= i < |t.categorical| && t.categorical[i];
    } else {
      var i :| 0 <= i < |t.datetime| && t.datetime[i];
    }
  }

  lemma MaskableHasTarget(c: Masking, p: Position)
    requires WellFormed(c.layout, p) && c.maskProbability > 0.0 && IsMaskable(c, p)
    ensures HasTarget(PossibleTargets(c, p))
  {
    var t := PossibleTargets(c, p);
    var entity := c.layout.entityVocab[p.entityType];
    var schema, protected := c.layout.schemas[entity], ProtectedFields(c, entity);
    if i :| 0 <= i < |p.numericMask| && Eligible(schema.numericFields, protected, p.numericMask, i) {
      assert t.numeric[i];
    } else if i :| 0 <= i < |p.categoricalMask| && Eligible(schema.categoricalFields, protected, p.categoricalMask, i) {
      assert t.categorical[i];
    } else {
      var i :| 0 <= i < |p.datetimeMask| && Eligible(schema.datetimeFields, protected, p.datetimeMask, i);
      assert t.datetime[i];
    }
  }

  /** Whatever is drawn for the row, no record with a masked cell is shown at another link. */
  ghost predicate MaskedCellsStayHidden(c: Masking, row: seq<Position>) {
    forall b: nat, r: RowResult, s: nat, other: nat ::
      IsRowResult(c, row, b, r) && Shows(c, row, r, s, other) ==> !HasTarget(r.targets[other])
  }

  /** A related record whose link can take the cells of a maskable record of another entity. */
  predicate CanShow(c: Masking, row: seq<Position>, s: nat, other: nat)
    requires forall i :: 0 <= i < |row| ==> row[i].entityType < |c.layout.entityVocab|
  {
    IsCrossEntity(c.layout, row, s, other) && IsRelated(c.layout, row[s]) && IsMaskable(c, row[other])
  }

  /** Masked cells stay hidden in their row, whatever is drawn, if and only if nothing is ever masked, no
      link is ever corrupted, or no related record with a maskable cell has one of another entity. */
  lemma MaskedCellsStayHiddenExactlyWhen(c: Masking, row: seq<Position>)
    requires ValidLayout(c.layout) && WellFormedRow(c.layout, row)
    ensures MaskedCellsStayHidden(c, row)
            <==> c.maskProbability <= 0.0 || c.corruptionProbability <= 0.0
                 || forall s: nat, other: nat :: !CanShow(c, row, s, other)
  {
    if c.maskProbability > 0.0 && c.corruptionProbability > 0.0
      && exists s: nat, other: nat :: CanShow(c, row, s, other) {
      var s: nat, other: nat :| CanShow(c, row, s, other);
      var r := SomeResult(c, row, 0, s, other);
      MaskableHasTarget(c, row[other]);
      assert Shows(c, row, r, s, other) && HasTarget(r.targets[other]);
    } else {
      forall b: nat, r: RowResult, s: nat, other: nat | IsRowResult(c, row, b, r) && Shows(c, row, r, s, other)
        ensures !HasTarget(r.targets[other])
      {
        if HasTarget(r.targets[other]) {
          assert PositionOutcome(c, row, s, r.masked[s], r.targets[s], r.links[s], r.genuine[s]);
          assert PositionOutcome(c, row, other, r.masked[other], r.targets[other], r.links[other], r.genuine[other]);
          TargetsNeedMaskable(c, row[other], r.targets[other]);
          assert CanShow(c, row, s, other);
        }
      }
    }
  }
}
