/** How the draws decide about a pretraining row: which draw belongs to which cell, and that nothing else
    has a say. */
module MaskingDraws {
  import opened Common
  import opened TransformerSchema
  import opened Encoding
  import opened RandomDraws
  import opened Pretraining

  // ---- the cells of a record ----------------------------------------------------------------------

  datatype Kind = Numeric | Categorical | Datetime

  function FieldsOf(c: Masking, p: Position, kind: Kind): seq<string>
    requires HasSchemaOf(c, p)
  {
    var schema := c.layout.schemas[c.layout.entityVocab[p.entityType]];
    match kind
    case Numeric => schema.numericFields
    case Categorical => schema.categoricalFields
    case Datetime => schema.datetimeFields
  }

  function MaskOf(p: Position, kind: Kind): seq<bool> {
    match kind
    case Numeric => p.numericMask
    case Categorical => p.categoricalMask
    case Datetime => p.datetimeMask
  }

  function TargetOf(t: Targets, kind: Kind): seq<bool> {
    match kind
    case Numeric => t.numeric
    case Categorical => t.categorical
    case Datetime => t.datetime
  }

  /** The record has an unprotected, present field in that slot. */
  predicate MayBeMasked(c: Masking, p: Position, kind: Kind, slot: nat) {
    && HasSchemaOf(c, p)
    && Eligible(FieldsOf(c, p, kind), ProtectedFields(c, c.layout.entityVocab[p.entityType]), MaskOf(p, kind), slot)
  }

  /** Where in a record's draws the one for a cell lies. */
  function OffsetOf(c: Masking, p: Position, kind: Kind, slot: nat): nat
    requires HasSchemaOf(c, p)
  {
    (match kind
     case Numeric => 0
     case Categorical => NumericDraws(c, p)
     case Datetime => NumericDraws(c, p) + CategoricalDraws(c, p))
    + EligibleBefore(FieldsOf(c, p, kind), ProtectedFields(c, c.layout.entityVocab[p.entityType]), MaskOf(p, kind),
                     slot)
  }

  /** Which draw decides about a cell of position `s`, for a row whose draws begin at `start`. */
  function DrawFor(c: Masking, row: seq<Position>, start: nat, s: nat, kind: Kind, slot: nat): nat
    requires s < |row| && HasSchemaOf(c, row[s])
  {
    MaskCursor(c, row, start, s) + OffsetOf(c, row[s], kind, slot)
  }

  /** What a result is at one position, and how it follows from the draws. */
  lemma PositionFollows(c: Masking, row: seq<Position>, b: nat, r: RowResult, stream: nat -> real, start: nat, end: nat,
                        s: nat)
    requires IsRowResult(c, row, b, r) && RowFollows(c, row, r, stream, start, end) && s < |row|
    ensures WellFormed(c.layout, row[s])
    ensures |r.masked| == |r.targets| == |r.links| == |r.genuine| == |row|
    ensures TargetsSized(r.targets[s]) && ValidTargets(c, row[s], r.targets[s])
    ensures LinkOutcome(c, row, s, Erase(row[s], r.targets[s]), r.masked[s], r.links[s], r.genuine[s])
    ensures MaskFollows(c, row[s], r.targets[s], stream, MaskCursor(c, row, start, s))
    ensures LinkFollows(c, row, s, r.masked[s], r.genuine[s], stream, LinkStart(c, row, stream, start, s))
  {
    assert PositionOutcome(c, row, s, r.masked[s], r.targets[s], r.links[s], r.genuine[s]);
  }

  /** Where the draws for the link at `s` begin: after all masking of the row and the links before. */
  function LinkStart(c: Masking, row: seq<Position>, stream: nat -> real, start: nat, s: nat): nat
    requires s <= |row|
  {
    LinkCursor(c, row, stream, MaskCursor(c, row, start, |row|), s)
  }

  lemma MaskFollowsAt(c: Masking, row: seq<Position>, r: RowResult, stream: nat -> real, start: nat, end: nat, s: nat)
    requires RowFollows(c, row, r, stream, start, end) && s < |row| && s < |r.targets|
    ensures MaskFollows(c, row[s], r.targets[s], stream, MaskCursor(c, row, start, s))
  {
  }

  lemma TargetsValidAt(c: Masking, row: seq<Position>, b: nat, r: RowResult, s: nat)
    requires IsRowResult(c, row, b, r) && s < |row|
    ensures WellFormed(c.layout, row[s]) && s < |r.targets|
    ensures TargetsSized(r.targets[s]) && ValidTargets(c, row[s], r.targets[s])
  {
    assert PositionOutcome(c, row, s, r.masked[s], r.targets[s], r.links[s], r.genuine[s]);
  }

  lemma TargetInRecord(c: Masking, p: Position, t: Targets, stream: nat -> real, n: nat, kind: Kind, slot: nat)
    requires WellFormed(c.layout, p) && TargetsSized(t) && ValidTargets(c, p, t) && MaskFollows(c, p, t, stream, n)
    requires slot < |MaskOf(p, kind)|
    ensures slot < |TargetOf(t, kind)|
    ensures TargetOf(t, kind)[slot]
            <==> MayBeMasked(c, p, kind, slot) && Draw(stream, n + OffsetOf(c, p, kind, slot)) < c.maskProbability
  {
    hide ValidTargets, Eligible, EligibleBefore;
    if !HasSchema(c.layout, p) {
      NoTargets(c, p, t);
    }
  }

  lemma NoTargets(c: Masking, p: Position, t: Targets)
    requires WellFormed(c.layout, p) && ValidTargets(c, p, t) && !HasSchema(c.layout, p)
    ensures t == NO_TARGETS
  {
  }

  /** A cell is a target if and only if it may be masked and its draw lies below the mask probability. */
  lemma TargetExactlyWhenDrawn(c: Masking, row: seq<Position>, b: nat, r: RowResult, stream: nat -> real, start: nat,
                               end: nat, s: nat, kind: Kind, slot: nat)
    requires IsRowResult(c, row, b, r) && RowFollows(c, row, r, stream, start, end)
    requires s < |row| && slot < |MaskOf(row[s], kind)|
    ensures s < |r.targets| && slot < |TargetOf(r.targets[s], kind)|
    ensures TargetOf(r.targets[s], kind)[slot]
            <==> MayBeMasked(c, row[s], kind, slot)
                 && Draw(stream, DrawFor(c, row, start, s, kind, slot)) < c.maskProbability
  {
    hide IsRowResult, RowFollows, ValidTargets, MaskFollows, MayBeMasked;
    TargetsValidAt(c, row, b, r, s);
    MaskFollowsAt(c, row, r, stream, start, end, s);
    TargetInRecord(c, row[s], r.targets[s], stream, MaskCursor(c, row, start, s), kind, slot);
  }

  /** When every draw lies below the mask probability, the targets are exactly the cells that may be masked;
      when none does, there are none. */
  lemma UniformDrawsMaskAllOrNothing(c: Masking, row: seq<Position>, b: nat, r: RowResult, stream: nat -> real,
                                     start: nat, end: nat, s: nat, kind: Kind, slot: nat)
    requires IsRowResult(c, row, b, r) && RowFollows(c, row, r, stream, start, end)
    requires s < |row| && slot < |MaskOf(row[s], kind)|
    ensures s < |r.targets| && slot < |TargetOf(r.targets[s], kind)|
    ensures (forall n: nat :: Draw(stream, n) < c.maskProbability) ==>
              (TargetOf(r.targets[s], kind)[slot] <==> MayBeMasked(c, row[s], kind, slot))
    ensures (forall n: nat :: Draw(stream, n) >= c.maskProbability) ==> !TargetOf(r.targets[s], kind)[slot]
  {
    TargetExactlyWhenDrawn(c, row, b, r, stream, start, end, s, kind, slot);
  }

  // ---- no draw is used twice ------------------------------------------------------------------------

  lemma {:induction false} EligibleGrows(fields: seq<string>, protected: set<string>, mask: seq<bool>, slot: nat,
                                         later: nat)
    requires slot < later && Eligible(fields, protected, mask, slot)
    ensures EligibleBefore(fields, protected, mask, slot) < EligibleBefore(fields, protected, mask, later)
    decreases later
  {
    if slot < later - 1 {
      EligibleGrows(fields, protected, mask, slot, later - 1);
    }
  }

  lemma {:induction false} CursorGrows(c: Masking, row: seq<Position>, start: nat, s: nat, later: nat)
    requires s <= later <= |row|
    ensures MaskCursor(c, row, start, s) <= MaskCursor(c, row, start, later)
    decreases later
  {
    if s < later {
      CursorGrows(c, row, start, s, later - 1);
    }
  }

  lemma DrawLiesInPosition(c: Masking, row: seq<Position>, start: nat, s: nat, kind: Kind, slot: nat)
    requires s < |row| && MayBeMasked(c, row[s], kind, slot)
    ensures MaskCursor(c, row, start, s) <= DrawFor(c, row, start, s, kind, slot) < MaskCursor(c, row, start, s + 1)
    ensures kind.Numeric? ==>
              DrawFor(c, row, start, s, kind, slot) < MaskCursor(c, row, start, s) + NumericDraws(c, row[s])
    ensures kind.Categorical? ==>
              DrawFor(c, row, start, s, kind, slot)
              < MaskCursor(c, row, start, s) + NumericDraws(c, row[s]) + CategoricalDraws(c, row[s])
  {
    var fields := FieldsOf(c, row[s], kind);
    EligibleGrows(fields, ProtectedFields(c, c.layout.entityVocab[row[s].entityType]), MaskOf(row[s], kind), slot,
                  |fields|);
  }

  /** Different cells take different draws. */
  lemma CellsTakeDifferentDraws(c: Masking, row: seq<Position>, start: nat, s: nat, kind: Kind, slot: nat, s': nat,
                                kind': Kind, slot': nat)
    requires s < |row| && MayBeMasked(c, row[s], kind, slot)
    requires s' < |row| && MayBeMasked(c, row[s'], kind', slot')
    ensures DrawFor(c, row, start, s, kind, slot) == DrawFor(c, row, start, s', kind', slot')
            <==> s == s' && kind == kind' && slot == slot'
  {
    DrawLiesInPosition(c, row, start, s, kind, slot);
    DrawLiesInPosition(c, row, start, s', kind', slot');
    if s < s' {
      CursorGrows(c, row, start, s + 1, s');
    } else if s' < s {
      CursorGrows(c, row, start, s' + 1, s);
    } else if kind == kind' {
      var fields, mask := FieldsOf(c, row[s], kind), MaskOf(row[s], kind);
      var protected := ProtectedFields(c, c.layout.entityVocab[row[s].entityType]);
      if slot < slot' {
        EligibleGrows(fields, protected, mask, slot, slot');
      } else if slot' < slot {
        EligibleGrows(fields, protected, mask, slot', slot);
      }
    }
  }

  // ---- the links and pairs --------------------------------------------------------------------------

  /** The position at `s` has the content of the one of `others` that the n-th draw chooses. */
  predicate HasContentOf(row: seq<Position>, s: nat, q: Position, others: seq<nat>, stream: nat -> real, n: nat)
    requires s < |row|
  {
    others != [] && var other := others[Choice(stream, n, |others|)];
                    other < |row| && q == WithContentOf(row[s], row[other])
  }

  lemma LinkAt(c: Masking, row: seq<Position>, s: nat, masked: Position, q: Position, link: bool, genuine: real,
               stream: nat -> real, n: nat)
    requires s < |row| && IsRelated(c.layout, row[s])
    requires LinkOutcome(c, row, s, masked, q, link, genuine) && LinkFollows(c, row, s, q, genuine, stream, n)
    ensures var others := CrossEntities(c.layout, row, s);
            && link
            && (genuine == 0.0 <==> Draw(stream, n) < c.corruptionProbability && others != [])
            && (genuine == 0.0 ==> HasContentOf(row, s, q, others, stream, n + 1))
            && (genuine != 0.0 ==> q == masked && genuine == 1.0)
  {
  }

  lemma SomeCrossEntity(l: Layout, row: seq<Position>, s: nat)
    ensures CrossEntities(l, row, s) != [] <==> exists other: nat :: IsCrossEntity(l, row, s, other)
  {
    var others := CrossEntities(l, row, s);
    if other: nat :| IsCrossEntity(l, row, s, other) {
      assert other in others;
    }
    if others != [] {
      assert others[0] in others;
    }
  }

  /** A related record's link is corrupted if and only if its draw lies below the corruption probability and
      the row has a related record of another entity; the next draw chooses among those. */
  lemma CorruptedExactlyWhenDrawn(c: Masking, row: seq<Position>, b: nat, r: RowResult, stream: nat -> real, start: nat,
                                  end: nat, s: nat)
    requires IsRowResult(c, row, b, r) && RowFollows(c, row, r, stream, start, end)
    requires s < |row| && IsRelated(c.layout, row[s])
    ensures |r.masked| == |r.links| == |r.genuine| == |row|
    ensures IsCorrupted(r, s)
            <==> && Draw(stream, LinkStart(c, row, stream, start, s)) < c.corruptionProbability
                 && exists other: nat :: IsCrossEntity(c.layout, row, s, other)
    ensures IsCorrupted(r, s) ==> HasContentOf(row, s, r.masked[s], CrossEntities(c.layout, row, s), stream,
                                               LinkStart(c, row, stream, start, s) + 1)
  {
    hide IsRowResult, RowFollows;
    PositionFollows(c, row, b, r, stream, start, end, s);
    LinkAt(c, row, s, Erase(row[s], r.targets[s]), r.masked[s], r.links[s], r.genuine[s], stream,
           LinkStart(c, row, stream, start, s));
    SomeCrossEntity(c.layout, row, s);
  }

  // ---- nothing but the draws ------------------------------------------------------------------------

  lemma TargetsAreDecided(c: Masking, p: Position, t: Targets, t': Targets, stream: nat -> real, n: nat)
    requires WellFormed(c.layout, p) && TargetsSized(t) && TargetsSized(t')
    requires ValidTargets(c, p, t) && MaskFollows(c, p, t, stream, n)
    requires ValidTargets(c, p, t') && MaskFollows(c, p, t', stream, n)
    ensures t == t'
  {
    forall kind, slot: nat | slot < |MaskOf(p, kind)|
      ensures slot < |TargetOf(t, kind)| && slot < |TargetOf(t', kind)|
      ensures TargetOf(t, kind)[slot] == TargetOf(t', kind)[slot]
    {
      TargetInRecord(c, p, t, stream, n, kind, slot);
      TargetInRecord(c, p, t', stream, n, kind, slot);
    }
    assert TargetOf(t, Numeric) == TargetOf(t', Numeric);
    assert TargetOf(t, Categorical) == TargetOf(t', Categorical);
    assert TargetOf(t, Datetime) == TargetOf(t', Datetime);
  }

  lemma LinkIsDecided(c: Masking, row: seq<Position>, s: nat, masked: Position, q: Position, link: bool, genuine: real,
                      q': Position, link': bool, genuine': real, stream: nat -> real, n: nat)
    requires s < |row|
    requires LinkOutcome(c, row, s, masked, q, link, genuine) && LinkFollows(c, row, s, q, genuine, stream, n)
    requires LinkOutcome(c, row, s, masked, q', link', genuine') && LinkFollows(c, row, s, q', genuine', stream, n)
    ensures q == q' && link == link' && genuine == genuine'
  {
    if IsRelated(c.layout, row[s]) {
      LinkAt(c, row, s, masked, q, link, genuine, stream, n);
      LinkAt(c, row, s, masked, q', link', genuine', stream, n);
    }
  }

  lemma PositionIsDecided(c: Masking, row: seq<Position>, b: nat, r: RowResult, r': RowResult, stream: nat -> real,
                          start: nat, end: nat, end': nat, s: nat)
    requires IsRowResult(c, row, b, r) && RowFollows(c, row, r, stream, start, end)
    requires IsRowResult(c, row, b, r') && RowFollows(c, row, r', stream, start, end') && s < |row|
    ensures |r.masked| == |r.targets| == |r.links| == |r.genuine| == |row|
    ensures |r'.masked| == |r'.targets| == |r'.links| == |r'.genuine| == |row|
    ensures r.targets[s] == r'.targets[s] && r.masked[s] == r'.masked[s]
    ensures r.links[s] == r'.links[s] && r.genuine[s] == r'.genuine[s]
  {
    PositionFollows(c, row, b, r, stream, start, end, s);
    PositionFollows(c, row, b, r', stream, start, end', s);
    TargetsAreDecided(c, row[s], r.targets[s], r'.targets[s], stream, MaskCursor(c, row, start, s));
    LinkIsDecided(c, row, s, Erase(row[s], r.targets[s]), r.masked[s], r.links[s], r.genuine[s],
                  r'.masked[s], r'.links[s], r'.genuine[s], stream, LinkStart(c, row, stream, start, s));
  }

  /** Two choices of pairs of one row that follow the same draws are the same pairs. */
  lemma {:induction false} PairsAreDecided(c: Masking, row: seq<Position>, masked: seq<Position>, b: nat,
                                           types: seq<nat>, choices: seq<Option<Pair>>, choices': seq<Option<Pair>>,
                                           pairs: seq<Pair>, pairs': seq<Pair>, stream: nat -> real, start: nat)
    requires |choices| == |choices'| <= |types|
    requires PairsFollow(c, row, masked, types, choices, pairs, stream, start)
    requires PairsFollow(c, row, masked, types, choices', pairs', stream, start)
    requires forall p :: p in pairs ==> p.b == b && ValidPair(c.layout, row, masked, p)
    requires forall p :: p in pairs' ==> p.b == b && ValidPair(c.layout, row, masked, p)
    ensures pairs == pairs'
    decreases |choices|
  {
    if choices != [] {
      var n := |choices| - 1;
      var pair, pair' := choices[n], choices'[n];
      var front, front' := choices[..n], choices'[..n];
      assert PairFollows(c, row, masked, types[n], pair, stream, PairCursor(c, row, masked, types, stream, start, n));
      assert PairFollows(c, row, masked, types[n], pair', stream, PairCursor(c, row, masked, types, stream, start, n));
      PairsAreDecided(c, row, masked, b, types, front, front', Chosen(front), Chosen(front'), stream, start);
      if pair.Some? {
        assert pair.value in pairs && pair'.value in pairs';
      }
    }
  }

  lemma PairsOfRowAreDecided(c: Masking, row: seq<Position>, masked: seq<Position>, b: nat, types: seq<nat>,
                             pairs: seq<Pair>, pairs': seq<Pair>, stream: nat -> real, first: nat)
    requires PairsOfRow(c.layout, row, masked, b, pairs) && PairsOfRow(c.layout, row, masked, b, pairs')
    requires FollowSomeChoices(c, row, masked, types, pairs, stream, first)
    requires FollowSomeChoices(c, row, masked, types, pairs', stream, first)
    ensures pairs == pairs'
  {
    var choices: seq<Option<Pair>> :| |choices| == |types|
      && PairsFollow(c, row, masked, types, choices, pairs, stream, first);
    var choices': seq<Option<Pair>> :| |choices'| == |types|
      && PairsFollow(c, row, masked, types, choices', pairs', stream, first);
    PairsAreDecided(c, row, masked, b, types, choices, choices', pairs, pairs', stream, first);
  }

  /** The draws decide about everything: two results of one row that follow the same draws from the same
      place are equal and stop at the same draw. */
  lemma DrawsDecideRow(c: Masking, row: seq<Position>, b: nat, r: RowResult, r': RowResult, stream: nat -> real,
                       start: nat, end: nat, end': nat)
    requires IsRowResult(c, row, b, r) && RowFollows(c, row, r, stream, start, end)
    requires IsRowResult(c, row, b, r') && RowFollows(c, row, r', stream, start, end')
    ensures r == r' && end == end'
  {
    hide PairsOfRow, FollowSomeChoices, RowMaskFollows, RowLinksFollow;
    assert |r.masked| == |r.targets| == |r.links| == |r.genuine| == |row|;
    assert |r'.masked| == |r'.targets| == |r'.links| == |r'.genuine| == |row|;
    forall s | 0 <= s < |row|
      ensures r.targets[s] == r'.targets[s] && r.masked[s] == r'.masked[s]
      ensures r.links[s] == r'.links[s] && r.genuine[s] == r'.genuine[s]
    {
      PositionIsDecided(c, row, b, r, r', stream, start, end, end', s);
    }
    assert r.masked == r'.masked && r.targets == r'.targets && r.links == r'.links && r.genuine == r'.genuine;
    PairsOfRowAreDecided(c, row, r.masked, b, EntityTypesOf(c.layout, row), r.pairs, r'.pairs, stream,
                         LinkStart(c, row, stream, start, |row|));
  }

  /** In every result an entity has a pair if and only if it has two candidates and its draw is at most the
      pair probability. */
  lemma PairedExactlyWhenDrawn(c: Masking, row: seq<Position>, b: nat, r: RowResult, stream: nat -> real, start: nat,
                               end: nat, n: nat)
    requires IsRowResult(c, row, b, r) && RowFollows(c, row, r, stream, start, end)
    requires n < |EntityTypesOf(c.layout, row)|
    ensures var types := EntityTypesOf(c.layout, row);
            var first := LinkStart(c, row, stream, start, |row|);
            HasPair(row, r.pairs, types[n])
            <==> TwoCandidates(c.layout, row, r.masked, types[n])
                 && Draw(stream, PairCursor(c, row, r.masked, types, stream, first, n)) <= c.pairProbability
  {
    var types := EntityTypesOf(c.layout, row);
    var first := LinkStart(c, row, stream, start, |row|);
    var choices: seq<Option<Pair>> :| |choices| == |types|
      && PairsFollow(c, row, r.masked, types, choices, r.pairs, stream, first);
    assert PairFollows(c, row, r.masked, types[n], choices[n], stream,
                       PairCursor(c, row, r.masked, types, stream, first, n));
    CandidatesAreAll(c.layout, row, r.masked, types[n]);
    EnoughCandidates(c.layout, row, r.masked, types[n]);
    ChosenHolds(choices);
    if choices[n].Some? {
      ChosenOfType(c, row, r.masked, types, choices, r.pairs, stream, first, n);
      assert choices[n].value in r.pairs;
    }
    if HasPair(row, r.pairs, types[n]) {
      var p :| p in r.pairs && p.first < |row| && row[p.first].entityType == types[n];
      var m :| 0 <= m < |choices| && choices[m] == Some(p);
      ChosenOfType(c, row, r.masked, types, choices, r.pairs, stream, first, m);
      assert m == n;
    }
  }

  lemma EnoughCandidates(l: Layout, row: seq<Position>, masked: seq<Position>, entityType: nat)
    ensures |CandidatesIn(l, row, masked, entityType)| >= 2 ==> TwoCandidates(l, row, masked, entityType)
  {
    var candidates := CandidatesIn(l, row, masked, entityType);
    CandidatesAreAll(l, row, masked, entityType);
    if |candidates| >= 2 {
      assert candidates[0] in candidates && candidates[1] in candidates && candidates[0] != candidates[1];
    }
  }

  lemma {:induction false} ChosenHolds(choices: seq<Option<Pair>>)
    ensures forall p :: p in Chosen(choices) <==> Some(p) in choices
    decreases |choices|
  {
    if choices != [] {
      var n := |choices| - 1;
      ChosenHolds(choices[..n]);
      assert choices == choices[..n] + [choices[n]];
    }
  }

  lemma ChosenOfType(c: Masking, row: seq<Position>, masked: seq<Position>, types: seq<nat>,
                     choices: seq<Option<Pair>>, pairs: seq<Pair>, stream: nat -> real, start: nat, n: nat)
    requires PairsFollow(c, row, masked, types, choices, pairs, stream, start)
    requires n < |choices| && choices[n].Some?
    ensures choices[n].value.first < |row| && row[choices[n].value.first].entityType == types[n]
  {
    assert PairFollows(c, row, masked, types[n], choices[n], stream,
                       PairCursor(c, row, masked, types, stream, start, n));
    var candidates := CandidatesIn(c.layout, row, masked, types[n]);
    var first := Choice(stream, PairCursor(c, row, masked, types, stream, start, n) + 1, |candidates|);
    assert candidates[first] in candidates;
  }
}
