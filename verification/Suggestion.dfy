/** Mapping suggestion (mappings/suggest.py): every (field, column) pair is scored, the pairs are
    sorted strongest first, and a greedy pass claims them until the first one that is too weak.
    Scores are arbitrary reals here; ties may be sorted either way. */
module Suggestion {
  import opened Common
  import RealFacts

  datatype Field = Field(name: string, isBusinessIdentifier: bool, required: bool)

  datatype Column = Column(name: string)

  datatype Candidate = Candidate(field: Field, column: Column, score: real)

  datatype Suggestion = Suggestion(identity: map<string, string>, fields: map<string, string>, confidence: real)

  datatype SuggestError = NoIdentifierField

  const MIN_CONFIDENCE := 0.35

  // ---- scoring one pair -----------------------------------------------------------------------

  /** What the scorer reads off a (field, column) pair. */
  datatype Signals = Signals(nameSimilarity: real, typeCompatible: bool, identifierOnPrimaryKey: bool,
                             mentionedInComment: bool, looksUnique: bool, requiredButMostlyNull: bool)

  ghost predicate ValidSignals(s: Signals) {
    0.0 <= s.nameSimilarity <= 1.0
  }

  function SignalSum(s: Signals): real {
    s.nameSimilarity / 2.0 + Weight(s.typeCompatible, 0.3) + Weight(s.identifierOnPrimaryKey, 0.1)
    + Weight(s.mentionedInComment, 0.1) + Weight(s.looksUnique, 0.05) - Weight(s.requiredButMostlyNull, 0.1)
  }

  method ScoreColumn(s: Signals) returns (score: real)
    requires ValidSignals(s)
    ensures -0.1 <= score <= 1.0
    // Without a compatible type the name has to carry the pair over the confidence bar ...
    ensures score >= MIN_CONFIDENCE && !s.typeCompatible ==> s.nameSimilarity >= 0.2
    // ... and with one, a fifth of the name similarity is enough unless a null profile counts against it.
    ensures s.typeCompatible && s.nameSimilarity >= 0.1 && !s.requiredButMostlyNull ==> score >= MIN_CONFIDENCE
    // The score is the weighted sum of the signals, capped at one.
    ensures score == if SignalSum(s) > 1.0 then 1.0 else SignalSum(s)
  {
    score := s.nameSimilarity * 0.5;
    score := score + if s.typeCompatible then 0.3 else 0.0;
    if s.identifierOnPrimaryKey {
      score := score + 0.1;
    }
    if s.mentionedInComment {
      score := score + 0.1;
    }
    if s.looksUnique {
      score := score + 0.05;
    }
    if s.requiredButMostlyNull {
      score := score - 0.1;
    }
    if score > 1.0 {
      score := 1.0;
    }
  }

  function Weight(present: bool, weight: real): real {
    if present then weight else 0.0
  }

  // ---- the candidate pairs, strongest first -----------------------------------------------------

  function PairsOf(field: Field, columns: seq<Column>, score: (Field, Column) -> real): (r: seq<Candidate>)
    ensures forall c :: c in r <==> c.field == field && c.column in columns && c.score == score(field, c.column)
  {
    if columns == [] then []
    else
      assert forall x :: x in columns <==> x == columns[0] || x in columns[1..];
      [Candidate(field, columns[0], score(field, columns[0]))] + PairsOf(field, columns[1..], score)
  }

  function AllPairs(fields: seq<Field>, columns: seq<Column>, score: (Field, Column) -> real): (r: seq<Candidate>)
    ensures forall c :: c in r <==> c.field in fields && c.column in columns && c.score == score(c.field, c.column)
  {
    if fields == [] then []
    else
      assert forall x :: x in fields <==> x == fields[0] || x in fields[1..];
      PairsOf(fields[0], columns, score) + AllPairs(fields[1..], columns, score)
  }

  ghost predicate StrongestFirst(s: seq<Candidate>) {
    forall i, j :: 0 <= i < j < |s| ==> s[i].score >= s[j].score
  }

  function Insert(c: Candidate, s: seq<Candidate>): (r: seq<Candidate>)
    requires StrongestFirst(s)
    ensures StrongestFirst(r)
    ensures forall x :: x in r <==> x == c || x in s
  {
    if s == [] then [c]
    else if c.score >= s[0].score then [c] + s
    else
      assert s == [s[0]] + s[1..];
      var rest := Insert(c, s[1..]);
      assert forall x :: x in rest ==> x.score <= s[0].score;
      [s[0]] + rest
  }

  /** A stable sort by descending score. */
  function Ranked(s: seq<Candidate>): (r: seq<Candidate>)
    ensures StrongestFirst(r)
    ensures forall x :: x in r <==> x in s
  {
    if s == [] then []
    else
      assert s == [s[0]] + s[1..];
      Insert(s[0], Ranked(s[1..]))
  }

  /** Where the pair of the `i`-th field and the `j`-th of so many columns stands. */
  function PlaceOf(columns: nat, i: nat, j: nat): nat {
    i * columns + j
  }

  lemma NextPlace(columns: nat, i: nat, j: nat)
    requires i > 0
    ensures PlaceOf(columns, i, j) == columns + PlaceOf(columns, i - 1, j)
  {
    assert i * columns == columns + (i - 1) * columns;
  }

  /** The pairs come field by field, and within a field column by column. */
  lemma {:induction false} PairsAreFieldMajor(fields: seq<Field>, columns: seq<Column>,
                                              score: (Field, Column) -> real, i: nat, j: nat)
    requires i < |fields| && j < |columns|
    ensures PlaceOf(|columns|, i, j) < |AllPairs(fields, columns, score)|
    ensures AllPairs(fields, columns, score)[PlaceOf(|columns|, i, j)]
            == Candidate(fields[i], columns[j], score(fields[i], columns[j]))
  {
    PairsOfFieldInOrder(fields[0], columns, score);
    if i == 0 {
      assert PlaceOf(|columns|, 0, j) == j;
    } else {
      hide PlaceOf;
      PairsAreFieldMajor(fields[1..], columns, score, i - 1, j);
      NextPlace(|columns|, i, j);
    }
  }

  lemma {:induction false} PairsOfFieldInOrder(field: Field, columns: seq<Column>, score: (Field, Column) -> real)
    ensures |PairsOf(field, columns, score)| == |columns|
    ensures forall j :: 0 <= j < |columns| ==>
              PairsOf(field, columns, score)[j] == Candidate(field, columns[j], score(field, columns[j]))
  {
    if columns != [] {
      PairsOfFieldInOrder(field, columns[1..], score);
    }
  }

  function WithScore(s: seq<Candidate>, x: real): seq<Candidate> {
    if s == [] then [] else (if s[0].score == x then [s[0]] else []) + WithScore(s[1..], x)
  }

  /** Ranking keeps every pair as often as it was there, and pairs of equal score in their order. */
  lemma {:induction false} TiesKeepTheirOrder(s: seq<Candidate>, x: real)
    ensures WithScore(Ranked(s), x) == WithScore(s, x)
  {
    if s != [] {
      TiesKeepTheirOrder(s[1..], x);
      InsertKeepsTies(s[0], Ranked(s[1..]), x);
    }
  }

  lemma {:induction false} InsertKeepsTies(c: Candidate, s: seq<Candidate>, x: real)
    requires StrongestFirst(s)
    ensures WithScore(Insert(c, s), x) == (if c.score == x then [c] else []) + WithScore(s, x)
  {
    if s != [] && c.score < s[0].score {
      assert StrongestFirst(s[1..]);
      InsertKeepsTies(c, s[1..], x);
      WithScoreOfFirst(s[0], Insert(c, s[1..]), x);
    } else {
      WithScoreOfFirst(c, s, x);
    }
  }

  lemma {:induction false} WithScoreOfFirst(c: Candidate, s: seq<Candidate>, x: real)
    ensures WithScore([c] + s, x) == (if c.score == x then [c] else []) + WithScore(s, x)
  {
    assert ([c] + s)[1..] == s;
  }

  // ---- the greedy pass --------------------------------------------------------------------------

  /** What the pass claims from `ranked` when some fields and columns are already taken. */
  function Claims(ranked: seq<Candidate>, usedFields: set<string>, usedColumns: set<string>): seq<Candidate> {
    if ranked == [] || ranked[0].score < MIN_CONFIDENCE then []
    else
      var c := ranked[0];
      if c.field.name in usedFields || c.column.name in usedColumns then Claims(ranked[1..], usedFields, usedColumns)
      else [c] + Claims(ranked[1..], usedFields + {c.field.name}, usedColumns + {c.column.name})
  }

  function TotalScore(s: seq<Candidate>): real {
    if s == [] then 0.0 else s[0].score + TotalScore(s[1..])
  }

  /** The claims on identifier (or other) fields, as the field-to-column dictionary. */
  function AsMapping(claims: seq<Candidate>, identifiers: bool): (m: map<string, string>)
    ensures forall name :: name in m ==>
              exists c :: c in claims && c.field.name == name && c.column.name == m[name]
                && c.field.isBusinessIdentifier == identifiers
  {
    if claims == [] then map[]
    else
      var last := claims[|claims| - 1];
      var rest := AsMapping(claims[..|claims| - 1], identifiers);
      assert forall c :: c in claims[..|claims| - 1] ==> c in claims;
      if last.field.isBusinessIdentifier == identifiers then rest[last.field.name := last.column.name] else rest
  }

  function Mean(claims: seq<Candidate>): real {
    if claims == [] then 0.0 else TotalScore(claims) / |claims| as real
  }

  /** What the strongest remaining candidate adds to the claims. */
  lemma NextClaim(ranked: seq<Candidate>, i: nat, usedFields: set<string>, usedColumns: set<string>)
    requires i < |ranked|
    ensures var c := ranked[i];
            Claims(ranked[i..], usedFields, usedColumns)
            == if c.score < MIN_CONFIDENCE then []
               else if c.field.name in usedFields || c.column.name in usedColumns
                    then Claims(ranked[i + 1..], usedFields, usedColumns)
               else [c] + Claims(ranked[i + 1..], usedFields + {c.field.name}, usedColumns + {c.column.name})
  {
    var rest := ranked[i..];
    assert rest[0] == ranked[i] && rest[1..] == ranked[i + 1..];
  }

  lemma NothingClaimed()
    ensures forall identifiers :: AsMapping([], identifiers) == map[]
  {
  }

  lemma ClaimsEnd(ranked: seq<Candidate>, i: nat, usedFields: set<string>, usedColumns: set<string>)
    requires i <= |ranked| && (i < |ranked| ==> ranked[i].score < MIN_CONFIDENCE)
    ensures Claims(ranked[i..], usedFields, usedColumns) == []
  {
  }

  /** The claiming loop: used names are skipped, and the first pair below the bar ends it. */
  method ClaimStrongestFirst(ranked: seq<Candidate>)
    returns (claims: seq<Candidate>, identity: map<string, string>, fields: map<string, string>)
    ensures claims == Claims(ranked, {}, {})
    ensures identity == AsMapping(claims, true) && fields == AsMapping(claims, false)
  {
    hide Claims, AsMapping;
    NothingClaimed();
    var usedColumns: set<string>, usedFields: set<string> := {}, {};
    identity, fields, claims := map[], map[], [];
    assert ranked[0..] == ranked;
    var i := 0;
    while i < |ranked|
      invariant 0 <= i <= |ranked|
      invariant Claims(ranked, {}, {}) == claims + Claims(ranked[i..], usedFields, usedColumns)
      invariant identity == AsMapping(claims, true) && fields == AsMapping(claims, false)
    {
      var c := ranked[i];
      NextClaim(ranked, i, usedFields, usedColumns);
      if c.score < MIN_CONFIDENCE {
        break;
      }
      i := i + 1;
      if c.field.name in usedFields || c.column.name in usedColumns {
        continue;
      }
      usedColumns := usedColumns + {c.column.name};
      usedFields := usedFields + {c.field.name};
      MappingOfAppend(claims, c);
      ghost var later := Claims(ranked[i..], usedFields, usedColumns);
      assert claims + ([c] + later) == claims + [c] + later;
      claims := claims + [c];
      if c.field.isBusinessIdentifier {
        identity := identity[c.field.name := c.column.name];
      } else {
        fields := fields[c.field.name := c.column.name];
      }
    }
    ClaimsEnd(ranked, i, usedFields, usedColumns);
  }

  lemma MappingOfAppend(claims: seq<Candidate>, c: Candidate)
    ensures forall identifiers :: AsMapping(claims + [c], identifiers)
              == if c.field.isBusinessIdentifier == identifiers
                 then AsMapping(claims, identifiers)[c.field.name := c.column.name]
                 else AsMapping(claims, identifiers)
  {
    var all := claims + [c];
    assert all[..|all| - 1] == claims;
  }

  method SuggestMapping(fields: seq<Field>, columns: seq<Column>, score: (Field, Column) -> real)
    returns (r: Result<Suggestion, SuggestError>)
    ensures var claims := Claims(Ranked(AllPairs(fields, columns, score)), {}, {});
            && (r.Err? <==> AsMapping(claims, true) == map[])
            && (r.Ok? ==> r.value == Suggestion(AsMapping(claims, true), AsMapping(claims, false), Mean(claims)))
  {
    var claims, identity, others := ClaimStrongestFirst(Ranked(AllPairs(fields, columns, score)));
    if identity == map[] {
      return Err(NoIdentifierField);
    }
    return Ok(Suggestion(identity, others, Mean(claims)));
  }

  /** What each signal adds to the score before the cap: half the name similarity, 3/10 for a compatible type,
      1/10 each for a primary-key identifier and a comment, 1/20 for uniqueness, less 1/10 for nulls. */
  lemma SignalsAreWorth(s: Signals)
    ensures SignalSum(Signals(0.0, false, false, false, false, false)) == 0.0
    ensures SignalSum(s) - SignalSum(s.(nameSimilarity := 0.0)) == 0.5 * s.nameSimilarity
    ensures SignalSum(s.(typeCompatible := true)) - SignalSum(s.(typeCompatible := false)) == 0.3
    ensures SignalSum(s.(identifierOnPrimaryKey := true)) - SignalSum(s.(identifierOnPrimaryKey := false)) == 0.1
  {
    hide Weight;
    FlagsAreWorthTheirWeight();
  }

  lemma FurtherSignalsAreWorth(s: Signals)
    ensures SignalSum(s.(mentionedInComment := true)) - SignalSum(s.(mentionedInComment := false)) == 0.1
    ensures SignalSum(s.(looksUnique := true)) - SignalSum(s.(looksUnique := false)) == 0.05
    ensures SignalSum(s.(requiredButMostlyNull := true)) - SignalSum(s.(requiredButMostlyNull := false)) == -0.1
  {
    hide Weight;
    FlagsAreWorthTheirWeight();
  }

  lemma FlagsAreWorthTheirWeight()
    ensures forall weight :: Weight(true, weight) == weight && Weight(false, weight) == 0.0
  {
  }

  lemma {:induction false} TotalLiesBetween(claims: seq<Candidate>, low: real, high: real)
    requires forall c :: c in claims ==> low <= c.score <= high
    ensures low * |claims| as real <= TotalScore(claims) <= high * |claims| as real
    decreases |claims|
  {
    if claims != [] {
      TotalLiesBetween(claims[1..], low, high);
      assert |claims| as real == |claims[1..]| as real + 1.0;
    }
  }

  predicate IsAverage(x: real, claims: seq<Candidate>) {
    x * |claims| as real == TotalScore(claims)
  }

  /** The confidence of a suggestion is the average score of its claims: their number times it is the sum of
      their scores, and it lies between the bar and the highest of them. */
  lemma ConfidenceIsTheAverage(ranked: seq<Candidate>)
    ensures var claims := Claims(ranked, {}, {});
            if claims == [] then Mean(claims) == 0.0
            else IsAverage(Mean(claims), claims) && MIN_CONFIDENCE <= Mean(claims) <= HighestScore(claims)
  {
    hide IsAverage, Mean, IsMatching, Avoids;
    ClaimsAreAMatching(ranked, {}, {});
    hide Claims;
    var claims := Claims(ranked, {}, {});
    if claims == [] {
      NoMean();
    } else {
      MeanLiesBetween(claims, MIN_CONFIDENCE, HighestScore(claims));
    }
  }

  lemma NoMean()
    ensures Mean([]) == 0.0
  {
  }

  lemma MeanLiesBetween(claims: seq<Candidate>, low: real, high: real)
    requires claims != [] && forall c :: c in claims ==> low <= c.score <= high
    ensures IsAverage(Mean(claims), claims) && low <= Mean(claims) <= high
  {
    RealFacts.DivideThenMultiply(TotalScore(claims), |claims| as real);
    TotalLiesBetween(claims, low, high);
    AverageLiesBetween(Mean(claims), |claims| as real, low, high);
  }

  lemma AverageLiesBetween(average: real, n: real, low: real, high: real)
    requires n > 0.0 && low * n <= average * n <= high * n
    ensures low <= average <= high
  {
  }

  function HighestScore(claims: seq<Candidate>): (top: real)
    requires claims != []
    ensures (forall c :: c in claims ==> c.score <= top) && exists c :: c in claims && c.score == top
  {
    if |claims| == 1 then claims[0].score
    else
      assert forall c :: c in claims <==> c == claims[0] || c in claims[1..];
      var rest := HighestScore(claims[1..]);
      if claims[0].score > rest then claims[0].score else rest
  }

  // ---- the claims form a matching ---------------------------------------------------------------

  /** No field name and no column name is used twice. */
  ghost predicate IsMatching(s: seq<Candidate>) {
    forall i, j :: 0 <= i < j < |s| ==> s[i].field.name != s[j].field.name && s[i].column.name != s[j].column.name
  }

  ghost predicate Avoids(s: seq<Candidate>, usedFields: set<string>, usedColumns: set<string>) {
    forall c :: c in s ==> c.field.name !in usedFields && c.column.name !in usedColumns
  }

  /** Every element is one of `ranked` and strong enough to be claimed. */
  ghost predicate Eligible(s: seq<Candidate>, ranked: seq<Candidate>) {
    forall c :: c in s ==> c in ranked && c.score >= MIN_CONFIDENCE
  }

  lemma ClaimFirst(c: Candidate, rest: seq<Candidate>, usedFields: set<string>, usedColumns: set<string>)
    requires IsMatching(rest) && Avoids(rest, usedFields + {c.field.name}, usedColumns + {c.column.name})
    requires c.field.name !in usedFields && c.column.name !in usedColumns
    ensures IsMatching([c] + rest) && Avoids([c] + rest, usedFields, usedColumns)
  {
    assert forall i :: 0 <= i < |rest| ==> rest[i] in rest;
  }

  lemma {:induction false} ClaimsAreAMatching(ranked: seq<Candidate>, usedFields: set<string>, usedColumns: set<string>)
    ensures var claims := Claims(ranked, usedFields, usedColumns);
            IsMatching(claims) && Avoids(claims, usedFields, usedColumns) && Eligible(claims, ranked)
  {
    if ranked == [] || ranked[0].score < MIN_CONFIDENCE {
    } else {
      var c := ranked[0];
      assert forall x :: x in ranked[1..] ==> x in ranked;
      if c.field.name in usedFields || c.column.name in usedColumns {
        ClaimsAreAMatching(ranked[1..], usedFields, usedColumns);
      } else {
        ClaimsAreAMatching(ranked[1..], usedFields + {c.field.name}, usedColumns + {c.column.name});
        ClaimFirst(c, Claims(ranked[1..], usedFields + {c.field.name}, usedColumns + {c.column.name}), usedFields,
                   usedColumns);
      }
    }
  }

  ghost predicate Conflict(a: Candidate, b: Candidate) {
    a.field.name == b.field.name || a.column.name == b.column.name
  }

  /** Nothing eligible is left over for no reason: whatever is not claimed is blocked by a used
      name or by a claim that is at least as strong. */
  lemma {:induction false} LeftoversAreBlocked(ranked: seq<Candidate>, usedFields: set<string>,
                                               usedColumns: set<string>, x: Candidate)
    requires StrongestFirst(ranked)
    requires x in ranked && x.score >= MIN_CONFIDENCE
    requires x.field.name !in usedFields && x.column.name !in usedColumns
    ensures exists c :: c in Claims(ranked, usedFields, usedColumns) && Conflict(c, x) && c.score >= x.score
  {
    var c := ranked[0];
    if x == c {
      assert c in Claims(ranked, usedFields, usedColumns);
    } else {
      assert x in ranked[1..];
      assert c.score >= x.score;
      if c.field.name in usedFields || c.column.name in usedColumns {
        LeftoversAreBlocked(ranked[1..], usedFields, usedColumns, x);
      } else {
        assert c in Claims(ranked, usedFields, usedColumns);
        if !Conflict(c, x) {
          LeftoversAreBlocked(ranked[1..], usedFields + {c.field.name}, usedColumns + {c.column.name}, x);
        }
      }
    }
  }

  // ---- and it is worth at least half of any other matching ------------------------------------------

  /** `s` without the candidates that conflict with `c`. */
  function WithoutConflicts(s: seq<Candidate>, c: Candidate): (r: seq<Candidate>)
    ensures forall x :: x in r <==> x in s && x.field.name != c.field.name && x.column.name != c.column.name
  {
    if s == [] then []
    else
      assert forall x :: x in s <==> x == s[0] || x in s[1..];
      (if s[0].field.name == c.field.name || s[0].column.name == c.column.name then [] else [s[0]])
      + WithoutConflicts(s[1..], c)
  }

  lemma {:induction false} WithoutConflictsKeepsMatching(s: seq<Candidate>, c: Candidate)
    requires IsMatching(s)
    ensures IsMatching(WithoutConflicts(s, c))
  {
    if s == [] {
    } else {
      WithoutConflictsKeepsMatching(s[1..], c);
      var rest := WithoutConflicts(s[1..], c);
      forall x | x in rest
        ensures x.field.name != s[0].field.name && x.column.name != s[0].column.name
      {
        var k :| 0 <= k < |s[1..]| && s[1..][k] == x;
        assert s[k + 1] == x;
      }
      assert forall i :: 0 <= i < |rest| ==> rest[i] in rest;
    }
  }

  /** A matching has at most one pair on c's field and one on c's column, so removing what
      conflicts with `c` costs at most twice its score. */
  lemma {:induction false} ConflictsCostAtMostTwice(s: seq<Candidate>, c: Candidate)
    requires IsMatching(s)
    requires c.score >= 0.0
    requires forall x :: x in s ==> x.score <= c.score
    ensures TotalScore(s) <= TotalScore(WithoutConflicts(s, c))
                             + (if exists x :: x in s && x.field.name == c.field.name then c.score else 0.0)
                             + (if exists x :: x in s && x.column.name == c.column.name then c.score else 0.0)
  {
    if s == [] {
    } else {
      var h := s[0];
      assert forall x :: x in s <==> x == h || x in s[1..];
      ConflictsCostAtMostTwice(s[1..], c);
      TotalOfConcat(if h.field.name == c.field.name || h.column.name == c.column.name then [] else [h],
                    WithoutConflicts(s[1..], c));
    }
  }

  lemma {:induction false} TotalOfConcat(a: seq<Candidate>, b: seq<Candidate>)
    ensures TotalScore(a + b) == TotalScore(a) + TotalScore(b)
  {
    if a == [] {
      assert a + b == b;
    } else {
      assert (a + b)[1..] == a[1..] + b;
      TotalOfConcat(a[1..], b);
    }
  }

  lemma {:induction false} ClaimsAreHalfOptimal(ranked: seq<Candidate>, usedFields: set<string>,
                                                usedColumns: set<string>, other: seq<Candidate>)
    requires StrongestFirst(ranked)
    requires IsMatching(other) && Avoids(other, usedFields, usedColumns) && Eligible(other, ranked)
    ensures TotalScore(other) <= 2.0 * TotalScore(Claims(ranked, usedFields, usedColumns))
    decreases |ranked|
  {
    if ranked == [] || ranked[0].score < MIN_CONFIDENCE {
      assert forall x :: x !in other;
    } else {
      var c := ranked[0];
      assert forall x :: x in ranked <==> x == c || x in ranked[1..];
      assert forall x :: x in ranked ==> x.score <= c.score;
      if c.field.name in usedFields || c.column.name in usedColumns {
        ClaimsAreHalfOptimal(ranked[1..], usedFields, usedColumns, other);
      } else {
        var rest := WithoutConflicts(other, c);
        WithoutConflictsKeepsMatching(other, c);
        ConflictsCostAtMostTwice(other, c);
        ClaimsAreHalfOptimal(ranked[1..], usedFields + {c.field.name}, usedColumns + {c.column.name}, rest);
      }
    }
  }

  /** The suggestion is a matching over sufficiently confident pairs, no eligible pair outside it
      is free of conflicts with a claim at least as strong, and no other matching over eligible
      pairs scores more than twice as much. */
  lemma SuggestionIsHalfOptimal(fields: seq<Field>, columns: seq<Column>, score: (Field, Column) -> real,
                                other: seq<Candidate>)
    requires IsMatching(other) && Eligible(other, AllPairs(fields, columns, score))
    ensures var pairs := AllPairs(fields, columns, score);
            var claims := Claims(Ranked(pairs), {}, {});
            && IsMatching(claims) && Eligible(claims, pairs)
            && TotalScore(other) <= 2.0 * TotalScore(claims)
            && forall x :: x in pairs && x.score >= MIN_CONFIDENCE ==>
                 exists c :: c in claims && Conflict(c, x) && c.score >= x.score
  {
    var pairs := AllPairs(fields, columns, score);
    var ranked := Ranked(pairs);
    ClaimsAreAMatching(ranked, {}, {});
    ClaimsAreHalfOptimal(ranked, {}, {}, other);
    forall x | x in pairs && x.score >= MIN_CONFIDENCE
      ensures exists c :: c in Claims(ranked, {}, {}) && Conflict(c, x) && c.score >= x.score
    {
      LeftoversAreBlocked(ranked, {}, {}, x);
    }
  }

  /** For a matching the two dictionaries lose nothing: a claim on an identifier field is exactly
      an entry of `identity`, any other claim exactly an entry of `fields`. */
  lemma {:induction false} MappingsHoldTheClaims(claims: seq<Candidate>, identifiers: bool)
    requires IsMatching(claims)
    ensures forall c :: c in claims && c.field.isBusinessIdentifier == identifiers ==>
              c.field.name in AsMapping(claims, identifiers)
                && AsMapping(claims, identifiers)[c.field.name] == c.column.name
    ensures AsMapping(claims, true).Keys !! AsMapping(claims, false).Keys
  {
    if claims == [] {
    } else {
      var front := claims[..|claims| - 1];
      var last := claims[|claims| - 1];
      MappingsHoldTheClaims(front, identifiers);
      assert forall c :: c in claims <==> c == last || c in front;
      forall c | c in front
        ensures c.field.name != last.field.name
      {
        var k :| 0 <= k < |front| && front[k] == c;
        assert claims[k] == c;
      }
    }
  }
}
