/** Decision-threshold selection (models/metrics.py): a scan over the distinct predicted
    probabilities that keeps the first one with the best F1 score. */
module ThresholdSelection {
  import opened Common
  import opened RealFacts

  datatype Strategy = Fixed | MaxF1 | Other(name: string)

  datatype ThresholdError = UnknownStrategy(name: string)

  /** How many rows are predicted positive at threshold `t`. */
  function PredictedPositives(proba: seq<real>, t: real): nat {
    if proba == [] then 0
    else (if proba[0] >= t then 1 else 0) + PredictedPositives(proba[1..], t)
  }

  /** How many rows are predicted positive at threshold `t` and really are positive. */
  function TruePositives(labels: seq<bool>, proba: seq<real>, t: real): (n: nat)
    requires |labels| == |proba|
    ensures n <= PredictedPositives(proba, t)
    ensures n <= Positives(labels)
  {
    if proba == [] then 0
    else (if labels[0] && proba[0] >= t then 1 else 0) + TruePositives(labels[1..], proba[1..], t)
  }

  function Positives(labels: seq<bool>): nat {
    if labels == [] then 0 else (if labels[0] then 1 else 0) + Positives(labels[1..])
  }

  /** F1 = 2TP / (2TP + FP + FN), and 0 where that is undefined. */
  function F1OfCounts(truePositives: nat, flagged: nat, positives: nat): (score: real)
    requires truePositives <= flagged && truePositives <= positives
    ensures 0.0 <= score <= 1.0
    ensures flagged + positives > 0 ==> score * (flagged + positives) as real == 2.0 * truePositives as real
  {
    if flagged + positives == 0 then 0.0
    else
      Divided(2.0 * truePositives as real, (flagged + positives) as real);
      2.0 * truePositives as real / (flagged + positives) as real
  }

  function F1(labels: seq<bool>, proba: seq<real>, t: real): (score: real)
    requires |labels| == |proba|
    ensures 0.0 <= score <= 1.0
  {
    F1OfCounts(TruePositives(labels, proba, t), PredictedPositives(proba, t), Positives(labels))
  }

  lemma Divided(n: real, d: real)
    requires 0.0 <= n <= d && d > 0.0
    ensures 0.0 <= n / d <= 1.0 && n / d * d == n
  {
  }

  /** F1 is the harmonic mean of precision and recall wherever both are positive. */
  lemma F1IsHarmonicMean(truePositives: nat, flagged: nat, positives: nat, precision: real, recall: real)
    requires 0 < truePositives <= flagged && truePositives <= positives
    requires precision * flagged as real == truePositives as real
    requires recall * positives as real == truePositives as real
    ensures F1OfCounts(truePositives, flagged, positives) * (precision + recall) == 2.0 * precision * recall
  {
    HarmonicMean(truePositives as real, flagged as real, positives as real, precision, recall,
                 F1OfCounts(truePositives, flagged, positives));
  }

  lemma HarmonicMean(tp: real, flagged: real, positives: real, p: real, r: real, f: real)
    requires flagged > 0.0 && positives > 0.0
    requires p * flagged == tp && r * positives == tp && f * (flagged + positives) == 2.0 * tp
    ensures f * (p + r) == 2.0 * p * r
  {
    var n := flagged + positives;
    calc {
      f * (p + r) * n;
      f * n * (p + r);
      2.0 * tp * (p + r);
      2.0 * (p * tp) + 2.0 * (r * tp);
      2.0 * (p * (r * positives)) + 2.0 * (r * (p * flagged));
      2.0 * p * r * n;
    }
    CancelFactor(f * (p + r), 2.0 * p * r, n);
  }

  /** Two thresholds that flag the same rows have the same score. */
  lemma {:induction false} SameFlagsSameCounts(labels: seq<bool>, proba: seq<real>, t: real, u: real)
    requires |labels| == |proba|
    requires forall p :: p in proba ==> (p >= t <==> p >= u)
    ensures PredictedPositives(proba, t) == PredictedPositives(proba, u)
    ensures TruePositives(labels, proba, t) == TruePositives(labels, proba, u)
  {
    if proba == [] {
    } else {
      assert proba[0] in proba && forall p :: p in proba[1..] ==> p in proba;
      SameFlagsSameCounts(labels[1..], proba[1..], t, u);
    }
  }

  lemma {:induction false} NothingFlagged(labels: seq<bool>, proba: seq<real>, t: real)
    requires |labels| == |proba|
    requires forall p :: p in proba ==> p < t
    ensures F1(labels, proba, t) == 0.0
  {
    NoPredictedPositives(proba, t);
  }

  lemma {:induction false} NoPredictedPositives(proba: seq<real>, t: real)
    requires forall p :: p in proba ==> p < t
    ensures PredictedPositives(proba, t) == 0
  {
    if proba == [] {
    } else {
      assert proba[0] in proba && forall p :: p in proba[1..] ==> p in proba;
      NoPredictedPositives(proba[1..], t);
    }
  }

  /** The least element of `proba` that is at least `t`. */
  lemma {:induction false} LeastAtOrAbove(proba: seq<real>, t: real) returns (c: real)
    requires exists p :: p in proba && p >= t
    ensures c in proba && c >= t
    ensures forall p :: p in proba && p >= t ==> c <= p
  {
    assert forall p :: p in proba <==> p == proba[0] || p in proba[1..];
    if |proba| == 1 {
      c := proba[0];
    } else if exists p :: p in proba[1..] && p >= t {
      c := LeastAtOrAbove(proba[1..], t);
      if t <= proba[0] < c {
        c := proba[0];
      }
    } else {
      c := proba[0];
    }
  }

  /** No real threshold beats every candidate: whatever `t` is, some predicted probability
      scores at least as well. */
  lemma {:induction false} SomeCandidateIsAsGood(labels: seq<bool>, proba: seq<real>, t: real) returns (c: real)
    requires |labels| == |proba| && proba != []
    ensures c in proba && F1(labels, proba, t) <= F1(labels, proba, c)
  {
    if exists p :: p in proba && p >= t {
      c := LeastAtOrAbove(proba, t);
      SameFlagsSameCounts(labels, proba, t, c);
    } else {
      c := proba[0];
      NothingFlagged(labels, proba, t);
    }
  }

  // ---- the sorted distinct candidates -------------------------------------------------------

  ghost predicate StrictlyAscending(s: seq<real>) {
    forall i, j :: 0 <= i < j < |s| ==> s[i] < s[j]
  }

  lemma TailAscending(s: seq<real>)
    requires StrictlyAscending(s) && s != []
    ensures StrictlyAscending(s[1..]) && forall y :: y in s[1..] ==> s[0] < y
  {
    forall i, j | 0 <= i < j < |s[1..]|
      ensures s[1..][i] < s[1..][j]
    {
      assert s[i + 1] < s[j + 1];
    }
  }

  lemma PrependAscending(x: real, s: seq<real>)
    requires StrictlyAscending(s) && forall y :: y in s ==> x < y
    ensures StrictlyAscending([x] + s)
  {
    forall i, j | 0 <= i < j < |[x] + s|
      ensures ([x] + s)[i] < ([x] + s)[j]
    {
      assert s[j - 1] in s;
    }
  }

  function InsertDistinct(x: real, s: seq<real>): (r: seq<real>)
    requires StrictlyAscending(s)
    ensures StrictlyAscending(r)
    ensures forall y :: y in r <==> y == x || y in s
  {
    if s == [] then [x]
    else
      TailAscending(s);
      assert forall y :: y in s <==> y == s[0] || y in s[1..];
      if x == s[0] then s
      else if x < s[0] then
        PrependAscending(x, s);
        [x] + s
      else
        var rest := InsertDistinct(x, s[1..]);
        PrependAscending(s[0], rest);
        [s[0]] + rest
  }

  /** The distinct values of `proba` in ascending order. */
  function Candidates(proba: seq<real>): (r: seq<real>)
    ensures StrictlyAscending(r)
    ensures forall y :: y in r <==> y in proba
  {
    if proba == [] then []
    else
      assert proba == [proba[0]] + proba[1..];
      InsertDistinct(proba[0], Candidates(proba[1..]))
  }

  method SelectThreshold(labels: seq<bool>, proba: seq<real>, strategy: Strategy, fixedValue: real)
    returns (r: Result<real, ThresholdError>)
    requires |labels| == |proba|
    ensures r.Err? <==> strategy.Other?
    ensures r.Err? ==> r.error == UnknownStrategy(strategy.name)
    ensures strategy.Fixed? || (strategy.MaxF1? && proba == []) ==> r == Ok(fixedValue)
    // The chosen threshold is a predicted probability, and no real threshold scores higher ...
    ensures strategy.MaxF1? && proba != [] ==>
              r.value in proba && forall t: real :: F1(labels, proba, t) <= F1(labels, proba, r.value)
    // ... and among the predicted probabilities that attain the maximum it is the smallest.
    ensures strategy.MaxF1? && proba != [] ==>
              forall c :: c in proba && F1(labels, proba, c) == F1(labels, proba, r.value) ==> r.value <= c
  {
    if strategy.Fixed? {
      return Ok(fixedValue);
    }
    if !strategy.MaxF1? {
      return Err(UnknownStrategy(strategy.name));
    }
    var candidates := Candidates(proba);
    if |candidates| == 0 {
      assert forall y :: y !in proba;
      return Ok(fixedValue);
    }
    var bestThreshold := candidates[0];
    var bestF1 := -1.0;
    for i := 0 to |candidates|
      invariant i == 0 ==> bestF1 == -1.0
      invariant i > 0 ==> bestThreshold in candidates[..i] && bestF1 == F1(labels, proba, bestThreshold)
      invariant forall k :: 0 <= k < i ==> F1(labels, proba, candidates[k]) <= bestF1
      invariant forall k :: 0 <= k < i && F1(labels, proba, candidates[k]) == bestF1 ==> bestThreshold <= candidates[k]
    {
      var score := F1(labels, proba, candidates[i]);
      if score > bestF1 {
        bestF1 := score;
        bestThreshold := candidates[i];
      }
    }
    forall t: real
      ensures F1(labels, proba, t) <= F1(labels, proba, bestThreshold)
    {
      var c := SomeCandidateIsAsGood(labels, proba, t);
      assert c in candidates;
    }
    assert forall c :: c in proba ==> c in candidates;
    return Ok(bestThreshold);
  }
}
