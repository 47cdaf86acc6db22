/** Small shared datatypes and sequence facts used by every other module. */
module Common {

  datatype Option<+T> = None | Some(value: T)

  datatype Result<+T, +E> = Ok(value: T) | Err(error: E)

  /** Opaque identifiers: only equality matters. */
  type Uuid = int

  /** The solver does not see by itself that a non-empty set of numbers has a member. */
  lemma SomeMember(s: set<Uuid>) returns (id: Uuid)
    requires s != {}
    ensures id in s
  {
    var m := map x | x in s :: true;
    assert m.Keys == s && |m| != 0;
    var item :| item in m.Items;
    id := item.0;
  }

  function Min(a: int, b: int): (m: int)
    ensures m <= a && m <= b && (m == a || m == b)
  {
    if a < b then a else b
  }

  ghost predicate Distinct<T>(s: seq<T>) {
    forall i, j :: 0 <= i < j < |s| ==> s[i] != s[j]
  }

  /** The elements of `s` that satisfy `keep`, in order. */
  function Filter<T(!new)>(s: seq<T>, keep: T -> bool): (r: seq<T>)
    ensures forall x :: x in r <==> x in s && keep(x)
    ensures |r| <= |s|
  {
    if s == [] then []
    else
      var rest := Filter(s[1..], keep);
      assert forall x :: x in s <==> x == s[0] || x in s[1..];
      if keep(s[0]) then [s[0]] + rest else rest
  }

  lemma {:induction false} DistinctFilter<T(!new)>(s: seq<T>, keep: T -> bool)
    requires Distinct(s)
    ensures Distinct(Filter(s, keep))
  {
    if s != [] {
      var rest := s[1..];
      forall i, j | 0 <= i < j < |rest|
        ensures rest[i] != rest[j]
      {
        assert s[i + 1] != s[j + 1];
      }
      DistinctFilter(rest, keep);
      assert s[0] !in rest;
    }
  }

  function Map<T, U>(s: seq<T>, f: T -> U): (r: seq<U>)
    ensures |r| == |s|
    ensures forall i :: 0 <= i < |s| ==> r[i] == f(s[i])
  {
    seq(|s|, i requires 0 <= i < |s| => f(s[i]))
  }
}

/** Facts about real division that the solver needs in small pieces. */
module RealFacts {

  lemma DivideThenMultiply(a: real, b: real)
    requires b != 0.0
    ensures a / b * b == a
  {
  }

  lemma CancelFactor(a: real, b: real, c: real)
    requires a * c == b * c && c > 0.0
    ensures a == b
  {
    DivideThenMultiply(a, c);
    DivideThenMultiply(b, c);
    assert a == a * c / c && b == b * c / c;
  }

  lemma NonNegativeQuotient(d: real, r: real)
    requires d >= 0.0 && r > 0.0
    ensures d / r >= 0.0
  {
  }

  lemma QuotientMonotone(d: real, e: real, r: real)
    requires d <= e && r > 0.0
    ensures d / r <= e / r
  {
  }

  lemma QuotientOfOneMore(d: real, r: real)
    requires r > 0.0
    ensures (d + r) / r == d / r + 1.0
  {
    DivideThenMultiply(d, r);
    DivideThenMultiply(d + r, r);
    CancelFactor((d + r) / r, d / r + 1.0, r);
  }
}
