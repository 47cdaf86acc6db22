/** Sorting strings by an arbitrary ranking (every total order on strings is one), and lists seen
    only up to order. */
module Sorting {
  import opened Common

  type Ranking = string -> real

  ghost predicate Injective(rank: Ranking) {
    forall a, b :: rank(a) == rank(b) ==> a == b
  }

  ghost predicate SortedBy(rank: Ranking, s: seq<string>) {
    forall i, j :: 0 <= i < j < |s| ==> rank(s[i]) <= rank(s[j])
  }

  function Insert(rank: Ranking, x: string, s: seq<string>): (r: seq<string>)
    ensures multiset(r) == multiset{x} + multiset(s)
  {
    if s == [] then [x]
    else
      assert s == [s[0]] + s[1..];
      if rank(x) <= rank(s[0]) then [x] + s else [s[0]] + Insert(rank, x, s[1..])
  }

  function Sort(rank: Ranking, s: seq<string>): (r: seq<string>)
    ensures multiset(r) == multiset(s)
  {
    if s == [] then []
    else
      assert s == [s[0]] + s[1..];
      Insert(rank, s[0], Sort(rank, s[1..]))
  }

  lemma {:induction false} InsertKeepsSorted(rank: Ranking, x: string, s: seq<string>)
    requires SortedBy(rank, s)
    ensures SortedBy(rank, Insert(rank, x, s))
  {
    if s != [] && rank(x) > rank(s[0]) {
      InsertKeepsSorted(rank, x, s[1..]);
      var rest := Insert(rank, x, s[1..]);
      forall k | 0 <= k < |rest|
        ensures rank(s[0]) <= rank(rest[k])
      {
        assert rest[k] in multiset(rest);
      }
    }
  }

  lemma {:induction false} SortSorts(rank: Ranking, s: seq<string>)
    ensures SortedBy(rank, Sort(rank, s))
  {
    if s != [] {
      SortSorts(rank, s[1..]);
      InsertKeepsSorted(rank, s[0], Sort(rank, s[1..]));
    }
  }

  lemma {:induction false} SortedIsCanonical(rank: Ranking, a: seq<string>, b: seq<string>)
    requires Injective(rank) && SortedBy(rank, a) && SortedBy(rank, b) && multiset(a) == multiset(b)
    ensures a == b
  {
    assert |multiset(a)| == |a| && |multiset(b)| == |b|;
    if a != [] {
      FirstIsLeast(rank, a, b);
      FirstIsLeast(rank, b, a);
      TailOf(a);
      TailOf(b);
      SortedIsCanonical(rank, a[1..], b[1..]);
    }
  }

  lemma TailOf(a: seq<string>)
    requires a != []
    ensures a == [a[0]] + a[1..] && multiset(a[1..]) == multiset(a) - multiset{a[0]}
  {
    assert a == [a[0]] + a[1..];
  }

  lemma FirstIsLeast(rank: Ranking, a: seq<string>, b: seq<string>)
    requires SortedBy(rank, a) && a != [] && b != [] && multiset(a) == multiset(b)
    ensures rank(a[0]) <= rank(b[0])
  {
    assert b[0] in multiset(a);
    var j :| 0 <= j < |a| && a[j] == b[0];
  }

  /** Sorting forgets the order and nothing else. */
  lemma SortForgetsOnlyOrder(rank: Ranking, a: seq<string>, b: seq<string>)
    requires Injective(rank)
    ensures Sort(rank, a) == Sort(rank, b) <==> multiset(a) == multiset(b)
  {
    if multiset(a) == multiset(b) {
      SortSorts(rank, a);
      SortSorts(rank, b);
      SortedIsCanonical(rank, Sort(rank, a), Sort(rank, b));
    }
  }

  // ---- images of lists up to order -------------------------------------------------------------

  /** The image of a list, up to order. */
  function Image<T, U>(s: seq<T>, f: T -> U): (m: multiset<U>)
    ensures |m| == |s|
  {
    if s == [] then multiset{} else multiset{f(s[0])} + Image(s[1..], f)
  }

  lemma {:induction false} ImageIsMultisetOfMap<T, U>(s: seq<T>, f: T -> U)
    ensures Image(s, f) == multiset(Map(s, f))
  {
    if s != [] {
      ImageIsMultisetOfMap(s[1..], f);
      assert Map(s, f) == [f(s[0])] + Map(s[1..], f);
    }
  }

  lemma {:induction false} ImageOfConcat<T, U>(s: seq<T>, t: seq<T>, f: T -> U)
    ensures Image(s + t, f) == Image(s, f) + Image(t, f)
  {
    if s == [] {
      assert s + t == t;
    } else {
      assert (s + t)[1..] == s[1..] + t;
      ImageOfConcat(s[1..], t, f);
    }
  }

  lemma {:induction false} InImage<T, U>(s: seq<T>, f: T -> U, u: U) returns (i: nat)
    requires u in Image(s, f)
    ensures i < |s| && f(s[i]) == u
  {
    if f(s[0]) == u {
      i := 0;
    } else {
      i := InImage(s[1..], f, u);
      i := i + 1;
    }
  }

  lemma ImageWithout<T, U>(s: seq<T>, f: T -> U, i: nat)
    requires i < |s|
    ensures Image(s, f) == multiset{f(s[i])} + Image(s[..i] + s[i + 1..], f)
  {
    assert s == s[..i] + s[i..];
    ImageOfConcat(s[..i], s[i..], f);
    ImageOfConcat(s[..i], s[i + 1..], f);
    assert s[i..][1..] == s[i + 1..];
  }

  /** If `f` tells apart everything `g` tells apart, lists with the same f-images up to order have
      the same g-images up to order. */
  lemma {:induction false} FinerImagesDecide<T(!new), U, V>(a: seq<T>, b: seq<T>, f: T -> U, g: T -> V)
    requires forall x, y :: f(x) == f(y) ==> g(x) == g(y)
    requires Image(a, f) == Image(b, f)
    ensures Image(a, g) == Image(b, g)
    decreases |a|
  {
    assert |Image(a, f)| == |a| && |Image(b, f)| == |b|;
    if a != [] {
      assert f(a[0]) in Image(b, f);
      var j := InImage(b, f, f(a[0]));
      ImageWithout(b, f, j);
      ImageWithout(b, g, j);
      var rest := b[..j] + b[j + 1..];
      assert Image(a[1..], f) == Image(a, f) - multiset{f(a[0])};
      assert Image(rest, f) == Image(b, f) - multiset{f(b[j])};
      FinerImagesDecide(a[1..], rest, f, g);
    }
  }
}
