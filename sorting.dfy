/** `sort_values(key, ascending=...)` with pandas' default `na_position="last"`: a row whose key
    is missing goes after every row whose key is present, in either direction.
    pandas' default sort is not stable, so only the order of keys is specified, not how ties
    are broken; the insertion sort below happens to keep ties in input order. */
module Sorting {
  import opened Tables

  /** `a` may stand before `b` in a table sorted on this key. */
  predicate Precedes(a: Option<real>, b: Option<real>, descending: bool) {
    match (a, b)
    case (Some(x), Some(y)) => if descending then x >= y else x <= y
    case (Some(_), None) => true
    case (None, None) => true
    case (None, Some(_)) => false
  }

  predicate SortedOn<T>(xs: seq<T>, key: T -> Option<real>, descending: bool) {
    forall i, j | 0 <= i < j < |xs| :: Precedes(key(xs[i]), key(xs[j]), descending)
  }

  /** Any two keys can be put in some order: the order is total. */
  lemma PrecedesTotal(a: Option<real>, b: Option<real>, descending: bool)
    ensures Precedes(a, b, descending) || Precedes(b, a, descending)
  {
  }

  function Insert<T>(x: T, xs: seq<T>, key: T -> Option<real>, descending: bool): (r: seq<T>)
    requires SortedOn(xs, key, descending)
    ensures multiset(r) == multiset(xs) + multiset{x}
    ensures SortedOn(r, key, descending)
  {
    if xs == [] then [x]
    else if Precedes(key(x), key(xs[0]), descending) then
      var r := [x] + xs;
      assert forall j | 1 <= j < |r| :: Precedes(key(xs[0]), key(r[j]), descending);
      PrecedesTransitiveFrom(key(x), key(xs[0]), xs, key, descending);
      r
    else
      var rest := Insert(x, xs[1..], key, descending);
      PrecedesTotal(key(x), key(xs[0]), descending);
      assert xs == [xs[0]] + xs[1..];
      HeadPrecedesAll(x, xs, rest, key, descending);
      [xs[0]] + rest
  }

  /** The head of a sorted list precedes every element of the tail with `x` inserted. */
  lemma HeadPrecedesAll<T>(x: T, xs: seq<T>, rest: seq<T>, key: T -> Option<real>, descending: bool)
    requires xs != [] && SortedOn(xs, key, descending) && Precedes(key(xs[0]), key(x), descending)
    requires multiset(rest) == multiset(xs[1..]) + multiset{x}
    ensures forall j | 0 <= j < |rest| :: Precedes(key(xs[0]), key(rest[j]), descending)
  {
    forall j | 0 <= j < |rest| ensures Precedes(key(xs[0]), key(rest[j]), descending) {
      assert rest[j] in multiset(rest);
      if rest[j] != x {
        assert rest[j] in multiset(xs[1..]);
        var k :| 0 <= k < |xs[1..]| && xs[1..][k] == rest[j];
        assert xs[k + 1] == rest[j];
      }
    }
  }

  /** Placing `a` before a sorted list whose head it precedes keeps the list sorted. */
  lemma PrecedesTransitiveFrom<T>(a: Option<real>, b: Option<real>, xs: seq<T>, key: T -> Option<real>, descending: bool)
    requires xs != [] && b == key(xs[0]) && SortedOn(xs, key, descending)
    requires Precedes(a, b, descending)
    ensures forall j | 0 <= j < |xs| :: Precedes(a, key(xs[j]), descending)
  {
  }

  /** The table sorted on the key (insertion sort); the order among equal keys is unspecified. */
  function SortOn<T>(xs: seq<T>, key: T -> Option<real>, descending: bool): (r: seq<T>)
    ensures multiset(r) == multiset(xs) && |r| == |xs|
    ensures SortedOn(r, key, descending)
  {
    if xs == [] then []
    else
      var rest := SortOn(xs[1..], key, descending);
      var r := Insert(xs[0], rest, key, descending);
      ConsPermutation(xs, rest, r);
      r
  }

  /** Inserting the head into a permutation of the tail gives a permutation of the whole. */
  lemma ConsPermutation<T>(xs: seq<T>, rest: seq<T>, r: seq<T>)
    requires xs != [] && multiset(rest) == multiset(xs[1..]) && multiset(r) == multiset(rest) + multiset{xs[0]}
    ensures multiset(r) == multiset(xs) && |r| == |xs|
  {
    assert xs == [xs[0]] + xs[1..];
    assert |multiset(r)| == |multiset(xs)|;
  }

  /** Elements of a permutation are elements of the original. */
  lemma PermutationMembers<T>(r: seq<T>, xs: seq<T>)
    requires multiset(r) == multiset(xs)
    ensures forall x :: x in r <==> x in xs
  {
    forall x ensures x in r <==> x in xs {
      assert x in r <==> x in multiset(r);
      assert x in xs <==> x in multiset(xs);
    }
  }

  /** A permutation of a sequence without repetitions has none either. */
  lemma {:induction false} PermutationDistinct<T>(r: seq<T>, xs: seq<T>)
    requires multiset(r) == multiset(xs) && Distinct(xs)
    ensures Distinct(r)
  {
    DistinctCounts(xs);
    forall i, j | 0 <= i < j < |r| ensures r[i] != r[j] {
      if r[i] == r[j] {
        TwiceCounts(r, i, j);
        assert false;
      }
    }
  }

  lemma {:induction false} DistinctCounts<T>(xs: seq<T>)
    requires Distinct(xs)
    ensures forall x :: multiset(xs)[x] <= 1
  {
    if xs != [] {
      var t := xs[1..];
      assert xs == [xs[0]] + t;
      assert Distinct(t);
      DistinctCounts(t);
      assert xs[0] !in t;
    }
  }

  lemma TwiceCounts<T>(r: seq<T>, i: nat, j: nat)
    requires i < j < |r| && r[i] == r[j]
    ensures multiset(r)[r[i]] >= 2
  {
    assert r == r[..j] + r[j..];
    assert r[i] in r[..j];
    assert r[j] in r[j..];
  }
}
