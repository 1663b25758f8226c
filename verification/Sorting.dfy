// A stable sort, as JavaScript's `Array.prototype.sort` is one, and when its result does not depend
// on the order it was given.
module Sorting {

  /** A comparison: nothing precedes what precedes it, and "not after" carries over. */
  ghost predicate IsOrder<T(!new)>(lt: (T, T) -> bool)
  {
    && (forall a, b :: lt(a, b) ==> !lt(b, a))
    && (forall a, b, c :: !lt(b, a) && !lt(c, b) ==> !lt(c, a))
  }

  function Insert<T>(x: T, sorted: seq<T>, lt: (T, T) -> bool): seq<T>
  {
    if sorted == [] || !lt(sorted[0], x) then [x] + sorted
    else [sorted[0]] + Insert(x, sorted[1..], lt)
  }

  function SortBy<T>(xs: seq<T>, lt: (T, T) -> bool): seq<T>
  {
    if xs == [] then [] else Insert(xs[0], SortBy(xs[1..], lt), lt)
  }

  ghost predicate SortedBy<T>(xs: seq<T>, lt: (T, T) -> bool)
  {
    forall i, j :: 0 <= i < j < |xs| ==> !lt(xs[j], xs[i])
  }

  lemma {:induction false} InsertKeeps<T>(x: T, sorted: seq<T>, lt: (T, T) -> bool)
    ensures multiset(Insert(x, sorted, lt)) == multiset{x} + multiset(sorted)
  {
    if sorted != [] && lt(sorted[0], x) {
      InsertKeeps(x, sorted[1..], lt);
      assert sorted == [sorted[0]] + sorted[1..];
    }
  }

  lemma {:induction false} SortKeeps<T>(xs: seq<T>, lt: (T, T) -> bool)
    ensures multiset(SortBy(xs, lt)) == multiset(xs)
  {
    if xs != [] {
      SortKeeps(xs[1..], lt);
      InsertKeeps(xs[0], SortBy(xs[1..], lt), lt);
      assert xs == [xs[0]] + xs[1..];
    }
  }

  lemma {:induction false} SameMultisetSameMembers<T>(xs: seq<T>, ys: seq<T>, x: T)
    requires multiset(xs) == multiset(ys)
    ensures x in xs <==> x in ys
  {
    assert x in xs <==> x in multiset(xs);
    assert x in ys <==> x in multiset(ys);
  }

  lemma {:induction false} SortKeepsMembers<T(!new)>(xs: seq<T>, lt: (T, T) -> bool)
    ensures |SortBy(xs, lt)| == |xs|
    ensures forall x :: x in SortBy(xs, lt) <==> x in xs
  {
    SortKeeps(xs, lt);
    assert |SortBy(xs, lt)| == |multiset(SortBy(xs, lt))| == |multiset(xs)| == |xs|;
    forall x
      ensures x in SortBy(xs, lt) <==> x in xs
    {
      SameMultisetSameMembers(SortBy(xs, lt), xs, x);
    }
  }

  lemma {:induction false} InsertSorts<T(!new)>(x: T, sorted: seq<T>, lt: (T, T) -> bool)
    requires IsOrder(lt) && SortedBy(sorted, lt)
    ensures SortedBy(Insert(x, sorted, lt), lt)
  {
    var r := Insert(x, sorted, lt);
    if sorted == [] {
    } else if !lt(sorted[0], x) {
      forall i, j | 0 <= i < j < |r|
        ensures !lt(r[j], r[i])
      {
        assert i == 0 && j > 1 ==> !lt(sorted[j - 1], sorted[0]);
      }
    } else {
      InsertSorts(x, sorted[1..], lt);
      InsertKeeps(x, sorted[1..], lt);
      forall j | 0 < j < |r|
        ensures !lt(r[j], r[0])
      {
        assert r[j] in Insert(x, sorted[1..], lt);
        assert r[j] in multiset(Insert(x, sorted[1..], lt));
        assert r[j] == x || r[j] in sorted[1..];
      }
    }
  }

  lemma {:induction false} SortSorts<T(!new)>(xs: seq<T>, lt: (T, T) -> bool)
    requires IsOrder(lt)
    ensures SortedBy(SortBy(xs, lt), lt)
  {
    if xs != [] {
      SortSorts(xs[1..], lt);
      InsertSorts(xs[0], SortBy(xs[1..], lt), lt);
    }
  }

  /** Two elements the comparison cannot tell apart are the same element. */
  ghost predicate NoTies<T>(xs: seq<T>, lt: (T, T) -> bool)
  {
    forall x, y :: x in xs && y in xs && !lt(x, y) && !lt(y, x) ==> x == y
  }

  lemma {:induction false} FirstIsShared<T>(a: seq<T>, b: seq<T>, lt: (T, T) -> bool)
    requires SortedBy(a, lt) && SortedBy(b, lt) && multiset(a) == multiset(b)
    requires NoTies(a, lt) && a != [] && b != []
    ensures a[0] == b[0]
  {
    SameMultisetSameMembers(a, b, a[0]);
    SameMultisetSameMembers(a, b, b[0]);
    var i :| 0 <= i < |b| && b[i] == a[0];
    var j :| 0 <= j < |a| && a[j] == b[0];
    assert a[0] in a && b[0] in a;
  }

  lemma {:induction false} RestsAreShared<T>(a: seq<T>, b: seq<T>)
    requires multiset(a) == multiset(b) && a != [] && b != [] && a[0] == b[0]
    ensures multiset(a[1..]) == multiset(b[1..])
  {
    assert a == [a[0]] + a[1..] && b == [b[0]] + b[1..];
    assert multiset(a[1..]) == multiset(a) - multiset{a[0]};
    assert multiset(b[1..]) == multiset(b) - multiset{b[0]};
  }

  /** One multiset without ties has one sorted order. */
  lemma {:induction false} SortedIsUnique<T(!new)>(a: seq<T>, b: seq<T>, lt: (T, T) -> bool)
    requires SortedBy(a, lt) && SortedBy(b, lt) && multiset(a) == multiset(b)
    requires NoTies(a, lt)
    ensures a == b
  {
    assert |a| == |multiset(a)| == |multiset(b)| == |b|;
    if a != [] {
      FirstIsShared(a, b, lt);
      RestsAreShared(a, b);
      SortedIsUnique(a[1..], b[1..], lt);
      assert a == [a[0]] + a[1..] && b == [b[0]] + b[1..];
    }
  }

  /** The sort of a list without ties does not depend on the order it was given in. */
  lemma {:induction false} SortForgetsOrder<T(!new)>(xs: seq<T>, ys: seq<T>, lt: (T, T) -> bool)
    requires IsOrder(lt) && NoTies(xs, lt) && multiset(xs) == multiset(ys)
    ensures SortBy(xs, lt) == SortBy(ys, lt)
  {
    SortSorts(xs, lt);
    SortSorts(ys, lt);
    SortKeeps(xs, lt);
    SortKeeps(ys, lt);
    SortKeepsMembers(xs, lt);
    SortedIsUnique(SortBy(xs, lt), SortBy(ys, lt), lt);
  }
}
