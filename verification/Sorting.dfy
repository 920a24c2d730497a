/** A stable sort, as Python's `sorted` and `list.sort`, by a strict weak order `before`. */
module Sorting {

  function Insert<T>(x: T, sorted: seq<T>, before: (T, T) -> bool): seq<T> {
    if |sorted| == 0 || before(x, sorted[0]) then [x] + sorted else [sorted[0]] + Insert(x, sorted[1..], before)
  }

  function Sort<T>(xs: seq<T>, before: (T, T) -> bool): seq<T> {
    if |xs| == 0 then [] else Insert(xs[|xs| - 1], Sort(xs[..|xs| - 1], before), before)
  }

  ghost predicate WeakOrder<T(!new)>(before: (T, T) -> bool) {
    && (forall a, b :: before(a, b) ==> !before(b, a))
    && (forall a, b, c :: before(a, c) ==> before(a, b) || before(b, c))
  }

  ghost predicate Ascending<T>(xs: seq<T>, before: (T, T) -> bool) {
    forall i, j :: 0 <= i < j < |xs| ==> !before(xs[j], xs[i])
  }

  ghost predicate Pairwise<T>(xs: seq<T>, apart: (T, T) -> bool) {
    forall i, j :: 0 <= i < j < |xs| ==> apart(xs[i], xs[j])
  }

  lemma {:induction false} InsertMembers<T(!new)>(x: T, sorted: seq<T>, before: (T, T) -> bool)
    ensures forall y :: y in Insert(x, sorted, before) <==> y == x || y in sorted
  {
    if |sorted| > 0 && !before(x, sorted[0]) {
      InsertMembers(x, sorted[1..], before);
      assert sorted == [sorted[0]] + sorted[1..];
    }
  }

  lemma StaysAfter<T(!new)>(before: (T, T) -> bool, a: T, b: T, x: T)
    requires WeakOrder(before) && !before(a, b) && before(x, b)
    ensures !before(a, x)
  {
    assert before(a, x) ==> before(a, b) || before(b, x);
  }

  lemma {:induction false} InsertAscends<T(!new)>(x: T, sorted: seq<T>, before: (T, T) -> bool)
    requires WeakOrder(before) && Ascending(sorted, before)
    ensures Ascending(Insert(x, sorted, before), before)
  {
    if |sorted| == 0 || before(x, sorted[0]) {
      forall j | 0 <= j < |sorted|
        ensures !before(sorted[j], x)
      {
        StaysAfter(before, sorted[j], sorted[0], x);
      }
    } else {
      InsertAscends(x, sorted[1..], before);
      InsertMembers(x, sorted[1..], before);
      var rest := Insert(x, sorted[1..], before);
      forall j | 0 <= j < |rest|
        ensures !before(rest[j], sorted[0])
      {
        assert rest[j] in rest;
      }
    }
  }

  lemma {:induction false} InsertPermutes<T>(x: T, sorted: seq<T>, before: (T, T) -> bool)
    ensures multiset(Insert(x, sorted, before)) == multiset(sorted) + multiset{x}
  {
    if |sorted| > 0 && !before(x, sorted[0]) {
      InsertPermutes(x, sorted[1..], before);
      assert sorted == [sorted[0]] + sorted[1..];
    }
  }

  lemma {:induction false} InsertApart<T(!new)>(x: T, sorted: seq<T>, before: (T, T) -> bool, apart: (T, T) -> bool)
    requires Pairwise(sorted, apart) && forall y :: y in sorted ==> apart(x, y) && apart(y, x)
    ensures Pairwise(Insert(x, sorted, before), apart)
  {
    if |sorted| > 0 && !before(x, sorted[0]) {
      InsertApart(x, sorted[1..], before, apart);
      InsertMembers(x, sorted[1..], before);
      var rest := Insert(x, sorted[1..], before);
      forall j | 0 <= j < |rest|
        ensures apart(sorted[0], rest[j])
      {
        assert rest[j] in rest;
        HeadApart(x, sorted, rest[j], apart);
      }
    }
  }

  lemma HeadApart<T(!new)>(x: T, sorted: seq<T>, y: T, apart: (T, T) -> bool)
    requires |sorted| > 0 && Pairwise(sorted, apart) && (forall z :: z in sorted ==> apart(x, z) && apart(z, x))
    requires y == x || y in sorted[1..]
    ensures apart(sorted[0], y)
  {
    if y == x {
      assert sorted[0] in sorted;
    } else {
      var k :| 0 <= k < |sorted[1..]| && sorted[1..][k] == y;
      assert sorted[k + 1] == y;
    }
  }

  /** The result is ordered and a permutation of the input. */
  lemma {:induction false} SortIsSort<T(!new)>(xs: seq<T>, before: (T, T) -> bool)
    requires WeakOrder(before)
    ensures Ascending(Sort(xs, before), before) && multiset(Sort(xs, before)) == multiset(xs)
    ensures forall x :: x in Sort(xs, before) <==> x in xs
  {
    if |xs| > 0 {
      var front, last := xs[..|xs| - 1], xs[|xs| - 1];
      assert xs == front + [last];
      SortIsSort(front, before);
      InsertAscends(last, Sort(front, before), before);
      InsertPermutes(last, Sort(front, before), before);
      InsertMembers(last, Sort(front, before), before);
    }
  }

  /** Sorting keeps a symmetric relation between all pairs. */
  lemma {:induction false} SortKeepsPairwise<T(!new)>(xs: seq<T>, before: (T, T) -> bool, apart: (T, T) -> bool)
    requires WeakOrder(before) && Pairwise(xs, apart) && forall a, b :: apart(a, b) ==> apart(b, a)
    ensures Pairwise(Sort(xs, before), apart)
  {
    if |xs| > 0 {
      var front, last := xs[..|xs| - 1], xs[|xs| - 1];
      SortKeepsPairwise(front, before, apart);
      SortIsSort(front, before);
      forall y | y in Sort(front, before)
        ensures apart(last, y) && apart(y, last)
      {
        var i :| 0 <= i < |front| && front[i] == y;
        assert apart(xs[i], xs[|xs| - 1]);
      }
      InsertApart(last, Sort(front, before), before, apart);
    }
  }

  // ---------- stability ----------

  predicate Ties<T>(a: T, b: T, before: (T, T) -> bool) { !before(a, b) && !before(b, a) }

  /** The elements that tie with `z`, in order. */
  function Tied<T>(xs: seq<T>, z: T, before: (T, T) -> bool): seq<T> {
    if |xs| == 0 then [] else (if Ties(xs[0], z, before) then [xs[0]] else []) + Tied(xs[1..], z, before)
  }

  lemma {:induction false} TiedOfSum<T>(xs: seq<T>, ys: seq<T>, z: T, before: (T, T) -> bool)
    ensures Tied(xs + ys, z, before) == Tied(xs, z, before) + Tied(ys, z, before)
  {
    if |xs| == 0 {
      assert xs + ys == ys;
    } else {
      TiedOfSum(xs[1..], ys, z, before);
      assert (xs + ys)[0] == xs[0] && (xs + ys)[1..] == xs[1..] + ys;
    }
  }

  lemma {:induction false} NoneTied<T(!new)>(xs: seq<T>, z: T, before: (T, T) -> bool)
    requires forall y :: y in xs ==> before(z, y)
    ensures Tied(xs, z, before) == []
  {
    if |xs| > 0 { NoneTied(xs[1..], z, before); }
  }

  lemma ComesBefore<T(!new)>(before: (T, T) -> bool, x: T, a: T, y: T)
    requires WeakOrder(before) && before(x, a) && !before(y, a)
    ensures before(x, y)
  {
    assert before(x, y) || before(y, a);
  }

  lemma AllAfter<T(!new)>(x: T, sorted: seq<T>, z: T, before: (T, T) -> bool)
    requires WeakOrder(before) && Ascending(sorted, before) && |sorted| > 0
    requires before(x, sorted[0]) && Ties(x, z, before)
    ensures forall y :: y in sorted ==> before(z, y)
  {
    forall y | y in sorted
      ensures before(z, y)
    {
      var i :| 0 <= i < |sorted| && sorted[i] == y;
      ComesBefore(before, x, sorted[0], y);
      assert before(x, z) || before(z, y);
    }
  }

  lemma {:induction false} InsertKeepsTies<T(!new)>(x: T, sorted: seq<T>, z: T, before: (T, T) -> bool)
    requires WeakOrder(before) && Ascending(sorted, before)
    ensures Tied(Insert(x, sorted, before), z, before) ==
            Tied(sorted, z, before) + if Ties(x, z, before) then [x] else []
  {
    if |sorted| == 0 || before(x, sorted[0]) {
      if |sorted| > 0 && Ties(x, z, before) {
        AllAfter(x, sorted, z, before);
        NoneTied(sorted, z, before);
      }
      assert ([x] + sorted)[1..] == sorted;
    } else {
      InsertKeepsTies(x, sorted[1..], z, before);
      assert ([sorted[0]] + Insert(x, sorted[1..], before))[1..] == Insert(x, sorted[1..], before);
    }
  }

  /** Elements that tie stay in the order they came in. */
  lemma {:induction false} SortIsStable<T(!new)>(xs: seq<T>, z: T, before: (T, T) -> bool)
    requires WeakOrder(before)
    ensures Tied(Sort(xs, before), z, before) == Tied(xs, z, before)
  {
    if |xs| > 0 {
      var front, last := xs[..|xs| - 1], xs[|xs| - 1];
      SortIsStable(front, z, before);
      SortIsSort(front, before);
      InsertKeepsTies(last, Sort(front, before), z, before);
      TiedOfSum(front, [last], z, before);
      assert xs == front + [last];
    }
  }
}
