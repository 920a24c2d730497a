/** Histogram quantiles (measure/thresholds/sampler.py: `_quantile`), over the reals. A rank
    in the +Inf bucket is reported as a lower bound, not as the largest finite boundary. */
module Quantile {
  import opened Wrappers

  /** A bucket boundary. */
  datatype Bound = NegInf | Fin(r: real) | PosInf

  predicate Lt(a: Bound, b: Bound) {
    match a
    case NegInf => !b.NegInf?
    case Fin(x) => b.PosInf? || (b.Fin? && x < b.r)
    case PosInf => false
  }

  datatype Answer = Nothing | Value(v: real) | AtLeast(top: real)

  type Buckets = seq<(Bound, real)>

  // ---------- merging ----------

  /** The sum of the counts reported for `le`. */
  function SumAt(buckets: Buckets, le: Bound): real {
    if |buckets| == 0 then 0.0
    else SumAt(buckets[..|buckets| - 1], le) + if buckets[|buckets| - 1].0 == le then buckets[|buckets| - 1].1 else 0.0
  }

  function Bounds(buckets: Buckets): set<Bound> { set i | 0 <= i < |buckets| :: buckets[i].0 }

  function Merged(buckets: Buckets): map<Bound, real> { map le | le in Bounds(buckets) :: SumAt(buckets, le) }

  method Merge(buckets: Buckets) returns (merged: map<Bound, real>)
    ensures merged == Merged(buckets)
  {
    merged := map[];
    for i := 0 to |buckets|
      invariant merged == Merged(buckets[..i])
    {
      var (le, count) := buckets[i];
      assert buckets[..i + 1][..i] == buckets[..i];
      OneMoreBound(buckets[..i], buckets[i]);
      assert buckets[..i] + [buckets[i]] == buckets[..i + 1];
      if le !in merged { NotReported(buckets[..i], le); }
      merged := merged[le := (if le in merged then merged[le] else 0.0) + count];
    }
    assert buckets[..|buckets|] == buckets;
  }

  lemma OneMoreBound(buckets: Buckets, last: (Bound, real))
    ensures Bounds(buckets + [last]) == Bounds(buckets) + {last.0}
  {
    var all := buckets + [last];
    assert all[|buckets|] == last && forall i :: 0 <= i < |buckets| ==> all[i] == buckets[i];
  }

  lemma {:induction false} NotReported(buckets: Buckets, le: Bound)
    requires le !in Bounds(buckets)
    ensures SumAt(buckets, le) == 0.0
  {
    if |buckets| > 0 {
      var front := buckets[..|buckets| - 1];
      assert buckets == front + [buckets[|buckets| - 1]];
      OneMoreBound(front, buckets[|buckets| - 1]);
      NotReported(front, le);
    }
  }

  // ---------- sorting ----------

  predicate Ascending(ks: seq<Bound>) { forall i, j :: 0 <= i < j < |ks| ==> Lt(ks[i], ks[j]) }

  /** `ks` lists `keys` in ascending order. */
  ghost predicate Lists(ks: seq<Bound>, keys: set<Bound>) { Ascending(ks) && (forall k :: k in keys <==> k in ks) }

  method Least(keys: set<Bound>) returns (least: Bound)
    requires keys != {}
    ensures least in keys && forall k :: k in keys ==> k == least || Lt(least, k)
  {
    least :| least in keys;
    var todo := keys - {least};
    while todo != {}
      invariant todo <= keys && least in keys
      invariant forall k :: k in keys && k !in todo ==> k == least || Lt(least, k)
    {
      var k :| k in todo;
      if Lt(k, least) { least := k; }
      todo := todo - {k};
    }
  }

  method SortedKeys(keys: set<Bound>) returns (ks: seq<Bound>)
    ensures Lists(ks, keys)
  {
    ks := [];
    var todo := keys;
    while todo != {}
      invariant todo <= keys && Ascending(ks) && (forall k :: k in ks <==> k in keys - todo)
      invariant forall k, l :: k in ks && l in todo ==> Lt(k, l)
    {
      var k := Least(todo);
      forall i | 0 <= i < |ks|
        ensures Lt(ks[i], k)
      {
        assert ks[i] in ks;
      }
      ks, todo := ks + [k], todo - {k};
    }
  }

  lemma FirstIsMember(ls: seq<Bound>)
    ensures |ls| > 0 ==> ls[0] in ls
  {
  }

  lemma {:induction false} OneOrder(ks: seq<Bound>, ls: seq<Bound>, keys: set<Bound>)
    requires Lists(ks, keys) && Lists(ls, keys)
    ensures ks == ls
    decreases |ks|
  {
    FirstIsMember(ls);
    if |ks| > 0 {
      assert ks[0] in ks && ks[0] in ls;
      var j :| 0 <= j < |ls| && ls[j] == ks[0];
      assert ls[0] in ls && ls[0] in ks;
      var i :| 0 <= i < |ks| && ks[i] == ls[0];
      assert i == 0 && j == 0;
      TailLists(ks, keys);
      TailLists(ls, keys);
      OneOrder(ks[1..], ls[1..], keys - {ks[0]});
      assert ks == [ks[0]] + ks[1..] && ls == [ls[0]] + ls[1..];
    }
  }

  lemma TailLists(ks: seq<Bound>, keys: set<Bound>)
    requires Lists(ks, keys) && |ks| > 0
    ensures Lists(ks[1..], keys - {ks[0]})
  {
    assert ks == [ks[0]] + ks[1..];
    forall k | k in ks[1..]
      ensures k != ks[0]
    {
      var i :| 0 <= i < |ks[1..]| && ks[1..][i] == k;
      assert Lt(ks[0], ks[i + 1]);
    }
  }

  // ---------- the quantile ----------

  function Max(a: real, b: real): real { if a >= b then a else b }

  /** The running maximum of the merged counts up to `ks[i]`. */
  function Cumulative(ks: seq<Bound>, m: map<Bound, real>, i: nat): real
    requires i < |ks| && forall k :: k in ks ==> k in m
  {
    Max(if i == 0 then 0.0 else Cumulative(ks, m, i - 1), m[ks[i]])
  }

  /** Is there a quantile to compute? */
  predicate Measurable(ks: seq<Bound>, m: map<Bound, real>)
    requires forall k :: k in ks ==> k in m
  {
    |ks| >= 2 && ks[|ks| - 1] == PosInf && Cumulative(ks, m, |ks| - 1) > 0.0
  }

  function Total(ks: seq<Bound>, m: map<Bound, real>): real
    requires (forall k :: k in ks ==> k in m) && |ks| > 0
  {
    Cumulative(ks, m, |ks| - 1)
  }

  function Rank(q: real, total: real): real { q * total }

  /** `b` is the bucket the rank falls in: the first whose cumulative count reaches it. */
  predicate IsBucket(ks: seq<Bound>, m: map<Bound, real>, rank: real, b: nat)
    requires forall k :: k in ks ==> k in m
  {
    b < |ks| && Cumulative(ks, m, b) >= rank && (b > 0 ==> Cumulative(ks, m, b - 1) < rank)
  }

  /** The answer for a rank in bucket `b`. */
  function AnswerIn(ks: seq<Bound>, m: map<Bound, real>, rank: real, b: nat): Answer
    requires (forall k :: k in ks ==> k in m) && |ks| >= 2 && b < |ks| && (b < |ks| - 1 ==> !ks[b].PosInf?)
  {
    if b == |ks| - 1 then
      if ks[b - 1].Fin? then AtLeast(ks[b - 1].r) else Nothing
    else if ks[b].NegInf? then Nothing
    else
      var upper := ks[b].r;
      if b == 0 && upper <= 0.0 then Value(upper)
      else
        var lower := if b > 0 then ks[b - 1] else Fin(0.0);
        var below := if b > 0 then Cumulative(ks, m, b - 1) else 0.0;
        var count := Cumulative(ks, m, b);
        if count - below <= 0.0 || !lower.Fin? then Nothing
        else Value(lower.r + (upper - lower.r) * (rank - below) / (count - below))
  }

  predicate FiniteBefore(ks: seq<Bound>) { forall i :: 0 <= i < |ks| - 1 ==> !ks[i].PosInf? }

  /** `answer` is what bucket `b` gives for the boundaries in the order `ks`. */
  ghost predicate AnsweredBy(q: real, m: map<Bound, real>, ks: seq<Bound>, b: nat, answer: Answer) {
    && Lists(ks, m.Keys) && FiniteBefore(ks)
    && if !(0.0 <= q <= 1.0) || !Measurable(ks, m) then answer == Nothing
       else IsBucket(ks, m, Rank(q, Total(ks, m)), b) && answer == AnswerIn(ks, m, Rank(q, Total(ks, m)), b)
  }

  ghost predicate IsQuantile(q: real, m: map<Bound, real>, answer: Answer) {
    exists ks, b: nat :: AnsweredBy(q, m, ks, b, answer)
  }

  method Cumulate(ks: seq<Bound>, m: map<Bound, real>) returns (cumulative: seq<real>)
    requires forall k :: k in ks ==> k in m
    ensures |cumulative| == |ks| && forall i :: 0 <= i < |ks| ==> cumulative[i] == Cumulative(ks, m, i)
  {
    cumulative := [];
    var running := 0.0;
    for i := 0 to |ks|
      invariant |cumulative| == i && (forall j :: 0 <= j < i ==> cumulative[j] == Cumulative(ks, m, j))
      invariant running == if i == 0 then 0.0 else Cumulative(ks, m, i - 1)
    {
      running := Max(running, m[ks[i]]);
      cumulative := cumulative + [running];
    }
  }

  method Quantile(q: real, buckets: Buckets) returns (answer: Answer)
    ensures IsQuantile(q, Merged(buckets), answer)
  {
    hide AnswerIn, Rank, Ascending, Merged, Cumulative;
    var merged := Merge(buckets);
    var ks := SortedKeys(merged.Keys);
    BeforeLast(ks);
    if !(0.0 <= q <= 1.0) || |ks| < 2 || ks[|ks| - 1] != PosInf {
      assert AnsweredBy(q, merged, ks, 0, Nothing);
      return Nothing;
    }
    var cumulative := Cumulate(ks, merged);
    var total := cumulative[|ks| - 1];
    if total <= 0.0 {
      assert AnsweredBy(q, merged, ks, 0, Nothing);
      return Nothing;
    }
    var rank := Rank(q, total);
    RankInRange(q, total);
    var b := 0;
    while cumulative[b] < rank
      invariant b < |ks| && (b > 0 ==> cumulative[b - 1] < rank)
      decreases |ks| - b
    {
      b := b + 1;
    }
    answer := AnswerIn(ks, merged, rank, b);
    assert AnsweredBy(q, merged, ks, b, answer);
  }

  lemma RankInRange(q: real, total: real)
    requires 0.0 <= q <= 1.0 && total > 0.0
    ensures 0.0 <= Rank(q, total) <= total && (q > 0.0 ==> Rank(q, total) > 0.0)
  {
  }

  lemma BeforeLast(ks: seq<Bound>)
    requires Ascending(ks)
    ensures FiniteBefore(ks)
  {
    forall i | 0 <= i < |ks| - 1
      ensures !ks[i].PosInf?
    {
      assert Lt(ks[i], ks[i + 1]);
    }
  }

  lemma {:induction false} CumulativeGrows(ks: seq<Bound>, m: map<Bound, real>, i: nat, j: nat)
    requires i <= j < |ks| && forall k :: k in ks ==> k in m
    ensures 0.0 <= Cumulative(ks, m, i) <= Cumulative(ks, m, j)
    decreases j
  {
    if i < j { CumulativeGrows(ks, m, i, j - 1); } else if i > 0 { CumulativeGrows(ks, m, i - 1, i - 1); }
  }

  lemma OneBucket(ks: seq<Bound>, m: map<Bound, real>, rank: real)
    requires forall k :: k in ks ==> k in m
    ensures forall b: nat, c: nat :: IsBucket(ks, m, rank, b) && IsBucket(ks, m, rank, c) ==> b == c
  {
    forall b: nat, c: nat | IsBucket(ks, m, rank, b) && IsBucket(ks, m, rank, c)
      ensures b == c
    {
      if b < c { CumulativeGrows(ks, m, b, c - 1); }
      if c < b { CumulativeGrows(ks, m, c, b - 1); }
    }
  }

  /** The buckets determine the answer. */
  lemma OneAnswer(q: real, m: map<Bound, real>, a: Answer, b: Answer)
    requires IsQuantile(q, m, a) && IsQuantile(q, m, b)
    ensures a == b
  {
    hide AnswerIn, Cumulative, Rank, Ascending;
    var ks, i: nat :| AnsweredBy(q, m, ks, i, a);
    var ls, j: nat :| AnsweredBy(q, m, ls, j, b);
    OneOrder(ks, ls, m.Keys);
    if 0.0 <= q <= 1.0 && Measurable(ks, m) {
      OneBucket(ks, m, Rank(q, Total(ks, m)));
    }
  }

  /** Inside a bucket the answer is linear in the rank: it divides the bucket as the rank
      divides the bucket's count. */
  lemma DividesBucket(ks: seq<Bound>, m: map<Bound, real>, rank: real, b: nat)
    requires Ascending(ks) && FiniteBefore(ks) && (forall k :: k in ks ==> k in m) && 0 < b < |ks| - 1 && ks[b - 1].Fin?
    requires rank > 0.0 && IsBucket(ks, m, rank, b)
    ensures var lower, upper := ks[b - 1].r, ks[b].r;
            var below, count := Cumulative(ks, m, b - 1), Cumulative(ks, m, b);
            && AnswerIn(ks, m, rank, b).Value?
            && (AnswerIn(ks, m, rank, b).v - lower) * (count - below) == (upper - lower) * (rank - below)
  {
    assert Lt(ks[b - 1], ks[b]);
    var below, count := Cumulative(ks, m, b - 1), Cumulative(ks, m, b);
    Cancels((ks[b].r - ks[b - 1].r) * (rank - below), count - below);
  }

  /** The first bucket starts at zero; below zero there is nothing to divide, and the answer is its
      boundary. */
  lemma DividesFirstBucket(ks: seq<Bound>, m: map<Bound, real>, rank: real)
    requires Ascending(ks) && FiniteBefore(ks) && (forall k :: k in ks ==> k in m) && |ks| >= 2 && ks[0].Fin?
    requires rank > 0.0 && IsBucket(ks, m, rank, 0)
    ensures AnswerIn(ks, m, rank, 0).Value?
    ensures var v, upper := AnswerIn(ks, m, rank, 0).v, ks[0].r;
            if upper <= 0.0 then v == upper else v * m[ks[0]] == upper * rank
  {
    assert Cumulative(ks, m, 0) == m[ks[0]];
    if ks[0].r > 0.0 { Cancels(ks[0].r * rank, m[ks[0]]); }
  }

  lemma Cancels(x: real, y: real)
    requires y > 0.0
    ensures (x / y) * y == x
  {
  }

  // ---------- order and splitting of the buckets ----------

  lemma {:induction false} SumIsAdditive(xs: Buckets, ys: Buckets, le: Bound)
    ensures SumAt(xs + ys, le) == SumAt(xs, le) + SumAt(ys, le)
    decreases |ys|
  {
    if |ys| == 0 {
      assert xs + ys == xs;
    } else {
      var front := ys[..|ys| - 1];
      assert (xs + ys)[..|xs + ys| - 1] == xs + front;
      SumIsAdditive(xs, front, le);
    }
  }

  lemma BoundsOfSum(xs: Buckets, ys: Buckets)
    ensures Bounds(xs + ys) == Bounds(xs) + Bounds(ys)
  {
    var all := xs + ys;
    assert forall i :: 0 <= i < |xs| ==> all[i] == xs[i];
    assert forall i :: 0 <= i < |ys| ==> all[|xs| + i] == ys[i];
    forall le | le in Bounds(all)
      ensures le in Bounds(xs) + Bounds(ys)
    {
      var i :| 0 <= i < |all| && all[i].0 == le;
      if i >= |xs| { assert all[i] == ys[i - |xs|]; }
    }
  }

  lemma {:induction false} SameEntriesSameSum(xs: Buckets, ys: Buckets, le: Bound)
    requires multiset(xs) == multiset(ys)
    ensures SumAt(xs, le) == SumAt(ys, le)
    decreases |ys|
  {
    assert |xs| == |multiset(xs)| == |multiset(ys)| == |ys|;
    if |ys| > 0 {
      var front, last := ys[..|ys| - 1], ys[|ys| - 1];
      assert ys == front + [last];
      var k := Find(xs, front, last);
      SumIsAdditive(xs[..k + 1], xs[k + 1..], le);
      assert xs == xs[..k + 1] + xs[k + 1..] && xs[..k + 1][..k] == xs[..k];
      SumIsAdditive(xs[..k], xs[k + 1..], le);
      SameEntriesSameSum(xs[..k] + xs[k + 1..], front, le);
    }
  }

  lemma Find(xs: Buckets, front: Buckets, last: (Bound, real)) returns (k: nat)
    requires multiset(xs) == multiset(front + [last])
    ensures k < |xs| && xs[k] == last && multiset(xs[..k] + xs[k + 1..]) == multiset(front)
  {
    assert last in multiset(front + [last]);
    assert last in xs;
    k :| 0 <= k < |xs| && xs[k] == last;
    assert xs == xs[..k] + [last] + xs[k + 1..];
    var a, b := multiset(xs[..k] + xs[k + 1..]), multiset(front);
    assert multiset(xs) == a + multiset{last} && multiset(front + [last]) == b + multiset{last};
    assert a == (a + multiset{last}) - multiset{last} && b == (b + multiset{last}) - multiset{last};
  }

  /** The order of the buckets does not matter. */
  lemma ReorderingIsInvisible(xs: Buckets, ys: Buckets)
    requires multiset(xs) == multiset(ys)
    ensures Merged(xs) == Merged(ys)
  {
    forall le
      ensures le in Bounds(xs) <==> le in Bounds(ys)
      ensures SumAt(xs, le) == SumAt(ys, le)
    {
      SameEntriesSameSum(xs, ys, le);
      if le in Bounds(xs) { SameEntriesSameBounds(xs, ys, le); }
      if le in Bounds(ys) { SameEntriesSameBounds(ys, xs, le); }
    }
  }

  lemma SameEntriesSameBounds(xs: Buckets, ys: Buckets, le: Bound)
    requires multiset(xs) == multiset(ys) && le in Bounds(xs)
    ensures le in Bounds(ys)
  {
    var i :| 0 <= i < |xs| && xs[i].0 == le;
    assert xs[i] in multiset(ys);
    assert xs[i] in ys;
  }

  /** Splitting a bucket's count over two entries changes nothing. */
  lemma SplittingIsInvisible(xs: Buckets, le: Bound, a: real, b: real, ys: Buckets)
    ensures Merged(xs + [(le, a + b)] + ys) == Merged(xs + [(le, a), (le, b)] + ys)
  {
    var one, two: Buckets := [(le, a + b)], [(le, a), (le, b)];
    forall k
      ensures SumAt(xs + one + ys, k) == SumAt(xs + two + ys, k)
    {
      SumIsAdditive(xs + one, ys, k);
      SumIsAdditive(xs, one, k);
      SumIsAdditive(xs + two, ys, k);
      SumIsAdditive(xs, two, k);
      assert two[..1] == [(le, a)] && one[..0] == [] && two[..1][..0] == [];
    }
    BoundsOfSum(xs + one, ys);
    BoundsOfSum(xs, one);
    BoundsOfSum(xs + two, ys);
    BoundsOfSum(xs, two);
    assert one[0].0 == le && two[0].0 == le && two[1].0 == le;
    assert Bounds(one) == {le} == Bounds(two);
  }

  // ---------- interpolation ----------

  /** Interpolating a rank inside a bucket lands inside the bucket, the further up the
      higher the rank. */
  lemma Interpolates(lower: real, upper: real, x: real, y: real, width: real)
    requires lower < upper && 0.0 < x <= y <= width
    ensures lower < lower + (upper - lower) * x / width <= lower + (upper - lower) * y / width <= upper
  {
    var d := upper - lower;
    assert 0.0 < d * x;
    assert d * x <= d * y;
    assert d * y <= d * width;
    DividesMonotone(d * x, d * y, d * width, width);
    assert d * width / width == d;
  }

  lemma DividesMonotone(a: real, b: real, c: real, width: real)
    requires 0.0 < a <= b <= c && 0.0 < width
    ensures 0.0 < a / width <= b / width <= c / width
  {
  }

  /** A bound as an answer's position. */
  predicate UpTo(v: real, bound: Bound) { bound.PosInf? || (bound.Fin? && v <= bound.r) }

  predicate Above(v: real, bound: Bound) { bound.NegInf? || (bound.Fin? && v > bound.r) }

  /** For a positive rank the divisor is positive, and a value answer lies in the bucket the
      rank falls in. */
  lemma ValueInBucket(ks: seq<Bound>, m: map<Bound, real>, rank: real, b: nat)
    requires Ascending(ks) && FiniteBefore(ks) && (forall k :: k in ks ==> k in m) && |ks| >= 2
    requires rank > 0.0 && IsBucket(ks, m, rank, b)
    ensures Cumulative(ks, m, b) - (if b > 0 then Cumulative(ks, m, b - 1) else 0.0) > 0.0
    ensures AnswerIn(ks, m, rank, b).Value? ==>
              UpTo(AnswerIn(ks, m, rank, b).v, ks[b]) && (b > 0 ==> Above(AnswerIn(ks, m, rank, b).v, ks[b - 1])) &&
                b < |ks| - 1
  {
    var answer := AnswerIn(ks, m, rank, b);
    if answer.Value? && b == 0 && ks[b].r <= 0.0 {
      assert answer.v == ks[b].r;
    } else if answer.Value? {
      var below := if b > 0 then Cumulative(ks, m, b - 1) else 0.0;
      var lower := if b > 0 then ks[b - 1] else Fin(0.0);
      assert b > 0 ==> Lt(ks[b - 1], ks[b]);
      Interpolates(lower.r, ks[b].r, rank - below, rank - below, Cumulative(ks, m, b) - below);
    }
  }

  // ---------- order statistics ----------

  /** How many of `obs` are at most `le`. */
  function Count(obs: seq<real>, le: Bound): nat {
    if |obs| == 0 then 0 else Count(obs[..|obs| - 1], le) + if UpTo(obs[|obs| - 1], le) then 1 else 0
  }

  predicate SortedReals(obs: seq<real>) { forall i, j :: 0 <= i < j < |obs| ==> obs[i] <= obs[j] }

  /** The merged counts are those of the observations `obs`. */
  ghost predicate Consistent(m: map<Bound, real>, obs: seq<real>) {
    SortedReals(obs) && forall le :: le in m ==> m[le] == Count(obs, le) as real
  }

  /** In sorted observations the first Count are the ones at most the boundary. */
  lemma {:induction false} CountSplits(obs: seq<real>, le: Bound)
    requires SortedReals(obs)
    ensures Count(obs, le) <= |obs|
    ensures forall i :: 0 <= i < |obs| ==> (UpTo(obs[i], le) <==> i < Count(obs, le))
  {
    if |obs| > 0 {
      var front := obs[..|obs| - 1];
      CountSplits(front, le);
      forall i | 0 <= i < |obs|
        ensures UpTo(obs[i], le) <==> i < Count(obs, le)
      {
        if i < |front| {
          assert obs[i] == front[i];
        } else if UpTo(obs[i], le) && |front| > 0 {
          assert UpTo(front[|front| - 1], le) by { assert front[|front| - 1] <= obs[i]; }
        }
      }
    }
  }

  lemma CountGrows(obs: seq<real>, a: Bound, b: Bound)
    requires SortedReals(obs) && (a == b || Lt(a, b))
    ensures Count(obs, a) <= Count(obs, b)
  {
    CountSplits(obs, a);
    CountSplits(obs, b);
    if Count(obs, a) > 0 {
      var i := Count(obs, a) - 1;
      assert UpTo(obs[i], a);
      assert UpTo(obs[i], b);
    }
  }

  /** Counts of real observations are monotone, so the running maximum changes nothing. */
  lemma {:induction false} CumulativeIsCount(ks: seq<Bound>, m: map<Bound, real>, obs: seq<real>, i: nat)
    requires Ascending(ks) && (forall k :: k in ks ==> k in m) && Consistent(m, obs) && i < |ks|
    ensures Cumulative(ks, m, i) == Count(obs, ks[i]) as real
  {
    assert ks[i] in ks;
    if i > 0 {
      CumulativeIsCount(ks, m, obs, i - 1);
      CountGrows(obs, ks[i - 1], ks[i]);
    }
  }

  /** `k` is the rank rounded up. */
  predicate IsCeiling(k: nat, rank: real) { k as real >= rank && (k as real) - 1.0 < rank }

  /** MAIN: for observations that could have filled the buckets, the ceil(q n)-th smallest of
      them lies in the bucket the value answer lies in, and strictly above the answer when
      it is a lower bound. */
  lemma AnswerIsOrderStatistic(q: real, m: map<Bound, real>, answer: Answer, obs: seq<real>, k: nat)
    requires 0.0 < q <= 1.0 && IsQuantile(q, m, answer) && answer != Nothing
    requires Consistent(m, obs) && IsCeiling(k, q * |obs| as real)
    ensures 1 <= k <= |obs|
    ensures answer.AtLeast? ==> obs[k - 1] > answer.top
    ensures answer.Value? ==> SharesBucket(m, obs[k - 1], answer.v)
  {
    hide IsQuantile, Consistent, SharesBucket;
    RankedObservation(q, m, answer, obs, k);
  }

  lemma RankedObservation(q: real, m: map<Bound, real>, answer: Answer, obs: seq<real>, k: nat)
    requires 0.0 < q <= 1.0 && IsQuantile(q, m, answer) && answer != Nothing
    requires Consistent(m, obs) && IsCeiling(k, Rank(q, |obs| as real))
    ensures 1 <= k <= |obs|
    ensures answer.AtLeast? ==> obs[k - 1] > answer.top
    ensures answer.Value? ==> SharesBucket(m, obs[k - 1], answer.v)
  {
    hide AnswerIn, Rank, Count, Cumulative;
    var ks, b: nat :| AnsweredBy(q, m, ks, b, answer);
    CumulativeIsCount(ks, m, obs, |ks| - 1);
    AllCounted(obs);
    RankInRange(q, |obs| as real);
    var rank := Rank(q, |obs| as real);
    CumulativeIsCount(ks, m, obs, b);
    CountSplits(obs, ks[b]);
    assert k <= Count(obs, ks[b]);
    if b > 0 {
      CumulativeIsCount(ks, m, obs, b - 1);
      CountSplits(obs, ks[b - 1]);
      assert k > Count(obs, ks[b - 1]);
    }
    ValueInBucket(ks, m, rank, b);
    if answer.AtLeast? { LowerBoundAnswer(ks, m, rank, b); }
    if answer.Value? { NoneBetween(ks, m, b, obs[k - 1], answer.v); }
  }

  lemma LowerBoundAnswer(ks: seq<Bound>, m: map<Bound, real>, rank: real, b: nat)
    requires (forall k :: k in ks ==> k in m) && |ks| >= 2 && b < |ks| && (b < |ks| - 1 ==> !ks[b].PosInf?)
    requires AnswerIn(ks, m, rank, b).AtLeast?
    ensures b == |ks| - 1 && ks[b - 1] == Fin(AnswerIn(ks, m, rank, b).top)
  {
  }

  lemma {:induction false} AllCounted(obs: seq<real>)
    ensures Count(obs, PosInf) == |obs|
  {
    if |obs| > 0 { AllCounted(obs[..|obs| - 1]); }
  }

  /** No boundary separates `x` from `y`. */
  ghost predicate SharesBucket(m: map<Bound, real>, x: real, y: real) {
    forall le :: le in m ==> (UpTo(x, le) <==> UpTo(y, le))
  }

  lemma NoneBetween(ks: seq<Bound>, m: map<Bound, real>, b: nat, x: real, y: real)
    requires Lists(ks, m.Keys) && b < |ks| && UpTo(x, ks[b]) && UpTo(y, ks[b])
    requires b > 0 ==> !UpTo(x, ks[b - 1]) && !UpTo(y, ks[b - 1])
    ensures SharesBucket(m, x, y)
  {
    forall le | le in m
      ensures UpTo(x, le) <==> UpTo(y, le)
    {
      assert le in ks;
      var i :| 0 <= i < |ks| && ks[i] == le;
      if i > b { assert Lt(ks[b], ks[i]); }
      if i < b - 1 { assert Lt(ks[i], ks[b - 1]); }
    }
  }

  // ---------- monotone in q ----------

  /** A later answer, with a lower bound above every value it bounds. */
  predicate NotBelow(a: Answer, b: Answer) {
    match a
    case Nothing => true
    case Value(v) => b.Nothing? || (b.Value? && v <= b.v) || (b.AtLeast? && v <= b.top)
    case AtLeast(top) => b.Nothing? || b == a
  }

  lemma BucketsAdvance(ks: seq<Bound>, m: map<Bound, real>, rank: real, rank': real, b: nat, c: nat)
    requires (forall k :: k in ks ==> k in m) && rank <= rank' && IsBucket(ks, m, rank, b) && IsBucket(ks, m, rank', c)
    ensures b <= c
  {
    if c < b { CumulativeGrows(ks, m, c, b - 1); }
  }

  /** MAIN: a higher quantile is never reported lower. */
  lemma MonotoneInQ(q: real, q': real, m: map<Bound, real>, a: Answer, a': Answer)
    requires 0.0 < q <= q' <= 1.0 && IsQuantile(q, m, a) && IsQuantile(q', m, a')
    ensures NotBelow(a, a')
  {
    hide AnswerIn, Rank, Cumulative;
    if a != Nothing && a' != Nothing {
      var ks, b: nat :| AnsweredBy(q, m, ks, b, a);
      var ls, c: nat :| AnsweredBy(q', m, ls, c, a');
      OneOrder(ks, ls, m.Keys);
      RankInRange(q, Total(ks, m));
      RankGrows(q, q', Total(ks, m));
      BucketsAdvance(ks, m, Rank(q, Total(ks, m)), Rank(q', Total(ks, m)), b, c);
      AnswersAdvance(ks, m, Rank(q, Total(ks, m)), Rank(q', Total(ks, m)), b, c);
    }
  }

  lemma RankGrows(q: real, q': real, total: real)
    requires q <= q' && total > 0.0
    ensures Rank(q, total) <= Rank(q', total)
  {
  }

  lemma AnswersAdvance(ks: seq<Bound>, m: map<Bound, real>, rank: real, rank': real, b: nat, c: nat)
    requires Ascending(ks) && FiniteBefore(ks) && (forall k :: k in ks ==> k in m) && |ks| >= 2
    requires 0.0 < rank <= rank' && IsBucket(ks, m, rank, b) && IsBucket(ks, m, rank', c) && b <= c
    requires AnswerIn(ks, m, rank, b) != Nothing && AnswerIn(ks, m, rank', c) != Nothing
    ensures NotBelow(AnswerIn(ks, m, rank, b), AnswerIn(ks, m, rank', c))
  {
    ValueInBucket(ks, m, rank, b);
    ValueInBucket(ks, m, rank', c);
    if b == c {
      SameBucketAdvances(ks, m, rank, rank', b);
    } else {
      assert b == c - 1 || Lt(ks[b], ks[c - 1]);
    }
  }

  lemma SameBucketAdvances(ks: seq<Bound>, m: map<Bound, real>, rank: real, rank': real, b: nat)
    requires Ascending(ks) && FiniteBefore(ks) && (forall k :: k in ks ==> k in m) && |ks| >= 2
    requires 0.0 < rank <= rank' && IsBucket(ks, m, rank, b) && IsBucket(ks, m, rank', b)
    requires AnswerIn(ks, m, rank, b) != Nothing && AnswerIn(ks, m, rank', b) != Nothing
    ensures NotBelow(AnswerIn(ks, m, rank, b), AnswerIn(ks, m, rank', b))
  {
    if b < |ks| - 1 && !(b == 0 && ks[b].r <= 0.0) {
      var below := if b > 0 then Cumulative(ks, m, b - 1) else 0.0;
      var lower := if b > 0 then ks[b - 1] else Fin(0.0);
      assert b > 0 ==> Lt(ks[b - 1], ks[b]);
      Interpolates(lower.r, ks[b].r, rank - below, rank' - below, Cumulative(ks, m, b) - below);
    }
  }

  /** With a positive q and no -Inf boundary, an answer fails only for want of a +Inf
      bucket, a finite bucket or an observation; outside 0 to 1 there is never one. */
  lemma NothingIff(q: real, m: map<Bound, real>, answer: Answer)
    requires q != 0.0 && IsQuantile(q, m, answer) && NegInf !in m
    ensures answer == Nothing <==>
            !(0.0 <= q <= 1.0) || PosInf !in m || m.Keys == {PosInf} || forall k :: k in m ==> m[k] <= 0.0
  {
    hide Cumulative, Rank;
    var ks, b: nat :| AnsweredBy(q, m, ks, b, answer);
    MeasurableIff(ks, m);
    if 0.0 <= q <= 1.0 && Measurable(ks, m) {
      RankInRange(q, Total(ks, m));
      ValueInBucket(ks, m, Rank(q, Total(ks, m)), b);
      assert forall i :: 0 <= i < |ks| ==> ks[i] in ks;
    }
  }

  lemma MeasurableIff(ks: seq<Bound>, m: map<Bound, real>)
    requires Lists(ks, m.Keys)
    ensures Measurable(ks, m) <==> PosInf in m && m.Keys != {PosInf} && exists k :: k in m && m[k] > 0.0
  {
    if |ks| > 0 {
      CumulativePositiveIff(ks, m, |ks| - 1);
      LastIsGreatest(ks, m.Keys);
      assert ks[..|ks|] == ks;
    }
    if |ks| >= 2 { assert ks[0] in ks && ks[1] in ks && Lt(ks[0], ks[1]); }
  }

  lemma LastIsGreatest(ks: seq<Bound>, keys: set<Bound>)
    requires Lists(ks, keys) && |ks| > 0
    ensures ks[|ks| - 1] == PosInf <==> PosInf in keys
    ensures |ks| == 1 ==> keys == {ks[0]}
  {
    BeforeLast(ks);
    assert ks[|ks| - 1] in ks;
  }

  lemma {:induction false} CumulativePositiveIff(ks: seq<Bound>, m: map<Bound, real>, i: nat)
    requires i < |ks| && forall k :: k in ks ==> k in m
    ensures Cumulative(ks, m, i) > 0.0 <==> exists k :: k in ks[..i + 1] && m[k] > 0.0
  {
    assert ks[..i + 1] == ks[..i] + [ks[i]];
    if i > 0 { CumulativePositiveIff(ks, m, i - 1); }
    assert ks[i] in ks[..i + 1];
  }
}
