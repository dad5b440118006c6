/** The measurement the procedure-call benchmark reports: sort the samples in place, take the
    element in the middle. */
module Median {
  import opened Statistics
  import opened Clock

  /** The comparison handed to qsort. */
  function DoubleCompare(d1: real, d2: real): int {
    if d1 < d2 then -1 else if d1 > d2 then 1 else 0
  }

  /** It is a total preorder, and calls two values equal only if they are. */
  lemma CompareIsTotalOrder(a: real, b: real, c: real)
    ensures DoubleCompare(a, b) == -DoubleCompare(b, a)
    ensures DoubleCompare(a, b) <= 0 || DoubleCompare(b, a) <= 0
    ensures DoubleCompare(a, b) <= 0 && DoubleCompare(b, c) <= 0 ==> DoubleCompare(a, c) <= 0
    ensures DoubleCompare(a, b) == 0 <==> a == b
    ensures DoubleCompare(a, b) == -1 <==> a < b
  {
  }

  predicate Sorted(x: seq<real>) {
    forall i, j :: 0 <= i < j < |x| ==> DoubleCompare(x[i], x[j]) <= 0
  }

  lemma SortedLastIsLargest(x: seq<real>, v: real)
    requires Sorted(x) && v in multiset(x)
    ensures x != [] && v <= x[|x|-1]
  {
    var i :| 0 <= i < |x| && x[i] == v;
  }

  lemma SameLast(x: seq<real>, y: seq<real>)
    requires Sorted(x) && Sorted(y) && multiset(x) == multiset(y) && x != [] && y != []
    ensures x[|x|-1] == y[|y|-1]
  {
    assert x[|x|-1] in multiset(x) && y[|y|-1] in multiset(y);
    SortedLastIsLargest(y, x[|x|-1]);
    SortedLastIsLargest(x, y[|y|-1]);
  }

  lemma MultisetOfInit(x: seq<real>)
    requires x != []
    ensures multiset(x[..|x|-1]) == multiset(x) - multiset{x[|x|-1]}
  {
    assert x == x[..|x|-1] + [x[|x|-1]];
  }

  lemma SortedInit(x: seq<real>)
    requires Sorted(x) && x != []
    ensures Sorted(x[..|x|-1])
  {
  }

  /** Sorting has one possible outcome, so it does not matter how qsort works. */
  lemma {:induction false} SortedIsUnique(x: seq<real>, y: seq<real>)
    requires Sorted(x) && Sorted(y) && multiset(x) == multiset(y)
    ensures x == y
  {
    hide Sorted;
    assert |x| == |multiset(x)| == |multiset(y)| == |y|;
    if x == [] {
    } else {
      SameLast(x, y);
      SortedInit(x);
      SortedInit(y);
      MultisetOfInit(x);
      MultisetOfInit(y);
      SortedIsUnique(x[..|x|-1], y[..|y|-1]);
      assert x == x[..|x|-1] + [x[|x|-1]] && y == y[..|y|-1] + [y[|y|-1]];
    }
  }

  // ----- an in-place sort standing in for qsort

  lemma SwapInTheMiddle(front: seq<real>, u: real, v: real, back: seq<real>)
    ensures multiset(front + [u, v] + back) == multiset(front + [v, u] + back)
  {
    assert multiset([u, v]) == multiset([v, u]);
  }

  lemma SwapKeepsMultiset(x: seq<real>, y: seq<real>, i: nat)
    requires i + 1 < |x| && y == x[i := x[i+1]][i+1 := x[i]]
    ensures multiset(y) == multiset(x)
  {
    var front, back, u, v := x[..i], x[i+2..], x[i], x[i+1];
    assert x == front + [u, v] + back;
    assert y == front + [v, u] + back;
    SwapInTheMiddle(front, u, v, back);
  }

  /** The first `n` elements are in order, except that the one at `hole` may be too small. */
  ghost predicate SortedBut(x: seq<real>, n: nat, hole: nat)
    requires n <= |x|
  {
    forall i, j :: 0 <= i < j < n && j != hole ==> x[i] <= x[j]
  }

  lemma SwapMovesHole(x: seq<real>, y: seq<real>, n: nat, hole: nat)
    requires 0 < hole < n <= |x| && SortedBut(x, n, hole) && x[hole-1] > x[hole]
    requires y == x[hole-1 := x[hole]][hole := x[hole-1]]
    ensures SortedBut(y, n, hole - 1)
  {
  }

  lemma HoleCloses(x: seq<real>, n: nat, hole: nat)
    requires hole < n <= |x| && SortedBut(x, n, hole) && (hole == 0 || x[hole-1] <= x[hole])
    ensures Sorted(x[..n])
  {
    forall i, j | 0 <= i < j < n ensures x[i] <= x[j] {
      if j == hole {
        assert i < hole - 1 ==> x[i] <= x[hole-1];
      }
    }
  }

  method Insert(a: array<real>, n: nat)
    requires n < a.Length && Sorted(a[..n])
    modifies a
    ensures Sorted(a[..n+1])
    ensures multiset(a[..]) == multiset(old(a[..]))
  {
    var hole: nat := n;
    assert forall i :: 0 <= i < n ==> a[..n][i] == a[i];
    while hole > 0 && DoubleCompare(a[hole-1], a[hole]) > 0
      invariant hole <= n
      invariant SortedBut(a[..], n + 1, hole)
      invariant multiset(a[..]) == multiset(old(a[..]))
    {
      ghost var x := a[..];
      a[hole-1], a[hole] := a[hole], a[hole-1];
      SwapKeepsMultiset(x, a[..], hole - 1);
      SwapMovesHole(x, a[..], n + 1, hole);
      hole := hole - 1;
    }
    HoleCloses(a[..], n + 1, hole);
    assert a[..][..n+1] == a[..n+1];
  }

  method Sort(a: array<real>)
    modifies a
    ensures Sorted(a[..])
    ensures multiset(a[..]) == multiset(old(a[..]))
  {
    for n := 0 to a.Length
      invariant Sorted(a[..n])
      invariant multiset(a[..]) == multiset(old(a[..]))
    {
      Insert(a, n);
    }
    assert a[..] == a[..a.Length];
  }

  // ----- what the middle element means for the samples

  function CountOf(p: real -> bool, x: seq<real>): nat {
    if x == [] then 0 else CountOf(p, x[..|x|-1]) + (if p(x[|x|-1]) then 1 else 0)
  }

  function AtMost(m: real): real -> bool {
    (v: real) => v <= m
  }

  function AtLeast(m: real): real -> bool {
    (v: real) => v >= m
  }

  function Indicator(p: real -> bool): real -> real {
    (v: real) => if p(v) then 1.0 else 0.0
  }

  lemma {:induction false} CountIsSum(p: real -> bool, x: seq<real>)
    ensures CountOf(p, x) as real == SumOf(Indicator(p), x)
  {
    if x == [] {
    } else {
      CountIsSum(p, x[..|x|-1]);
    }
  }

  lemma CountPermutes(p: real -> bool, x: seq<real>, y: seq<real>)
    requires multiset(x) == multiset(y)
    ensures CountOf(p, x) == CountOf(p, y)
  {
    CountIsSum(p, x);
    CountIsSum(p, y);
    SumPermutes(Indicator(p), x, y);
  }

  /** More than half of the samples are at most `m`, and at least half of them are at least `m`. */
  ghost predicate UpperMedian(x: seq<real>, m: real) {
    && m in x
    && CountOf(AtMost(m), x) >= |x| / 2 + 1
    && CountOf(AtLeast(m), x) >= |x| - |x| / 2
  }

  lemma {:induction false} CountRange(p: real -> bool, x: seq<real>, from: nat, to: nat)
    requires from <= to <= |x|
    requires forall i :: from <= i < to ==> p(x[i])
    ensures CountOf(p, x) >= to - from
  {
    if x != [] && from < to {
      var last := |x| - 1;
      CountRange(p, x[..last], from, if to == |x| then last else to);
    }
  }

  lemma MiddleOfSorted(x: seq<real>)
    requires x != [] && Sorted(x)
    ensures UpperMedian(x, x[|x|/2])
  {
    var m := x[|x|/2];
    CountRange(AtMost(m), x, 0, |x| / 2 + 1);
    CountRange(AtLeast(m), x, |x| / 2, |x|);
  }

  lemma MedianPermutes(x: seq<real>, y: seq<real>, m: real)
    requires multiset(x) == multiset(y) && UpperMedian(x, m)
    ensures UpperMedian(y, m)
  {
    CountPermutes(AtMost(m), x, y);
    CountPermutes(AtLeast(m), x, y);
    assert |x| == |multiset(x)| == |multiset(y)| == |y|;
    assert m in multiset(x);
  }

  lemma {:induction false} CountsDisjoint(x: seq<real>, low: real, high: real)
    requires low < high
    ensures CountOf(AtMost(low), x) + CountOf(AtLeast(high), x) <= |x|
  {
    if x == [] {
    } else {
      CountsDisjoint(x[..|x|-1], low, high);
    }
  }

  /** The reported value depends on the multiset of samples alone. */
  lemma MedianIsUnique(x: seq<real>, y: seq<real>, m: real, m': real)
    requires multiset(x) == multiset(y) && UpperMedian(x, m) && UpperMedian(y, m')
    ensures m == m'
  {
    MedianPermutes(y, x, m');
    if m < m' {
      CountsDisjoint(x, m, m');
    } else if m' < m {
      CountsDisjoint(x, m', m);
    }
  }

  // ----- the median minimises the sum of absolute deviations

  function DistanceFrom(c: real): real -> real {
    (v: real) => if v < c then c - v else v - c
  }

  /** What a sample loses at least, if `p` holds of it, and gains at most otherwise, when the
      centre moves by `d`. */
  function Cost(p: real -> bool, d: real): real -> real {
    (v: real) => if p(v) then d else -d
  }

  lemma {:induction false} CentreMoves(x: seq<real>, m: real, d: real)
    requires d >= 0.0
    ensures SumOf(DistanceFrom(m + d), x) >= SumOf(DistanceFrom(m), x) + SumOf(Cost(AtMost(m), d), x)
    ensures SumOf(DistanceFrom(m - d), x) >= SumOf(DistanceFrom(m), x) + SumOf(Cost(AtLeast(m), d), x)
  {
    if x == [] {
    } else {
      CentreMoves(x[..|x|-1], m, d);
    }
  }

  lemma NextMultiple(k: int, d: real)
    ensures Times((k + 1) as real, d) == Times(k as real, d) + d
    ensures Times((k - 1) as real, d) == Times(k as real, d) - d
  {
    assert (k + 1) as real == k as real + 1.0 && (k - 1) as real == k as real - 1.0;
  }

  lemma {:induction false} CostsAddUp(p: real -> bool, d: real, x: seq<real>)
    ensures SumOf(Cost(p, d), x) == Times((2 * CountOf(p, x) - |x|) as real, d)
  {
    if x == [] {
      assert Times(0.0, d) == 0.0;
    } else {
      var init := x[..|x|-1];
      CostsAddUp(p, d, init);
      NextMultiple(2 * CountOf(p, init) - |init|, d);
    }
  }

  /** If `p` holds of at least half of the samples, the costs outweigh the gains. */
  lemma CostsOutweigh(p: real -> bool, d: real, x: seq<real>)
    requires d >= 0.0 && 2 * CountOf(p, x) >= |x|
    ensures SumOf(Cost(p, d), x) >= 0.0
  {
    CostsAddUp(p, d, x);
    var k := 2 * CountOf(p, x) - |x|;
    if k == 0 || d == 0.0 {
      assert Times(k as real, d) == 0.0;
    }
  }

  /** No centre is closer to the samples, in total, than the median. */
  lemma MedianIsOptimal(x: seq<real>, m: real, c: real)
    requires UpperMedian(x, m)
    ensures SumOf(DistanceFrom(m), x) <= SumOf(DistanceFrom(c), x)
  {
    var d := if c >= m then c - m else m - c;
    CentreMoves(x, m, d);
    if c >= m {
      assert m + d == c;
      CostsOutweigh(AtMost(m), d, x);
    } else {
      assert m - d == c;
      CostsOutweigh(AtLeast(m), d, x);
    }
  }

  // ----- the measurement

  /** Nanoseconds per iteration of each timed piece. */
  function Samples(starts: seq<Timespec>, ends: seq<Timespec>, iterations: nat): seq<real>
    requires |starts| == |ends| && iterations > 0
  {
    seq(|starts|, m requires 0 <= m < |starts| =>
      DiffToNsecs(starts[m], ends[m]) as real / iterations as real)
  }

  /** A sample times the iterations is the difference of its two stamps. */
  lemma SampleOfStamps(starts: seq<Timespec>, ends: seq<Timespec>, iterations: nat, m: nat)
    requires |starts| == |ends| && iterations > 0 && m < |starts|
    ensures |Samples(starts, ends, iterations)| == |starts|
    ensures Samples(starts, ends, iterations)[m] * iterations as real == DiffToNsecs(starts[m], ends[m]) as real
  {
  }

  lemma QuotientOrder(d: int, t: int, k: real, r: real)
    requires k > 0.0 && r == t as real / k
    ensures d as real / k <= r <==> d <= t
    ensures d as real / k >= r <==> d >= t
  {
    var q := d as real / k;
    assert q * k == d as real && r * k == t as real;
    if q < r {
      assert Times(r - q, k) > 0.0;
    } else if q > r {
      assert Times(q - r, k) > 0.0;
    }
  }

  /** `r` nanoseconds per iteration make `t` in total. */
  ghost predicate InTotal(r: real, iterations: nat, t: int) {
    t as real == r * iterations as real
  }

  /** The indices of the timed pieces that took at most, and at least, `t` nanoseconds. */
  function AtMostNsecs(starts: seq<Timespec>, ends: seq<Timespec>, t: int): set<nat>
    requires |starts| == |ends|
  {
    set m | 0 <= m < |starts| && DiffToNsecs(starts[m], ends[m]) <= t
  }

  function AtLeastNsecs(starts: seq<Timespec>, ends: seq<Timespec>, t: int): set<nat>
    requires |starts| == |ends|
  {
    set m | 0 <= m < |starts| && DiffToNsecs(starts[m], ends[m]) >= t
  }

  /** `t` nanoseconds is one of the times taken; more than half of the times are at most `t`, and at
      least half of them are at least `t`. */
  ghost predicate UpperMedianNsecs(starts: seq<Timespec>, ends: seq<Timespec>, t: int)
    requires |starts| == |ends|
  {
    && (exists m :: 0 <= m < |starts| && DiffToNsecs(starts[m], ends[m]) == t)
    && |AtMostNsecs(starts, ends, t)| >= |starts| / 2 + 1
    && |AtLeastNsecs(starts, ends, t)| >= |starts| - |starts| / 2
  }

  function Indices(p: real -> bool, x: seq<real>): set<nat> {
    set m | 0 <= m < |x| && p(x[m])
  }

  lemma {:induction false} CountIsCardinality(p: real -> bool, x: seq<real>)
    ensures CountOf(p, x) == |Indices(p, x)|
  {
    if x == [] {
      assert Indices(p, x) == {};
    } else {
      var last := |x| - 1;
      CountIsCardinality(p, x[..last]);
      assert Indices(p, x) == Indices(p, x[..last]) + (if p(x[last]) then {last} else {});
    }
  }

  /** How each sample compares with `r` is how its time compares with `t`. */
  ghost predicate Scaled(starts: seq<Timespec>, ends: seq<Timespec>, x: seq<real>, r: real, t: int)
    requires |starts| == |ends|
  {
    && |x| == |starts|
    && forall m :: 0 <= m < |starts| ==>
         var d := DiffToNsecs(starts[m], ends[m]);
         (x[m] <= r <==> d <= t) && (x[m] >= r <==> d >= t)
  }

  lemma SamplesScaled(starts: seq<Timespec>, ends: seq<Timespec>, iterations: nat, r: real, t: int)
    requires |starts| == |ends| && iterations > 0 && r == t as real / iterations as real
    ensures Scaled(starts, ends, Samples(starts, ends, iterations), r, t)
  {
    forall m | 0 <= m < |starts|
      ensures var (v, d) := (Samples(starts, ends, iterations)[m], DiffToNsecs(starts[m], ends[m]));
              (v <= r <==> d <= t) && (v >= r <==> d >= t)
    {
      QuotientOrder(DiffToNsecs(starts[m], ends[m]), t, iterations as real, r);
    }
  }

  lemma ScaledMedian(starts: seq<Timespec>, ends: seq<Timespec>, x: seq<real>, r: real, t: int)
    requires |starts| == |ends| && Scaled(starts, ends, x, r, t) && UpperMedian(x, r)
    ensures UpperMedianNsecs(starts, ends, t)
  {
    assert Indices(AtMost(r), x) == AtMostNsecs(starts, ends, t);
    assert Indices(AtLeast(r), x) == AtLeastNsecs(starts, ends, t);
    CountIsCardinality(AtMost(r), x);
    CountIsCardinality(AtLeast(r), x);
    var m :| 0 <= m < |x| && x[m] == r;
    assert DiffToNsecs(starts[m], ends[m]) == t;
  }

  /** What the median of the samples says about the stamps. */
  lemma MedianOfStamps(starts: seq<Timespec>, ends: seq<Timespec>, iterations: nat, r: real)
    requires |starts| == |ends| && iterations > 0 && UpperMedian(Samples(starts, ends, iterations), r)
    ensures exists t: int :: UpperMedianNsecs(starts, ends, t) && InTotal(r, iterations, t)
  {
    hide UpperMedianNsecs, Scaled;
    var x := Samples(starts, ends, iterations);
    var m :| 0 <= m < |x| && x[m] == r;
    var t := DiffToNsecs(starts[m], ends[m]);
    SamplesScaled(starts, ends, iterations, r, t);
    ScaledMedian(starts, ends, x, r, t);
  }

  method GetAvgMeasure(starts: seq<Timespec>, ends: seq<Timespec>, iterations: nat) returns (r: real)
    requires |starts| == |ends| && starts != [] && iterations > 0
    ensures UpperMedian(Samples(starts, ends, iterations), r)
    ensures forall c :: SumOf(DistanceFrom(r), Samples(starts, ends, iterations))
                     <= SumOf(DistanceFrom(c), Samples(starts, ends, iterations))
    ensures exists t: int :: UpperMedianNsecs(starts, ends, t) && InTotal(r, iterations, t)
  {
    hide UpperMedian, UpperMedianNsecs, InTotal, Sorted, Clock.DiffToNsecs;
    var measures := new real[|starts|];
    var m := 0;
    while m < |starts|
      invariant m <= |starts|
      invariant forall k :: 0 <= k < m ==> measures[k] == Samples(starts, ends, iterations)[k]
    {
      measures[m] := DiffToNsecs(starts[m], ends[m]) as real / iterations as real;
      m := m + 1;
    }
    ghost var samples := Samples(starts, ends, iterations);
    assert measures[..] == samples;
    Sort(measures);
    r := measures[|starts| / 2];
    MiddleOfSorted(measures[..]);
    MedianPermutes(measures[..], samples, r);
    MedianOfStamps(starts, ends, iterations, r);
    forall c ensures SumOf(DistanceFrom(r), samples) <= SumOf(DistanceFrom(c), samples) {
      MedianIsOptimal(samples, r, c);
    }
  }
}
