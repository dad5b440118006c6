/** Mean and spread of a sample, over the reals. */
module Statistics {

  function SumOf(f: real -> real, x: seq<real>): real {
    if x == [] then 0.0 else SumOf(f, x[..|x|-1]) + f(x[|x|-1])
  }

  lemma {:induction false} SumWithout(f: real -> real, x: seq<real>, k: nat)
    requires k < |x|
    ensures SumOf(f, x) == SumOf(f, x[..k] + x[k+1..]) + f(x[k])
  {
    var last := |x| - 1;
    if k == last {
      assert x[..k] + x[k+1..] == x[..last];
    } else {
      SumWithout(f, x[..last], k);
      var y := x[..k] + x[k+1..];
      assert y[..|y|-1] == x[..last][..k] + x[..last][k+1..];
    }
  }

  lemma MultisetWithout(x: seq<real>, k: nat)
    requires k < |x|
    ensures multiset(x[..k] + x[k+1..]) == multiset(x) - multiset{x[k]}
  {
    assert x == x[..k] + [x[k]] + x[k+1..];
  }

  /** No sum depends on the order of the sample. */
  lemma {:induction false} SumPermutes(f: real -> real, x: seq<real>, y: seq<real>)
    requires multiset(x) == multiset(y)
    ensures SumOf(f, x) == SumOf(f, y)
  {
    if x == [] {
      assert |multiset(y)| == |multiset(x)| == 0;
    } else {
      var last := |x| - 1;
      assert x[last] in multiset(y);
      var k :| 0 <= k < |y| && y[k] == x[last];
      assert x[..last] + x[last+1..] == x[..last];
      MultisetWithout(x, last);
      MultisetWithout(y, k);
      SumPermutes(f, x[..last], y[..k] + y[k+1..]);
      SumWithout(f, y, k);
    }
  }

  const VALUE: real -> real := (v: real) => v

  function Times(a: real, b: real): (r: real)
    ensures a > 0.0 && b > 0.0 ==> r > 0.0
  {
    a * b
  }

  function Square(d: real): real {
    Times(d, d)
  }

  function SquareFrom(c: real): real -> real {
    (v: real) => (v - c) * (v - c)
  }

  /** The loops never run on an empty sample and leave 0. */
  function Mean(x: seq<real>): real {
    if x == [] then 0.0 else SumOf(VALUE, x) / (|x| as real)
  }

  lemma DivideSum(a: real, b: real, n: real)
    requires n != 0.0
    ensures a / n + b / n == (a + b) / n
  {
    assert (a / n + b / n) * n == a + b;
  }

  // ----- the same in plain sums

  function Total(x: seq<real>): real {
    if x == [] then 0.0 else Total(x[..|x|-1]) + x[|x|-1]
  }

  function TotalOfSquares(x: seq<real>): real {
    if x == [] then 0.0 else TotalOfSquares(x[..|x|-1]) + Square(x[|x|-1])
  }

  function SquaresTo(x: seq<real>, v: real): real {
    if x == [] then 0.0 else SquaresTo(x[..|x|-1], v) + (x[|x|-1] - v) * (x[|x|-1] - v)
  }

  /** The squared distances of all pairs, each pair once. */
  function PairSquares(x: seq<real>): real {
    if x == [] then 0.0 else PairSquares(x[..|x|-1]) + SquaresTo(x[..|x|-1], x[|x|-1])
  }

  lemma {:induction false} TotalIsSum(x: seq<real>)
    ensures SumOf(VALUE, x) == Total(x)
  {
    if x == [] {
    } else {
      TotalIsSum(x[..|x|-1]);
    }
  }

  lemma MeanTimesCount(x: seq<real>)
    ensures Mean(x) * |x| as real == Total(x)
  {
    TotalIsSum(x);
  }

  /** Adding up x[i] / n gives the mean. */
  method GetMean(x: array<real>) returns (mean: real)
    ensures mean == Mean(x[..])
    ensures mean * x.Length as real == Total(x[..])
    ensures x.Length == 0 ==> mean == 0.0
  {
    mean := 0.0;
    for i := 0 to x.Length
      invariant 0 < x.Length ==> mean == SumOf(VALUE, x[..i]) / (x.Length as real)
      invariant x.Length == 0 ==> mean == 0.0
    {
      assert x[..i+1][..i] == x[..i];
      DivideSum(SumOf(VALUE, x[..i]), x[i], x.Length as real);
      mean := mean + x[i] / (x.Length as real);
    }
    assert x[..] == x[..x.Length];
    MeanTimesCount(x[..]);
  }

  function DeviationFrom(c: real): real -> real {
    (v: real) => v - c
  }

  lemma {:induction false} DeviationsSum(x: seq<real>, c: real)
    ensures SumOf(DeviationFrom(c), x) == SumOf(VALUE, x) - (|x| as real) * c
  {
    if x == [] {
    } else {
      DeviationsSum(x[..|x|-1], c);
    }
  }

  /** Deviations from the mean cancel out. */
  lemma DeviationsCancel(x: seq<real>)
    ensures SumOf(DeviationFrom(Mean(x)), x) == 0.0
  {
    DeviationsSum(x, Mean(x));
  }

  function Cross(c: real, t: real): real -> real {
    (v: real) => t * (v - c)
  }

  function Constant(q: real): real -> real {
    (v: real) => q
  }

  lemma Distributes(t: real, a: real, b: real)
    ensures t * (a + b) == t * a + t * b
  {
  }

  lemma {:induction false} SumOfCross(x: seq<real>, c: real, t: real)
    ensures SumOf(Cross(c, t), x) == t * SumOf(DeviationFrom(c), x)
  {
    if x == [] {
    } else {
      SumOfCross(x[..|x|-1], c, t);
      Distributes(t, SumOf(DeviationFrom(c), x[..|x|-1]), x[|x|-1] - c);
    }
  }

  lemma {:induction false} SumOfConstant(x: seq<real>, q: real)
    ensures SumOf(Constant(q), x) == Times(|x| as real, q)
  {
    if x == [] {
    } else {
      SumOfConstant(x[..|x|-1], q);
      Distributes(q, (|x| - 1) as real, 1.0);
    }
  }

  lemma SquareOfDifference(v: real, c: real, t: real)
    ensures SquareFrom(c + t)(v) == SquareFrom(c)(v) - 2.0 * Cross(c, t)(v) + Constant(Square(t))(v)
  {
    var w := v - c;
    assert v - (c + t) == w - t;
    assert (w - t) * (w - t) == w * w - 2.0 * (t * w) + t * t;
  }

  /** Moving the centre by `t`. */
  lemma {:induction false} SquaresMove(x: seq<real>, c: real, t: real)
    ensures SumOf(SquareFrom(c + t), x)
         == SumOf(SquareFrom(c), x) - 2.0 * SumOf(Cross(c, t), x) + SumOf(Constant(Square(t)), x)
  {
    if x == [] {
    } else {
      SquaresMove(x[..|x|-1], c, t);
      SquareOfDifference(x[|x|-1], c, t);
    }
  }

  lemma CrossVanishes(x: seq<real>, t: real)
    ensures SumOf(Cross(Mean(x), t), x) == 0.0
  {
    SumOfCross(x, Mean(x), t);
    DeviationsCancel(x);
  }

  /** Around any centre the squares sum to the spread plus n times the squared distance from the
      mean. */
  lemma SpreadAroundAnyCentre(x: seq<real>, c: real)
    ensures SumOf(SquareFrom(c), x)
         == SumOf(SquareFrom(Mean(x)), x) + Times(|x| as real, Square(c - Mean(x)))
  {
    var t := c - Mean(x);
    assert Mean(x) + t == c;
    SquaresMove(x, Mean(x), t);
    CrossVanishes(x, t);
    SumOfConstant(x, Square(t));
  }

  lemma SquareProperties(d: real)
    ensures Square(0.0 - d) == Square(d)
    ensures d != 0.0 ==> Square(d) > 0.0
  {
    assert Times(d, d) == Times(-d, -d);
  }

  /** In particular the spread is the sum of squares less n times the squared mean. */
  lemma SpreadFromSquares(x: seq<real>)
    ensures SumOf(SquareFrom(Mean(x)), x)
         == SumOf(SquareFrom(0.0), x) - Times(|x| as real, Square(Mean(x)))
  {
    SpreadAroundAnyCentre(x, 0.0);
    SquareProperties(Mean(x));
  }

  /** The mean is the one best centre. */
  lemma MeanIsBestCentre(x: seq<real>, c: real)
    requires x != [] && c != Mean(x)
    ensures SumOf(SquareFrom(Mean(x)), x) < SumOf(SquareFrom(c), x)
  {
    SpreadAroundAnyCentre(x, c);
    SquareProperties(c - Mean(x));
  }

  /** Neither result depends on the order in which the sample was taken. */
  lemma OrderDoesNotMatter(x: seq<real>, y: seq<real>)
    requires multiset(x) == multiset(y)
    ensures Mean(x) == Mean(y)
    ensures SumOf(SquareFrom(Mean(x)), x) == SumOf(SquareFrom(Mean(y)), y)
  {
    assert |x| == |multiset(x)| == |multiset(y)| == |y|;
    SumPermutes(VALUE, x, y);
    SumPermutes(SquareFrom(Mean(x)), x, y);
  }

  // ----- what the spread is worth

  lemma {:induction false} SquaresFromNothing(x: seq<real>, c: real)
    ensures SumOf(SquareFrom(c), x) >= 0.0
    ensures SumOf(SquareFrom(c), x) == 0.0 <==> forall i :: 0 <= i < |x| ==> x[i] == c
  {
    if x == [] {
    } else {
      var last := |x| - 1;
      SquaresFromNothing(x[..last], c);
      SquareProperties(x[last] - c);
      assert SquareFrom(c)(x[last]) == Square(x[last] - c);
      assert (forall i :: 0 <= i < |x| ==> x[i] == c)
        <==> (forall i :: 0 <= i < last ==> x[..last][i] == c) && x[last] == c;
    }
  }

  lemma {:induction false} TotalOfEqual(x: seq<real>, v: real)
    requires forall i :: 0 <= i < |x| ==> x[i] == v
    ensures Total(x) == Times(|x| as real, v)
  {
    if x == [] {
    } else {
      TotalOfEqual(x[..|x|-1], v);
      Distributes(v, (|x| - 1) as real, 1.0);
    }
  }

  lemma Cancels(n: real, a: real, b: real)
    requires n > 0.0 && a * n == Times(n, b)
    ensures a == b
  {
    assert Times(n, a - b) == 0.0 && Times(n, b - a) == 0.0;
  }

  /** The spread vanishes for equal samples only. */
  lemma SpreadIsZeroIffEqual(x: seq<real>)
    ensures SumOf(SquareFrom(Mean(x)), x) >= 0.0
    ensures SumOf(SquareFrom(Mean(x)), x) == 0.0 <==> forall i, j :: 0 <= i < j < |x| ==> x[i] == x[j]
  {
    hide Mean, Total;
    SquaresFromNothing(x, Mean(x));
    if x != [] && forall i, j :: 0 <= i < j < |x| ==> x[i] == x[j] {
      assert forall i :: 0 <= i < |x| ==> x[i] == x[0];
      TotalOfEqual(x, x[0]);
      MeanTimesCount(x);
      Cancels(|x| as real, Mean(x), x[0]);
    }
  }

  lemma SquareOfDistance(w: real, v: real)
    ensures (w - v) * (w - v) == Square(w) - 2.0 * Times(v, w) + Square(v)
  {
  }

  lemma TimesSum(n: real, a: real, b: real)
    ensures Times(n, a + b) == Times(n, a) + Times(n, b)
    ensures Times(n, a - b) == Times(n, a) - Times(n, b)
    ensures Times(n + 1.0, a) == Times(n, a) + a
    ensures Times(n, 0.0) == Times(0.0, n) == 0.0
  {
  }

  lemma {:induction false} SquaresToExpanded(x: seq<real>, v: real)
    ensures SquaresTo(x, v) == TotalOfSquares(x) - 2.0 * Times(v, Total(x)) + Times(|x| as real, Square(v))
  {
    hide Times, Square;
    if x == [] {
      TimesSum(v, 0.0, 0.0);
      TimesSum(Square(v), 0.0, 0.0);
    } else {
      var init, w := x[..|x|-1], x[|x|-1];
      SquaresToExpanded(init, v);
      SquareOfDistance(w, v);
      TimesSum(v, Total(init), w);
      TimesSum(|init| as real, Square(v), 0.0);
    }
  }

  lemma SquareOfSum(a: real, b: real)
    ensures Square(a + b) == Square(a) + 2.0 * Times(b, a) + Square(b)
  {
  }

  /** The squared distances of all pairs, from the two sums. */
  lemma {:induction false} PairsFromSums(x: seq<real>)
    ensures PairSquares(x) == Times(|x| as real, TotalOfSquares(x)) - Square(Total(x))
  {
    hide Times, Square;
    if x == [] {
      TimesSum(0.0, 0.0, 0.0);
      SquareOfSum(0.0, 0.0);
    } else {
      var init, v := x[..|x|-1], x[|x|-1];
      PairsFromSums(init);
      SquaresToExpanded(init, v);
      SquareOfSum(Total(init), v);
      TimesSum(|init| as real, TotalOfSquares(init) + Square(v), 0.0);
      TimesSum(|init| as real, TotalOfSquares(init), Square(v));
    }
  }

  lemma {:induction false} SquaresFromZero(x: seq<real>)
    ensures SumOf(SquareFrom(0.0), x) == TotalOfSquares(x)
  {
    if x == [] {
    } else {
      SquaresFromZero(x[..|x|-1]);
    }
  }

  lemma ScaledMeanSquared(n: real, m: real, total: real)
    requires m * n == total
    ensures Times(n, Times(n, Square(m))) == Square(total)
  {
    assert n * (n * (m * m)) == (m * n) * (m * n);
  }

  lemma MeanSquaredFromTotal(x: seq<real>)
    ensures Times(|x| as real, Times(|x| as real, Square(Mean(x)))) == Square(Total(x))
  {
    hide Times, Square, Mean, Total;
    MeanTimesCount(x);
    ScaledMeanSquared(|x| as real, Mean(x), Total(x));
  }

  /** The spread without the mean: n times it is the sum of the squared distances of all pairs. */
  lemma SpreadFromPairs(x: seq<real>)
    ensures Times(|x| as real, SumOf(SquareFrom(Mean(x)), x)) == PairSquares(x)
  {
    hide Times, Square, Mean;
    var n, m := |x| as real, Mean(x);
    SpreadFromSquares(x);
    SquaresFromZero(x);
    TimesSum(n, TotalOfSquares(x), Times(n, Square(m)));
    MeanSquaredFromTotal(x);
    PairsFromSums(x);
  }

  lemma SpreadOfTwo(a: real, b: real)
    ensures var x := [a, b]; SumOf(SquareFrom(Mean(x)), x) == (a - b) * (a - b) / 2.0
  {
    SpreadFromPairs([a, b]);
    assert [a, b][..1] == [a] && [a][..0] == [];
    assert PairSquares([a, b]) == PairSquares([a]) + SquaresTo([a], b);
    assert PairSquares([a]) == 0.0;
    assert SquaresTo([a], b) == (a - b) * (a - b);
  }

  /** The value whose square root get_stddev returns: a sum of squares, not divided by n. */
  method SpreadAroundMean(x: array<real>) returns (spread: real)
    ensures spread == SumOf(SquareFrom(Mean(x[..])), x[..])
    ensures Times(x.Length as real, spread) == PairSquares(x[..])
    ensures spread >= 0.0
    ensures spread == 0.0 <==> forall i, j :: 0 <= i < j < x.Length ==> x[i] == x[j]
  {
    var mean := GetMean(x);
    spread := 0.0;
    for i := 0 to x.Length
      invariant spread == SumOf(SquareFrom(mean), x[..i])
    {
      assert x[..i+1][..i] == x[..i];
      var dev := x[i] - mean;
      spread := spread + dev * dev;
    }
    assert x[..] == x[..x.Length];
    SpreadFromPairs(x[..]);
    SpreadIsZeroIffEqual(x[..]);
  }
}
