/** Squared deviations and neighbour products about the mean, and what they are in terms of plain
    sums of the values. */
module Moments {
  import opened Arithmetic

  function SquaredDeviations(xs: seq<real>, mean: real): real {
    if xs == [] then 0.0
    else SquaredDeviations(xs[..|xs| - 1], mean) + (xs[|xs| - 1] - mean) * (xs[|xs| - 1] - mean)
  }

  function LagOneProducts(xs: seq<real>, mean: real): real {
    if |xs| < 2 then 0.0
    else LagOneProducts(xs[..|xs| - 1], mean) + (xs[|xs| - 1] - mean) * (xs[|xs| - 2] - mean)
  }

  function TotalSquares(xs: seq<real>): real {
    if xs == [] then 0.0 else TotalSquares(xs[..|xs| - 1]) + xs[|xs| - 1] * xs[|xs| - 1]
  }

  /** The sum of the products of neighbours. */
  function TotalNeighbours(xs: seq<real>): real {
    if |xs| < 2 then 0.0 else TotalNeighbours(xs[..|xs| - 1]) + xs[|xs| - 1] * xs[|xs| - 2]
  }

  ghost predicate Flat(xs: seq<real>) {
    forall i, j | 0 <= i < j < |xs| :: xs[i] == xs[j]
  }

  lemma MeanIs(xs: seq<real>)
    requires xs != []
    ensures Mean(xs) * |xs| as real == Total(xs)
  {
  }

  /** The squared deviations from m of n values with sum s and sum of squares q. */
  function About(q: real, s: real, n: real, m: real): real {
    q - 2.0 * m * s + n * (m * m)
  }

  lemma {:induction false} DeviationsExpand(xs: seq<real>, m: real)
    ensures SquaredDeviations(xs, m) == About(TotalSquares(xs), Total(xs), |xs| as real, m)
  {
    if xs != [] {
      hide About;
      var rest := xs[..|xs| - 1];
      DeviationsExpand(rest, m);
      OneMoreDeviation(TotalSquares(rest), Total(rest), |rest| as real, xs[|xs| - 1], m,
                       TotalSquares(xs), Total(xs), |xs| as real);
    }
  }

  lemma OneMoreDeviation(q: real, s: real, n: real, x: real, m: real, q1: real, s1: real, n1: real)
    requires q1 == q + x * x && s1 == s + x && n1 == n + 1.0
    ensures About(q, s, n, m) + (x - m) * (x - m) == About(q1, s1, n1, m)
  {
  }

  /** The neighbour products about m, of n + 1 values whose ends left out of twice the sum leave w. */
  function Beside(p: real, w: real, n: real, m: real): real {
    p - m * w + n * (m * m)
  }

  lemma {:induction false} NeighboursExpand(xs: seq<real>, m: real)
    requires xs != []
    ensures LagOneProducts(xs, m) == Beside(TotalNeighbours(xs), 2.0 * Total(xs) - xs[0] - xs[|xs| - 1], (|xs| - 1) as real, m)
  {
    hide *;
    if |xs| == 1 {
      OneNeighbour(xs, m);
    } else {
      NextNeighbour(xs, m);
      var rest, x, y := xs[..|xs| - 1], xs[|xs| - 1], xs[|xs| - 2];
      NeighboursExpand(rest, m);
      OneMoreNeighbour(TotalNeighbours(rest), 2.0 * Total(rest) - xs[0] - y, (|rest| - 1) as real, x, y, m,
                       TotalNeighbours(xs), 2.0 * Total(xs) - xs[0] - x, (|xs| - 1) as real);
    }
  }

  lemma {:induction false} OneNeighbour(xs: seq<real>, m: real)
    requires |xs| == 1
    ensures LagOneProducts(xs, m) == Beside(TotalNeighbours(xs), 2.0 * Total(xs) - xs[0] - xs[0], 0.0, m)
  {
    assert Total(xs) == Total(xs[..0]) + xs[0] == xs[0];
  }

  lemma {:induction false} NextNeighbour(xs: seq<real>, m: real)
    requires |xs| > 1
    ensures var rest, x, y := xs[..|xs| - 1], xs[|xs| - 1], xs[|xs| - 2];
      && LagOneProducts(xs, m) == LagOneProducts(rest, m) + (x - m) * (y - m)
      && TotalNeighbours(xs) == TotalNeighbours(rest) + x * y && Total(xs) == Total(rest) + x
  {
  }

  lemma OneMoreNeighbour(p: real, w: real, n: real, x: real, y: real, m: real, p1: real, w1: real, n1: real)
    requires p1 == p + x * y && w1 == w + x + y && n1 == n + 1.0
    ensures Beside(p, w, n, m) + (x - m) * (y - m) == Beside(p1, w1, n1, m)
  {
  }

  /** n times the squared deviations from the mean is n times the sum of squares less the square
      of the sum. */
  lemma DeviationsAre(xs: seq<real>, m: real)
    requires m * |xs| as real == Total(xs)
    ensures |xs| as real * SquaredDeviations(xs, m) == |xs| as real * TotalSquares(xs) - Total(xs) * Total(xs)
  {
    hide *;
    DeviationsExpand(xs, m);
    CentreOfMass(TotalSquares(xs), Total(xs), m, |xs| as real, SquaredDeviations(xs, m));
  }

  lemma CentreOfMass(q: real, s: real, m: real, n: real, d: real)
    requires d == About(q, s, n, m) && m * n == s
    ensures n * d == n * q - s * s
  {
    assert n * (m * m) == s * m;
    assert d == q - m * s;
    assert n * d == n * q - n * (m * s);
    assert n * (m * s) == (m * n) * s;
  }

  /** n squared times the neighbour products about the mean, given the plain ones p and w. */
  function Centred(p: real, w: real, n: real, s: real): real {
    n * n * p - n * s * w + (n - 1.0) * s * s
  }

  lemma NeighboursAre(xs: seq<real>, m: real)
    requires xs != [] && m * |xs| as real == Total(xs)
    ensures |xs| as real * |xs| as real * LagOneProducts(xs, m)
         == Centred(TotalNeighbours(xs), 2.0 * Total(xs) - xs[0] - xs[|xs| - 1], |xs| as real, Total(xs))
  {
    hide *;
    NeighboursExpand(xs, m);
    CentredNeighbours(TotalNeighbours(xs), 2.0 * Total(xs) - xs[0] - xs[|xs| - 1], m, |xs| as real, Total(xs), LagOneProducts(xs, m));
  }

  lemma CentredNeighbours(p: real, w: real, m: real, n: real, s: real, d: real)
    requires d == Beside(p, w, n - 1.0, m) && m * n == s
    ensures n * n * d == Centred(p, w, n, s)
  {
    var mw, mm := m * w, m * m;
    assert n * mw == s * w;
    assert n * n * mm == s * s by {
      assert n * mm == s * m;
    }
    var e := (n - 1.0) * mm;
    assert n * n * e == (n - 1.0) * s * s by {
      assert n * n * e == (n - 1.0) * (n * n * mm);
    }
    assert n * n * d == n * n * p - n * (n * mw) + n * n * e;
  }

  lemma {:induction false} DeviationsZeroIff(xs: seq<real>, m: real)
    ensures SquaredDeviations(xs, m) >= 0.0
    ensures SquaredDeviations(xs, m) == 0.0 <==> forall i | 0 <= i < |xs| :: xs[i] == m
  {
    if xs != [] {
      var rest := xs[..|xs| - 1];
      DeviationsZeroIff(rest, m);
      SquareSign(xs[|xs| - 1] - m);
      assert forall i | 0 <= i < |rest| :: rest[i] == xs[i];
    }
  }

  lemma SquareSign(d: real)
    ensures d * d >= 0.0 && (d * d == 0.0 <==> d == 0.0)
  {
    if d > 0.0 {
      PositiveProduct(d, d, d * d);
    } else if d < 0.0 {
      PositiveProduct(0.0 - d, 0.0 - d, d * d);
    }
  }

  lemma {:induction false} FlatTotal(xs: seq<real>, x: real)
    requires forall i | 0 <= i < |xs| :: xs[i] == x
    ensures Total(xs) == |xs| as real * x
  {
    if xs != [] {
      FlatTotal(xs[..|xs| - 1], x);
      OneMoreTimes((|xs| - 1) as real, x);
    }
  }

  lemma OneMoreTimes(n: real, x: real)
    ensures n * x + x == (n + 1.0) * x
  {
  }

  /** Nothing deviates from the mean exactly when all values are equal. */
  lemma FlatIff(xs: seq<real>, m: real)
    requires xs != [] && m * |xs| as real == Total(xs)
    ensures SquaredDeviations(xs, m) >= 0.0
    ensures SquaredDeviations(xs, m) == 0.0 <==> Flat(xs)
  {
    DeviationsZeroIff(xs, m);
    if Flat(xs) {
      FlatTotal(xs, xs[0]);
      SameFactor(m, xs[0], |xs| as real);
    }
  }

  lemma SameFactor(x: real, y: real, n: real)
    requires x * n == n * y && n > 0.0
    ensures x == y
  {
    var d := x - y;
    assert d * n == 0.0;
  }

  /** Beyond zero by more than w, stated of squares. */
  lemma BeyondZero(x: real, w: real)
    requires w >= 0.0
    ensures x - w > 0.0 <==> x > 0.0 && x * x > w * w
    ensures x + w < 0.0 <==> x < 0.0 && x * x > w * w
  {
    SquaresOrder(x, w);
    SquaresOrder(0.0 - x, w);
    assert (0.0 - x) * (0.0 - x) == x * x;
  }

  lemma SquaresOrder(x: real, w: real)
    requires w >= 0.0
    ensures x > 0.0 ==> (x * x > w * w <==> x > w)
  {
    if x > 0.0 {
      var d, t := x - w, x + w;
      assert x * x - w * w == d * t;
      if d > 0.0 {
        PositiveProduct(d, t, d * t);
      } else {
        NonNegativeProduct(0.0 - d, t);
        assert (0.0 - d) * t == 0.0 - d * t;
      }
    }
  }
}
