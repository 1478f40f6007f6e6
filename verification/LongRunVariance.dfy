/** Long-run variance estimators of the evaluation gates: the Bartlett (Newey-West)
    kernel, the uniform (Hansen-Hodrick) kernel and the registered finite-sample
    correction. Standard errors are kept as their squares, so no root is taken. */
module LongRunVariance {
  import opened Arithmetic
  import opened RealSums
  import opened Options

  const HH_LAG := 4
  const FALLBACK_LAG := 8

  function Centered(xs: seq<real>): (c: seq<real>)
    requires xs != []
    ensures |c| == |xs|
  {
    seq(|xs|, i requires 0 <= i < |xs| => xs[i] - Mean(xs))
  }

  /** The series read outside its range is zero. */
  function At(c: seq<real>, i: int): real {
    if 0 <= i < |c| then c[i] else 0.0
  }

  function LagTerm(c: seq<real>, a: int, b: int): int -> real {
    t => At(c, t - a) * At(c, t - b)
  }

  /** Sum of lagged products; the autocovariance is this over n. */
  function Lagged(c: seq<real>, k: int): real {
    Sum(LagTerm(c, 0, k), k, |c|)
  }

  function LaggedAt(c: seq<real>): int -> real {
    k => Lagged(c, k)
  }

  function Covariance(c: seq<real>, k: int): real
    requires c != []
  {
    Lagged(c, k) / |c| as real
  }

  function BartlettWeight(k: int, lag: nat): real {
    1.0 - k as real / (lag + 1) as real
  }

  function WeightedCovariance(c: seq<real>, lag: nat): int -> real
    requires c != []
  {
    k => BartlettWeight(k, lag) * Covariance(c, k)
  }

  function CovarianceAt(c: seq<real>): int -> real
    requires c != []
  {
    k => Covariance(c, k)
  }

  /** The Bartlett-weighted long-run variance with the given lag. */
  function Bartlett(c: seq<real>, lag: nat): real
    requires c != []
  {
    Covariance(c, 0) + 2.0 * Sum(WeightedCovariance(c, lag), 1, lag + 1)
  }

  /** The uniform-kernel long-run variance with the given lag. */
  function Uniform(c: seq<real>, lag: nat): real
    requires c != []
  {
    Covariance(c, 0) + 2.0 * Sum(CovarianceAt(c), 1, lag + 1)
  }

  // ----- the Bartlett form is a sum of squared moving sums -----

  /** c[s] + c[s-1] + ... with m terms. */
  function Moving(c: seq<real>, s: int, m: nat): real {
    if m == 0 then 0.0 else Moving(c, s, m - 1) + At(c, s - (m - 1))
  }

  function MovingSquare(c: seq<real>, m: nat): int -> real {
    s => Moving(c, s, m) * Moving(c, s, m)
  }

  /** Sum of the squares of the moving sums of m terms, over 0 <= s < bound. */
  function Squares(c: seq<real>, m: nat, bound: int): real {
    Sum(MovingSquare(c, m), 0, bound)
  }

  function TriangleTerm(c: seq<real>, m: int): int -> real {
    k => (m - k) as real * Lagged(c, k)
  }

  /** m * Lagged(0) + 2 * sum of (m - k) * Lagged(k) over 0 < k < m. */
  function Triangle(c: seq<real>, m: nat): real {
    m as real * Lagged(c, 0) + 2.0 * Sum(TriangleTerm(c, m), 1, m)
  }

  lemma ShiftedProduct(c: seq<real>, a: nat, b: nat, bound: int)
    requires b <= a && |c| + a <= bound
    ensures Sum(LagTerm(c, b, a), 0, bound) == Lagged(c, a - b)
  {
    hide LagTerm, Sum;
    var f, g := LagTerm(c, 0, a - b), LagTerm(c, b, a);
    forall i
      ensures g(i) == f(i - b)
    {
      LagTermShifts(c, b, a, i);
    }
    SumShift(f, g, b, 0, bound);
    LagTermTrims(c, a - b, b, bound);
  }

  lemma LagTermTrims(c: seq<real>, k: nat, b: nat, bound: int)
    requires |c| + k + b <= bound
    ensures Sum(LagTerm(c, 0, k), 0 - b, bound - b) == Lagged(c, k)
  {
    hide LagTerm;
    var f := LagTerm(c, 0, k);
    forall i | !(k <= i < |c|)
      ensures f(i) == 0.0
    {
      LagTermVanishes(c, k, i);
    }
    if k <= |c| {
      SumTrim(f, 0 - b, k, |c|, bound - b);
    } else {
      SumZero(f, 0 - b, bound - b);
    }
  }

  lemma LagTermShifts(c: seq<real>, b: nat, a: nat, i: int)
    requires b <= a
    ensures LagTerm(c, b, a)(i) == LagTerm(c, 0, a - b)(i - b)
  {
  }

  lemma LagTermVanishes(c: seq<real>, k: nat, i: int)
    requires !(k <= i < |c|)
    ensures LagTerm(c, 0, k)(i) == 0.0
  {
    assert At(c, i) == 0.0 || At(c, i - k) == 0.0;
    assert LagTerm(c, 0, k)(i) == At(c, i) * At(c, i - k);
  }

  function Cross(c: seq<real>, m: nat, j: nat): int -> real {
    s => At(c, s - m) * Moving(c, s, j)
  }

  lemma {:induction false} CrossMoving(c: seq<real>, m: nat, j: nat, bound: int)
    requires j <= m && |c| + m <= bound
    ensures Sum(Cross(c, m, j), 0, bound) == Sum(LaggedAt(c), m - j + 1, m + 1)
    decreases j
  {
    hide *;
    if j == 0 {
      CrossZero(c, m, bound);
      SumEmpty(LaggedAt(c), m + 1);
    } else {
      CrossMoving(c, m, j - 1, bound);
      ShiftedProduct(c, m, j - 1, bound);
      CrossTerms(c, m, j, bound);
      SumFirst(LaggedAt(c), m - j + 1, m + 1);
      LaggedAtIs(c, m - j + 1);
    }
  }

  lemma LaggedAtIs(c: seq<real>, k: int)
    ensures LaggedAt(c)(k) == Lagged(c, k)
  {
  }

  lemma CrossZero(c: seq<real>, m: nat, bound: int)
    ensures Sum(Cross(c, m, 0), 0, bound) == 0.0
  {
    SumZero(Cross(c, m, 0), 0, bound);
  }

  lemma CrossTerms(c: seq<real>, m: nat, j: nat, bound: int)
    requires 1 <= j
    ensures Sum(Cross(c, m, j), 0, bound) == Sum(Cross(c, m, j - 1), 0, bound) + Sum(LagTerm(c, j - 1, m), 0, bound)
  {
    hide Cross, LagTerm;
    forall s | 0 <= s < bound
      ensures Cross(c, m, j)(s) == Cross(c, m, j - 1)(s) + 1.0 * LagTerm(c, j - 1, m)(s)
    {
      CrossTermAt(c, m, j, s);
    }
    SumLinear(Cross(c, m, j - 1), 1.0, LagTerm(c, j - 1, m), Cross(c, m, j), 0, bound);
  }

  lemma CrossTermAt(c: seq<real>, m: nat, j: nat, s: int)
    requires 1 <= j
    ensures Cross(c, m, j)(s) == Cross(c, m, j - 1)(s) + 1.0 * LagTerm(c, j - 1, m)(s)
  {
    hide At;
    Distribute(At(c, s - m), Moving(c, s, j - 1), At(c, s - (j - 1)));
  }

  lemma Distribute(x: real, y: real, z: real)
    ensures x * (y + z) == x * y + z * x
    ensures (y + z) * (y + z) == y * y + 2.0 * (z * y) + z * z
  {
  }

  function PartialSquare(c: seq<real>, m: nat): int -> real {
    s => MovingSquare(c, m)(s) + 2.0 * Cross(c, m, m)(s)
  }

  lemma SquaresStep(c: seq<real>, m: nat, bound: int)
    requires |c| + m <= bound
    ensures Squares(c, m + 1, bound) == Squares(c, m, bound) + Lagged(c, 0) + 2.0 * Sum(LaggedAt(c), 1, m + 1)
  {
    hide Lagged, At;
    SumLinear(MovingSquare(c, m), 2.0, Cross(c, m, m), PartialSquare(c, m), 0, bound);
    forall s | 0 <= s < bound
      ensures MovingSquare(c, m + 1)(s) == PartialSquare(c, m)(s) + 1.0 * LagTerm(c, m, m)(s)
    {
      Distribute(0.0, Moving(c, s, m), At(c, s - m));
    }
    SumLinear(PartialSquare(c, m), 1.0, LagTerm(c, m, m), MovingSquare(c, m + 1), 0, bound);
    ShiftedProduct(c, m, m, bound);
    CrossMoving(c, m, m, bound);
  }

  lemma TriangleStep(c: seq<real>, m: nat)
    ensures Triangle(c, m + 1) == Triangle(c, m) + Lagged(c, 0) + 2.0 * Sum(LaggedAt(c), 1, m + 1)
  {
    hide Lagged;
    forall k | 1 <= k < m + 1
      ensures TriangleTerm(c, m + 1)(k) == TriangleTerm(c, m)(k) + 1.0 * LaggedAt(c)(k)
    {
      OneMore(m - k, Lagged(c, k));
    }
    SumLinear(TriangleTerm(c, m), 1.0, LaggedAt(c), TriangleTerm(c, m + 1), 1, m + 1);
    if m >= 1 {
      assert TriangleTerm(c, m)(m) == 0.0;
    }
    OneMore(m, Lagged(c, 0));
  }

  lemma OneMore(m: int, x: real)
    ensures (m + 1) as real * x == m as real * x + x
  {
  }

  /** The identity behind the Bartlett kernel. */
  lemma {:induction false} SquaresAreTriangle(c: seq<real>, m: nat, bound: int)
    requires |c| + m <= bound
    ensures Squares(c, m, bound) == Triangle(c, m)
    decreases m
  {
    hide Lagged, At;
    if m == 0 {
      SumZero(MovingSquare(c, 0), 0, bound);
    } else {
      SquaresAreTriangle(c, m - 1, bound);
      SquaresStep(c, m - 1, bound);
      TriangleStep(c, m - 1);
    }
  }

  lemma ScaledWeight(k: int, lag: nat, n: real, x: real)
    requires n > 0.0
    ensures (lag + 1 - k) as real * x == ((lag + 1) as real * n) * (BartlettWeight(k, lag) * (x / n))
  {
  }

  const ZeroTerm: int -> real := k => 0.0

  lemma ScaledSum(c: seq<real>, lag: nat)
    requires c != []
    ensures Sum(TriangleTerm(c, lag + 1), 1, lag + 1)
         == ((lag + 1) as real * |c| as real) * Sum(WeightedCovariance(c, lag), 1, lag + 1)
  {
    hide Lagged, Sum, BartlettWeight;
    var m, n := (lag + 1) as real, |c| as real;
    forall k | 1 <= k < lag + 1
      ensures TriangleTerm(c, lag + 1)(k) == ZeroTerm(k) + (m * n) * WeightedCovariance(c, lag)(k)
    {
      ScaledWeight(k, lag, n, Lagged(c, k));
    }
    SumLinear(ZeroTerm, m * n, WeightedCovariance(c, lag), TriangleTerm(c, lag + 1), 1, lag + 1);
    SumZero(ZeroTerm, 1, lag + 1);
  }

  lemma BartlettIsTriangle(c: seq<real>, lag: nat)
    requires c != []
    ensures Bartlett(c, lag) * ((lag + 1) as real * |c| as real) == Triangle(c, lag + 1)
  {
    hide Lagged, Sum, BartlettWeight;
    var m, n := (lag + 1) as real, |c| as real;
    ScaledSum(c, lag);
    Reassemble(Covariance(c, 0), Sum(WeightedCovariance(c, lag), 1, lag + 1), m, n, Lagged(c, 0));
  }

  lemma Reassemble(v: real, s: real, m: real, n: real, x: real)
    requires n > 0.0 && v == x / n
    ensures (v + 2.0 * s) * (m * n) == m * x + 2.0 * ((m * n) * s)
  {
  }

  /** The Bartlett long-run variance is a sum of squares over a positive number, so it is
      never negative, and it vanishes only for the all-zero series. */
  lemma BartlettNonNegative(c: seq<real>, lag: nat)
    requires c != []
    ensures Bartlett(c, lag) >= 0.0
    ensures Bartlett(c, lag) == 0.0 <==> forall i | 0 <= i < |c| :: c[i] == 0.0
  {
    hide *;
    var bound := |c| + lag + 1;
    var p := (lag + 1) as real * |c| as real;
    SquaresAreTriangle(c, lag + 1, bound);
    BartlettIsTriangle(c, lag);
    PositiveProduct((lag + 1) as real, |c| as real, (lag + 1) as real * |c| as real);
    SquaresSign(c, lag + 1, bound);
    QuotientSign(Bartlett(c, lag), p);
  }

  lemma SquaresSign(c: seq<real>, m: nat, bound: int)
    requires m >= 1 && |c| <= bound
    ensures Squares(c, m, bound) >= 0.0
    ensures Squares(c, m, bound) == 0.0 <==> forall i | 0 <= i < |c| :: c[i] == 0.0
  {
    hide At;
    var sq := MovingSquare(c, m);
    SquaresIs(c, m, bound);
    forall s | 0 <= s < bound
      ensures sq(s) >= 0.0
    {
      MovingSquareSign(c, m, s);
    }
    SumNonNegative(sq, 0, bound);
    if forall i | 0 <= i < |c| :: c[i] == 0.0 {
      forall s | 0 <= s < bound
        ensures sq(s) == 0.0
      {
        MovingSquareSign(c, m, s);
        MovingZero(c, s, m);
      }
      SumZero(sq, 0, bound);
    } else {
      var i := FirstNonZero(c);
      MovingAtFirst(c, i, m);
      MovingSquareSign(c, m, i);
      assert Sum(sq, 0, bound) >= sq(i);
    }
  }

  lemma MovingSquareSign(c: seq<real>, m: nat, s: int)
    ensures MovingSquare(c, m)(s) >= 0.0
    ensures Moving(c, s, m) == 0.0 ==> MovingSquare(c, m)(s) == 0.0
    ensures Moving(c, s, m) != 0.0 ==> MovingSquare(c, m)(s) > 0.0
  {
    var x := Moving(c, s, m);
    SquareSign(x, MovingSquare(c, m)(s));
  }

  lemma SquaresIs(c: seq<real>, m: nat, bound: int)
    ensures Squares(c, m, bound) == Sum(MovingSquare(c, m), 0, bound)
  {
    hide Moving, Sum;
  }

  lemma SquareSign(x: real, q: real)
    requires q == x * x
    ensures q >= 0.0
    ensures x != 0.0 ==> q > 0.0
    ensures x == 0.0 ==> q == 0.0
  {
    if x > 0.0 {
      PositiveProduct(x, x, q);
    } else if x < 0.0 {
      PositiveProduct(-x, -x, q);
    }
  }

  lemma ScaleSign(x: real, p: real)
    requires p > 0.0 && x >= 0.0
    ensures x * p >= 0.0
  {
  }

  lemma QuotientSign(x: real, p: real)
    requires p > 0.0
    ensures x * p >= 0.0 ==> x >= 0.0
    ensures x * p > 0.0 ==> x > 0.0
    ensures x * p == 0.0 <==> x == 0.0
  {
  }

  lemma {:induction false} MovingZero(c: seq<real>, s: int, m: nat)
    requires forall i | 0 <= i < |c| :: c[i] == 0.0
    ensures Moving(c, s, m) == 0.0
    decreases m
  {
    if m > 0 {
      MovingZero(c, s, m - 1);
    }
  }

  function FirstNonZero(c: seq<real>): (i: nat)
    requires exists i | 0 <= i < |c| :: c[i] != 0.0
    ensures i < |c| && c[i] != 0.0 && forall j | 0 <= j < i :: c[j] == 0.0
  {
    if c[0] != 0.0 then 0
    else
      assert exists i | 0 <= i < |c[1..]| :: c[1..][i] != 0.0 by {
        var k :| 0 <= k < |c| && c[k] != 0.0;
        assert c[1..][k - 1] == c[k];
      }
      var r := FirstNonZero(c[1..]);
      assert forall j | 1 <= j < r + 1 :: c[j] == c[1..][j - 1];
      r + 1
  }

  lemma {:induction false} MovingAtFirst(c: seq<real>, i: nat, m: nat)
    requires 1 <= m && i < |c| && forall j | 0 <= j < i :: c[j] == 0.0
    ensures Moving(c, i, m) == c[i]
    decreases m
  {
    if m == 1 {
      assert Moving(c, i, 0) == 0.0;
    } else {
      MovingAtFirst(c, i, m - 1);
    }
  }

  // ----- the uniform form is a sum over windows -----

  /** The sum of the values at most `lag` places from `i`. */
  function Around(c: seq<real>, lag: nat, i: int): real {
    if lag == 0 then At(c, i) else Around(c, lag - 1, i) + At(c, i - lag) + At(c, i + lag)
  }

  function TimesAround(c: seq<real>, lag: nat): int -> real {
    i => At(c, i) * Around(c, lag, i)
  }

  /** n times the uniform variance is the sum of each value times the values within the lag. */
  lemma UniformIsWindows(c: seq<real>, lag: nat)
    requires c != []
    ensures Uniform(c, lag) * |c| as real == Sum(TimesAround(c, lag), 0, |c|)
  {
    WindowSums(c, lag);
    LagSums(c, lag);
  }

  lemma {:induction false} LagSums(c: seq<real>, lag: nat)
    requires c != []
    ensures Uniform(c, lag) * |c| as real == Lagged(c, 0) + 2.0 * Sum(LaggedAt(c), 1, lag + 1)
  {
    hide Lagged;
    if lag > 0 {
      LagSums(c, lag - 1);
      var n, s, x := |c| as real, Sum(CovarianceAt(c), 1, lag), Covariance(c, lag);
      assert x * n == Lagged(c, lag);
      assert (Covariance(c, 0) + 2.0 * (s + x)) * n == (Covariance(c, 0) + 2.0 * s) * n + 2.0 * (x * n);
    }
  }

  lemma {:induction false} WindowSums(c: seq<real>, lag: nat)
    ensures Sum(TimesAround(c, lag), 0, |c|) == Lagged(c, 0) + 2.0 * Sum(LaggedAt(c), 1, lag + 1)
  {
    var n := |c|;
    if lag == 0 {
      SameSum(TimesAround(c, 0), LagTerm(c, 0, 0), 0, n);
    } else {
      WindowSums(c, lag - 1);
      ForwardLag(c, lag);
      BackwardLag(c, lag);
      WindowStep(c, lag);
    }
  }

  lemma WindowStep(c: seq<real>, lag: nat)
    requires lag > 0
    ensures Sum(TimesAround(c, lag), 0, |c|)
         == Sum(TimesAround(c, lag - 1), 0, |c|) + Sum(LagTerm(c, 0, lag), 0, |c|) + Sum(LagTerm(c, 0, 0 - lag), 0, |c|)
  {
    hide LagTerm, TimesAround, Around;
    var f, back, ahead, g := TimesAround(c, lag - 1), LagTerm(c, 0, lag), LagTerm(c, 0, 0 - lag), TimesAround(c, lag);
    var h: int -> real := i => f(i) + 1.0 * back(i);
    SumLinear(f, 1.0, back, h, 0, |c|);
    forall i | 0 <= i < |c|
      ensures g(i) == h(i) + 1.0 * ahead(i)
    {
      WindowTerm(c, lag, i);
    }
    SumLinear(h, 1.0, ahead, g, 0, |c|);
  }

  lemma {:induction false} WindowTerm(c: seq<real>, lag: nat, i: int)
    requires lag > 0
    ensures TimesAround(c, lag)(i) == TimesAround(c, lag - 1)(i) + LagTerm(c, 0, lag)(i) + LagTerm(c, 0, 0 - lag)(i)
  {
    ThreeTerms(At(c, i), Around(c, lag - 1, i), At(c, i - lag), At(c, i + lag));
  }

  lemma ThreeTerms(x: real, a: real, b: real, d: real)
    ensures x * (a + b + d) == x * a + x * b + x * d
  {
  }

  lemma {:induction false} SameSum(f: int -> real, g: int -> real, lo: int, hi: int)
    requires forall i | lo <= i < hi :: f(i) == g(i)
    ensures Sum(f, lo, hi) == Sum(g, lo, hi)
    decreases hi - lo
  {
    if lo < hi {
      SameSum(f, g, lo, hi - 1);
    }
  }

  lemma BackwardLag(c: seq<real>, lag: nat)
    requires lag > 0
    ensures Sum(LagTerm(c, 0, lag), 0, |c|) == Lagged(c, lag)
  {
    hide LagTerm;
    var f := LagTerm(c, 0, lag);
    forall i | !(lag <= i < |c|)
      ensures f(i) == 0.0
    {
      LagTermVanishes(c, lag, i);
    }
    if lag <= |c| {
      SumTrim(f, 0, lag, |c|, |c|);
    } else {
      SumZero(f, 0, |c|);
    }
  }

  /** Looking ahead gives the same products. */
  lemma ForwardLag(c: seq<real>, lag: nat)
    requires lag > 0
    ensures Sum(LagTerm(c, 0, 0 - lag), 0, |c|) == Lagged(c, lag)
  {
    var ahead, back := LagTerm(c, 0, 0 - lag), LagTerm(c, 0, lag);
    forall i
      ensures ahead(i) == back(i + lag)
    {
    }
    SumShift(back, ahead, 0 - lag, 0, |c|);
    forall i | !(lag <= i < |c|)
      ensures back(i) == 0.0
    {
      LagTermVanishes(c, lag, i);
    }
    hide LagTerm;
    if lag <= |c| {
      SumTrim(back, lag, lag, |c|, |c| + lag);
    } else {
      SumZero(back, lag, |c| + lag);
    }
  }

  // ----- Newey-West -----

  lemma Reorder(w: real, x: real)
    ensures 2.0 * w * x == 2.0 * (w * x)
  {
  }

  datatype NeweyWestResult = NeweyWestResult(
    n: nat, mean: Option<real>, seSquared: Option<real>, hasT: bool, lag: int)

  function Clamp(lag: int, n: nat): (b: nat)
    requires n >= 1
    ensures b <= n - 1
  {
    if lag < 0 then 0 else if lag < n - 1 then lag else n - 1
  }

  /** The clamp of the variance at zero never acts: the reported squared standard error is
      the Bartlett variance over n, and t exists exactly when the series varies. */
  method NeweyWest(values: seq<real>, lag: int) returns (r: NeweyWestResult)
    ensures r.n == |values|
    ensures |values| < 3 ==> r.seSquared.None? && !r.hasT && r.lag == lag
    ensures |values| >= 3 ==>
      && r.lag == Clamp(lag, |values|)
      && r.mean == Some(Mean(values))
      && r.seSquared == Some(Bartlett(Centered(values), Clamp(lag, |values|)) / |values| as real)
      && r.seSquared.value >= 0.0
      && (r.hasT <==> exists i | 0 <= i < |values| :: values[i] != Mean(values))
  {
    hide Covariance, Mean;
    var n := |values|;
    if n < 3 {
      return NeweyWestResult(n, if n == 0 then None else Some(Mean(values)), None, false, lag);
    }
    var centered := Centered(values);
    var bounded := Clamp(lag, n);
    var lrv := Covariance(centered, 0);
    for offset := 1 to bounded + 1
      invariant lrv == Covariance(centered, 0) + 2.0 * Sum(WeightedCovariance(centered, bounded), 1, offset)
    {
      var covariance := Covariance(centered, offset);
      var weight := 1.0 - offset as real / (bounded + 1) as real;
      Reorder(weight, covariance);
      lrv := lrv + 2.0 * weight * covariance;
    }
    BartlettNonNegative(centered, bounded);
    var seSquared := (if lrv > 0.0 then lrv else 0.0) / n as real;
    QuotientSign(seSquared, n as real);
    r := NeweyWestResult(n, Some(Mean(values)), Some(seSquared), seSquared != 0.0, bounded);
    assert forall i | 0 <= i < n :: centered[i] == values[i] - Mean(values);
  }

  // ----- the corrected primary variance -----

  function OverlapBias(n: nat, fallback: bool): real
    requires n >= 1
  {
    var x := n as real;
    if fallback then
      37.0 / 45.0 - 457.0 / (45.0 * x) + 2272.0 / (75.0 * x * x) + 128.0 / (3.0 * x * x * x)
    else
      1.0 - 53.0 / (5.0 * x) + 24.0 / (x * x) + 32.0 / (x * x * x)
  }

  lemma CubicsPositive(n: int)
    requires n >= 3
    ensures 5 * n * n * n - 53 * n * n + 120 * n + 160 > 0
    ensures 185 * n * n * n - 2285 * n * n + 6816 * n + 9600 > 0
  {
    if n < 13 {
      assert n == 3 || n == 4 || n == 5 || n == 6 || n == 7 || n == 8 || n == 9 || n == 10 || n == 11 || n == 12;
    } else {
      assert n * n * (5 * n - 53) == 5 * n * n * n - 53 * n * n;
      assert n * n * (185 * n - 2285) == 185 * n * n * n - 2285 * n * n;
      assert n * n > 0;
      ProductNonNegative(n * n, 5 * n - 53);
      ProductNonNegative(n * n, 185 * n - 2285);
    }
  }

  lemma ProductNonNegative(a: int, b: int)
    requires a >= 0 && b >= 0
    ensures a * b >= 0
  {
  }

  lemma BiasOverCube(x: real)
    requires x > 0.0
    ensures (1.0 - 53.0 / (5.0 * x) + 24.0 / (x * x) + 32.0 / (x * x * x)) * (5.0 * (x * x * x))
         == 5.0 * x * x * x - 53.0 * x * x + 120.0 * x + 160.0
    ensures (37.0 / 45.0 - 457.0 / (45.0 * x) + 2272.0 / (75.0 * x * x) + 128.0 / (3.0 * x * x * x)) * (225.0 * (x * x * x))
         == 185.0 * x * x * x - 2285.0 * x * x + 6816.0 * x + 9600.0
  {
  }

  /** Both finite-sample corrections divide by a positive number for every n >= 3. */
  lemma OverlapBiasPositive(n: nat, fallback: bool)
    requires n >= 3
    ensures OverlapBias(n, fallback) > 0.0
  {
    hide *;
    var x := n as real;
    FastBias(n);
    SlowBias(n);
    CubicsPositive(n);
    CubicsOver(n);
    Cube(x);
    QuotientSign(OverlapBias(n, fallback), if fallback then 225.0 * (x * x * x) else 5.0 * (x * x * x));
  }

  lemma Cube(x: real)
    requires x > 0.0
    ensures x * x * x > 0.0
  {
    PositiveProduct(x, x, x * x);
    PositiveProduct(x * x, x, x * x * x);
  }

  /** The integer cubics are the real ones. */
  lemma CubicsOver(n: nat)
    ensures var x := n as real;
      && 5.0 * x * x * x - 53.0 * x * x + 120.0 * x + 160.0 == (5 * n * n * n - 53 * n * n + 120 * n + 160) as real
      && 185.0 * x * x * x - 2285.0 * x * x + 6816.0 * x + 9600.0 == (185 * n * n * n - 2285 * n * n + 6816 * n + 9600) as real
  {
    Powers(n, 5);
    Powers(n, 53);
    Powers(n, 185);
    Powers(n, 2285);
  }

  lemma Powers(n: nat, c: nat)
    ensures c as real * n as real * n as real == (c * n * n) as real
    ensures c as real * n as real * n as real * n as real == (c * n * n * n) as real
  {
    assert c as real * n as real == (c * n) as real;
    assert (c * n) as real * n as real == (c * n * n) as real;
    assert (c * n * n) as real * n as real == (c * n * n * n) as real;
  }

  function VarianceInflation(n: nat, fallback: bool): (f: real)
    requires n >= 3
    ensures f > 0.0
  {
    OverlapBiasPositive(n, fallback);
    var r := n as real / (n - 1) as real;
    assert r > 0.0;
    var q := r / OverlapBias(n, fallback);
    assert q > 0.0 by { assert q * OverlapBias(n, fallback) == r; }
    q
  }

  /** The inflation with its fractions cleared. */
  lemma InflationIs(n: nat, fallback: bool)
    requires n >= 3
    ensures var x := n as real;
      if fallback then VarianceInflation(n, fallback) * ((x - 1.0) * (185.0 * x * x * x - 2285.0 * x * x + 6816.0 * x + 9600.0)) == 225.0 * (x * x * x) * x
      else VarianceInflation(n, fallback) * ((x - 1.0) * (5.0 * x * x * x - 53.0 * x * x + 120.0 * x + 160.0)) == 5.0 * (x * x * x) * x
  {
    hide *;
    var x := n as real;
    InflationTimesBias(n, fallback);
    if fallback {
      SlowBias(n);
      ClearFractions(VarianceInflation(n, fallback), OverlapBias(n, fallback), x / (x - 1.0), x, 225.0 * (x * x * x),
                     185.0 * x * x * x - 2285.0 * x * x + 6816.0 * x + 9600.0);
    } else {
      FastBias(n);
      ClearFractions(VarianceInflation(n, fallback), OverlapBias(n, fallback), x / (x - 1.0), x, 5.0 * (x * x * x),
                     5.0 * x * x * x - 53.0 * x * x + 120.0 * x + 160.0);
    }
  }

  lemma InflationTimesBias(n: nat, fallback: bool)
    requires n >= 3
    ensures var x := n as real;
      VarianceInflation(n, fallback) * OverlapBias(n, fallback) == x / (x - 1.0) && x / (x - 1.0) * (x - 1.0) == x
  {
    hide OverlapBias;
    OverlapBiasPositive(n, fallback);
    assert (n - 1) as real == n as real - 1.0;
  }

  lemma FastBias(n: nat)
    requires n >= 3
    ensures var x := n as real; 5.0 * x * x * x - 53.0 * x * x + 120.0 * x + 160.0 == OverlapBias(n, false) * (5.0 * (x * x * x))
  {
    BiasOverCube(n as real);
  }

  lemma SlowBias(n: nat)
    requires n >= 3
    ensures var x := n as real; 185.0 * x * x * x - 2285.0 * x * x + 6816.0 * x + 9600.0 == OverlapBias(n, true) * (225.0 * (x * x * x))
  {
    BiasOverCube(n as real);
  }

  lemma ClearFractions(v: real, bias: real, r: real, x: real, scale: real, cleared: real)
    requires v * bias == r && r * (x - 1.0) == x && cleared == bias * scale
    ensures v * ((x - 1.0) * cleared) == scale * x
  {
    assert v * ((x - 1.0) * cleared) == (v * bias) * (x - 1.0) * scale;
  }

  /** Absent fields are the ones the estimator leaves empty; `seSquared` is the corrected
      variance over n, present when that variance is positive. */
  datatype PrimaryEstimate = PrimaryEstimate(
    n: nat, mean: Option<real>, raw: Option<real>, corrected: Option<real>,
    inflation: Option<real>, lag: nat, fallbackUsed: bool, seSquared: Option<real>)

  function PrimaryStandardError(values: seq<real>): PrimaryEstimate {
    var n := |values|;
    if n < 3 then
      PrimaryEstimate(n, if n == 0 then None else Some(Mean(values)), None, None, None,
                      if n <= 1 then 0 else n - 1, false, None)
    else
      var c := Centered(values);
      var hh := Uniform(c, Clamp(HH_LAG, n));
      var fallback := hh <= 0.0;
      var lag := Clamp(if fallback then FALLBACK_LAG else HH_LAG, n);
      var raw := if fallback then Bartlett(c, lag) else hh;
      var inflation := VarianceInflation(n, fallback);
      var corrected := raw * inflation;
      PrimaryEstimate(n, Some(Mean(values)), Some(raw), Some(corrected), Some(inflation), lag, fallback,
                      if corrected > 0.0 then Some(corrected / n as real) else None)
  }

  lemma {:induction false} UniformOfZero(c: seq<real>, lag: nat)
    requires c != [] && forall i | 0 <= i < |c| :: c[i] == 0.0
    ensures Uniform(c, lag) == 0.0
  {
    forall k | 0 <= k <= lag
      ensures Covariance(c, k) == 0.0
    {
      SumZero(LagTerm(c, 0, k), k, |c|);
    }
    SumZero(CovarianceAt(c), 1, lag + 1);
  }

  /** The corrected primary variance is never negative, is strictly positive whenever the
      Hansen-Hodrick branch is kept, and a standard error is missing exactly when all the
      observations are equal. */
  lemma PrimaryVarianceSound(values: seq<real>)
    requires |values| >= 3
    ensures var r := PrimaryStandardError(values);
      && r.corrected.Some? && r.corrected.value >= 0.0
      && (!r.fallbackUsed ==> r.corrected.value > 0.0)
      && (r.seSquared.None? <==> forall i | 0 <= i < |values| :: values[i] == Mean(values))
  {
    hide Uniform, Bartlett, Mean, OverlapBias;
    var c := Centered(values);
    var r := PrimaryStandardError(values);
    BartlettNonNegative(c, Clamp(FALLBACK_LAG, |values|));
    assert forall i | 0 <= i < |values| :: c[i] == values[i] - Mean(values);
    var f := VarianceInflation(|values|, r.fallbackUsed);
    assert r.raw.value >= 0.0;
    assert r.corrected.value == r.raw.value * f;
    QuotientSign(r.raw.value, f);
    ScaleSign(r.raw.value, f);
    if forall i | 0 <= i < |values| :: values[i] == Mean(values) {
      UniformOfZero(c, Clamp(HH_LAG, |values|));
    }
  }

  /** The estimate in sums of the values about their mean: over windows of four places each way while
      that is positive, otherwise over squared moving sums of nine. */
  lemma EstimateIs(values: seq<real>)
    requires |values| >= 3
    ensures var r, c, n := PrimaryStandardError(values), Centered(values), |values|;
      var near, far := if n > 4 then 4 else n - 1, if n > 8 then 8 else n - 1;
      && r.n == n && r.mean == Some(Mean(values)) && r.raw.Some? && r.corrected.Some? && r.inflation == Some(VarianceInflation(n, r.fallbackUsed))
      && (r.fallbackUsed <==> Sum(TimesAround(c, near), 0, n) <= 0.0)
      && (!r.fallbackUsed ==> r.lag == near && r.raw.value * n as real == Sum(TimesAround(c, near), 0, n))
      && (r.fallbackUsed ==> r.lag == far && r.raw.value * ((far + 1) as real * n as real) == Squares(c, far + 1, n + far + 1))
      && r.corrected.value == r.raw.value * r.inflation.value
      && if r.corrected.value > 0.0 then r.seSquared.Some? && r.seSquared.value * n as real == r.corrected.value else r.seSquared.None?
  {
    hide *;
    var c, n := Centered(values), |values|;
    var near, far := if n > 4 then 4 else n - 1, if n > 8 then 8 else n - 1;
    CentredSize(values);
    Estimate(values, near, far);
    UniformIsWindows(c, near);
    BartlettIsTriangle(c, far);
    SquaresAreTriangle(c, far + 1, n + far + 1);
    SameSigns(Uniform(c, near), n as real, Sum(TimesAround(c, near), 0, n));
  }

  lemma CentredSize(values: seq<real>)
    requires |values| >= 3
    ensures |Centered(values)| == |values|
  {
  }

  lemma SameSigns(x: real, n: real, y: real)
    requires n > 0.0 && x * n == y
    ensures x <= 0.0 <==> y <= 0.0
  {
  }

  lemma Estimate(values: seq<real>, near: nat, far: nat)
    requires |values| >= 3 && near == (if |values| > 4 then 4 else |values| - 1) && far == (if |values| > 8 then 8 else |values| - 1)
    ensures Centered(values) != []
    ensures var r, c, n := PrimaryStandardError(values), Centered(values), |values|;
      && r.n == n && r.mean == Some(Mean(values)) && r.raw.Some? && r.corrected.Some? && r.inflation == Some(VarianceInflation(n, r.fallbackUsed))
      && (r.fallbackUsed <==> Uniform(c, near) <= 0.0)
      && (if r.fallbackUsed then r.lag == far && r.raw.value == Bartlett(c, far) else r.lag == near && r.raw.value == Uniform(c, near))
      && r.corrected.value == r.raw.value * r.inflation.value
      && if r.corrected.value > 0.0 then r.seSquared.Some? && r.seSquared.value * n as real == r.corrected.value else r.seSquared.None?
  {
    hide Uniform, Bartlett, Mean, VarianceInflation;
    CentredSize(values);
    var r := PrimaryStandardError(values);
    var q := r.corrected.value / |values| as real;
    assert q * |values| as real == r.corrected.value;
  }
}
