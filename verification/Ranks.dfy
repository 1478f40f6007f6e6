/** Tie-averaged ranks and the rank correlation built on them. */
module Ranks {
  import opened Arithmetic

  // ----- counting -----

  function CountBelow(values: seq<real>, x: real): nat {
    if values == [] then 0
    else CountBelow(values[..|values| - 1], x) + if values[|values| - 1] < x then 1 else 0
  }

  function CountEqual(values: seq<real>, x: real): nat {
    if values == [] then 0
    else CountEqual(values[..|values| - 1], x) + if values[|values| - 1] == x then 1 else 0
  }

  /** The midrank: how many values are smaller, plus the middle of the tie. */
  function MidRank(values: seq<real>, x: real): real {
    CountBelow(values, x) as real + (CountEqual(values, x) + 1) as real / 2.0
  }

  // ----- the sort by (value, index) -----

  /** Insert index k, larger than every index already placed, after all values not above its own. */
  function Insert(values: seq<real>, order: seq<nat>, k: nat): (r: seq<nat>)
    requires k < |values| && forall i | 0 <= i < |order| :: order[i] < |values|
    ensures |r| == |order| + 1
    ensures forall i | 0 <= i < |r| :: r[i] < |values|
  {
    if order == [] || values[order[|order| - 1]] <= values[k] then order + [k]
    else Insert(values, order[..|order| - 1], k) + [order[|order| - 1]]
  }

  /** The indices 0..n-1 sorted by value, ties by index. */
  function SortedOrder(values: seq<real>, n: nat): (r: seq<nat>)
    requires n <= |values|
    ensures |r| == n
    ensures forall i | 0 <= i < n :: r[i] < |values|
  {
    if n == 0 then [] else Insert(values, SortedOrder(values, n - 1), n - 1)
  }

  ghost predicate Ascending(values: seq<real>, order: seq<nat>)
    requires forall i | 0 <= i < |order| :: order[i] < |values|
  {
    forall i, j | 0 <= i < j < |order| :: values[order[i]] <= values[order[j]]
  }

  function BelowAlong(values: seq<real>, order: seq<nat>, x: real): nat
    requires forall i | 0 <= i < |order| :: order[i] < |values|
  {
    if order == [] then 0
    else BelowAlong(values, order[..|order| - 1], x) + if values[order[|order| - 1]] < x then 1 else 0
  }

  function EqualAlong(values: seq<real>, order: seq<nat>, x: real): nat
    requires forall i | 0 <= i < |order| :: order[i] < |values|
  {
    if order == [] then 0
    else EqualAlong(values, order[..|order| - 1], x) + if values[order[|order| - 1]] == x then 1 else 0
  }

  lemma {:induction false} InsertMembers(values: seq<real>, order: seq<nat>, k: nat)
    requires k < |values| && forall i | 0 <= i < |order| :: order[i] < |values|
    ensures forall i :: i in Insert(values, order, k) <==> i == k || i in order
    decreases |order|
  {
    if order != [] && values[order[|order| - 1]] > values[k] {
      InsertMembers(values, order[..|order| - 1], k);
      assert order == order[..|order| - 1] + [order[|order| - 1]];
    }
  }

  lemma {:induction false} InsertAscending(values: seq<real>, order: seq<nat>, k: nat)
    requires k < |values| && forall i | 0 <= i < |order| :: order[i] < |values|
    requires Ascending(values, order)
    ensures Ascending(values, Insert(values, order, k))
    decreases |order|
  {
    if order != [] && values[order[|order| - 1]] > values[k] {
      var rest := order[..|order| - 1];
      InsertAscending(values, rest, k);
      var q := Insert(values, rest, k);
      forall i | 0 <= i < |q|
        ensures values[q[i]] <= values[order[|order| - 1]]
      {
        InsertMembers(values, rest, k);
        assert q[i] in q;
      }
    }
  }

  /** Equal values stand in the order of their indices. */
  ghost predicate Stable(values: seq<real>, order: seq<nat>)
    requires forall i | 0 <= i < |order| :: order[i] < |values|
  {
    forall i, j | 0 <= i < j < |order| && values[order[i]] == values[order[j]] :: order[i] < order[j]
  }

  lemma {:induction false} InsertStable(values: seq<real>, order: seq<nat>, k: nat)
    requires k < |values| && (forall i | 0 <= i < |order| :: order[i] < |values|) && forall i | 0 <= i < |order| :: order[i] < k
    requires Ascending(values, order) && Stable(values, order)
    ensures Stable(values, Insert(values, order, k)) && forall i | 0 <= i <= |order| :: Insert(values, order, k)[i] <= k
    decreases |order|
  {
    if order != [] && values[order[|order| - 1]] > values[k] {
      var rest, last := order[..|order| - 1], order[|order| - 1];
      InsertStable(values, rest, k);
      var q := Insert(values, rest, k);
      forall i | 0 <= i < |q| && values[q[i]] == values[last]
        ensures q[i] < last
      {
        InsertMembers(values, rest, k);
        assert q[i] in q;
        InOrder(order, q[i]);
      }
    }
  }

  lemma InOrder(order: seq<nat>, x: nat)
    requires order != [] && x in order[..|order| - 1]
    ensures exists m | 0 <= m < |order| - 1 :: order[m] == x
  {
    var rest := order[..|order| - 1];
    var m :| 0 <= m < |rest| && rest[m] == x;
    assert order[m] == x;
  }

  lemma {:induction false} OrderIsStable(values: seq<real>, n: nat)
    requires n <= |values|
    ensures Stable(values, SortedOrder(values, n)) && forall i | 0 <= i < n :: SortedOrder(values, n)[i] < n
  {
    if n > 0 {
      OrderIsStable(values, n - 1);
      OrderIsSorted(values, n - 1);
      InsertStable(values, SortedOrder(values, n - 1), n - 1);
    }
  }

  lemma {:induction false} InsertCounts(values: seq<real>, order: seq<nat>, k: nat, x: real)
    requires k < |values| && forall i | 0 <= i < |order| :: order[i] < |values|
    ensures BelowAlong(values, Insert(values, order, k), x) == BelowAlong(values, order, x) + (if values[k] < x then 1 else 0)
    ensures EqualAlong(values, Insert(values, order, k), x) == EqualAlong(values, order, x) + (if values[k] == x then 1 else 0)
    decreases |order|
  {
    var r := Insert(values, order, k);
    if order == [] || values[order[|order| - 1]] <= values[k] {
      assert r[..|r| - 1] == order;
    } else {
      InsertCounts(values, order[..|order| - 1], k, x);
      assert r[..|r| - 1] == Insert(values, order[..|order| - 1], k);
    }
  }

  lemma {:induction false} OrderIsSorted(values: seq<real>, n: nat)
    requires n <= |values|
    ensures Ascending(values, SortedOrder(values, n))
    ensures forall k | 0 <= k < n :: k in SortedOrder(values, n)
    decreases n
  {
    if n > 0 {
      OrderIsSorted(values, n - 1);
      InsertAscending(values, SortedOrder(values, n - 1), n - 1);
      InsertMembers(values, SortedOrder(values, n - 1), n - 1);
    }
  }

  lemma {:induction false} OrderCounts(values: seq<real>, n: nat, x: real)
    requires n <= |values|
    ensures BelowAlong(values, SortedOrder(values, n), x) == CountBelow(values[..n], x)
    ensures EqualAlong(values, SortedOrder(values, n), x) == CountEqual(values[..n], x)
    decreases n
  {
    if n > 0 {
      OrderCounts(values, n - 1, x);
      InsertCounts(values, SortedOrder(values, n - 1), n - 1, x);
      assert values[..n][..n - 1] == values[..n - 1];
    }
  }

  /** Along an ascending order, a maximal run of x says how many values are below and equal. */
  lemma {:induction false} RunCounts(values: seq<real>, order: seq<nat>, start: nat, end: nat, x: real)
    requires start <= end <= |order| && forall i | 0 <= i < |order| :: order[i] < |values|
    requires forall i | 0 <= i < start :: values[order[i]] < x
    requires forall i | start <= i < end :: values[order[i]] == x
    requires forall i | end <= i < |order| :: values[order[i]] > x
    ensures BelowAlong(values, order, x) == start && EqualAlong(values, order, x) == end - start
    decreases |order|
  {
    if order != [] {
      var rest := order[..|order| - 1];
      if end < |order| {
        RunCounts(values, rest, start, end, x);
      } else if start < end {
        RunCounts(values, rest, start, end - 1, x);
      } else {
        RunCounts(values, rest, start - 1, end - 1, x);
      }
    }
  }

  // ----- average_ranks -----

  /** The end of the tie that starts at `start`. */
  method TieEnd(values: seq<real>, order: seq<nat>, start: nat) returns (end: nat)
    requires start < |order| && forall i | 0 <= i < |order| :: order[i] < |values|
    ensures start < end <= |order|
    ensures forall p | start <= p < end :: values[order[p]] == values[order[start]]
    ensures end < |order| ==> values[order[end]] != values[order[start]]
  {
    end := start + 1;
    while end < |order| && values[order[end]] == values[order[start]]
      invariant start < end <= |order|
      invariant forall p | start <= p < end :: values[order[p]] == values[order[start]]
    {
      end := end + 1;
    }
  }

  /** Every element gets the midrank of its value. */
  method AverageRanks(values: seq<real>) returns (ranks: array<real>)
    ensures fresh(ranks)
    ensures ranks.Length == |values|
    ensures forall i | 0 <= i < |values| :: ranks[i] == MidRank(values, values[i])
  {
    hide MidRank, Ascending, CountBelow, CountEqual;
    var n := |values|;
    var order := SortedOrder(values, n);
    ranks := new real[n](_ => 0.0);
    OrderIsSorted(values, n);
    var start := 0;
    while start < n
      invariant 0 <= start <= n
      invariant start < n ==> forall p | 0 <= p < start :: values[order[p]] < values[order[start]]
      invariant Ranked(values, order, ranks[..], start)
    {
      var end := TieEnd(values, order, start);
      var rank := (start + 1 + end) as real / 2.0;
      RunRank(values, order, start, end);
      AssignTie(values, order, ranks, start, end, rank);
      start := end;
    }
    forall i | 0 <= i < n
      ensures ranks[i] == MidRank(values, values[i])
    {
      assert i in order;
    }
  }

  /** The first `p` places of the order have their midranks. */
  ghost predicate Ranked(values: seq<real>, order: seq<nat>, ranks: seq<real>, p: nat)
    requires p <= |order| && |ranks| == |values| && forall i | 0 <= i < |order| :: order[i] < |values|
  {
    forall q | 0 <= q < p :: ranks[order[q]] == MidRank(values, values[order[q]])
  }

  /** Give one tie its rank. */
  method AssignTie(values: seq<real>, order: seq<nat>, ranks: array<real>, start: nat, end: nat, rank: real)
    requires start < end <= |order| && ranks.Length == |values| && forall i | 0 <= i < |order| :: order[i] < |values|
    requires Ranked(values, order, ranks[..], start)
    requires forall p | start <= p < end :: MidRank(values, values[order[p]]) == rank
    modifies ranks
    ensures Ranked(values, order, ranks[..], end)
  {
    hide MidRank;
    var p := start;
    while p < end
      invariant start <= p <= end
      invariant Ranked(values, order, ranks[..], p)
    {
      ranks[order[p]] := rank;
      p := p + 1;
    }
  }

  lemma RunRank(values: seq<real>, order: seq<nat>, start: nat, end: nat)
    requires order == SortedOrder(values, |values|) && start < end <= |order|
    requires forall p | 0 <= p < start :: values[order[p]] < values[order[start]]
    requires forall p | start <= p < end :: values[order[p]] == values[order[start]]
    requires end < |order| ==> values[order[end]] != values[order[start]]
    ensures MidRank(values, values[order[start]]) == (start + 1 + end) as real / 2.0
    ensures end < |order| ==> forall p | 0 <= p < end :: values[order[p]] < values[order[end]]
  {
    hide CountBelow, CountEqual, BelowAlong, EqualAlong, SortedOrder;
    var x := values[order[start]];
    OrderIsSorted(values, |values|);
    RunCounts(values, order, start, end, x);
    OrderCounts(values, |values|, x);
    assert values[..|values|] == values;
  }

  // ----- what the ranks mean -----

  function RankSeq(values: seq<real>): (r: seq<real>)
    ensures |r| == |values|
  {
    seq(|values|, i requires 0 <= i < |values| => MidRank(values, values[i]))
  }

  /** Total midrank of xs against the reference values, less one half each. */
  function Wins(xs: seq<real>, against: seq<real>): real {
    if xs == [] then 0.0 else Wins(xs[..|xs| - 1], against) + WinsOf(xs[|xs| - 1], against)
  }

  function WinsOf(x: real, against: seq<real>): real {
    CountBelow(against, x) as real + CountEqual(against, x) as real / 2.0
  }

  lemma {:induction false} WinsOneMore(xs: seq<real>, against: seq<real>, y: real)
    ensures Wins(xs, against + [y]) + WinsOf(y, xs) == Wins(xs, against) + |xs| as real
  {
    assert (against + [y])[..|against|] == against;
    if xs != [] {
      WinsOneMore(xs[..|xs| - 1], against, y);
    }
  }

  lemma {:induction false} WinsTotal(xs: seq<real>)
    ensures Wins(xs, xs) == (|xs| * |xs|) as real / 2.0
  {
    if xs != [] {
      var rest, y := xs[..|xs| - 1], xs[|xs| - 1];
      assert xs == rest + [y];
      WinsTotal(rest);
      WinsOneMore(rest, rest, y);
      assert WinsOf(y, xs) == WinsOf(y, rest) + 0.5;
      assert |xs| * |xs| == |rest| * |rest| + 2 * |rest| + 1;
    }
  }

  lemma {:induction false} RanksFromWins(values: seq<real>, m: nat)
    requires m <= |values|
    ensures Total(RankSeq(values)[..m]) == Wins(values[..m], values) + m as real / 2.0
    decreases m
  {
    if m > 0 {
      RanksFromWins(values, m - 1);
      assert RankSeq(values)[..m][..m - 1] == RankSeq(values)[..m - 1];
      assert values[..m][..m - 1] == values[..m - 1];
    }
  }

  /** Whatever the ties, the ranks add up to n(n+1)/2. */
  lemma RanksSum(values: seq<real>)
    ensures Total(RankSeq(values)) == (|values| * (|values| + 1)) as real / 2.0
  {
    var n := |values|;
    RanksFromWins(values, n);
    assert RankSeq(values)[..n] == RankSeq(values) && values[..n] == values;
    WinsTotal(values);
    assert n * (n + 1) == n * n + n;
  }

  ghost predicate SameComparisons(xs: seq<real>, ys: seq<real>) {
    |xs| == |ys| && forall i, j | 0 <= i < |xs| && 0 <= j < |xs| :: xs[i] < xs[j] <==> ys[i] < ys[j]
  }

  lemma {:induction false} SameCounts(xs: seq<real>, ys: seq<real>, m: nat, k: nat)
    requires SameComparisons(xs, ys) && m <= |xs| && k < |xs|
    ensures CountBelow(xs[..m], xs[k]) == CountBelow(ys[..m], ys[k])
    ensures CountEqual(xs[..m], xs[k]) == CountEqual(ys[..m], ys[k])
    decreases m
  {
    if m > 0 {
      SameCounts(xs, ys, m - 1, k);
      assert xs[..m][..m - 1] == xs[..m - 1] && ys[..m][..m - 1] == ys[..m - 1];
      assert xs[m - 1] < xs[k] <==> ys[m - 1] < ys[k];
      assert xs[k] < xs[m - 1] <==> ys[k] < ys[m - 1];
    }
  }

  /** Ranks see only the order: a strictly increasing transform leaves them unchanged. */
  lemma RanksInvariant(values: seq<real>, f: real -> real)
    requires forall a: real, b: real :: a < b ==> f(a) < f(b)
    ensures RankSeq(seq(|values|, i requires 0 <= i < |values| => f(values[i]))) == RankSeq(values)
  {
    var image := seq(|values|, i requires 0 <= i < |values| => f(values[i]));
    assert SameComparisons(values, image) by {
      forall i, j | 0 <= i < |values| && 0 <= j < |values|
        ensures values[i] < values[j] <==> image[i] < image[j]
      {
        assert image[i] == f(values[i]) && image[j] == f(values[j]);
        if values[j] < values[i] {
          assert f(values[j]) < f(values[i]);
        }
      }
    }
    forall k | 0 <= k < |values|
      ensures RankSeq(image)[k] == RankSeq(values)[k]
    {
      SameCounts(values, image, |values|, k);
      assert values[..|values|] == values && image[..|values|] == image;
    }
  }

  // ----- Spearman -----

  function Dot(xs: seq<real>, ys: seq<real>): real
    requires |xs| == |ys|
  {
    if xs == [] then 0.0
    else Dot(xs[..|xs| - 1], ys[..|ys| - 1]) + xs[|xs| - 1] * ys[|ys| - 1]
  }

  function Deviations(xs: seq<real>): (d: seq<real>)
    requires xs != []
    ensures |d| == |xs|
  {
    var mean := Total(xs) / |xs| as real;
    seq(|xs|, i requires 0 <= i < |xs| => xs[i] - mean)
  }

  /** The correlation is numerator over the root of squaredDenominator. */
  datatype Correlation = Undefined | Defined(numerator: real, squaredDenominator: real)

  function Spearman(left: seq<real>, right: seq<real>): Correlation {
    if |left| != |right| || |left| < 2 then Undefined
    else
      Ratio(Deviations(RankSeq(left)), Deviations(RankSeq(right)))
  }

  function Ratio(dx: seq<real>, dy: seq<real>): Correlation
    requires |dx| == |dy|
  {
    var d := Dot(dx, dx) * Dot(dy, dy);
    if d == 0.0 then Undefined else Defined(Dot(dx, dy), d)
  }

  predicate AtMostOne(c: Correlation) {
    c.Defined? ==> c.squaredDenominator > 0.0 && c.numerator * c.numerator <= c.squaredDenominator
  }

  lemma RatioBounded(dx: seq<real>, dy: seq<real>)
    requires |dx| == |dy|
    ensures AtMostOne(Ratio(dx, dy))
  {
    Cauchy(dx, dy);
    NonNegativeProduct(Dot(dx, dx), Dot(dy, dy));
  }

  lemma CauchyStep(a: real, b: real, aa: real, bb: real, ab: real)
    requires aa >= 0.0 && bb >= 0.0 && ab * ab <= aa * bb
    ensures (ab + a * b) * (ab + a * b) <= (aa + a * a) * (bb + b * b)
  {
    var cross := aa * (b * b) + bb * (a * a) - 2.0 * ab * (a * b);
    assert cross >= 0.0 by {
      if aa == 0.0 {
        ZeroSquare(ab, ab * ab);
        assert bb * (a * a) >= 0.0;
      } else {
        var u := aa * b - ab * a;
        assert aa * cross == u * u + (aa * bb - ab * ab) * (a * a);
        assert u * u >= 0.0 && a * a >= 0.0;
        NonNegativeProduct(aa * bb - ab * ab, a * a);
        SignOfFactor(aa, cross);
      }
    }
    assert (aa + a * a) * (bb + b * b) - (ab + a * b) * (ab + a * b) == (aa * bb - ab * ab) + cross;
  }

  lemma ZeroSquare(x: real, q: real)
    requires q == x * x && q <= 0.0
    ensures x == 0.0
  {
    if x > 0.0 {
      PositiveProduct(x, x, q);
    } else if x < 0.0 {
      PositiveProduct(-x, -x, q);
    }
  }

  lemma SignOfFactor(p: real, x: real)
    requires p > 0.0 && p * x >= 0.0
    ensures x >= 0.0
  {
  }

  lemma {:induction false} Cauchy(xs: seq<real>, ys: seq<real>)
    requires |xs| == |ys|
    ensures Dot(xs, xs) >= 0.0 && Dot(ys, ys) >= 0.0
    ensures Dot(xs, ys) * Dot(xs, ys) <= Dot(xs, xs) * Dot(ys, ys)
    decreases |xs|
  {
    if xs != [] {
      var x, y := xs[..|xs| - 1], ys[..|ys| - 1];
      Cauchy(x, y);
      CauchyStep(xs[|xs| - 1], ys[|ys| - 1], Dot(x, x), Dot(y, y), Dot(x, y));
    }
  }

  /** Whenever the coefficient exists its square is at most one: the denominator is positive
      and the squared numerator does not exceed the product under the root. */
  lemma SpearmanBounded(left: seq<real>, right: seq<real>)
    ensures AtMostOne(Spearman(left, right))
  {
    hide Ratio, MidRank;
    if |left| == |right| && |left| >= 2 {
      RatioBounded(Deviations(RankSeq(left)), Deviations(RankSeq(right)));
    }
  }

  /** The product about two centres, of n pairs with product sum p and sums s and t. */
  function Recentred(p: real, s: real, t: real, n: real, a: real, b: real): real {
    p - b * s - a * t + n * (a * b)
  }

  function Less(xs: seq<real>, a: real): (r: seq<real>)
    ensures |r| == |xs| && forall i | 0 <= i < |r| :: r[i] == xs[i] - a
  {
    seq(|xs|, i requires 0 <= i < |xs| => xs[i] - a)
  }

  lemma {:induction false} DotRecentred(xs: seq<real>, ys: seq<real>, a: real, b: real)
    requires |xs| == |ys|
    ensures Dot(Less(xs, a), Less(ys, b)) == Recentred(Dot(xs, ys), Total(xs), Total(ys), |xs| as real, a, b)
  {
    hide *;
    if xs == [] {
      NothingRecentred(xs, ys, a, b);
    } else {
      var x, y := xs[..|xs| - 1], ys[..|ys| - 1];
      DotRecentred(x, y, a, b);
      LessNext(xs, a);
      LessNext(ys, b);
      TotalNext(xs);
      TotalNext(ys);
      DotNext(xs, ys);
      DotNext(Less(xs, a), Less(ys, b));
      OneMorePair(Dot(x, y), Total(x), Total(y), |x| as real, xs[|xs| - 1], ys[|ys| - 1], a, b,
                  Less(xs, a)[|xs| - 1], Less(ys, b)[|ys| - 1], Dot(xs, ys), Total(xs), Total(ys), |xs| as real);
    }
  }

  lemma NothingRecentred(xs: seq<real>, ys: seq<real>, a: real, b: real)
    requires xs == [] == ys
    ensures Dot(Less(xs, a), Less(ys, b)) == Recentred(Dot(xs, ys), Total(xs), Total(ys), |xs| as real, a, b)
  {
    assert 0.0 * (a * b) == 0.0;
  }

  lemma {:induction false} DotNext(xs: seq<real>, ys: seq<real>)
    requires |xs| == |ys| > 0
    ensures Dot(xs, ys) == Dot(xs[..|xs| - 1], ys[..|ys| - 1]) + xs[|xs| - 1] * ys[|ys| - 1]
  {
  }

  lemma {:induction false} LessNext(xs: seq<real>, a: real)
    requires xs != []
    ensures Less(xs, a)[..|xs| - 1] == Less(xs[..|xs| - 1], a) && Less(xs, a)[|xs| - 1] == xs[|xs| - 1] - a
  {
    hide Less;
    var u, v := Less(xs, a)[..|xs| - 1], Less(xs[..|xs| - 1], a);
    assert forall i | 0 <= i < |u| :: u[i] == v[i];
  }

  lemma {:induction false} TotalNext(xs: seq<real>)
    requires xs != []
    ensures Total(xs) == Total(xs[..|xs| - 1]) + xs[|xs| - 1]
  {
  }

  lemma OneMorePair(p: real, s: real, t: real, n: real, x: real, y: real, a: real, b: real,
                    u: real, v: real, p1: real, s1: real, t1: real, n1: real)
    requires u == x - a && v == y - b && p1 == p + x * y && s1 == s + x && t1 == t + y && n1 == n + 1.0
    ensures Recentred(p, s, t, n, a, b) + u * v == Recentred(p1, s1, t1, n1, a, b)
  {
  }

  /** Four times the product of the deviations of two rankings: what is over the ranks' own product
      when there is no association. */
  lemma RankDeviations(left: seq<real>, right: seq<real>)
    requires |left| == |right| >= 1
    ensures var n := |left| as real;
      4.0 * Dot(Deviations(RankSeq(left)), Deviations(RankSeq(right)))
      == 4.0 * Dot(RankSeq(left), RankSeq(right)) - n * ((n + 1.0) * (n + 1.0))
  {
    var x, y, n := RankSeq(left), RankSeq(right), |left|;
    RanksSum(left);
    RanksSum(right);
    MiddleRank(Total(x), n);
    MiddleRank(Total(y), n);
    var m := (n as real + 1.0) / 2.0;
    assert Deviations(x) == Less(x, m) && Deviations(y) == Less(y, m);
    DotRecentred(x, y, m, m);
    hide *;
    Halves(Dot(x, y), Total(x), n as real, m);
  }

  lemma MiddleRank(s: real, n: nat)
    requires n >= 1 && s == (n * (n + 1)) as real / 2.0
    ensures s == n as real * ((n as real + 1.0) / 2.0) && s / n as real == (n as real + 1.0) / 2.0
  {
    var x, q := n as real, s / n as real;
    assert (n * (n + 1)) as real == x * (x + 1.0);
    assert q * x == s;
    var d := q - (x + 1.0) / 2.0;
    assert d * x == 0.0;
  }

  lemma Halves(p: real, s: real, n: real, m: real)
    requires s == n * m && m == (n + 1.0) / 2.0
    ensures 4.0 * Recentred(p, s, s, n, m, m) == 4.0 * p - n * ((n + 1.0) * (n + 1.0))
  {
    var q, w := m * m, (n + 1.0) * (n + 1.0);
    assert m * s == n * q;
    assert 4.0 * q == w;
    assert 4.0 * (n * q) == n * (4.0 * q);
    assert Recentred(p, s, s, n, m, m) == p - n * q;
  }

  /** The coefficient in the ranks themselves, ties included: it exists when both rankings vary, and
      its parts are the ranks' products less n(n+1)^2/4. */
  lemma SpearmanIs(left: seq<real>, right: seq<real>)
    requires |left| == |right| >= 2
    ensures var x, y, n := RankSeq(left), RankSeq(right), |left| as real;
      var none := n * ((n + 1.0) * (n + 1.0));
      var xy, xx, yy := 4.0 * Dot(x, y) - none, 4.0 * Dot(x, x) - none, 4.0 * Dot(y, y) - none;
      match Spearman(left, right)
      case Undefined => xx == 0.0 || yy == 0.0
      case Defined(p, d) => xx > 0.0 && yy > 0.0 && 4.0 * p == xy && 16.0 * d == xx * yy
  {
    hide *;
    RankDeviations(left, right);
    RankDeviations(left, left);
    RankDeviations(right, right);
    var dx, dy := Deviations(RankSeq(left)), Deviations(RankSeq(right));
    Cauchy(dx, dy);
    SpearmanRatio(left, right);
    FourTimes(Dot(dx, dx), Dot(dy, dy), Dot(dx, dx) * Dot(dy, dy), 4.0 * Dot(dx, dx), 4.0 * Dot(dy, dy));
  }

  lemma SpearmanRatio(left: seq<real>, right: seq<real>)
    requires |left| == |right| >= 2
    ensures var dx, dy := Deviations(RankSeq(left)), Deviations(RankSeq(right));
      var d := Dot(dx, dx) * Dot(dy, dy);
      Spearman(left, right) == if d == 0.0 then Undefined else Defined(Dot(dx, dy), d)
  {
    hide Dot, RankSeq, Deviations;
  }

  lemma FourTimes(a: real, b: real, d: real, a4: real, b4: real)
    requires a >= 0.0 && b >= 0.0 && d == a * b && a4 == 4.0 * a && b4 == 4.0 * b
    ensures a4 * b4 == 16.0 * d && (d == 0.0 <==> a == 0.0 || b == 0.0)
  {
    if a > 0.0 && b > 0.0 {
      PositiveProduct(a, b, d);
    }
  }
}
