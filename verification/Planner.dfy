/** Whole-share planning: round targets down, fund purchases from sells, keep the rest in SPY,
    and drop the weakest purchases while the rounded plan breaks its limits. Names are indices:
    the stocks 0..n-1 in ticker order, then SPY. */
module Planner {
  import opened Options
  import opened Arithmetic
  import Ranks

  // ----- sums of quantity times price -----

  function Worth(quantities: seq<real>, prices: seq<real>): real
    requires |quantities| == |prices|
  {
    if quantities == [] then 0.0 else
    Worth(quantities[..|quantities| - 1], prices[..|prices| - 1]) + quantities[|quantities| - 1] * prices[|prices| - 1]
  }

  lemma {:induction false} WorthUpdate(q: seq<real>, p: seq<real>, i: nat, x: real)
    requires |q| == |p| && i < |q|
    ensures Worth(q[i := x], p) == Worth(q, p) + (x - q[i]) * p[i]
  {
    var n := |q| - 1;
    if i < n {
      WorthUpdate(q[..n], p[..n], i, x);
      assert q[i := x][..n] == q[..n][i := x];
    } else {
      assert q[i := x][..n] == q[..n];
    }
  }

  lemma {:induction false} WorthAdd(a: seq<real>, b: seq<real>, c: seq<real>, p: seq<real>)
    requires |a| == |b| == |c| == |p| && forall i | 0 <= i < |a| :: c[i] == a[i] + b[i]
    ensures Worth(c, p) == Worth(a, p) + Worth(b, p)
  {
    var n := |a| - 1;
    if n >= 0 {
      WorthAdd(a[..n], b[..n], c[..n], p[..n]);
      assert c[n] * p[n] == a[n] * p[n] + b[n] * p[n];
    }
  }

  lemma {:induction false} WorthZero(q: seq<real>, p: seq<real>)
    requires |q| == |p| && forall i | 0 <= i < |q| :: q[i] == 0.0
    ensures Worth(q, p) == 0.0
  {
    if q != [] {
      WorthZero(q[..|q| - 1], p[..|p| - 1]);
    }
  }

  // ----- whole shares -----

  function Shares(k: int): real {
    k as real
  }

  ghost predicate Whole(x: real) {
    exists k :: x == Shares(k)
  }

  function Affordable(cash: real, price: real): real
    requires price > 0.0
  {
    Shares((cash / price).Floor)
  }

  lemma AffordableFacts(cash: real, price: real)
    requires price > 0.0 && cash >= 0.0
    ensures var k := Affordable(cash, price);
      k >= 0.0 && Whole(k) && 0.0 <= cash - k * price < price
  {
    var q, k := cash / price, Affordable(cash, price);
    assert q * price == cash;
    assert k <= q < k + 1.0;
    NonNegativeProduct(q - k, price);
    assert (q - k) * price == cash - k * price;
    PositiveProduct(k + 1.0 - q, price, k * price + price - cash);
    NonNegativeQuotient(cash, price);
  }

  lemma NonNegativeQuotient(x: real, y: real)
    requires x >= 0.0 && y > 0.0
    ensures x / y >= 0.0
  {
  }

  // ----- the inputs -----

  datatype Inputs = Inputs(
    stocks: nat, target: seq<real>, current: seq<real>, prices: seq<real>, atr: seq<real>,
    cash: real, equity: real, alpha: seq<real>, exits: set<nat>)

  /** The checks before planning. */
  predicate Accepted(a: Inputs) {
    && |a.target| == |a.current| == |a.prices| == a.stocks + 1 && |a.atr| == |a.alpha| == a.stocks
    && a.equity > 0.0 && a.cash >= 0.0
    && (forall i | 0 <= i <= a.stocks :: a.target[i] >= 0.0 && a.prices[i] > 0.0 && a.current[i] >= 0.0)
    && (forall i | 0 <= i < a.stocks :: a.atr[i] > 0.0)
    && -0.00000001 <= Total(a.target) - 1.0 <= 0.00000001
    && (forall i | i in a.exits :: i < a.stocks)
  }

  /** The target's part of the equity. */
  function Room(a: Inputs, i: nat): real
    requires |a.target| == a.stocks + 1 && i <= a.stocks
  {
    a.target[i] * a.equity
  }

  function Desired(a: Inputs, i: nat): real
    requires Accepted(a) && i <= a.stocks
  {
    if i in a.exits then 0.0 else Affordable(Room(a, i), a.prices[i])
  }

  function Sold(a: Inputs, i: nat): real
    requires Accepted(a) && i <= a.stocks
  {
    if Desired(a, i) < a.current[i] then a.current[i] - Desired(a, i) else 0.0
  }

  function Wanted(a: Inputs, i: nat): real
    requires Accepted(a) && i <= a.stocks
  {
    if Desired(a, i) > a.current[i] then Desired(a, i) - a.current[i] else 0.0
  }

  lemma WholeDifference(x: real, y: real)
    requires Whole(x) && Whole(y)
    ensures Whole(x - y) && Whole(x + y)
  {
    var a, b :| x == Shares(a) && y == Shares(b);
    assert x - y == Shares(a - b) && x + y == Shares(a + b);
  }

  lemma DesiredWhole(a: Inputs, i: nat)
    requires Accepted(a) && i <= a.stocks
    ensures Desired(a, i) >= 0.0 && Whole(Desired(a, i))
  {
    hide Accepted;
    AcceptedAt(a, i);
    if i in a.exits {
      WholeZero();
    } else {
      NonNegativeProduct(a.target[i], a.equity);
      NonNegativeQuotient(a.target[i] * a.equity, a.prices[i]);
    }
  }

  /** `k` shares are the most whole shares that the target's part of the equity pays for. */
  ghost predicate TargetShares(a: Inputs, i: nat, k: int)
    requires |a.target| == |a.prices| == a.stocks + 1 && i <= a.stocks
  {
    k as real * a.prices[i] <= a.target[i] * a.equity < (k as real + 1.0) * a.prices[i]
  }

  /** A desired quantity is the target's part of the equity, rounded down to whole shares. */
  lemma DesiredIs(a: Inputs, i: nat)
    requires Accepted(a) && i <= a.stocks && i !in a.exits
    ensures |a.target| == |a.prices| == a.stocks + 1
    ensures Desired(a, i) * a.prices[i] <= a.target[i] * a.equity < (Desired(a, i) + 1.0) * a.prices[i]
    ensures forall k | TargetShares(a, i, k) :: Desired(a, i) == k as real
  {
    AcceptedAt(a, i);
    hide Accepted;
    DesiredRounds(a, i);
    forall k | TargetShares(a, i, k)
      ensures Desired(a, i) == k as real
    {
      TargetOnce(a, i, k);
    }
  }

  lemma DesiredRounds(a: Inputs, i: nat)
    requires Accepted(a) && i <= a.stocks && i !in a.exits
    ensures |a.target| == |a.prices| == a.stocks + 1 && a.prices[i] > 0.0 && Whole(Desired(a, i))
    ensures Desired(a, i) * a.prices[i] <= Room(a, i) < (Desired(a, i) + 1.0) * a.prices[i]
  {
    AcceptedAt(a, i);
    hide Accepted, Affordable, Whole;
    NonNegativeProduct(a.target[i], a.equity);
    AffordableFacts(Room(a, i), a.prices[i]);
    NextShare(Desired(a, i), a.prices[i]);
  }

  lemma NextShare(d: real, price: real)
    ensures (d + 1.0) * price == d * price + price
  {
  }

  lemma TargetOnce(a: Inputs, i: nat, k: int)
    requires Accepted(a) && i <= a.stocks && i !in a.exits && |a.target| == |a.prices| == a.stocks + 1 && TargetShares(a, i, k)
    ensures Desired(a, i) == k as real
  {
    hide Accepted, Desired;
    DesiredRounds(a, i);
    var d :| Desired(a, i) == Shares(d);
    OneRounding(k, d, Room(a, i), a.prices[i]);
  }

  lemma OneRounding(j: int, k: int, room: real, price: real)
    requires price > 0.0 && j as real * price <= room < (j as real + 1.0) * price
    requires k as real * price <= room < (k as real + 1.0) * price
    ensures j == k
  {
    WholeBelow(j, k, room, price);
    WholeBelow(k, j, room, price);
  }

  /** `j` shares are paid for and one more than `k` are not. */
  lemma WholeBelow(j: int, k: int, room: real, price: real)
    requires price > 0.0 && j as real * price <= room && room < (k as real + 1.0) * price
    ensures j <= k
  {
    if j >= k + 1 {
      NoCheaper(j as real, k as real + 1.0, price);
    }
  }

  lemma NoCheaper(x: real, y: real, price: real)
    requires price > 0.0 && x >= y
    ensures x * price >= y * price
  {
    NonNegativeProduct(x - y, price);
    assert (x - y) * price == x * price - y * price;
  }

  lemma AcceptedAt(a: Inputs, i: nat)
    requires Accepted(a) && i <= a.stocks
    ensures |a.target| == |a.current| == |a.prices| == a.stocks + 1
    ensures a.target[i] >= 0.0 && a.prices[i] > 0.0 && a.current[i] >= 0.0 && a.equity > 0.0 && a.cash >= 0.0
  {
  }

  lemma DesiredFacts(a: Inputs, i: nat)
    requires Accepted(a) && i <= a.stocks
    ensures |a.current| == a.stocks + 1
    ensures Sold(a, i) >= 0.0 && Wanted(a, i) >= 0.0 && a.current[i] - Sold(a, i) >= 0.0
    ensures i in a.exits ==> Wanted(a, i) == 0.0 && Sold(a, i) == a.current[i]
    ensures Whole(a.current[i]) ==> Whole(a.current[i] - Sold(a, i)) && Whole(Wanted(a, i))
  {
    hide Whole, Accepted;
    AcceptedAt(a, i);
    DesiredWhole(a, i);
    var d := Desired(a, i);
    ExitDesired(a, i);
    hide Desired;
    WholeZero();
    if Whole(a.current[i]) {
      WholeDifference(d, a.current[i]);
      assert Sold(a, i) == 0.0 || a.current[i] - Sold(a, i) == d;
    }
  }

  lemma ExitDesired(a: Inputs, i: nat)
    requires Accepted(a) && i <= a.stocks
    ensures i in a.exits ==> Desired(a, i) == 0.0
  {
  }

  lemma WholeZero()
    ensures Whole(0.0)
  {
    assert 0.0 == Shares(0);
  }

  // ----- orderings -----

  ghost predicate Distinct(order: seq<nat>) {
    forall i, j | 0 <= i < j < |order| :: order[i] != order[j]
  }

  /** Every stock once. */
  ghost predicate Covers(order: seq<nat>, n: nat) {
    Distinct(order) && (forall i | 0 <= i < |order| :: order[i] < n) && forall k: nat | k < n :: k in order
  }

  lemma {:induction false} InsertDistinct(values: seq<real>, order: seq<nat>, k: nat)
    requires k < |values| && (forall i | 0 <= i < |order| :: order[i] < |values|) && Distinct(order) && k !in order
    ensures Distinct(Ranks.Insert(values, order, k))
    decreases |order|
  {
    if order != [] && values[order[|order| - 1]] > values[k] {
      var rest, last := order[..|order| - 1], order[|order| - 1];
      InsertDistinct(values, rest, k);
      Ranks.InsertMembers(values, rest, k);
      var r := Ranks.Insert(values, rest, k);
      forall i | 0 <= i < |r|
        ensures r[i] != last
      {
        assert r[i] in r;
      }
    }
  }

  lemma {:induction false} OrderCovers(values: seq<real>, n: nat)
    requires n <= |values|
    ensures Covers(Ranks.SortedOrder(values, n), n)
  {
    if n > 0 {
      var before := Ranks.SortedOrder(values, n - 1);
      OrderCovers(values, n - 1);
      Ranks.InsertMembers(values, before, n - 1);
      InsertDistinct(values, before, n - 1);
      var r := Ranks.SortedOrder(values, n);
      assert forall i | 0 <= i < |r| :: r[i] in r;
    }
  }

  /** Strongest alpha first; ties in ticker order. */
  function FundingOrder(alpha: seq<real>): (order: seq<nat>)
    ensures |order| == |alpha| && forall i | 0 <= i < |order| :: order[i] < |alpha|
  {
    Ranks.SortedOrder(seq(|alpha|, i requires 0 <= i < |alpha| => -alpha[i]), |alpha|)
  }

  /** Weakest alpha first; ties in ticker order. */
  function RepairOrder(alpha: seq<real>): (order: seq<nat>)
    ensures |order| == |alpha| && forall i | 0 <= i < |order| :: order[i] < |alpha|
  {
    Ranks.SortedOrder(alpha, |alpha|)
  }

  lemma OrdersCover(alpha: seq<real>)
    ensures Covers(FundingOrder(alpha), |alpha|) && Covers(RepairOrder(alpha), |alpha|)
    ensures forall i, j | 0 <= i < j < |alpha| :: alpha[FundingOrder(alpha)[i]] >= alpha[FundingOrder(alpha)[j]]
    ensures forall i, j | 0 <= i < j < |alpha| :: alpha[RepairOrder(alpha)[i]] <= alpha[RepairOrder(alpha)[j]]
    ensures forall i, j | 0 <= i < j < |alpha| && alpha[FundingOrder(alpha)[i]] == alpha[FundingOrder(alpha)[j]] ::
      FundingOrder(alpha)[i] < FundingOrder(alpha)[j]
    ensures forall i, j | 0 <= i < j < |alpha| && alpha[RepairOrder(alpha)[i]] == alpha[RepairOrder(alpha)[j]] ::
      RepairOrder(alpha)[i] < RepairOrder(alpha)[j]
  {
    OrderCovers(alpha, |alpha|);
    Ranks.OrderIsSorted(alpha, |alpha|);
    Ranks.OrderIsStable(alpha, |alpha|);
    FundingOrdered(alpha);
    hide FundingOrder;
  }

  lemma FundingOrdered(alpha: seq<real>)
    ensures Covers(FundingOrder(alpha), |alpha|)
    ensures forall i, j | 0 <= i < j < |alpha| :: alpha[FundingOrder(alpha)[i]] >= alpha[FundingOrder(alpha)[j]]
    ensures forall i, j | 0 <= i < j < |alpha| && alpha[FundingOrder(alpha)[i]] == alpha[FundingOrder(alpha)[j]] ::
      FundingOrder(alpha)[i] < FundingOrder(alpha)[j]
  {
    var negated, order := seq(|alpha|, i requires 0 <= i < |alpha| => -alpha[i]), FundingOrder(alpha);
    OrderCovers(negated, |alpha|);
    Ranks.OrderIsSorted(negated, |alpha|);
    Ranks.OrderIsStable(negated, |alpha|);
    assert order == Ranks.SortedOrder(negated, |alpha|);
    hide FundingOrder, Covers, Ranks.SortedOrder;
    forall i, j | 0 <= i < j < |alpha|
      ensures alpha[order[i]] >= alpha[order[j]] && (alpha[order[i]] == alpha[order[j]] ==> order[i] < order[j])
    {
      assert negated[order[i]] <= negated[order[j]];
    }
  }

  // ----- funding -----

  function Bought(want: real, price: real, cash: real): real
    requires price > 0.0
  {
    if want < Affordable(cash, price) then want else Affordable(cash, price)
  }

  lemma BoughtFacts(want: real, price: real, cash: real)
    requires price > 0.0 && cash >= 0.0 && want >= 0.0
    ensures var v := Bought(want, price, cash);
      && 0.0 <= v <= want && cash - v * price >= 0.0
      && (v < want ==> Whole(v) && cash - v * price < price)
  {
    AffordableFacts(cash, price);
    var v, k := Bought(want, price, cash), Affordable(cash, price);
    NonNegativeProduct(k - v, price);
    assert (k - v) * price == k * price - v * price;
  }

  /** Cut down to what was affordable: a cut purchase is whole, and the cash left could not buy
      one more share of it. */
  ghost predicate Cut(wanted: seq<real>, bought: seq<real>, prices: seq<real>, cash: real, i: nat)
    requires |wanted| == |bought| == |prices| && i < |wanted|
  {
    0.0 <= bought[i] <= wanted[i] && (bought[i] < wanted[i] ==> Whole(bought[i]) && cash < prices[i])
  }

  /** `paid` holds the purchases already paid for. */
  ghost predicate Paid(paid: seq<real>, purchases: seq<real>, wanted: seq<real>, prices: seq<real>, cash: real, done: set<nat>)
    requires |paid| == |purchases| == |wanted| == |prices|
  {
    && (forall i: nat | i < |paid| && i in done :: paid[i] == purchases[i] && Cut(wanted, purchases, prices, cash, i))
    && (forall i: nat | i < |paid| && i !in done :: paid[i] == 0.0 && purchases[i] == wanted[i])
  }

  lemma PaidStep(paid: seq<real>, purchases: seq<real>, wanted: seq<real>, prices: seq<real>, cash: real, done: set<nat>, i: nat, v: real, left: real)
    requires |paid| == |purchases| == |wanted| == |prices| && i < |paid| && i !in done
    requires Paid(paid, purchases, wanted, prices, cash, done) && left == cash - v * prices[i] <= cash
    requires 0.0 <= v <= wanted[i] && (v < wanted[i] ==> Whole(v) && left < prices[i])
    ensures Paid(paid[i := v], purchases[i := v], wanted, prices, left, done + {i})
    ensures left + Worth(paid[i := v], prices) == cash + Worth(paid, prices)
  {
    WorthUpdate(paid, prices, i, v);
  }

  ghost function Placed(order: seq<nat>, k: nat): set<nat>
    requires k <= |order|
  {
    set j | 0 <= j < k :: order[j]
  }

  function Cost(quantity: real, price: real): real {
    quantity * price
  }

  predicate InRange(order: seq<nat>) {
    forall j | 0 <= j < |order| :: order[j] < |order|
  }

  predicate Positive(prices: seq<real>) {
    forall i | 0 <= i < |prices| :: prices[i] > 0.0
  }

  /** SPY's purchase: all it wants, unless that costs more than the cash. */
  function SpyBought(want: real, price: real, cash: real): real
    requires price > 0.0
  {
    if Cost(want, price) > cash then Affordable(cash, price) else want
  }

  predicate NonNegative(xs: seq<real>) {
    forall i | 0 <= i < |xs| :: xs[i] >= 0.0
  }

  /** The cost of SPY and of the first `k` stocks of the order. */
  function Spent(q: seq<real>, prices: seq<real>, order: seq<nat>, k: nat): real
    requires |q| == |prices| == |order| + 1 && k <= |order| && InRange(order)
  {
    if k == 0 then Cost(q[|order|], prices[|order|])
    else Spent(q, prices, order, k - 1) + Cost(q[order[k - 1]], prices[order[k - 1]])
  }

  /** Each of the first `k` stocks got what it wanted, cut to the cash that SPY and the stocks
      before it left. */
  ghost predicate Prioritised(wanted: seq<real>, q: seq<real>, prices: seq<real>, order: seq<nat>, cash: real, k: nat)
    requires |wanted| == |q| == |prices| == |order| + 1 && k <= |order|
    requires InRange(order) && Positive(prices)
  {
    forall j: nat | j < k :: q[order[j]] == Bought(wanted[order[j]], prices[order[j]], cash - Spent(q, prices, order, j))
  }

  lemma {:induction false} SpentFrame(q: seq<real>, r: seq<real>, prices: seq<real>, order: seq<nat>, k: nat)
    requires |q| == |r| == |prices| == |order| + 1 && k <= |order| && InRange(order)
    requires q[|order|] == r[|order|] && forall j | 0 <= j < k :: q[order[j]] == r[order[j]]
    ensures Spent(q, prices, order, k) == Spent(r, prices, order, k)
  {
    if k > 0 {
      SpentFrame(q, r, prices, order, k - 1);
    }
  }

  lemma PriorityStep(wanted: seq<real>, q: seq<real>, prices: seq<real>, order: seq<nat>, cash: real, k: nat, v: real, now: real)
    requires |wanted| == |q| == |prices| == |order| + 1 && k < |order| && Covers(order, |order|)
    requires InRange(order) && Positive(prices)
    requires Prioritised(wanted, q, prices, order, cash, k) && now == cash - Spent(q, prices, order, k)
    requires v == Bought(wanted[order[k]], prices[order[k]], now)
    ensures var r := q[order[k] := v];
      && Prioritised(wanted, r, prices, order, cash, k + 1)
      && now - Cost(v, prices[order[k]]) == cash - Spent(r, prices, order, k + 1)
  {
    hide Bought, Cost, Prioritised, Covers;
    NotBefore(order, k);
    var r := q[order[k] := v];
    forall j: nat | j < k + 1
      ensures r[order[j]] == Bought(wanted[order[j]], prices[order[j]], cash - Spent(r, prices, order, j))
    {
      SpentFrame(q, r, prices, order, j);
      if j < k {
        PriorityAt(wanted, q, prices, order, cash, k, j);
      }
    }
    IsPrioritised(wanted, r, prices, order, cash, k + 1);
    SpentFrame(q, r, prices, order, k);
    SpentStep(r, prices, order, k);
  }

  lemma SpentStep(q: seq<real>, prices: seq<real>, order: seq<nat>, k: nat)
    requires |q| == |prices| == |order| + 1 && k < |order| && InRange(order)
    ensures Spent(q, prices, order, k + 1) == Spent(q, prices, order, k) + Cost(q[order[k]], prices[order[k]])
  {
    hide Cost;
  }

  lemma NotBefore(order: seq<nat>, k: nat)
    requires Covers(order, |order|) && k < |order|
    ensures InRange(order) && forall j | 0 <= j < k :: order[j] != order[k]
  {
  }

  lemma PriorityAt(wanted: seq<real>, q: seq<real>, prices: seq<real>, order: seq<nat>, cash: real, k: nat, j: nat)
    requires |wanted| == |q| == |prices| == |order| + 1 && j < k <= |order|
    requires InRange(order) && Positive(prices)
    requires Prioritised(wanted, q, prices, order, cash, k)
    ensures q[order[j]] == Bought(wanted[order[j]], prices[order[j]], cash - Spent(q, prices, order, j))
  {
    hide Bought, Cost;
  }

  lemma IsPrioritised(wanted: seq<real>, q: seq<real>, prices: seq<real>, order: seq<nat>, cash: real, k: nat)
    requires |wanted| == |q| == |prices| == |order| + 1 && k <= |order|
    requires InRange(order) && Positive(prices)
    requires forall j: nat | j < k :: q[order[j]] == Bought(wanted[order[j]], prices[order[j]], cash - Spent(q, prices, order, j))
    ensures Prioritised(wanted, q, prices, order, cash, k)
  {
    hide Bought, Cost;
  }

  /** What funding promises: cash conserved and not negative, purchases cut only for lack of cash,
      SPY served first and stocks in order. */
  ghost predicate WellFunded(wanted: seq<real>, purchases: seq<real>, prices: seq<real>, order: seq<nat>, cash0: real, cash: real) {
    && |wanted| == |purchases| == |prices| == |order| + 1 && InRange(order) && Positive(prices)
    && cash >= 0.0 && cash + Worth(purchases, prices) == cash0
    && (forall i: nat | i < |prices| :: Cut(wanted, purchases, prices, cash, i))
    && purchases[|order|] == SpyBought(wanted[|order|], prices[|order|], cash0)
    && Prioritised(wanted, purchases, prices, order, cash0, |order|)
  }

  /** Where funding stands after SPY and `k` stocks. */
  ghost predicate Progress(wanted: seq<real>, purchases: seq<real>, paid: seq<real>, prices: seq<real>, order: seq<nat>, cash0: real, cash: real, k: nat)
    requires Covers(order, |order|) && InRange(order) && Positive(prices)
  {
    && |wanted| == |purchases| == |paid| == |prices| == |order| + 1 && k <= |order|
    && cash >= 0.0 && cash + Worth(paid, prices) == cash0
    && Paid(paid, purchases, wanted, prices, cash, {|order|} + Placed(order, k))
    && Prioritised(wanted, purchases, prices, order, cash0, k)
    && cash == cash0 - Spent(purchases, prices, order, k)
    && purchases[|order|] == SpyBought(wanted[|order|], prices[|order|], cash0)
  }

  lemma ProgressStart(wanted: seq<real>, prices: seq<real>, order: seq<nat>, cash0: real, v: real, left: real) returns (paid: seq<real>)
    requires Covers(order, |order|) && InRange(order) && Positive(prices)
    requires |wanted| == |prices| == |order| + 1 && left == cash0 - Cost(v, prices[|order|]) && 0.0 <= left <= cash0
    requires 0.0 <= v <= wanted[|order|] && (v < wanted[|order|] ==> Whole(v) && left < prices[|order|])
    requires v == SpyBought(wanted[|order|], prices[|order|], cash0)
    ensures Progress(wanted, wanted[|order| := v], paid, prices, order, cash0, left, 0)
  {
    hide Paid, Prioritised, Whole, SpyBought;
    var n := |order|;
    var none := seq(n + 1, i => 0.0);
    PaidStart(none, wanted, prices, cash0);
    PaidStep(none, wanted, wanted, prices, cash0, {}, n, v, left);
    paid := none[n := v];
    NoPriority(wanted, wanted[n := v], prices, order, cash0);
    assert {} + {n} == {n} + Placed(order, 0);
  }

  lemma ProgressStep(wanted: seq<real>, purchases: seq<real>, paid: seq<real>, prices: seq<real>, order: seq<nat>, cash0: real, cash: real, k: nat, v: real, left: real)
    requires Covers(order, |order|) && InRange(order) && Positive(prices)
    requires Progress(wanted, purchases, paid, prices, order, cash0, cash, k) && k < |order|
    requires v == Bought(wanted[order[k]], prices[order[k]], cash) && left == cash - Cost(v, prices[order[k]]) && 0.0 <= left <= cash
    requires 0.0 <= v <= wanted[order[k]] && (v < wanted[order[k]] ==> Whole(v) && left < prices[order[k]])
    ensures Progress(wanted, purchases[order[k] := v], paid[order[k] := v], prices, order, cash0, left, k + 1)
  {
    hide Paid, Prioritised, Whole, Bought, Covers, SpyBought;
    CoversBound(order);
    NotPlaced(order, k, |order|);
    PaidStep(paid, purchases, wanted, prices, cash, {|order|} + Placed(order, k), order[k], v, left);
    PriorityStep(wanted, purchases, prices, order, cash0, k, v, cash);
  }

  lemma ProgressWaits(wanted: seq<real>, purchases: seq<real>, paid: seq<real>, prices: seq<real>, order: seq<nat>, cash0: real, cash: real, k: nat)
    requires Covers(order, |order|) && InRange(order) && Positive(prices)
    requires Progress(wanted, purchases, paid, prices, order, cash0, cash, k) && k < |order|
    ensures |wanted| == |paid| == |prices| == |order| + 1
    ensures cash >= 0.0 && order[k] < |order| && purchases[order[k]] == wanted[order[k]]
  {
    hide Prioritised;
    NotPlaced(order, k, |order|);
    PaidWaits(paid, purchases, wanted, prices, cash, {|order|} + Placed(order, k), order[k]);
  }

  lemma ProgressEnd(wanted: seq<real>, purchases: seq<real>, paid: seq<real>, prices: seq<real>, order: seq<nat>, cash0: real, cash: real)
    requires Covers(order, |order|) && InRange(order) && Positive(prices)
    requires Progress(wanted, purchases, paid, prices, order, cash0, cash, |order|)
    ensures WellFunded(wanted, purchases, prices, order, cash0, cash)
  {
    hide Prioritised, Cut;
    AllPlaced(order, |order|);
    PaidAll(paid, purchases, wanted, prices, cash, {|order|} + Placed(order, |order|));
  }

  /** One stock's purchase, cut to the cash. */
  method Spend(want: real, price: real, cash: real) returns (v: real, left: real)
    requires price > 0.0 && cash >= 0.0 && want >= 0.0
    ensures v == Bought(want, price, cash) && left == cash - Cost(v, price) && 0.0 <= left <= cash
    ensures 0.0 <= v <= want && (v < want ==> Whole(v) && left < price)
  {
    BoughtFacts(want, price, cash);
    v := Affordable(cash, price);
    v := if want < v then want else v;
    left := cash - v * price;
    NonNegativeProduct(v, price);
  }

  /** SPY's purchase, cut only when its cost exceeds the cash. */
  method SpendOnSpy(want: real, price: real, cash: real) returns (v: real, left: real)
    requires price > 0.0 && cash >= 0.0 && want >= 0.0
    ensures v == SpyBought(want, price, cash) && left == cash - Cost(v, price) && 0.0 <= left <= cash
    ensures 0.0 <= v <= want && (v < want ==> Whole(v) && left < price)
  {
    SpyFacts(want, price, cash);
    v := want;
    if want * price > cash {
      v := Affordable(cash, price);
    }
    left := cash - v * price;
  }

  method FundSpy(purchases: array<real>, prices: seq<real>, order: seq<nat>, cash0: real) returns (cash: real, ghost paid: seq<real>)
    requires purchases.Length == |prices| == |order| + 1 && Covers(order, |order|) && InRange(order) && cash0 >= 0.0
    requires Positive(prices) && NonNegative(purchases[..])
    modifies purchases
    ensures Progress(old(purchases[..]), purchases[..], paid, prices, order, cash0, cash, 0)
  {
    hide Whole, Covers, Bought, Progress, Cost, InRange, Positive, SpyBought;
    var n := |order|;
    ghost var wanted := purchases[..];
    PositiveAt(prices, n);
    var v;
    v, cash := SpendOnSpy(purchases[n], prices[n], cash0);
    paid := ProgressStart(wanted, prices, order, cash0, v, cash);
    purchases[n] := v;
    assert purchases[..] == wanted[n := v];
  }

  method FundStock(purchases: array<real>, prices: seq<real>, order: seq<nat>, ghost wanted: seq<real>, ghost paid: seq<real>,
                   ghost cash0: real, cash: real, k: nat) returns (left: real, ghost after: seq<real>)
    requires Covers(order, |order|) && InRange(order) && Positive(prices) && k < |order| && purchases.Length == |order| + 1
    requires Progress(wanted, purchases[..], paid, prices, order, cash0, cash, k) && NonNegative(wanted)
    modifies purchases
    ensures Progress(wanted, purchases[..], after, prices, order, cash0, left, k + 1)
  {
    hide Whole, Covers, Bought, Progress, Cost, Positive;
    var index := order[k];
    ghost var before := purchases[..];
    ProgressWaits(wanted, before, paid, prices, order, cash0, cash, k);
    PositiveAt(prices, index);
    var v;
    v, left := Spend(purchases[index], prices[index], cash);
    ProgressStep(wanted, before, paid, prices, order, cash0, cash, k, v, left);
    purchases[index] := v;
    assert purchases[..] == before[index := v];
    after := paid[index := v];
  }

  /** Pay for SPY first, then for stocks along `order`, cutting each to the cash left. */
  method Fund(purchases: array<real>, prices: seq<real>, order: seq<nat>, cash0: real) returns (cash: real)
    requires purchases.Length == |prices| == |order| + 1 && Covers(order, |order|) && cash0 >= 0.0
    requires Positive(prices) && NonNegative(purchases[..])
    modifies purchases
    ensures WellFunded(old(purchases[..]), purchases[..], prices, order, cash0, cash)
  {
    CoversBound(order);
    hide *;
    ghost var wanted := purchases[..];
    ghost var paid;
    cash, paid := FundSpy(purchases, prices, order, cash0);
    var k := 0;
    while k < |order|
      invariant 0 <= k <= |order|
      invariant Progress(wanted, purchases[..], paid, prices, order, cash0, cash, k)
    {
      cash, paid := FundStock(purchases, prices, order, wanted, paid, cash0, cash, k);
      k := k + 1;
    }
    ghost var bought := purchases[..];
    assert k == |order|;
    ProgressEnd(wanted, bought, paid, prices, order, cash0, cash);
  }

  lemma PositiveAt(prices: seq<real>, i: nat)
    requires Positive(prices) && i < |prices|
    ensures prices[i] > 0.0
  {
  }

  lemma CoversBound(order: seq<nat>)
    requires Covers(order, |order|)
    ensures InRange(order)
  {
  }

  lemma NoPriority(wanted: seq<real>, q: seq<real>, prices: seq<real>, order: seq<nat>, cash: real)
    requires |wanted| == |q| == |prices| == |order| + 1
    requires InRange(order) && Positive(prices)
    ensures Prioritised(wanted, q, prices, order, cash, 0) && Spent(q, prices, order, 0) == q[|order|] * prices[|order|]
  {
  }

  lemma SpyFacts(want: real, price: real, cash: real)
    requires price > 0.0 && cash >= 0.0 && want >= 0.0
    ensures var v := if want * price > cash then Affordable(cash, price) else want;
      && 0.0 <= v <= want && cash - v * price >= 0.0 && v * price >= 0.0
      && (v < want ==> Whole(v) && cash - v * price < price)
  {
    AffordableFacts(cash, price);
    var v, k := if want * price > cash then Affordable(cash, price) else want, Affordable(cash, price);
    NonNegativeProduct(v, price);
    if k > want {
      NonNegativeProduct(k - want, price);
      assert (k - want) * price == k * price - want * price;
    }
  }

  lemma PaidStart(paid: seq<real>, wanted: seq<real>, prices: seq<real>, cash: real)
    requires |paid| == |wanted| == |prices| && forall i | 0 <= i < |paid| :: paid[i] == 0.0
    ensures Paid(paid, wanted, wanted, prices, cash, {}) && Worth(paid, prices) == 0.0
  {
    WorthZero(paid, prices);
  }

  lemma PaidWaits(paid: seq<real>, purchases: seq<real>, wanted: seq<real>, prices: seq<real>, cash: real, done: set<nat>, i: nat)
    requires |paid| == |purchases| == |wanted| == |prices| && i < |paid| && i !in done
    requires Paid(paid, purchases, wanted, prices, cash, done)
    ensures purchases[i] == wanted[i] && paid[i] == 0.0
  {
  }

  lemma PaidAll(paid: seq<real>, purchases: seq<real>, wanted: seq<real>, prices: seq<real>, cash: real, done: set<nat>)
    requires |paid| == |purchases| == |wanted| == |prices| && forall i: nat | i < |paid| :: i in done
    requires Paid(paid, purchases, wanted, prices, cash, done)
    ensures paid == purchases && forall i: nat | i < |paid| :: Cut(wanted, purchases, prices, cash, i)
  {
  }

  lemma NotPlaced(order: seq<nat>, k: nat, n: nat)
    requires k < |order| && Covers(order, n)
    ensures order[k] < n && order[k] !in {n} + Placed(order, k)
    ensures {n} + Placed(order, k + 1) == {n} + Placed(order, k) + {order[k]}
  {
  }

  lemma AllPlaced(order: seq<nat>, n: nat)
    requires Covers(order, n)
    ensures forall i: nat | i < n + 1 :: i in {n} + Placed(order, |order|)
  {
    forall i: nat | i < n
      ensures i in Placed(order, |order|)
    {
      assert i in order;
      var j :| 0 <= j < |order| && order[j] == i;
    }
  }

  // ----- the books -----

  /** Quantities, purchases and cash that account for everything owned at the start. */
  ghost predicate Balanced(a: Inputs, purchases: seq<real>, projected: seq<real>, cash: real)
    requires Accepted(a)
  {
    && |purchases| == |projected| == a.stocks + 1
    && (forall i: nat | i <= a.stocks :: Sound(a, i, purchases[i], projected[i]))
    && cash >= 0.0 && cash + Worth(projected, a.prices) == a.cash + Worth(a.current, a.prices)
  }

  /** One line of the books. */
  ghost predicate Sound(a: Inputs, i: nat, bought: real, quantity: real)
    requires Accepted(a) && i <= a.stocks
  {
    && bought >= 0.0 && quantity == a.current[i] - Sold(a, i) + bought
    && (i < a.stocks ==> bought <= Wanted(a, i))
    && (Whole(a.current[i]) ==> Whole(bought))
    && (Whole(bought) || (Sold(a, i) == 0.0 && Whole(a.current[i] + bought)))
  }

  lemma SpyMore(a: Inputs, bought: real, quantity: real, extra: real)
    requires Accepted(a) && Sound(a, a.stocks, bought, quantity) && extra >= 0.0 && Whole(extra)
    ensures Sound(a, a.stocks, bought + extra, quantity + extra)
  {
    AcceptedAt(a, a.stocks);
    hide Accepted, Whole;
    if Whole(bought) {
      WholeDifference(bought, extra);
    }
    if Whole(a.current[a.stocks] + bought) {
      WholeDifference(a.current[a.stocks] + bought, extra);
      assert a.current[a.stocks] + bought + extra == a.current[a.stocks] + (bought + extra);
    }
  }

  /** Spend what cash allows on whole SPY shares. */
  lemma ReinvestBalances(a: Inputs, purchases: seq<real>, projected: seq<real>, cash: real, extra: real)
    requires Accepted(a) && Balanced(a, purchases, projected, cash) && a.prices[a.stocks] > 0.0
    requires extra == Affordable(cash, a.prices[a.stocks])
    ensures var n := a.stocks; var left := cash - Cost(extra, a.prices[n]);
      && Balanced(a, purchases[n := purchases[n] + extra], projected[n := projected[n] + extra], left)
      && 0.0 <= left < a.prices[n]
  {
    hide Sound, Accepted;
    var n := a.stocks;
    AcceptedAt(a, n);
    AffordableFacts(cash, a.prices[n]);
    SpyMore(a, purchases[n], projected[n], extra);
    WorthUpdate(projected, a.prices, n, projected[n] + extra);
  }

  /** Giving back a purchase returns its cost. */
  lemma DropBalances(a: Inputs, purchases: seq<real>, projected: seq<real>, cash: real, i: nat)
    requires Accepted(a) && Balanced(a, purchases, projected, cash) && i < a.stocks
    ensures |a.prices| == a.stocks + 1
    ensures Balanced(a, purchases[i := 0.0], projected[i := projected[i] - purchases[i]], cash + Cost(purchases[i], a.prices[i]))
  {
    hide Accepted, Sound;
    AcceptedAt(a, i);
    DropSound(a, i, purchases[i], projected[i]);
    NonNegativeProduct(purchases[i], a.prices[i]);
    WorthUpdate(projected, a.prices, i, projected[i] - purchases[i]);
  }

  lemma DropSound(a: Inputs, i: nat, bought: real, quantity: real)
    requires Accepted(a) && i <= a.stocks && Sound(a, i, bought, quantity)
    ensures bought >= 0.0 && Sound(a, i, 0.0, quantity - bought)
  {
    hide Accepted, Whole;
    DesiredFacts(a, i);
    WholeZero();
  }

  /** Funding cash and quantities add up. */
  lemma StartBalances(a: Inputs, wanted: seq<real>, purchases: seq<real>, projected: seq<real>, order: seq<nat>, raised: real, cash: real)
    requires Accepted(a) && |wanted| == |purchases| == |projected| == a.stocks + 1
    requires forall i: nat | i <= a.stocks :: wanted[i] == Wanted(a, i) && projected[i] == a.current[i] - Sold(a, i) + purchases[i]
    requires raised == a.cash + Worth(SoldSeq(a), a.prices)
    requires WellFunded(wanted, purchases, a.prices, order, raised, cash)
    ensures Balanced(a, purchases, projected, cash)
  {
    hide Prioritised, InRange, Positive;
    forall i: nat | i <= a.stocks
      ensures Sound(a, i, purchases[i], projected[i])
    {
      hide Accepted, Whole;
      DesiredFacts(a, i);
      DesiredWhole(a, i);
      WholeZero();
      assert Cut(wanted, purchases, a.prices, cash, i);
    }
    StartWorth(a, purchases, projected);
  }

  function SoldSeq(a: Inputs): (r: seq<real>)
    requires Accepted(a)
    ensures |r| == a.stocks + 1 && forall i: nat | i <= a.stocks :: r[i] == Sold(a, i)
  {
    seq(a.stocks + 1, i requires 0 <= i <= a.stocks => Sold(a, i))
  }

  lemma StartWorth(a: Inputs, purchases: seq<real>, projected: seq<real>)
    requires Accepted(a) && |purchases| == |projected| == a.stocks + 1
    requires forall i: nat | i <= a.stocks :: projected[i] == a.current[i] - Sold(a, i) + purchases[i]
    ensures Worth(projected, a.prices) + Worth(SoldSeq(a), a.prices) == Worth(a.current, a.prices) + Worth(purchases, a.prices)
  {
    hide Sold;
    var both := seq(a.stocks + 1, i requires 0 <= i <= a.stocks => a.current[i] + purchases[i]);
    WorthAdd(projected, SoldSeq(a), both, a.prices);
    WorthAdd(a.current, purchases, both, a.prices);
  }

  // ----- reinvesting and giving back -----

  datatype Books = Books(purchases: seq<real>, projected: seq<real>, cash: real)

  predicate Sized(a: Inputs, b: Books) {
    |a.prices| == |b.purchases| == |b.projected| == a.stocks + 1 && a.prices[a.stocks] > 0.0
  }

  /** Keep cash in as many whole SPY shares as it buys. */
  function Reinvested(a: Inputs, b: Books): (r: Books)
    requires Sized(a, b)
    ensures Sized(a, r)
  {
    var n, extra := a.stocks, Affordable(b.cash, a.prices[a.stocks]);
    Books(b.purchases[n := b.purchases[n] + extra], b.projected[n := b.projected[n] + extra], b.cash - Cost(extra, a.prices[n]))
  }

  function GivenBack(a: Inputs, b: Books, i: nat): (r: Books)
    requires Sized(a, b) && i < a.stocks
    ensures Sized(a, r)
  {
    Books(b.purchases[i := 0.0], b.projected[i := b.projected[i] - b.purchases[i]], b.cash + Cost(b.purchases[i], a.prices[i]))
  }

  /** The books after giving back the purchases of the first `k` names of the order, reinvesting
      after each. */
  function Along(a: Inputs, order: seq<nat>, start: Books, k: nat): (r: Books)
    requires Sized(a, start) && k <= |order| && InOrder(order, a.stocks)
    ensures Sized(a, r)
  {
    if k == 0 then start else Reinvested(a, GivenBack(a, Along(a, order, start, k - 1), order[k - 1]))
  }

  /** The repair stops here: all books before were rejected and had a purchase to give back, and
      these are not rejected, or have none. */
  ghost predicate StopsAt(a: Inputs, order: seq<nat>, start: Books, invalid: (seq<real>, real) -> bool, k: nat)
    requires Sized(a, start) && InOrder(order, a.stocks)
  {
    && k <= |order|
    && (forall j: nat | j < k :: GivesBackAt(a, order, start, invalid, j))
    && (k < |order| ==> !GivesBackAt(a, order, start, invalid, k))
  }

  ghost predicate GivesBackAt(a: Inputs, order: seq<nat>, start: Books, invalid: (seq<real>, real) -> bool, j: nat)
    requires Sized(a, start) && j < |order| && InOrder(order, a.stocks)
  {
    var b := Along(a, order, start, j);
    invalid(b.projected, b.cash) && b.purchases[order[j]] > 0.0
  }

  /** There is one such stop. */
  lemma StopIsUnique(a: Inputs, order: seq<nat>, start: Books, invalid: (seq<real>, real) -> bool, j: nat, k: nat)
    requires Sized(a, start) && InOrder(order, a.stocks)
    requires StopsAt(a, order, start, invalid, j) && StopsAt(a, order, start, invalid, k)
    ensures j == k
  {
    hide GivesBackAt;
  }

  method Reinvest(a: Inputs, purchases: array<real>, projected: array<real>, cash0: real) returns (cash: real)
    requires Accepted(a) && purchases != projected && Balanced(a, purchases[..], projected[..], cash0)
    modifies purchases, projected
    ensures Balanced(a, purchases[..], projected[..], cash) && cash < a.prices[a.stocks]
    ensures forall i: nat | i < a.stocks :: purchases[i] == old(purchases[i]) && projected[i] == old(projected[i])
    ensures Sized(a, Books(old(purchases[..]), old(projected[..]), cash0))
    ensures Books(purchases[..], projected[..], cash) == Reinvested(a, Books(old(purchases[..]), old(projected[..]), cash0))
  {
    hide Accepted, Sound;
    var n := a.stocks;
    AcceptedAt(a, n);
    var extra := Affordable(cash0, a.prices[n]);
    ReinvestBalances(a, purchases[..], projected[..], cash0, extra);
    hide Cost;
    ghost var more, held := purchases[..][n := purchases[n] + extra], projected[..][n := projected[n] + extra];
    projected[n] := projected[n] + extra;
    purchases[n] := purchases[n] + extra;
    cash := cash0 - Cost(extra, a.prices[n]);
    assert purchases[..] == more && projected[..] == held;
  }

  /** The first `k` stocks of the order lost their purchases, all others kept theirs. */
  ghost predicate Dropped(order: seq<nat>, k: nat, before: seq<real>, after: seq<real>, n: nat)
    requires k <= |order| && |before| == |after| == n + 1
  {
    && (forall j | 0 <= j < k :: order[j] < n && before[order[j]] > 0.0 && after[order[j]] == 0.0)
    && (forall i: nat | i < n && i !in order[..k] :: after[i] == before[i])
  }

  lemma DropOne(order: seq<nat>, k: nat, before: seq<real>, mid: seq<real>, after: seq<real>, n: nat)
    requires k < |order| && Covers(order, n) && |before| == |mid| == |after| == n + 1
    requires Dropped(order, k, before, mid, n) && mid[order[k]] > 0.0 && after[order[k]] == 0.0
    requires forall i: nat | i < n && i != order[k] :: after[i] == mid[i]
    ensures Dropped(order, k + 1, before, after, n)
  {
    assert order[..k + 1] == order[..k] + [order[k]];
    assert order[k] !in order[..k];
  }

  /** Drop the weakest purchases while the plan is invalid, keeping freed cash in SPY; stop at
      the first stock that bought nothing. */
  method Repair(a: Inputs, purchases: array<real>, projected: array<real>, order: seq<nat>, cash0: real,
                invalid: (seq<real>, real) -> bool) returns (cash: real, bad: bool, k: nat)
    requires Accepted(a) && purchases != projected && Balanced(a, purchases[..], projected[..], cash0)
    requires |order| == a.stocks && Covers(order, a.stocks) && cash0 < a.prices[a.stocks]
    modifies purchases, projected
    ensures Balanced(a, purchases[..], projected[..], cash) && cash < a.prices[a.stocks]
    ensures bad == invalid(projected[..], cash)
    ensures k <= |order| && purchases.Length == a.stocks + 1 && Dropped(order, k, old(purchases[..]), purchases[..], a.stocks)
    ensures bad && k < |order| ==> purchases[order[k]] == 0.0
    ensures k > 0 ==> invalid(old(projected[..]), cash0)
    ensures InOrder(order, a.stocks) && Sized(a, Books(old(purchases[..]), old(projected[..]), cash0))
    ensures var start := Books(old(purchases[..]), old(projected[..]), cash0);
      Books(purchases[..], projected[..], cash) == Along(a, order, start, k) && StopsAt(a, order, start, invalid, k)
  {
    CoversInOrder(order, a.stocks);
    ghost var start := Books(purchases[..], projected[..], cash0);
    RepairStart(a, order, start, invalid);
    hide Accepted, Balanced, Covers, Sized, InOrder, StopsAt, Dropped, Repairing;
    cash, k := cash0, 0;
    bad := invalid(projected[..], cash);
    while k < |order|
      invariant 0 <= k <= |order|
      invariant Repairing(a, order, start, invalid, k, Books(purchases[..], projected[..], cash)) && bad == invalid(projected[..], cash)
    {
      ghost var b := Books(purchases[..], projected[..], cash);
      RepairLooks(a, order, start, invalid, k, b);
      if !bad || purchases[order[k]] <= 0.0 {
        break;
      }
      cash := GiveBack(a, purchases, projected, cash, order[k]);
      RepairStep(a, order, start, invalid, k, b, Books(purchases[..], projected[..], cash));
      bad := invalid(projected[..], cash);
      k := k + 1;
    }
    RepairEnd(a, order, start, invalid, k, Books(purchases[..], projected[..], cash));
  }

  /** The loop's books after giving back `k` purchases. */
  ghost predicate Repairing(a: Inputs, order: seq<nat>, start: Books, invalid: (seq<real>, real) -> bool, k: nat, b: Books)
    requires Accepted(a) && Sized(a, start) && InOrder(order, a.stocks)
  {
    && k <= |order| && b == Along(a, order, start, k)
    && Balanced(a, b.purchases, b.projected, b.cash) && b.cash < a.prices[a.stocks]
    && Dropped(order, k, start.purchases, b.purchases, a.stocks)
    && forall j: nat | j < k :: GivesBackAt(a, order, start, invalid, j)
  }

  lemma RepairStart(a: Inputs, order: seq<nat>, start: Books, invalid: (seq<real>, real) -> bool)
    requires Accepted(a) && InOrder(order, a.stocks) && Balanced(a, start.purchases, start.projected, start.cash)
    requires |a.prices| == a.stocks + 1 && start.cash < a.prices[a.stocks]
    ensures Sized(a, start) && Repairing(a, order, start, invalid, 0, start)
  {
    AcceptedAt(a, a.stocks);
    hide Accepted, Sound;
    DroppedNone(order, start.purchases, a.stocks);
  }

  lemma RepairLooks(a: Inputs, order: seq<nat>, start: Books, invalid: (seq<real>, real) -> bool, k: nat, b: Books)
    requires Accepted(a) && Sized(a, start) && InOrder(order, a.stocks) && Repairing(a, order, start, invalid, k, b) && k < |order|
    ensures order[k] < a.stocks && |b.purchases| == |b.projected| == a.stocks + 1 && b.purchases[order[k]] >= 0.0
    ensures Balanced(a, b.purchases, b.projected, b.cash)
    ensures GivesBackAt(a, order, start, invalid, k) <==> invalid(b.projected, b.cash) && b.purchases[order[k]] > 0.0
  {
    hide Accepted, Dropped;
    InOrderAt(order, a.stocks, k);
    BoughtNonNegative(a, b.purchases, b.projected, b.cash, order[k]);
  }

  lemma RepairStep(a: Inputs, order: seq<nat>, start: Books, invalid: (seq<real>, real) -> bool, k: nat, b: Books, after: Books)
    requires Accepted(a) && Covers(order, a.stocks) && Sized(a, start) && Sized(a, b) && InOrder(order, a.stocks)
    requires k < |order| && Repairing(a, order, start, invalid, k, b) && GivesBackAt(a, order, start, invalid, k)
    requires after == Reinvested(a, GivenBack(a, b, order[k])) && Balanced(a, after.purchases, after.projected, after.cash)
    requires |a.prices| == a.stocks + 1 && after.cash < a.prices[a.stocks]
    requires after.purchases[order[k]] == 0.0 && b.purchases[order[k]] > 0.0
    requires forall i: nat | i < a.stocks && i != order[k] :: after.purchases[i] == b.purchases[i]
    ensures Repairing(a, order, start, invalid, k + 1, after)
  {
    hide Accepted, Balanced, Covers, GivesBackAt, Dropped, Reinvested, GivenBack;
    AlongStep(a, order, start, k);
    DropOne(order, k, start.purchases, b.purchases, after.purchases, a.stocks);
  }

  lemma RepairEnd(a: Inputs, order: seq<nat>, start: Books, invalid: (seq<real>, real) -> bool, k: nat, b: Books)
    requires Accepted(a) && Sized(a, start) && InOrder(order, a.stocks) && Repairing(a, order, start, invalid, k, b)
    requires k < |order| ==> !GivesBackAt(a, order, start, invalid, k)
    ensures |b.purchases| == a.stocks + 1 && |a.prices| == a.stocks + 1
    ensures Balanced(a, b.purchases, b.projected, b.cash) && b.cash < a.prices[a.stocks]
    ensures Dropped(order, k, start.purchases, b.purchases, a.stocks)
    ensures b == Along(a, order, start, k) && StopsAt(a, order, start, invalid, k)
    ensures k > 0 ==> invalid(start.projected, start.cash)
    ensures k < |order| && invalid(b.projected, b.cash) ==> order[k] < a.stocks && b.purchases[order[k]] == 0.0
  {
    AcceptedAt(a, a.stocks);
    hide Accepted, Dropped, Sound;
    if k > 0 {
      IsGivingBack(a, order, start, invalid, 0);
    }
    if k < |order| {
      RepairLooks(a, order, start, invalid, k, b);
    }
    hide GivesBackAt;
    IsStop(a, order, start, invalid, k);
  }

  lemma InOrderAt(order: seq<nat>, n: nat, k: nat)
    requires InOrder(order, n) && k < |order|
    ensures order[k] < n
  {
  }

  lemma AlongStep(a: Inputs, order: seq<nat>, start: Books, k: nat)
    requires Sized(a, start) && InOrder(order, a.stocks) && k < |order|
    ensures Along(a, order, start, k + 1) == Reinvested(a, GivenBack(a, Along(a, order, start, k), order[k]))
  {
    hide Reinvested, GivenBack;
  }

  lemma IsStop(a: Inputs, order: seq<nat>, start: Books, invalid: (seq<real>, real) -> bool, k: nat)
    requires Sized(a, start) && InOrder(order, a.stocks) && k <= |order|
    requires forall j: nat | j < k :: GivesBackAt(a, order, start, invalid, j)
    requires k < |order| ==> !GivesBackAt(a, order, start, invalid, k)
    ensures StopsAt(a, order, start, invalid, k)
  {
    hide GivesBackAt;
  }

  /** Undo one purchase and reinvest what it cost. */
  method GiveBack(a: Inputs, purchases: array<real>, projected: array<real>, cash0: real, index: nat) returns (cash: real)
    requires Accepted(a) && purchases != projected && Balanced(a, purchases[..], projected[..], cash0) && index < a.stocks
    modifies purchases, projected
    ensures Balanced(a, purchases[..], projected[..], cash) && cash < a.prices[a.stocks]
    ensures Sized(a, Books(old(purchases[..]), old(projected[..]), cash0))
    ensures Books(purchases[..], projected[..], cash) == Reinvested(a, GivenBack(a, Books(old(purchases[..]), old(projected[..]), cash0), index))
    ensures purchases[index] == 0.0
    ensures forall i: nat | i < a.stocks && i != index :: purchases[i] == old(purchases[i])
  {
    ghost var b := Books(purchases[..], projected[..], cash0);
    GivenBackFacts(a, b, index);
    hide Accepted, Balanced, Reinvested, Cost, GivenBack, Sized;
    cash := cash0 + Cost(purchases[index], a.prices[index]);
    projected[index] := projected[index] - purchases[index];
    purchases[index] := 0.0;
    assert purchases[..] == b.purchases[index := 0.0];
    assert projected[..] == b.projected[index := b.projected[index] - b.purchases[index]];
    cash := Reinvest(a, purchases, projected, cash);
  }

  lemma GivenBackFacts(a: Inputs, b: Books, i: nat)
    requires Accepted(a) && Balanced(a, b.purchases, b.projected, b.cash) && i < a.stocks
    ensures |a.prices| == |b.purchases| == |b.projected| == a.stocks + 1 && Sized(a, b)
    ensures var g := GivenBack(a, b, i);
      && g == Books(b.purchases[i := 0.0], b.projected[i := b.projected[i] - b.purchases[i]], b.cash + Cost(b.purchases[i], a.prices[i]))
      && Balanced(a, g.purchases, g.projected, g.cash)
  {
    AcceptedAt(a, a.stocks);
    BalancedSizes(a, b.purchases, b.projected, b.cash);
    hide Accepted, Balanced, Cost;
    DropBalances(a, b.purchases, b.projected, b.cash, i);
  }

  predicate InOrder(order: seq<nat>, n: nat) {
    forall j | 0 <= j < |order| :: order[j] < n
  }

  lemma CoversInOrder(order: seq<nat>, n: nat)
    requires Covers(order, n)
    ensures InOrder(order, n)
  {
  }

  lemma IsGivingBack(a: Inputs, order: seq<nat>, start: Books, invalid: (seq<real>, real) -> bool, k: nat)
    requires Sized(a, start) && k < |order| && InOrder(order, a.stocks)
    ensures var b := Along(a, order, start, k);
      GivesBackAt(a, order, start, invalid, k) <==> invalid(b.projected, b.cash) && b.purchases[order[k]] > 0.0
  {
  }

  lemma DroppedNone(order: seq<nat>, before: seq<real>, n: nat)
    requires |before| == n + 1
    ensures Dropped(order, 0, before, before, n)
  {
  }

  lemma BoughtNonNegative(a: Inputs, purchases: seq<real>, projected: seq<real>, cash: real, i: nat)
    requires Accepted(a) && Balanced(a, purchases, projected, cash) && i <= a.stocks
    ensures purchases[i] >= 0.0
  {
    assert Sound(a, i, purchases[i], projected[i]);
  }

  // ----- orders -----

  datatype Side = Sell | Buy

  datatype Role = Exit | Financing | Rebalance

  datatype Order = Order(name: nat, side: Side, qty: real, role: Role)

  function RoleOf(a: Inputs, i: nat): Role {
    if i in a.exits then Exit else if i == a.stocks then Financing else Rebalance
  }

  predicate Negligible(change: real) {
    -0.000000000001 < change < 0.000000000001
  }

  function OrderFor(a: Inputs, i: nat, change: real): Order {
    Order(i, if change > 0.0 then Buy else Sell, if change > 0.0 then change else -change, RoleOf(a, i))
  }

  /** What the orders do to one name. */
  function Net(orders: seq<Order>, name: nat): real {
    if orders == [] then 0.0 else
    var last := orders[|orders| - 1];
    Net(orders[..|orders| - 1], name) + if last.name != name then 0.0 else if last.side.Buy? then last.qty else -last.qty
  }

  lemma NetAppend(orders: seq<Order>, order: Order, name: nat)
    ensures Net(orders + [order], name) ==
      Net(orders, name) + if order.name != name then 0.0 else if order.side.Buy? then order.qty else -order.qty
  {
    assert (orders + [order])[..|orders|] == orders;
  }

  ghost predicate SideNets(orders: seq<Order>, a: Inputs, projected: seq<real>, done: set<nat>, side: Side)
    requires |projected| == |a.current| == a.stocks + 1
  {
    forall i: nat | i <= a.stocks ::
      var change := projected[i] - a.current[i];
      Net(orders, i) == if i in done && !Negligible(change) && (change > 0.0 <==> side.Buy?) then change else 0.0
  }

  predicate WellFormed(a: Inputs, order: Order, side: Side) {
    order.side == side && order.qty > 0.0 && order.name <= a.stocks && order.role == RoleOf(a, order.name)
  }

  lemma OrderForFacts(a: Inputs, i: nat, change: real)
    requires i <= a.stocks && !Negligible(change)
    ensures WellFormed(a, OrderFor(a, i, change), OrderFor(a, i, change).side) && OrderFor(a, i, change).name == i
  {
  }

  /** The names in alphabetical order: SPY after the first `slot` stocks. */
  function Alphabetical(n: nat, slot: nat): (r: seq<nat>)
    requires slot <= n
  {
    seq(n + 1, i requires 0 <= i <= n => if i < slot then i else if i == slot then n else i - 1)
  }

  /** A name's place in that order. */
  function Place(n: nat, slot: nat, name: nat): nat {
    if name == n then slot else if name < slot then name else name + 1
  }

  lemma PlaceOf(n: nat, slot: nat, k: nat)
    requires slot <= n && k <= n
    ensures Place(n, slot, Alphabetical(n, slot)[k]) == k
  {
  }

  ghost predicate InTickerOrder(orders: seq<Order>, n: nat, slot: nat) {
    forall i, j | 0 <= i < j < |orders| && orders[i].side == orders[j].side :: Place(n, slot, orders[i].name) < Place(n, slot, orders[j].name)
  }

  /** One side's orders, along the alphabetical order of the names. */
  method SideOrders(a: Inputs, projected: array<real>, names: seq<nat>, slot: nat, side: Side) returns (orders: seq<Order>)
    requires projected.Length == |a.current| == a.stocks + 1 && Covers(names, a.stocks + 1)
    requires slot <= a.stocks && names == Alphabetical(a.stocks, slot)
    ensures InTickerOrder(orders, a.stocks, slot)
    ensures forall j | 0 <= j < |orders| :: WellFormed(a, orders[j], side)
    ensures SideNets(orders, a, projected[..], Placed(names, |names|), side)
  {
    hide WellFormed, SideNets, Covers, OrderFor, Place, Alphabetical;
    orders := [];
    NoNets(a, projected[..], names, side);
    var k := 0;
    while k < |names|
      invariant 0 <= k <= |names|
      invariant forall j | 0 <= j < |orders| :: WellFormed(a, orders[j], side)
      invariant SideNets(orders, a, projected[..], Placed(names, k), side)
      invariant InTickerOrder(orders, a.stocks, slot)
      invariant forall j | 0 <= j < |orders| :: Place(a.stocks, slot, orders[j].name) < k
    {
      var i := names[k];
      NameIn(names, a.stocks + 1, k);
      AlphabeticalSize(a.stocks, slot);
      PlaceOf(a.stocks, slot, k);
      var change := projected[i] - a.current[i];
      var order := OrderFor(a, i, change);
      SideStep(orders, a, projected[..], names, k, side);
      if !Negligible(change) && order.side == side {
        OrderForFacts(a, i, change);
        assert order.name == i;
        orders := orders + [order];
      }
      k := k + 1;
    }
  }

  lemma AlphabeticalSize(n: nat, slot: nat)
    requires slot <= n
    ensures |Alphabetical(n, slot)| == n + 1
  {
  }

  lemma NoNets(a: Inputs, projected: seq<real>, names: seq<nat>, side: Side)
    requires |projected| == |a.current| == a.stocks + 1
    ensures SideNets([], a, projected, Placed(names, 0), side)
  {
  }

  lemma NameIn(names: seq<nat>, n: nat, k: nat)
    requires Covers(names, n) && k < |names|
    ensures names[k] < n
  {
  }

  lemma SideStep(orders: seq<Order>, a: Inputs, projected: seq<real>, names: seq<nat>, k: nat, side: Side)
    requires |projected| == |a.current| == a.stocks + 1 && Covers(names, a.stocks + 1) && k < |names|
    requires SideNets(orders, a, projected, Placed(names, k), side)
    ensures var i := names[k]; var change := projected[i] - a.current[i]; var order := OrderFor(a, i, change);
      SideNets(if !Negligible(change) && order.side == side then orders + [order] else orders, a, projected, Placed(names, k + 1), side)
  {
    var i := names[k];
    var change := projected[i] - a.current[i];
    var order := OrderFor(a, i, change);
    assert Placed(names, k + 1) == Placed(names, k) + {i};
    assert i !in Placed(names, k);
    forall name: nat
      ensures Net(orders + [order], name) == Net(orders, name) + if order.name != name then 0.0 else if order.side.Buy? then order.qty else -order.qty
    {
      NetAppend(orders, order, name);
    }
  }

  lemma SideAll(orders: seq<Order>, a: Inputs, projected: seq<real>, names: seq<nat>, side: Side)
    requires |projected| == |a.current| == a.stocks + 1 && Covers(names, a.stocks + 1)
    requires SideNets(orders, a, projected, Placed(names, |names|), side)
    ensures forall i: nat | i <= a.stocks ::
      var change := projected[i] - a.current[i];
      Net(orders, i) == if !Negligible(change) && (change > 0.0 <==> side.Buy?) then change else 0.0
  {
    forall i: nat | i <= a.stocks
      ensures i in Placed(names, |names|)
    {
      assert i in names;
      var j :| 0 <= j < |names| && names[j] == i;
    }
  }

  // ----- the plan -----

  datatype Plan =
    | Planned(orders: seq<Order>, projected: seq<real>, cash: real)
    | Infeasible(orders: seq<Order>)

  lemma AlphabeticalCovers(n: nat, slot: nat)
    requires slot <= n
    ensures Covers(Alphabetical(n, slot), n + 1)
  {
    var r := Alphabetical(n, slot);
    forall k: nat | k < n + 1
      ensures k in r
    {
      assert r[if k == n then slot else if k < slot then k else k + 1] == k;
    }
  }

  /** What a plan promises about each name and about the cash. */
  ghost predicate Kept(a: Inputs, projected: seq<real>, cash: real)
    requires Accepted(a)
  {
    && |projected| == a.stocks + 1
    && cash + Worth(projected, a.prices) == a.cash + Worth(a.current, a.prices)
    && 0.0 <= cash < a.prices[a.stocks]
    && forall i: nat | i <= a.stocks :: KeptAt(a, projected[i], i)
  }

  ghost predicate KeptAt(a: Inputs, quantity: real, i: nat)
    requires Accepted(a) && i <= a.stocks
  {
    && quantity >= 0.0
    && (i in a.exits ==> quantity == 0.0)
    && (Whole(a.current[i]) ==> Whole(quantity))
    && (Whole(quantity) || (Desired(a, i) >= a.current[i] && Whole(quantity - a.current[i])))
    && (i < a.stocks && Desired(a, i) <= a.current[i] ==> quantity == Desired(a, i))
    && (i < a.stocks && Desired(a, i) > a.current[i] ==> a.current[i] <= quantity <= Desired(a, i))
  }

  /** A stock is held no higher than its target's whole shares, and exactly there when it holds that
      many already; otherwise nothing of it is sold. An exit is sold out. */
  ghost predicate OnTarget(a: Inputs, projected: seq<real>)
    requires Accepted(a) && |projected| == a.stocks + 1
  {
    && (forall i: nat | i in a.exits :: projected[i] == 0.0)
    && forall i: nat, k: int | i < a.stocks && i !in a.exits && TargetShares(a, i, k) ::
         if a.current[i] >= k as real then projected[i] == k as real else a.current[i] <= projected[i] <= k as real
  }

  lemma KeptIsOnTarget(a: Inputs, projected: seq<real>, cash: real)
    requires Accepted(a) && Kept(a, projected, cash)
    ensures |projected| == a.stocks + 1 && OnTarget(a, projected)
  {
    hide Desired, Whole, TargetShares, KeptAt;
    forall i: nat | i in a.exits
      ensures projected[i] == 0.0
    {
      KeptStock(a, projected[i], i);
    }
    forall i: nat, k: int | i < a.stocks && i !in a.exits && TargetShares(a, i, k)
      ensures if a.current[i] >= k as real then projected[i] == k as real else a.current[i] <= projected[i] <= k as real
    {
      DesiredIs(a, i);
      KeptStock(a, projected[i], i);
    }
  }

  lemma KeptStock(a: Inputs, q: real, i: nat)
    requires Accepted(a) && i < a.stocks && KeptAt(a, q, i)
    ensures |a.current| == a.stocks + 1 && (i in a.exits ==> q == 0.0)
    ensures if Desired(a, i) <= a.current[i] then q == Desired(a, i) else a.current[i] <= q <= Desired(a, i)
  {
    hide Desired, Whole;
  }

  lemma SoundKept(a: Inputs, i: nat, bought: real, quantity: real)
    requires Accepted(a) && i <= a.stocks && Sound(a, i, bought, quantity)
    ensures KeptAt(a, quantity, i)
  {
    DesiredFacts(a, i);
    DesiredWhole(a, i);
    ExitIsStock(a, i);
    hide Accepted, Desired, Whole;
    if Sold(a, i) > 0.0 {
      WholeDifference(Desired(a, i), bought);
    }
    if Whole(a.current[i]) {
      WholeDifference(a.current[i] - Sold(a, i), bought);
    }
  }

  lemma ExitIsStock(a: Inputs, i: nat)
    requires Accepted(a)
    ensures i in a.exits ==> i < a.stocks
  {
  }

  lemma BalancedKept(a: Inputs, purchases: seq<real>, projected: seq<real>, cash: real)
    requires Accepted(a) && Balanced(a, purchases, projected, cash) && |a.prices| == a.stocks + 1 && cash < a.prices[a.stocks]
    ensures Kept(a, projected, cash)
  {
    hide Accepted, Sound, KeptAt;
    forall i: nat | i <= a.stocks
      ensures KeptAt(a, projected[i], i)
    {
      SoundKept(a, i, purchases[i], projected[i]);
    }
  }

  function WantedSeq(a: Inputs): (r: seq<real>)
    requires Accepted(a)
    ensures |r| == a.stocks + 1 && forall i: nat | i <= a.stocks :: r[i] == Wanted(a, i)
  {
    seq(a.stocks + 1, i requires 0 <= i <= a.stocks => Wanted(a, i))
  }

  /** Purchases as funding leaves them: SPY first, then by falling alpha out of the cash left. */
  ghost predicate ByAlpha(a: Inputs, funded: seq<real>)
    requires Accepted(a)
  {
    && |funded| == a.stocks + 1
    && |a.alpha| == a.stocks && InRange(FundingOrder(a.alpha)) && Positive(a.prices)
    && funded[a.stocks] == SpyBought(Wanted(a, a.stocks), a.prices[a.stocks], a.cash + Worth(SoldSeq(a), a.prices))
    && Prioritised(WantedSeq(a), funded, a.prices, FundingOrder(a.alpha), a.cash + Worth(SoldSeq(a), a.prices), a.stocks)
  }

  /** The books once funding is done and its cash reinvested. */
  function Opening(a: Inputs, funded: seq<real>): (b: Books)
    requires Accepted(a) && |funded| == a.stocks + 1
    ensures Sized(a, b)
  {
    var held := seq(a.stocks + 1, i requires 0 <= i <= a.stocks => a.current[i] - Sold(a, i) + funded[i]);
    Reinvested(a, Books(funded, held, a.cash + Worth(SoldSeq(a), a.prices) - Worth(funded, a.prices)))
  }

  /** The repair comes to rest at these books: those after giving back the weakest purchases, one
      by one, as long as what stands is rejected and the next name has a purchase. */
  ghost predicate RestsAt(a: Inputs, invalid: (seq<real>, real) -> bool, funded: seq<real>, k: nat, end: Books)
    requires Accepted(a)
  {
    && ByAlpha(a, funded) && k <= a.stocks && InOrder(RepairOrder(a.alpha), a.stocks)
    && StopsAt(a, RepairOrder(a.alpha), Opening(a, funded), invalid, k)
    && end == Along(a, RepairOrder(a.alpha), Opening(a, funded), k)
  }

  /** Each stock is held as sells and funding leave it, except that the first `k` names of the
      repair order, all of which had bought, have given their purchases back. */
  ghost predicate Chosen(a: Inputs, projected: seq<real>, funded: seq<real>, k: nat)
    requires Accepted(a)
  {
    && |projected| == |funded| == a.stocks + 1 && k <= a.stocks
    && (forall j | 0 <= j < k :: RepairOrder(a.alpha)[j] < a.stocks && funded[RepairOrder(a.alpha)[j]] > 0.0)
    && forall i: nat | i < a.stocks ::
         projected[i] == a.current[i] - Sold(a, i) + if i in RepairOrder(a.alpha)[..k] then 0.0 else funded[i]
  }

  lemma ChosenFrom(a: Inputs, funded: seq<real>, mid: seq<real>, purchases: seq<real>, projected: seq<real>, cash: real, k: nat)
    requires Accepted(a) && |funded| == |mid| == a.stocks + 1 && |a.alpha| == a.stocks
    requires Balanced(a, purchases, projected, cash) && k <= a.stocks && Dropped(RepairOrder(a.alpha), k, mid, purchases, a.stocks)
    requires forall i: nat | i < a.stocks :: mid[i] == funded[i]
    ensures Chosen(a, projected, funded, k)
  {
    hide Accepted, RepairOrder, Sold, Whole, Wanted;
    AcceptedAt(a, a.stocks);
    var order := RepairOrder(a.alpha);
    forall i: nat | i < a.stocks
      ensures projected[i] == a.current[i] - Sold(a, i) + if i in order[..k] then 0.0 else funded[i]
    {
      assert Sound(a, i, purchases[i], projected[i]);
      if i in order[..k] {
        var j :| 0 <= j < k && order[..k][j] == i;
        assert order[j] == i;
      }
    }
  }

  /** Sells come first. */
  ghost predicate SellsFirst(orders: seq<Order>) {
    forall i, j | 0 <= i < j < |orders| :: orders[i].side.Buy? ==> orders[j].side.Buy?
  }

  ghost predicate Orders(a: Inputs, orders: seq<Order>, projected: seq<real>)
    requires |projected| == |a.current| == a.stocks + 1
  {
    && SellsFirst(orders)
    && (forall j | 0 <= j < |orders| :: orders[j].qty > 0.0 && orders[j].name <= a.stocks && orders[j].role == RoleOf(a, orders[j].name))
    && forall i: nat | i <= a.stocks ::
         var change := projected[i] - a.current[i];
         Net(orders, i) == if Negligible(change) then 0.0 else change
  }

  /** The orders miss the projection by less than 1e-12, and only where the change is that small. */
  lemma OrdersReachProjection(a: Inputs, orders: seq<Order>, projected: seq<real>, i: nat)
    requires |projected| == |a.current| == a.stocks + 1 && Orders(a, orders, projected) && i <= a.stocks
    ensures Negligible(a.current[i] + Net(orders, i) - projected[i])
    ensures a.current[i] + Net(orders, i) == projected[i] <==>
      projected[i] == a.current[i] || !Negligible(projected[i] - a.current[i])
  {
    hide SellsFirst;
  }

  // ----- which holdings are reached exactly -----

  /** A holding that is whole, or at least 1e-12 away from the whole numbers on both sides. */
  predicate Orderly(x: real) {
    var over := x - x.Floor as real;
    over == 0.0 || 0.000000000001 <= over <= 1.0 - 0.000000000001
  }

  lemma WholeFloor(x: real, w: real)
    requires Whole(w)
    ensures Orderly(x) && w != x ==> !Negligible(w - x)
    ensures w <= x < w + 1.0 ==> x.Floor as real == w
  {
    var k :| w == Shares(k);
    var n := x.Floor;
    assert k <= n || k >= n + 1;
  }

  lemma WholeNotSmall(w: real)
    requires Whole(w)
    ensures w == 0.0 || !Negligible(w)
  {
    var k :| w == Shares(k);
    assert k == 0 || k >= 1 || k <= -1;
  }

  /** The name ends up exactly where the plan says. */
  ghost predicate Reaches(a: Inputs, orders: seq<Order>, projected: seq<real>, i: nat)
  {
    |projected| == |a.current| && i < |a.current| && a.current[i] + Net(orders, i) == projected[i]
  }

  /** A planned result: what the planner guarantees of its orders, quantities and cash. */
  ghost predicate IsPlan(a: Inputs, orders: seq<Order>, projected: seq<real>, cash: real)
    requires Accepted(a)
  {
    Kept(a, projected, cash) && Orders(a, orders, projected)
  }

  /** Every accepted plan reaches an orderly holding exactly, whole holdings among them. */
  lemma OrderlyIsReached(a: Inputs, orders: seq<Order>, projected: seq<real>, cash: real, i: nat)
    requires Accepted(a) && IsPlan(a, orders, projected, cash) && i <= a.stocks && Orderly(a.current[i])
    ensures Reaches(a, orders, projected, i)
  {
    hide Accepted, Orders, Orderly, Negligible, Whole, Desired;
    AcceptedAt(a, i);
    OrdersReachProjection(a, orders, projected, i);
    assert KeptAt(a, projected[i], i);
    if Whole(projected[i]) {
      WholeFloor(a.current[i], projected[i]);
    } else {
      WholeNotSmall(projected[i] - a.current[i]);
    }
  }

  /** A stock that does not buy is reached exactly if and only if its excess over the rounded
      target is nothing or at least 1e-12. */
  lemma SoldIsReachedIff(a: Inputs, orders: seq<Order>, projected: seq<real>, cash: real, i: nat)
    requires Accepted(a) && IsPlan(a, orders, projected, cash) && i < a.stocks && Desired(a, i) <= a.current[i]
    ensures Reaches(a, orders, projected, i) <==> a.current[i] == Desired(a, i) || a.current[i] - Desired(a, i) >= 0.000000000001
  {
    hide Accepted, Orders, Whole, Desired;
    AcceptedAt(a, i);
    OrdersReachProjection(a, orders, projected, i);
    assert KeptAt(a, projected[i], i);
  }

  /** The planner's own numbers: a stock's weight, the stocks' weight, the portfolio's beta and the
      cash weight. Sector limits are not among them. */
  ghost predicate WithinLimits(a: Inputs, betas: seq<real>, projected: seq<real>, cash: real)
    requires Accepted(a)
  {
    && |betas| == a.stocks && |projected| == a.stocks + 1
    && (forall i: nat | i < a.stocks :: Weight(a, projected, i) <= 0.1 + 0.0000000001)
    && StockWeight(a, projected, a.stocks) <= 0.3 + 0.0000000001
    && 0.8 - 0.0000000001 <= StockBeta(a, betas, projected, a.stocks) + Weight(a, projected, a.stocks) <= 1.1 + 0.0000000001
    && cash / a.equity >= -0.000000000001
  }

  function Weight(a: Inputs, projected: seq<real>, i: nat): real
    requires Accepted(a) && |projected| == a.stocks + 1 && i <= a.stocks
  {
    projected[i] * a.prices[i] / a.equity
  }

  function StockWeight(a: Inputs, projected: seq<real>, n: nat): real
    requires Accepted(a) && |projected| == a.stocks + 1 && n <= a.stocks
  {
    if n == 0 then 0.0 else StockWeight(a, projected, n - 1) + Weight(a, projected, n - 1)
  }

  function StockBeta(a: Inputs, betas: seq<real>, projected: seq<real>, n: nat): real
    requires Accepted(a) && |betas| == a.stocks && |projected| == a.stocks + 1 && n <= a.stocks
  {
    if n == 0 then 0.0 else StockBeta(a, betas, projected, n - 1) + betas[n - 1] * Weight(a, projected, n - 1)
  }

  /** An account whose plan must sell or rebuy its first holding to the nearest whole share: SPY
      alone, or for less than half a share a stock beside one share of SPY. */
  function Stranded(x: real): Inputs {
    var n := x.Floor as real;
    if x < 0.5 then Beside(x)
    else if x - n < 0.5 then Alone(x, 0.0, n)
    else Alone(x, n + 1.0 - x, n + 0.95)
  }

  function Alone(x: real, cash: real, equity: real): Inputs {
    Inputs(0, [1.0], [x], [1.0], [], cash, equity, [], {})
  }

  function Beside(x: real): Inputs {
    Inputs(1, [0.0, 1.0], [x, 1.0], [1.0, 1.0], [1.0], 0.0, 1.0, [0.0], {})
  }

  function Nearest(x: real): real {
    if x - x.Floor as real < 0.5 then x.Floor as real else x.Floor as real + 1.0
  }

  function StrandedEnd(x: real): seq<real> {
    if x < 0.5 then [0.0, 1.0] else [Nearest(x)]
  }

  function StrandedCash(x: real): real {
    if x - x.Floor as real < 0.5 then x - x.Floor as real else 0.0
  }

  lemma AloneAccepted(x: real, cash: real, equity: real)
    requires x >= 0.0 && cash >= 0.0 && equity > 0.0
    ensures Accepted(Alone(x, cash, equity)) && Desired(Alone(x, cash, equity), 0) == equity.Floor as real
  {
    var a := Alone(x, cash, equity);
    assert a.target[..0] == [] && Total(a.target[..0]) == 0.0 && Total(a.target) == 1.0;
    assert a.target[0] * a.equity / a.prices[0] == equity;
  }

  lemma BesideAccepted(x: real)
    requires x >= 0.0
    ensures Accepted(Beside(x)) && Desired(Beside(x), 0) == 0.0 && Desired(Beside(x), 1) == 1.0
  {
    var a := Beside(x);
    assert a.target[..1] == [0.0] && [0.0][..0] == [];
    assert Total([0.0]) == 0.0 && Total(a.target) == 1.0;
    assert a.target[0] * a.equity / a.prices[0] == 0.0 && a.target[1] * a.equity / a.prices[1] == 1.0;
  }

  lemma StrandedAccepted(x: real)
    requires x >= 0.0
    ensures Accepted(Stranded(x)) && Stranded(x).current[0] == x
    ensures x >= 0.5 ==> Desired(Stranded(x), 0) == x.Floor as real
  {
    var n := x.Floor;
    if x < 0.5 {
      BesideAccepted(x);
    } else if x - n as real < 0.5 {
      AloneAccepted(x, 0.0, n as real);
    } else {
      AloneAccepted(x, n as real + 1.0 - x, n as real + 0.95);
      assert (n as real + 0.95).Floor == n;
    }
  }

  lemma NearestWhole(x: real)
    ensures Whole(Nearest(x)) && Whole(x.Floor as real)
    ensures !Orderly(x) ==> Nearest(x) != x && Negligible(Nearest(x) - x)
  {
    assert x.Floor as real == Shares(x.Floor) && x.Floor as real + 1.0 == Shares(x.Floor + 1);
  }

  lemma WorthOne(q: real)
    ensures Worth([q], [1.0]) == q
  {
    assert [q][..0] == [] && [1.0][..0] == [];
  }

  lemma WorthTwo(q: real, r: real)
    ensures Worth([q, r], [1.0, 1.0]) == q + r
  {
    WorthOne(q);
    assert [q, r][..1] == [q] && [1.0, 1.0][..1] == [1.0];
  }

  /** Its plans all end at that share. */
  lemma StrandedProjects(x: real, projected: seq<real>, cash: real)
    requires x >= 0.0 && !Orderly(x) && Accepted(Stranded(x)) && Kept(Stranded(x), projected, cash)
    ensures |projected| == |Stranded(x).current| && projected[0] == Nearest(x)
  {
    var a := Stranded(x);
    if x < 0.5 {
      BesideAccepted(x);
      hide Accepted, Desired, Whole;
      assert KeptAt(a, projected[0], 0);
    } else {
      StrandedAccepted(x);
      hide Accepted, Desired;
      assert projected == [projected[0]];
      WorthOne(projected[0]);
      WorthOne(x);
      StrandedQuantity(a, projected[0], x, cash);
    }
  }

  lemma StrandedQuantity(a: Inputs, q: real, x: real, cash: real)
    requires Accepted(a) && a == Stranded(x) && x >= 0.5 && !Orderly(x) && KeptAt(a, q, 0) && Desired(a, 0) == x.Floor as real
    requires cash + q == a.cash + x && 0.0 <= cash < 1.0
    ensures q == Nearest(x)
  {
    hide Accepted, Desired, Whole;
    NearestWhole(x);
    WholeFloor(a.cash + x, q);
    WholeFloor(a.cash + x, Nearest(x));
  }

  /** The account has a plan, and the plan is within the planner's numbers. */
  lemma StrandedHasPlan(x: real, betas: seq<real>)
    requires x >= 0.0 && !Orderly(x) && |betas| == Stranded(x).stocks
    ensures Accepted(Stranded(x)) && IsPlan(Stranded(x), [], StrandedEnd(x), StrandedCash(x))
    ensures WithinLimits(Stranded(x), betas, StrandedEnd(x), StrandedCash(x))
  {
    StrandedAccepted(x);
    if x < 0.5 {
      BesideHasPlan(x);
    } else {
      AloneHasPlan(x);
    }
    StrandedWithin(x, betas);
  }

  lemma BesideHasPlan(x: real)
    requires 0.0 <= x < 0.5 && !Orderly(x)
    ensures Accepted(Beside(x)) && IsPlan(Beside(x), [], [0.0, 1.0], x)
  {
    var a := Beside(x);
    BesideAccepted(x);
    NearestWhole(x);
    WorthTwo(x, 1.0);
    WorthTwo(0.0, 1.0);
    WholeZero();
    assert Whole(1.0) by {
      assert 1.0 == Shares(1);
    }
    hide Accepted, Desired, Whole;
    assert KeptAt(a, 0.0, 0) && KeptAt(a, 1.0, 1);
  }

  lemma AloneHasPlan(x: real)
    requires x >= 0.5 && !Orderly(x) && Accepted(Stranded(x))
    ensures IsPlan(Stranded(x), [], [Nearest(x)], StrandedCash(x))
  {
    var a := Stranded(x);
    StrandedAccepted(x);
    NearestWhole(x);
    WorthOne(Nearest(x));
    WorthOne(x);
    hide Accepted, Desired, Whole;
    assert KeptAt(a, Nearest(x), 0);
  }

  lemma StrandedWithin(x: real, betas: seq<real>)
    requires x >= 0.0 && !Orderly(x) && Accepted(Stranded(x)) && |betas| == Stranded(x).stocks
    ensures WithinLimits(Stranded(x), betas, StrandedEnd(x), StrandedCash(x))
  {
    var a, end := Stranded(x), StrandedEnd(x);
    NonNegativeQuotient(StrandedCash(x), a.equity);
    RatioWithin(end[a.stocks], a.equity);
    hide Accepted, Orderly;
    assert Weight(a, end, a.stocks) == end[a.stocks] / a.equity;
    if x < 0.5 {
      assert Weight(a, end, 0) == 0.0;
      assert StockWeight(a, end, 1) == StockWeight(a, end, 0) + Weight(a, end, 0) == 0.0;
      assert StockBeta(a, betas, end, 1) == StockBeta(a, betas, end, 0) + betas[0] * Weight(a, end, 0) == 0.0;
    }
  }

  lemma RatioWithin(p: real, e: real)
    requires e > 0.0 && 0.8 * e <= p <= 1.1 * e
    ensures 0.8 <= p / e <= 1.1
  {
    var r := p / e;
    assert r * e == p;
    assert (r - 0.8) * e >= 0.0 && (1.1 - r) * e >= 0.0;
  }

  /** A holding that is not orderly has an accepted account whose every plan misses it. */
  lemma StrandedIsMissed(x: real, orders: seq<Order>, projected: seq<real>, cash: real)
    requires x >= 0.0 && !Orderly(x) && Accepted(Stranded(x)) && IsPlan(Stranded(x), orders, projected, cash)
    ensures |Stranded(x).current| == |projected| >= 1 && !Reaches(Stranded(x), orders, projected, 0)
  {
    StrandedAccepted(x);
    hide Accepted, Desired, Orders, Orderly;
    StrandedProjects(x, projected, cash);
    NearestWhole(x);
    OrdersReachProjection(Stranded(x), orders, projected, 0);
  }

  ghost predicate AlwaysReached(x: real) {
    forall a, betas, orders, projected, cash, i: nat |
      Accepted(a) && i <= a.stocks && a.current[i] == x && IsPlan(a, orders, projected, cash) && WithinLimits(a, betas, projected, cash) ::
      Reaches(a, orders, projected, i)
  }

  /** The holdings that every accepted plan within the limits reaches exactly are the orderly ones. */
  lemma ReachedIffOrderly(x: real)
    requires x >= 0.0
    ensures AlwaysReached(x) <==> Orderly(x)
  {
    hide IsPlan, Reaches, Orderly, WithinLimits;
    if Orderly(x) {
      forall a, orders, projected, cash, i: nat | Accepted(a) && i <= a.stocks && a.current[i] == x && IsPlan(a, orders, projected, cash)
        ensures Reaches(a, orders, projected, i)
      {
        OrderlyIsReached(a, orders, projected, cash, i);
      }
    } else {
      var betas := seq(Stranded(x).stocks, i => 1.0);
      StrandedAccepted(x);
      StrandedHasPlan(x, betas);
      StrandedIsMissed(x, [], StrandedEnd(x), StrandedCash(x));
      assert !Reaches(Stranded(x), [], StrandedEnd(x), 0);
    }
  }

  lemma {:induction false} NetConcat(left: seq<Order>, right: seq<Order>, name: nat)
    ensures Net(left + right, name) == Net(left, name) + Net(right, name)
  {
    if right == [] {
      assert left + right == left;
    } else {
      var last := |right| - 1;
      NetConcat(left, right[..last], name);
      assert (left + right)[..|left + right| - 1] == left + right[..last];
    }
  }

  /** The exits of names still held, sold in full. */
  ghost predicate ExitsOnly(a: Inputs, orders: seq<Order>, n: nat)
    requires n <= |a.current|
  {
    && (forall j | 0 <= j < |orders| :: orders[j].side.Sell? && orders[j].role.Exit? && orders[j].name in a.exits && orders[j].name < n)
    && (forall i: nat :: Net(orders, i) == if i < n && i in a.exits then -a.current[i] else 0.0)
  }

  lemma ExitStep(a: Inputs, orders: seq<Order>, i: nat)
    requires i < |a.current| && ExitsOnly(a, orders, i) && i in a.exits
    ensures ExitsOnly(a, orders + [Order(i, Sell, a.current[i], Exit)], i + 1)
  {
    hide Net;
    forall name: nat
      ensures Net(orders + [Order(i, Sell, a.current[i], Exit)], name) == Net(orders, name) + if i != name then 0.0 else -a.current[i]
    {
      NetAppend(orders, Order(i, Sell, a.current[i], Exit), name);
    }
  }

  lemma NoExitStep(a: Inputs, orders: seq<Order>, i: nat)
    requires i < |a.current| && ExitsOnly(a, orders, i) && (i in a.exits ==> a.current[i] == 0.0)
    ensures ExitsOnly(a, orders, i + 1)
  {
    hide Net;
  }

  method MandatoryExits(a: Inputs) returns (orders: seq<Order>)
    requires Accepted(a)
    ensures |a.current| == a.stocks + 1 && ExitsOnly(a, orders, a.stocks)
  {
    AcceptedAt(a, a.stocks);
    orders := [];
    assert ExitsOnly(a, orders, 0);
    hide ExitsOnly, Net;
    for i := 0 to a.stocks
      invariant ExitsOnly(a, orders, i)
    {
      AcceptedAt(a, i);
      hide Accepted;
      if i in a.exits && a.current[i] > 0.0 {
        ExitStep(a, orders, i);
        orders := orders + [Order(i, Sell, a.current[i], Exit)];
      } else {
        NoExitStep(a, orders, i);
      }
    }
  }

  /** What each name wants to buy. */
  method Wants(a: Inputs) returns (purchases: array<real>)
    requires Accepted(a)
    ensures fresh(purchases) && purchases.Length == a.stocks + 1
    ensures forall i: nat | i <= a.stocks :: purchases[i] == Wanted(a, i) >= 0.0
  {
    hide Accepted, Wanted;
    purchases := new real[a.stocks + 1];
    var i := 0;
    while i <= a.stocks
      invariant 0 <= i <= a.stocks + 1
      invariant forall k: nat | k < i :: purchases[k] == Wanted(a, k) >= 0.0
    {
      DesiredFacts(a, i);
      purchases[i] := Wanted(a, i);
      i := i + 1;
    }
  }

  lemma WorthStep(q: seq<real>, p: seq<real>, i: nat)
    requires |q| == |p| && i < |q|
    ensures Worth(q[..i + 1], p[..i + 1]) == Worth(q[..i], p[..i]) + q[i] * p[i]
  {
    assert q[..i + 1][..i] == q[..i] && p[..i + 1][..i] == p[..i];
  }

  lemma {:induction false} WorthNonNegative(q: seq<real>, p: seq<real>)
    requires |q| == |p| && forall i | 0 <= i < |q| :: q[i] >= 0.0 && p[i] >= 0.0
    ensures Worth(q, p) >= 0.0
  {
    if q != [] {
      WorthNonNegative(q[..|q| - 1], p[..|p| - 1]);
      NonNegativeProduct(q[|q| - 1], p[|p| - 1]);
    }
  }

  lemma SoldWorth(a: Inputs)
    requires Accepted(a)
    ensures Worth(SoldSeq(a), a.prices) >= 0.0
  {
    forall i: nat | i <= a.stocks
      ensures Sold(a, i) >= 0.0 && a.prices[i] >= 0.0
    {
      DesiredFacts(a, i);
      AcceptedAt(a, i);
    }
    WorthNonNegative(SoldSeq(a), a.prices);
  }

  method Value(q: seq<real>, p: seq<real>) returns (total: real)
    requires |q| == |p|
    ensures total == Worth(q, p)
  {
    total := 0.0;
    var i := 0;
    while i < |q|
      invariant 0 <= i <= |q|
      invariant total == Worth(q[..i], p[..i])
    {
      WorthStep(q, p, i);
      total := total + q[i] * p[i];
      i := i + 1;
    }
    assert q[..i] == q && p[..i] == p;
  }

  /** Holdings after sells and purchases. */
  method Project(a: Inputs, purchases: array<real>) returns (projected: array<real>)
    requires Accepted(a) && purchases.Length == a.stocks + 1
    ensures fresh(projected) && projected.Length == a.stocks + 1
    ensures |a.current| == a.stocks + 1
    ensures forall i: nat | i <= a.stocks :: projected[i] == a.current[i] - Sold(a, i) + purchases[i]
  {
    AcceptedAt(a, a.stocks);
    hide Accepted, Sold;
    projected := new real[a.stocks + 1];
    var i := 0;
    while i <= a.stocks
      invariant 0 <= i <= a.stocks + 1
      invariant forall k: nat | k < i :: projected[k] == a.current[k] - Sold(a, k) + purchases[k]
    {
      projected[i] := a.current[i] - Sold(a, i) + purchases[i];
      i := i + 1;
    }
  }

  /** Pay for purchases out of cash and sells. */
  method Funded(a: Inputs) returns (purchases: array<real>, projected: array<real>, cash: real)
    requires Accepted(a)
    ensures fresh(purchases) && fresh(projected) && purchases != projected
    ensures Balanced(a, purchases[..], projected[..], cash) && ByAlpha(a, purchases[..])
    ensures projected.Length == a.stocks + 1 && FundedBooks(a, purchases[..], projected[..], cash)
  {
    AcceptedAt(a, a.stocks);
    AcceptedAlpha(a);
    SoldWorth(a);
    OrdersCover(a.alpha);
    hide Accepted, Wanted, Sold, Balanced, Covers, FundingOrder, WellFunded, ByAlpha, Positive;
    purchases := Wants(a);
    var raised := Value(SoldSeq(a), a.prices);
    raised := a.cash + raised;
    ghost var wanted := purchases[..];
    assert wanted == WantedSeq(a);
    cash := Fund(purchases, a.prices, FundingOrder(a.alpha), raised);
    projected := Project(a, purchases);
    StartBalances(a, wanted, purchases[..], projected[..], FundingOrder(a.alpha), raised, cash);
    FundedByAlpha(a, purchases[..], raised, cash);
    WellFundedBooks(a, purchases[..], projected[..], raised, cash);
  }

  /** What Opening reinvests. */
  ghost predicate FundedBooks(a: Inputs, funded: seq<real>, projected: seq<real>, cash: real)
    requires Accepted(a)
  {
    && |funded| == |projected| == a.stocks + 1
    && (forall i: nat | i <= a.stocks :: projected[i] == a.current[i] - Sold(a, i) + funded[i])
    && cash == a.cash + Worth(SoldSeq(a), a.prices) - Worth(funded, a.prices)
  }

  lemma OpeningIs(a: Inputs, funded: seq<real>, projected: seq<real>, cash: real)
    requires Accepted(a) && FundedBooks(a, funded, projected, cash)
    ensures Sized(a, Books(funded, projected, cash)) && Opening(a, funded) == Reinvested(a, Books(funded, projected, cash))
  {
    AcceptedAt(a, a.stocks);
    hide Accepted, Sold, Reinvested;
    assert projected == seq(a.stocks + 1, i requires 0 <= i <= a.stocks => a.current[i] - Sold(a, i) + funded[i]);
  }

  lemma WellFundedBooks(a: Inputs, purchases: seq<real>, projected: seq<real>, raised: real, cash: real)
    requires Accepted(a) && |a.alpha| == a.stocks && |projected| == a.stocks + 1 && raised == a.cash + Worth(SoldSeq(a), a.prices)
    requires WellFunded(WantedSeq(a), purchases, a.prices, FundingOrder(a.alpha), raised, cash)
    requires forall i: nat | i <= a.stocks :: projected[i] == a.current[i] - Sold(a, i) + purchases[i]
    ensures FundedBooks(a, purchases, projected, cash)
  {
    AcceptedAt(a, a.stocks);
    hide Accepted, Sold, Cut, Prioritised, InRange, Positive, SpyBought;
  }

  lemma FundedByAlpha(a: Inputs, purchases: seq<real>, raised: real, cash: real)
    requires Accepted(a) && |a.alpha| == a.stocks && raised == a.cash + Worth(SoldSeq(a), a.prices)
    requires WellFunded(WantedSeq(a), purchases, a.prices, FundingOrder(a.alpha), raised, cash)
    ensures ByAlpha(a, purchases)
  {
    hide Accepted, Cut, Prioritised, InRange, Positive, SpyBought;
    PositiveAt(a.prices, a.stocks);
  }

  /** Everything but the orders: fund, reinvest, repair. */
  method Allocate(a: Inputs, invalid: (seq<real>, real) -> bool)
      returns (projected: array<real>, cash: real, bad: bool, ghost funded: seq<real>, k: nat)
    requires Accepted(a)
    ensures fresh(projected) && projected.Length == a.stocks + 1
    ensures Kept(a, projected[..], cash) && bad == invalid(projected[..], cash)
    ensures ByAlpha(a, funded) && Chosen(a, projected[..], funded, k)
    ensures exists bought :: RestsAt(a, invalid, funded, k, Books(bought, projected[..], cash))
  {
    AcceptedAt(a, a.stocks);
    AcceptedAlpha(a);
    OrdersCover(a.alpha);
    hide Accepted, Balanced, Covers, RepairOrder, FundingOrder, Kept, Dropped, ByAlpha, Chosen, Opening, Reinvested, FundedBooks, StopsAt, InOrder, Sized;
    var purchases;
    purchases, projected, cash := Funded(a);
    BalancedSizes(a, purchases[..], projected[..], cash);
    funded := purchases[..];
    OpeningIs(a, funded, projected[..], cash);
    cash := Reinvest(a, purchases, projected, cash);
    ghost var mid := purchases[..];
    cash, bad, k := Repair(a, purchases, projected, RepairOrder(a.alpha), cash, invalid);
    BalancedKept(a, purchases[..], projected[..], cash);
    BalancedSizes(a, purchases[..], projected[..], cash);
    ChosenFrom(a, funded, mid, purchases[..], projected[..], cash, k);
    assert RestsAt(a, invalid, funded, k, Books(purchases[..], projected[..], cash));
  }

  lemma BalancedSizes(a: Inputs, purchases: seq<real>, projected: seq<real>, cash: real)
    requires Accepted(a) && Balanced(a, purchases, projected, cash)
    ensures |purchases| == |projected| == a.stocks + 1
  {
  }

  lemma AcceptedAlpha(a: Inputs)
    requires Accepted(a)
    ensures |a.alpha| == a.stocks && Positive(a.prices)
  {
  }

  /** The plan. `slot` is how many tickers sort before SPY; `invalid` judges a rounded plan. */
  method PlanWholeShares(a: Inputs, slot: nat, invalid: (seq<real>, real) -> bool) returns (r: Result<Plan>)
    requires slot <= a.stocks
    ensures r.Err? <==> !Accepted(a)
    ensures r.Ok? && r.value.Planned? ==>
      && Kept(a, r.value.projected, r.value.cash) && OnTarget(a, r.value.projected) && !invalid(r.value.projected, r.value.cash)
      && Orders(a, r.value.orders, r.value.projected) && InTickerOrder(r.value.orders, a.stocks, slot)
      && exists funded: seq<real>, k: nat :: ByAlpha(a, funded) && Chosen(a, r.value.projected, funded, k)
    ensures r.Ok? && r.value.Infeasible? ==>
      ExitsOnly(a, r.value.orders, a.stocks) && exists q, c :: Kept(a, q, c) && invalid(q, c)
    ensures r.Ok? ==> exists funded, k, end :: RestsAt(a, invalid, funded, k, end) && Delivers(invalid, end, r.value)
  {
    hide Kept, Accepted, ByAlpha, Chosen, RestsAt, OnTarget;
    if !Accepted(a) {
      return Err;
    }
    AcceptedAt(a, a.stocks);
    var projected, cash, bad, funded, k := Allocate(a, invalid);
    ghost var bought :| RestsAt(a, invalid, funded, k, Books(bought, projected[..], cash));
    if bad {
      var exits := MandatoryExits(a);
      return Ok(Infeasible(exits));
    }
    KeptIsOnTarget(a, projected[..], cash);
    AlphabeticalCovers(a.stocks, slot);
    var names := Alphabetical(a.stocks, slot);
    var sells := SideOrders(a, projected, names, slot, Sell);
    var buys := SideOrders(a, projected, names, slot, Buy);
    SideAll(sells, a, projected[..], names, Sell);
    SideAll(buys, a, projected[..], names, Buy);
    OrdersJoin(a, sells, buys, projected[..]);
    TickerOrderJoins(a, sells, buys, slot);
    r := Ok(Planned(sells + buys, projected[..], cash));
  }

  /** Where the repair rests is the plan, or the reason there is none. */
  ghost predicate Delivers(invalid: (seq<real>, real) -> bool, end: Books, plan: Plan) {
    if invalid(end.projected, end.cash) then plan.Infeasible?
    else plan.Planned? && plan.projected == end.projected && plan.cash == end.cash
  }

  lemma OrdersJoin(a: Inputs, sells: seq<Order>, buys: seq<Order>, projected: seq<real>)
    requires |projected| == |a.current| == a.stocks + 1
    requires forall j | 0 <= j < |sells| :: WellFormed(a, sells[j], Sell)
    requires forall j | 0 <= j < |buys| :: WellFormed(a, buys[j], Buy)
    requires forall i: nat | i <= a.stocks ::
      var change := projected[i] - a.current[i]; Net(sells, i) == if !Negligible(change) && change <= 0.0 then change else 0.0
    requires forall i: nat | i <= a.stocks ::
      var change := projected[i] - a.current[i]; Net(buys, i) == if !Negligible(change) && change > 0.0 then change else 0.0
    ensures Orders(a, sells + buys, projected)
  {
    forall i: nat | i <= a.stocks
      ensures Net(sells + buys, i) == Net(sells, i) + Net(buys, i)
    {
      NetConcat(sells, buys, i);
    }
  }

  lemma TickerOrderJoins(a: Inputs, sells: seq<Order>, buys: seq<Order>, slot: nat)
    requires InTickerOrder(sells, a.stocks, slot) && InTickerOrder(buys, a.stocks, slot)
    requires forall j | 0 <= j < |sells| :: WellFormed(a, sells[j], Sell)
    requires forall j | 0 <= j < |buys| :: WellFormed(a, buys[j], Buy)
    ensures InTickerOrder(sells + buys, a.stocks, slot)
  {
    hide Place;
  }

  // ----- there is one plan -----

  lemma {:induction false} ServedAlike(wanted: seq<real>, f: seq<real>, g: seq<real>, prices: seq<real>, order: seq<nat>, cash: real, k: nat)
    requires |wanted| == |f| == |g| == |prices| == |order| + 1 && k <= |order| && InRange(order) && Positive(prices)
    requires f[|order|] == g[|order|]
    requires Prioritised(wanted, f, prices, order, cash, |order|) && Prioritised(wanted, g, prices, order, cash, |order|)
    ensures forall j | 0 <= j < k :: f[order[j]] == g[order[j]]
  {
    hide Bought, Prioritised, Cost, Positive;
    if k > 0 {
      ServedAlike(wanted, f, g, prices, order, cash, k - 1);
      SpentFrame(f, g, prices, order, k - 1);
      PriorityAt(wanted, f, prices, order, cash, |order|, k - 1);
      PriorityAt(wanted, g, prices, order, cash, |order|, k - 1);
    }
  }

  lemma ByAlphaParts(a: Inputs, f: seq<real>, order: seq<nat>, wanted: seq<real>, raised: real)
    requires Accepted(a) && ByAlpha(a, f)
    requires order == FundingOrder(a.alpha) && wanted == WantedSeq(a) && raised == a.cash + Worth(SoldSeq(a), a.prices)
    ensures |f| == |wanted| == |a.prices| == |order| + 1 == a.stocks + 1 && InRange(order) && Positive(a.prices) && a.prices[a.stocks] > 0.0
    ensures Covers(order, a.stocks)
    ensures f[a.stocks] == SpyBought(wanted[a.stocks], a.prices[a.stocks], raised)
    ensures Prioritised(wanted, f, a.prices, order, raised, |order|)
  {
    AcceptedAt(a, a.stocks);
    OrdersCover(a.alpha);
    hide Accepted, Prioritised, SpyBought, InRange, Covers, Sold, Wanted, FundingOrder;
  }

  lemma FundedIsUnique(a: Inputs, f: seq<real>, g: seq<real>)
    requires Accepted(a) && ByAlpha(a, f) && ByAlpha(a, g)
    ensures f == g
  {
    AcceptedAt(a, a.stocks);
    var order, wanted, raised := FundingOrder(a.alpha), WantedSeq(a), a.cash + Worth(SoldSeq(a), a.prices);
    ByAlphaParts(a, f, order, wanted, raised);
    ByAlphaParts(a, g, order, wanted, raised);
    CoversInOrder(order, a.stocks);
    hide *;
    ServedAlike(wanted, f, g, a.prices, order, raised, |order|);
    SameAlong(order, a.stocks, f, g);
  }

  lemma SameAlong(order: seq<nat>, n: nat, f: seq<real>, g: seq<real>)
    requires Covers(order, n) && |f| == |g| == n + 1 && f[n] == g[n] && InOrder(order, n)
    requires forall j | 0 <= j < |order| :: f[order[j]] == g[order[j]]
    ensures f == g
  {
    forall i: nat | i < n
      ensures f[i] == g[i]
    {
      assert i in order;
    }
  }

  /** The accepted inputs and the limits determine where the repair rests, so there is one plan. */
  lemma PlanIsDetermined(a: Inputs, invalid: (seq<real>, real) -> bool, f: seq<real>, j: nat, b: Books, g: seq<real>, k: nat, c: Books)
    requires Accepted(a) && RestsAt(a, invalid, f, j, b) && RestsAt(a, invalid, g, k, c)
    ensures f == g && j == k && b == c
  {
    FundedIsUnique(a, f, g);
    hide Accepted, StopsAt, Opening, RepairOrder, InOrder, Prioritised;
    StopIsUnique(a, RepairOrder(a.alpha), Opening(a, f), invalid, j, k);
  }
}
