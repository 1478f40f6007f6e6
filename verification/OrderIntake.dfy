/** Order intake of the paper accounts: idempotent admission of trade intents under capacity and
    contingency rules, at fixed marks, positions and cash. An intent's digest is the intent. */
module OrderIntake {
  import opened Options
  import opened Arithmetic

  datatype Side = Buy | Sell | Short | Cover

  datatype OrderType = Moo | Market | Limit | Moc | NextOpen

  /** `rest` is the remaining evidence of the envelope. */
  datatype Intent = Intent(
    id: string, account: string, ticker: string, side: Side, quantity: real, session: int,
    orderType: OrderType, contingentOn: Option<string>, rest: string)

  datatype Spec = Spec(version: nat, allowShort: bool, minTrade: real, maxGross: real, maxPosition: real)

  /** A pending order; its id is its place. Version-1 orders have no details. */
  datatype Order = Order(
    account: string, ticker: string, side: Side, qty: real, session: int, details: Option<OrderType>, parent: Option<nat>)

  datatype Intake = Intake(order: nat, intent: Intent)

  datatype Position = Position(ticker: string, qty: real)

  /** A mark is a positive price. */
  type Mark = mark: string -> real | forall t :: mark(t) > 0.0 witness (t => 1.0)

  /** What submissions do not change. `admissible` stands for the clock, identity, status and
      instrument checks of the envelope. */
  datatype Env = Env(
    mark: Mark, positions: string -> seq<Position>, cash: string -> real,
    specs: string -> Option<Spec>, admissible: Intent -> bool)

  datatype Book = Book(orders: seq<Order>, intakes: map<string, Intake>)

  const EMPTY := Book([], map[])

  predicate Opens(side: Side) {
    side.Buy? || side.Short?
  }

  function Abs(x: real): real {
    if x < 0.0 then -x else x
  }

  // ----- exposure -----

  function Held(positions: seq<Position>, ticker: string): real {
    if positions == [] then 0.0 else
    if positions[|positions| - 1].ticker == ticker then positions[|positions| - 1].qty else Held(positions[..|positions| - 1], ticker)
  }

  function NetValue(mark: Mark, positions: seq<Position>): real {
    if positions == [] then 0.0 else
    var last := positions[|positions| - 1];
    NetValue(mark, positions[..|positions| - 1]) + last.qty * mark(last.ticker)
  }

  function GrossValue(mark: Mark, positions: seq<Position>): real {
    if positions == [] then 0.0 else
    var last := positions[|positions| - 1];
    GrossValue(mark, positions[..|positions| - 1]) + Abs(last.qty * mark(last.ticker))
  }

  function Equity(env: Env, account: string): real {
    env.cash(account) + NetValue(env.mark, env.positions(account))
  }

  function Reservation(mark: Mark, order: Order): real {
    if Opens(order.side) then Abs(order.qty * mark(order.ticker)) else 0.0
  }

  /** Reserved by the account's pending orders, in all and on one ticker. */
  function Reserved(mark: Mark, orders: seq<Order>, account: string): real {
    if orders == [] then 0.0 else
    var last := orders[|orders| - 1];
    Reserved(mark, orders[..|orders| - 1], account) + if last.account == account then Reservation(mark, last) else 0.0
  }

  function ReservedOn(mark: Mark, orders: seq<Order>, account: string, ticker: string): real {
    if orders == [] then 0.0 else
    var last := orders[|orders| - 1];
    ReservedOn(mark, orders[..|orders| - 1], account, ticker)
    + if last.account == account && last.ticker == ticker then Reservation(mark, last) else 0.0
  }

  function Gross(env: Env, orders: seq<Order>, account: string): real {
    GrossValue(env.mark, env.positions(account)) + Reserved(env.mark, orders, account)
  }

  function HeldValue(env: Env, account: string, ticker: string): real {
    Abs(Held(env.positions(account), ticker) * env.mark(ticker))
  }

  function NameExposure(env: Env, orders: seq<Order>, account: string, ticker: string): real {
    HeldValue(env, account, ticker) + ReservedOn(env.mark, orders, account, ticker)
  }

  function GrossLimit(env: Env, spec: Spec, account: string): real {
    Equity(env, account) * spec.maxGross
  }

  function NameLimit(env: Env, spec: Spec, account: string): real {
    Equity(env, account) * spec.maxPosition
  }

  function Requested(mark: Mark, intent: Intent): real {
    intent.quantity * mark(intent.ticker)
  }

  // ----- admission -----

  predicate Duplicate(orders: seq<Order>, account: string, ticker: string, side: Side) {
    exists i | 0 <= i < |orders| :: orders[i].account == account && orders[i].ticker == ticker && orders[i].side == side
  }

  function Phase(t: OrderType): nat {
    match t
    case Moo => 0
    case Market => 1
    case Limit => 1
    case Moc => 2
    case NextOpen => 3
  }

  /** The parent may carry this child. */
  predicate Carries(parent: Order, intent: Intent) {
    && parent.account == intent.account && parent.ticker == intent.ticker && parent.session == intent.session
    && ((intent.side.Sell? && parent.side.Buy?) || (intent.side.Cover? && parent.side.Short?))
    && parent.details.Some? && intent.quantity <= parent.qty
    && Phase(parent.details.value) <= Phase(intent.orderType)
    && !(parent.details.value.Limit? && intent.orderType.Market?)
  }

  /** The order a contingent intent hangs on; an error when there is no fit parent. */
  function ParentOf(book: Book, spec: Spec, intent: Intent): Result<Option<nat>> {
    if spec.version != 2 || intent.contingentOn.None? then Ok(None)
    else if intent.contingentOn.value !in book.intakes then Err
    else
      var p := book.intakes[intent.contingentOn.value].order;
      if p < |book.orders| && Carries(book.orders[p], intent) then Ok(Some(p)) else Err
  }

  predicate WithinLimits(env: Env, spec: Spec, orders: seq<Order>, intent: Intent) {
    var requested := Requested(env.mark, intent);
    && requested >= spec.minTrade
    && (spec.version == 1 ==> requested + Reserved(env.mark, orders, intent.account) <= env.cash(intent.account))
    && Gross(env, orders, intent.account) + requested <= GrossLimit(env, spec, intent.account)
    && NameExposure(env, orders, intent.account, intent.ticker) + requested <= NameLimit(env, spec, intent.account)
  }

  predicate Capacity(env: Env, spec: Spec, orders: seq<Order>, intent: Intent, parent: Option<nat>) {
    && !Duplicate(orders, intent.account, intent.ticker, intent.side)
    && (parent.Some? ||
        var held := Held(env.positions(intent.account), intent.ticker);
        match intent.side
        case Sell => intent.quantity <= held
        case Cover => intent.quantity <= -held
        case _ => WithinLimits(env, spec, orders, intent))
  }

  /** The envelope's own rules that the capacity rules rely on. */
  predicate EnvelopeOk(env: Env, spec: Spec, intent: Intent) {
    && env.admissible(intent) && intent.quantity > 0.0
    && (spec.version == 1 ==> intent.side.Buy? || intent.side.Sell?)
    && (intent.side.Short? ==> spec.allowShort)
  }

  function NewOrder(spec: Spec, intent: Intent, parent: Option<nat>): Order {
    Order(intent.account, intent.ticker, intent.side, intent.quantity, intent.session,
          if spec.version == 2 then Some(intent.orderType) else None, parent)
  }

  predicate Retained(book: Book, intent: Intent)
    requires intent.id in book.intakes
  {
    var kept := book.intakes[intent.id];
    && kept.intent == intent && kept.order < |book.orders|
    && var o := book.orders[kept.order];
       (o.account, o.ticker, o.side, o.qty, o.session) == (intent.account, intent.ticker, intent.side, intent.quantity, intent.session)
  }

  /** The book after one submission and the order the reply names, an error when refused. */
  function Submitted(env: Env, book: Book, intent: Intent): (Book, Result<nat>) {
    var spec := env.specs(intent.account);
    if spec.None? then (book, Err)
    else if intent.id in book.intakes then (book, if Retained(book, intent) then Ok(book.intakes[intent.id].order) else Err)
    else if !EnvelopeOk(env, spec.value, intent) then (book, Err)
    else
      var parent := ParentOf(book, spec.value, intent);
      if parent.Err? || !Capacity(env, spec.value, book.orders, intent, parent.value) then (book, Err)
      else (Book(book.orders + [NewOrder(spec.value, intent, parent.value)],
                 book.intakes[intent.id := Intake(|book.orders|, intent)]), Ok(|book.orders|))
  }

  // ----- the invariant -----

  ghost predicate OnePerLeg(orders: seq<Order>) {
    forall i, j | 0 <= i < j < |orders| ::
      !(orders[i].account == orders[j].account && orders[i].ticker == orders[j].ticker && orders[i].side == orders[j].side)
  }

  /** Every account and name with a pending opening order is within its limits, and the order
      is worth at least the minimum trade. */
  ghost predicate Limited(env: Env, orders: seq<Order>, i: nat)
    requires i < |orders|
  {
    var o := orders[i];
    var spec := env.specs(o.account);
    spec.Some? && o.qty > 0.0 && (Opens(o.side) ==>
      && Gross(env, orders, o.account) <= GrossLimit(env, spec.value, o.account)
      && NameExposure(env, orders, o.account, o.ticker) <= NameLimit(env, spec.value, o.account)
      && (spec.value.version == 1 ==> Reserved(env.mark, orders, o.account) <= env.cash(o.account))
      && Reservation(env.mark, o) >= spec.value.minTrade)
  }

  /** A closing order without a parent is backed by the holding. */
  ghost predicate Covered(env: Env, orders: seq<Order>, i: nat)
    requires i < |orders|
  {
    var o := orders[i];
    var held := Held(env.positions(o.account), o.ticker);
    (o.parent.None? && o.side.Sell? ==> o.qty <= held) && (o.parent.None? && o.side.Cover? ==> o.qty <= -held)
  }

  /** A parent is an earlier opening order of the same leg and session, at least as large, without
      a parent of its own; opening orders have none. */
  ghost predicate Hangs(orders: seq<Order>, i: nat)
    requires i < |orders|
  {
    var o := orders[i];
    && (o.parent.Some? ==>
        && o.parent.value < i && var p := orders[o.parent.value];
           && p.parent.None? && ((p.side.Buy? && o.side.Sell?) || (p.side.Short? && o.side.Cover?))
           && p.account == o.account && p.ticker == o.ticker && p.session == o.session && o.qty <= p.qty)
    && (Opens(o.side) ==> o.parent.None?)
  }

  ghost predicate Backed(env: Env, orders: seq<Order>, i: nat)
    requires i < |orders|
  {
    Covered(env, orders, i) && Hangs(orders, i)
  }

  /** Intakes and orders correspond one to one. */
  ghost predicate Bound(book: Book) {
    && (forall id | id in book.intakes :: book.intakes[id].intent.id == id && Retained(book, book.intakes[id].intent))
    && (forall a, b | a in book.intakes && b in book.intakes && a != b :: book.intakes[a].order != book.intakes[b].order)
    && |book.intakes| == |book.orders|
  }

  ghost predicate Sound(env: Env, book: Book) {
    && OnePerLeg(book.orders)
    && (forall i: nat | i < |book.orders| :: Limited(env, book.orders, i))
    && (forall i: nat | i < |book.orders| :: Backed(env, book.orders, i))
    && Bound(book)
  }

  lemma EmptyIsSound(env: Env)
    ensures Sound(env, EMPTY)
  {
  }

  lemma Appended(mark: Mark, orders: seq<Order>, o: Order, account: string, ticker: string)
    ensures Reserved(mark, orders + [o], account) == Reserved(mark, orders, account) + if o.account == account then Reservation(mark, o) else 0.0
    ensures ReservedOn(mark, orders + [o], account, ticker) ==
      ReservedOn(mark, orders, account, ticker) + if o.account == account && o.ticker == ticker then Reservation(mark, o) else 0.0
  {
    assert (orders + [o])[..|orders|] == orders;
  }

  lemma RequestIsReserved(mark: Mark, intent: Intent, o: Order)
    requires o.qty == intent.quantity > 0.0 && o.ticker == intent.ticker && Opens(o.side)
    ensures Reservation(mark, o) == Requested(mark, intent)
  {
    PositiveProduct(o.qty, mark(o.ticker), o.qty * mark(o.ticker));
  }

  /** The submission was accepted and added an order. */
  ghost predicate Accepts(env: Env, book: Book, intent: Intent, spec: Spec, parent: Option<nat>) {
    && env.specs(intent.account) == Some(spec) && intent.id !in book.intakes
    && EnvelopeOk(env, spec, intent) && ParentOf(book, spec, intent) == Ok(parent)
    && Capacity(env, spec, book.orders, intent, parent)
  }

  lemma LimitedBefore(env: Env, book: Book, intent: Intent, spec: Spec, parent: Option<nat>, i: nat)
    requires Accepts(env, book, intent, spec, parent) && Sound(env, book) && i < |book.orders|
    ensures Limited(env, book.orders + [NewOrder(spec, intent, parent)], i)
  {
    hide GrossLimit, NameLimit, Requested, Reservation, HeldValue, Backed, Bound, ParentOf;
    var o, orders := NewOrder(spec, intent, parent), book.orders;
    var earlier := orders[i];
    assert Limited(env, orders, i);
    assert (orders + [o])[i] == earlier;
    Appended(env.mark, orders, o, earlier.account, earlier.ticker);
    ClosingReservesNothing(env.mark, o);
    if Opens(o.side) {
      RequestIsReserved(env.mark, intent, o);
      OpeningHasNoParent(book, spec, intent, parent);
    }
  }

  lemma ClosingReservesNothing(mark: Mark, o: Order)
    ensures !Opens(o.side) ==> Reservation(mark, o) == 0.0
  {
  }

  lemma OpeningHasNoParent(book: Book, spec: Spec, intent: Intent, parent: Option<nat>)
    requires ParentOf(book, spec, intent) == Ok(parent)
    ensures Opens(intent.side) ==> parent.None?
  {
  }

  lemma LimitedNew(env: Env, book: Book, intent: Intent, spec: Spec, parent: Option<nat>)
    requires Accepts(env, book, intent, spec, parent)
    ensures Limited(env, book.orders + [NewOrder(spec, intent, parent)], |book.orders|)
  {
    hide GrossLimit, NameLimit, Requested, Reservation, HeldValue, ParentOf;
    var o, orders := NewOrder(spec, intent, parent), book.orders;
    assert (orders + [o])[|orders|] == o;
    Appended(env.mark, orders, o, o.account, o.ticker);
    if Opens(o.side) {
      RequestIsReserved(env.mark, intent, o);
      OpeningHasNoParent(book, spec, intent, parent);
    }
  }

  lemma HangsStep(env: Env, book: Book, intent: Intent, spec: Spec, parent: Option<nat>, i: nat)
    requires Accepts(env, book, intent, spec, parent) && i <= |book.orders|
    requires forall k: nat | k < |book.orders| :: Hangs(book.orders, k)
    ensures Hangs(book.orders + [NewOrder(spec, intent, parent)], i)
  {
    hide WithinLimits;
    var o, orders := NewOrder(spec, intent, parent), book.orders;
    if i < |orders| {
      assert Hangs(orders, i) && (orders + [o])[i] == orders[i];
    } else {
      assert (orders + [o])[i] == o;
      if parent.Some? {
        assert Hangs(orders, parent.value);
      }
    }
  }

  lemma CoveredNew(env: Env, book: Book, intent: Intent, spec: Spec, parent: Option<nat>)
    requires Accepts(env, book, intent, spec, parent)
    ensures Covered(env, book.orders + [NewOrder(spec, intent, parent)], |book.orders|)
  {
    hide WithinLimits, ParentOf;
    assert (book.orders + [NewOrder(spec, intent, parent)])[|book.orders|] == NewOrder(spec, intent, parent);
  }

  lemma CoveredBefore(env: Env, orders: seq<Order>, o: Order, i: nat)
    requires i < |orders| && Covered(env, orders, i)
    ensures Covered(env, orders + [o], i)
  {
    assert (orders + [o])[i] == orders[i];
  }

  lemma {:induction false} BoundStep(book: Book, intent: Intent, o: Order)
    requires Bound(book) && intent.id !in book.intakes
    requires (o.account, o.ticker, o.side, o.qty, o.session) == (intent.account, intent.ticker, intent.side, intent.quantity, intent.session)
    ensures Bound(Book(book.orders + [o], book.intakes[intent.id := Intake(|book.orders|, intent)]))
  {
    hide Retained;
    var after := Book(book.orders + [o], book.intakes[intent.id := Intake(|book.orders|, intent)]);
    assert after.intakes.Keys == book.intakes.Keys + {intent.id};
    forall id | id in after.intakes
      ensures after.intakes[id].intent.id == id && Retained(after, after.intakes[id].intent)
      ensures id != intent.id ==> after.intakes[id] == book.intakes[id] && book.intakes[id].order < |book.orders|
    {
      if id != intent.id {
        RetainedStays(book, after, book.intakes[id].intent);
        RetainedPlace(book, book.intakes[id].intent);
      } else {
        NewIsRetained(book, after, intent, o);
      }
    }
  }

  lemma RetainedStays(book: Book, after: Book, intent: Intent)
    requires intent.id in book.intakes && Retained(book, intent) && book.orders <= after.orders
    requires intent.id in after.intakes && after.intakes[intent.id] == book.intakes[intent.id]
    ensures Retained(after, intent)
  {
  }

  lemma NewIsRetained(book: Book, after: Book, intent: Intent, o: Order)
    requires intent.id in after.intakes && after.intakes[intent.id] == Intake(|book.orders|, intent) && after.orders == book.orders + [o]
    requires (o.account, o.ticker, o.side, o.qty, o.session) == (intent.account, intent.ticker, intent.side, intent.quantity, intent.session)
    ensures Retained(after, intent)
  {
    assert after.orders[|book.orders|] == o;
  }

  lemma RetainedPlace(book: Book, intent: Intent)
    requires intent.id in book.intakes && Retained(book, intent)
    ensures book.intakes[intent.id].order < |book.orders|
  {
  }

  /** Every submission keeps the book sound. */
  lemma SubmitKeepsSound(env: Env, book: Book, intent: Intent)
    requires Sound(env, book)
    ensures Sound(env, Submitted(env, book, intent).0)
  {
    hide Limited, Covered, Hangs, Bound, Capacity, EnvelopeOk, Retained, ParentOf;
    var after := Submitted(env, book, intent).0;
    if after != book {
      var spec := env.specs(intent.account).value;
      var parent := ParentOf(book, spec, intent).value;
      assert Accepts(env, book, intent, spec, parent);
      var o := NewOrder(spec, intent, parent);
      NotDuplicate(env, book, intent, spec, parent);
      BoundStep(book, intent, o);
      LimitedNew(env, book, intent, spec, parent);
      CoveredNew(env, book, intent, spec, parent);
      forall k: nat | k < |book.orders|
        ensures Covered(env, book.orders, k) && Hangs(book.orders, k)
      {
        assert Backed(env, book.orders, k);
      }
      forall i: nat | i < |after.orders|
        ensures Limited(env, after.orders, i) && Backed(env, after.orders, i)
      {
        HangsStep(env, book, intent, spec, parent, i);
        if i < |book.orders| {
          LimitedBefore(env, book, intent, spec, parent, i);
          CoveredBefore(env, book.orders, o, i);
        }
      }
    }
  }

  lemma NotDuplicate(env: Env, book: Book, intent: Intent, spec: Spec, parent: Option<nat>)
    requires Accepts(env, book, intent, spec, parent) && OnePerLeg(book.orders)
    ensures OnePerLeg(book.orders + [NewOrder(spec, intent, parent)])
  {
    hide WithinLimits, EnvelopeOk, ParentOf;
  }

  function Ran(env: Env, book: Book, intents: seq<Intent>): Book {
    if intents == [] then book else Submitted(env, Ran(env, book, intents[..|intents| - 1]), intents[|intents| - 1]).0
  }

  /** Over every run of submissions: one pending order per leg, limits kept by every opening
      order, closing orders backed or hanging one level deep, and one order per intake. */
  lemma {:induction false} RunStaysSound(env: Env, intents: seq<Intent>)
    ensures Sound(env, Ran(env, EMPTY, intents))
  {
    hide Sound, Submitted;
    if intents == [] {
      EmptyIsSound(env);
    } else {
      RunStaysSound(env, intents[..|intents| - 1]);
      SubmitKeepsSound(env, Ran(env, EMPTY, intents[..|intents| - 1]), intents[|intents| - 1]);
    }
  }

  // ----- when marks, positions and cash change between submissions -----

  /** What does not depend on marks, positions or cash. */
  ghost predicate Shaped(book: Book) {
    OnePerLeg(book.orders) && Bound(book) && forall i: nat | i < |book.orders| :: Hangs(book.orders, i)
  }

  lemma SubmitKeepsShape(env: Env, book: Book, intent: Intent)
    requires Shaped(book)
    ensures Shaped(Submitted(env, book, intent).0)
  {
    hide Hangs, Bound, Capacity, EnvelopeOk, Retained, ParentOf;
    var after := Submitted(env, book, intent).0;
    if after != book {
      var spec := env.specs(intent.account).value;
      var parent := ParentOf(book, spec, intent).value;
      NotDuplicate(env, book, intent, spec, parent);
      BoundStep(book, intent, NewOrder(spec, intent, parent));
      forall i: nat | i < |after.orders|
        ensures Hangs(after.orders, i)
      {
        HangsStep(env, book, intent, spec, parent, i);
      }
    }
  }

  /** Whatever the book and the moment, an order just admitted is within the limits of that moment
      or covered by its holdings. */
  lemma AdmittedWithinLimits(env: Env, book: Book, intent: Intent)
    requires Submitted(env, book, intent).0 != book
    ensures var after := Submitted(env, book, intent).0.orders;
      |after| == |book.orders| + 1 && Limited(env, after, |book.orders|) && Covered(env, after, |book.orders|)
  {
    hide Limited, Covered, Capacity, EnvelopeOk, Retained, ParentOf;
    var spec := env.specs(intent.account).value;
    var parent := ParentOf(book, spec, intent).value;
    LimitedNew(env, book, intent, spec, parent);
    CoveredNew(env, book, intent, spec, parent);
  }

  /** Nothing pending on the intent's account, ticker and side. */
  ghost predicate LegIsFree(orders: seq<Order>, intent: Intent) {
    forall i | 0 <= i < |orders| ::
      orders[i].account != intent.account || orders[i].ticker != intent.ticker || orders[i].side != intent.side
  }

  /** The order of another intake that the contingent intent may hang on. */
  ghost predicate HasParent(book: Book, intent: Intent, id: string) {
    && id in book.intakes && book.intakes[id].order < |book.orders|
    && var p := book.orders[book.intakes[id].order];
       && p.account == intent.account && p.ticker == intent.ticker && p.session == intent.session && intent.quantity <= p.qty
       && (if intent.side.Sell? then p.side.Buy? else intent.side.Cover? && p.side.Short?)
       && p.details.Some? && NoLater(p.details.value, intent.orderType)
  }

  /** A parent of the first type executes no later than a child of the second. */
  ghost predicate NoLater(parent: OrderType, child: OrderType) {
    match parent
    case Moo => true
    case Market => !child.Moo?
    case Limit => !child.Moo? && !child.Market?
    case Moc => child.Moc? || child.NextOpen?
    case NextOpen => child.NextOpen?
  }

  /** What the marks, positions, cash and pending orders of the moment must allow. */
  ghost predicate Affordable(env: Env, spec: Spec, orders: seq<Order>, intent: Intent) {
    var held := Held(env.positions(intent.account), intent.ticker);
    if intent.side == Sell then intent.quantity <= held
    else if intent.side == Cover then held < 0.0 && intent.quantity <= Abs(held)
    else OpeningAffordable(env, spec, orders, intent, held)
  }

  ghost predicate OpeningAffordable(env: Env, spec: Spec, orders: seq<Order>, intent: Intent, held: real) {
    var account, price := intent.account, env.mark(intent.ticker);
    var worth, equity := intent.quantity * price, env.cash(account) + NetValue(env.mark, env.positions(account));
    && spec.minTrade <= worth
    && (spec.version == 1 ==> worth <= env.cash(account) - Reserved(env.mark, orders, account))
    && GrossValue(env.mark, env.positions(account)) + Reserved(env.mark, orders, account) + worth <= equity * spec.maxGross
    && Abs(held * price) + ReservedOn(env.mark, orders, account, intent.ticker) + worth <= equity * spec.maxPosition
  }

  /** A fresh intent is accepted if and only if its envelope passes, its leg is free, and it hangs on
      a fit parent or the moment affords it; then the book gains exactly its order and its intake,
      and otherwise nothing. */
  lemma AcceptedIff(env: Env, book: Book, intent: Intent, spec: Spec)
    requires env.specs(intent.account) == Some(spec) && intent.id !in book.intakes
    ensures Submitted(env, book, intent).1.Ok? <==>
      && env.admissible(intent) && intent.quantity > 0.0 && LegIsFree(book.orders, intent)
      && (spec.version == 1 ==> intent.side == Buy || intent.side == Sell) && (intent.side == Short ==> spec.allowShort)
      && if spec.version == 2 && intent.contingentOn.Some? then HasParent(book, intent, intent.contingentOn.value)
         else Affordable(env, spec, book.orders, intent)
    ensures var (after, reply) := Submitted(env, book, intent);
      if reply.Err? then after == book
      else
        && reply.value == |book.orders| && after.intakes == book.intakes[intent.id := Intake(|book.orders|, intent)]
        && after.orders == book.orders + [
             Order(intent.account, intent.ticker, intent.side, intent.quantity, intent.session,
                   if spec.version == 2 then Some(intent.orderType) else None,
                   if spec.version == 2 && intent.contingentOn.Some? then Some(book.intakes[intent.contingentOn.value].order) else None)]
  {
    hide Capacity, ParentOf;
    ParentIff(book, spec, intent);
    var parent := ParentOf(book, spec, intent);
    if parent.Ok? && intent.quantity > 0.0 {
      CapacityIff(env, spec, book.orders, intent, parent.value);
    }
  }

  lemma ParentIff(book: Book, spec: Spec, intent: Intent)
    ensures var parent := ParentOf(book, spec, intent);
      if spec.version != 2 || intent.contingentOn.None? then parent == Ok(None)
      else if HasParent(book, intent, intent.contingentOn.value)
      then parent == Ok(Some(book.intakes[intent.contingentOn.value].order)) else parent == Err
  {
  }

  lemma CapacityIff(env: Env, spec: Spec, orders: seq<Order>, intent: Intent, parent: Option<nat>)
    requires intent.quantity > 0.0
    ensures Capacity(env, spec, orders, intent, parent) <==>
      LegIsFree(orders, intent) && (parent.Some? || Affordable(env, spec, orders, intent))
  {
    LimitsIff(env, spec, orders, intent);
    assert Duplicate(orders, intent.account, intent.ticker, intent.side) <==> !LegIsFree(orders, intent);
    hide WithinLimits, OpeningAffordable, Duplicate, LegIsFree, Held;
  }

  lemma LimitsIff(env: Env, spec: Spec, orders: seq<Order>, intent: Intent)
    ensures WithinLimits(env, spec, orders, intent)
       <==> OpeningAffordable(env, spec, orders, intent, Held(env.positions(intent.account), intent.ticker))
  {
    hide Held, Reserved, ReservedOn, GrossValue, NetValue;
  }

  /** What the long or the short positions are worth. */
  ghost function SideWorth(mark: Mark, positions: seq<Position>, long: bool): real {
    if positions == [] then 0.0 else
    var last := positions[|positions| - 1];
    SideWorth(mark, positions[..|positions| - 1], long)
    + if long && last.qty > 0.0 then last.qty * mark(last.ticker) else if !long && last.qty < 0.0 then -last.qty * mark(last.ticker) else 0.0
  }

  /** Net is longs less shorts, gross is both together. */
  lemma {:induction false} NetAndGross(mark: Mark, positions: seq<Position>)
    ensures NetValue(mark, positions) == SideWorth(mark, positions, true) - SideWorth(mark, positions, false)
    ensures GrossValue(mark, positions) == SideWorth(mark, positions, true) + SideWorth(mark, positions, false)
  {
    if positions != [] {
      var last := positions[|positions| - 1];
      NetAndGross(mark, positions[..|positions| - 1]);
      SignedWorth(last.qty, mark(last.ticker));
    }
  }

  lemma SignedWorth(qty: real, price: real)
    requires price > 0.0
    ensures if qty >= 0.0 then Abs(qty * price) == qty * price else Abs(qty * price) == -qty * price
    ensures qty == 0.0 ==> qty * price == 0.0
  {
    if qty > 0.0 {
      PositiveProduct(qty, price, qty * price);
    } else if qty < 0.0 {
      PositiveProduct(-qty, price, -qty * price);
      assert -qty * price == -(qty * price);
    }
  }

  /** A holding is the quantity of the ticker's one position, or nothing. */
  lemma {:induction false} HeldIs(positions: seq<Position>, ticker: string)
    requires forall i, j | 0 <= i < j < |positions| :: positions[i].ticker != positions[j].ticker
    ensures forall i | 0 <= i < |positions| && positions[i].ticker == ticker :: Held(positions, ticker) == positions[i].qty
    ensures (forall i | 0 <= i < |positions| :: positions[i].ticker != ticker) ==> Held(positions, ticker) == 0.0
  {
    if positions != [] && positions[|positions| - 1].ticker != ticker {
      HeldIs(positions[..|positions| - 1], ticker);
      assert forall i | 0 <= i < |positions| - 1 :: positions[..|positions| - 1][i] == positions[i];
    }
  }

  /** What pending orders reserve: the worth of every buy and short of the account, and nothing else. */
  lemma {:induction false} ReservedIsWorth(mark: Mark, orders: seq<Order>, account: string)
    requires forall i | 0 <= i < |orders| :: orders[i].qty > 0.0
    ensures Reserved(mark, orders, account) == OpeningWorth(mark, orders, account, None)
  {
    if orders != [] {
      var last := orders[|orders| - 1];
      ReservedIsWorth(mark, orders[..|orders| - 1], account);
      PositiveProduct(last.qty, mark(last.ticker), last.qty * mark(last.ticker));
    }
  }

  lemma {:induction false} ReservedOnIsWorth(mark: Mark, orders: seq<Order>, account: string, ticker: string)
    requires forall i | 0 <= i < |orders| :: orders[i].qty > 0.0
    ensures ReservedOn(mark, orders, account, ticker) == OpeningWorth(mark, orders, account, Some(ticker))
  {
    if orders != [] {
      var last := orders[|orders| - 1];
      ReservedOnIsWorth(mark, orders[..|orders| - 1], account, ticker);
      PositiveProduct(last.qty, mark(last.ticker), last.qty * mark(last.ticker));
    }
  }

  /** The worth of the account's buys and shorts, on one ticker or on all. */
  ghost function OpeningWorth(mark: Mark, orders: seq<Order>, account: string, ticker: Option<string>): real {
    if orders == [] then 0.0 else
    var last := orders[|orders| - 1];
    OpeningWorth(mark, orders[..|orders| - 1], account, ticker)
    + if last.account == account && (ticker.None? || ticker.value == last.ticker) && (last.side == Buy || last.side == Short) then last.qty * mark(last.ticker) else 0.0
  }

  /** A submission at its own moment. */
  datatype Submission = Submission(env: Env, intent: Intent)

  function RanAt(book: Book, subs: seq<Submission>): Book {
    if subs == [] then book else Submitted(subs[|subs| - 1].env, RanAt(book, subs[..|subs| - 1]), subs[|subs| - 1].intent).0
  }

  /** Over every run with marks, positions and cash changing as they will: one pending order per
      leg, contingency one level deep, one order per intake. */
  lemma {:induction false} VaryingRunStaysShaped(subs: seq<Submission>)
    ensures Shaped(RanAt(EMPTY, subs))
  {
    hide Submitted, OnePerLeg, Bound, Hangs;
    if subs == [] {
      EmptyIsShaped();
    } else {
      VaryingRunStaysShaped(subs[..|subs| - 1]);
      SubmitKeepsShape(subs[|subs| - 1].env, RanAt(EMPTY, subs[..|subs| - 1]), subs[|subs| - 1].intent);
    }
  }

  lemma EmptyIsShaped()
    ensures Shaped(EMPTY)
  {
  }

  lemma {:induction false} OrdersOnlyGrow(env: Env, book: Book, intents: seq<Intent>)
    ensures book.orders <= Ran(env, book, intents).orders
    ensures forall id | id in book.intakes :: id in Ran(env, book, intents).intakes && Ran(env, book, intents).intakes[id] == book.intakes[id]
  {
    hide Capacity, EnvelopeOk, ParentOf, Retained;
    if intents != [] {
      OrdersOnlyGrow(env, book, intents[..|intents| - 1]);
    }
  }

  /** An accepted intent submitted again, after any later submissions, adds nothing and gets the
      same order; a different intent under its id is refused. */
  lemma ReplayAddsNothing(env: Env, book: Book, intent: Intent, later: seq<Intent>, again: Intent)
    requires Sound(env, book) && Submitted(env, book, intent).1.Ok? && again.id == intent.id && env.specs(again.account).Some?
    ensures var now := Ran(env, Submitted(env, book, intent).0, later);
      Submitted(env, now, again) == (now, if again == intent then Submitted(env, book, intent).1 else Err)
  {
    var first := Submitted(env, book, intent).0;
    var now := Ran(env, first, later);
    OrdersOnlyGrow(env, first, later);
    AcceptedIsKept(env, book, intent);
    assert intent.id in now.intakes && now.intakes[intent.id] == first.intakes[intent.id];
    assert now.orders[first.intakes[intent.id].order] == first.orders[first.intakes[intent.id].order];
  }

  lemma AcceptedIsKept(env: Env, book: Book, intent: Intent)
    requires Sound(env, book) && Submitted(env, book, intent).1.Ok?
    ensures var first := Submitted(env, book, intent);
      && intent.id in first.0.intakes && Retained(first.0, intent) && first.1 == Ok(first.0.intakes[intent.id].order)
  {
    hide Limited, Backed, Capacity, EnvelopeOk, ParentOf, Retained;
    if intent.id in book.intakes {
      assert Submitted(env, book, intent).0 == book && Retained(book, intent);
    } else {
      var spec := env.specs(intent.account).value;
      NewIsRetained(book, Submitted(env, book, intent).0, intent, NewOrder(spec, intent, ParentOf(book, spec, intent).value));
    }
  }

  /** In particular a parent has at most one child, and no child is itself a parent. */
  lemma DepthOneForest(book: Book, i: nat, j: nat)
    requires Shaped(book) && i < j < |book.orders|
    requires book.orders[i].parent.Some? && book.orders[j].parent.Some?
    ensures book.orders[i].parent != book.orders[j].parent
    ensures book.orders[j].parent != Some(i)
  {
    hide Bound;
    assert Hangs(book.orders, i) && Hangs(book.orders, j);
  }

  // ----- the tables, updated in place -----

  class AccountDesk {
    var orders: seq<Order>
    var intakes: map<string, Intake>

    constructor ()
      ensures orders == [] && intakes == map[]
    {
      orders, intakes := [], map[];
    }

    method HasDuplicate(intent: Intent) returns (found: bool)
      ensures found == Duplicate(orders, intent.account, intent.ticker, intent.side)
    {
      found := false;
      for i := 0 to |orders|
        invariant found <==> exists k | 0 <= k < i ::
          orders[k].account == intent.account && orders[k].ticker == intent.ticker && orders[k].side == intent.side
      {
        found := found || (orders[i].account == intent.account && orders[i].ticker == intent.ticker && orders[i].side == intent.side);
      }
    }

    /** Accumulate what the account's pending opening orders reserve, per ticker and in all. */
    method ReservedOrders(mark: Mark, account: string) returns (reserved: map<string, real>, total: real)
      ensures total == Reserved(mark, orders, account)
      ensures forall t :: (if t in reserved then reserved[t] else 0.0) == ReservedOn(mark, orders, account, t)
    {
      reserved, total := map[], 0.0;
      var i := 0;
      while i < |orders|
        invariant 0 <= i <= |orders|
        invariant total == Reserved(mark, orders[..i], account)
        invariant forall t :: (if t in reserved then reserved[t] else 0.0) == ReservedOn(mark, orders[..i], account, t)
      {
        hide Reservation;
        var o := orders[i];
        assert orders[..i + 1] == orders[..i] + [o];
        forall t
          ensures ReservedOn(mark, orders[..i + 1], account, t) ==
            ReservedOn(mark, orders[..i], account, t) + if o.account == account && o.ticker == t then Reservation(mark, o) else 0.0
        {
          Appended(mark, orders[..i], o, account, t);
        }
        Appended(mark, orders[..i], o, account, o.ticker);
        ClosingReservesNothing(mark, o);
        if o.account == account && Opens(o.side) {
          var before := if o.ticker in reserved then reserved[o.ticker] else 0.0;
          reserved := reserved[o.ticker := before + Reservation(mark, o)];
          total := total + Reservation(mark, o);
        }
        i := i + 1;
      }
      assert orders[..i] == orders;
    }

    method FitsLimits(env: Env, spec: Spec, intent: Intent) returns (ok: bool)
      ensures ok == WithinLimits(env, spec, orders, intent)
    {
      hide GrossLimit, NameLimit, HeldValue, Requested;
      var account, requested := intent.account, Requested(env.mark, intent);
      var reserved, total := ReservedOrders(env.mark, account);
      var gross := GrossValue(env.mark, env.positions(account)) + total + requested;
      var onName := if intent.ticker in reserved then reserved[intent.ticker] else 0.0;
      assert ReservedOn(env.mark, orders, account, intent.ticker) == onName;
      var position := HeldValue(env, account, intent.ticker) + onName + requested;
      ok := !(requested < spec.minTrade || (spec.version == 1 && requested + total > env.cash(account))
              || gross > GrossLimit(env, spec, account) || position > NameLimit(env, spec, account));
    }

    method HasCapacity(env: Env, spec: Spec, intent: Intent, parent: Option<nat>) returns (ok: bool)
      ensures ok == Capacity(env, spec, orders, intent, parent)
    {
      hide Duplicate, WithinLimits;
      var duplicate := HasDuplicate(intent);
      if duplicate {
        return false;
      }
      var held := Held(env.positions(intent.account), intent.ticker);
      if parent.Some? {
        return true;
      }
      if intent.side.Sell? {
        return intent.quantity <= held;
      }
      if intent.side.Cover? {
        return intent.quantity <= -held;
      }
      ok := FitsLimits(env, spec, intent);
    }

    method Submit(env: Env, intent: Intent) returns (r: Result<nat>)
      modifies this
      ensures (Book(orders, intakes), r) == Submitted(env, Book(old(orders), old(intakes)), intent)
    {
      hide Capacity, EnvelopeOk;
      var book := Book(orders, intakes);
      var spec := env.specs(intent.account);
      if spec.None? {
        return Err;
      }
      if intent.id in intakes {
        return if Retained(book, intent) then Ok(intakes[intent.id].order) else Err;
      }
      if !EnvelopeOk(env, spec.value, intent) {
        return Err;
      }
      var parent := ParentOf(book, spec.value, intent);
      if parent.Err? {
        return Err;
      }
      var ok := HasCapacity(env, spec.value, intent, parent.value);
      if !ok {
        return Err;
      }
      r := Ok(|orders|);
      intakes := intakes[intent.id := Intake(|orders|, intent)];
      orders := orders + [NewOrder(spec.value, intent, parent.value)];
    }
  }
}
