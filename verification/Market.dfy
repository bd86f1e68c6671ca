// The reference order book, reduced to its live orders: levels and best
// prices are not stored but derived, so this is the meaning that the caching
// book and the hardware are held to.
module Market {
  import opened Prices

  datatype Order = Order(locate: nat, ask: bool, price: nat, qty: nat)

  /** Live orders by order reference number. */
  type Orders = map<nat, Order>

  predicate AllLive(os: Orders) {
    forall r :: r in os ==> os[r].qty > 0
  }

  // ---- levels as sums over the live orders ----

  /** What one order adds to the level (locate, side, price). */
  function Share(o: Order, l: nat, ask: bool, price: nat): nat {
    if o.locate == l && o.ask == ask && o.price == price then o.qty else 0
  }

  ghost function Pick(os: Orders): (r: nat)
    requires os != map[]
    ensures r in os
  {
    var r :| r in os; r
  }

  /** Total live quantity at (locate, side, price). */
  ghost function Depth(os: Orders, l: nat, ask: bool, price: nat): nat
    decreases |os|
  {
    if os == map[] then 0
    else
      var r := Pick(os);
      Share(os[r], l, ask, price) + Depth(os - {r}, l, ask, price)
  }

  lemma {:induction false} DepthInsert(os: Orders, r: nat, o: Order, l: nat, ask: bool, price: nat)
    requires r !in os
    ensures Depth(os[r := o], l, ask, price) == Depth(os, l, ask, price) + Share(o, l, ask, price)
    decreases |os|
  {
    var wide := os[r := o];
    assert r in wide;
    var r0 := Pick(wide);
    if r0 == r {
      assert wide - {r} == os;
    } else {
      assert wide - {r0} == (os - {r0})[r := o];
      DepthInsert(os - {r0}, r, o, l, ask, price);
      assert os == (os - {r0})[r0 := os[r0]];
      DepthInsert(os - {r0}, r0, os[r0], l, ask, price);
    }
  }

  lemma {:induction false} DepthRemove(os: Orders, r: nat, l: nat, ask: bool, price: nat)
    requires r in os
    ensures Depth(os, l, ask, price) == Depth(os - {r}, l, ask, price) + Share(os[r], l, ask, price)
  {
    assert os == (os - {r})[r := os[r]];
    DepthInsert(os - {r}, r, os[r], l, ask, price);
  }

  function PricesOf(os: Orders, l: nat, ask: bool): set<nat> {
    set r | r in os && os[r].locate == l && os[r].ask == ask :: os[r].price
  }

  lemma {:induction false} DepthPositive(os: Orders, l: nat, ask: bool, price: nat)
    requires AllLive(os)
    ensures Depth(os, l, ask, price) > 0 <==> price in PricesOf(os, l, ask)
    decreases |os|
  {
    if os != map[] {
      var r := Pick(os);
      var rest := os - {r};
      DepthPositive(rest, l, ask, price);
      if price in PricesOf(os, l, ask) {
        var r' :| r' in os && os[r'].locate == l && os[r'].ask == ask && os[r'].price == price;
        assert r' != r ==> r' in rest;
      }
    }
  }

  /** The aggregated levels of one side of one symbol. */
  ghost function LevelsOf(os: Orders, l: nat, ask: bool): Levels {
    map p | p in PricesOf(os, l, ask) :: Depth(os, l, ask, p)
  }

  lemma {:induction false} LevelsAreDepths(os: Orders, l: nat, ask: bool)
    requires AllLive(os)
    ensures Positive(LevelsOf(os, l, ask))
    ensures forall p: nat :: Total(LevelsOf(os, l, ask), p) == Depth(os, l, ask, p)
  {
    forall p: nat
      ensures Depth(os, l, ask, p) > 0 <==> p in PricesOf(os, l, ask)
    {
      DepthPositive(os, l, ask, p);
    }
  }

  /** Depths that differ at one price by delta make levels that differ by one bump. */
  lemma {:induction false} LevelsShift(os: Orders, os': Orders, l: nat, ask: bool, price: nat, delta: int)
    requires AllLive(os) && AllLive(os') && Depth(os, l, ask, price) + delta >= 0
    requires forall p: nat :: Depth(os', l, ask, p) == Depth(os, l, ask, p) + if p == price then delta else 0
    ensures Total(LevelsOf(os, l, ask), price) + delta >= 0
    ensures LevelsOf(os', l, ask) == Bump(LevelsOf(os, l, ask), price, delta)
    ensures delta == 0 ==> LevelsOf(os', l, ask) == LevelsOf(os, l, ask)
  {
    LevelsAreDepths(os, l, ask);
    LevelsAreDepths(os', l, ask);
    var m := LevelsOf(os, l, ask);
    SameTotals(LevelsOf(os', l, ask), Bump(m, price, delta));
    if delta == 0 {
      SameTotals(m, Bump(m, price, delta));
    }
  }

  /** What an order with that many shares adds at its own price, seen from one side. */
  function Seen(o: Order, l: nat, ask: bool, n: nat): nat {
    if o.locate == l && o.ask == ask then n else 0
  }

  /** A new order raises one level of its own side and no other. */
  lemma {:induction false} LevelsAfterInsert(os: Orders, r: nat, o: Order, l: nat, ask: bool)
    requires AllLive(os) && r !in os && o.qty > 0
    ensures LevelsOf(os[r := o], l, ask) ==
            if o.locate == l && o.ask == ask then Bump(LevelsOf(os, l, ask), o.price, o.qty) else LevelsOf(os, l, ask)
  {
    forall p: nat {
      DepthInsert(os, r, o, l, ask, p);
    }
    LevelsShift(os, os[r := o], l, ask, o.price, Seen(o, l, ask, o.qty));
  }

  /** Removing an order takes exactly its quantity out of its own level. */
  lemma {:induction false} LevelsAfterRemove(os: Orders, r: nat, l: nat, ask: bool)
    requires AllLive(os) && r in os
    ensures os[r].locate == l && os[r].ask == ask ==> Total(LevelsOf(os, l, ask), os[r].price) >= os[r].qty
    ensures LevelsOf(os - {r}, l, ask) ==
            if os[r].locate == l && os[r].ask == ask then Bump(LevelsOf(os, l, ask), os[r].price, -(os[r].qty as int))
            else LevelsOf(os, l, ask)
  {
    forall p: nat {
      DepthRemove(os, r, l, ask, p);
    }
    LevelsShift(os, os - {r}, l, ask, os[r].price, -(Seen(os[r], l, ask, os[r].qty) as int));
  }

  /** The orders with n fewer shares on one of them. */
  function Less(os: Orders, r: nat, n: nat): Orders
    requires r in os && n < os[r].qty
  {
    os[r := os[r].(qty := os[r].qty - n)]
  }

  /** Reducing an order that survives takes exactly that much out of its level. */
  lemma {:induction false} LevelsAfterReduce(os: Orders, r: nat, n: nat, l: nat, ask: bool)
    requires AllLive(os) && r in os && n < os[r].qty
    ensures os[r].locate == l && os[r].ask == ask ==> Total(LevelsOf(os, l, ask), os[r].price) >= os[r].qty
    ensures LevelsOf(Less(os, r, n), l, ask) ==
            if os[r].locate == l && os[r].ask == ask then Bump(LevelsOf(os, l, ask), os[r].price, -(n as int))
            else LevelsOf(os, l, ask)
  {
    LevelsAfterRemove(os, r, l, ask);
    var less := os[r].(qty := os[r].qty - n);
    assert Less(os, r, n) == (os - {r})[r := less];
    forall p: nat
      ensures Depth(Less(os, r, n), l, ask, p) + Share(os[r], l, ask, p) == Depth(os, l, ask, p)
              + Share(less, l, ask, p)
    {
      DepthRemove(os, r, l, ask, p);
      DepthInsert(os - {r}, r, less, l, ask, p);
    }
    LevelsShift(os, Less(os, r, n), l, ask, os[r].price, -(Seen(os[r], l, ask, n) as int));
  }

  // ---- messages and their meaning ----

  const MARKET_OPEN: nat := 0x51   // 'Q'
  const MARKET_CLOSE: nat := 0x4d  // 'M'
  const CONTINUOUS: nat := 0x54    // 'T'

  datatype Message =
    | SystemEvent(code: nat)
    | TradingAction(locate: nat, state: nat)
    | AddOrder(locate: nat, ref: nat, ask: bool, shares: nat, price: nat)
    | ReduceOrder(locate: nat, ref: nat, shares: nat)
    | DeleteOrder(locate: nat, ref: nat)
    | ReplaceOrder(locate: nat, orig: nat, newRef: nat, shares: nat, price: nat)
    | Unrelated

  /** Best bid and offer; an empty side is price 0, quantity 0. */
  datatype Bbo = Bbo(bidPrice: nat, bidQty: nat, askPrice: nat, askQty: nat)

  const NO_BBO := Bbo(0, 0, 0, 0)

  datatype Outcome =
    | Silent
    | Refused   // the reference raises; the book is unchanged
    | Event(locate: nat, bbo: Bbo, changed: bool)

  datatype State = State(
    orders: Orders,
    lastBbo: map<nat, Bbo>,
    trading: map<nat, nat>,
    open: bool,
    anomalies: nat,
    crosses: nat)

  const Initial := State(map[], map[], map[], false, 0, 0)

  ghost function BboOf(os: Orders, l: nat): Bbo {
    var bids, asks := LevelsOf(os, l, false), LevelsOf(os, l, true);
    var b, a := Best(bids, false), Best(asks, true);
    Bbo(if b.Some? then b.value else 0, if b.Some? then bids[b.value] else 0,
        if a.Some? then a.value else 0, if a.Some? then asks[a.value] else 0)
  }

  predicate Crossed(open: bool, trading: bool, bbo: Bbo) {
    open && trading && bbo.bidPrice != 0 && bbo.askPrice != 0 && bbo.bidPrice >= bbo.askPrice
  }

  ghost function Publish(s: State, l: nat): (r: (State, Outcome))
    ensures r.0.orders == s.orders && r.1.Event?
  {
    var bbo := BboOf(s.orders, l);
    var crossed := Crossed(s.open, l in s.trading && s.trading[l] == CONTINUOUS, bbo);
    (s.(lastBbo := s.lastBbo[l := bbo], crosses := s.crosses + if crossed then 1 else 0),
     Event(l, bbo, !(l in s.lastBbo && s.lastBbo[l] == bbo)))
  }

  ghost function Step(s: State, m: Message): (State, Outcome) {
    match m
    case SystemEvent(code) =>
      (s.(open := if code == MARKET_OPEN then true else if code == MARKET_CLOSE then false else s.open), Silent)
    case TradingAction(l, state) => (s.(trading := s.trading[l := state]), Silent)
    case Unrelated => (s, Silent)
    case AddOrder(l, ref, ask, shares, price) =>
      if ref in s.orders || shares == 0 then (s, Refused)
      else Publish(s.(orders := s.orders[ref := Order(l, ask, price, shares)]), l)
    case ReduceOrder(l, ref, shares) =>
      if ref !in s.orders then (s.(anomalies := s.anomalies + 1), Silent)
      else
        var o := s.orders[ref];
        if shares > o.qty then (s, Refused)
        else if shares == o.qty then Publish(s.(orders := s.orders - {ref}), o.locate)
        else Publish(s.(orders := Less(s.orders, ref, shares)), o.locate)
    case DeleteOrder(l, ref) =>
      if ref !in s.orders then (s.(anomalies := s.anomalies + 1), Silent)
      else Publish(s.(orders := s.orders - {ref}), l)
    case ReplaceOrder(l, orig, newRef, shares, price) =>
      if orig !in s.orders then (s.(anomalies := s.anomalies + 1), Silent)
      else if shares == 0 || newRef in s.orders then (s, Refused)
      else
        var o := s.orders[orig];
        Publish(s.(orders := (s.orders - {orig})[newRef := Order(o.locate, o.ask, price, shares)]), o.locate)
  }

  /** The state after all messages, and every outcome in order. */
  ghost function Run(ms: seq<Message>): (State, seq<Outcome>) {
    if ms == [] then (Initial, [])
    else
      var (s, outs) := Run(ms[..|ms| - 1]);
      var (s', out) := Step(s, ms[|ms| - 1]);
      (s', outs + [out])
  }

  lemma {:induction false} StepKeepsLive(s: State, m: Message)
    requires AllLive(s.orders)
    ensures AllLive(Step(s, m).0.orders)
  {
  }
}
