// What the reference book does and publishes, told from the live orders alone: which
// orders are left, what the best prices are, when a cross is counted and a change told.
module Publishing {
  import opened Prices
  import opened Market

  predicate Live(os: Orders, l: nat, ask: bool, r: nat) {
    r in os && os[r].locate == l && os[r].ask == ask
  }

  // ---- best prices ----

  lemma {:induction false} PriceIsLive(os: Orders, l: nat, ask: bool, price: nat)
    ensures price in LevelsOf(os, l, ask) <==> exists r :: Live(os, l, ask, r) && os[r].price == price
  {
    if price in PricesOf(os, l, ask) {
      var r :| r in os && os[r].locate == l && os[r].ask == ask && os[r].price == price;
      assert Live(os, l, ask, r);
    }
  }

  /** The bids: the highest price of a live buy order with all that is live there, zeroes
      without one. */
  lemma {:induction false} BestBidIs(os: Orders, l: nat)
    requires AllLive(os)
    ensures
      var b := BboOf(os, l);
      if exists r :: Live(os, l, false, r) then
        && (exists r :: Live(os, l, false, r) && os[r].price == b.bidPrice)
        && (forall r :: Live(os, l, false, r) ==> os[r].price <= b.bidPrice)
        && b.bidQty == Depth(os, l, false, b.bidPrice) > 0
      else b.bidPrice == b.bidQty == 0
  {
    BestIs(os, l, false);
  }

  /** The asks: the lowest price of a live sell order with all that is live there, zeroes
      without one. */
  lemma {:induction false} BestAskIs(os: Orders, l: nat)
    requires AllLive(os)
    ensures
      var b := BboOf(os, l);
      if exists r :: Live(os, l, true, r) then
        && (exists r :: Live(os, l, true, r) && os[r].price == b.askPrice)
        && (forall r :: Live(os, l, true, r) ==> os[r].price >= b.askPrice)
        && b.askQty == Depth(os, l, true, b.askPrice) > 0
      else b.askPrice == b.askQty == 0
  {
    BestIs(os, l, true);
  }

  lemma {:induction false} BestIs(os: Orders, l: nat, ask: bool)
    requires AllLive(os)
    ensures
      var m := LevelsOf(os, l, ask);
      match Best(m, ask)
      case None => forall r :: !Live(os, l, ask, r)
      case Some(p) =>
        && p in m && m[p] == Depth(os, l, ask, p) > 0 && (exists r :: Live(os, l, ask, r) && os[r].price == p)
        && forall r :: Live(os, l, ask, r) ==> if ask then os[r].price >= p else os[r].price <= p
  {
    hide Depth;
    var m := LevelsOf(os, l, ask);
    LevelsAreDepths(os, l, ask);
    forall r | Live(os, l, ask, r)
      ensures os[r].price in m
    {
      PriceIsLive(os, l, ask, os[r].price);
    }
    if Best(m, ask).Some? {
      PriceIsLive(os, l, ask, Best(m, ask).value);
    }
  }

  // ---- crosses, changes, hours ----

  /** One publication counts a cross if and only if the market is open, the symbol is in
      continuous trading (`T`), some live buy order has a price at or above that of some
      live sell order, and no live sell order has price zero. */
  lemma {:induction false} CrossIff(s: State, l: nat)
    requires AllLive(s.orders)
    ensures
      var os := s.orders;
      var crossed :=
        && s.open && l in s.trading && s.trading[l] == 0x54
        && (exists b, a :: Live(os, l, false, b) && Live(os, l, true, a) && os[b].price >= os[a].price)
        && (forall a :: Live(os, l, true, a) ==> os[a].price != 0);
      Publish(s, l).0.crosses == s.crosses + if crossed then 1 else 0
  {
    hide BboOf;
    var os, bbo := s.orders, BboOf(s.orders, l);
    BestBidIs(os, l);
    BestAskIs(os, l);
    if bbo.bidPrice != 0 && bbo.askPrice != 0 && bbo.bidPrice >= bbo.askPrice {
      var b :| Live(os, l, false, b) && os[b].price == bbo.bidPrice;
      var a :| Live(os, l, true, a) && os[a].price == bbo.askPrice;
      assert os[b].price >= os[a].price;
    }
  }

  /** `Q` opens the market, `M` closes it, and every other code leaves it as it is. */
  lemma {:induction false} HoursAre(s: State, code: nat)
    ensures
      var (s', out) := Step(s, SystemEvent(code));
      && out.Silent? && s' == s.(open := s'.open)
      && (code == 0x51 ==> s'.open) && (code == 0x4d ==> !s'.open)
         && (code != 0x51 && code != 0x4d ==> s'.open == s.open)
  {
  }

  /** The best bid and offer last published for a symbol. */
  function LastPublished(outs: seq<Outcome>, l: nat): Option<Bbo> {
    if outs == [] then None
    else
      var out := outs[|outs| - 1];
      if out.Event? && out.locate == l then Some(out.bbo) else LastPublished(outs[..|outs| - 1], l)
  }

  lemma {:induction false} LastOfMore(outs: seq<Outcome>, out: Outcome, l: nat)
    ensures LastPublished(outs + [out], l) == if out.Event? && out.locate == l then Some(out.bbo)
            else LastPublished(outs, l)
  {
    assert (outs + [out])[..|outs|] == outs;
  }

  lemma {:induction false} StepRemembers(s: State, m: Message, l: nat)
    ensures
      var (s', out) := Step(s, m);
      && (out.Event? ==>
            && out.bbo == BboOf(s'.orders, out.locate)
            && (out.changed <==> !(out.locate in s.lastBbo && s.lastBbo[out.locate] == out.bbo)))
      && (l in s'.lastBbo <==> l in s.lastBbo || (out.Event? && out.locate == l))
      && (l in s'.lastBbo ==> s'.lastBbo[l] == if out.Event? && out.locate == l then out.bbo else s.lastBbo[l])
  {
    hide BboOf;
  }

  /** Over every run an event publishes the best bid and offer of the orders after it, and
      is flagged changed if and only if it is not what was last published for its symbol. */
  lemma {:induction false} ChangedIff(ms: seq<Message>, i: nat)
    requires i < |ms| && |Run(ms).1| == |ms| && Run(ms).1[i].Event?
    ensures
      var outs := Run(ms).1;
      && outs[i].bbo == BboOf(Run(ms[..i + 1]).0.orders, outs[i].locate)
      && (outs[i].changed <==> LastPublished(outs[..i], outs[i].locate) != Some(outs[i].bbo))
    decreases |ms|
  {
    hide Step, BboOf, LastPublished;
    var init := ms[..|ms| - 1];
    OutcomePerMessage(init);
    assert Run(ms).1[..|init|] == Run(init).1;
    if i < |init| {
      ChangedIff(init, i);
      assert init[..i + 1] == ms[..i + 1] && Run(ms).1[..i] == Run(init).1[..i];
    } else {
      assert ms[..i + 1] == ms;
      Remembered(init, Run(ms).1[i].locate);
      StepRemembers(Run(init).0, ms[i], 0);
    }
  }

  lemma {:induction false} OutcomePerMessage(ms: seq<Message>)
    ensures |Run(ms).1| == |ms|
  {
    hide Step;
    if ms != [] {
      OutcomePerMessage(ms[..|ms| - 1]);
    }
  }

  lemma {:induction false} Remembered(ms: seq<Message>, l: nat)
    ensures
      var (s, outs) := Run(ms);
      LastPublished(outs, l) == if l in s.lastBbo then Some(s.lastBbo[l]) else None
  {
    hide Step, BboOf;
    if ms != [] {
      var init := ms[..|ms| - 1];
      Remembered(init, l);
      StepRemembers(Run(init).0, ms[|ms| - 1], l);
      LastOfMore(Run(init).1, Step(Run(init).0, ms[|ms| - 1]).1, l);
    }
  }

  // ---- what becomes of each order ----

  /** The order that a message names is known. */
  predicate Knows(s: State, m: Message) {
    match m
    case ReduceOrder(_, ref, _) => ref in s.orders
    case DeleteOrder(_, ref) => ref in s.orders
    case ReplaceOrder(_, orig, _, _, _) => orig in s.orders
    case _ => true
  }

  /** A message that names an unknown order is an anomaly and nothing else; no other counts
      as one. */
  lemma {:induction false} AnomalyIff(s: State, m: Message)
    ensures Step(s, m).0.anomalies == s.anomalies + if Knows(s, m) then 0 else 1
    ensures !Knows(s, m) ==> Step(s, m) == (s.(anomalies := s.anomalies + 1), Silent)
  {
    hide Publish;
    PublishKeeps(s);
  }

  lemma {:induction false} PublishKeeps(s: State)
    ensures forall os: Orders, l :: Publish(s.(orders := os), l).0.anomalies == s.anomalies
    ensures forall os: Orders, l :: Publish(s.(orders := os), l).0.open == s.open
    ensures forall os: Orders, l :: Publish(s.(orders := os), l).0.trading == s.trading
  {
  }

  /** An add. */
  lemma {:induction false} AddFate(s: State, l: nat, ref: nat, ask: bool, shares: nat, price: nat, x: nat)
    ensures
      var (s', out) := Step(s, AddOrder(l, ref, ask, shares, price));
      var os, os', taken := s.orders, s'.orders, ref !in s.orders && shares > 0;
      && (if taken then out.Event? && out.locate == l else out.Refused? && s' == s)
      && (x in os' <==> x in os || (taken && x == ref))
      && (x in os' ==> os'[x] == if taken && x == ref then Order(l, ask, price, shares) else os[x])
  {
    hide BboOf;
  }

  /** An execution or a cancellation of a known order. */
  lemma {:induction false} ReduceFate(s: State, l: nat, ref: nat, shares: nat, x: nat)
    requires ref in s.orders
    ensures
      var (s', out) := Step(s, ReduceOrder(l, ref, shares));
      var os, os', o, taken := s.orders, s'.orders, s.orders[ref], shares <= s.orders[ref].qty;
      && (if taken then out.Event? && out.locate == o.locate else out.Refused? && s' == s)
      && (x in os' <==> x in os && !(x == ref && shares == o.qty))
      && (x in os' ==> os'[x] == if taken && x == ref then Order(o.locate, o.ask, o.price, o.qty - shares) else os[x])
  {
    hide BboOf;
  }

  /** A delete of a known order. */
  lemma {:induction false} DeleteFate(s: State, l: nat, ref: nat, x: nat)
    requires ref in s.orders
    ensures
      var (s', out) := Step(s, DeleteOrder(l, ref));
      && out.Event? && out.locate == l
      && (x in s'.orders <==> x in s.orders && x != ref) && (x in s'.orders ==> s'.orders[x] == s.orders[x])
  {
    hide BboOf;
  }

  /** A replace of a known order: symbol and side stay, price, shares and reference are new. */
  lemma {:induction false} ReplaceFate(s: State, l: nat, orig: nat, newRef: nat, shares: nat, price: nat, x: nat)
    requires orig in s.orders
    ensures
      var (s', out) := Step(s, ReplaceOrder(l, orig, newRef, shares, price));
      var os, os', o, taken := s.orders, s'.orders, s.orders[orig], shares > 0 && newRef !in s.orders;
      && (if taken then out.Event? && out.locate == o.locate else out.Refused? && s' == s)
      && (x in os' <==> if taken then x == newRef || (x in os && x != orig) else x in os)
      && (x in os' ==> os'[x] == if taken && x == newRef then Order(o.locate, o.ask, price, shares) else os[x])
  {
    hide BboOf;
  }

  /** No other message moves an order or publishes; a trading action sets the state of its
      symbol, and nothing else does. */
  lemma {:induction false} TradingIs(s: State, m: Message, l: nat)
    ensures
      var (s', out) := Step(s, m);
      && (m.SystemEvent? || m.TradingAction? || m.Unrelated? ==> out.Silent? && s'.orders == s.orders)
      && (l in s'.trading <==> l in s.trading || (m.TradingAction? && m.locate == l))
      && (l in s'.trading ==> s'.trading[l] == if m.TradingAction? && m.locate == l then m.state else s.trading[l])
      && (!m.SystemEvent? ==> s'.open == s.open)
  {
    hide BboOf;
  }
}
