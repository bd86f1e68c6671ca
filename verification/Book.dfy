// The reference book with its caches: a dictionary of levels per side, the
// best price per side and the live-order counts, all updated in place.
module ReferenceBook {
  import opened Prices
  import opened Market

  type Side = (nat, bool)   // (locate, ask)

  function LevelsAt(levels: map<Side, Levels>, k: Side): Levels {
    if k in levels then levels[k] else map[]
  }

  function BestAt(best: map<Side, Option<nat>>, k: Side): Option<nat> {
    if k in best then best[k] else None
  }

  function CountAt(live: map<nat, nat>, l: nat): nat {
    if l in live then live[l] else 0
  }

  function RefsOf(os: Orders, l: nat): set<nat> {
    set r | r in os && os[r].locate == l
  }

  /** The cached levels are the sums over the live orders. */
  ghost predicate LevelsMatch(levels: map<Side, Levels>, os: Orders) {
    forall l, ask :: LevelsAt(levels, (l, ask)) == LevelsOf(os, l, ask)
  }

  /** Every cached best price is the extremum of its cached levels. */
  ghost predicate BestsMatch(best: map<Side, Option<nat>>, levels: map<Side, Levels>) {
    forall l, ask :: BestAt(best, (l, ask)) == Best(LevelsAt(levels, (l, ask)), ask)
  }

  ghost predicate CountsMatch(live: map<nat, nat>, os: Orders) {
    forall l :: CountAt(live, l) == |RefsOf(os, l)|
  }

  /** The two dictionaries of levels differ by one change at one level. */
  ghost predicate OneBump(before: map<Side, Levels>, after: map<Side, Levels>, l: nat, ask: bool, price: nat,
                          delta: int)
    requires Total(LevelsAt(before, (l, ask)), price) + delta >= 0
  {
    forall l', ask' :: LevelsAt(after, (l', ask')) ==
                       if l' == l && ask' == ask then Bump(LevelsAt(before, (l, ask)), price, delta)
                       else LevelsAt(before, (l', ask'))
  }

  class Book {
    var orders: Orders
    var levels: map<Side, Levels>
    var best: map<Side, Option<nat>>
    var lastBbo: map<nat, Bbo>
    var trading: map<nat, nat>
    var marketHours: bool
    var anomalies: nat
    var crossEvents: nat
    var live: map<nat, nat>

    ghost predicate Valid()
      reads this
    {
      AllLive(orders) && LevelsMatch(levels, orders) && BestsMatch(best, levels) && CountsMatch(live, orders)
    }

    /** What the book means: its state without the caches. */
    function Meaning(): State
      reads this
    {
      State(orders, lastBbo, trading, marketHours, anomalies, crossEvents)
    }

    constructor ()
      ensures Valid() && Meaning() == Initial
    {
      orders, levels, best, lastBbo, trading := map[], map[], map[], map[], map[];
      marketHours, anomalies, crossEvents, live := false, 0, 0, map[];
    }

    /** One change at one level, with the best price kept in step. The result is
        false when the new quantity would be negative; nothing changes then. */
    method LevelAdd(locate: nat, ask: bool, price: nat, delta: int) returns (ok: bool)
      requires delta == 0 ==> price in LevelsAt(levels, (locate, ask))
      requires Positive(LevelsAt(levels, (locate, ask))) && BestsMatch(best, levels)
      modifies `levels, `best
      ensures ok <==> Total(old(LevelsAt(levels, (locate, ask))), price) + delta >= 0
      ensures BestsMatch(best, levels)
      ensures ok ==> OneBump(old(levels), levels, locate, ask, price, delta)
      ensures !ok ==> forall l, a :: LevelsAt(levels, (l, a)) == old(LevelsAt(levels, (l, a)))
    {
      hide Best, IsBest, OneBump;
      var key := (locate, ask);
      ghost var before, bests := levels, best;
      if key !in levels {
        levels := levels[key := map[]];
      }
      var side := levels[key];
      var newQty := Total(side, price) + delta;
      if newQty < 0 {
        return false;
      }
      ok := true;
      var after := if newQty == 0 then side - {price} else side[price := newQty];
      levels := levels[key := after];
      assert levels == before[key := after];
      OneLevelMoved(before, locate, ask, price, delta, after);
      var was := BestAt(best, key);
      BestAfterBump(side, ask, price, delta);
      if was.None? || Better(ask, price, was.value) {
        best := best[key := Some(price)];
      } else if price == was.value && newQty == 0 {
        var extreme := Extreme(after, ask);
        best := best[key := extreme];
      }
      BestsAfterBump(bests, best, before, levels, locate, ask, price, delta);
    }

    /** Best bid and offer read from the caches. */
    function Bbo(locate: nat): (r: Market.Bbo)
      requires Valid()
      reads this
      ensures r == BboOf(orders, locate)
    {
      var bids, asks := LevelsAt(levels, (locate, false)), LevelsAt(levels, (locate, true));
      var bid, ask := BestAt(best, (locate, false)), BestAt(best, (locate, true));
      Market.Bbo(if bid.Some? then bid.value else 0, if bid.Some? then bids[bid.value] else 0,
                 if ask.Some? then ask.value else 0, if ask.Some? then asks[ask.value] else 0)
    }

    method Emit(locate: nat) returns (out: Outcome)
      requires Valid()
      modifies `lastBbo, `crossEvents
      ensures Valid()
      ensures (Meaning(), out) == Publish(old(Meaning()), locate)
    {
      var bbo := Bbo(locate);
      if Crossed(marketHours, locate in trading && trading[locate] == CONTINUOUS, bbo) {
        crossEvents := crossEvents + 1;
      }
      var changed := !(locate in lastBbo && lastBbo[locate] == bbo);
      lastBbo := lastBbo[locate := bbo];
      out := Event(locate, bbo, changed);
    }

    /** Enters an order that the caller has found to be new and non-empty. */
    method Insert(ref: nat, o: Order)
      requires Valid() && ref !in orders && o.qty > 0
      modifies `orders, `levels, `best, `live
      ensures Valid() && orders == old(orders)[ref := o]
    {
      hide LevelsMatch, BestsMatch, CountsMatch, OneBump;
      ghost var was, os := levels, orders;
      OwnLevel(levels, orders, o.locate, o.ask);
      CountsAfterInsert(live, orders, ref, o);
      orders := orders[ref := o];
      live := live[o.locate := CountAt(live, o.locate) + 1];
      var ok := LevelAdd(o.locate, o.ask, o.price, o.qty);
      assert ok;
      InsertMatches(was, levels, os, ref, o);
    }

    method Remove(ref: nat)
      requires Valid() && ref in orders
      modifies `orders, `levels, `best, `live
      ensures Valid() && orders == old(orders) - {ref}
    {
      hide LevelsMatch, BestsMatch, CountsMatch, OneBump;
      var o := orders[ref];
      ghost var was, os := levels, orders;
      CoversOrder(levels, orders, ref);
      CountsAfterRemove(live, orders, ref);
      orders := orders - {ref};
      live := live[o.locate := CountAt(live, o.locate) - 1];
      var ok := LevelAdd(o.locate, o.ask, o.price, -(o.qty as int));
      assert ok;
      RemoveMatches(was, levels, os, ref);
    }

    /** Takes shares off a live order that survives. */
    method Shrink(ref: nat, shares: nat)
      requires Valid() && ref in orders && shares < orders[ref].qty
      modifies `orders, `levels, `best, `live
      ensures Valid() && orders == Less(old(orders), ref, shares)
    {
      hide LevelsMatch, BestsMatch, CountsMatch, OneBump;
      ghost var was, os := levels, orders;
      var o := orders[ref];
      CoversOrder(levels, orders, ref);
      CountsAfterReduce(live, orders, ref, shares);
      orders := Less(orders, ref, shares);
      var ok := LevelAdd(o.locate, o.ask, o.price, -(shares as int));
      assert ok;
      ReduceMatches(was, levels, os, ref, shares);
    }

    /** Takes shares off a live order; an empty order leaves the book. */
    method Reduce(ref: nat, shares: nat)
      requires Valid() && ref in orders && shares <= orders[ref].qty
      modifies `orders, `levels, `best, `live
      ensures Valid()
      ensures orders == if shares == old(orders)[ref].qty then old(orders) - {ref} else Less(old(orders), ref, shares)
    {
      if shares == orders[ref].qty {
        Remove(ref);
      } else {
        Shrink(ref, shares);
      }
    }

    /** One message: the caches stay right, the meaning steps as the market does,
        and no internal inconsistency is ever raised. */
    method Apply(m: Message) returns (out: Outcome)
      requires Valid()
      modifies this
      ensures Valid()
      ensures (Meaning(), out) == Step(old(Meaning()), m)
    {
      match m
      case SystemEvent(code) =>
        if code == MARKET_OPEN {
          marketHours := true;
        } else if code == MARKET_CLOSE {
          marketHours := false;
        }
        out := Silent;
      case TradingAction(locate, state) =>
        trading := trading[locate := state];
        out := Silent;
      case AddOrder(locate, ref, ask, shares, price) =>
        if ref in orders || shares == 0 {
          return Refused;
        }
        Insert(ref, Order(locate, ask, price, shares));
        out := Emit(locate);
      case ReduceOrder(_, ref, shares) =>
        if ref !in orders {
          anomalies := anomalies + 1;
          return Silent;
        }
        if shares > orders[ref].qty {
          return Refused;
        }
        var locate := orders[ref].locate;
        Reduce(ref, shares);
        out := Emit(locate);
      case DeleteOrder(locate, ref) =>
        if ref !in orders {
          anomalies := anomalies + 1;
          return Silent;
        }
        Remove(ref);
        out := Emit(locate);
      case ReplaceOrder(_, orig, newRef, shares, price) =>
        if orig !in orders {
          anomalies := anomalies + 1;
          return Silent;
        }
        if shares == 0 || newRef in orders {
          return Refused;
        }
        var o := orders[orig];
        Remove(orig);
        Insert(newRef, Order(o.locate, o.ask, price, shares));
        out := Emit(o.locate);
      case Unrelated =>
        out := Silent;
    }

    /** Live price levels of a symbol, both sides. */
    method LevelCount(locate: nat) returns (n: nat)
      requires Valid()
      ensures n == |PricesOf(orders, locate, false)| + |PricesOf(orders, locate, true)|
    {
      n := |LevelsAt(levels, (locate, false))| + |LevelsAt(levels, (locate, true))|;
      assert LevelsOf(orders, locate, false).Keys == PricesOf(orders, locate, false);
      assert LevelsOf(orders, locate, true).Keys == PricesOf(orders, locate, true);
    }

    /** The levels rebuilt from the orders, unless some order is empty. */
    method Rebuild() returns (ok: bool, expected: map<Side, Levels>)
      ensures ok <==> AllLive(orders)
      ensures ok ==> LevelsMatch(expected, orders)
    {
      expected := map[];
      var todo := orders.Keys;
      ghost var seen: Orders := map[];
      while todo != {}
        invariant todo <= orders.Keys && seen == orders - todo
        invariant AllLive(seen) && LevelsMatch(expected, seen)
        decreases |todo|
      {
        var r :| r in todo;
        if orders[r].qty == 0 {
          return false, expected;
        }
        AccumulateMatches(expected, seen, r, orders[r]);
        expected := Accumulate(expected, orders[r]);
        seen := seen[r := orders[r]];
        todo := todo - {r};
      }
      assert seen == orders;
      ok := true;
    }

    /** The periodic revalidation: rebuilds the levels from the orders and compares. */
    method CheckDeep() returns (ok: bool)
      ensures ok <==> AllLive(orders) && LevelsMatch(levels, orders) && NoEmptyLevel(levels)
      ensures Valid() ==> ok
    {
      var live, expected := Rebuild();
      if !live {
        return false;
      }
      DeepVerdict(expected, levels, orders);
      ok := NoEmptyLevel(levels) && NonEmptySides(expected) == NonEmptySides(levels);
      MatchMeansNoEmpty(levels, orders);
    }
  }

  lemma {:induction false} OneLevelMoved(before: map<Side, Levels>, l: nat, ask: bool, price: nat, delta: int,
                                         after: Levels)
    requires Total(LevelsAt(before, (l, ask)), price) + delta >= 0
             && after == Bump(LevelsAt(before, (l, ask)), price, delta)
    ensures OneBump(before, before[(l, ask) := after], l, ask, price, delta)
  {
  }

  /** The extremum of the levels, or nothing when there are none. */
  method Extreme(m: Levels, ask: bool) returns (r: Option<nat>)
    ensures r == Best(m, ask)
  {
    if m == map[] {
      return None;
    }
    BestExists(m, ask);
    var p :| p in m && IsBest(m, ask, p);
    BestIsUnique(m, ask, p);
    r := Some(p);
  }

  /** The other sides keep their best price. */
  lemma {:induction false} BestsAfterBump(
    bests: map<Side, Option<nat>>, bests': map<Side, Option<nat>>, before: map<Side, Levels>, after: map<Side, Levels>,
    l: nat, ask: bool, price: nat, delta: int)
    requires BestsMatch(bests, before)
    requires Total(LevelsAt(before, (l, ask)), price) + delta >= 0 && OneBump(before, after, l, ask, price, delta)
    requires BestAt(bests', (l, ask)) == Best(Bump(LevelsAt(before, (l, ask)), price, delta), ask)
    requires forall k: Side :: k != (l, ask) ==> BestAt(bests', k) == BestAt(bests, k)
    ensures BestsMatch(bests', after)
  {
    forall l', ask'
      ensures BestAt(bests', (l', ask')) == Best(LevelsAt(after, (l', ask')), ask')
    {
      assert BestAt(bests, (l', ask')) == Best(LevelsAt(before, (l', ask')), ask');
    }
  }

  predicate NoEmptyLevel(levels: map<Side, Levels>) {
    forall k :: k in levels ==> Positive(levels[k])
  }

  /** Levels that are the sums over live orders are never empty. */
  lemma {:induction false} MatchMeansNoEmpty(levels: map<Side, Levels>, os: Orders)
    requires AllLive(os)
    ensures LevelsMatch(levels, os) ==> NoEmptyLevel(levels)
  {
    if LevelsMatch(levels, os) {
      forall k | k in levels
        ensures Positive(levels[k])
      {
        OwnLevel(levels, os, k.0, k.1);
      }
    }
  }

  function NonEmptySides(levels: map<Side, Levels>): map<Side, Levels> {
    map k | k in levels && levels[k] != map[] :: levels[k]
  }

  /** Dropping the empty sides compares the dictionaries up to missing keys. */
  lemma {:induction false} SameNonEmptySides(a: map<Side, Levels>, b: map<Side, Levels>)
    ensures NonEmptySides(a) == NonEmptySides(b) <==> forall l, ask :: LevelsAt(a, (l, ask)) == LevelsAt(b, (l, ask))
  {
    var na, nb := NonEmptySides(a), NonEmptySides(b);
    forall k: Side
      ensures LevelsAt(a, k) == LevelsAt(na, k) && LevelsAt(b, k) == LevelsAt(nb, k)
    {
    }
    if na == nb {
      forall l, ask
        ensures LevelsAt(a, (l, ask)) == LevelsAt(b, (l, ask))
      {
        assert LevelsAt(a, (l, ask)) == LevelsAt(na, (l, ask));
      }
    } else if forall l, ask :: LevelsAt(a, (l, ask)) == LevelsAt(b, (l, ask)) {
      forall k: Side
        ensures k in na <==> k in nb
        ensures k in na ==> na[k] == nb[k]
      {
        assert LevelsAt(a, (k.0, k.1)) == LevelsAt(b, (k.0, k.1));
      }
      assert false;
    }
  }

  /** The rebuilt dictionary with one more order counted in. */
  function Accumulate(levels: map<Side, Levels>, o: Order): map<Side, Levels> {
    var side := LevelsAt(levels, (o.locate, o.ask));
    levels[(o.locate, o.ask) := side[o.price := Total(side, o.price) + o.qty]]
  }

  lemma {:induction false} AccumulateMatches(levels: map<Side, Levels>, os: Orders, r: nat, o: Order)
    requires AllLive(os) && r !in os && o.qty > 0
    requires LevelsMatch(levels, os)
    ensures LevelsMatch(Accumulate(levels, o), os[r := o])
  {
    hide LevelsOf;
    forall l, ask
      ensures LevelsAt(Accumulate(levels, o), (l, ask)) == LevelsOf(os[r := o], l, ask)
    {
      LevelsAfterInsert(os, r, o, l, ask);
    }
  }

  /** The comparison of the last step decides whether the levels are the sums. */
  lemma {:induction false} DeepVerdict(expected: map<Side, Levels>, levels: map<Side, Levels>, os: Orders)
    requires LevelsMatch(expected, os)
    ensures NonEmptySides(expected) == NonEmptySides(levels) <==> LevelsMatch(levels, os)
  {
    SameNonEmptySides(expected, levels);
    if LevelsMatch(levels, os) {
      forall l, ask
        ensures LevelsAt(expected, (l, ask)) == LevelsAt(levels, (l, ask))
      {
        assert LevelsAt(expected, (l, ask)) == LevelsOf(os, l, ask);
      }
    }
  }

  /** The cached levels of one side, known to be the sums. */
  lemma {:induction false} OwnLevel(levels: map<Side, Levels>, os: Orders, l: nat, ask: bool)
    requires AllLive(os) && LevelsMatch(levels, os)
    ensures LevelsAt(levels, (l, ask)) == LevelsOf(os, l, ask) && Positive(LevelsAt(levels, (l, ask)))
  {
    assert LevelsAt(levels, (l, ask)) == LevelsOf(os, l, ask);
    LevelsAreDepths(os, l, ask);
  }

  /** The cached level of a live order carries at least the order. */
  lemma {:induction false} CoversOrder(levels: map<Side, Levels>, os: Orders, r: nat)
    requires AllLive(os) && LevelsMatch(levels, os) && r in os
    ensures Positive(LevelsAt(levels, (os[r].locate, os[r].ask)))
    ensures Total(LevelsAt(levels, (os[r].locate, os[r].ask)), os[r].price) >= os[r].qty > 0
  {
    OwnLevel(levels, os, os[r].locate, os[r].ask);
    LevelsAfterRemove(os, r, os[r].locate, os[r].ask);
  }

  lemma {:induction false} CountsAfterInsert(live: map<nat, nat>, os: Orders, r: nat, o: Order)
    requires r !in os && CountsMatch(live, os)
    ensures CountsMatch(live[o.locate := CountAt(live, o.locate) + 1], os[r := o])
  {
    var live' := live[o.locate := CountAt(live, o.locate) + 1];
    forall l: nat
      ensures CountAt(live', l) == |RefsOf(os[r := o], l)|
    {
      assert RefsOf(os[r := o], l) == RefsOf(os, l) + if l == o.locate then {r} else {};
      assert CountAt(live, l) == |RefsOf(os, l)|;
    }
  }

  lemma {:induction false} CountsAfterReduce(live: map<nat, nat>, os: Orders, r: nat, n: nat)
    requires r in os && n < os[r].qty && CountsMatch(live, os)
    ensures CountsMatch(live, Less(os, r, n))
  {
    forall l: nat
      ensures CountAt(live, l) == |RefsOf(Less(os, r, n), l)|
    {
      assert RefsOf(Less(os, r, n), l) == RefsOf(os, l);
    }
  }

  lemma {:induction false} CountsAfterRemove(live: map<nat, nat>, os: Orders, r: nat)
    requires r in os && CountsMatch(live, os)
    ensures CountAt(live, os[r].locate) > 0
    ensures CountsMatch(live[os[r].locate := CountAt(live, os[r].locate) - 1], os - {r})
  {
    var home := os[r].locate;
    assert r in RefsOf(os, home);
    assert CountAt(live, home) == |RefsOf(os, home)|;
    var live' := live[home := CountAt(live, home) - 1];
    forall l: nat
      ensures CountAt(live', l) == |RefsOf(os - {r}, l)|
    {
      assert RefsOf(os - {r}, l) == RefsOf(os, l) - if l == home then {r} else {};
      assert CountAt(live, l) == |RefsOf(os, l)|;
    }
  }

  /** Once its level is raised, a new order leaves the levels right. */
  lemma {:induction false} InsertMatches(before: map<Side, Levels>, after: map<Side, Levels>, os: Orders, r: nat,
                                         o: Order)
    requires AllLive(os) && LevelsMatch(before, os) && r !in os && o.qty > 0
    requires OneBump(before, after, o.locate, o.ask, o.price, o.qty)
    ensures LevelsMatch(after, os[r := o])
  {
    forall l, ask
      ensures LevelsAt(after, (l, ask)) == LevelsOf(os[r := o], l, ask)
    {
      LevelsAfterInsert(os, r, o, l, ask);
    }
  }

  /** Once its level is lowered, a removed order leaves the levels right. */
  lemma {:induction false} RemoveMatches(before: map<Side, Levels>, after: map<Side, Levels>, os: Orders, r: nat)
    requires AllLive(os) && LevelsMatch(before, os) && r in os
    requires Total(LevelsAt(before, (os[r].locate, os[r].ask)), os[r].price) >= os[r].qty
    requires OneBump(before, after, os[r].locate, os[r].ask, os[r].price, -(os[r].qty as int))
    ensures LevelsMatch(after, os - {r})
  {
    forall l, ask
      ensures LevelsAt(after, (l, ask)) == LevelsOf(os - {r}, l, ask)
    {
      LevelsAfterRemove(os, r, l, ask);
    }
  }

  /** Once its level is lowered, a reduced order leaves the levels right. */
  lemma {:induction false} ReduceMatches(before: map<Side, Levels>, after: map<Side, Levels>, os: Orders, r: nat,
                                         n: nat)
    requires AllLive(os) && LevelsMatch(before, os) && r in os && n < os[r].qty
    requires Total(LevelsAt(before, (os[r].locate, os[r].ask)), os[r].price) >= n
    requires OneBump(before, after, os[r].locate, os[r].ask, os[r].price, -(n as int))
    ensures LevelsMatch(after, Less(os, r, n))
  {
    forall l, ask
      ensures LevelsAt(after, (l, ask)) == LevelsOf(Less(os, r, n), l, ask)
    {
      LevelsAfterReduce(os, r, n, l, ask);
    }
  }

  /** How the best price moves when one level changes. */
  lemma {:induction false} BestAfterBump(m: Levels, ask: bool, price: nat, delta: int)
    requires Positive(m) && Total(m, price) + delta >= 0 && (delta == 0 ==> price in m)
    ensures
      var was, now := Best(m, ask), Best(Bump(m, price, delta), ask);
      if was.None? || Better(ask, price, was.value) then now == Some(price)
      else (price == was.value && Total(m, price) + delta == 0) || now == was
  {
    var after := Bump(m, price, delta);
    var was := Best(m, ask);
    if was.None? || Better(ask, price, was.value) {
      assert price !in m;
      assert IsBest(after, ask, price);
      BestIsUnique(after, ask, price);
    } else if !(price == was.value && Total(m, price) + delta == 0) {
      assert IsBest(after, ask, was.value);
      BestIsUnique(after, ask, was.value);
    }
  }
}
