// The hardware book's table and level lists as images of the live orders: the
// table exact, every list the best of its side's levels or a beginning of them,
// and what the hardware publishes from them.
module BookRefinement {
  import opened Prices
  import opened LevelPipeline
  import opened TopOfBook
  import opened ShownLevels
  import opened OrderTable
  import opened Records
  import opened Engine
  import Market

  // ---- what mirrors what ----

  /** A symbol table without repetition; the remaining slots are unused. */
  predicate Distinct(locs: seq<nat>, cnt: nat) {
    cnt <= |locs| && forall a, b :: 0 <= a < b < cnt ==> locs[a] != locs[b]
  }

  predicate Strong(weak: set<nat>, k: nat) {
    k !in weak
  }

  /** Every list shows its side's levels: the best of them, for the weak sides a
      beginning of them. */
  ghost predicate SidesShow(p: Params, locs: seq<nat>, cnt: nat, sides: seq<seq<Level>>, os: Market.Orders,
                            weak: set<nat>) {
    && |sides| == 2 * p.nsym && cnt <= |locs| == p.nsym
    && forall j, ask :: 0 <= j < cnt ==>
         && SideShaped(p, sides[SideOf(j, ask)])
         && SideShows(sides[SideOf(j, ask)], Market.LevelsOf(os, locs[j], ask), ask, Strong(weak, SideOf(j, ask)))
  }

  function RowsOf(os: Market.Orders): Rows {
    map r | r in os :: Row(os[r].ask, os[r].price, os[r].qty)
  }

  /** Order sizes that the signed 32-bit change can carry. */
  predicate Sized(os: Market.Orders) {
    forall r :: r in os ==> 0 < os[r].qty < 0x8000_0000
  }

  function LastOr(m: map<nat, Market.Bbo>, l: nat): Market.Bbo {
    if l in m then m[l] else Market.NO_BBO
  }

  function StateOr(m: map<nat, nat>, l: nat): nat {
    if l in m then m[l] else 0
  }

  /** The registers of the hardware against the state of the reference. */
  ghost predicate Mirrors(p: Params, locs: seq<nat>, cnt: nat, c: Core, s: Market.State)
    requires Sound(p)
  {
    OrdersMirror(p, locs, cnt, c, s.orders, {}) && RestMirrors(p, locs, cnt, c, s) && Emitted(s, {})
  }

  // ---- levels ----

  lemma {:induction false} SizedIsLive(os: Market.Orders)
    requires Sized(os)
    ensures Market.AllLive(os)
  {
  }

  lemma {:induction false} SideOfInjective(j: nat, ask: bool, k: nat, ask': bool)
    ensures SideOf(j, ask) == SideOf(k, ask') ==> j == k && ask == ask'
  {
  }

  /** One order movement changes one level of one side. */
  ghost predicate Bumped(os: Market.Orders, os': Market.Orders, l: nat, q: LevelReq)
    requires Total(Market.LevelsOf(os, l, q.ask), q.price) + q.delta >= 0
  {
    forall l', ask ::
      Market.LevelsOf(os', l', ask) ==
      if l' == l && ask == q.ask then Bump(Market.LevelsOf(os, l, q.ask), q.price, q.delta)
      else Market.LevelsOf(os, l', ask)
  }

  /** One list written, all lists right: the other symbols and the other side keep theirs. */
  lemma {:induction false} SidesAfterBump(p: Params, locs: seq<nat>, cnt: nat, sides: seq<seq<Level>>,
                                          os: Market.Orders, os': Market.Orders,
                       j: nat, q: LevelReq, was: set<nat>, now: set<nat>)
    requires Sound(p) && Distinct(locs, cnt) && SidesShow(p, locs, cnt, sides, os, was) && j < cnt
    requires forall k :: k != SideOf(j, q.ask) ==> (k in was <==> k in now)
    requires
      var m, side := Market.LevelsOf(os, locs[j], q.ask), sides[SideOf(j, q.ask)];
      && -0x8000_0000 <= q.delta < 0x8000_0000 && Total(m, q.price) + q.delta >= 0 && Bumped(os, os', locs[j], q)
      && SideShows(LevelOp(side, q.ask, q.price, q.delta), Bump(m, q.price, q.delta), q.ask,
                   Strong(now, SideOf(j, q.ask)))
    ensures
      var k := SideOf(j, q.ask);
      SidesShow(p, locs, cnt, sides[k := LevelOp(sides[k], q.ask, q.price, q.delta)], os', now)
  {
    hide SideShows, Market.LevelsOf;
    var k := SideOf(j, q.ask);
    LevelOpBounded(sides[k], q.ask, q.price, q.delta);
    var sides' := sides[k := LevelOp(sides[k], q.ask, q.price, q.delta)];
    forall j', ask | 0 <= j' < cnt
      ensures SideShaped(p, sides'[SideOf(j', ask)])
      ensures SideShows(sides'[SideOf(j', ask)], Market.LevelsOf(os', locs[j'], ask), ask, Strong(now, SideOf(j', ask)))
    {
      SideOfInjective(j, q.ask, j', ask);
      assert j' != j ==> locs[j'] != locs[j];
    }
  }

  // ---- the best prices ----

  /** Lists that show the best levels publish the reference's best bid and offer. */
  lemma {:induction false} BboAgrees(p: Params, locs: seq<nat>, cnt: nat, sides: seq<seq<Level>>, os: Market.Orders,
                                     j: nat)
    requires Sound(p) && SidesShow(p, locs, cnt, sides, os, {}) && j < cnt
    ensures BboOf(sides[SideOf(j, false)], sides[SideOf(j, true)]) == Market.BboOf(os, locs[j])
  {
    TopShowsBest(sides[SideOf(j, false)], Market.LevelsOf(os, locs[j], false), false);
    TopShowsBest(sides[SideOf(j, true)], Market.LevelsOf(os, locs[j], true), true);
  }

  // ---- orders entering, leaving and shrinking ----

  ghost predicate OrdersMirror(p: Params, locs: seq<nat>, cnt: nat, c: Core, os: Market.Orders, weak: set<nat>)
    requires Sound(p)
  {
    && Engine.Shaped(p, c) && Distinct(locs, cnt) && |locs| == p.nsym && Sized(os)
    && Stores(c.mem, p.probe, RowsOf(os)) && SidesShow(p, locs, cnt, c.sides, os, weak)
  }

  /** A symbol's side: its true levels, and its list. */
  ghost function LevelsAt(locs: seq<nat>, os: Market.Orders, j: nat, ask: bool): Levels
    requires j < |locs|
  {
    Market.LevelsOf(os, locs[j], ask)
  }

  function ListAt(p: Params, c: Core, j: nat, ask: bool): seq<Level>
    requires Engine.Shaped(p, c) && j < p.nsym
  {
    c.sides[SideOf(j, ask)]
  }

  // ---- the hardware's order movements ----

  function Inserted(p: Params, c: Core, j: nat, ref: nat, row: Row, slot: nat): (r: Core)
    requires Sound(p) && Engine.Shaped(p, c) && j < p.nsym && slot < p.nslot && row.qty < 0x8000_0000
    ensures Engine.Shaped(p, r)
  {
    WithLevel(p, c.(mem := c.mem[slot := EntryOf(ref, row)]), j, LevelReq(row.ask, row.price, row.qty))
  }

  function Removed(p: Params, c: Core, j: nat, row: Row, slot: nat): (r: Core)
    requires Sound(p) && Engine.Shaped(p, c) && j < p.nsym && slot < p.nslot && row.qty < 0x8000_0000
    ensures Engine.Shaped(p, r)
  {
    WithLevel(p, c.(mem := c.mem[slot := BLANK]), j, LevelReq(row.ask, row.price, -(row.qty as int)))
  }

  function Lowered(p: Params, c: Core, j: nat, ref: nat, row: Row, n: nat, slot: nat): (r: Core)
    requires Sound(p) && Engine.Shaped(p, c) && j < p.nsym && slot < p.nslot && n < row.qty < 0x8000_0000
    ensures Engine.Shaped(p, r)
  {
    WithLevel(p, c.(mem := c.mem[slot := EntryOf(ref, row.(qty := row.qty - n))]), j,
              LevelReq(row.ask, row.price, -(n as int)))
  }

  /** A new order is one change of one level. */
  lemma {:induction false} InsertBumps(os: Market.Orders, r: nat, o: Market.Order)
    requires Market.AllLive(os) && r !in os && o.qty > 0
    ensures Bumped(os, os[r := o], o.locate, LevelReq(o.ask, o.price, o.qty))
  {
    forall l, ask
      ensures Market.LevelsOf(os[r := o], l, ask) ==
              if l == o.locate && ask == o.ask then Bump(Market.LevelsOf(os, o.locate, o.ask), o.price, o.qty)
              else Market.LevelsOf(os, l, ask)
    {
      Market.LevelsAfterInsert(os, r, o, l, ask);
    }
  }

  lemma {:induction false} InsertMirrors(p: Params, locs: seq<nat>, cnt: nat, c: Core, os: Market.Orders,
                      j: nat, r: nat, o: Market.Order, slot: nat, was: set<nat>, now: set<nat>)
    requires Sound(p) && OrdersMirror(p, locs, cnt, c, os, was) && j < cnt && o.locate == locs[j]
    requires r !in os && 0 < o.qty < 0x8000_0000 && forall k :: k != SideOf(j, o.ask) ==> (k in was <==> k in now)
    requires SideShows(LevelOp(ListAt(p, c, j, o.ask), o.ask, o.price, o.qty),
                       Bump(LevelsAt(locs, os, j, o.ask), o.price, o.qty), o.ask, Strong(now, SideOf(j, o.ask)))
    requires slot < p.nslot && !c.mem[slot].valid && OnPath(p.nslot, p.probe, r, slot)
    ensures OrdersMirror(p, locs, cnt, Inserted(p, c, j, r, Row(o.ask, o.price, o.qty), slot), os[r := o], now)
  {
    hide LevelOp, Market.LevelsOf, SidesShow, Bump;
    var q := LevelReq(o.ask, o.price, o.qty);
    StoreInsert(c.mem, p.probe, RowsOf(os), r, Row(o.ask, o.price, o.qty), slot);
    assert RowsOf(os[r := o]) == RowsOf(os)[r := Row(o.ask, o.price, o.qty)];
    SizedIsLive(os);
    InsertBumps(os, r, o);
    SidesAfterBump(p, locs, cnt, c.sides, os, os[r := o], j, q, was, now);
  }

  /** Taking shares off a live order never wraps its level: the change fits. */
  lemma {:induction false} LoweringFits(p: Params, locs: seq<nat>, cnt: nat, c: Core, os: Market.Orders, j: nat,
                                        r: nat, n: nat, weak: set<nat>)
    requires Sound(p) && OrdersMirror(p, locs, cnt, c, os, weak) && j < cnt && r in os && os[r].locate == locs[j]
             && n <= os[r].qty
    requires n == 0 ==> Carried(ListAt(p, c, j, os[r].ask), os[r].price)
    ensures Fits(ListAt(p, c, j, os[r].ask), LevelsAt(locs, os, j, os[r].ask), os[r].price, -(n as int))
  {
    var ask := os[r].ask;
    hide Carried, Stores;
    SizedIsLive(os);
    Market.LevelsAfterRemove(os, r, locs[j], ask);
    assert SideShows(ListAt(p, c, j, ask), LevelsAt(locs, os, j, ask), ask, Strong(weak, SideOf(j, ask)));
  }

  lemma {:induction false} RemoveBumps(os: Market.Orders, r: nat)
    requires Market.AllLive(os) && r in os
    ensures Total(Market.LevelsOf(os, os[r].locate, os[r].ask), os[r].price) >= os[r].qty
    ensures Bumped(os, os - {r}, os[r].locate, LevelReq(os[r].ask, os[r].price, -(os[r].qty as int)))
  {
    Market.LevelsAfterRemove(os, r, os[r].locate, os[r].ask);
    forall l, ask
      ensures Market.LevelsOf(os - {r}, l, ask) ==
              if l == os[r].locate && ask == os[r].ask
              then Bump(Market.LevelsOf(os, os[r].locate, os[r].ask), os[r].price, -(os[r].qty as int))
              else Market.LevelsOf(os, l, ask)
    {
      Market.LevelsAfterRemove(os, r, l, ask);
    }
  }

  lemma {:induction false} RemoveMirrors(p: Params, locs: seq<nat>, cnt: nat, c: Core, os: Market.Orders, j: nat,
                                         r: nat, slot: nat,
                      was: set<nat>, now: set<nat>)
    requires Sound(p) && OrdersMirror(p, locs, cnt, c, os, was) && j < cnt && r in os && os[r].locate == locs[j]
    requires forall k :: k != SideOf(j, os[r].ask) ==> (k in was <==> k in now)
    requires slot < p.nslot && c.mem[slot] == EntryOf(r, RowsOf(os)[r])
    requires Total(LevelsAt(locs, os, j, os[r].ask), os[r].price) >= os[r].qty
    requires SideShows(LevelOp(ListAt(p, c, j, os[r].ask), os[r].ask, os[r].price, -(os[r].qty as int)),
                       Bump(LevelsAt(locs, os, j, os[r].ask), os[r].price, -(os[r].qty as int)), os[r].ask,
                         Strong(now, SideOf(j, os[r].ask)))
    ensures OrdersMirror(p, locs, cnt, Removed(p, c, j, RowsOf(os)[r], slot), os - {r}, now)
  {
    hide LevelOp, Market.LevelsOf, SidesShow, Bump;
    var q := LevelReq(os[r].ask, os[r].price, -(os[r].qty as int));
    StoreDelete(c.mem, p.probe, RowsOf(os), slot);
    assert RowsOf(os - {r}) == RowsOf(os) - {r};
    SizedIsLive(os);
    RemoveBumps(os, r);
    SidesAfterBump(p, locs, cnt, c.sides, os, os - {r}, j, q, was, now);
  }

  lemma {:induction false} ReduceBumps(os: Market.Orders, r: nat, n: nat)
    requires Market.AllLive(os) && r in os && n < os[r].qty
    ensures Total(Market.LevelsOf(os, os[r].locate, os[r].ask), os[r].price) >= n
    ensures Bumped(os, Market.Less(os, r, n), os[r].locate, LevelReq(os[r].ask, os[r].price, -(n as int)))
  {
    Market.LevelsAfterReduce(os, r, n, os[r].locate, os[r].ask);
    forall l, ask
      ensures Market.LevelsOf(Market.Less(os, r, n), l, ask) ==
              if l == os[r].locate && ask == os[r].ask
              then Bump(Market.LevelsOf(os, os[r].locate, os[r].ask), os[r].price, -(n as int))
              else Market.LevelsOf(os, l, ask)
    {
      Market.LevelsAfterReduce(os, r, n, l, ask);
    }
  }

  lemma {:induction false} LessIs(os: Market.Orders, r: nat, n: nat)
    requires Sized(os) && r in os && n < os[r].qty
    ensures os[r].qty < 0x8000_0000 && Sized(Market.Less(os, r, n))
    ensures RowsOf(Market.Less(os, r, n)) == RowsOf(os)[r := Row(os[r].ask, os[r].price, os[r].qty - n)]
  {
  }

  lemma {:induction false} ReduceMirrors(p: Params, locs: seq<nat>, cnt: nat, c: Core, os: Market.Orders, j: nat,
                                         r: nat, n: nat, slot: nat,
                      was: set<nat>, now: set<nat>)
    requires Sound(p) && OrdersMirror(p, locs, cnt, c, os, was) && j < cnt && r in os && os[r].locate == locs[j]
             && n < os[r].qty
    requires forall k :: k != SideOf(j, os[r].ask) ==> (k in was <==> k in now)
    requires slot < p.nslot && c.mem[slot] == EntryOf(r, RowsOf(os)[r])
    requires Total(LevelsAt(locs, os, j, os[r].ask), os[r].price) >= n
    requires SideShows(LevelOp(ListAt(p, c, j, os[r].ask), os[r].ask, os[r].price, -(n as int)),
                       Bump(LevelsAt(locs, os, j, os[r].ask), os[r].price, -(n as int)), os[r].ask,
                         Strong(now, SideOf(j, os[r].ask)))
    ensures OrdersMirror(p, locs, cnt, Lowered(p, c, j, r, RowsOf(os)[r], n, slot), Market.Less(os, r, n), now)
  {
    hide LevelOp, Market.LevelsOf, SidesShow, Bump, SideShows, Stores, Market.Less, Sized;
    var row := Row(os[r].ask, os[r].price, os[r].qty - n);
    var q := LevelReq(os[r].ask, os[r].price, -(n as int));
    SizedIsLive(os);
    LessIs(os, r, n);
    StoreUpdate(c.mem, p.probe, RowsOf(os), slot, row);
    ReduceBumps(os, r, n);
    SidesAfterBump(p, locs, cnt, c.sides, os, Market.Less(os, r, n), j, q, was, now);
  }

  // ---- events ----

  /** A depth word shows the best levels of a side, best first. */
  ghost predicate DepthShows(p: Params, depth: seq<Level>, m: Levels, ask: bool)
    requires Sound(p)
  {
    exists side: seq<Level> :: |side| == p.cap && SideShows(side, m, ask, true) && depth == side[..p.nd]
  }

  /** A hardware event is the reference's event, with the depth of the book after it. */
  ghost predicate Agrees(p: Params, e: Option<Event>, out: Market.Outcome, os: Market.Orders)
    requires Sound(p)
  {
    match out
    case Event(l, bbo, changed) =>
      && e.Some? && e.value.locate == l && e.value.bbo == bbo && e.value.changed == changed
      && DepthShows(p, e.value.bids, Market.LevelsOf(os, l, false), false)
      && DepthShows(p, e.value.asks, Market.LevelsOf(os, l, true), true)
    case Silent => e.None?
    case Refused => e.None?
  }

  /** A symbol with a live order has a best price, so its first event is a change. */
  lemma {:induction false} LiveIsQuoted(os: Market.Orders, r: nat)
    requires Market.AllLive(os) && r in os
    ensures Market.BboOf(os, os[r].locate) != Market.NO_BBO
  {
    var l, ask := os[r].locate, os[r].ask;
    Market.LevelsAreDepths(os, l, ask);
    assert os[r].price in Market.LevelsOf(os, l, ask);
  }

  /** The registers that carry neither orders nor published prices. */
  predicate PlainMirrors(p: Params, locs: seq<nat>, cnt: nat, c: Core, s: Market.State)
    requires Engine.Shaped(p, c) && cnt <= |locs| == p.nsym
  {
    && (forall j :: 0 <= j < cnt ==> c.tstate[j] == StateOr(s.trading, locs[j]))
    && c.open == s.open && c.anomalies == s.anomalies % WORD
  }

  /** The registers that carry no orders. */
  predicate RestMirrors(p: Params, locs: seq<nat>, cnt: nat, c: Core, s: Market.State)
    requires Engine.Shaped(p, c) && cnt <= |locs| == p.nsym
  {
    && PlainMirrors(p, locs, cnt, c, s)
    && (forall j :: 0 <= j < cnt ==> c.prev[j] == LastOr(s.lastBbo, locs[j])) && c.crosses == s.crosses % WORD
  }

  /** Every symbol with a live order has emitted, except perhaps one. */
  predicate Emitted(s: Market.State, except: set<nat>) {
    forall r :: r in s.orders ==> s.orders[r].locate in s.lastBbo || s.orders[r].locate in except
  }

  lemma {:induction false} RestAfterEmit(p: Params, locs: seq<nat>, cnt: nat, c: Core, s: Market.State, j: nat)
    requires Sound(p) && Engine.Shaped(p, c) && |locs| == p.nsym && Distinct(locs, cnt) && j < cnt
             && RestMirrors(p, locs, cnt, c, s)
    requires BboOf(c.sides[SideOf(j, false)], c.sides[SideOf(j, true)]) == Market.BboOf(s.orders, locs[j])
    requires locs[j] in s.lastBbo || Market.BboOf(s.orders, locs[j]) != Market.NO_BBO
    ensures
      var (c', e) := Emit(p, c, locs[j], j);
      var (s', out) := Market.Publish(s, locs[j]);
      && RestMirrors(p, locs, cnt, c', s')
      && out == Market.Event(e.locate, e.bbo, e.changed)
  {
    var (c', e) := Emit(p, c, locs[j], j);
    var (s', out) := Market.Publish(s, locs[j]);
    forall i | 0 <= i < cnt
      ensures c'.prev[i] == LastOr(s'.lastBbo, locs[i])
    {
      assert i != j ==> locs[i] != locs[j];
    }
  }

  lemma {:induction false} EmitMirrors(p: Params, locs: seq<nat>, cnt: nat, c: Core, s: Market.State, j: nat)
    requires Sound(p) && OrdersMirror(p, locs, cnt, c, s.orders, {}) && j < cnt
    requires RestMirrors(p, locs, cnt, c, s) && Emitted(s, {locs[j]})
    requires locs[j] in s.lastBbo || exists r :: r in s.orders && s.orders[r].locate == locs[j]
    ensures
      var (c', e) := Emit(p, c, locs[j], j);
      var (s', out) := Market.Publish(s, locs[j]);
      Mirrors(p, locs, cnt, c', s') && Agrees(p, Some(e), out, s'.orders)
  {
    BboAgrees(p, locs, cnt, c.sides, s.orders, j);
    SizedIsLive(s.orders);
    if locs[j] !in s.lastBbo {
      var r :| r in s.orders && s.orders[r].locate == locs[j];
      LiveIsQuoted(s.orders, r);
    }
    RestAfterEmit(p, locs, cnt, c, s, j);
    var (c', e) := Emit(p, c, locs[j], j);
    assert DepthShows(p, e.bids, Market.LevelsOf(s.orders, locs[j], false), false);
    assert DepthShows(p, e.asks, Market.LevelsOf(s.orders, locs[j], true), true);
  }

  lemma {:induction false} SlotInOrder(lv: seq<Level>, cap: nat, m: Levels, ask: bool, i: nat)
    requires |lv| <= cap && Prefix(ask, lv, m) && (|lv| == cap || Complete(lv, m)) && i < cap
    ensures Pad(lv, cap)[i].qty != 0 ==> i < |lv| && Pad(lv, cap)[i] == lv[i]
    ensures Pad(lv, cap)[i].qty == 0 ==>
              Pad(lv, cap)[i] == VACANT && |lv| <= i && forall q :: q in m ==>
                exists j :: 0 <= j < |lv| && lv[j].price == q
  {
    if |lv| <= i {
      forall q | q in m
        ensures exists j :: 0 <= j < |lv| && lv[j].price == q
      {
        assert !Dropped(lv, m, q);
        assert In(lv, q);
      }
    }
  }

  lemma {:induction false} BehindSlot(lv: seq<Level>, m: Levels, ask: bool, i: nat, q: nat)
    requires Prefix(ask, lv, m) && i < |lv| && q in m && forall j :: 0 <= j <= i ==> lv[j].price != q
    ensures if ask then q > lv[i].price else q < lv[i].price
  {
    if In(lv, q) {
      var j :| 0 <= j < |lv| && lv[j].price == q;
      assert Better(ask, lv[i].price, lv[j].price);
    } else {
      assert Dropped(lv, m, q);
    }
  }

  /** The levels of a public depth are the best of their side, best first: prices fall on the
      bid side and rise on the ask side, unused slots are zero and stand last, and a price
      that is not shown is behind all that are. */
  lemma {:induction false} DepthInOrder(p: Params, depth: seq<Level>, m: Levels, ask: bool, i: nat)
    requires Sound(p) && DepthShows(p, depth, m, ask) && i < |depth|
    ensures |depth| == p.nd
    ensures depth[i].qty != 0 ==>
              && depth[i].price in m && depth[i].qty == m[depth[i].price]
              && (forall j :: 0 <= j < i ==>
                    depth[j].qty != 0 && if ask then depth[j].price < depth[i].price
                      else depth[j].price > depth[i].price)
              && (forall q :: q in m && (forall j :: 0 <= j <= i ==> depth[j].price != q) ==>
                    if ask then q > depth[i].price else q < depth[i].price)
    ensures depth[i].qty == 0 ==>
              depth[i] == Level(0, 0) && forall q :: q in m ==> exists j :: 0 <= j < i && depth[j].price == q
  {
    var side: seq<Level> :| |side| == p.cap && SideShows(side, m, ask, true) && depth == side[..p.nd];
    var lv: seq<Level> :| ListShows(lv, side, m, ask, true);
    SlotInOrder(lv, p.cap, m, ask, i);
    if depth[i].qty != 0 {
      forall q | q in m && forall j :: 0 <= j <= i ==> depth[j].price != q
        ensures if ask then q > depth[i].price else q < depth[i].price
      {
        assert forall j :: 0 <= j <= i ==> depth[j] == lv[j];
        BehindSlot(lv, m, ask, i, q);
      }
    } else {
      assert forall j :: 0 <= j < |lv| ==> depth[j] == lv[j];
    }
  }
}
