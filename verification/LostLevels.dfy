// What past the capacity of a list can go wrong, for every capacity and from wire
// messages on: a list that has lost a level shows a worse bid as the best one.
module LostLevels {
  import opened Bytes
  import opened Prices
  import opened LevelPipeline
  import opened OrderTable
  import opened Records
  import opened Engine
  import opened Receiver
  import opened Clock
  import opened Overlap
  import opened ClockRefinement
  import opened BookRefinement
  import opened StepRefinement
  import opened Runs
  import opened TableRuns
  import opened Itch
  import opened ParserSafety
  import opened Chain
  import LevelRuns
  import Lockstep
  import Parser = ItchParser
  import WireToBook
  import WireFeed
  import Market

  // ---- the messages ----

  /** One bid more than a list has slots, from the top down; then the listed ones go, and
      one bid worse than all comes. */
  function Nth(l: nat, top: nat, cap: nat, i: nat): Market.Message
    requires cap < top
  {
    if i <= cap then Market.AddOrder(l, i, false, 5, top - i)
    else if i <= 2 * cap then Market.DeleteOrder(l, i - cap - 1)
    else Market.AddOrder(l, cap + 1, false, 5, top - cap - 1)
  }

  function Bidding(l: nat, top: nat, cap: nat, n: nat): (ms: seq<Market.Message>)
    requires cap < top
    ensures |ms| == n
  {
    if n == 0 then [] else Bidding(l, top, cap, n - 1) + [Nth(l, top, cap, n - 1)]
  }

  // ---- what the reference makes of them ----

  /** The bids lo, lo + 1, ... below hi. */
  function Bids(l: nat, top: nat, lo: nat, hi: nat): Market.Orders
    requires hi <= top + 1
  {
    map ref | ref in LevelRuns.Below(hi) && lo <= ref :: Market.Order(l, false, top - ref, 5)
  }

  function Low(cap: nat, n: nat): nat {
    if n <= cap + 1 then 0 else if n <= 2 * cap + 1 then n - cap - 1 else cap
  }

  function High(cap: nat, n: nat): nat {
    if n <= cap + 1 then n else if n <= 2 * cap + 1 then cap + 1 else cap + 2
  }

  lemma {:induction false} OneBidMore(l: nat, top: nat, lo: nat, hi: nat)
    requires lo <= hi <= top
    ensures hi !in Bids(l, top, lo, hi) && Bids(l, top, lo, hi)[hi := Market.Order(l, false, top - hi, 5)]
            == Bids(l, top, lo, hi + 1)
  {
  }

  lemma {:induction false} OneBidLess(l: nat, top: nat, lo: nat, hi: nat)
    requires lo < hi <= top + 1
    ensures lo in Bids(l, top, lo, hi) && Bids(l, top, lo, hi) - {lo} == Bids(l, top, lo + 1, hi)
  {
  }

  lemma {:induction false} BidsStep(s: Market.State, l: nat, top: nat, cap: nat, n: nat)
    requires cap < top && n < 2 * cap + 2 && s.orders == Bids(l, top, Low(cap, n), High(cap, n))
    ensures Market.Step(s, Nth(l, top, cap, n)).0.orders == Bids(l, top, Low(cap, n + 1), High(cap, n + 1))
  {
    hide Market.Publish, Bids;
    if n <= cap {
      OneBidMore(l, top, 0, n);
    } else if n <= 2 * cap {
      OneBidLess(l, top, n - cap - 1, cap + 1);
    } else {
      OneBidMore(l, top, cap, cap + 1);
    }
  }

  lemma {:induction false} LiveBids(l: nat, top: nat, cap: nat, n: nat)
    requires cap < top && n <= 2 * cap + 2
    ensures Market.Run(Bidding(l, top, cap, n)).0.orders == Bids(l, top, Low(cap, n), High(cap, n))
  {
    hide Bids, Market.Step;
    if n > 0 {
      LiveBids(l, top, cap, n - 1);
      assert Bidding(l, top, cap, n)[..n - 1] == Bidding(l, top, cap, n - 1);
      BidsStep(Market.Run(Bidding(l, top, cap, n - 1)).0, l, top, cap, n - 1);
    } else {
      NoBids(l, top);
    }
  }

  lemma {:induction false} NoBids(l: nat, top: nat)
    ensures Bids(l, top, 0, 0) == map[]
  {
  }

  /** The missing bid is the best one in the end. */
  lemma {:induction false} MissingIsBest(l: nat, top: nat, cap: nat)
    requires cap < top
    ensures Market.BboOf(Bids(l, top, cap, cap + 2), l).bidPrice == top - cap
  {
    var os := Bids(l, top, cap, cap + 2);
    assert os[cap] == Market.Order(l, false, top - cap, 5);
    assert top - cap in Market.PricesOf(os, l, false);
    BestIsUnique(Market.LevelsOf(os, l, false), false, top - cap);
  }

  // ---- what the list makes of them ----

  /** The bids of 5 falling from top - lo, hi - lo of them. */
  function Down(top: nat, lo: nat, hi: nat): (lv: seq<Level>)
    requires lo <= hi <= top + 1
    ensures |lv| == hi - lo
  {
    seq(hi - lo, i requires 0 <= i < hi - lo => Level(top - lo - i, 5))
  }

  function Listed(top: nat, cap: nat, n: nat): (lv: seq<Level>)
    requires cap < top && n <= 2 * cap + 2
    ensures |lv| <= cap || n > 2 * cap + 1
  {
    if n <= cap then Down(top, 0, n)
    else if n == cap + 1 then Down(top, 0, cap)
    else if n <= 2 * cap + 1 then Down(top, n - cap - 1, cap)
    else [Level(top - cap - 1, 5)]
  }

  lemma {:induction false} DownRanked(top: nat, lo: nat, hi: nat)
    requires lo <= hi <= top + 1
    ensures Ranked(false, Down(top, lo, hi))
  {
  }

  /** A bid below all listed ones: last in a list with room, discarded by a full one. */
  lemma {:induction false} BelowAll(top: nat, cap: nat, n: nat)
    requires n <= cap <= top
    ensures Adjust(Down(top, 0, n), cap, false, top - n, 5) == if n < cap then Down(top, 0, n + 1) else Down(top, 0, n)
  {
    assert Rank(false, Down(top, 0, n), top - n) == n;
  }

  /** The best bid goes. */
  lemma {:induction false} BestGoes(top: nat, cap: nat, n: nat)
    requires n < cap <= top
    ensures Adjust(Down(top, n, cap), cap, false, top - n, -5) == Down(top, n + 1, cap)
  {
    assert Rank(false, Down(top, n, cap), top - n) == 0;
  }

  lemma {:induction false} ListedStep(top: nat, cap: nat, n: nat)
    requires 0 < cap < top && n < 2 * cap + 2
    ensures
      var lv := Listed(top, cap, n);
      Ranked(false, lv) && Listed(top, cap, n + 1) ==
      if n <= cap then Adjust(lv, cap, false, top - n, 5)
      else if n <= 2 * cap then Adjust(lv, cap, false, top - (n - cap - 1), -5)
      else Adjust(lv, cap, false, top - cap - 1, 5)
  {
    hide Adjust, Ranked, Down;
    if n <= cap {
      DownRanked(top, 0, n);
      BelowAll(top, cap, n);
    } else if n <= 2 * cap {
      DownRanked(top, n - cap - 1, cap);
      BestGoes(top, cap, n - cap - 1);
    } else {
      IntoEmpty(top, cap);
    }
  }

  /** The worse bid is the only one listed. */
  lemma {:induction false} IntoEmpty(top: nat, cap: nat)
    requires 0 < cap < top
    ensures Down(top, cap, cap) == [] && Ranked(false, [])
    ensures Adjust([], cap, false, top - cap - 1, 5) == [Level(top - cap - 1, 5)]
  {
  }

  // ---- what the hardware makes of them ----

  /** Records of one symbol slot that carry the first of these messages. */
  ghost predicate Tells(p: Params, rs: seq<Record>, j: nat, l: nat, top: nat)
    requires Sound(p) && p.cap < top
  {
    && GoodRecords(p, rs) && |rs| <= 2 * p.cap + 2
    && (forall i :: 0 <= i < |rs| ==> rs[i].index == j && !rs[i].bad)
    && MessagesOf(p, rs) == Bidding(l, top, p.cap, |rs|)
  }

  lemma {:induction false} TellsLess(p: Params, rs: seq<Record>, j: nat, l: nat, top: nat)
    requires Sound(p) && p.cap < top && Tells(p, rs, j, l, top) && rs != []
    ensures
      var init, r := rs[..|rs| - 1], rs[|rs| - 1];
      && GoodRecords(p, rs) && GoodRecords(p, init) && |rs| <= 2 * p.cap + 2 && Tells(p, init, j, l, top)
      && GoodRecord(p, r) && r.index == j < p.nsym && !r.bad && MessageOf(p, r) == Nth(l, top, p.cap, |rs| - 1)
  {
    hide MessageOf, Nth;
    var init, r := rs[..|rs| - 1], rs[|rs| - 1];
    assert GoodRecord(p, r);
    assert MessagesOf(p, rs)[..|rs| - 1] == MessagesOf(p, init);
    assert Bidding(l, top, p.cap, |rs|)[..|rs| - 1] == Bidding(l, top, p.cap, |rs| - 1);
    assert MessagesOf(p, rs)[|rs| - 1] == Bidding(l, top, p.cap, |rs|)[|rs| - 1];
  }

  /** What the decoder reads out of record n. */
  lemma {:induction false} NthOp(p: Params, r: Record, l: nat, top: nat, n: nat)
    requires Sound(p) && p.cap < top && GoodRecord(p, r) && MessageOf(p, r) == Nth(l, top, p.cap, n)
    ensures r.locate == l
    ensures DecodeOp(p, r.mtype, r.words) ==
            if n <= p.cap then Add(n, false, 5, top - n)
            else if n <= 2 * p.cap then Delete(n - p.cap - 1)
            else Add(p.cap + 1, false, 5, top - p.cap - 1)
  {
    hide DecodeOp;
  }

  /** The table stores the live bids. */
  lemma {:induction false} TellsRows(p: Params, rs: seq<Record>, j: nat, l: nat, top: nat)
    requires Sound(p) && p.cap < top && Tells(p, rs, j, l, top) && PathsFree(p, rs)
    ensures
      var os := Bids(l, top, Low(p.cap, |rs|), High(p.cap, |rs|));
      && Market.Run(MessagesOf(p, rs)).0.orders == os && Stores(RunRecords(p, rs).0.mem, p.probe, RowsOf(os))
      && RowsOf(os).Keys == os.Keys && (forall q :: q in os ==> RowsOf(os)[q] == Row(false, top - q, 5))
  {
    hide RunRecords, Stores, PathFull, DecodeOp, MessageOf, Market.Step, Nth;
    TableAlongRun(p, rs);
    RowsAreOrders(p, rs);
    LiveBids(l, top, p.cap, |rs|);
  }

  /** The reference that message n introduces. */
  function NewBid(cap: nat, n: nat): nat {
    if n <= cap then n else cap + 1
  }

  /** Every new order finds a vacant slot at the end of its path. */
  lemma {:induction false} BidFindsRoom(p: Params, mem: seq<Entry>, l: nat, top: nat, n: nat)
    requires Sound(p) && p.cap < top && p.cap + 1 + p.probe <= p.nslot == |mem| && (n <= p.cap || n == 2 * p.cap + 1)
    requires Stores(mem, p.probe, RowsOf(Bids(l, top, Low(p.cap, n), High(p.cap, n))))
    ensures !PathFull(mem, p.probe, NewBid(p.cap, n))
  {
    hide Stores, PathFull;
    LastSlotIsFree(mem, p.probe, RowsOf(Bids(l, top, Low(p.cap, n), High(p.cap, n))), NewBid(p.cap, n));
  }

  lemma {:induction false} BidsFindRoom(p: Params, rs: seq<Record>, j: nat, l: nat, top: nat)
    requires Sound(p) && p.cap < top && p.cap + 1 + p.probe <= p.nslot && Tells(p, rs, j, l, top)
    ensures PathsFree(p, rs)
    decreases |rs|
  {
    hide Tells, Nth, RunRecords, RowsOf, Bids, Stores, PathFull, DecodeOp, MessageOf, Market.Run;
    if rs != [] {
      var init, r := rs[..|rs| - 1], rs[|rs| - 1];
      var n := |init|;
      TellsLess(p, rs, j, l, top);
      BidsFindRoom(p, init, j, l, top);
      NthOp(p, r, l, top, n);
      TellsRows(p, init, j, l, top);
      if n <= p.cap || n == 2 * p.cap + 1 {
        BidFindsRoom(p, RunRecords(p, init).0.mem, l, top, n);
      }
    }
  }

  /** An accepted bid: its list is changed by one insertion, and published from. */
  lemma {:induction false} BidEnters(p: Params, c: Core, rows: Rows, r: Record, lv: seq<Level>, ref: nat, price: nat)
    requires Sound(p) && Engine.Shaped(p, c) && GoodRecord(p, r) && !r.bad && Stores(c.mem, p.probe, rows)
    requires DecodeOp(p, r.mtype, r.words) == Add(ref, false, 5, price) && ref !in rows
             && !PathFull(c.mem, p.probe, ref)
    requires |lv| <= p.cap && Ranked(false, lv) && ListAt(p, c, r.index, false) == Pad(lv, p.cap)
    ensures
      var (c', e) := Process(p, c, r);
      && ListAt(p, c', r.index, false) == Pad(Adjust(lv, p.cap, false, price, 5), p.cap)
      && e.Some? && e.value.locate == r.locate && e.value.bbo.bidPrice == Selected(ListAt(p, c', r.index, false)).price
  {
    hide Stores, Lookup, PathFull, DecodeOp, LevelOp, Adjust, Ranked, Selected, Process;
    LookupDecides(c.mem, p.probe, rows, ref, true, true);
    FullIsPathFull(c.mem, p.probe, rows, ref, true);
    HardwareAdd(p, c, r);
    LevelOpIsAdjust(lv, p.cap, false, price, 5);
  }

  /** A live bid goes: its list is changed by one lowering. */
  lemma {:induction false} BidLeaves(p: Params, c: Core, rows: Rows, r: Record, lv: seq<Level>, ref: nat, price: nat)
    requires Sound(p) && Engine.Shaped(p, c) && GoodRecord(p, r) && !r.bad && Stores(c.mem, p.probe, rows)
    requires DecodeOp(p, r.mtype, r.words) == Delete(ref) && ref in rows && rows[ref] == Row(false, price, 5)
    requires |lv| <= p.cap && Ranked(false, lv) && ListAt(p, c, r.index, false) == Pad(lv, p.cap)
    ensures ListAt(p, Process(p, c, r).0, r.index, false) == Pad(Adjust(lv, p.cap, false, price, -5), p.cap)
  {
    hide Stores, Lookup, DecodeOp, LevelOp, Adjust, Ranked, Selected, Process;
    LookupDecides(c.mem, p.probe, rows, ref, true, false);
    HardwareDelete(p, c, r, rows[ref]);
    LevelOpIsAdjust(lv, p.cap, false, price, -5);
  }

  /** One record on the list as listed; what an add's event shows. */
  lemma {:induction false} ListStep(p: Params, c: Core, r: Record, l: nat, top: nat, n: nat)
    requires Sound(p) && p.cap < top && p.cap + 1 + p.probe <= p.nslot && n < 2 * p.cap + 2
    requires Engine.Shaped(p, c) && GoodRecord(p, r) && !r.bad && MessageOf(p, r) == Nth(l, top, p.cap, n)
    requires Stores(c.mem, p.probe, RowsOf(Bids(l, top, Low(p.cap, n), High(p.cap, n))))
    requires |Listed(top, p.cap, n)| <= p.cap && ListAt(p, c, r.index, false) == Pad(Listed(top, p.cap, n), p.cap)
    ensures |Listed(top, p.cap, n + 1)| <= p.cap
    ensures
      var (c', e) := Process(p, c, r);
      && ListAt(p, c', r.index, false) == Pad(Listed(top, p.cap, n + 1), p.cap)
      && (n == 2 * p.cap + 1 ==>
            e.Some? && e.value.locate == l && e.value.bbo.bidPrice == Selected(ListAt(p, c', r.index, false)).price)
  {
    hide Stores, PathFull, DecodeOp, MessageOf, Nth, Process, Adjust, Ranked, Selected, Listed;
    NthOp(p, r, l, top, n);
    ListedStep(top, p.cap, n);
    var os := Bids(l, top, Low(p.cap, n), High(p.cap, n));
    if n <= p.cap || n == 2 * p.cap + 1 {
      BidFindsRoom(p, c.mem, l, top, n);
      BidEnters(p, c, RowsOf(os), r, Listed(top, p.cap, n), NewBid(p.cap, n), top - NewBid(p.cap, n));
    } else {
      BidLeaves(p, c, RowsOf(os), r, Listed(top, p.cap, n), n - p.cap - 1, top - (n - p.cap - 1));
    }
  }

  /** Record by record the list is as listed. */
  lemma {:induction false} ListsBids(p: Params, rs: seq<Record>, j: nat, l: nat, top: nat)
    requires Sound(p) && p.cap < top && p.cap + 1 + p.probe <= p.nslot && Tells(p, rs, j, l, top) && j < p.nsym
    ensures |Listed(top, p.cap, |rs|)| <= p.cap
    ensures ListAt(p, RunRecords(p, rs).0, j, false) == Pad(Listed(top, p.cap, |rs|), p.cap)
    ensures
      var (c, es) := RunRecords(p, rs);
      |rs| == 2 * p.cap + 2 ==>
        && es != [] && es[|es| - 1].locate == l
        && es[|es| - 1].bbo.bidPrice == Selected(ListAt(p, c, j, false)).price
    decreases |rs|
  {
    hide Tells, Nth, RowsOf, Stores, PathFull, PathsFree, DecodeOp, MessageOf, Process, Selected, Listed, Bids,
         Market.Run, Pad;
    if rs == [] {
      EmptyList(p, j, top);
    } else {
      var init, r := rs[..|rs| - 1], rs[|rs| - 1];
      TellsLess(p, rs, j, l, top);
      ListsBids(p, init, j, l, top);
      BidsFindRoom(p, init, j, l, top);
      TellsRows(p, init, j, l, top);
      ListStep(p, RunRecords(p, init).0, r, l, top, |init|);
    }
  }

  lemma {:induction false} EmptyList(p: Params, j: nat, top: nat)
    requires Sound(p) && p.cap < top && j < p.nsym
    ensures |Listed(top, p.cap, 0)| <= p.cap && ListAt(p, Reset(p), j, false) == Pad(Listed(top, p.cap, 0), p.cap)
  {
  }

  // ---- the wrong best price ----

  /** For every capacity: after these messages the hardware publishes the last bid as the
      best one, while the one it has lost is best. */
  lemma {:induction false} WrongBestShown(p: Params, rs: seq<Record>, j: nat, l: nat, top: nat)
    requires Sound(p) && p.cap < top && p.cap + 1 + p.probe <= p.nslot
    requires Tells(p, rs, j, l, top) && |rs| == 2 * p.cap + 2
    ensures
      var (es, s) := (RunRecords(p, rs).1, Market.Run(MessagesOf(p, rs)).0);
      && es != [] && es[|es| - 1].locate == l && es[|es| - 1].bbo.bidPrice == top - p.cap - 1
      && Market.BboOf(s.orders, l).bidPrice == top - p.cap
  {
    hide Nth, RowsOf, Stores, PathFull, PathsFree, DecodeOp, MessageOf, RunRecords, Market.Run, Market.BboOf, Bids;
    assert GoodRecord(p, rs[0]) && rs[0].index == j;
    ListsBids(p, rs, j, l, top);
    LiveBids(l, top, p.cap, |rs|);
    MissingIsBest(l, top, p.cap);
    FirstSetIs(Occupied(ListAt(p, RunRecords(p, rs).0, j, false)), 0);
  }

  /** The clocked machine: once the finished records are these messages for one symbol,
      the last event of either channel shows the wrong bid. */
  lemma {:induction false} ClockedWrongBest(p: Params, r0: Regs, ins: seq<In>, j: nat, l: nat, top: nat)
    requires Sound(p) && p.cap < top && p.cap + 1 + p.probe <= p.nslot
    requires IsReset(p, r0) && Wired(p, ins) && Run(p, r0, ins).x.ok
    requires
      var c := Run(p, r0, ins);
      0 <= Finished(c.r, c.x) <= |c.x.done| ==>
        Tells(p, c.x.done[..Finished(c.r, c.x)], j, l, top) && Finished(c.r, c.x) == 2 * p.cap + 2
    ensures
      var c := Run(p, r0, ins);
      var bbos := c.bbos + Pending(c.r.out.bboValid, c.r.out.event);
      && 0 <= Finished(c.r, c.x) <= |c.x.done|
      && bbos != [] && bbos[|bbos| - 1].bbo.bidPrice == top - p.cap - 1
      && Market.BboOf(Market.Run(MessagesOf(p, c.x.done[..Finished(c.r, c.x)])).0.orders, l).bidPrice == top - p.cap
  {
    hide Run, Tells, RunRecords, Market.Run, Market.BboOf, MessagesOf;
    DeliversHistory(p, r0, ins);
    var c := Run(p, r0, ins);
    WrongBestShown(p, c.x.done[..Finished(c.r, c.x)], j, l, top);
  }

  // ---- the same on the wire ----

  function AddWire(l: nat, ref: nat, shares: nat, price: nat): (m: Message)
    ensures |m| == 36
  {
    [TYPE_A] + ToBigEndian(l, 2) + Zeros(8) + ToBigEndian(ref, 8) + [0x42] + ToBigEndian(shares, 4) + Zeros(8)
      + ToBigEndian(price, 4)
  }

  function DeleteWire(l: nat, ref: nat): (m: Message)
    ensures |m| == 19
  {
    [TYPE_D] + ToBigEndian(l, 2) + Zeros(8) + ToBigEndian(ref, 8)
  }

  lemma {:induction false} AddMeans(l: nat, ref: nat, shares: nat, price: nat)
    requires l < 0x1_0000 && ref < WORD64 && shares < WORD32 && price < WORD32
    ensures
      var m := AddWire(l, ref, shares, price);
      Recorded(m) && LocateOf(m) == l && Meaning(m) == Market.AddOrder(l, ref, false, shares, price)
  {
    hide BigEndian, ToBigEndian;
    var m := AddWire(l, ref, shares, price);
    Widths();
    BigEndianRoundTrip(l, 2);
    BigEndianRoundTrip(ref, 8);
    BigEndianRoundTrip(shares, 4);
    BigEndianRoundTrip(price, 4);
    assert m[1..3] == ToBigEndian(l, 2) && m[11..19] == ToBigEndian(ref, 8);
    assert m[20..24] == ToBigEndian(shares, 4) && m[32..36] == ToBigEndian(price, 4);
  }

  lemma {:induction false} DeleteMeans(l: nat, ref: nat)
    requires l < 0x1_0000 && ref < WORD64
    ensures
      var m := DeleteWire(l, ref);
      Recorded(m) && LocateOf(m) == l && Meaning(m) == Market.DeleteOrder(l, ref)
  {
    hide BigEndian, ToBigEndian;
    var m := DeleteWire(l, ref);
    Widths();
    BigEndianRoundTrip(l, 2);
    BigEndianRoundTrip(ref, 8);
    assert m[1..3] == ToBigEndian(l, 2) && m[11..19] == ToBigEndian(ref, 8);
  }

  lemma {:induction false} Widths()
    ensures Pow256(2) == 0x1_0000 && Pow256(4) == WORD32 && Pow256(8) == WORD64
  {
    PowersAdd(4, 4);
  }

  function NthWire(l: nat, top: nat, cap: nat, i: nat): Message
    requires cap < top
  {
    if i <= cap then AddWire(l, i, 5, top - i)
    else if i <= 2 * cap then DeleteWire(l, i - cap - 1)
    else AddWire(l, cap + 1, 5, top - cap - 1)
  }

  lemma {:induction false} WireMeans(l: nat, top: nat, cap: nat, i: nat)
    requires cap < top < WORD32 && cap < 0x8000_0000 && l < 0x1_0000 && i <= 2 * cap + 2
    ensures
      var m := NthWire(l, top, cap, i);
      Recorded(m) && LocateOf(m) == l && Meaning(m) == Nth(l, top, cap, i)
  {
    hide Meaning, LocateOf, Recorded, AddWire, DeleteWire;
    if i <= cap {
      AddMeans(l, i, 5, top - i);
    } else if i <= 2 * cap {
      DeleteMeans(l, i - cap - 1);
    } else {
      AddMeans(l, cap + 1, 5, top - cap - 1);
    }
  }

  function WireBids(l: nat, top: nat, cap: nat): (ms: seq<Message>)
    requires cap < top
    ensures |ms| == 2 * cap + 2
  {
    seq(2 * cap + 2, i requires 0 <= i => NthWire(l, top, cap, i))
  }

  lemma {:induction false} BiddingAt(l: nat, top: nat, cap: nat, n: nat, i: nat)
    requires cap < top && i < n
    ensures Bidding(l, top, cap, n)[i] == Nth(l, top, cap, i)
    decreases n
  {
    if i < n - 1 {
      BiddingAt(l, top, cap, n - 1, i);
    }
  }

  lemma {:induction false} WireBidsMean(l: nat, top: nat, cap: nat)
    requires cap < top < WORD32 && cap < 0x8000_0000 && l < 0x1_0000
    ensures
      var ms := WireBids(l, top, cap);
      && (forall i :: 0 <= i < |ms| ==> Recorded(ms[i]) && LocateOf(ms[i]) == l)
      && Meanings(ms) == Bidding(l, top, cap, |ms|)
  {
    hide Meaning, Recorded, NthWire, Nth, LocateOf, Bidding;
    var ms := WireBids(l, top, cap);
    forall i | 0 <= i < |ms|
      ensures Recorded(ms[i]) && LocateOf(ms[i]) == l
              && Meaning(ms[i]) == Nth(l, top, cap, i) == Bidding(l, top, cap, |ms|)[i]
    {
      WireMeans(l, top, cap, i);
      BiddingAt(l, top, cap, |ms|, i);
    }
  }

  /** Records of the wire messages, each in its symbol's place. */
  lemma {:induction false} WireTells(p: Params, x: Rx, l: nat, top: nat)
    requires Sound(p) && p.cap < top < WORD32 && l < 0x1_0000 && RxShaped(p, x) && x.ok
    requires forall i :: 0 <= i < 2 * p.cap + 2 ==> Recorded(WireBids(l, top, p.cap)[i])
    requires |x.done| == 2 * p.cap + 2 && Chain.Carries(p, x.done, WireBids(l, top, p.cap)[..|x.done|])
    requires Distinct(x.locs, x.cnt) && forall i :: 0 <= i < |x.done| ==> Addressed(x.locs, x.cnt, x.done[i])
    ensures Tells(p, x.done, x.done[0].index, l, top)
    ensures MessagesOf(p, x.done) == Meanings(WireBids(l, top, p.cap))
  {
    hide Meaning, Recorded, WireBids, LocateOf, MessagesOf, MessageOf, Bidding, GoodRecord;
    var ms := WireBids(l, top, p.cap);
    assert ms[..|ms|] == ms;
    WireBidsMean(l, top, p.cap);
    WireToBook.CarriedMeanings(p, x.done, ms);
  }

  lemma {:induction false} OneSymbol(l: nat, top: nat, cap: nat)
    requires cap < top < WORD32 && cap < 0x8000_0000 && l < 0xFFFF
    ensures
      var ms := WireBids(l, top, cap);
      && (forall i :: 0 <= i < |ms| ==> Recorded(ms[i])) && |WireFeed.Locates(ms)| <= 1
         && 0xFFFF !in WireFeed.Locates(ms)
  {
    hide WireBids, LocateOf, Recorded, Meaning;
    WireBidsMean(l, top, cap);
    TableRuns.SubsetSize(WireFeed.Locates(WireBids(l, top, cap)), {l});
  }

  /** The whole chain: datagrams that bring just these messages for a symbol, in any
      grouping and cutting and under any schedule. Once the book has finished them the last
      event shows the wrong bid. */
  lemma {:induction false} SystemWrongBest(z: Parser.Sizes, ds: seq<Datagram>, q0: Parser.Regs, r0: Regs,
                                           ins: seq<Lockstep.Pins>, l: nat, top: nat)
    requires Parser.Fit(z) && ParserSafety.AllFit(z, ds) && Lockstep.Resets(z, q0, r0) && Lockstep.AllKept(z, ins)
    requires ParserSafety.Conforms(ds, Lockstep.Run(z, q0, r0, ins).parser.a)
    requires z.p.cap < top < WORD32 && l < 0xFFFF && z.p.cap + 1 + z.p.probe <= z.p.nslot
    requires KeptOf(ds, |ds|) == WireBids(l, top, z.p.cap)
    requires
      var c := Lockstep.Run(z, q0, r0, ins).book;
      Finished(c.r, c.x) == 2 * z.p.cap + 2
    ensures
      var c := Lockstep.Run(z, q0, r0, ins).book;
      var bbos := c.bbos + Pending(c.r.out.bboValid, c.r.out.event);
      && bbos != [] && bbos[|bbos| - 1].bbo.bidPrice == top - z.p.cap - 1
      && Market.BboOf(Market.Run(Meanings(KeptOf(ds, |ds|))).0.orders, l).bidPrice == top - z.p.cap
  {
    hide Lockstep.Run, Lockstep.Seen, Run, Tells, RunRecords, Market.Run, Market.BboOf, MessagesOf, Meanings,
         WireBids, KeptOf, Chain.Carries, ParserSafety.Conforms, ParserSafety.AllFit, Distinct, WireFeed.Locates,
         Recorded, LocateOf, Addressed;
    OneSymbol(l, top, z.p.cap);
    WireFeed.WirePlaces(z, ds, q0, r0, ins);
    var c := Lockstep.Run(z, q0, r0, ins).book;
    Lockstep.RunSplits(z, q0, r0, ins);
    var bins := Lockstep.Seen(z, q0, r0, ins).1;
    DeliversHistory(z.p, r0, bins);
    assert c.x.done[..|c.x.done|] == c.x.done;
    WireTells(z.p, c.x, l, top);
    ClockedWrongBest(z.p, r0, bins, c.x.done[0].index, l, top);
  }
}
