// Limits that can be read off the feed alone: sizes, own symbols, few enough live
// orders and levels. A run within them is tame, whatever the hardware's registers hold.
module FeedLimits {
  import opened Prices
  import opened LevelPipeline
  import opened ShownLevels
  import opened OrderTable
  import opened Records
  import opened Engine
  import opened Clock
  import opened Overlap
  import opened ClockRefinement
  import opened BookRefinement
  import opened StepRefinement
  import opened Runs
  import opened TableRuns
  import opened LevelRuns
  import Market

  /** What one message asks of the sizes, seen from the live orders before it. */
  ghost predicate FeedFits(p: Params, os: Market.Orders, m: Market.Message) {
    match m
    case AddOrder(l, ref, ask, shares, price) =>
      ref !in os && shares > 0 ==>
        && shares < 0x8000_0000 && Total(Market.LevelsOf(os, l, ask), price) + shares < WORD && |os| < p.probe
    case ReduceOrder(l, ref, _) => ref in os ==> os[ref].locate == l
    case DeleteOrder(l, ref) => ref in os ==> os[ref].locate == l
    case ReplaceOrder(l, orig, newRef, shares, price) =>
      orig in os ==>
        && os[orig].locate == l
        && (shares > 0 && newRef !in os ==>
              && shares < 0x8000_0000 && Total(Market.LevelsOf(os - {orig}, l, os[orig].ask), price) + shares < WORD
              && |os| < p.probe)
    case _ => true
  }

  /** All along the feed, and never more levels on a side than a list has slots. */
  ghost predicate FeedRun(p: Params, ms: seq<Market.Message>) {
    WithinCapacity(p, ms) && MessagesFit(p, ms)
  }

  ghost predicate MessagesFit(p: Params, ms: seq<Market.Message>) {
    ms == [] || (MessagesFit(p, ms[..|ms| - 1]) && FeedFits(p, Market.Run(ms[..|ms| - 1]).0.orders, ms[|ms| - 1]))
  }

  /** Every record is for a symbol that has a place in the table. */
  predicate AllRegistered(rs: seq<Record>) {
    forall i :: 0 <= i < |rs| ==> rs[i].locate != 0xFFFF && !rs[i].bad
  }

  /** Fewer orders than a path has slots: every new reference finds room. */
  lemma {:induction false} RoomForOrder(p: Params, mem: seq<Entry>, os: Market.Orders, ref: nat, keep: bool)
    requires Stores(mem, p.probe, RowsOf(os)) && ref !in os && |os| < p.probe
    ensures !Lookup(mem, p.probe, ref, keep, true).full
  {
    hide Stores, Lookup, PathFull, RowsOf;
    RowsAt(os);
    assert |RowsOf(os)| == |RowsOf(os).Keys| && |os| == |os.Keys|;
    PathHasRoom(mem, p.probe, RowsOf(os), ref);
    FullIsPathFull(mem, p.probe, RowsOf(os), ref, keep);
  }

  /** With no more levels than slots every live order's level is listed. */
  lemma {:induction false} LiveIsCarried(p: Params, locs: seq<nat>, cnt: nat, c: Core, os: Market.Orders, j: nat,
                                         ref: nat)
    requires Sound(p) && OrdersMirror(p, locs, cnt, c, os, {}) && j < cnt && ref in os && os[ref].locate == locs[j]
    requires |Market.LevelsOf(os, locs[j], os[ref].ask)| <= p.cap
    ensures Carried(ListAt(p, c, j, os[ref].ask), os[ref].price)
  {
    hide SideShows, Stores, SidesShow, Carried;
    ListShown(p, locs, cnt, c, os, j, os[ref].ask, {});
    NothingMissing(ListAt(p, c, j, os[ref].ask), LevelsAt(locs, os, j, os[ref].ask), os[ref].ask);
    assert os[ref].price in LevelsAt(locs, os, j, os[ref].ask);
    assert !Missing(ListAt(p, c, j, os[ref].ask), LevelsAt(locs, os, j, os[ref].ask), os[ref].price);
  }

  /** One message within the limits fits the machine. */
  lemma {:induction false} FeedStep(p: Params, locs: seq<nat>, cnt: nat, c: Core, s: Market.State, r: Record)
    requires Sound(p) && OrdersMirror(p, locs, cnt, c, s.orders, {}) && GoodRecord(p, r) && Addressed(locs, cnt, r)
    requires FeedFits(p, s.orders, MessageOf(p, r)) && forall l, ask :: |Market.LevelsOf(s.orders, l, ask)| <= p.cap
    ensures Fitting(p, c, s, r)
  {
    hide Stores, SidesShow, Lookup, Carried, Market.LevelsOf, DecodeOp, Sized, RowsOf;
    var op := DecodeOp(p, r.mtype, r.words);
    if op.Add? && op.ref !in s.orders && op.shares > 0 {
      RoomForOrder(p, c.mem, s.orders, op.ref, true);
    } else if op.Reduce? && op.ref in s.orders {
      LiveIsCarried(p, locs, cnt, c, s.orders, r.index, op.ref);
    } else if op.Replace? && op.orig in s.orders && op.newRef !in s.orders && op.shares > 0 {
      RoomForOrder(p, c.mem, s.orders, op.newRef, false);
    }
  }

  /** A feed within the limits is a tame run. */
  lemma {:induction false} FeedIsEnough(p: Params, locs: seq<nat>, cnt: nat, rs: seq<Record>)
    requires Sound(p) && |locs| == p.nsym && Distinct(locs, cnt)
    requires GoodRecords(p, rs) && AllRegistered(rs) && forall i :: 0 <= i < |rs| ==> Addressed(locs, cnt, rs[i])
    requires FeedRun(p, MessagesOf(p, rs))
    ensures TameRun(p, rs)
    decreases |rs|
  {
    hide RunRecords, Market.Run, GoodRecord, Sound, Fitting, FeedFits, KeepsLists, MessageOf, Engine.Shaped,
         Market.LevelsOf, WithinCapacity, OrdersMirror, PlainMirrors;
    if rs != [] {
      var init, r := rs[..|rs| - 1], rs[|rs| - 1];
      assert GoodRecord(p, r) && Addressed(locs, cnt, r);
      CapacityBefore(p, MessagesOf(p, rs));
      assert MessagesOf(p, rs)[..|rs| - 1] == MessagesOf(p, init);
      FeedIsEnough(p, locs, cnt, init);
      KeptRunFollows(p, locs, cnt, init, {});
      FeedStep(p, locs, cnt, RunRecords(p, init).0, Market.Run(MessagesOf(p, init)).0, r);
      CapacityIsEnough(p, locs, cnt, rs);
    }
  }

  /** The clocked book against the reference, on conditions on the feed alone: for every
      input and ready schedule both channels carry the reference's events, each once and
      in order. */
  lemma {:induction false} ClockedBookOnFeed(p: Params, r0: Regs, ins: seq<In>)
    requires Sound(p) && IsReset(p, r0) && Wired(p, ins) && Run(p, r0, ins).x.ok
    requires
      var c := Run(p, r0, ins);
      0 <= Finished(c.r, c.x) <= |c.x.done| ==>
        var rs := c.x.done[..Finished(c.r, c.x)];
        AllRegistered(rs) && FeedRun(p, MessagesOf(p, rs))
    ensures
      var c := Run(p, r0, ins);
      && 0 <= Finished(c.r, c.x) <= |c.x.done|
      && var rs := c.x.done[..Finished(c.r, c.x)];
         && TameRun(p, rs)
         && TraceAgrees(p, rs, c.bbos + Pending(c.r.out.bboValid, c.r.out.event))
         && TraceAgrees(p, rs, c.depths + Pending(c.r.out.depthValid, c.r.out.event))
         && (!c.r.st.INVAL? && !InPipeline(c.r.st) ==>
               Mirrors(p, c.x.locs, c.x.cnt, c.r.t.core, Market.Run(MessagesOf(p, rs)).0))
  {
    hide Run, TraceAgrees, Mirrors, FeedRun, TameRun, MessagesOf, RunRecords;
    DeliversHistory(p, r0, ins);
    RunSymbols(p, r0, ins);
    var c := Run(p, r0, ins);
    FeedIsEnough(p, c.x.locs, c.x.cnt, c.x.done[..Finished(c.r, c.x)]);
    ClockedBookRefinesReference(p, r0, ins);
  }
}
