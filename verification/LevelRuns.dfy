// The bounded level lists over whole runs of messages: when they show the best
// levels of every side, when a best-first beginning of them, and what is then
// published. Nothing here bounds the number of levels.
module LevelRuns {
  import opened Prices
  import opened LevelPipeline
  import opened ShownLevels
  import opened OrderTable
  import opened Records
  import opened Engine
  import opened Clock
  import opened Overlap
  import opened ClockRefinement
  import opened BookRefinement
  import opened StepRefinement
  import opened Runs
  import Market

  /** The numbers below n. */
  function Below(n: nat): (s: set<nat>)
    ensures forall k :: k in s <==> 0 <= k < n
  {
    if n == 0 then {} else Below(n - 1) + {n - 1}
  }

  function AllSides(p: Params): set<nat> {
    Below(2 * p.nsym)
  }

  // ---- run by run ----

  /** The hardware's orders, lists and plain registers against the reference's state. */
  ghost predicate Follows(p: Params, locs: seq<nat>, cnt: nat, c: Core, s: Market.State, weak: set<nat>)
    requires Sound(p)
  {
    OrdersMirror(p, locs, cnt, c, s.orders, weak) && PlainMirrors(p, locs, cnt, c, s)
  }

  lemma {:induction false} ResetFollows(p: Params, locs: seq<nat>, cnt: nat, weak: set<nat>)
    requires Sound(p) && |locs| == p.nsym && Distinct(locs, cnt)
    ensures Follows(p, locs, cnt, Reset(p), Market.Initial, weak)
  {
    forall j, ask, top | 0 <= j < cnt
      ensures SideShows(Reset(p).sides[SideOf(j, ask)], Market.LevelsOf(map[], locs[j], ask), ask, top)
    {
      assert ListShows([], Reset(p).sides[SideOf(j, ask)], Market.LevelsOf(map[], locs[j], ask), ask, top);
    }
  }

  /** One record that fits: both books alike afterwards if and only if no list is upset. */
  lemma {:induction false} RecordFollowsIff(p: Params, locs: seq<nat>, cnt: nat, c: Core, s: Market.State, r: Record,
                                            weak: set<nat>)
    requires Sound(p) && Follows(p, locs, cnt, c, s, weak) && GoodRecord(p, r) && Addressed(locs, cnt, r)
             && Fitting(p, c, s, r)
    ensures Follows(p, locs, cnt, Process(p, c, r).0, Market.Step(s, MessageOf(p, r)).0, weak)
            <==> KeepsLists(p, c, s, r, weak)
  {
    hide Process, Market.Step, Fitting, KeepsLists, Stores, SidesShow;
    ListsKeptIff(p, locs, cnt, c, s, r, weak);
    if KeepsLists(p, c, s, r, weak) {
      var c1, os := RecordSteps(p, locs, cnt, c, s, r, weak);
      SteppedPlain(p, locs, cnt, c, s, r, weak, c1, os);
    }
  }

  lemma {:induction false} SteppedPlain(p: Params, locs: seq<nat>, cnt: nat, c: Core, s: Market.State, r: Record,
                                        weak: set<nat>, c1: Core, os: Market.Orders)
    requires Sound(p) && Follows(p, locs, cnt, c, s, weak) && GoodRecord(p, r) && Addressed(locs, cnt, r)
    requires BothRest(p, locs, cnt, c, s, r) || BothPublish(p, locs, cnt, c, s, r, weak, c1, os)
    ensures PlainMirrors(p, locs, cnt, Process(p, c, r).0, Market.Step(s, MessageOf(p, r)).0)
  {
    hide Process, DecodeOp, Stores, SidesShow;
  }

  /** A run that fits and upsets no list. */
  lemma {:induction false} KeptRunFollows(p: Params, locs: seq<nat>, cnt: nat, rs: seq<Record>, weak: set<nat>)
    requires Sound(p) && |locs| == p.nsym && Distinct(locs, cnt)
    requires GoodRecords(p, rs) && (forall i :: 0 <= i < |rs| ==> Addressed(locs, cnt, rs[i])) && FittingRun(p, rs)
    requires KeptRun(p, rs, weak)
    ensures Follows(p, locs, cnt, RunRecords(p, rs).0, Market.Run(MessagesOf(p, rs)).0, weak)
    decreases |rs|
  {
    hide Process, Market.Step, Follows, GoodRecord, Sound, Fitting, KeepsLists, MessageOf, Engine.Shaped;
    if rs == [] {
      ResetFollows(p, locs, cnt, weak);
    } else {
      var init, r := rs[..|rs| - 1], rs[|rs| - 1];
      assert GoodRecord(p, r) && Addressed(locs, cnt, r);
      KeptRunFollows(p, locs, cnt, init, weak);
      FittingIsSized(p, init);
      RecordFollowsIff(p, locs, cnt, RunRecords(p, init).0, Market.Run(MessagesOf(p, init)).0, r, weak);
      assert MessagesOf(p, rs)[..|rs| - 1] == MessagesOf(p, init);
    }
  }

  /** Both books alike after so many records. */
  ghost predicate FollowsAt(p: Params, locs: seq<nat>, cnt: nat, rs: seq<Record>, n: nat, weak: set<nat>)
    requires Sound(p) && GoodRecords(p, rs) && n <= |rs|
  {
    Follows(p, locs, cnt, RunRecords(p, rs[..n]).0, Market.Run(MessagesOf(p, rs[..n])).0, weak)
  }

  lemma {:induction false} FollowsBefore(p: Params, locs: seq<nat>, cnt: nat, rs: seq<Record>, weak: set<nat>)
    requires Sound(p) && GoodRecords(p, rs) && rs != []
    ensures forall n :: 0 <= n < |rs| ==>
            (FollowsAt(p, locs, cnt, rs, n, weak) <==> FollowsAt(p, locs, cnt, rs[..|rs| - 1], n, weak))
  {
    hide Follows, RunRecords, GoodRecord;
    assert forall n :: 0 <= n < |rs| ==> rs[..|rs| - 1][..n] == rs[..n];
  }

  lemma {:induction false} FollowsNext(p: Params, locs: seq<nat>, cnt: nat, rs: seq<Record>, weak: set<nat>)
    requires Sound(p) && |locs| == p.nsym && Distinct(locs, cnt) && rs != []
    requires GoodRecords(p, rs) && (forall i :: 0 <= i < |rs| ==> Addressed(locs, cnt, rs[i])) && FittingRun(p, rs)
    requires FollowsAt(p, locs, cnt, rs, |rs| - 1, weak) && KeptRun(p, rs[..|rs| - 1], weak)
    ensures FollowsAt(p, locs, cnt, rs, |rs|, weak) <==> KeptRun(p, rs, weak)
  {
    hide Process, Market.Step, Follows, GoodRecord, Sound, Fitting, KeepsLists, MessageOf, Engine.Shaped;
    var init, r := rs[..|rs| - 1], rs[|rs| - 1];
    assert GoodRecord(p, r) && Addressed(locs, cnt, r);
    assert MessagesOf(p, rs)[..|rs| - 1] == MessagesOf(p, init);
    assert rs[..|rs|] == rs;
    FittingIsSized(p, init);
    RecordFollowsIff(p, locs, cnt, RunRecords(p, init).0, Market.Run(MessagesOf(p, init)).0, r, weak);
  }

  lemma {:induction false} KeptBefore(p: Params, rs: seq<Record>, weak: set<nat>)
    requires Sound(p) && GoodRecords(p, rs) && FittingRun(p, rs) && KeptRun(p, rs, weak) && rs != []
    ensures GoodRecords(p, rs[..|rs| - 1]) && FittingRun(p, rs[..|rs| - 1]) && KeptRun(p, rs[..|rs| - 1], weak)
  {
  }

  /** Over whole runs: at every point the lists show the best levels of their sides, and
      of the weak sides a beginning of them, if and only if no record upset a list. */
  lemma {:induction false} ListsAlongRunIff(p: Params, locs: seq<nat>, cnt: nat, rs: seq<Record>, weak: set<nat>)
    requires Sound(p) && |locs| == p.nsym && Distinct(locs, cnt)
    requires GoodRecords(p, rs) && (forall i :: 0 <= i < |rs| ==> Addressed(locs, cnt, rs[i])) && FittingRun(p, rs)
    ensures KeptRun(p, rs, weak) <==> forall n :: 0 <= n <= |rs| ==> FollowsAt(p, locs, cnt, rs, n, weak)
    decreases |rs|
  {
    hide FollowsAt, KeptRun, FittingRun, GoodRecord, Sound;
    if rs == [] {
      EmptyRun(p, locs, cnt, rs, weak);
    } else {
      var init := rs[..|rs| - 1];
      RunBefore(p, rs);
      ListsAlongRunIff(p, locs, cnt, init, weak);
      FollowsBefore(p, locs, cnt, rs, weak);
      if KeptRun(p, rs, weak) {
        KeptBefore(p, rs, weak);
        FollowsNext(p, locs, cnt, rs, weak);
      } else if forall n :: 0 <= n <= |rs| ==> FollowsAt(p, locs, cnt, rs, n, weak) {
        forall n | 0 <= n <= |init|
          ensures FollowsAt(p, locs, cnt, init, n, weak)
        {
          assert FollowsAt(p, locs, cnt, rs, n, weak);
        }
        FollowsNext(p, locs, cnt, rs, weak);
      }
    }
  }

  lemma {:induction false} EmptyRun(p: Params, locs: seq<nat>, cnt: nat, rs: seq<Record>, weak: set<nat>)
    requires Sound(p) && |locs| == p.nsym && Distinct(locs, cnt) && rs == []
    ensures FittingRun(p, rs) && KeptRun(p, rs, weak) && FollowsAt(p, locs, cnt, rs, 0, weak)
  {
    ResetFollows(p, locs, cnt, weak);
    assert rs[..0] == rs;
  }

  lemma {:induction false} RunBefore(p: Params, rs: seq<Record>)
    requires Sound(p) && GoodRecords(p, rs) && FittingRun(p, rs) && rs != []
    ensures GoodRecords(p, rs[..|rs| - 1]) && FittingRun(p, rs[..|rs| - 1])
  {
  }

  // ---- within capacity ----

  /** No side ever has more levels than a list has slots. */
  ghost predicate WithinCapacity(p: Params, ms: seq<Market.Message>) {
    forall n, l, ask :: 0 <= n <= |ms| ==> |Market.LevelsOf(OrdersAfter(ms, n), l, ask)| <= p.cap
  }

  ghost function OrdersAfter(ms: seq<Market.Message>, n: nat): Market.Orders
    requires n <= |ms|
  {
    Market.Run(ms[..n]).0.orders
  }

  lemma {:induction false} CapacityBefore(p: Params, ms: seq<Market.Message>)
    requires WithinCapacity(p, ms) && ms != []
    ensures WithinCapacity(p, ms[..|ms| - 1])
    ensures
      var os := Market.Run(ms[..|ms| - 1]).0.orders;
      forall l, ask :: |Market.LevelsOf(os, l, ask)| <= p.cap
  {
    hide Market.LevelsOf, Market.Run;
    var init := ms[..|ms| - 1];
    forall n, l, ask | 0 <= n <= |init|
      ensures |Market.LevelsOf(OrdersAfter(init, n), l, ask)| <= p.cap
    {
      assert init[..n] == ms[..n];
      assert |Market.LevelsOf(OrdersAfter(ms, n), l, ask)| <= p.cap;
    }
    assert init[..|init|] == init;
    assert OrdersAfter(init, |init|) == Market.Run(init).0.orders;
  }

  /** Within capacity no list is ever upset: a run that fits is tame. */
  lemma {:induction false} CapacityIsEnough(p: Params, locs: seq<nat>, cnt: nat, rs: seq<Record>)
    requires Sound(p) && |locs| == p.nsym && Distinct(locs, cnt)
    requires GoodRecords(p, rs) && (forall i :: 0 <= i < |rs| ==> Addressed(locs, cnt, rs[i])) && FittingRun(p, rs)
    requires WithinCapacity(p, MessagesOf(p, rs))
    ensures TameRun(p, rs)
    decreases |rs|
  {
    hide Process, Market.Step, Follows, GoodRecord, Sound, Fitting, KeepsLists, MessageOf, Engine.Shaped,
         Market.LevelsOf, WithinCapacity;
    if rs != [] {
      var init, r := rs[..|rs| - 1], rs[|rs| - 1];
      assert GoodRecord(p, r) && Addressed(locs, cnt, r);
      CapacityBefore(p, MessagesOf(p, rs));
      assert MessagesOf(p, rs)[..|rs| - 1] == MessagesOf(p, init);
      CapacityIsEnough(p, locs, cnt, init);
      KeptRunFollows(p, locs, cnt, init, {});
      FittingIsSized(p, init);
      RoomKeeps(p, locs, cnt, RunRecords(p, init).0, Market.Run(MessagesOf(p, init)).0, r);
    }
  }

  lemma {:induction false} RoomKeeps(p: Params, locs: seq<nat>, cnt: nat, c: Core, s: Market.State, r: Record)
    requires Sound(p) && Follows(p, locs, cnt, c, s, {}) && GoodRecord(p, r) && Addressed(locs, cnt, r)
             && Fitting(p, c, s, r)
    requires forall l, ask :: |Market.LevelsOf(s.orders, l, ask)| <= p.cap
    ensures KeepsLists(p, c, s, r, {})
  {
    hide DecodeOp, LevelOp, Market.LevelsOf, Stores, SidesShow, SideShows, Missing, Carried, Refills, Body64;
    forall ask
      ensures forall price, delta :: !Loses(ListAt(p, c, r.index, ask), Market.LevelsOf(s.orders, r.locate, ask),
                                            price, delta)
      ensures forall price, delta :: Stays(ListAt(p, c, r.index, ask), Market.LevelsOf(s.orders, r.locate, ask), ask,
                                           price, delta, true)
    {
      ListShown(p, locs, cnt, c, s.orders, r.index, ask, {});
      NothingMissing(ListAt(p, c, r.index, ask), LevelsAt(locs, s.orders, r.index, ask), ask);
    }
  }

  // ---- what is published from a beginning ----

  /** A side of an event: the best slots of a list that shows a beginning of the side's
      levels. Its price and quantity are the reference's if and only if the list is in
      use or the side is empty. */
  ghost predicate SideLed(p: Params, side: seq<Level>, depth: seq<Level>, price: nat, qty: nat, m: Levels, ask: bool,
                          refPrice: nat, refQty: nat)
    requires Sound(p)
  {
    && |side| == p.cap && SideShows(side, m, ask, false) && depth == side[..p.nd]
    && (price == refPrice && qty == refQty <==> side[0].qty != 0 || m == map[])
  }

  ghost predicate EventLed(p: Params, e: Option<Event>, out: Market.Outcome, os: Market.Orders)
    requires Sound(p)
  {
    match out
    case Event(l, bbo, _) =>
      && e.Some? && e.value.locate == l
      && (exists bids :: SideLed(p, bids, e.value.bids, e.value.bbo.bidPrice, e.value.bbo.bidQty,
                                 Market.LevelsOf(os, l, false), false,
                                 bbo.bidPrice, bbo.bidQty))
      && (exists asks :: SideLed(p, asks, e.value.asks, e.value.bbo.askPrice, e.value.bbo.askQty,
                                 Market.LevelsOf(os, l, true), true,
                                 bbo.askPrice, bbo.askQty))
    case _ => e.None?
  }

  lemma {:induction false} PublishedSide(p: Params, locs: seq<nat>, cnt: nat, c: Core, os: Market.Orders, j: nat,
                                         ask: bool)
    requires Sound(p) && OrdersMirror(p, locs, cnt, c, os, AllSides(p)) && j < cnt
    ensures
      var side, m := ListAt(p, c, j, ask), LevelsAt(locs, os, j, ask);
      var best := Best(m, ask);
      SideLed(p, side, side[..p.nd], Selected(side).price, Selected(side).qty, m, ask,
              if best.Some? then best.value else 0, if best.Some? then m[best.value] else 0)
  {
    hide Stores, SidesShow, SideShows, Market.LevelsOf, Selected;
    var side, m := ListAt(p, c, j, ask), LevelsAt(locs, os, j, ask);
    ListShown(p, locs, cnt, c, os, j, ask, AllSides(p));
    BestShownIff(side, m, ask);
  }

  /** One record: an event on both sides or on neither, and what the hardware's shows. */
  lemma {:induction false} RecordLeads(p: Params, locs: seq<nat>, cnt: nat, c: Core, s: Market.State, r: Record)
    requires Sound(p) && Follows(p, locs, cnt, c, s, AllSides(p)) && GoodRecord(p, r) && Addressed(locs, cnt, r)
    requires Fitting(p, c, s, r) && KeepsLists(p, c, s, r, AllSides(p))
    ensures EventLed(p, Process(p, c, r).1, Market.Step(s, MessageOf(p, r)).1, Market.Step(s, MessageOf(p, r)).0.orders)
  {
    hide Process, Market.Step, Fitting, KeepsLists, Stores, SidesShow, SideLed, DecodeOp, Selected;
    var c1, os := RecordSteps(p, locs, cnt, c, s, r, AllSides(p));
    if BothPublish(p, locs, cnt, c, s, r, AllSides(p), c1, os) {
      PublishedSide(p, locs, cnt, c1, os, r.index, false);
      PublishedSide(p, locs, cnt, c1, os, r.index, true);
    }
  }

  /** The events, message by message. */
  ghost predicate TraceLed(p: Params, rs: seq<Record>, es: seq<Event>)
    requires Sound(p) && GoodRecords(p, rs)
    decreases |rs|
  {
    if rs == [] then es == []
    else
      assert GoodRecord(p, rs[|rs| - 1]);
      var init := rs[..|rs| - 1];
      var (s, out) := Market.Step(Market.Run(MessagesOf(p, init)).0, MessageOf(p, rs[|rs| - 1]));
      if out.Event? then
        es != [] && TraceLed(p, init, es[..|es| - 1]) && EventLed(p, Some(es[|es| - 1]), out, s.orders)
      else TraceLed(p, init, es)
  }

  lemma {:induction false} TraceLedGrows(p: Params, rs: seq<Record>, es: seq<Event>, e: Option<Event>)
    requires Sound(p) && rs != [] && GoodRecords(p, rs) && GoodRecord(p, rs[|rs| - 1])
    requires TraceLed(p, rs[..|rs| - 1], es)
    requires
      var (s, out) := Market.Step(Market.Run(MessagesOf(p, rs[..|rs| - 1])).0, MessageOf(p, rs[|rs| - 1]));
      EventLed(p, e, out, s.orders)
    ensures TraceLed(p, rs, if e.Some? then es + [e.value] else es)
  {
    hide SideLed, MessagesOf;
    if e.Some? {
      var longer := es + [e.value];
      assert longer[..|longer| - 1] == es && Some(longer[|longer| - 1]) == e;
    }
  }

  lemma {:induction false} RecordsLead(p: Params, locs: seq<nat>, cnt: nat, rs: seq<Record>)
    requires Sound(p) && |locs| == p.nsym && Distinct(locs, cnt)
    requires GoodRecords(p, rs) && (forall i :: 0 <= i < |rs| ==> Addressed(locs, cnt, rs[i])) && FittingRun(p, rs)
    requires KeptRun(p, rs, AllSides(p))
    ensures TraceLed(p, rs, RunRecords(p, rs).1)
    decreases |rs|
  {
    hide Process, Market.Step, Follows, GoodRecord, Sound, Fitting, KeepsLists, MessageOf, Engine.Shaped, EventLed,
         AllSides;
    if rs != [] {
      var init, r := rs[..|rs| - 1], rs[|rs| - 1];
      assert GoodRecord(p, r) && Addressed(locs, cnt, r);
      RecordsLead(p, locs, cnt, init);
      KeptRunFollows(p, locs, cnt, init, AllSides(p));
      FittingIsSized(p, init);
      var (c, es) := RunRecords(p, init);
      RecordLeads(p, locs, cnt, c, Market.Run(MessagesOf(p, init)).0, r);
      TraceLedGrows(p, rs, es, Process(p, c, r).1);
    }
  }

  // ---- changed flags and crosses of what is shown ----

  /** The best bid and offer last shown for a symbol. */
  function LastShown(es: seq<Event>, l: nat): Market.Bbo {
    if es == [] then Market.NO_BBO
    else if es[|es| - 1].locate == l then es[|es| - 1].bbo
    else LastShown(es[..|es| - 1], l)
  }

  /** The changed flags tell the events that show something else than their symbol's last. */
  predicate TellsChanges(es: seq<Event>) {
    forall i :: 0 <= i < |es| ==> (es[i].changed <==> es[i].bbo != LastShown(es[..i], es[i].locate))
  }

  /** The event shows a crossed book of a symbol in continuous trading. */
  predicate ShownCrossed(s: Market.State, e: Event) {
    Market.Crossed(s.open, e.locate in s.trading && s.trading[e.locate] == Market.CONTINUOUS, e.bbo)
  }

  /** How many events show a crossed book. */
  ghost function CrossesShown(p: Params, rs: seq<Record>, es: seq<Event>): nat
    requires Sound(p) && GoodRecords(p, rs)
    decreases |rs|
  {
    if rs == [] then 0
    else
      assert GoodRecord(p, rs[|rs| - 1]);
      var init := rs[..|rs| - 1];
      var (s, out) := Market.Step(Market.Run(MessagesOf(p, init)).0, MessageOf(p, rs[|rs| - 1]));
      if out.Event? && es != [] then
        CrossesShown(p, init, es[..|es| - 1]) + if ShownCrossed(s, es[|es| - 1]) then 1 else 0
      else CrossesShown(p, init, es)
  }

  /** The registers that carry what was shown. */
  predicate ShownKept(p: Params, locs: seq<nat>, cnt: nat, c: Core, es: seq<Event>, crosses: nat)
    requires Engine.Shaped(p, c) && cnt <= |locs| == p.nsym
  {
    (forall j :: 0 <= j < cnt ==> c.prev[j] == LastShown(es, locs[j])) && TellsChanges(es)
      && c.crosses == crosses % WORD
  }

  lemma {:induction false} TellsOneMore(es: seq<Event>, e: Event)
    requires TellsChanges(es) && (e.changed <==> e.bbo != LastShown(es, e.locate))
    ensures TellsChanges(es + [e])
    ensures forall l :: LastShown(es + [e], l) == if e.locate == l then e.bbo else LastShown(es, l)
  {
    hide LastShown;
    var longer := es + [e];
    assert longer[..|es|] == es;
    assert forall i :: 0 <= i < |es| ==> longer[..i] == es[..i];
    forall l
      ensures LastShown(longer, l) == if e.locate == l then e.bbo else LastShown(es, l)
    {
      LastOfLonger(es, e, l);
    }
  }

  lemma {:induction false} LastOfLonger(es: seq<Event>, e: Event, l: nat)
    ensures LastShown(es + [e], l) == if e.locate == l then e.bbo else LastShown(es, l)
  {
    assert (es + [e])[..|es|] == es;
  }

  /** Publishing keeps them. */
  lemma {:induction false} EmitShows(p: Params, locs: seq<nat>, cnt: nat, c: Core, s: Market.State, j: nat,
                                     es: seq<Event>, crosses: nat)
    requires Sound(p) && Engine.Shaped(p, c) && |locs| == p.nsym && Distinct(locs, cnt) && j < cnt
    requires PlainMirrors(p, locs, cnt, c, s) && ShownKept(p, locs, cnt, c, es, crosses)
    ensures
      var (c', e) := Emit(p, c, locs[j], j);
      ShownKept(p, locs, cnt, c', es + [e], crosses + if ShownCrossed(s, e) then 1 else 0)
  {
    hide TellsChanges, LastShown, BboOf;
    var (c', e) := Emit(p, c, locs[j], j);
    TellsOneMore(es, e);
    forall i | 0 <= i < cnt
      ensures c'.prev[i] == LastShown(es + [e], locs[i])
    {
      assert i != j ==> locs[i] != locs[j];
    }
  }

  /** One record keeps them. */
  lemma {:induction false} RecordShows(p: Params, locs: seq<nat>, cnt: nat, c: Core, s: Market.State, r: Record,
                                       es: seq<Event>, crosses: nat)
    requires Sound(p) && Follows(p, locs, cnt, c, s, AllSides(p)) && GoodRecord(p, r) && Addressed(locs, cnt, r)
    requires Fitting(p, c, s, r) && KeepsLists(p, c, s, r, AllSides(p)) && ShownKept(p, locs, cnt, c, es, crosses)
    ensures
      var (c', e) := Process(p, c, r);
      var (s', out) := Market.Step(s, MessageOf(p, r));
      && (e.Some? <==> out.Event?)
      && ShownKept(p, locs, cnt, c', if e.Some? then es + [e.value] else es,
                   crosses + if e.Some? && ShownCrossed(s', e.value) then 1 else 0)
  {
    hide Process, Market.Step, Fitting, KeepsLists, Stores, SidesShow, DecodeOp, TellsChanges, LastShown, Emit,
         Market.BboOf;
    var c1, os := RecordSteps(p, locs, cnt, c, s, r, AllSides(p));
    if BothPublish(p, locs, cnt, c, s, r, AllSides(p), c1, os) {
      EmitShows(p, locs, cnt, c1, s, r.index, es, crosses);
    }
  }

  lemma {:induction false} CrossesGrow(p: Params, rs: seq<Record>, es: seq<Event>, e: Option<Event>)
    requires Sound(p) && rs != [] && GoodRecords(p, rs) && GoodRecord(p, rs[|rs| - 1])
    requires
      var out := Market.Step(Market.Run(MessagesOf(p, rs[..|rs| - 1])).0, MessageOf(p, rs[|rs| - 1])).1;
      e.Some? <==> out.Event?
    ensures
      var s := Market.Step(Market.Run(MessagesOf(p, rs[..|rs| - 1])).0, MessageOf(p, rs[|rs| - 1])).0;
      CrossesShown(p, rs, if e.Some? then es + [e.value] else es)
      == CrossesShown(p, rs[..|rs| - 1], es) + if e.Some? && ShownCrossed(s, e.value) then 1 else 0
  {
    hide MessagesOf, ShownCrossed;
    if e.Some? {
      var longer := es + [e.value];
      assert longer[..|longer| - 1] == es && Some(longer[|longer| - 1]) == e;
    }
  }

  lemma {:induction false} RecordsShow(p: Params, locs: seq<nat>, cnt: nat, rs: seq<Record>)
    requires Sound(p) && |locs| == p.nsym && Distinct(locs, cnt)
    requires GoodRecords(p, rs) && (forall i :: 0 <= i < |rs| ==> Addressed(locs, cnt, rs[i])) && FittingRun(p, rs)
    requires KeptRun(p, rs, AllSides(p))
    ensures ShownKept(p, locs, cnt, RunRecords(p, rs).0, RunRecords(p, rs).1, CrossesShown(p, rs, RunRecords(p, rs).1))
    decreases |rs|
  {
    hide Process, Market.Step, Follows, GoodRecord, Sound, Fitting, KeepsLists, MessageOf, Engine.Shaped, ShownKept,
         AllSides, CrossesShown, ShownCrossed;
    if rs == [] {
      NothingShown(p, locs, cnt, rs);
    } else {
      var init, r := rs[..|rs| - 1], rs[|rs| - 1];
      assert GoodRecord(p, r) && Addressed(locs, cnt, r);
      RecordsShow(p, locs, cnt, init);
      KeptRunFollows(p, locs, cnt, init, AllSides(p));
      FittingIsSized(p, init);
      var (c, es) := RunRecords(p, init);
      RecordShows(p, locs, cnt, c, Market.Run(MessagesOf(p, init)).0, r, es, CrossesShown(p, init, es));
      CrossesGrow(p, rs, es, Process(p, c, r).1);
    }
  }

  lemma {:induction false} NothingShown(p: Params, locs: seq<nat>, cnt: nat, rs: seq<Record>)
    requires Sound(p) && |locs| == p.nsym && Distinct(locs, cnt) && rs == []
    ensures ShownKept(p, locs, cnt, Reset(p), [], CrossesShown(p, rs, []))
  {
  }

  /** The clocked book past the capacity of its lists. For every input and ready schedule:
      until a level gets back into a list at or behind a missing one, each side shows a
      best-first beginning of its true levels, with exact quantities, through all
      push-outs and discards; the events come when the reference's come, once and in
      order, and their best price is the reference's unless the list is unused while the
      side is not empty. */
  lemma {:induction false} ClockedBookLeads(p: Params, r0: Regs, ins: seq<In>)
    requires Sound(p) && IsReset(p, r0) && Wired(p, ins) && Run(p, r0, ins).x.ok
    requires
      var c := Run(p, r0, ins);
      0 <= Finished(c.r, c.x) <= |c.x.done| ==>
        var rs := c.x.done[..Finished(c.r, c.x)];
        FittingRun(p, rs) && KeptRun(p, rs, AllSides(p))
    ensures
      var c := Run(p, r0, ins);
      && 0 <= Finished(c.r, c.x) <= |c.x.done|
      && var rs := c.x.done[..Finished(c.r, c.x)];
         && TraceLed(p, rs, c.bbos + Pending(c.r.out.bboValid, c.r.out.event))
         && TraceLed(p, rs, c.depths + Pending(c.r.out.depthValid, c.r.out.event))
         && TellsChanges(c.bbos + Pending(c.r.out.bboValid, c.r.out.event))
         && (!c.r.st.INVAL? && !InPipeline(c.r.st) ==>
               && Follows(p, c.x.locs, c.x.cnt, c.r.t.core, Market.Run(MessagesOf(p, rs)).0, AllSides(p))
               && var es := c.bbos + Pending(c.r.out.bboValid, c.r.out.event);
                  ShownKept(p, c.x.locs, c.x.cnt, c.r.t.core, es, CrossesShown(p, rs, es)))
  {
    hide Run, TraceLed, Follows, KeptRun, MessagesOf, RunRecords, AllSides, TellsChanges, CrossesShown;
    var c := Run(p, r0, ins);
    DeliversHistory(p, r0, ins);
    RunSymbols(p, r0, ins);
    var rs := c.x.done[..Finished(c.r, c.x)];
    forall i | 0 <= i < |rs|
      ensures Addressed(c.x.locs, c.x.cnt, rs[i])
    {
      FittingIsAddressed(p, rs, i);
    }
    RecordsLead(p, c.x.locs, c.x.cnt, rs);
    RecordsShow(p, c.x.locs, c.x.cnt, rs);
    KeptRunFollows(p, c.x.locs, c.x.cnt, rs, AllSides(p));
  }
}
