// One record against one reference message, and whole runs of them.
module StepRefinement {
  import opened Prices
  import opened LevelPipeline
  import opened OrderTable
  import opened Records
  import opened Engine
  import opened ShownLevels
  import opened BookRefinement
  import Market

  /** What the fixed sizes ask of one record. A reduce, delete or replace names its order's
      own symbol, and takes no shares at all only off a listed level; an accepted add or
      replace finds a vacant slot on its path and fits 32 bits. */
  ghost predicate Fitting(p: Params, c: Core, s: Market.State, r: Record)
    requires Sound(p) && Engine.Shaped(p, c) && GoodRecord(p, r)
  {
    var op := DecodeOp(p, r.mtype, r.words);
    match op
    case Add(ref, ask, shares, price) =>
      ref !in s.orders && shares > 0 ==>
        && shares < 0x8000_0000 && Total(Market.LevelsOf(s.orders, r.locate, ask), price) + shares < WORD
        && !LookupOld(p, c.mem, op).full
    case Reduce(ref, shares) =>
      ref in s.orders ==>
        var o := s.orders[ref];
        o.locate == r.locate && (shares == 0 ==> Carried(ListAt(p, c, r.index, o.ask), o.price))
    case Delete(ref) => ref in s.orders ==> s.orders[ref].locate == r.locate
    case Replace(orig, newRef, shares, price) =>
      orig in s.orders ==>
        var o := s.orders[orig];
        && o.locate == r.locate
        && (shares > 0 && newRef !in s.orders ==>
              && shares < 0x8000_0000 && Total(Market.LevelsOf(s.orders - {orig}, r.locate, o.ask), price)
                 + shares < WORD
              && !LookupNew(p, c.mem, op).full)
    case _ => true
  }

  /** Orders keep between one and 2^31 - 1 shares. */
  lemma {:induction false} StaysSized(p: Params, c: Core, s: Market.State, r: Record)
    requires Sound(p) && Engine.Shaped(p, c) && GoodRecord(p, r) && Sized(s.orders) && Fitting(p, c, s, r)
    ensures Sized(Market.Step(s, MessageOf(p, r)).0.orders)
  {
    hide Market.BboOf, Market.LevelsOf, LookupOld, LookupNew, Carried, ListAt, Body64, Body32, BodyByte;
  }

  /** What a change of one level must not do to its list. */
  ghost predicate Keeps(p: Params, c: Core, os: Market.Orders, r: Record, ask: bool, price: nat, delta: int,
                        weak: set<nat>)
    requires Sound(p) && Engine.Shaped(p, c) && GoodRecord(p, r)
  {
    Stays(ListAt(p, c, r.index, ask), Market.LevelsOf(os, r.locate, ask), ask, price, delta,
          Strong(weak, SideOf(r.index, ask)))
  }

  /** The same of both halves of a replace: a list that loses the old order's level is
      filled up again by the new one. */
  ghost predicate KeepsBoth(p: Params, c: Core, os: Market.Orders, r: Record, orig: nat, price: nat, shares: nat,
                            weak: set<nat>)
    requires Sound(p) && Engine.Shaped(p, c) && GoodRecord(p, r) && orig in os && os[orig].qty < 0x8000_0000
  {
    var ask, down := os[orig].ask, -(os[orig].qty as int);
    var before, m := ListAt(p, c, r.index, ask), Market.LevelsOf(os, r.locate, ask);
    var between, left := LevelOp(before, ask, os[orig].price, down), Market.LevelsOf(os - {orig}, r.locate, ask);
    if Strong(weak, SideOf(r.index, ask)) then Loses(before, m, os[orig].price, down) ==>
      Refills(between, left, ask, price)
    else !ReEnters(between, left, ask, price, shares)
  }

  /** No list is upset by the record: a strong one does not lose a level while another is
      missing, a weak one gets no level back at or behind a missing one. */
  ghost predicate KeepsLists(p: Params, c: Core, s: Market.State, r: Record, weak: set<nat>)
    requires Sound(p) && Engine.Shaped(p, c) && GoodRecord(p, r) && Sized(s.orders)
  {
    match DecodeOp(p, r.mtype, r.words)
    case Add(ref, ask, shares, price) =>
      ref !in s.orders && shares > 0 ==> Keeps(p, c, s.orders, r, ask, price, shares, weak)
    case Reduce(ref, shares) =>
      ref in s.orders && shares <= s.orders[ref].qty ==>
        Keeps(p, c, s.orders, r, s.orders[ref].ask, s.orders[ref].price, -(shares as int), weak)
    case Delete(ref) =>
      ref in s.orders ==>
        Keeps(p, c, s.orders, r, s.orders[ref].ask, s.orders[ref].price, -(s.orders[ref].qty as int), weak)
    case Replace(orig, newRef, shares, price) =>
      orig in s.orders && shares > 0 && newRef !in s.orders ==> KeepsBoth(p, c, s.orders, r, orig, price, shares, weak)
    case _ => true
  }

  /** The record is for a registered symbol. */
  predicate Addressed(locs: seq<nat>, cnt: nat, r: Record) {
    !r.bad && r.index < cnt <= |locs| && locs[r.index] == r.locate
  }

  /** The hardware's result mirrors the reference's. */
  ghost predicate Refines(p: Params, locs: seq<nat>, cnt: nat, c: Core, s: Market.State, r: Record)
    requires Sound(p) && Engine.Shaped(p, c) && GoodRecord(p, r)
  {
    var (c', e) := Process(p, c, r);
    var (s', out) := Market.Step(s, MessageOf(p, r));
    Mirrors(p, locs, cnt, c', s') && Agrees(p, e, out, s'.orders)
  }

  /** Order movements touch the table and the lists only. */
  lemma {:induction false} MovesOnlyOrders(p: Params, c: Core, j: nat, ref: nat, row: Row, n: nat, slot: nat)
    requires Sound(p) && Engine.Shaped(p, c) && j < p.nsym && slot < p.nslot && row.qty < 0x8000_0000
    ensures Inserted(p, c, j, ref, row, slot)
            == c.(mem := Inserted(p, c, j, ref, row, slot).mem, sides := Inserted(p, c, j, ref, row, slot).sides)
    ensures Removed(p, c, j, row, slot) == c.(mem := Removed(p, c, j, row, slot).mem,
                                              sides := Removed(p, c, j, row, slot).sides)
    ensures Removed(p, c, j, row, slot).mem == c.mem[slot := BLANK]
    ensures n < row.qty ==>
              Lowered(p, c, j, ref, row, n, slot)
              == c.(mem := Lowered(p, c, j, ref, row, n, slot).mem, sides := Lowered(p, c, j, ref, row, n, slot).sides)
  {
  }

  // ---- what the hardware does when it accepts, in closed form ----

  function Published(p: Params, c: Core, r: Record): (Core, Option<Event>)
    requires Sound(p) && Engine.Shaped(p, c) && GoodRecord(p, r)
  {
    (Emit(p, c, r.locate, r.index).0, Some(Emit(p, c, r.locate, r.index).1))
  }

  lemma {:induction false} HardwareAdd(p: Params, c: Core, r: Record)
    requires Sound(p) && Engine.Shaped(p, c) && GoodRecord(p, r) && !r.bad && DecodeOp(p, r.mtype, r.words).Add?
    ensures
      var op := DecodeOp(p, r.mtype, r.words);
      var w := LookupOld(p, c.mem, op);
      && (w.found || op.shares == 0 ==> Process(p, c, r) == (c, None))
      && (!w.found && !w.full && 0 < op.shares < 0x8000_0000 ==>
            Process(p, c, r) ==
            Published(p, Inserted(p, c, r.index, op.ref, Row(op.ask, op.price, op.shares), w.empty), r))
  {
    hide Emit, LevelOp, DecodeOp, Lookup;
  }

  lemma {:induction false} HardwareReduce(p: Params, c: Core, r: Record, row: Row)
    requires Sound(p) && Engine.Shaped(p, c) && GoodRecord(p, r) && !r.bad && DecodeOp(p, r.mtype, r.words).Reduce?
    requires row.qty < 0x8000_0000
    requires
      var op := DecodeOp(p, r.mtype, r.words);
      LookupOld(p, c.mem, op).found && LookupOld(p, c.mem, op).entry == EntryOf(op.ref, row)
    ensures
      var op := DecodeOp(p, r.mtype, r.words);
      var slot := LookupOld(p, c.mem, op).slot;
      Process(p, c, r) ==
      if op.shares > row.qty then (c, None)
      else if op.shares == row.qty then Published(p, Removed(p, c, r.index, row, slot), r)
      else Published(p, Lowered(p, c, r.index, op.ref, row, op.shares, slot), r)
  {
    hide Emit, LevelOp, DecodeOp, Lookup;
  }

  lemma {:induction false} HardwareDelete(p: Params, c: Core, r: Record, row: Row)
    requires Sound(p) && Engine.Shaped(p, c) && GoodRecord(p, r) && !r.bad && DecodeOp(p, r.mtype, r.words).Delete?
    requires row.qty < 0x8000_0000
    requires
      var op := DecodeOp(p, r.mtype, r.words);
      LookupOld(p, c.mem, op).found && LookupOld(p, c.mem, op).entry == EntryOf(op.ref, row)
    ensures
      var slot := LookupOld(p, c.mem, DecodeOp(p, r.mtype, r.words)).slot;
      Process(p, c, r) == Published(p, Removed(p, c, r.index, row, slot), r)
  {
    hide Emit, LevelOp, DecodeOp, Lookup;
  }

  lemma {:induction false} HardwareReplace(p: Params, c: Core, r: Record, row: Row)
    requires Sound(p) && Engine.Shaped(p, c) && GoodRecord(p, r) && !r.bad && DecodeOp(p, r.mtype, r.words).Replace?
    requires row.qty < 0x8000_0000
    requires
      var op := DecodeOp(p, r.mtype, r.words);
      LookupOld(p, c.mem, op).found && LookupOld(p, c.mem, op).entry == EntryOf(op.orig, row)
    ensures
      var op := DecodeOp(p, r.mtype, r.words);
      var slot, w := LookupOld(p, c.mem, op).slot, LookupNew(p, c.mem, op);
      && (op.shares == 0 || w.found || w.full ==> Process(p, c, r) == (c, None))
      && (!w.found && !w.full && 0 < op.shares < 0x8000_0000 ==>
            Process(p, c, r) ==
            Published(p, Inserted(p, Removed(p, c, r.index, row, slot), r.index, op.newRef,
                                  Row(row.ask, op.price, op.shares), w.empty), r))
  {
    hide Emit, LevelOp, DecodeOp, Lookup;
  }

  /** An unknown order is an anomaly on both sides. */
  lemma {:induction false} HardwareAnomaly(p: Params, c: Core, r: Record)
    requires Sound(p) && Engine.Shaped(p, c) && GoodRecord(p, r) && !r.bad
    requires
      var op := DecodeOp(p, r.mtype, r.words);
      (op.Reduce? || op.Delete? || op.Replace?) && !LookupOld(p, c.mem, op).found
    ensures Process(p, c, r) == (c.(anomalies := (c.anomalies + 1) % WORD), None)
  {
  }

  // ---- the same on the reference's side ----

  /** No event on either side, no order moved, the other registers in step. */
  ghost predicate BothRest(p: Params, locs: seq<nat>, cnt: nat, c: Core, s: Market.State, r: Record)
    requires Sound(p) && Engine.Shaped(p, c) && GoodRecord(p, r) && cnt <= |locs| == p.nsym
  {
    var (c1, e) := Process(p, c, r);
    var (s1, out) := Market.Step(s, MessageOf(p, r));
    && e.None? && !out.Event?
    && c1 == c.(open := c1.open, tstate := c1.tstate, anomalies := c1.anomalies)
    && s1 == s.(open := s1.open, trading := s1.trading, anomalies := s1.anomalies)
    && PlainMirrors(p, locs, cnt, c1, s1)
  }

  /** Both sides publish, the hardware from c1, the reference from os, which show the
      same orders. */
  ghost predicate BothPublish(p: Params, locs: seq<nat>, cnt: nat, c: Core, s: Market.State, r: Record,
                              weak: set<nat>, c1: Core, os: Market.Orders)
    requires Sound(p) && Engine.Shaped(p, c) && GoodRecord(p, r)
  {
    && OrdersMirror(p, locs, cnt, c1, os, weak) && c1 == c.(mem := c1.mem, sides := c1.sides)
    && Process(p, c, r) == Published(p, c1, r)
    && Market.Step(s, MessageOf(p, r)) == Market.Publish(s.(orders := os), r.locate)
    && (forall x :: x in os ==> (x in s.orders && os[x].locate == s.orders[x].locate) || os[x].locate == r.locate)
    && exists x :: (x in os && os[x].locate == r.locate) || (x in s.orders && s.orders[x].locate == r.locate)
  }

  /** Both books alike, and a record that fits. */
  ghost predicate Ready(p: Params, locs: seq<nat>, cnt: nat, c: Core, s: Market.State, r: Record, weak: set<nat>)
    requires Sound(p)
  {
    && OrdersMirror(p, locs, cnt, c, s.orders, weak) && PlainMirrors(p, locs, cnt, c, s)
    && GoodRecord(p, r) && Addressed(locs, cnt, r) && Fitting(p, c, s, r)
  }

  ghost predicate Before(p: Params, locs: seq<nat>, cnt: nat, c: Core, s: Market.State, r: Record, weak: set<nat>)
    requires Sound(p)
  {
    Ready(p, locs, cnt, c, s, r, weak) && KeepsLists(p, c, s, r, weak)
  }

  /** The row of a live order, where the probe finds it. */
  lemma {:induction false} FindsOrder(p: Params, locs: seq<nat>, cnt: nat, c: Core, s: Market.State, op: Op,
                                      weak: set<nat>)
    requires Sound(p) && OrdersMirror(p, locs, cnt, c, s.orders, weak)
    requires op.Reduce? || op.Delete? || op.Replace?
    ensures
      var w := LookupOld(p, c.mem, op);
      && (w.found <==> OldRef(op) in s.orders)
      && (w.found ==>
            && w.entry == EntryOf(OldRef(op), RowsOf(s.orders)[OldRef(op)])
            && c.mem[w.slot] == w.entry
            && RowsOf(s.orders)[OldRef(op)].qty < 0x8000_0000)
  {
    LookupDecides(c.mem, p.probe, RowsOf(s.orders), OldRef(op), true, false);
  }

  /** A vacant slot for a new order, where the probe finds it. */
  lemma {:induction false} FindsVacancyFor(p: Params, locs: seq<nat>, cnt: nat, c: Core, s: Market.State, ref: nat,
                                           keep: bool, weak: set<nat>)
    requires Sound(p) && OrdersMirror(p, locs, cnt, c, s.orders, weak)
    ensures
      var w := Lookup(c.mem, p.probe, ref, keep, true);
      && (w.found <==> ref in s.orders)
      && (!w.found && !w.full ==> !c.mem[w.empty].valid && OnPath(p.nslot, p.probe, ref, w.empty))
  {
    LookupDecides(c.mem, p.probe, RowsOf(s.orders), ref, keep, true);
    if ref !in s.orders {
      LookupFindsRoom(c.mem, p.probe, RowsOf(s.orders), ref, keep);
    }
  }

  /** The list of a side that the lists show. */
  lemma {:induction false} ListShown(p: Params, locs: seq<nat>, cnt: nat, c: Core, os: Market.Orders, j: nat,
                                     ask: bool, weak: set<nat>)
    requires Sound(p) && OrdersMirror(p, locs, cnt, c, os, weak) && j < cnt
    ensures
      var side, m := ListAt(p, c, j, ask), LevelsAt(locs, os, j, ask);
      Slots(side) && |side| == p.cap && SideShows(side, m, ask, Strong(weak, SideOf(j, ask)))
        && SideShows(side, m, ask, false)
  {
    hide SideShows, Stores;
    var side, m := ListAt(p, c, j, ask), LevelsAt(locs, os, j, ask);
    assert SideShows(side, m, ask, Strong(weak, SideOf(j, ask)));
    if Strong(weak, SideOf(j, ask)) {
      TopIsBeginning(side, m, ask);
    }
  }

  /** A new order: its list shows the raised levels if and only if it may be changed so. */
  lemma {:induction false} RaisedShowsIff(p: Params, locs: seq<nat>, cnt: nat, c: Core, os: Market.Orders, j: nat,
                                          o: Market.Order, weak: set<nat>)
    requires Sound(p) && OrdersMirror(p, locs, cnt, c, os, weak) && j < cnt && 0 < o.qty < 0x8000_0000
    requires Total(LevelsAt(locs, os, j, o.ask), o.price) + o.qty < WORD
    ensures
      var side, m := ListAt(p, c, j, o.ask), LevelsAt(locs, os, j, o.ask);
      SideShows(LevelOp(side, o.ask, o.price, o.qty), Bump(m, o.price, o.qty), o.ask, Strong(weak, SideOf(j, o.ask)))
      <==> Stays(side, m, o.ask, o.price, o.qty, Strong(weak, SideOf(j, o.ask)))
  {
    hide SideShows, Stays, LevelOp, Bump, Carried, Stores, SidesShow, Market.LevelsOf;
    ListShown(p, locs, cnt, c, os, j, o.ask, weak);
    StaysIff(ListAt(p, c, j, o.ask), LevelsAt(locs, os, j, o.ask), o.ask, o.price, o.qty,
             Strong(weak, SideOf(j, o.ask)));
  }

  /** Taking shares off a live order: its list shows the lowered levels if and only if it
      may be changed so. */
  lemma {:induction false} LoweredShowsIff(p: Params, locs: seq<nat>, cnt: nat, c: Core, os: Market.Orders, j: nat,
                                           r: nat, n: nat, weak: set<nat>)
    requires Sound(p) && OrdersMirror(p, locs, cnt, c, os, weak) && j < cnt && r in os && os[r].locate == locs[j]
             && n <= os[r].qty
    requires n == 0 ==> Carried(ListAt(p, c, j, os[r].ask), os[r].price)
    ensures
      var ask, price := os[r].ask, os[r].price;
      var side, m := ListAt(p, c, j, ask), LevelsAt(locs, os, j, ask);
      && Fits(side, m, price, -(n as int))
      && (SideShows(LevelOp(side, ask, price, -(n as int)), Bump(m, price, -(n as int)), ask,
                    Strong(weak, SideOf(j, ask)))
          <==> Stays(side, m, ask, price, -(n as int), Strong(weak, SideOf(j, ask))))
  {
    hide SideShows, Stays, LevelOp, Bump, Carried, Stores, SidesShow, Market.LevelsOf;
    LoweringFits(p, locs, cnt, c, os, j, r, n, weak);
    ListShown(p, locs, cnt, c, os, j, os[r].ask, weak);
    StaysIff(ListAt(p, c, j, os[r].ask), LevelsAt(locs, os, j, os[r].ask), os[r].ask, os[r].price, -(n as int),
             Strong(weak, SideOf(j, os[r].ask)));
  }

  lemma {:induction false} AnomalyRests(p: Params, locs: seq<nat>, cnt: nat, c: Core, s: Market.State, r: Record,
                                        weak: set<nat>)
    requires Sound(p) && Before(p, locs, cnt, c, s, r, weak)
    requires
      var op := DecodeOp(p, r.mtype, r.words);
      (op.Reduce? || op.Delete? || op.Replace?) && !LookupOld(p, c.mem, op).found && OldRef(op) !in s.orders
    ensures BothRest(p, locs, cnt, c, s, r)
  {
    hide Process, LookupOld, LookupNew, Market.Publish, Stores, SidesShow, Sized, LastOr, StateOr, Body64, Body32,
         BodyByte, Fitting, KeepsLists;
    HardwareAnomaly(p, c, r);
  }

  lemma {:induction false} AddSteps(p: Params, locs: seq<nat>, cnt: nat, c: Core, s: Market.State, r: Record,
                                    weak: set<nat>)
    returns (c1: Core, os: Market.Orders)
    requires Sound(p) && Before(p, locs, cnt, c, s, r, weak) && DecodeOp(p, r.mtype, r.words).Add?
    ensures BothRest(p, locs, cnt, c, s, r) || BothPublish(p, locs, cnt, c, s, r, weak, c1, os)
  {
    hide Emit, Process, Inserted, Removed, Lowered, Lookup, Market.Publish, Stores, SidesShow, SideShows, Stays,
         Carried, LevelOp, Bump, Market.LevelsOf, Body64, Body32, BodyByte;
    var op := DecodeOp(p, r.mtype, r.words);
    FindsVacancyFor(p, locs, cnt, c, s, op.ref, true, weak);
    HardwareAdd(p, c, r);
    c1, os := c, s.orders;
    if op.ref !in s.orders && op.shares > 0 {
      var o := Market.Order(r.locate, op.ask, op.price, op.shares);
      var row := Row(op.ask, op.price, op.shares);
      var slot := LookupOld(p, c.mem, op).empty;
      RaisedShowsIff(p, locs, cnt, c, s.orders, r.index, o, weak);
      InsertMirrors(p, locs, cnt, c, s.orders, r.index, op.ref, o, slot, weak, weak);
      MovesOnlyOrders(p, c, r.index, op.ref, row, 0, slot);
      c1, os := Inserted(p, c, r.index, op.ref, row, slot), s.orders[op.ref := o];
      assert os[op.ref].locate == r.locate;
    }
  }

  lemma {:induction false} ReduceSteps(p: Params, locs: seq<nat>, cnt: nat, c: Core, s: Market.State, r: Record,
                                       weak: set<nat>)
    returns (c1: Core, os: Market.Orders)
    requires Sound(p) && Before(p, locs, cnt, c, s, r, weak) && DecodeOp(p, r.mtype, r.words).Reduce?
    ensures BothRest(p, locs, cnt, c, s, r) || BothPublish(p, locs, cnt, c, s, r, weak, c1, os)
  {
    hide Emit, Process, Inserted, Removed, Lowered, Lookup, Market.Publish, Stores, SidesShow, SideShows, Stays,
         Carried, LevelOp, Bump, Market.LevelsOf, Body64, Body32, BodyByte;
    var op := DecodeOp(p, r.mtype, r.words);
    FindsOrder(p, locs, cnt, c, s, op, weak);
    c1, os := c, s.orders;
    if op.ref !in s.orders {
      AnomalyRests(p, locs, cnt, c, s, r, weak);
    } else {
      var row, o := RowsOf(s.orders)[op.ref], s.orders[op.ref];
      var slot := LookupOld(p, c.mem, op).slot;
      HardwareReduce(p, c, r, row);
      if op.shares <= o.qty {
        LoweredShowsIff(p, locs, cnt, c, s.orders, r.index, op.ref, op.shares, weak);
        MovesOnlyOrders(p, c, r.index, op.ref, row, op.shares, slot);
        if op.shares == row.qty {
          RemoveMirrors(p, locs, cnt, c, s.orders, r.index, op.ref, slot, weak, weak);
          c1, os := Removed(p, c, r.index, row, slot), s.orders - {op.ref};
        } else {
          ReduceMirrors(p, locs, cnt, c, s.orders, r.index, op.ref, op.shares, slot, weak, weak);
          c1, os := Lowered(p, c, r.index, op.ref, row, op.shares, slot), Market.Less(s.orders, op.ref, op.shares);
        }
      }
    }
  }

  lemma {:induction false} DeleteSteps(p: Params, locs: seq<nat>, cnt: nat, c: Core, s: Market.State, r: Record,
                                       weak: set<nat>)
    returns (c1: Core, os: Market.Orders)
    requires Sound(p) && Before(p, locs, cnt, c, s, r, weak) && DecodeOp(p, r.mtype, r.words).Delete?
    ensures BothRest(p, locs, cnt, c, s, r) || BothPublish(p, locs, cnt, c, s, r, weak, c1, os)
  {
    hide Emit, Process, Inserted, Removed, Lowered, Lookup, Market.Publish, Stores, SidesShow, SideShows, Stays,
         Carried, LevelOp, Bump, Market.LevelsOf, Body64, Body32, BodyByte;
    var op := DecodeOp(p, r.mtype, r.words);
    FindsOrder(p, locs, cnt, c, s, op, weak);
    c1, os := c, s.orders;
    if op.ref !in s.orders {
      AnomalyRests(p, locs, cnt, c, s, r, weak);
    } else {
      var row, o := RowsOf(s.orders)[op.ref], s.orders[op.ref];
      var slot := LookupOld(p, c.mem, op).slot;
      HardwareDelete(p, c, r, row);
      LoweredShowsIff(p, locs, cnt, c, s.orders, r.index, op.ref, o.qty, weak);
      RemoveMirrors(p, locs, cnt, c, s.orders, r.index, op.ref, slot, weak, weak);
      MovesOnlyOrders(p, c, r.index, op.ref, row, 0, slot);
      c1, os := Removed(p, c, r.index, row, slot), s.orders - {op.ref};
    }
  }

  /** Both halves of an accepted replace: the list of the order's side shows the levels
      after both if and only if it may be changed so. */
  lemma {:induction false} ReplaceMirrors(p: Params, locs: seq<nat>, cnt: nat, c: Core, os: Market.Orders, r: Record,
                                          orig: nat, newRef: nat,
                                          price: nat, shares: nat, slot: nat, free: nat, weak: set<nat>)
    requires Sound(p) && OrdersMirror(p, locs, cnt, c, os, weak) && GoodRecord(p, r) && Addressed(locs, cnt, r)
    requires orig in os && newRef !in os && os[orig].locate == r.locate && 0 < shares < 0x8000_0000
    requires Total(Market.LevelsOf(os - {orig}, r.locate, os[orig].ask), price) + shares < WORD
    requires slot < p.nslot && c.mem[slot] == EntryOf(orig, RowsOf(os)[orig])
    requires free < p.nslot && free != slot && !c.mem[free].valid && OnPath(p.nslot, p.probe, newRef, free)
    requires KeepsBoth(p, c, os, r, orig, price, shares, weak)
    ensures
      var row := RowsOf(os)[orig];
      OrdersMirror(p, locs, cnt,
                   Inserted(p, Removed(p, c, r.index, row, slot), r.index, newRef, Row(row.ask, price, shares), free),
                   (os - {orig})[newRef := Market.Order(r.locate, row.ask, price, shares)], weak)
  {
    hide Stores, SidesShow, SideShows, Carried, LevelOp, Bump, Market.LevelsOf, Loses, ReEnters, Refills;
    var o, row, j := os[orig], RowsOf(os)[orig], r.index;
    var down, k := -(o.qty as int), SideOf(j, o.ask);
    var side, m := ListAt(p, c, j, o.ask), LevelsAt(locs, os, j, o.ask);
    SizedIsLive(os);
    ReplacedLevel(os, orig, newRef, price, shares);
    ListShown(p, locs, cnt, c, os, j, o.ask, weak);
    LoweringFits(p, locs, cnt, c, os, j, orig, o.qty, weak);
    HalvesShowIff(side, m, o.ask, o.price, down, price, shares, Strong(weak, k));
    RemoveMirrors(p, locs, cnt, c, os, j, orig, slot, weak, weak + {k});
    var c1 := Removed(p, c, j, row, slot);
    MovesOnlyOrders(p, c, j, orig, row, 0, slot);
    assert ListAt(p, c1, j, o.ask) == LevelOp(side, o.ask, o.price, down);
    InsertMirrors(p, locs, cnt, c1, os - {orig}, j, newRef, Market.Order(r.locate, o.ask, price, shares), free,
                  weak + {k}, weak);
  }

  /** A replace is one atomic move: both halves are in before the event. */
  lemma {:induction false} ReplaceSteps(p: Params, locs: seq<nat>, cnt: nat, c: Core, s: Market.State, r: Record,
                                        weak: set<nat>)
    returns (c1: Core, os: Market.Orders)
    requires Sound(p) && Before(p, locs, cnt, c, s, r, weak) && DecodeOp(p, r.mtype, r.words).Replace?
    ensures BothRest(p, locs, cnt, c, s, r) || BothPublish(p, locs, cnt, c, s, r, weak, c1, os)
  {
    hide Emit, Process, Inserted, Removed, Lowered, Lookup, Market.Publish, Stores, SidesShow, KeepsBoth, Bump,
         Market.LevelsOf, Body64, Body32, BodyByte;
    var op := DecodeOp(p, r.mtype, r.words);
    FindsOrder(p, locs, cnt, c, s, op, weak);
    c1, os := c, s.orders;
    if op.orig !in s.orders {
      AnomalyRests(p, locs, cnt, c, s, r, weak);
    } else {
      var row := RowsOf(s.orders)[op.orig];
      var slot, w := LookupOld(p, c.mem, op).slot, LookupNew(p, c.mem, op);
      FindsVacancyFor(p, locs, cnt, c, s, op.newRef, false, weak);
      HardwareReplace(p, c, r, row);
      if op.shares > 0 && op.newRef !in s.orders {
        ReplaceMirrors(p, locs, cnt, c, s.orders, r, op.orig, op.newRef, op.price, op.shares, slot, w.empty, weak);
        MovesOnlyOrders(p, c, r.index, op.orig, row, 0, slot);
        MovesOnlyOrders(p, Removed(p, c, r.index, row, slot), r.index, op.newRef, Row(row.ask, op.price, op.shares),
                        0, w.empty);
        c1 := Inserted(p, Removed(p, c, r.index, row, slot), r.index, op.newRef, Row(row.ask, op.price, op.shares),
                       w.empty);
        os := (s.orders - {op.orig})[op.newRef := Market.Order(r.locate, row.ask, op.price, op.shares)];
        assert os[op.newRef].locate == r.locate;
      }
    }
  }

  /** The remaining messages move no order and emit nothing. */
  lemma {:induction false} QuietRests(p: Params, locs: seq<nat>, cnt: nat, c: Core, s: Market.State, r: Record,
                                      weak: set<nat>)
    requires Sound(p) && Before(p, locs, cnt, c, s, r, weak)
    requires
      var op := DecodeOp(p, r.mtype, r.words);
      op.SystemEvent? || op.Trading? || op.Other?
    ensures BothRest(p, locs, cnt, c, s, r)
  {
    hide Stores, SidesShow, Body64, Body32, BodyByte, Fitting, KeepsLists;
    var (c1, _) := Process(p, c, r);
    var (s1, _) := Market.Step(s, MessageOf(p, r));
    forall i | 0 <= i < cnt
      ensures c1.tstate[i] == StateOr(s1.trading, locs[i])
    {
      assert i != r.index ==> locs[i] != locs[r.index];
    }
  }

  /** One record: both sides rest, or both publish from the same orders. */
  lemma {:induction false} RecordSteps(p: Params, locs: seq<nat>, cnt: nat, c: Core, s: Market.State, r: Record,
                                       weak: set<nat>)
    returns (c1: Core, os: Market.Orders)
    requires Sound(p) && Before(p, locs, cnt, c, s, r, weak)
    ensures BothRest(p, locs, cnt, c, s, r) || BothPublish(p, locs, cnt, c, s, r, weak, c1, os)
  {
    hide BothRest, BothPublish, Fitting, KeepsLists, OrdersMirror, PlainMirrors;
    c1, os := c, s.orders;
    match DecodeOp(p, r.mtype, r.words)
    case Add(_, _, _, _) => c1, os := AddSteps(p, locs, cnt, c, s, r, weak);
    case Reduce(_, _) => c1, os := ReduceSteps(p, locs, cnt, c, s, r, weak);
    case Delete(_) => c1, os := DeleteSteps(p, locs, cnt, c, s, r, weak);
    case Replace(_, _, _, _) => c1, os := ReplaceSteps(p, locs, cnt, c, s, r, weak);
    case _ => QuietRests(p, locs, cnt, c, s, r, weak);
  }

  // ---- a record that upsets a list is seen on it ----

  /** The list of a side after a record, and its levels. */
  lemma {:induction false} ShownAfter(p: Params, locs: seq<nat>, cnt: nat, c: Core, os: Market.Orders, j: nat,
                                      ask: bool, weak: set<nat>)
    requires Sound(p) && OrdersMirror(p, locs, cnt, c, os, weak) && j < cnt
    ensures SideShows(ListAt(p, c, j, ask), LevelsAt(locs, os, j, ask), ask, Strong(weak, SideOf(j, ask)))
  {
    hide SideShows, Stores;
  }

  lemma {:induction false} AddKept(p: Params, locs: seq<nat>, cnt: nat, c: Core, s: Market.State, r: Record,
                                   weak: set<nat>)
    requires Sound(p) && Ready(p, locs, cnt, c, s, r, weak) && DecodeOp(p, r.mtype, r.words).Add?
    requires OrdersMirror(p, locs, cnt, Process(p, c, r).0, Market.Step(s, MessageOf(p, r)).0.orders, weak)
    ensures KeepsLists(p, c, s, r, weak)
  {
    hide Process, Lookup, Stores, SidesShow, SideShows, Stays, Carried, LevelOp, Bump, Market.LevelsOf, Body64,
         Body32, BodyByte;
    var op := DecodeOp(p, r.mtype, r.words);
    FindsVacancyFor(p, locs, cnt, c, s, op.ref, true, weak);
    HardwareAdd(p, c, r);
    if op.ref !in s.orders && op.shares > 0 {
      var o := Market.Order(r.locate, op.ask, op.price, op.shares);
      SizedIsLive(s.orders);
      InsertBumps(s.orders, op.ref, o);
      RaisedShowsIff(p, locs, cnt, c, s.orders, r.index, o, weak);
      ShownAfter(p, locs, cnt, Process(p, c, r).0, Market.Step(s, MessageOf(p, r)).0.orders, r.index, op.ask, weak);
    }
  }

  lemma {:induction false} LoweredLevel(os: Market.Orders, r: nat, n: nat)
    requires Market.AllLive(os) && r in os && n <= os[r].qty
    ensures
      var after := if n == os[r].qty then os - {r} else Market.Less(os, r, n);
      var m := Market.LevelsOf(os, os[r].locate, os[r].ask);
      Total(m, os[r].price) >= n && Market.LevelsOf(after, os[r].locate, os[r].ask) == Bump(m, os[r].price, -(n as int))
  {
    hide Market.LevelsOf, Bump;
    if n == os[r].qty {
      RemoveBumps(os, r);
    } else {
      ReduceBumps(os, r, n);
    }
  }

  /** The list of a side changed once. */
  predicate ChangedOnce(p: Params, c: Core, c1: Core, j: nat, ask: bool, price: nat, delta: int)
    requires Sound(p) && Engine.Shaped(p, c) && Engine.Shaped(p, c1) && j < p.nsym
             && -0x8000_0000 <= delta < 0x8000_0000
  {
    ListAt(p, c1, j, ask) == LevelOp(ListAt(p, c, j, ask), ask, price, delta)
  }

  /** What an accepted reduce leaves: the orders, and the list of its side. */
  lemma {:induction false} ReduceLeaves(p: Params, locs: seq<nat>, cnt: nat, c: Core, s: Market.State, r: Record,
                                        weak: set<nat>)
    requires Sound(p) && Ready(p, locs, cnt, c, s, r, weak) && DecodeOp(p, r.mtype, r.words).Reduce?
    requires
      var op := DecodeOp(p, r.mtype, r.words);
      op.ref in s.orders && op.shares <= s.orders[op.ref].qty
    ensures
      var op := DecodeOp(p, r.mtype, r.words);
      var o := s.orders[op.ref];
      && o.qty < 0x8000_0000 && o.locate == r.locate
         && (op.shares == 0 ==> Carried(ListAt(p, c, r.index, o.ask), o.price))
      && Market.Step(s, MessageOf(p, r)).0.orders
         == (if op.shares == o.qty then s.orders - {op.ref} else Market.Less(s.orders, op.ref, op.shares))
      && ChangedOnce(p, c, Process(p, c, r).0, r.index, o.ask, o.price, -(op.shares as int))
  {
    hide Process, Lookup, Stores, SidesShow, LevelOp, Bump, Market.LevelsOf, Market.Publish, Carried, Body64, Body32,
         BodyByte;
    var op := DecodeOp(p, r.mtype, r.words);
    FindsOrder(p, locs, cnt, c, s, op, weak);
    HardwareReduce(p, c, r, RowsOf(s.orders)[op.ref]);
  }

  lemma {:induction false} ReduceKept(p: Params, locs: seq<nat>, cnt: nat, c: Core, s: Market.State, r: Record,
                                      weak: set<nat>)
    requires Sound(p) && Ready(p, locs, cnt, c, s, r, weak) && DecodeOp(p, r.mtype, r.words).Reduce?
    requires OrdersMirror(p, locs, cnt, Process(p, c, r).0, Market.Step(s, MessageOf(p, r)).0.orders, weak)
    ensures KeepsLists(p, c, s, r, weak)
  {
    hide Process, Market.Step, Fitting, Stores, SidesShow, SideShows, Stays, Carried, LevelOp, Bump, Market.LevelsOf,
         Market.Less, Body64, Body32, BodyByte;
    var op := DecodeOp(p, r.mtype, r.words);
    SizedIsLive(s.orders);
    if op.ref in s.orders && op.shares <= s.orders[op.ref].qty {
      ReduceLeaves(p, locs, cnt, c, s, r, weak);
      LoweredLevel(s.orders, op.ref, op.shares);
      LoweredShowsIff(p, locs, cnt, c, s.orders, r.index, op.ref, op.shares, weak);
      ShownAfter(p, locs, cnt, Process(p, c, r).0, Market.Step(s, MessageOf(p, r)).0.orders, r.index,
                 s.orders[op.ref].ask, weak);
    }
  }

  lemma {:induction false} DeleteKept(p: Params, locs: seq<nat>, cnt: nat, c: Core, s: Market.State, r: Record,
                                      weak: set<nat>)
    requires Sound(p) && Ready(p, locs, cnt, c, s, r, weak) && DecodeOp(p, r.mtype, r.words).Delete?
    requires OrdersMirror(p, locs, cnt, Process(p, c, r).0, Market.Step(s, MessageOf(p, r)).0.orders, weak)
    ensures KeepsLists(p, c, s, r, weak)
  {
    hide Process, Lookup, Stores, SidesShow, SideShows, Stays, Carried, LevelOp, Bump, Market.LevelsOf, Body64,
         Body32, BodyByte;
    var op := DecodeOp(p, r.mtype, r.words);
    FindsOrder(p, locs, cnt, c, s, op, weak);
    SizedIsLive(s.orders);
    if op.ref in s.orders {
      var o := s.orders[op.ref];
      HardwareDelete(p, c, r, RowsOf(s.orders)[op.ref]);
      RemoveBumps(s.orders, op.ref);
      LoweredShowsIff(p, locs, cnt, c, s.orders, r.index, op.ref, o.qty, weak);
      ShownAfter(p, locs, cnt, Process(p, c, r).0, Market.Step(s, MessageOf(p, r)).0.orders, r.index, o.ask, weak);
    }
  }

  /** The list of a side changed twice. */
  predicate ChangedTwice(p: Params, c: Core, c1: Core, j: nat, ask: bool, gone: nat, down: int, price: nat, up: int)
    requires Sound(p) && Engine.Shaped(p, c) && Engine.Shaped(p, c1) && j < p.nsym
    requires -0x8000_0000 <= down < 0x8000_0000 && -0x8000_0000 <= up < 0x8000_0000
  {
    LevelOpBounded(ListAt(p, c, j, ask), ask, gone, down);
    ListAt(p, c1, j, ask) == LevelOp(LevelOp(ListAt(p, c, j, ask), ask, gone, down), ask, price, up)
  }

  /** What an accepted replace leaves: the orders, and the list of its side. */
  lemma {:induction false} ReplaceLeaves(p: Params, locs: seq<nat>, cnt: nat, c: Core, s: Market.State, r: Record,
                                         weak: set<nat>)
    requires Sound(p) && Ready(p, locs, cnt, c, s, r, weak) && DecodeOp(p, r.mtype, r.words).Replace?
    requires
      var op := DecodeOp(p, r.mtype, r.words);
      op.orig in s.orders && op.shares > 0 && op.newRef !in s.orders
    ensures
      var op := DecodeOp(p, r.mtype, r.words);
      var o := s.orders[op.orig];
      && o.qty < 0x8000_0000 && op.shares < 0x8000_0000 && o.locate == r.locate
      && Total(Market.LevelsOf(s.orders - {op.orig}, r.locate, o.ask), op.price) + op.shares < WORD
      && Market.Step(s, MessageOf(p, r)).0.orders
         == (s.orders - {op.orig})[op.newRef := Market.Order(r.locate, o.ask, op.price, op.shares)]
      && ChangedTwice(p, c, Process(p, c, r).0, r.index, o.ask, o.price, -(o.qty as int), op.price, op.shares)
  {
    hide Process, Lookup, Stores, SidesShow, LevelOp, Bump, Market.LevelsOf, Body64, Body32, BodyByte;
    var op := DecodeOp(p, r.mtype, r.words);
    FindsOrder(p, locs, cnt, c, s, op, weak);
    FindsVacancyFor(p, locs, cnt, c, s, op.newRef, false, weak);
    HardwareReplace(p, c, r, RowsOf(s.orders)[op.orig]);
  }

  lemma {:induction false} ReplaceKept(p: Params, locs: seq<nat>, cnt: nat, c: Core, s: Market.State, r: Record,
                                       weak: set<nat>)
    requires Sound(p) && Ready(p, locs, cnt, c, s, r, weak) && DecodeOp(p, r.mtype, r.words).Replace?
    requires OrdersMirror(p, locs, cnt, Process(p, c, r).0, Market.Step(s, MessageOf(p, r)).0.orders, weak)
    ensures KeepsLists(p, c, s, r, weak)
  {
    hide Process, Market.Step, Fitting, Stores, SidesShow, SideShows, Carried, LevelOp, Bump, Market.LevelsOf, Body64,
         Body32, BodyByte, Loses, Refills, ReEnters;
    var op := DecodeOp(p, r.mtype, r.words);
    if op.orig in s.orders && op.shares > 0 && op.newRef !in s.orders {
      var o := s.orders[op.orig];
      ReplaceLeaves(p, locs, cnt, c, s, r, weak);
      SizedIsLive(s.orders);
      ReplacedLevel(s.orders, op.orig, op.newRef, op.price, op.shares);
      ListShown(p, locs, cnt, c, s.orders, r.index, o.ask, weak);
      LoweringFits(p, locs, cnt, c, s.orders, r.index, op.orig, o.qty, weak);
      HalvesShowIff(ListAt(p, c, r.index, o.ask), LevelsAt(locs, s.orders, r.index, o.ask), o.ask, o.price,
                    -(o.qty as int), op.price, op.shares,
                    Strong(weak, SideOf(r.index, o.ask)));
      ShownAfter(p, locs, cnt, Process(p, c, r).0, Market.Step(s, MessageOf(p, r)).0.orders, r.index, o.ask, weak);
    }
  }

  /** What both halves of a replace make of the levels of its side. */
  lemma {:induction false} ReplacedLevel(os: Market.Orders, orig: nat, newRef: nat, price: nat, shares: nat)
    requires Market.AllLive(os) && orig in os && newRef !in os && shares > 0
    ensures
      var o := os[orig];
      var m, left := Market.LevelsOf(os, o.locate, o.ask), Market.LevelsOf(os - {orig}, o.locate, o.ask);
      && Total(m, o.price) >= o.qty && left == Bump(m, o.price, -(o.qty as int))
      && Market.LevelsOf((os - {orig})[newRef := Market.Order(o.locate, o.ask, price, shares)], o.locate, o.ask)
         == Bump(left, price, shares)
  {
    hide Market.LevelsOf, Bump;
    RemoveBumps(os, orig);
    InsertBumps(os - {orig}, newRef, Market.Order(os[orig].locate, os[orig].ask, price, shares));
  }

  /** One record that fits: the lists go on showing what they show if and only if the
      record upsets none. */
  lemma {:induction false} ListsKeptIff(p: Params, locs: seq<nat>, cnt: nat, c: Core, s: Market.State, r: Record,
                                        weak: set<nat>)
    requires Sound(p) && Ready(p, locs, cnt, c, s, r, weak)
    ensures OrdersMirror(p, locs, cnt, Process(p, c, r).0, Market.Step(s, MessageOf(p, r)).0.orders, weak)
            <==> KeepsLists(p, c, s, r, weak)
  {
    hide Process, Market.Step, Fitting, Stores, SidesShow, KeepsLists;
    if KeepsLists(p, c, s, r, weak) {
      var c1, os := RecordSteps(p, locs, cnt, c, s, r, weak);
      SteppedMirrors(p, locs, cnt, c, s, r, weak, c1, os);
    } else if OrdersMirror(p, locs, cnt, Process(p, c, r).0, Market.Step(s, MessageOf(p, r)).0.orders, weak) {
      match DecodeOp(p, r.mtype, r.words)
      case Add(_, _, _, _) => AddKept(p, locs, cnt, c, s, r, weak);
      case Reduce(_, _) => ReduceKept(p, locs, cnt, c, s, r, weak);
      case Delete(_) => DeleteKept(p, locs, cnt, c, s, r, weak);
      case Replace(_, _, _, _) => ReplaceKept(p, locs, cnt, c, s, r, weak);
      case _ => OthersKeep(p, c, s, r, weak);
    }
  }

  lemma {:induction false} OthersKeep(p: Params, c: Core, s: Market.State, r: Record, weak: set<nat>)
    requires Sound(p) && Engine.Shaped(p, c) && GoodRecord(p, r) && Sized(s.orders)
    requires
      var op := DecodeOp(p, r.mtype, r.words);
      op.SystemEvent? || op.Trading? || op.Other?
    ensures KeepsLists(p, c, s, r, weak)
  {
  }

  lemma {:induction false} SteppedMirrors(p: Params, locs: seq<nat>, cnt: nat, c: Core, s: Market.State, r: Record,
                                          weak: set<nat>, c1: Core, os: Market.Orders)
    requires Sound(p) && OrdersMirror(p, locs, cnt, c, s.orders, weak) && GoodRecord(p, r) && Addressed(locs, cnt, r)
    requires BothRest(p, locs, cnt, c, s, r) || BothPublish(p, locs, cnt, c, s, r, weak, c1, os)
    ensures OrdersMirror(p, locs, cnt, Process(p, c, r).0, Market.Step(s, MessageOf(p, r)).0.orders, weak)
  {
    hide Process, DecodeOp, Stores, SidesShow;
  }

  // ---- lists that show the best levels: the reference's events ----

  /** Publishing from the same orders makes both sides agree again. */
  lemma {:induction false} PublishMirrors(p: Params, locs: seq<nat>, cnt: nat, c: Core, s: Market.State, r: Record,
                                          c1: Core, os: Market.Orders)
    requires Sound(p) && Mirrors(p, locs, cnt, c, s) && GoodRecord(p, r) && Addressed(locs, cnt, r)
             && BothPublish(p, locs, cnt, c, s, r, {}, c1, os)
    ensures Refines(p, locs, cnt, c, s, r)
  {
    hide Process, Market.Step, Market.Publish, Emit, DecodeOp, Stores, SidesShow, Agrees;
    EmitMirrors(p, locs, cnt, c1, s.(orders := os), r.index);
  }

  lemma {:induction false} RestRefines(p: Params, locs: seq<nat>, cnt: nat, c: Core, s: Market.State, r: Record)
    requires Sound(p) && Mirrors(p, locs, cnt, c, s) && GoodRecord(p, r) && BothRest(p, locs, cnt, c, s, r)
    ensures Refines(p, locs, cnt, c, s, r)
  {
    hide Process, DecodeOp, Stores, SidesShow;
  }

  /** One record: the same event or none, the same counters, and both books still alike. */
  lemma {:induction false} ProcessRefines(p: Params, locs: seq<nat>, cnt: nat, c: Core, s: Market.State, r: Record)
    requires Sound(p) && Mirrors(p, locs, cnt, c, s) && GoodRecord(p, r) && Addressed(locs, cnt, r)
    requires Fitting(p, c, s, r) && KeepsLists(p, c, s, r, {})
    ensures Refines(p, locs, cnt, c, s, r)
  {
    hide Process, Refines, BothPublish, BothRest, Fitting, KeepsLists, Stores, SidesShow;
    var c1, os := RecordSteps(p, locs, cnt, c, s, r, {});
    if BothPublish(p, locs, cnt, c, s, r, {}, c1, os) {
      PublishMirrors(p, locs, cnt, c, s, r, c1, os);
    } else {
      RestRefines(p, locs, cnt, c, s, r);
    }
  }
}
