// The order table over whole runs, whatever the lists do: every record performs
// exactly its map update or leaves the table alone.
module TableRuns {
  import opened Prices
  import opened LevelPipeline
  import opened OrderTable
  import opened Records
  import opened Engine
  import opened Clock
  import opened Overlap
  import opened ClockRefinement
  import opened BookRefinement
  import opened Runs
  import Market

  /** Every slot of the path of the reference is taken. */
  predicate PathFull(mem: seq<Entry>, probe: nat, ref: nat)
    requires 0 < probe <= |mem|
  {
    forall s :: 0 <= s < |mem| && OnPath(|mem|, probe, ref, s) ==> mem[s].valid
  }

  // ---- when a path has room ----

  /** The references in the first i slots of a path. */
  function PathRefs(mem: seq<Entry>, probe: nat, ref: nat, i: nat): set<nat>
    requires 0 < probe <= |mem| && i <= probe
  {
    if i == 0 then {} else PathRefs(mem, probe, ref, i - 1) + {mem[Slot(|mem|, Hash(ref, |mem|), i - 1)].ref}
  }

  lemma {:induction false} SlotTaken(mem: seq<Entry>, probe: nat, rows: Rows, ref: nat, k: nat)
    requires Stores(mem, probe, rows) && PathFull(mem, probe, ref) && k < probe
    ensures
      var s := Slot(|mem|, Hash(ref, |mem|), k);
      mem[s].valid && mem[s].ref in rows
  {
    assert OnPath(|mem|, probe, ref, Slot(|mem|, Hash(ref, |mem|), k));
  }

  lemma {:induction false} OneSlotEach(mem: seq<Entry>, probe: nat, rows: Rows, s: nat, t: nat)
    requires Stores(mem, probe, rows) && s < |mem| && t < |mem| && s != t && mem[s].valid && mem[t].valid
    ensures mem[s].ref != mem[t].ref
  {
  }

  lemma {:induction false} PathRefsAre(mem: seq<Entry>, probe: nat, ref: nat, i: nat)
    requires 0 < probe <= |mem| && i <= probe
    ensures forall x :: x in PathRefs(mem, probe, ref, i) ==>
              exists k :: 0 <= k < i && mem[Slot(|mem|, Hash(ref, |mem|), k)].ref == x
  {
    hide Hash, Slot;
    if i > 0 {
      PathRefsAre(mem, probe, ref, i - 1);
      assert mem[Slot(|mem|, Hash(ref, |mem|), i - 1)].ref in PathRefs(mem, probe, ref, i);
    }
  }

  lemma {:induction false} NextRefIsNew(mem: seq<Entry>, probe: nat, rows: Rows, ref: nat, i: nat)
    requires Stores(mem, probe, rows) && PathFull(mem, probe, ref) && i < probe
    ensures mem[Slot(|mem|, Hash(ref, |mem|), i)].ref !in PathRefs(mem, probe, ref, i)
  {
    hide Stores, PathFull, Hash, OnPath, PathRefs;
    StoresSizes(mem, probe, rows);
    PathRefsAre(mem, probe, ref, i);
    var h := Hash(ref, |mem|);
    if k: nat :| k < i && mem[Slot(|mem|, h, k)].ref == mem[Slot(|mem|, h, i)].ref {
      SlotTaken(mem, probe, rows, ref, i);
      SlotTaken(mem, probe, rows, ref, k);
      OneSlotEach(mem, probe, rows, Slot(|mem|, h, k), Slot(|mem|, h, i));
    }
  }

  lemma {:induction false} TakenSlotsDiffer(mem: seq<Entry>, probe: nat, rows: Rows, ref: nat, i: nat)
    requires Stores(mem, probe, rows) && PathFull(mem, probe, ref) && i <= probe
    ensures |PathRefs(mem, probe, ref, i)| == i && PathRefs(mem, probe, ref, i) <= rows.Keys
  {
    hide Stores, PathFull, Hash, OnPath, Slot;
    if i > 0 {
      StoresSizes(mem, probe, rows);
      TakenSlotsDiffer(mem, probe, rows, ref, i - 1);
      SlotTaken(mem, probe, rows, ref, i - 1);
      NextRefIsNew(mem, probe, rows, ref, i - 1);
    }
  }

  lemma {:induction false} SubsetSize(a: set<nat>, b: set<nat>)
    requires a <= b
    ensures |a| <= |b|
  {
    assert b == a + (b - a);
  }

  /** A path cannot be full of fewer rows than it has slots. */
  lemma {:induction false} PathHasRoom(mem: seq<Entry>, probe: nat, rows: Rows, ref: nat)
    requires Stores(mem, probe, rows) && |rows| < probe
    ensures !PathFull(mem, probe, ref)
  {
    hide Stores, PathFull;
    StoresSizes(mem, probe, rows);
    if PathFull(mem, probe, ref) {
      TakenSlotsDiffer(mem, probe, rows, ref, probe);
      SubsetSize(PathRefs(mem, probe, ref, probe), rows.Keys);
    }
  }

  /** The last slot of a path is out of reach of every smaller reference, as long as no
      path wraps around. */
  lemma {:induction false} LastSlotIsFree(mem: seq<Entry>, probe: nat, rows: Rows, ref: nat)
    requires Stores(mem, probe, rows) && ref + probe <= |mem| && forall q :: q in rows ==> q < ref
    ensures !PathFull(mem, probe, ref)
  {
    hide Stores, PathFull;
    StoresSizes(mem, probe, rows);
    if PathFull(mem, probe, ref) {
      SlotTaken(mem, probe, rows, ref, probe - 1);
      HashIsItself(|mem|, ref);
      var s := ref + probe - 1;
      OnOwnPath(mem, probe, rows, s);
      HashIsItself(|mem|, mem[s].ref);
    }
  }

  lemma {:induction false} HashIsItself(n: nat, ref: nat)
    requires ref < n
    ensures Hash(ref, n) == ref
  {
  }

  lemma {:induction false} OnOwnPath(mem: seq<Entry>, probe: nat, rows: Rows, s: nat)
    requires Stores(mem, probe, rows) && s < |mem| && mem[s].valid
    ensures mem[s].ref in rows && OnPath(|mem|, probe, mem[s].ref, s)
  {
  }

  /** What one message makes of the stored rows; full tells that the reference it
      introduces finds its path full. */
  function TableStep(rows: Rows, op: Op, full: bool): Rows {
    match op
    case Add(ref, ask, shares, price) =>
      if ref in rows || shares == 0 || full then rows else rows[ref := Row(ask, price, shares)]
    case Reduce(ref, shares) =>
      if ref !in rows || shares > rows[ref].qty then rows
      else if shares == rows[ref].qty then rows - {ref}
      else rows[ref := rows[ref].(qty := rows[ref].qty - shares)]
    case Delete(ref) => rows - {ref}
    case Replace(orig, newRef, shares, price) =>
      if orig !in rows || shares == 0 || newRef in rows || full then rows
      else (rows - {orig})[newRef := Row(rows[orig].ask, price, shares)]
    case _ => rows
  }

  /** The reference a message introduces. */
  function Introduced(op: Op): nat {
    if op.Replace? then op.newRef else OldRef(op)
  }

  // ---- one record ----

  /** The table after a record: exactly the step of its message, for every record that is
      for a symbol of the subset. */
  lemma {:induction false} RecordSteps(p: Params, c: Core, rows: Rows, r: Record)
    requires Sound(p) && Engine.Shaped(p, c) && GoodRecord(p, r) && !r.bad && Stores(c.mem, p.probe, rows)
    ensures
      var op := DecodeOp(p, r.mtype, r.words);
      Stores(Process(p, c, r).0.mem, p.probe, TableStep(rows, op, PathFull(c.mem, p.probe, Introduced(op))))
  {
    hide Stores, Lookup, PathFull, Body64, Body32, BodyByte, LevelOp, Emit;
    var op := DecodeOp(p, r.mtype, r.words);
    var wOld, wNew := LookupOld(p, c.mem, op), LookupNew(p, c.mem, op);
    TableWrites(p, c, r);
    LookupDecides(c.mem, p.probe, rows, OldRef(op), true, op.Add?);
    LookupDecides(c.mem, p.probe, rows, NewRef(op), false, true);
    match op
    case Add(ref, ask, shares, price) =>
      if ref !in rows {
        FullIsPathFull(c.mem, p.probe, rows, ref, true);
        if !wOld.full && shares > 0 {
          StoreInsert(c.mem, p.probe, rows, ref, Row(ask, price, shares), wOld.empty);
        }
      }
    case Reduce(ref, shares) =>
      if ref in rows && shares <= rows[ref].qty {
        if shares == rows[ref].qty {
          StoreDelete(c.mem, p.probe, rows, wOld.slot);
        } else {
          StoreUpdate(c.mem, p.probe, rows, wOld.slot, rows[ref].(qty := rows[ref].qty - shares));
        }
      }
    case Delete(ref) =>
      if ref in rows {
        StoreDelete(c.mem, p.probe, rows, wOld.slot);
      } else {
        assert rows - {ref} == rows;
      }
    case Replace(orig, newRef, shares, price) =>
      if newRef !in rows {
        FullIsPathFull(c.mem, p.probe, rows, newRef, false);
        if orig in rows && shares > 0 && !wNew.full {
          StoreReplace(c.mem, p.probe, rows, orig, newRef, Row(rows[orig].ask, price, shares));
        }
      }
    case _ =>
  }

  lemma {:induction false} FullIsPathFull(mem: seq<Entry>, probe: nat, rows: Rows, ref: nat, keep: bool)
    requires Stores(mem, probe, rows) && ref !in rows
    ensures
      var w := Lookup(mem, probe, ref, keep, true);
      && (w.full <==> PathFull(mem, probe, ref))
      && (!w.full ==> w.empty < |mem| && !mem[w.empty].valid && OnPath(|mem|, probe, ref, w.empty))
  {
    hide Stores, Lookup;
    LookupFindsRoom(mem, probe, rows, ref, keep);
    StoresSizes(mem, probe, rows);
  }

  lemma {:induction false} StoresSizes(mem: seq<Entry>, probe: nat, rows: Rows)
    requires Stores(mem, probe, rows)
    ensures 0 < probe <= |mem|
  {
  }

  /** The table writes of a record: the apply state's, and the add half's of a replace. */
  lemma {:induction false} TableWrites(p: Params, c: Core, r: Record)
    requires Sound(p) && Engine.Shaped(p, c) && GoodRecord(p, r) && !r.bad
    ensures
      var op := DecodeOp(p, r.mtype, r.words);
      var a := ApplyOne(p, c, r.index, op, LookupOld(p, c.mem, op), LookupNew(p, c.mem, op));
      Process(p, c, r).0.mem ==
      if a.half.Some? then a.core.mem[a.half.value.slot := EntryOf(a.half.value.ref, a.half.value.row)] else a.core.mem
  {
    hide Lookup, DecodeOp, LevelOp, ApplyOne;
  }

  // ---- whole runs ----

  /** The rows after all records: each message's step on the rows before it, a record for
      a symbol outside the subset none. */
  ghost function RowsAfter(p: Params, rs: seq<Record>): Rows
    requires Sound(p) && GoodRecords(p, rs)
    decreases |rs|
  {
    if rs == [] then map[]
    else
      var init, r := rs[..|rs| - 1], rs[|rs| - 1];
      var rows := RowsAfter(p, init);
      assert GoodRecord(p, r);
      var op := DecodeOp(p, r.mtype, r.words);
      if r.bad then rows else TableStep(rows, op, PathFull(RunRecords(p, init).0.mem, p.probe, Introduced(op)))
  }

  /** Over every run of records the table stores exactly those rows, each once, within
      reach of its probe path. */
  lemma {:induction false} TableAlongRun(p: Params, rs: seq<Record>)
    requires Sound(p) && GoodRecords(p, rs)
    ensures Stores(RunRecords(p, rs).0.mem, p.probe, RowsAfter(p, rs))
    decreases |rs|
  {
    hide Stores, Process, TableStep, PathFull, GoodRecord, DecodeOp;
    if rs == [] {
      NothingStored(p);
    } else {
      var init, r := rs[..|rs| - 1], rs[|rs| - 1];
      assert GoodRecord(p, r);
      TableAlongRun(p, init);
      if r.bad {
        BadKeeps(p, RunRecords(p, init).0, r);
      } else {
        RecordSteps(p, RunRecords(p, init).0, RowsAfter(p, init), r);
      }
    }
  }

  lemma {:induction false} NothingStored(p: Params)
    requires Sound(p)
    ensures Stores(Reset(p).mem, p.probe, map[])
  {
  }

  lemma {:induction false} BadKeeps(p: Params, c: Core, r: Record)
    requires Sound(p) && Engine.Shaped(p, c) && GoodRecord(p, r) && r.bad
    ensures Process(p, c, r) == (c, None)
  {
  }

  /** The clocked machine: in every run of a well-formed stream, whenever no message is in
      its table-writing states, the table stores exactly the rows of the finished records. */
  lemma {:induction false} ClockedTable(p: Params, r0: Regs, ins: seq<In>)
    requires Sound(p) && IsReset(p, r0) && Wired(p, ins) && Run(p, r0, ins).x.ok
    ensures
      var c := Run(p, r0, ins);
      && 0 <= Finished(c.r, c.x) <= |c.x.done|
      && (!c.r.st.INVAL? && !InPipeline(c.r.st) ==>
            Stores(c.r.t.core.mem, p.probe, RowsAfter(p, c.x.done[..Finished(c.r, c.x)])))
  {
    hide Run, Stores, RunRecords;
    DeliversHistory(p, r0, ins);
    var c := Run(p, r0, ins);
    TableAlongRun(p, c.x.done[..Finished(c.r, c.x)]);
  }

  // ---- against the reference's orders ----

  /** No message that the reference accepts finds its path full, and all are for symbols
      of the subset. */
  ghost predicate PathsFree(p: Params, rs: seq<Record>)
    requires Sound(p) && GoodRecords(p, rs)
    decreases |rs|
  {
    rs == [] ||
    var init, r := rs[..|rs| - 1], rs[|rs| - 1];
    var op, os := DecodeOp(p, r.mtype, r.words), Market.Run(MessagesOf(p, init)).0.orders;
    && PathsFree(p, init) && !r.bad
    && (op.Add? && op.ref !in os && op.shares > 0 ==> !PathFull(RunRecords(p, init).0.mem, p.probe, op.ref))
    && (op.Replace? && op.orig in os && op.newRef !in os && op.shares > 0 ==>
        !PathFull(RunRecords(p, init).0.mem, p.probe, op.newRef))
  }

  lemma {:induction false} AddRows(s: Market.State, l: nat, ref: nat, ask: bool, shares: nat, price: nat, full: bool)
    requires full ==> ref in s.orders || shares == 0
    ensures TableStep(RowsOf(s.orders), Add(ref, ask, shares, price), full)
            == RowsOf(Market.Step(s, Market.AddOrder(l, ref, ask, shares, price)).0.orders)
  {
    hide Market.Publish, RowsOf;
    RowsAt(s.orders);
    RowsWith(s.orders, ref, Market.Order(l, ask, price, shares));
  }

  lemma {:induction false} ReduceRows(s: Market.State, l: nat, ref: nat, shares: nat, full: bool)
    requires Market.AllLive(s.orders)
    ensures TableStep(RowsOf(s.orders), Reduce(ref, shares), full)
            == RowsOf(Market.Step(s, Market.ReduceOrder(l, ref, shares)).0.orders)
  {
    hide Market.Publish, RowsOf;
    RowsAt(s.orders);
    RowsWithout(s.orders, ref);
    if ref in s.orders && shares < s.orders[ref].qty {
      RowsWith(s.orders, ref, s.orders[ref].(qty := s.orders[ref].qty - shares));
    }
  }

  lemma {:induction false} DeleteRows(s: Market.State, l: nat, ref: nat, full: bool)
    ensures TableStep(RowsOf(s.orders), Delete(ref), full)
            == RowsOf(Market.Step(s, Market.DeleteOrder(l, ref)).0.orders)
  {
    hide Market.Publish, RowsOf;
    RowsAt(s.orders);
    RowsWithout(s.orders, ref);
    assert ref !in s.orders ==> RowsOf(s.orders) - {ref} == RowsOf(s.orders);
  }

  lemma {:induction false} ReplaceRows(s: Market.State, l: nat, orig: nat, newRef: nat, shares: nat, price: nat,
                                       full: bool)
    requires full ==> orig !in s.orders || newRef in s.orders || shares == 0
    ensures TableStep(RowsOf(s.orders), Replace(orig, newRef, shares, price), full)
            == RowsOf(Market.Step(s, Market.ReplaceOrder(l, orig, newRef, shares, price)).0.orders)
  {
    hide Market.Publish, RowsOf;
    RowsAt(s.orders);
    RowsWithout(s.orders, orig);
    if orig in s.orders {
      RowsWith(s.orders - {orig}, newRef, Market.Order(s.orders[orig].locate, s.orders[orig].ask, price, shares));
    }
  }

  /** One message: without a full path the rows step as the reference's orders do. */
  lemma {:induction false} RowsStep(p: Params, s: Market.State, r: Record, full: bool)
    requires Sound(p) && GoodRecord(p, r) && Market.AllLive(s.orders)
    requires
      var op := DecodeOp(p, r.mtype, r.words);
      full ==> !(op.Add? && op.ref !in s.orders && op.shares > 0)
               && !(op.Replace? && op.orig in s.orders && op.newRef !in s.orders && op.shares > 0)
    ensures TableStep(RowsOf(s.orders), DecodeOp(p, r.mtype, r.words), full)
            == RowsOf(Market.Step(s, MessageOf(p, r)).0.orders)
  {
    hide Market.Publish, RowsOf, DecodeOp;
    match DecodeOp(p, r.mtype, r.words)
    case Add(ref, ask, shares, price) => AddRows(s, r.locate, ref, ask, shares, price, full);
    case Reduce(ref, shares) => ReduceRows(s, r.locate, ref, shares, full);
    case Delete(ref) => DeleteRows(s, r.locate, ref, full);
    case Replace(orig, newRef, shares, price) => ReplaceRows(s, r.locate, orig, newRef, shares, price, full);
    case _ =>
  }

  lemma {:induction false} RowsAt(os: Market.Orders)
    ensures RowsOf(os).Keys == os.Keys
    ensures forall x :: x in os ==> RowsOf(os)[x] == Row(os[x].ask, os[x].price, os[x].qty)
  {
  }

  lemma {:induction false} RowsWith(os: Market.Orders, ref: nat, o: Market.Order)
    ensures RowsOf(os[ref := o]) == RowsOf(os)[ref := Row(o.ask, o.price, o.qty)]
  {
  }

  lemma {:induction false} RowsWithout(os: Market.Orders, ref: nat)
    ensures RowsOf(os - {ref}) == RowsOf(os) - {ref}
  {
  }

  /** As long as no accepted order finds its path full, the rows are the reference's live
      orders, whatever symbols messages name and whatever the lists do. */
  lemma {:induction false} RowsAreOrders(p: Params, rs: seq<Record>)
    requires Sound(p) && GoodRecords(p, rs) && PathsFree(p, rs)
    ensures RowsAfter(p, rs) == RowsOf(Market.Run(MessagesOf(p, rs)).0.orders)
    ensures Market.AllLive(Market.Run(MessagesOf(p, rs)).0.orders)
    decreases |rs|
  {
    hide TableStep, PathFull, DecodeOp, MessageOf, Market.Step, RunRecords, RowsOf;
    if rs == [] {
      RowsAt(map[]);
      assert RowsOf(map[]) == map[];
    } else {
      var init, r := rs[..|rs| - 1], rs[|rs| - 1];
      assert GoodRecord(p, r);
      RowsAreOrders(p, init);
      var s, op := Market.Run(MessagesOf(p, init)).0, DecodeOp(p, r.mtype, r.words);
      assert MessagesOf(p, rs)[..|rs| - 1] == MessagesOf(p, init);
      Market.StepKeepsLive(s, MessageOf(p, r));
      RowsStep(p, s, r, PathFull(RunRecords(p, init).0.mem, p.probe, Introduced(op)));
    }
  }

  /** At every accepted add or replace the reference has fewer live orders than a path has
      slots, and all messages are for symbols of the subset. */
  ghost predicate FewOrders(p: Params, rs: seq<Record>)
    requires Sound(p) && GoodRecords(p, rs)
    decreases |rs|
  {
    rs == [] ||
    var init, r := rs[..|rs| - 1], rs[|rs| - 1];
    var op, os := DecodeOp(p, r.mtype, r.words), Market.Run(MessagesOf(p, init)).0.orders;
    && FewOrders(p, init) && !r.bad
    && (op.Add? && op.ref !in os && op.shares > 0 ==> |os| < p.probe)
    && (op.Replace? && op.orig in os && op.newRef !in os && op.shares > 0 ==> |os| < p.probe)
  }

  /** Then no path is full, whatever the table looks like. */
  lemma {:induction false} FewOrdersFindRoom(p: Params, rs: seq<Record>)
    requires Sound(p) && GoodRecords(p, rs) && FewOrders(p, rs)
    ensures PathsFree(p, rs)
    decreases |rs|
  {
    hide PathFull, DecodeOp, RunRecords, RowsOf, Stores, Market.Step;
    if rs != [] {
      var init, r := rs[..|rs| - 1], rs[|rs| - 1];
      assert GoodRecord(p, r);
      FewOrdersFindRoom(p, init);
      RowsAreOrders(p, init);
      TableAlongRun(p, init);
      var os, op := Market.Run(MessagesOf(p, init)).0.orders, DecodeOp(p, r.mtype, r.words);
      RowsAt(os);
      assert |RowsOf(os)| == |RowsOf(os).Keys| && |os| == |os.Keys|;
      if |os| < p.probe {
        PathHasRoom(RunRecords(p, init).0.mem, p.probe, RowsOf(os), Introduced(op));
      }
    }
  }
}
