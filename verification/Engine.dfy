// The hardware book one message at a time: the registers that outlive a
// message, and what one record does to them. The clocked machine is proved to
// compute exactly this, and this is proved to refine the reference book.
module Engine {
  import opened FirstHot
  import opened Prices
  import opened LevelPipeline
  import opened OrderTable
  import opened Records
  import Market

  datatype Core = Core(
    mem: seq<Entry>,          // the order table
    sides: seq<seq<Level>>,   // level lists, bid and ask of each symbol
    prev: seq<Market.Bbo>,    // last emitted best bid and offer per symbol
    open: bool,
    tstate: seq<nat>,         // trading state per symbol
    crosses: nat,
    anomalies: nat)

  predicate SideShaped(p: Params, side: seq<Level>) {
    |side| == p.cap && forall i :: 0 <= i < |side| ==> side[i].qty < WORD
  }

  predicate Shaped(p: Params, c: Core) {
    && |c.mem| == p.nslot
    && |c.sides| == 2 * p.nsym
    && (forall k :: 0 <= k < |c.sides| ==> SideShaped(p, c.sides[k]))
    && |c.prev| == p.nsym && |c.tstate| == p.nsym
  }

  /** The level list of a symbol's side. */
  function SideOf(index: nat, ask: bool): nat {
    2 * index + if ask then 1 else 0
  }

  /** A level operation requested by a message. */
  datatype LevelReq = LevelReq(ask: bool, price: nat, delta: int)

  /** The second half of a replace. */
  datatype AddHalf = AddHalf(ref: nat, row: Row, slot: nat)

  /** What the apply state leaves for the states behind it. */
  datatype Applied = Applied(core: Core, req: Option<LevelReq>, half: Option<AddHalf>, emit: bool)

  predicate InRange(p: Params, a: Applied) {
    && Shaped(p, a.core)
    && (a.req.Some? ==> -0x8000_0000 <= a.req.value.delta < 0x8000_0000)
    && (a.half.Some? ==> a.half.value.slot < p.nslot)
  }

  function Refused(c: Core): Applied {
    Applied(c, None, None, false)
  }

  function Anomaly(c: Core): Applied {
    Applied(c.(anomalies := (c.anomalies + 1) % WORD), None, None, false)
  }

  /** One decoded message against the results of its probe runs: wOld for the
      order it names, wNew for the reference a replace introduces. */
  function ApplyOne(p: Params, c: Core, index: nat, op: Op, wOld: Walked, wNew: Walked): (a: Applied)
    requires Sound(p) && Shaped(p, c) && index < p.nsym
    requires Addresses(wOld, p.nslot) && Addresses(wNew, p.nslot)
    ensures InRange(p, a)
  {
    match op
    case Add(ref, ask, shares, price) =>
      if wOld.found || shares == 0 || wOld.full then Refused(c)
      else
        Applied(c.(mem := c.mem[wOld.empty := EntryOf(ref, Row(ask, price, shares))]),
                Some(LevelReq(ask, price, Signed32(shares))), None, true)
    case Reduce(ref, shares) =>
      if !wOld.found then Anomaly(c)
      else
        var e := wOld.entry;
        if e.qty < shares then Refused(c)
        else if e.qty == shares then
          Applied(c.(mem := c.mem[wOld.slot := BLANK]), Some(LevelReq(e.ask, e.price, Signed32(-(e.qty as int)))),
                  None, true)
        else
          Applied(c.(mem := c.mem[wOld.slot := EntryOf(e.ref, Row(e.ask, e.price, e.qty - shares))]),
                  Some(LevelReq(e.ask, e.price, Signed32(-(shares as int)))), None, true)
    case Delete(ref) =>
      if !wOld.found then Anomaly(c)
      else
        var e := wOld.entry;
        Applied(c.(mem := c.mem[wOld.slot := BLANK]), Some(LevelReq(e.ask, e.price, Signed32(-(e.qty as int)))),
                None, true)
    case Replace(orig, newRef, shares, price) =>
      if !wOld.found then Anomaly(c)
      else if shares == 0 || wNew.found || wNew.full then Refused(c)
      else
        var e := wOld.entry;
        Applied(c.(mem := c.mem[wOld.slot := BLANK]), Some(LevelReq(e.ask, e.price, Signed32(-(e.qty as int)))),
                Some(AddHalf(newRef, Row(e.ask, price, shares), wNew.empty)), true)
    case SystemEvent(code) =>
      Refused(c.(open := if code == Market.MARKET_OPEN then true else if code == Market.MARKET_CLOSE then false
                 else c.open))
    case Trading(state) => Refused(c.(tstate := c.tstate[index := state]))
    case Other => Refused(c)
  }

  /** A level operation written back to its list; the other lists are not touched. */
  function WithLevel(p: Params, c: Core, index: nat, q: LevelReq): (r: Core)
    requires Sound(p) && Shaped(p, c) && index < p.nsym && -0x8000_0000 <= q.delta < 0x8000_0000
    ensures Shaped(p, r)
  {
    var k := SideOf(index, q.ask);
    LevelOpBounded(c.sides[k], q.ask, q.price, q.delta);
    c.(sides := c.sides[k := LevelOp(c.sides[k], q.ask, q.price, q.delta)])
  }

  /** The add half of a replace: the table write and the request of the second level operation. */
  function WithHalf(p: Params, c: Core, h: AddHalf): (r: Core)
    requires Shaped(p, c) && h.slot < p.nslot
    ensures Shaped(p, r)
  {
    c.(mem := c.mem[h.slot := EntryOf(h.ref, h.row)])
  }

  function HalfReq(h: AddHalf): (q: LevelReq)
    ensures -0x8000_0000 <= q.delta < 0x8000_0000
  {
    LevelReq(h.row.ask, h.row.price, Signed32(h.row.qty))
  }

  /** The registers once every level operation of the message is written back. */
  function Settle(p: Params, index: nat, a: Applied): (r: Core)
    requires Sound(p) && InRange(p, a) && index < p.nsym
    ensures Shaped(p, r)
  {
    var c := if a.req.Some? then WithLevel(p, a.core, index, a.req.value) else a.core;
    if a.half.Some? then
      WithLevel(p, WithHalf(p, c, a.half.value), index, HalfReq(a.half.value))
    else c
  }

  // ---- emission ----

  datatype Event = Event(locate: nat, bbo: Market.Bbo, changed: bool, bids: seq<Level>, asks: seq<Level>)

  /** The flags of the occupied slots. */
  function Occupied(side: seq<Level>): (v: seq<bool>)
    ensures |v| == |side|
  {
    seq(|side|, i requires 0 <= i < |side| => side[i].qty != 0)
  }

  /** The first occupied slot, or the last slot of an empty list. */
  function Selected(side: seq<Level>): Level
    requires |side| > 0
  {
    side[FirstOne(Occupied(side))]
  }

  function BboOf(bids: seq<Level>, asks: seq<Level>): Market.Bbo
    requires |bids| > 0 && |asks| > 0
  {
    Market.Bbo(Selected(bids).price, Selected(bids).qty, Selected(asks).price, Selected(asks).qty)
  }

  /** Publishing one best bid and offer with the depth captured with it. */
  function Publish(p: Params, c: Core, locate: nat, index: nat, bbo: Market.Bbo, bids: seq<Level>,
                   asks: seq<Level>): (r: (Core, Event))
    requires Shaped(p, c) && index < p.nsym
    ensures Shaped(p, r.0)
  {
    var crossed := Market.Crossed(c.open, c.tstate[index] == Market.CONTINUOUS, bbo);
    (c.(prev := c.prev[index := bbo], crosses := if crossed then (c.crosses + 1) % WORD else c.crosses),
     Event(locate, bbo, bbo != c.prev[index], bids, asks))
  }

  function Emit(p: Params, c: Core, locate: nat, index: nat): (r: (Core, Event))
    requires Sound(p) && Shaped(p, c) && index < p.nsym
    ensures Shaped(p, r.0)
  {
    var bids, asks := c.sides[SideOf(index, false)], c.sides[SideOf(index, true)];
    Publish(p, c, locate, index, BboOf(bids, asks), bids[..p.nd], asks[..p.nd])
  }

  // ---- a whole record ----

  /** The references whose paths a record reads. */
  function OldRef(op: Op): nat {
    match op
    case Add(ref, _, _, _) => ref
    case Reduce(ref, _) => ref
    case Delete(ref) => ref
    case Replace(orig, _, _, _) => orig
    case _ => 0
  }

  function NewRef(op: Op): nat {
    if op.Replace? then op.newRef else 0
  }

  function LookupOld(p: Params, mem: seq<Entry>, op: Op): (w: Walked)
    requires Sound(p) && |mem| == p.nslot
    ensures Addresses(w, p.nslot)
  {
    Lookup(mem, p.probe, OldRef(op), true, op.Add?)
  }

  function LookupNew(p: Params, mem: seq<Entry>, op: Op): (w: Walked)
    requires Sound(p) && |mem| == p.nslot
    ensures Addresses(w, p.nslot)
  {
    Lookup(mem, p.probe, NewRef(op), false, true)
  }

  function Finish(p: Params, locate: nat, index: nat, a: Applied): (r: (Core, Option<Event>))
    requires Sound(p) && InRange(p, a) && index < p.nsym
    ensures Shaped(p, r.0)
  {
    var c := Settle(p, index, a);
    if a.emit then
      var (c', e) := Emit(p, c, locate, index);
      (c', Some(e))
    else (c, None)
  }

  predicate GoodRecord(p: Params, r: Record)
    requires Sound(p)
  {
    WordsOf(p, r.words) && r.index < p.nsym && CoversFields(p, r.mtype, |r.words|)
  }

  predicate GoodRecords(p: Params, rs: seq<Record>)
    requires Sound(p)
  {
    forall i :: 0 <= i < |rs| ==> GoodRecord(p, rs[i])
  }

  /** One record: a symbol outside the subset is discarded, anything else applied. */
  function Process(p: Params, c: Core, r: Record): (res: (Core, Option<Event>))
    requires Sound(p) && Shaped(p, c) && GoodRecord(p, r)
    ensures Shaped(p, res.0)
  {
    if r.bad then (c, None)
    else
      var op := DecodeOp(p, r.mtype, r.words);
      Finish(p, r.locate, r.index, ApplyOne(p, c, r.index, op, LookupOld(p, c.mem, op), LookupNew(p, c.mem, op)))
  }

  /** The registers after all records, and every event in order. */
  function RunRecords(p: Params, rs: seq<Record>): (res: (Core, seq<Event>))
    requires Sound(p) && GoodRecords(p, rs)
    ensures Shaped(p, res.0)
  {
    if rs == [] then (Reset(p), [])
    else
      var (c, es) := RunRecords(p, rs[..|rs| - 1]);
      var (c', e) := Process(p, c, rs[|rs| - 1]);
      (c', if e.Some? then es + [e.value] else es)
  }

  /** The registers after reset and the table invalidation. */
  function Reset(p: Params): (c: Core)
    requires Sound(p)
    ensures Shaped(p, c)
  {
    Core(seq(p.nslot, _ => BLANK), seq(2 * p.nsym, _ => seq(p.cap, _ => VACANT)),
         seq(p.nsym, _ => Market.NO_BBO), false, seq(p.nsym, _ => 0), 0, 0)
  }
}
