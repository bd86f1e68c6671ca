// The order book as a device: the order table and the level lists in arrays,
// every other register a field, all updated in place by one clock edge.
module BookDevice {
  import opened Bytes
  import opened FirstHot
  import opened LevelPipeline
  import opened LevelStore
  import opened OrderTable
  import opened Prices
  import opened Records
  import opened Engine
  import opened Receiver
  import opened Clock
  import Market
  import Runs

  /** What outlives a message besides the table and the lists. */
  datatype SymbolRegs = SymbolRegs(prev: seq<Market.Bbo>, open: bool, tstate: seq<nat>, crosses: nat, anomalies: nat)

  /** Registers of the emission pipeline. */
  datatype EmitRegs = EmitRegs(
    ok: bool, bids: seq<Level>, asks: seq<Level>, nzb: seq<bool>, nza: seq<bool>,
    bsel: nat, asel: nat, depthBids: seq<Level>, depthAsks: seq<Level>)

  /** The loop over the symbol table that stops at the first match. */
  method LocLookup(locs: seq<nat>, l: nat) returns (r: nat)
    requires |locs| < 32
    ensures r == FindLocate(locs, l, 0)
  {
    r := NOT_FOUND;
    var done := false;
    var i := 0;
    while i < |locs| && !done
      invariant 0 <= i <= |locs|
      invariant FindLocate(locs, l, 0) == if done then r else FindLocate(locs, l, i)
      invariant !done ==> r == NOT_FOUND
      decreases |locs| - i, !done
    {
      if locs[i] == l {
        r, done := i, true;
      } else {
        i := i + 1;
      }
    }
  }

  /** The hand-over register by register. */
  lemma {:induction false} SwapForm(p: Params, r: Regs, before: Probe)
    requires Sound(p) && RegsShaped(p, r)
    ensures
      var nx := r.f.nx;
      var inflight := before.pendOld || before.pendNew || Active(before) || HandsOld(p, nx) || HandsNew(p, nx);
      SwapNext(p, r, before) ==
      if !nx.active then r.(st := W0)
      else
        r.(st := if nx.done then (if inflight then WAIT else APPLY)
                 else if nx.st == 1 then TS else if nx.st == 2 then BODY else W0,
           m := nx.msg, hrem := nx.hrem,
           bi := if nx.done then r.bi else if nx.st == 1 then 0 else if nx.st == 2 then nx.bi else r.bi,
           nbody := if !nx.done && (nx.st == 1 || nx.st == 2) then nx.nbody else r.nbody,
           pr := HandOver(p, before, r.pr, nx),
           f := r.f.(nx := nx.(active := false, done := false, st := 0, bi := 0)))
  {
    hide HandsOld, HandsNew, HandOver, TailShaped, ProbeShaped;
  }

  /** The apply state, as what the message asks for. */
  lemma {:induction false} ApplyForm(p: Params, t: Tail, mtype: byte, index: nat, op: Op, wOld: Walked, wNew: Walked)
    requires Sound(p) && TailShaped(p, t) && index < p.nsym && Addresses(wOld, p.nslot) && Addresses(wNew, p.nslot)
    ensures
      var a := ApplyOne(p, t.core, index, op, wOld, wNew);
      var t1 := if a.req.Some? then LaunchOn(p, t, index, a.req.value) else t;
      && (a.req.Some? ==> a.core.sides == t.core.sides)
      && ApplyTail(p, t, mtype, index, op, wOld, wNew) ==
         (if a.req.Some? then LV2 else if ReadsTable(mtype) then EMITA else SWAP,
          t1.(core := a.core, emitOk := a.emit, uadd := a.half.Some?,
              half := if a.half.Some? then a.half.value else t.half))
  {
  }

  /** The emission states, one by one. */
  lemma {:induction false} EmitAForm(p: Params, t: Tail, index: nat)
    requires Sound(p) && TailShaped(p, t) && index < p.nsym
    ensures
      var bids, asks := t.core.sides[SideOf(index, false)], t.core.sides[SideOf(index, true)];
      TailStep(p, EMITA, t, index) ==
      (EMITB, if t.emitOk then t.(bids := bids, asks := asks, nzb := Occupied(bids), nza := Occupied(asks)) else t)
  {
  }

  lemma {:induction false} EmitBForm(p: Params, t: Tail, index: nat)
    requires Sound(p) && TailShaped(p, t) && index < p.nsym
    ensures |t.nzb| == |t.nza| == |t.bids| == |t.asks| == p.cap >= p.nd
    ensures
      TailStep(p, EMITB, t, index) ==
      (EMITC, if t.emitOk then t.(bsel := FirstOne(t.nzb), asel := FirstOne(t.nza),
                                  depthBids := t.bids[..p.nd], depthAsks := t.asks[..p.nd])
              else t)
  {
  }

  class Device {
    const p: Params
    const oMem: array<Entry>
    const levels: LevelArrays
    var st: St
    var inval: nat
    var m: Msg
    var bi: nat
    var nbody: nat
    var hrem: nat
    var f: Feed
    var pr: Probe
    var s: SymbolRegs
    var uadd: bool
    var half: AddHalf
    var e: EmitRegs
    var out: Out

    ghost predicate Built()
      reads levels, levels.price, levels.qty
    {
      Sound(p) && oMem.Length == p.nslot && levels.Valid() && levels.sides == 2 * p.nsym && levels.cap == p.cap
      && 0 < levels.logCap && p.cap == Pow2(levels.logCap)
         && |levels.price[..]| == |levels.qty[..]| == 2 * p.nsym * p.cap
    }

    ghost function Sides(): (s: seq<seq<Level>>)
      requires Built()
      reads levels, levels.price, levels.qty
      ensures |s| == 2 * p.nsym && forall k :: 0 <= k < |s| ==> s[k] == levels.Side(k)
    {
      SidesOf(levels.price[..], levels.qty[..], 2 * p.nsym, p.cap)
    }

    ghost function TheCore(): Core
      requires Built()
      reads `s
      reads oMem, levels, levels.price, levels.qty
    {
      Core(oMem[..], Sides(), s.prev, s.open, s.tstate, s.crosses, s.anomalies)
    }

    ghost function TheTail(): Tail
      requires Built()
      reads `s
      reads `uadd, `half, `e
      reads oMem, levels, levels.price, levels.qty
    {
      Tail(TheCore(), levels.launched, levels.side, levels.found, levels.decoded, uadd, half,
           e.ok, e.bids, e.asks, e.nzb, e.nza, e.bsel, e.asel, e.depthBids, e.depthAsks)
    }

    /** All registers, as the clock edge sees them. */
    ghost function Registers(): Regs
      requires Built()
      reads this, oMem, levels, levels.price, levels.qty
    {
      Regs(st, inval, m, bi, nbody, hrem, f, pr, TheTail(), out)
    }

    ghost predicate Valid()
      reads this, oMem, levels, levels.price, levels.qty
    {
      Built() && RegsShaped(p, Registers())
    }

    /** The ready line. */
    function Ready(): bool
      reads `st, `f
    {
      !st.INVAL? && !st.SWAP? && (!f.nx.done || st.TS? || st.BODY?)
    }

    /** After reset; the order table is not reset and holds anything. */
    constructor (p: Params, logCap: nat)
      requires Sound(p) && 0 < logCap && p.cap == Pow2(logCap)
      ensures Valid() && this.p == p && Registers() == AtReset(p, oMem[..])
      ensures fresh(oMem) && fresh(levels) && fresh(levels.price) && fresh(levels.qty)
    {
      this.p := p;
      oMem := new Entry[p.nslot];
      levels := new LevelArrays(2 * p.nsym, p.cap, logCap);
      st, inval := INVAL, 0;
      m, bi, nbody, hrem := BlankMsg(p), 0, 0, 1;
      f := Feed(Next(false, false, 0, 0, 0, 0, BlankMsg(p)), seq(p.nsym, _ => UNREGISTERED), 0);
      pr, out := RESET_PROBE, NO_EVENT;
      s := SymbolRegs(seq(p.nsym, _ => Market.NO_BBO), false, seq(p.nsym, _ => 0), 0, 0);
      uadd, half := false, AddHalf(0, Row(false, 0, 0), 0);
      e := EmitRegs(false, seq(p.cap, _ => VACANT), seq(p.cap, _ => VACANT), seq(p.cap, _ => false),
                    seq(p.cap, _ => false), 0, 0, [], []);
      new;
      assert Sides() == Reset(p).sides;
      assert TheTail() == ResetTail(p, oMem[..]);
      assert Registers() == AtReset(p, oMem[..]);
    }

    // ---- the probe engine ----

    /** One edge of the probe engine; the entry addressed is registered at the same edge. */
    method ProbeEdge(hold: bool)
      requires Sound(p) && ProbeShaped(p, pr) && oMem.Length == p.nslot
      modifies `pr
      ensures pr == ProbeAdvance(p, old(pr), oMem[..], hold)
    {
      pr := ProbeRead(p, pr, oMem[pr.rdAddr], hold);
    }

    // ---- the receivers ----

    /** Looks a locate up and registers it when it is new and there is room. */
    method Register(l: nat) returns (index: nat, bad: bool)
      requires Sound(p) && FeedShaped(p, f)
      modifies `f
      ensures
        var v := Resolve(p, old(f).locs, old(f).cnt, l);
        index == v.index && bad == v.bad && f == old(f).(locs := v.locs, cnt := v.cnt)
    {
      var at := LocLookup(f.locs, l);
      index, bad := at, false;
      if at == NOT_FOUND && f.cnt < p.nsym {
        index := f.cnt;
        f := f.(locs := f.locs[f.cnt := l], cnt := f.cnt + 1);
      } else if at == NOT_FOUND {
        index, bad := 0, true;
      }
    }

    /** The receiver of the next message takes one word. */
    method NxRecvWord(b: Beat)
      requires Sound(p) && FeedShaped(p, f) && |b.data| == p.bytes
      modifies `f
      ensures f == NxRecv(p, old(f), b)
    {
      var nx := f.nx;
      if !nx.active {
        var index, bad := Register(HeadLocate(b.data));
        f := f.(nx := Next(true, false, 1, 1, 0, BodyWords(p, HeadLength(b.data)),
                           Msg(HeadType(b.data), HeadLocate(b.data), index, bad, nx.msg.acc)));
      } else if nx.st == 1 {
        f := f.(nx := nx.(st := 2));
      } else {
        nx := nx.(msg := nx.msg.(acc := nx.msg.acc[nx.bi := b.data]));
        if b.last || nx.nbody <= 1 {
          f := f.(nx := nx.(done := true));
        } else {
          f := f.(nx := nx.(bi := (nx.bi + 1) % 16, nbody := nx.nbody - 1));
        }
      }
    }

    /** The receivers' and the probe engine's registers are those of r. */
    ghost predicate FrontIs(r: Regs)
      reads `st, `m, `bi, `nbody, `hrem, `f, `pr
    {
      st == r.st && m == r.m && bi == r.bi && nbody == r.nbody && hrem == r.hrem && f == r.f && pr == r.pr
    }

    /** The next message becomes the one in flight. */
    method Swap(before: Probe, ghost r: Regs)
      requires Sound(p) && RegsShaped(p, r) && FrontIs(r)
      modifies `st, `m, `bi, `nbody, `hrem, `f, `pr
      ensures FrontIs(SwapNext(p, r, before))
    {
      hide HandsOld, HandsNew, HandOver, TailShaped, ProbeShaped, SwapNext;
      SwapForm(p, r, before);
      var nx := f.nx;
      if !nx.active {
        st := W0;
        return;
      }
      var inflight := before.pendOld || before.pendNew || Active(before) || HandsOld(p, nx) || HandsNew(p, nx);
      pr := HandOver(p, before, pr, nx);
      m, hrem := nx.msg, nx.hrem;
      f := f.(nx := nx.(active := false, done := false, st := 0, bi := 0));
      if nx.done {
        st := if inflight then WAIT else APPLY;
      } else if nx.st == 1 {
        st, bi, nbody := TS, 0, nx.nbody;
      } else if nx.st == 2 {
        st, bi, nbody := BODY, nx.bi, nx.nbody;
      } else {
        st := W0;
      }
    }

    /** Leaving the tail: a word on the bus is received first, and the swap waits. */
    method Leave(i: In, before: Probe, ghost r: Regs)
      requires Sound(p) && RegsShaped(p, r) && FrontIs(r) && |i.beat.data| == p.bytes
      modifies `st, `m, `bi, `nbody, `hrem, `f, `pr
      ensures FrontIs(LeaveTail(p, r, i, before))
    {
      hide SwapNext, NxRecv;
      if i.tvalid && !f.nx.done {
        NxRecvWord(i.beat);
        st := SWAP;
      } else {
        Swap(before, r);
      }
    }

    /** A tail state also feeds the receiver of the next message. */
    method Feeding(i: In, ghost r: Regs)
      requires Sound(p) && RegsShaped(p, r) && FrontIs(r) && |i.beat.data| == p.bytes
      modifies `f
      ensures FrontIs(TailRecv(p, r, i))
    {
      hide NxRecv;
      if i.tvalid && !f.nx.done {
        NxRecvWord(i.beat);
      }
    }

    // ---- the states behind the apply state ----

    /** One message applied to the table and the symbol's registers. */
    method ApplyTable(op: Op, wOld: Walked, wNew: Walked, ghost c: Core) returns (req: Option<LevelReq>)
      requires Built() && Engine.Shaped(p, c) && TheCore() == c && m.index < p.nsym
      requires Addresses(wOld, p.nslot) && Addresses(wNew, p.nslot)
      modifies `s, `e, `uadd, `half, oMem
      ensures
        var a := ApplyOne(p, c, m.index, op, wOld, wNew);
        && TheCore() == a.core && req == a.req && e == old(e).(ok := a.emit) && uadd == a.half.Some?
        && half == if a.half.Some? then a.half.value else old(half)
    {
      hide SidesOf, LevelArrays.Valid, SideShaped;
      var o := wOld.entry;
      uadd, req := false, None;
      match op {
        case Add(ref, ask, shares, price) =>
          if !wOld.found && shares != 0 && !wOld.full {
            oMem[wOld.empty] := EntryOf(ref, Row(ask, price, shares));
            req := Some(LevelReq(ask, price, Signed32(shares)));
          }
        case Reduce(ref, shares) =>
          if !wOld.found {
            s := s.(anomalies := (s.anomalies + 1) % WORD);
          } else if o.qty == shares {
            oMem[wOld.slot] := BLANK;
            req := Some(LevelReq(o.ask, o.price, Signed32(-(o.qty as int))));
          } else if o.qty > shares {
            oMem[wOld.slot] := EntryOf(o.ref, Row(o.ask, o.price, o.qty - shares));
            req := Some(LevelReq(o.ask, o.price, Signed32(-(shares as int))));
          }
        case Delete(ref) =>
          if !wOld.found {
            s := s.(anomalies := (s.anomalies + 1) % WORD);
          } else {
            oMem[wOld.slot] := BLANK;
            req := Some(LevelReq(o.ask, o.price, Signed32(-(o.qty as int))));
          }
        case Replace(orig, newRef, shares, price) =>
          if !wOld.found {
            s := s.(anomalies := (s.anomalies + 1) % WORD);
          } else if shares != 0 && !wNew.found && !wNew.full {
            oMem[wOld.slot] := BLANK;
            half, uadd := AddHalf(newRef, Row(o.ask, price, shares), wNew.empty), true;
            req := Some(LevelReq(o.ask, o.price, Signed32(-(o.qty as int))));
          }
        case SystemEvent(code) =>
          if code == Market.MARKET_OPEN {
            s := s.(open := true);
          } else if code == Market.MARKET_CLOSE {
            s := s.(open := false);
          }
        case Trading(state) => s := s.(tstate := s.tstate[m.index := state]);
        case Other =>
      }
      e := e.(ok := req.Some?);
    }

    /** The apply state: the message applied, its level operation launched. */
    method Apply(op: Op, wOld: Walked, wNew: Walked, ghost t: Tail)
      requires Built() && TailShaped(p, t) && TheTail() == t && m.index < p.nsym
      requires Addresses(wOld, p.nslot) && Addresses(wNew, p.nslot)
      modifies `st, `s, `e, `uadd, `half, oMem, levels`launched, levels`side
      ensures Built() && (st, TheTail()) == ApplyTail(p, t, m.mtype, m.index, op, wOld, wNew)
    {
      hide ApplyOne, SidesOf, ApplyTail, LevelArrays.Valid, Pow2, LevelArrays.Side;
      ApplyForm(p, t, m.mtype, m.index, op, wOld, wNew);
      var req := ApplyTable(op, wOld, wNew, t.core);
      ghost var sides := Sides();
      Launch(req);
      assert Sides() == sides;
    }

    /** Launches the requested level operation, or goes straight on. */
    method Launch(req: Option<LevelReq>)
      requires Built() && m.index < p.nsym
      requires req.Some? ==> -0x8000_0000 <= req.value.delta < 0x8000_0000
      modifies `st, levels`launched, levels`side
      ensures Built() && Sides() == old(Sides())
      ensures st == if req.Some? then LV2 else if ReadsTable(m.mtype) then EMITA else SWAP
      ensures req.None? ==> levels.launched == old(levels.launched) && levels.side == old(levels.side)
      ensures req.Some? ==>
                var k := SideOf(m.index, req.value.ask);
                levels.side == k && levels.launched
                  == LevelPipeline.Launch(Sides()[k], req.value.ask, req.value.price, req.value.delta)
    {
      if req.Some? {
        levels.LaunchLv(SideOf(m.index, req.value.ask), req.value.ask, req.value.price, req.value.delta);
        st := LV2;
      } else if ReadsTable(m.mtype) {
        st := EMITA;
      } else {
        st := SWAP;
      }
    }

    method Decode2a(ghost t: Tail)
      requires Built() && TailShaped(p, t) && TheTail() == t && m.index < p.nsym && st.LV2?
      modifies `st, levels`found
      ensures Built() && (st, TheTail()) == TailStep(p, LV2, t, m.index)
    {
      hide DecodeA, SidesOf;
      ghost var sides := Sides();
      levels.DecodeLv2a();
      assert Sides() == sides;
      st := LV2B;
    }

    method Decode2b(ghost t: Tail)
      requires Built() && TailShaped(p, t) && TheTail() == t && m.index < p.nsym && st.LV2B?
      modifies `st, levels`decoded
      ensures Built() && (st, TheTail()) == TailStep(p, LV2B, t, m.index)
    {
      hide DecodeB, SidesOf;
      ghost var sides := Sides();
      levels.DecodeLv2b();
      assert Sides() == sides;
      st := LV3;
    }

    method WriteBack(ghost t: Tail)
      requires Built() && TailShaped(p, t) && TheTail() == t && m.index < p.nsym && st.LV3?
      modifies `st, levels.price, levels.qty
      ensures Built() && (st, TheTail()) == TailStep(p, LV3, t, m.index)
    {
      hide LevelPipeline.Materialize, SidesOf, SideSlice;
      levels.MaterializeWrite();
      assert Sides() == t.core.sides[t.side := LevelPipeline.Materialize(t.lv, t.dec)];
      st := if uadd then UADD else EMITA;
    }

    /** The add half of a replace: its table write, and its level operation launched. */
    method AddTheHalf(ghost t: Tail)
      requires Built() && TailShaped(p, t) && TheTail() == t && m.index < p.nsym && st.UADD?
      modifies `st, `uadd, oMem, levels`launched, levels`side
      ensures Built() && (st, TheTail()) == TailStep(p, UADD, t, m.index)
    {
      hide LevelPipeline.Launch, SidesOf;
      ghost var sides := Sides();
      oMem[half.slot] := EntryOf(half.ref, half.row);
      levels.LaunchLv(SideOf(m.index, half.row.ask), half.row.ask, half.row.price, Signed32(half.row.qty));
      assert Sides() == sides;
      st, uadd := LV2, false;
    }

    /** Captures both sides of the event's symbol. */
    method EmitA(ghost t: Tail)
      requires Built() && TailShaped(p, t) && TheTail() == t && m.index < p.nsym && st.EMITA?
      modifies `st, `e
      ensures Built() && (st, TheTail()) == TailStep(p, EMITA, t, m.index)
    {
      hide SidesOf, TailStep, TailShaped, LevelArrays.Valid, Pow2, LevelArrays.Side, FirstOne, Sound;
      EmitAForm(p, t, m.index);
      if e.ok {
        var bids, nzb := levels.ReadSide(SideOf(m.index, false));
        var asks, nza := levels.ReadSide(SideOf(m.index, true));
        assert nzb == Occupied(bids) && nza == Occupied(asks);
        e := e.(bids := bids, asks := asks, nzb := nzb, nza := nza);
      }
      st := EMITB;
    }

    /** Selects the first occupied slots and takes the public depth. */
    method EmitB(ghost t: Tail)
      requires Built() && TailShaped(p, t) && TheTail() == t && m.index < p.nsym && st.EMITB?
      modifies `st, `e
      ensures Built() && (st, TheTail()) == TailStep(p, EMITB, t, m.index)
    {
      hide SidesOf, TailStep, TailShaped, LevelArrays.Valid, Pow2, LevelArrays.Side, FirstOne, Sound;
      EmitBForm(p, t, m.index);
      if e.ok {
        var bsel := FirstOneTree(e.nzb, levels.logCap);
        var asel := FirstOneTree(e.nza, levels.logCap);
        e := e.(bsel := bsel, asel := asel, depthBids := e.bids[..p.nd], depthAsks := e.asks[..p.nd]);
      }
      st := EMITC;
    }

    /** Publishes the captured best prices. */
    method EmitC(ghost t: Tail)
      requires Built() && TailShaped(p, t) && TheTail() == t && m.index < p.nsym
      modifies `s, `out
      ensures
        var (core, ev) := EmitResult(p, t, m.locate, m.index);
        Built() && TheTail() == t.(core := core) && out == Out(true, true, ev)
    {
      hide SidesOf, SideShaped, LevelArrays.Valid, Pow2;
      var b, a := e.bids[e.bsel], e.asks[e.asel];
      var bbo := Market.Bbo(b.price, b.qty, a.price, a.qty);
      var crossed := s.open && s.tstate[m.index] == Market.CONTINUOUS && b.price != 0 && a.price != 0
        && b.price >= a.price;
      out := Out(true, true, Event(m.locate, bbo, bbo != s.prev[m.index], e.depthBids, e.depthAsks));
      s := s.(prev := s.prev[m.index := bbo], crosses := if crossed then (s.crosses + 1) % WORD else s.crosses);
    }

    // ---- one clock edge ----

    static lemma {:induction false} SwapSetsState(p: Params, r: Regs, st: St, before: Probe)
      requires Sound(p) && RegsShaped(p, r)
      ensures SwapNext(p, r.(st := st), before) == SwapNext(p, r, before)
      ensures SwapNext(p, r, before).t == r.t && SwapNext(p, r, before).out == r.out
              && SwapNext(p, r, before).inval == r.inval
    {
      hide ReadsTable, TailShaped, ProbeShaped, ArmOld, ArmNew, RefWords, SwapNext, RunsNeeded;
      SwapForm(p, r, before);
      SwapForm(p, r.(st := st), before);
    }

    /** The state register is set on every way out of the tail. */
    static lemma {:induction false} LeaveSetsState(p: Params, r: Regs, st: St, i: In, before: Probe)
      requires Sound(p) && RegsShaped(p, r) && |i.beat.data| == p.bytes
      ensures LeaveTail(p, r.(st := st), i, before) == LeaveTail(p, r, i, before)
      ensures TailRecv(p, r.(st := st), i) == TailRecv(p, r, i).(st := st)
      ensures LeaveTail(p, r, i, before).t == r.t && LeaveTail(p, r, i, before).out == r.out
      ensures LeaveTail(p, r, i, before).inval == r.inval
    {
      hide SwapNext, NxRecv;
      SwapSetsState(p, r, st, before);
    }

    /** The receiving states. */
    method Receive(i: In, before: Probe, ghost q: Regs)
      requires Sound(p) && RegsShaped(p, q) && FrontIs(q) && |i.beat.data| == p.bytes
      requires st.W0? || st.TS? || st.BODY?
      modifies `st, `m, `bi, `nbody, `hrem, `f, `pr
      ensures FrontIs(if q.st.W0? then NextW0(p, q, i) else if q.st.TS? then NextTs(p, q, i)
                      else NextBody(p, q, i, before))
    {
      hide TailShaped, ProbeShaped;
      if !i.tvalid {
        return;
      }
      if st.W0? {
        var w := i.beat.data;
        var index, bad := Register(HeadLocate(w));
        m := Msg(HeadType(w), HeadLocate(w), index, bad, m.acc);
        st, hrem, bi, nbody := TS, 1, 0, BodyWords(p, HeadLength(w));
      } else if st.TS? {
        if hrem == 1 {
          st := BODY;
        } else {
          hrem := (hrem + 3) % 4;
        }
      } else {
        BodyWord(i, before, q);
      }
    }

    /** One body word: kept, a run armed when it completes a reference, and the wait or
        the apply state entered when it is the last. */
    method BodyWord(i: In, before: Probe, ghost q: Regs)
      requires Sound(p) && RegsShaped(p, q) && FrontIs(q) && |i.beat.data| == p.bytes && st.BODY? && i.tvalid
      modifies `st, `m, `bi, `nbody, `pr
      ensures FrontIs(NextBody(p, q, i, before))
    {
      hide JoinedRef, RunsNeeded, TailShaped, ProbeShaped, ArmsOld, ArmsNew;
      var t := m.mtype;
      var armOld, armNew := ArmsOld(p, t, bi), ArmsNew(p, t, bi);
      var inflight := before.pendOld || before.pendNew || Active(before) || armOld || armNew;
      m := m.(acc := m.acc[bi := i.beat.data]);
      if armOld {
        pr := pr.(pendOld := true, oref := JoinedRef(p, m.acc, 0), needEmpty := t == TYPE_A || t == TYPE_F,
                  anchor := before.runs, needed := RunsNeeded(t));
      }
      if armNew {
        pr := pr.(pendNew := true, newref := JoinedRef(p, m.acc, 1));
      }
      if i.beat.last || nbody <= 1 {
        st := if inflight then WAIT else APPLY;
      } else {
        bi, nbody := (bi + 1) % 16, nbody - 1;
      }
    }

    /** The apply state for a symbol of the subset. */
    method ApplyGood(i: In, before: Probe, ghost q: Regs)
      requires Built() && RegsShaped(p, q) && Registers() == q && ProbeShaped(p, before) && |i.beat.data| == p.bytes
      requires st.APPLY? && !m.bad
      modifies `st, `m, `bi, `nbody, `hrem, `f, `pr, `s, `e, `uadd, `half, oMem, levels`launched, levels`side
      ensures Built() && Registers() == NextApply(p, q, i, before)
    {
      hide ApplyTail, DecodeOp, LeaveTail, TailRecv, SidesOf, LevelArrays.Valid, Pow2, TheTail, TailShaped, SwapNext;
      var op := DecodeOp(p, m.mtype, m.acc);
      Apply(op, before.wOld, before.wNew, q.t);
      ghost var t, x := TheTail(), q.(t := TheTail());
      LeaveSetsState(p, x, st, i, before);
      FeedsOnlyFront(p, x, i);
      if st.SWAP? {
        Leave(i, before, x.(st := st));
      } else {
        Feeding(i, x.(st := st));
      }
      assert TheTail() == t;
    }

    /** The apply state. */
    method ApplyState(i: In, before: Probe, ghost q: Regs)
      requires Built() && RegsShaped(p, q) && Registers() == q && ProbeShaped(p, before) && |i.beat.data| == p.bytes
               && st.APPLY?
      modifies `st, `m, `bi, `nbody, `hrem, `f, `pr, `s, `e, `uadd, `half, oMem, levels`launched, levels`side
      ensures Built() && Registers() == NextApply(p, q, i, before)
    {
      hide LeaveTail, TailRecv, SidesOf, LevelArrays.Valid, Pow2, ProbeShaped, MsgShaped;
      if m.bad {
        LeaveSetsState(p, q, APPLY, i, before);
        ghost var t := TheTail();
        Leave(i, before, q);
        assert TheTail() == t;
      } else {
        ApplyGood(i, before, q);
      }
    }

    /** The work of one pipeline state. */
    method TailWork(ghost t: Tail)
      requires Built() && TailShaped(p, t) && TheTail() == t && m.index < p.nsym && InTail(st)
      modifies `st, `e, `uadd, oMem, levels`launched, levels`side, levels`found, levels`decoded, levels.price,
        levels.qty
      ensures Built() && (st, TheTail()) == TailStep(p, old(st), t, m.index)
    {
      hide TailStep, SidesOf, LevelArrays.Valid, Pow2, TheTail, TailShaped;
      match st {
        case LV2 => Decode2a(t);
        case LV2B => Decode2b(t);
        case LV3 => WriteBack(t);
        case UADD => AddTheHalf(t);
        case EMITA => EmitA(t);
        case EMITB => EmitB(t);
      }
    }

    /** The pipeline states. */
    method TailState(i: In, ghost q: Regs)
      requires Built() && RegsShaped(p, q) && Registers() == q && |i.beat.data| == p.bytes && InTail(st)
      modifies `st, `f, `e, `uadd, oMem, levels`launched, levels`side, levels`found, levels`decoded, levels.price,
        levels.qty
      ensures Built()
      ensures
        var (st', t') := TailStep(p, q.st, q.t, q.m.index);
        Registers() == TailRecv(p, q, i).(st := st', t := t')
    {
      hide TailStep, TailRecv, SidesOf, LevelArrays.Valid, Pow2, TheTail, TailShaped, ProbeShaped;
      TailWork(q.t);
      ghost var t := TheTail();
      LeaveSetsState(p, q, st, i, q.pr);
      Feeding(i, q.(st := st));
      assert TheTail() == t;
      FeedsOnlyFront(p, q, i);
    }

    /** The receiving states leave everything behind the apply state alone. */
    method ReceiveState(i: In, before: Probe, ghost q: Regs)
      requires Built() && RegsShaped(p, q) && Registers() == q && |i.beat.data| == p.bytes
               && (st.W0? || st.TS? || st.BODY?)
      modifies `st, `m, `bi, `nbody, `hrem, `f, `pr
      ensures Registers() == if q.st.W0? then NextW0(p, q, i) else if q.st.TS? then NextTs(p, q, i)
              else NextBody(p, q, i, before)
    {
      hide NextW0, NextTs, NextBody, TheTail, TailShaped, ProbeShaped, LevelArrays.Valid, Pow2;
      ghost var t := TheTail();
      ReceiveKeeps(p, q, i, before);
      Receive(i, before, q);
      assert TheTail() == t;
    }

    /** Waiting for the probe, and the dedicated state of a hand-over put off. */
    method WaitState(i: In, before: Probe, ghost q: Regs)
      requires Built() && RegsShaped(p, q) && Registers() == q && |i.beat.data| == p.bytes && (st.WAIT? || st.SWAP?)
      modifies `st, `m, `bi, `nbody, `hrem, `f, `pr
      ensures
        Registers() == if q.st.SWAP? then SwapNext(p, q, before)
                       else TailRecv(p, q, i).(st := if ProbeDone(before) then APPLY else WAIT)
    {
      hide TailRecv, SwapNext, TheTail, TailShaped, ProbeShaped, LevelArrays.Valid, Pow2, ProbeDone;
      ghost var t := TheTail();
      FeedsOnlyFront(p, q, i);
      SwapSetsState(p, q, SWAP, before);
      if st.SWAP? {
        Swap(before, q);
      } else {
        Feeding(i, q);
        st := if ProbeDone(before) then APPLY else WAIT;
      }
      assert TheTail() == t;
    }

    static lemma {:induction false} FeedsOnlyFront(p: Params, q: Regs, i: In)
      requires Sound(p) && RegsShaped(p, q) && |i.beat.data| == p.bytes
      ensures TailRecv(p, q, i).t == q.t && TailRecv(p, q, i).out == q.out && TailRecv(p, q, i).inval == q.inval
    {
      hide NxRecv;
    }

    /** Publishing, once both channels are free. */
    method EmitState(i: In, before: Probe, was: Out, ghost q: Regs)
      requires Built() && RegsShaped(p, q) && Registers() == q && |i.beat.data| == p.bytes && st.EMITC?
      modifies `st, `m, `bi, `nbody, `hrem, `f, `pr, `s, `out
      ensures Built() && Registers() == NextEmitC(p, q, i, before, was)
    {
      hide EmitResult, LeaveTail, TailRecv, SidesOf, LevelArrays.Valid, Pow2;
      if e.ok && (was.bboValid || was.depthValid) {
        FeedsOnlyFront(p, q, i);
        ghost var t := TheTail();
        Feeding(i, q);
        assert TheTail() == t;
      } else {
        if e.ok {
          EmitC(q.t);
        }
        ghost var x := q.(t := TheTail(), out := out);
        LeaveSetsState(p, x, EMITC, i, before);
        Leave(i, before, x);
        assert TheTail() == x.t;
      }
    }

    /** The table is invalidated one slot per cycle before the first message. */
    method Invalidate(ghost q: Regs)
      requires Built() && RegsShaped(p, q) && Registers() == q && st.INVAL?
      modifies `st, `inval, oMem
      ensures Built()
      ensures
        Registers() ==
        q.(st := if q.inval + 1 == p.nslot then W0 else INVAL,
           inval := if q.inval + 1 == p.nslot then q.inval else q.inval + 1,
           t := q.t.(core := q.t.core.(mem := q.t.core.mem[q.inval := BLANK])))
    {
      hide SidesOf, LevelArrays.Valid, Pow2;
      ghost var sides := Sides();
      oMem[inval] := BLANK;
      assert Sides() == sides;
      if inval + 1 == p.nslot {
        st := W0;
      } else {
        inval := inval + 1;
      }
    }

    /** The state machine's part of an edge, after the engine and the output handshake. */
    method StateEdge(i: In, before: Probe, was: Out, ghost q: Regs)
      requires Valid() && Registers() == q && ProbeShaped(p, before) && |i.beat.data| == p.bytes
      modifies this, oMem, levels, levels.price, levels.qty
      ensures Built() && Registers() == Clock.StateEdge(p, q, i, before, was)
    {
      hide NextW0, NextTs, NextBody, NextApply, NextEmitC, TailStep, TailRecv, SwapNext, SidesOf, LevelArrays.Valid,
           Pow2, TheTail;
      if st.INVAL? {
        Invalidate(q);
      } else if st.W0? || st.TS? || st.BODY? {
        ReceiveState(i, before, q);
      } else if st.WAIT? || st.SWAP? {
        WaitState(i, before, q);
      } else if st.APPLY? {
        ApplyState(i, before, q);
      } else if st.EMITC? {
        EmitState(i, before, was, q);
      } else {
        TailState(i, q);
      }
    }

    /** One clock edge: every register takes the value the specification gives it. */
    method Cycle(i: In)
      requires Valid() && |i.beat.data| == p.bytes
      modifies this, oMem, levels, levels.price, levels.qty
      ensures Valid() && Registers() == Edge(p, old(Registers()), i)
    {
      hide ProbeAdvance, SidesOf, LevelArrays.Valid, Pow2, Clock.StateEdge;
      ghost var r, t := Registers(), TheTail();
      var before, was := pr, out;
      ProbeEdge(st.APPLY? || st.UADD?);
      out := out.(bboValid := out.bboValid && !i.bboReady, depthValid := out.depthValid && !i.depthReady);
      assert TheTail() == t;
      StateEdge(i, before, was, Registers());
    }
  }

  lemma {:induction false} ReceiveKeeps(p: Params, q: Regs, i: In, before: Probe)
    requires Sound(p) && RegsShaped(p, q) && |i.beat.data| == p.bytes
    ensures NextW0(p, q, i).t == q.t && NextW0(p, q, i).out == q.out && NextW0(p, q, i).inval == q.inval
    ensures NextTs(p, q, i).t == q.t && NextTs(p, q, i).out == q.out && NextTs(p, q, i).inval == q.inval
    ensures NextBody(p, q, i, before).t == q.t && NextBody(p, q, i, before).out == q.out
            && NextBody(p, q, i, before).inval == q.inval
  {
    hide JoinedRef, ArmsOld, ArmsNew, BodyWords, RunsNeeded;
  }

  function SidesOf(ps: seq<nat>, qs: seq<nat>, sides: nat, cap: nat): (s: seq<seq<Level>>)
    requires |ps| == |qs| == sides * cap
    ensures |s| == sides && forall k :: 0 <= k < sides ==> s[k] == SideSlice(ps, qs, k, sides, cap)
  {
    seq(sides, k requires 0 <= k < sides => SideSlice(ps, qs, k, sides, cap))
  }

  function BlankMsg(p: Params): (m: Msg)
    requires Sound(p)
    ensures MsgShaped(p, m)
  {
    var word: Word := seq<byte>(p.bytes, _ => 0);
    Msg(0, 0, 0, false, seq(16, _ => word))
  }

  const RESET_PROBE := Probe(IDLE, false, false, 0, 0, false, 0, 0, 0, false, true, false, FRESH, FRESH, 0, BLANK, 0,
                             0, 0, false)
  const NO_EVENT := Out(false, false, Event(0, Market.NO_BBO, false, [], []))

  function ResetTail(p: Params, mem: seq<Entry>): (t: Tail)
    requires Sound(p) && |mem| == p.nslot
    ensures TailShaped(p, t) && t.core == Reset(p).(mem := mem)
  {
    Tail(Reset(p).(mem := mem), ResetLaunch(p.cap), 0, Found(0, 0, 0, false, false, false), Decoded(0, 0, 0, 0, KEEP),
         false, AddHalf(0, Row(false, 0, 0), 0), false, seq(p.cap, _ => VACANT), seq(p.cap, _ => VACANT),
         seq(p.cap, _ => false), seq(p.cap, _ => false), 0, 0, [], [])
  }

  /** All registers at reset, over a table that holds anything. */
  function AtReset(p: Params, mem: seq<Entry>): (r: Regs)
    requires Sound(p) && |mem| == p.nslot
    ensures Runs.IsReset(p, r)
  {
    Regs(INVAL, 0, BlankMsg(p), 0, 0, 1, Feed(Next(false, false, 0, 0, 0, 0, BlankMsg(p)),
                                              seq(p.nsym, _ => UNREGISTERED), 0),
         RESET_PROBE, ResetTail(p, mem), NO_EVENT)
  }
}
