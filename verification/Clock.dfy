// The clocked order book: all registers, and their values after one clock
// edge. Reads see the registers before the edge; writes land at the edge.
module Clock {
  import opened Bytes
  import opened FirstHot
  import opened LevelPipeline
  import opened OrderTable
  import opened Records
  import opened Engine
  import opened Receiver
  import Market

  datatype St = INVAL | W0 | TS | BODY | WAIT | APPLY | LV2 | LV2B | LV3 | UADD | EMITA | EMITB | EMITC | SWAP

  /** Header fields and body buffer of one message. */
  datatype Msg = Msg(mtype: byte, locate: nat, index: nat, bad: bool, acc: seq<Word>)

  /** The next message, received while the one in flight finishes. */
  datatype Next = Next(active: bool, done: bool, st: nat, hrem: nat, bi: nat, nbody: nat, msg: Msg)

  /** The next message's buffer and the symbol table that both receivers extend. */
  datatype Feed = Feed(nx: Next, locs: seq<nat>, cnt: nat)

  datatype Phase = IDLE | WARM | WALK

  datatype Probe = Probe(
    phase: Phase, pendOld: bool, pendNew: bool, oref: nat, newref: nat, needEmpty: bool,
    base: nat, target: nat, i: nat, seek: bool, isOld: bool, hole: bool,
    wOld: Walked, wNew: Walked,
    rdAddr: nat, rdData: Entry,
    runs: nat, anchor: nat, needed: nat, pause: bool)

  /** Registers of the states behind ST_APPLY. */
  datatype Tail = Tail(
    core: Core,
    lv: Launched, side: nat, fnd: Found, dec: Decoded,
    uadd: bool, half: AddHalf,
    emitOk: bool, bids: seq<Level>, asks: seq<Level>, nzb: seq<bool>, nza: seq<bool>,
    bsel: nat, asel: nat, depthBids: seq<Level>, depthAsks: seq<Level>)

  /** Output registers; the event stays while its valid lines are high. */
  datatype Out = Out(bboValid: bool, depthValid: bool, event: Event)

  datatype Regs = Regs(
    st: St, inval: nat,
    m: Msg, bi: nat, nbody: nat, hrem: nat,
    f: Feed,
    pr: Probe, t: Tail, out: Out)

  /** The input pins during one cycle. */
  datatype In = In(tvalid: bool, beat: Beat, bboReady: bool, depthReady: bool)

  // ---- shapes ----

  predicate MsgShaped(p: Params, m: Msg)
    requires Sound(p)
  {
    |m.acc| == 16 && WordsOf(p, m.acc) && m.index < p.nsym
  }

  predicate FeedShaped(p: Params, f: Feed)
    requires Sound(p)
  {
    f.nx.bi < 16 && MsgShaped(p, f.nx.msg) && |f.locs| == p.nsym && f.cnt <= p.nsym
  }

  predicate ProbeShaped(p: Params, pr: Probe)
    requires Sound(p)
  {
    && pr.base < p.nslot && pr.rdAddr < p.nslot && pr.i < p.probe
    && Addresses(pr.wOld, p.nslot) && Addresses(pr.wNew, p.nslot)
  }

  predicate TailShaped(p: Params, t: Tail)
    requires Sound(p)
  {
    && Engine.Shaped(p, t.core)
    && LevelPipeline.Shaped(t.lv) && SideShaped(p, t.lv.slots) && t.side < 2 * p.nsym
    && t.fnd.fnd < p.cap
    && t.half.slot < p.nslot
    && |t.bids| == p.cap && |t.asks| == p.cap && |t.nzb| == p.cap && |t.nza| == p.cap
    && t.bsel < p.cap && t.asel < p.cap
  }

  predicate RegsShaped(p: Params, r: Regs)
    requires Sound(p)
  {
    && r.inval < p.nslot && r.bi < 16
    && MsgShaped(p, r.m) && FeedShaped(p, r.f)
    && ProbeShaped(p, r.pr) && TailShaped(p, r.t)
  }

  // ---- the probe engine ----

  predicate Active(pr: Probe) {
    !pr.phase.IDLE?
  }

  /** A walking engine evaluates the entry read last and goes on behind it; b has the read
      port already updated. */
  function ProbeWalk(p: Params, pr: Probe, b: Probe): (r: Probe)
    requires Sound(p) && ProbeShaped(p, pr) && pr.phase.WALK? && b == pr.(rdData := b.rdData)
    ensures ProbeShaped(p, r)
    ensures r == b.(phase := r.phase, i := r.i, rdAddr := r.rdAddr, hole := r.hole,
                    wOld := if pr.isOld then r.wOld else b.wOld, wNew := if pr.isOld then b.wNew else r.wNew)
    ensures r.phase.IDLE? || (r.phase.WALK? && r.i == pr.i + 1)
  {
    var (w, hole, done) :=
      EvaluateEntry(pr.rdData, Slot(p.nslot, pr.base, pr.i), p.probe, pr.target, pr.isOld, pr.seek, pr.i, pr.hole,
                    if pr.isOld then pr.wOld else pr.wNew);
    var c := (if pr.isOld then b.(wOld := w) else b.(wNew := w)).(hole := hole);
    if done then c.(phase := IDLE)
    else c.(i := pr.i + 1, rdAddr := Slot(p.nslot, pr.base, pr.i + 2))
  }

  /** One edge of the probe engine, with the entry that the read port shows; hold is high
      while the table is being written. */
  function ProbeRead(p: Params, pr: Probe, read: Entry, hold: bool): (r: Probe)
    requires Sound(p) && ProbeShaped(p, pr)
    ensures ProbeShaped(p, r)
  {
    var b := pr.(rdData := read);
    if hold then b.(pause := true)
    else if pr.pause then b.(pause := false)
    else if pr.pendOld && pr.phase.IDLE? then
      b.(pendOld := false, runs := (pr.runs + 1) % 0x1_0000, phase := WARM, i := 0,
         base := Hash(pr.oref, p.nslot), target := pr.oref, seek := pr.needEmpty, isOld := true,
         hole := false, wOld := FRESH, rdAddr := Hash(pr.oref, p.nslot))
    else if pr.pendNew && pr.phase.IDLE? && !pr.pendOld then
      b.(pendNew := false, runs := (pr.runs + 1) % 0x1_0000, phase := WARM, i := 0,
         base := Hash(pr.newref, p.nslot), target := pr.newref, seek := true, isOld := false,
         hole := false, wNew := FRESH, rdAddr := Hash(pr.newref, p.nslot))
    else if pr.phase.WARM? then
      b.(phase := WALK, rdAddr := Slot(p.nslot, pr.base, 1))
    else if pr.phase.WALK? then ProbeWalk(p, pr, b)
    else b
  }

  function ProbeAdvance(p: Params, pr: Probe, mem: seq<Entry>, hold: bool): (r: Probe)
    requires Sound(p) && ProbeShaped(p, pr) && |mem| == p.nslot
    ensures ProbeShaped(p, r)
  {
    ProbeRead(p, pr, mem[pr.rdAddr], hold)
  }

  predicate ArmsOld(p: Params, t: byte, bi: nat)
    requires Sound(p)
  {
    bi + 1 == RefWords(p) && ReadsTable(t)
  }

  predicate ArmsNew(p: Params, t: byte, bi: nat)
    requires Sound(p)
  {
    bi + 1 == 2 * RefWords(p) && t == TYPE_U
  }

  /** Arming the run for the order a message names; its run count is anchored here. */
  function ArmOld(p: Params, pr: Probe, t: byte, acc: seq<Word>): (r: Probe)
    requires Sound(p) && RefWords(p) <= |acc|
    ensures ProbeShaped(p, pr) ==> ProbeShaped(p, r)
  {
    pr.(pendOld := true, oref := JoinedRef(p, acc, 0), needEmpty := t == TYPE_A || t == TYPE_F)
  }

  /** Arming the run for the reference a replace introduces. */
  function ArmNew(p: Params, pr: Probe, acc: seq<Word>): (r: Probe)
    requires Sound(p) && 2 * RefWords(p) <= |acc|
    ensures ProbeShaped(p, pr) ==> ProbeShaped(p, r)
  {
    pr.(pendNew := true, newref := JoinedRef(p, acc, 1))
  }

  /** The runs a hand-over arms: those whose words are in. */
  predicate HandsOld(p: Params, nx: Next)
    requires Sound(p)
  {
    (nx.done || nx.bi >= RefWords(p)) && ReadsTable(nx.msg.mtype)
  }

  predicate HandsNew(p: Params, nx: Next)
    requires Sound(p)
  {
    ((nx.done && nx.bi + 1 >= 2 * RefWords(p)) || nx.bi >= 2 * RefWords(p)) && nx.msg.mtype == TYPE_U
  }

  /** The engine registers as a hand-over arms them; before is the engine before the edge. */
  function HandOver(p: Params, before: Probe, pr: Probe, nx: Next): (r: Probe)
    requires Sound(p) && |nx.msg.acc| == 16
    ensures ProbeShaped(p, before) && ProbeShaped(p, pr) ==> ProbeShaped(p, r)
  {
    var pr1 := if HandsOld(p, nx) then ArmOld(p, pr, nx.msg.mtype, nx.msg.acc) else pr;
    var pr2 := if HandsNew(p, nx) then ArmNew(p, pr1, nx.msg.acc) else pr1;
    if nx.done || HandsOld(p, nx) || HandsNew(p, nx)
    then pr2.(anchor := before.runs, needed := RunsNeeded(nx.msg.mtype)) else pr2
  }

  function RunsNeeded(t: byte): nat {
    (if ReadsTable(t) then 1 else 0) + (if t == TYPE_U then 1 else 0)
  }

  // ---- the receivers ----

  /** The receiver of the next message takes one word. */
  function NxRecv(p: Params, f: Feed, b: Beat): (g: Feed)
    requires Sound(p) && FeedShaped(p, f) && |b.data| == p.bytes
    ensures FeedShaped(p, g)
  {
    var nx := f.nx;
    if !nx.active then
      var v := Resolve(p, f.locs, f.cnt, HeadLocate(b.data));
      Feed(Next(true, false, 1, 1, 0, BodyWords(p, HeadLength(b.data)),
                Msg(HeadType(b.data), HeadLocate(b.data), v.index, v.bad, nx.msg.acc)),
           v.locs, v.cnt)
    else if nx.st == 1 then f.(nx := nx.(st := 2))
    else
      var nx1 := nx.(msg := nx.msg.(acc := nx.msg.acc[nx.bi := b.data]));
      if b.last || nx.nbody <= 1 then f.(nx := nx1.(done := true))
      else f.(nx := nx1.(bi := (nx.bi + 1) % 16, nbody := nx.nbody - 1))
  }

  /** The next message becomes the one in flight; its probe runs are armed here as
      far as the words they need are in. The engine registers before the edge tell
      whether a run is still to come. */
  function SwapNext(p: Params, r: Regs, before: Probe): (s: Regs)
    requires Sound(p) && RegsShaped(p, r)
    ensures RegsShaped(p, s)
  {
    var nx := r.f.nx;
    var inflight := before.pendOld || before.pendNew || Active(before) || HandsOld(p, nx) || HandsNew(p, nx);
    if !nx.active then r.(st := W0)
    else
      var s := r.(m := nx.msg, hrem := nx.hrem, pr := HandOver(p, before, r.pr, nx),
                  f := r.f.(nx := nx.(active := false, done := false, st := 0, bi := 0)));
      if nx.done then s.(st := if inflight then WAIT else APPLY)
      else if nx.st == 1 then s.(st := TS, bi := 0, nbody := nx.nbody)
      else if nx.st == 2 then s.(st := BODY, bi := nx.bi, nbody := nx.nbody)
      else s.(st := W0)
  }

  // ---- the states behind ST_APPLY ----

  function LaunchOn(p: Params, t: Tail, index: nat, q: LevelReq): (r: Tail)
    requires Sound(p) && TailShaped(p, t) && index < p.nsym && -0x8000_0000 <= q.delta < 0x8000_0000
    ensures TailShaped(p, r) && r.core == t.core
  {
    var k := SideOf(index, q.ask);
    t.(lv := Launch(t.core.sides[k], q.ask, q.price, q.delta), side := k)
  }

  /** ST_APPLY: the message is applied and its level operation launched. */
  function ApplyTail(p: Params, t: Tail, mtype: byte, index: nat, op: Op, wOld: Walked, wNew: Walked): (r: (St, Tail))
    requires Sound(p) && TailShaped(p, t) && index < p.nsym
    requires Addresses(wOld, p.nslot) && Addresses(wNew, p.nslot)
    ensures TailShaped(p, r.1) && (r.0.LV2? || r.0.EMITA? || r.0.SWAP?)
  {
    var a := ApplyOne(p, t.core, index, op, wOld, wNew);
    var t1 := if a.req.Some? then LaunchOn(p, t, index, a.req.value) else t;
    (if a.req.Some? then LV2 else if ReadsTable(mtype) then EMITA else SWAP,
     t1.(core := a.core, emitOk := a.emit, uadd := a.half.Some?,
         half := if a.half.Some? then a.half.value else t.half))
  }

  predicate InTail(st: St) {
    st.LV2? || st.LV2B? || st.LV3? || st.UADD? || st.EMITA? || st.EMITB?
  }

  /** One state of the level and emission pipelines. */
  function TailStep(p: Params, st: St, t: Tail, index: nat): (r: (St, Tail))
    requires Sound(p) && TailShaped(p, t) && index < p.nsym && InTail(st)
    ensures TailShaped(p, r.1) && (InTail(r.0) || r.0.EMITC?)
  {
    match st
    case LV2 => (LV2B, t.(fnd := DecodeA(t.lv)))
    case LV2B => (LV3, t.(dec := DecodeB(t.lv, t.fnd, t.dec.newq)))
    case LV3 =>
      MaterializeBounded(t.lv, t.dec);
      (if t.uadd then UADD else EMITA,
       t.(core := t.core.(sides := t.core.sides[t.side := Materialize(t.lv, t.dec)])))
    case UADD =>
      (LV2, LaunchOn(p, t, index, HalfReq(t.half)).(core := WithHalf(p, t.core, t.half), uadd := false))
    case EMITA =>
      var bids, asks := t.core.sides[SideOf(index, false)], t.core.sides[SideOf(index, true)];
      (EMITB, if t.emitOk then t.(bids := bids, asks := asks, nzb := Occupied(bids), nza := Occupied(asks)) else t)
    case EMITB =>
      (EMITC, if t.emitOk then t.(bsel := FirstOne(t.nzb), asel := FirstOne(t.nza),
                                  depthBids := t.bids[..p.nd], depthAsks := t.asks[..p.nd]) else t)
  }

  /** ST_EMIT_C: the captured best prices, published. */
  function EmitResult(p: Params, t: Tail, locate: nat, index: nat): (r: (Core, Event))
    requires Sound(p) && TailShaped(p, t) && index < p.nsym
    ensures Engine.Shaped(p, r.0)
  {
    var b, a := t.bids[t.bsel], t.asks[t.asel];
    Publish(p, t.core, locate, index, Market.Bbo(b.price, b.qty, a.price, a.qty), t.depthBids, t.depthAsks)
  }

  // ---- one clock edge ----

  function TReady(r: Regs): bool {
    !r.st.INVAL? && !r.st.SWAP? && (!r.f.nx.done || r.st.TS? || r.st.BODY?)
  }

  /** Output retention: a valid line falls when its ready line is seen. */
  function Retain(o: Out, i: In): Out {
    o.(bboValid := o.bboValid && !i.bboReady, depthValid := o.depthValid && !i.depthReady)
  }

  /** A tail state also feeds the receiver of the next message. */
  function TailRecv(p: Params, r: Regs, i: In): (s: Regs)
    requires Sound(p) && RegsShaped(p, r) && |i.beat.data| == p.bytes
    ensures RegsShaped(p, s)
  {
    if i.tvalid && !r.f.nx.done then r.(f := NxRecv(p, r.f, i.beat)) else r
  }

  /** Leaving the tail: the swap waits one cycle when a word was just received. */
  function LeaveTail(p: Params, r: Regs, i: In, before: Probe): (s: Regs)
    requires Sound(p) && RegsShaped(p, r) && |i.beat.data| == p.bytes
    ensures RegsShaped(p, s)
  {
    if i.tvalid && !r.f.nx.done then r.(f := NxRecv(p, r.f, i.beat), st := SWAP) else SwapNext(p, r, before)
  }

  function NextW0(p: Params, r: Regs, i: In): (s: Regs)
    requires Sound(p) && RegsShaped(p, r) && |i.beat.data| == p.bytes
    ensures RegsShaped(p, s)
  {
    if !i.tvalid then r
    else
      var w := i.beat.data;
      var v := Resolve(p, r.f.locs, r.f.cnt, HeadLocate(w));
      r.(st := TS, f := r.f.(locs := v.locs, cnt := v.cnt), hrem := 1, bi := 0, nbody := BodyWords(p, HeadLength(w)),
         m := Msg(HeadType(w), HeadLocate(w), v.index, v.bad, r.m.acc))
  }

  function NextTs(p: Params, r: Regs, i: In): (s: Regs)
    requires Sound(p) && RegsShaped(p, r)
    ensures RegsShaped(p, s)
  {
    if !i.tvalid then r
    else if r.hrem == 1 then r.(st := BODY)
    else r.(hrem := (r.hrem + 3) % 4)
  }

  function NextBody(p: Params, r: Regs, i: In, before: Probe): (s: Regs)
    requires Sound(p) && RegsShaped(p, r) && |i.beat.data| == p.bytes
    ensures RegsShaped(p, s)
  {
    if !i.tvalid then r
    else
      var acc := r.m.acc[r.bi := i.beat.data];
      var armOld, armNew := ArmsOld(p, r.m.mtype, r.bi), ArmsNew(p, r.m.mtype, r.bi);
      var pr1 := if armOld then ArmOld(p, r.pr, r.m.mtype, acc).(anchor := before.runs, needed := RunsNeeded(r.m.mtype))
                 else r.pr;
      var pr2 := if armNew then ArmNew(p, pr1, acc) else pr1;
      var inflight := before.pendOld || before.pendNew || Active(before) || armOld || armNew;
      var s := r.(m := r.m.(acc := acc), pr := pr2);
      if i.beat.last || r.nbody <= 1 then s.(st := if inflight then WAIT else APPLY)
      else s.(bi := (r.bi + 1) % 16, nbody := r.nbody - 1)
  }

  predicate ProbeDone(pr: Probe) {
    (pr.runs - pr.anchor) % 0x1_0000 >= pr.needed && !Active(pr)
  }

  function NextApply(p: Params, r: Regs, i: In, before: Probe): (s: Regs)
    requires Sound(p) && RegsShaped(p, r) && ProbeShaped(p, before) && |i.beat.data| == p.bytes
    ensures RegsShaped(p, s)
  {
    if r.m.bad then LeaveTail(p, r, i, before)
    else
      var op := DecodeOp(p, r.m.mtype, r.m.acc);
      var (st, t) := ApplyTail(p, r.t, r.m.mtype, r.m.index, op, before.wOld, before.wNew);
      var s := r.(t := t);
      if st.SWAP? then LeaveTail(p, s, i, before) else TailRecv(p, s, i).(st := st)
  }

  function NextEmitC(p: Params, r: Regs, i: In, before: Probe, out: Out): (s: Regs)
    requires Sound(p) && RegsShaped(p, r) && |i.beat.data| == p.bytes
    ensures RegsShaped(p, s)
  {
    if r.t.emitOk && !out.bboValid && !out.depthValid then
      var (core, e) := EmitResult(p, r.t, r.m.locate, r.m.index);
      LeaveTail(p, r.(t := r.t.(core := core), out := Out(true, true, e)), i, before)
    else if r.t.emitOk then TailRecv(p, r, i)
    else LeaveTail(p, r, i, before)
  }

  /** The state machine's part of an edge, on registers whose engine and outputs have
      moved; before and was are the engine and the outputs before the edge. */
  function StateEdge(p: Params, q: Regs, i: In, before: Probe, was: Out): (s: Regs)
    requires Sound(p) && RegsShaped(p, q) && ProbeShaped(p, before) && |i.beat.data| == p.bytes
    ensures RegsShaped(p, s)
  {
    match q.st
    case INVAL =>
      q.(st := if q.inval + 1 == p.nslot then W0 else INVAL,
         inval := if q.inval + 1 == p.nslot then q.inval else q.inval + 1,
         t := q.t.(core := q.t.core.(mem := q.t.core.mem[q.inval := BLANK])))
    case W0 => NextW0(p, q, i)
    case TS => NextTs(p, q, i)
    case BODY => NextBody(p, q, i, before)
    case WAIT => TailRecv(p, q, i).(st := if ProbeDone(before) then APPLY else WAIT)
    case APPLY => NextApply(p, q, i, before)
    case EMITC => NextEmitC(p, q, i, before, was)
    case SWAP => SwapNext(p, q, before)
    case _ =>
      var (st, t) := TailStep(p, q.st, q.t, q.m.index);
      TailRecv(p, q, i).(st := st, t := t)
  }

  /** All registers after one edge. */
  function Edge(p: Params, r: Regs, i: In): (s: Regs)
    requires Sound(p) && RegsShaped(p, r) && |i.beat.data| == p.bytes
    ensures RegsShaped(p, s)
  {
    var q := r.(pr := ProbeAdvance(p, r.pr, r.t.core.mem, r.st.APPLY? || r.st.UADD?), out := Retain(r.out, i));
    StateEdge(p, q, i, r.pr, r.out)
  }
}
