// The clocked book refines record-by-record processing: at every reachable
// cycle the registers are the finished records' registers, or will be once the
// message in the tail completes, and the output channels have carried exactly
// the finished records' events.
module ClockRefinement {
  import opened Prices
  import opened OrderTable
  import opened Records
  import opened Engine
  import opened Receiver
  import opened Clock
  import opened TailMeaning
  import opened ProbeSafety
  import opened Overlap
  import opened ClockSafety
  import LevelPipeline

  /** Processing of the finished records. */
  function History(p: Params, x: Rx, k: int): (res: (Core, seq<Event>))
    requires Sound(p) && RxShaped(p, x) && x.ok && 0 <= k <= |x.done|
    ensures Engine.Shaped(p, res.0)
  {
    RunRecords(p, x.done[..k])
  }

  lemma {:induction false} HistoryFrame(p: Params, x: Rx, y: Rx, k: int)
    requires Sound(p) && RxShaped(p, x) && RxShaped(p, y) && x.ok && y.ok && 0 <= k <= |x.done| <= |y.done|
    requires y.done[..|x.done|] == x.done
    ensures History(p, y, k) == History(p, x, k)
    ensures k < |x.done| ==> y.done[k] == x.done[k]
  {
    assert y.done[..k] == y.done[..|x.done|][..k];
  }

  lemma {:induction false} HistoryStep(p: Params, x: Rx, k: int)
    requires Sound(p) && RxShaped(p, x) && x.ok && 0 <= k < |x.done|
    ensures
      var (c, es) := History(p, x, k);
      var (c', e) := Process(p, c, x.done[k]);
      History(p, x, k + 1) == (c', if e.Some? then es + [e.value] else es)
  {
    assert x.done[..k + 1][..k] == x.done[..k];
  }

  predicate InPipeline(st: St) {
    InTail(st) || st.EMITC?
  }

  /** The book registers against the finished records. */
  predicate BookInv(p: Params, r: Regs, x: Rx)
    requires Sound(p) && RegsShaped(p, r) && RxShaped(p, x) && x.ok && RecvInv(p, r, x)
  {
    var k := Finished(r, x);
    if r.st.INVAL? then
      r.t.core == Reset(p).(mem := r.t.core.mem) && forall j :: 0 <= j < r.inval ==> r.t.core.mem[j] == BLANK
    else if InPipeline(r.st) then
      !r.m.bad && Complete(p, r.st, r.t, r.m.locate, r.m.index) == Process(p, History(p, x, k).0, x.done[k])
    else r.t.core == History(p, x, k).0
  }

  function Pending(valid: bool, e: Event): seq<Event> {
    if valid then [e] else []
  }

  /** Each output channel has delivered, or still offers, each event once. */
  predicate EventsInv(p: Params, c: Config)
    requires Sound(p) && ConfigShaped(p, c) && c.x.ok && RecvInv(p, c.r, c.x)
  {
    var es := History(p, c.x, Finished(c.r, c.x)).1;
    && es == c.bbos + Pending(c.r.out.bboValid, c.r.out.event)
    && es == c.depths + Pending(c.r.out.depthValid, c.r.out.event)
  }

  ghost predicate Inv(p: Params, c: Config)
    requires Sound(p) && ConfigShaped(p, c)
  {
    && c.x.ok && RecvInv(p, c.r, c.x) && EngineInv(p, c.r)
    && BookInv(p, c.r, c.x) && EventsInv(p, c)
  }

  // ---- the apply state reads what a direct lookup would ----

  /** Only the runs a message armed have a say in what it does. */
  lemma {:induction false} ApplyReads(p: Params, c: Core, index: nat, op: Op, wOld: Walked, wNew: Walked,
                                      vOld: Walked, vNew: Walked)
    requires Sound(p) && Engine.Shaped(p, c) && index < p.nsym
    requires Addresses(wOld, p.nslot) && Addresses(wNew, p.nslot) && Addresses(vOld, p.nslot)
             && Addresses(vNew, p.nslot)
    requires op.Add? || op.Reduce? || op.Delete? || op.Replace? ==> wOld == vOld
    requires op.Replace? ==> wNew == vNew
    ensures ApplyOne(p, c, index, op, wOld, wNew) == ApplyOne(p, c, index, op, vOld, vNew)
  {
  }

  /** The latched results at the apply state are the direct lookups in the table as
      all earlier messages left it. */
  lemma {:induction false} LatchedIsLookup(p: Params, r: Regs)
    requires Sound(p) && RegsShaped(p, r) && r.st.APPLY? && EngineInv(p, r)
    ensures
      var op := DecodeOp(p, r.m.mtype, r.m.acc);
      && Quiet(r.pr)
      && (ReadsTable(r.m.mtype) ==> r.pr.wOld == LookupOld(p, r.t.core.mem, op))
      && (op.Replace? ==> r.pr.wNew == LookupNew(p, r.t.core.mem, op))
  {
    hide OnTrack, Lookup, JoinedRef, ProbeShaped, BodyByte;
    JoinedRefIsField(p, r.m.acc, 0);
    JoinedRefIsField(p, r.m.acc, 1);
  }

  /** The record whose message is in flight. */
  function InFlight(p: Params, r: Regs, x: Rx): (rec: Record)
    requires Sound(p) && RegsShaped(p, r) && RxShaped(p, x) && x.ok && RecvInv(p, r, x) && !Arriving(r.st)
             && !r.st.SWAP?
    ensures 0 <= Finished(r, x) < |x.done| && rec == x.done[Finished(r, x)] && GoodRecord(p, rec)
  {
    x.done[Finished(r, x)]
  }

  /** The message in the apply state, applied and completed, is the record processed. */
  lemma {:induction false} ApplyMeansProcess(p: Params, r: Regs, x: Rx)
    requires Sound(p) && RegsShaped(p, r) && RxShaped(p, x) && x.ok && RecvInv(p, r, x)
    requires r.st.APPLY? && !r.m.bad && EngineInv(p, r)
    ensures
      var (st, t) := AfterApply(p, r);
      && Complete(p, st, t, r.m.locate, r.m.index) == Process(p, r.t.core, InFlight(p, r, x))
      && (st.SWAP? ==> !t.emitOk)
  {
    hide EngineInv, Lookup, RunRecords, NextMatches, JoinedRef, LevelPipeline.LevelOp, Emit;
    var rec := x.done[Finished(r, x)];
    var op := DecodeOp(p, r.m.mtype, r.m.acc);
    FieldsArePrefix(p, rec.mtype, rec.words, r.m.acc);
    LatchedIsLookup(p, r);
    var vOld, vNew := LookupOld(p, r.t.core.mem, op), LookupNew(p, r.t.core.mem, op);
    ApplyReads(p, r.t.core, r.m.index, op, r.pr.wOld, r.pr.wNew, vOld, vNew);
    ApplyThenComplete(p, r.t, r.m.mtype, r.m.locate, r.m.index, op, r.pr.wOld, r.pr.wNew);
  }

  // ---- one edge ----

  /** The book registers after an edge, by state. */
  lemma {:induction false} ArrivingBook(p: Params, r: Regs, i: In)
    requires Sound(p) && RegsShaped(p, r) && |i.beat.data| == p.bytes
    requires r.st.W0? || r.st.TS? || r.st.BODY? || r.st.WAIT? || r.st.SWAP?
    ensures Edge(p, r, i).t == r.t && !InPipeline(Edge(p, r, i).st) && !Edge(p, r, i).st.INVAL?
  {
    hide ProbeAdvance, NxRecv, Resolve, JoinedRef, ArmOld, ArmNew, ArmsOld, ArmsNew, NextApply, NextEmitC, TailStep,
         BodyWords, RunsNeeded, ReadsTable;
  }

  lemma {:induction false} PipelineBook(p: Params, r: Regs, i: In)
    requires Sound(p) && RegsShaped(p, r) && |i.beat.data| == p.bytes && InTail(r.st)
    ensures
      var s := Edge(p, r, i);
      && (s.st, s.t) == TailStep(p, r.st, r.t, r.m.index) && s.m == r.m
      && InPipeline(s.st)
  {
    hide ProbeAdvance, TailStep, NxRecv, NextW0, NextTs, NextBody, NextApply, NextEmitC, SwapNext;
  }

  lemma {:induction false} SwapKeepsTail(p: Params, q: Regs, before: Probe)
    requires Sound(p) && RegsShaped(p, q)
    ensures SwapNext(p, q, before).t == q.t && SwapNext(p, q, before).out == q.out
    ensures !InPipeline(SwapNext(p, q, before).st) && !SwapNext(p, q, before).st.INVAL?
  {
  }

  lemma {:induction false} ApplyBook(p: Params, r: Regs, i: In)
    requires Sound(p) && RegsShaped(p, r) && |i.beat.data| == p.bytes && r.st.APPLY?
    ensures
      var s := Edge(p, r, i);
      && s.t == (if r.m.bad then r.t else AfterApply(p, r).1)
      && (if Retires(p, r) then !InPipeline(s.st) && !s.st.INVAL?
          else s.st == AfterApply(p, r).0 && s.m == r.m && InPipeline(s.st))
  {
    hide ProbeAdvance, ApplyTail, NxRecv, SwapNext, DecodeOp, Edge, Retain;
    EdgeIs(p, r, i);
    var q := r.(pr := ProbeAdvance(p, r.pr, r.t.core.mem, true), out := Retain(r.out, i));
    SwapKeepsTail(p, if r.m.bad then q else q.(t := AfterApply(p, r).1), r.pr);
  }

  lemma {:induction false} EmitBook(p: Params, r: Regs, i: In)
    requires Sound(p) && RegsShaped(p, r) && |i.beat.data| == p.bytes && r.st.EMITC?
    ensures
      var s := Edge(p, r, i);
      var (core, e) := EmitResult(p, r.t, r.m.locate, r.m.index);
      if Retires(p, r) then
        && !InPipeline(s.st) && !s.st.INVAL?
        && s.t == (if r.t.emitOk then r.t.(core := core) else r.t)
        && s.out == (if r.t.emitOk then Out(true, true, e) else Retain(r.out, i))
      else s.st == r.st && s.t == r.t && s.m == r.m && s.out == Retain(r.out, i)
  {
    hide ProbeAdvance, NxRecv, SwapNext, EmitResult, Edge, Retain;
    EdgeIs(p, r, i);
    var q := r.(pr := ProbeAdvance(p, r.pr, r.t.core.mem, false), out := Retain(r.out, i));
    var (core, e) := EmitResult(p, r.t, r.m.locate, r.m.index);
    SwapKeepsTail(p, if r.t.emitOk then q.(t := r.t.(core := core), out := Out(true, true, e)) else q, r.pr);
  }

  /** The outputs change only by retention, except when an event is published. */
  lemma {:induction false} OtherOut(p: Params, r: Regs, i: In)
    requires Sound(p) && RegsShaped(p, r) && |i.beat.data| == p.bytes && !r.st.EMITC?
    ensures Edge(p, r, i).out == Retain(r.out, i)
  {
    hide ProbeAdvance, NxRecv, Resolve, JoinedRef, ArmOld, ArmNew, ArmsOld, ArmsNew, NextEmitC, TailStep, BodyWords,
         RunsNeeded, ReadsTable, ApplyTail, DecodeOp, RefWords;
  }

  /** The stream's history across an edge: the same records, and one more finished
      when the message in flight retires. */
  predicate Moves(p: Params, c: Config, d: Config)
    requires Sound(p) && ConfigShaped(p, c) && ConfigShaped(p, d)
  {
    && c.x.ok && d.x.ok && RecvInv(p, c.r, c.x) && RecvInv(p, d.r, d.x)
    && Finished(d.r, d.x) == Finished(c.r, c.x) + (if Retires(p, c.r) then 1 else 0)
    && |c.x.done| <= |d.x.done| && d.x.done[..|c.x.done|] == c.x.done
  }

  lemma {:induction false} TickMoves(p: Params, c: Config, i: In)
    requires Sound(p) && ConfigShaped(p, c) && |i.beat.data| == p.bytes
    requires c.x.ok && RecvInv(p, c.r, c.x) && Tick(p, c, i).x.ok
    ensures Moves(p, c, Tick(p, c, i))
  {
    if Arriving(c.r.st) {
      ArrivingStep(p, c, i);
    } else {
      HoldingStep(p, c, i);
    }
  }

  /** The history when nothing retires, and when the record in flight does. */
  lemma {:induction false} HistoryMoves(p: Params, c: Config, d: Config)
    requires Sound(p) && ConfigShaped(p, c) && ConfigShaped(p, d) && Moves(p, c, d)
    ensures
      var k := Finished(c.r, c.x);
      && History(p, d.x, k) == History(p, c.x, k)
      && (k < |c.x.done| ==> d.x.done[k] == c.x.done[k])
      && (Retires(p, c.r) ==>
            var (b, e) := Process(p, History(p, c.x, k).0, c.x.done[k]);
            var es := History(p, c.x, k).1;
            History(p, d.x, k + 1) == (b, if e.Some? then es + [e.value] else es))
  {
    var k := Finished(c.r, c.x);
    HistoryFrame(p, c.x, d.x, k);
    if Retires(p, c.r) {
      HistoryStep(p, d.x, k);
    }
  }

  /** What the record in flight comes to, once it retires. */
  lemma {:induction false} RetiringRecord(p: Params, r: Regs, x: Rx)
    requires Sound(p) && RegsShaped(p, r) && RxShaped(p, x) && x.ok && RecvInv(p, r, x)
    requires EngineInv(p, r) && BookInv(p, r, x) && Retires(p, r)
    ensures
      var res := Process(p, History(p, x, Finished(r, x)).0, x.done[Finished(r, x)]);
      if r.st.EMITC? && r.t.emitOk then
        res == (EmitResult(p, r.t, r.m.locate, r.m.index).0, Some(EmitResult(p, r.t, r.m.locate, r.m.index).1))
      else res == (if r.st.APPLY? && !r.m.bad then AfterApply(p, r).1.core else r.t.core, None)
  {
    if r.st.APPLY? && !r.m.bad {
      ApplyMeansProcess(p, r, x);
    }
  }

  /** The invalidation walks the whole table before the first message. */
  lemma {:induction false} InvalBook(p: Params, c: Config, i: In)
    requires Sound(p) && ConfigShaped(p, c) && |i.beat.data| == p.bytes && Inv(p, c) && c.r.st.INVAL?
    ensures Tick(p, c, i).x.ok && BookInv(p, Tick(p, c, i).r, Tick(p, c, i).x)
  {
    hide ProbeAdvance, EngineInv, EventsInv, Process;
    var d := Tick(p, c, i);
    if d.r.st.W0? {
      assert d.r.t.core.mem == Reset(p).mem;
      assert d.r.t.core == Reset(p);
    }
  }

  /** The book registers stay in step: a message that leaves at the apply state, */
  lemma {:induction false} BookLeaves(p: Params, c: Config, i: In)
    requires Sound(p) && ConfigShaped(p, c) && |i.beat.data| == p.bytes && Inv(p, c)
    requires Tick(p, c, i).x.ok && Moves(p, c, Tick(p, c, i)) && c.r.st.APPLY? && Retires(p, c.r)
    ensures BookInv(p, Tick(p, c, i).r, Tick(p, c, i).x)
  {
    hide Edge, RxStep, TailStep, Process, RunRecords, EventsInv, EmitResult, ApplyTail, Finish, Reset, ProbeInv,
         RecvInv, Engine.Shaped, Complete;
    HistoryMoves(p, c, Tick(p, c, i));
    ApplyBook(p, c.r, i);
    RetiringRecord(p, c.r, c.x);
  }

  lemma {:induction false} GoesOn(p: Params, c: Config, i: In)
    requires Sound(p) && ConfigShaped(p, c) && |i.beat.data| == p.bytes && Inv(p, c)
    requires Tick(p, c, i).x.ok && Moves(p, c, Tick(p, c, i)) && c.r.st.APPLY? && !Retires(p, c.r)
    ensures
      var d, k := Tick(p, c, i), Finished(c.r, c.x);
      && !c.r.m.bad && d.r.st == AfterApply(p, c.r).0 && d.r.t == AfterApply(p, c.r).1 && d.r.m == c.r.m
         && InPipeline(d.r.st)
      && Finished(d.r, d.x) == k < |c.x.done| && d.x.done[k] == c.x.done[k] == InFlight(p, c.r, c.x)
      && History(p, d.x, k).0 == c.r.t.core
  {
    hide Edge, RxStep, TailStep, Process, RunRecords, EventsInv, ApplyTail, EngineInv, RecvInv, Complete, AfterApply;
    HistoryMoves(p, c, Tick(p, c, i));
    ApplyBook(p, c.r, i);
  }

  /** one that goes on from there, */
  lemma {:induction false} BookApply(p: Params, c: Config, i: In)
    requires Sound(p) && ConfigShaped(p, c) && |i.beat.data| == p.bytes && Inv(p, c)
    requires Tick(p, c, i).x.ok && Moves(p, c, Tick(p, c, i)) && c.r.st.APPLY? && !Retires(p, c.r)
    ensures BookInv(p, Tick(p, c, i).r, Tick(p, c, i).x)
  {
    hide Tick, Process, EventsInv, AfterApply, EngineInv, RecvInv, Complete, Retires, History, InFlight;
    GoesOn(p, c, i);
    ApplyMeansProcess(p, c.r, c.x);
  }

  /** in the pipeline, */
  lemma {:induction false} BookPipeline(p: Params, c: Config, i: In)
    requires Sound(p) && ConfigShaped(p, c) && |i.beat.data| == p.bytes && Inv(p, c)
    requires Tick(p, c, i).x.ok && Moves(p, c, Tick(p, c, i))
    requires InPipeline(c.r.st)
    ensures BookInv(p, Tick(p, c, i).r, Tick(p, c, i).x)
  {
    hide Edge, RxStep, TailStep, Process, RunRecords, EventsInv, EmitResult, ApplyTail, Finish, Reset, ProbeInv,
         RecvInv;
    HistoryMoves(p, c, Tick(p, c, i));
    if InTail(c.r.st) {
      PipelineBook(p, c.r, i);
    } else {
      EmitBook(p, c.r, i);
      if Retires(p, c.r) {
        RetiringRecord(p, c.r, c.x);
      }
    }
  }

  /** and in every state. */
  lemma {:induction false} BookStep(p: Params, c: Config, i: In)
    requires Sound(p) && ConfigShaped(p, c) && |i.beat.data| == p.bytes && Inv(p, c)
    requires Tick(p, c, i).x.ok && Moves(p, c, Tick(p, c, i))
    ensures BookInv(p, Tick(p, c, i).r, Tick(p, c, i).x)
  {
    hide Edge, RxStep, TailStep, Process, RunRecords, EventsInv, EmitResult, ApplyTail, Finish, Reset, ProbeInv,
         RecvInv;
    if c.r.st.INVAL? {
      InvalBook(p, c, i);
    } else if c.r.st.APPLY? {
      if Retires(p, c.r) {
        BookLeaves(p, c, i);
      } else {
        BookApply(p, c, i);
      }
    } else if InPipeline(c.r.st) {
      BookPipeline(p, c, i);
    } else {
      HistoryMoves(p, c, Tick(p, c, i));
      ArrivingBook(p, c.r, i);
    }
  }

  /** A handshake moves the offered event to the delivered ones. */
  lemma {:induction false} Handshake(sent: seq<Event>, valid: bool, ready: bool, e: Event)
    ensures (if valid && ready then sent + [e] else sent) + Pending(valid && !ready, e) == sent + Pending(valid, e)
  {
  }

  /** Nothing published: each channel only hands over what it offers. */
  lemma {:induction false} EventsKept(p: Params, c: Config, i: In)
    requires Sound(p) && ConfigShaped(p, c) && |i.beat.data| == p.bytes && c.x.ok && RecvInv(p, c.r, c.x)
             && EventsInv(p, c)
    requires Tick(p, c, i).x.ok && Moves(p, c, Tick(p, c, i))
    requires Tick(p, c, i).r.out == Retain(c.r.out, i)
    requires
      var d := Tick(p, c, i);
      History(p, d.x, Finished(d.r, d.x)).1 == History(p, c.x, Finished(c.r, c.x)).1
    ensures EventsInv(p, Tick(p, c, i))
  {
    Handshake(c.bbos, c.r.out.bboValid, i.bboReady, c.r.out.event);
    Handshake(c.depths, c.r.out.depthValid, i.depthReady, c.r.out.event);
  }

  /** A publication finds both channels free. */
  lemma {:induction false} EventsPublished(p: Params, c: Config, i: In, e: Event)
    requires Sound(p) && ConfigShaped(p, c) && |i.beat.data| == p.bytes && c.x.ok && RecvInv(p, c.r, c.x)
             && EventsInv(p, c)
    requires Tick(p, c, i).x.ok && Moves(p, c, Tick(p, c, i))
    requires Tick(p, c, i).r.out == Out(true, true, e) && !c.r.out.bboValid && !c.r.out.depthValid
    requires
      var d := Tick(p, c, i);
      History(p, d.x, Finished(d.r, d.x)).1 == History(p, c.x, Finished(c.r, c.x)).1 + [e]
    ensures EventsInv(p, Tick(p, c, i))
  {
  }

  /** Every event is published once and delivered once on each channel. */
  lemma {:induction false} EventsStep(p: Params, c: Config, i: In)
    requires Sound(p) && ConfigShaped(p, c) && |i.beat.data| == p.bytes && Inv(p, c)
    requires Tick(p, c, i).x.ok && Moves(p, c, Tick(p, c, i))
    ensures EventsInv(p, Tick(p, c, i))
  {
    HistoryMoves(p, c, Tick(p, c, i));
    if Retires(p, c.r) {
      RetiringRecord(p, c.r, c.x);
    }
    if c.r.st.EMITC? {
      EmitBook(p, c.r, i);
      if Retires(p, c.r) && c.r.t.emitOk {
        EventsPublished(p, c, i, EmitResult(p, c.r.t, c.r.m.locate, c.r.m.index).1);
      } else {
        EventsKept(p, c, i);
      }
    } else {
      OtherOut(p, c.r, i);
      EventsKept(p, c, i);
    }
  }

  /** One cycle, any input, any ready lines. */
  lemma {:induction false} InvStep(p: Params, c: Config, i: In)
    requires Sound(p) && ConfigShaped(p, c) && |i.beat.data| == p.bytes && Inv(p, c)
    requires Tick(p, c, i).x.ok
    ensures Inv(p, Tick(p, c, i))
  {
    TickMoves(p, c, i);
    EngineStep(p, c, i);
    BookStep(p, c, i);
    EventsStep(p, c, i);
  }
}
