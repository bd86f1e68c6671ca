// Every run of the clocked book: whatever the input and ready schedules, the
// machine stays exactly in step with processing the received records one by
// one, and delivers each event once.
module ClockSafety {
  import opened Bytes
  import opened OrderTable
  import opened Records
  import opened Engine
  import opened Receiver
  import opened Clock
  import opened ProbeSafety
  import opened Overlap

  /** The machine with the history of its pins: what it has accepted, and what each
      output channel has delivered. */
  datatype Config = Config(r: Regs, x: Rx, bbos: seq<Event>, depths: seq<Event>)

  predicate ConfigShaped(p: Params, c: Config)
    requires Sound(p)
  {
    RegsShaped(p, c.r) && RxShaped(p, c.x)
  }

  predicate Accepts(r: Regs, i: In) {
    i.tvalid && TReady(r)
  }

  /** One clock cycle seen from outside. */
  function Tick(p: Params, c: Config, i: In): (d: Config)
    requires Sound(p) && ConfigShaped(p, c) && |i.beat.data| == p.bytes
    ensures ConfigShaped(p, d)
  {
    Config(
      Edge(p, c.r, i),
      if Accepts(c.r, i) then RxStep(p, c.x, i.beat) else c.x,
      if c.r.out.bboValid && i.bboReady then c.bbos + [c.r.out.event] else c.bbos,
      if c.r.out.depthValid && i.depthReady then c.depths + [c.r.out.event] else c.depths)
  }

  /** The message in the tail leaves at this edge. */
  predicate Retires(p: Params, r: Regs)
    requires Sound(p) && RegsShaped(p, r)
  {
    || (r.st.APPLY? && (r.m.bad || AfterApply(p, r).0.SWAP?))
    || (r.st.EMITC? && (!r.t.emitOk || (!r.out.bboValid && !r.out.depthValid)))
  }

  function AfterApply(p: Params, r: Regs): (a: (St, Tail))
    requires Sound(p) && RegsShaped(p, r)
    ensures TailShaped(p, a.1)
  {
    ApplyTail(p, r.t, r.m.mtype, r.m.index, DecodeOp(p, r.m.mtype, r.m.acc), r.pr.wOld, r.pr.wNew)
  }

  // ---- receivers ----

  /** A body word joins the message in flight; the last one completes its record. */
  lemma {:induction false} ArrivingBody(p: Params, c: Config, i: In)
    requires Sound(p) && ConfigShaped(p, c) && |i.beat.data| == p.bytes
    requires c.x.ok && RecvInv(p, c.r, c.x) && c.r.st.BODY?
    ensures
      var d := Tick(p, c, i);
      d.x.ok ==>
        && RecvInv(p, d.r, d.x) && Finished(d.r, d.x) == Finished(c.r, c.x)
        && |c.x.done| <= |d.x.done| && d.x.done[..|c.x.done|] == c.x.done
  {
    hide ProbeAdvance, BodyProbe, JoinedRef, FindLocate, RunsNeeded, ReadsTable, Resolve, ArmsOld, ArmsNew,
         TailShaped, ProbeShaped;
    hide NextW0, NextTs, NextApply, NextEmitC, TailStep, SwapNext, NxRecv;
    var d := Tick(p, c, i);
    if i.tvalid && d.x.ok {
      var acc := c.r.m.acc;
      assert acc[c.r.bi := i.beat.data][..c.r.bi + 1] == acc[..c.r.bi] + [i.beat.data];
    }
  }

  /** The states that receive the message in flight. */
  lemma {:induction false} ArrivingStep(p: Params, c: Config, i: In)
    requires Sound(p) && ConfigShaped(p, c) && |i.beat.data| == p.bytes
    requires c.x.ok && RecvInv(p, c.r, c.x) && Arriving(c.r.st)
    ensures
      var d := Tick(p, c, i);
      d.x.ok ==>
        && RecvInv(p, d.r, d.x) && Finished(d.r, d.x) == Finished(c.r, c.x)
        && |c.x.done| <= |d.x.done| && d.x.done[..|c.x.done|] == c.x.done
  {
    hide ProbeAdvance, FindLocate, NextBody, NextApply, NextEmitC, TailStep, SwapNext, NxRecv, TailShaped, ProbeShaped;
    if c.r.st.BODY? {
      ArrivingBody(p, c, i);
    }
  }

  /** Where the receivers stand after an edge that does not hand the next message over. */
  predicate FeedsOnly(p: Params, r: Regs, i: In, s: Regs)
    requires Sound(p) && RegsShaped(p, r) && |i.beat.data| == p.bytes
  {
    && s.m == r.m
    && s.f == (if Accepts(r, i) then NxRecv(p, r.f, i.beat) else r.f)
    && !Arriving(s.st)
  }

  /** Waiting, and the pipeline states: the next message is fed, nothing leaves. */
  lemma {:induction false} PipelineEdge(p: Params, r: Regs, i: In)
    requires Sound(p) && RegsShaped(p, r) && |i.beat.data| == p.bytes
    requires r.st.WAIT? || InTail(r.st)
    ensures FeedsOnly(p, r, i, Edge(p, r, i)) && !Edge(p, r, i).st.SWAP? && !Retires(p, r)
  {
    hide ProbeAdvance, TailStep, NxRecv, NextW0, NextTs, NextBody, NextApply, NextEmitC, SwapNext;
  }

  predicate Hands(p: Params, r: Regs, i: In)
    requires Sound(p) && RegsShaped(p, r)
  {
    r.st.SWAP? || (Retires(p, r) && !Accepts(r, i))
  }

  /** The hand-over reads only the receivers' registers and the engine before the edge. */
  lemma {:induction false} SwapFront(p: Params, q: Regs, r: Regs, before: Probe)
    requires Sound(p) && RegsShaped(p, q) && RegsShaped(p, r) && q.m == r.m && q.f == r.f
    requires q.bi == r.bi && q.nbody == r.nbody && q.hrem == r.hrem
    ensures SameFront(SwapNext(p, q, before), SwapNext(p, r, before))
  {
    hide JoinedRef, ReadsTable, BodyWords;
  }

  /** Leaving the tail either feeds and waits one cycle, or hands over. */
  lemma {:induction false} LeaveEdge(p: Params, q: Regs, r: Regs, i: In)
    requires Sound(p) && RegsShaped(p, q) && RegsShaped(p, r) && |i.beat.data| == p.bytes && SameFront(q, r)
    requires r.st.APPLY? || r.st.EMITC?
    ensures
      var s := LeaveTail(p, q, i, r.pr);
      if Accepts(r, i) then FeedsOnly(p, r, i, s) && s.st.SWAP? else SameFront(s, SwapNext(p, r, r.pr))
  {
    SwapFront(p, q, r, r.pr);
  }

  /** The edge in the two states that may retire a message. */
  lemma {:induction false} EdgeIs(p: Params, r: Regs, i: In)
    requires Sound(p) && RegsShaped(p, r) && |i.beat.data| == p.bytes
    ensures
      var q := r.(pr := ProbeAdvance(p, r.pr, r.t.core.mem, r.st.APPLY? || r.st.UADD?), out := Retain(r.out, i));
      && (r.st.APPLY? ==> Edge(p, r, i) == NextApply(p, q, i, r.pr))
      && (r.st.EMITC? ==> Edge(p, r, i) == NextEmitC(p, q, i, r.pr, r.out))
  {
    hide NextApply, NextEmitC, ProbeAdvance, Retain, NextW0, NextTs, NextBody, TailStep, SwapNext;
  }

  lemma {:induction false} ApplyEdge(p: Params, r: Regs, i: In)
    requires Sound(p) && RegsShaped(p, r) && |i.beat.data| == p.bytes
    requires r.st.APPLY?
    ensures
      var s := Edge(p, r, i);
      if Hands(p, r, i) then SameFront(s, SwapNext(p, r, r.pr))
      else FeedsOnly(p, r, i, s) && (s.st.SWAP? <==> Retires(p, r))
  {
    hide Edge, SwapNext, NxRecv, ApplyTail, DecodeOp, ProbeAdvance, LeaveTail, Retain;
    var q := r.(pr := ProbeAdvance(p, r.pr, r.t.core.mem, true), out := Retain(r.out, i));
    EdgeIs(p, r, i);
    if r.m.bad {
      LeaveEdge(p, q, r, i);
    } else {
      LeaveEdge(p, q.(t := AfterApply(p, r).1), r, i);
    }
  }

  lemma {:induction false} EmitEdge(p: Params, r: Regs, i: In)
    requires Sound(p) && RegsShaped(p, r) && |i.beat.data| == p.bytes
    requires r.st.EMITC?
    ensures
      var s := Edge(p, r, i);
      if Hands(p, r, i) then SameFront(s, SwapNext(p, r, r.pr))
      else FeedsOnly(p, r, i, s) && (s.st.SWAP? <==> Retires(p, r))
  {
    hide Edge, SwapNext, NxRecv, EmitResult, ProbeAdvance, LeaveTail, Retain, ApplyTail;
    var q := r.(pr := ProbeAdvance(p, r.pr, r.t.core.mem, false), out := Retain(r.out, i));
    EdgeIs(p, r, i);
    if r.t.emitOk && Retires(p, r) {
      var (core, e) := EmitResult(p, r.t, r.m.locate, r.m.index);
      LeaveEdge(p, q.(t := r.t.(core := core), out := Out(true, true, e)), r, i);
    } else if Retires(p, r) {
      LeaveEdge(p, q, r, i);
    }
  }

  lemma {:induction false} SwapEdge(p: Params, r: Regs, i: In)
    requires Sound(p) && RegsShaped(p, r) && |i.beat.data| == p.bytes
    requires r.st.SWAP?
    ensures SameFront(Edge(p, r, i), SwapNext(p, r, r.pr))
  {
    hide ProbeAdvance, SwapNext;
    SwapFront(p, r.(pr := ProbeAdvance(p, r.pr, r.t.core.mem, false), out := Retain(r.out, i)), r, r.pr);
  }

  /** A holding state feeds the next message's receiver, or hands over. */
  lemma {:induction false} HoldingEdge(p: Params, r: Regs, i: In)
    requires Sound(p) && RegsShaped(p, r) && |i.beat.data| == p.bytes
    requires !Arriving(r.st)
    ensures
      var s := Edge(p, r, i);
      if Hands(p, r, i) then SameFront(s, SwapNext(p, r, r.pr))
      else FeedsOnly(p, r, i, s) && (s.st.SWAP? <==> Retires(p, r))
  {
    hide Edge, NxRecv, SwapNext, SameFront;
    match r.st
    case APPLY => ApplyEdge(p, r, i);
    case EMITC => EmitEdge(p, r, i);
    case SWAP => SwapEdge(p, r, i);
    case _ => PipelineEdge(p, r, i);
  }

  /** Feeding keeps the receivers in step with the stream. */
  lemma {:induction false} FeedKeepsRecv(p: Params, r: Regs, x: Rx, i: In, s: Regs)
    requires Sound(p) && RegsShaped(p, r) && RxShaped(p, x) && |i.beat.data| == p.bytes
    requires x.ok && RecvInv(p, r, x) && !Arriving(r.st) && !r.st.SWAP? && FeedsOnly(p, r, i, s)
    ensures
      var y := if Accepts(r, i) then RxStep(p, x, i.beat) else x;
      y.ok ==>
        && RecvInv(p, s, y)
        && Finished(s, y) == Finished(r, x) + (if s.st.SWAP? then 1 else 0)
        && |x.done| <= |y.done| && y.done[..|x.done|] == x.done
  {
    if Accepts(r, i) {
      NxRecvMatches(p, r.f, x, i.beat);
    }
  }

  /** The receivers' registers decide the receivers' invariant. */
  lemma {:induction false} FrontDecides(p: Params, r: Regs, s: Regs, x: Rx)
    requires Sound(p) && SameFront(r, s) && RecvInv(p, r, x)
    ensures RecvInv(p, s, x) && Finished(s, x) == Finished(r, x)
  {
  }

  /** What a message in or behind the apply state counts for. */
  lemma {:induction false} HandOverCounts(p: Params, r: Regs, x: Rx, i: In)
    requires Sound(p) && RegsShaped(p, r) && RxShaped(p, x) && x.ok && RecvInv(p, r, x) && !Arriving(r.st)
             && Hands(p, r, i)
    ensures FeedMatches(r.f, x) && |x.done| >= (if r.f.nx.done then 1 else 0) && !Accepts(r, i)
    ensures |x.done| - (if r.f.nx.done then 1 else 0) == Finished(r, x) + (if Retires(p, r) then 1 else 0)
  {
  }

  /** The states behind a complete message: the next one is received meanwhile. */
  lemma {:induction false} HoldingStep(p: Params, c: Config, i: In)
    requires Sound(p) && ConfigShaped(p, c) && |i.beat.data| == p.bytes
    requires c.x.ok && RecvInv(p, c.r, c.x) && !Arriving(c.r.st)
    ensures
      var d := Tick(p, c, i);
      d.x.ok ==>
        && RecvInv(p, d.r, d.x)
        && Finished(d.r, d.x) == Finished(c.r, c.x) + (if Retires(p, c.r) then 1 else 0)
        && |c.x.done| <= |d.x.done| && d.x.done[..|c.x.done|] == c.x.done
  {
    hide Edge, NxRecv, SwapNext, RxStep, Retires, RecvInv, Accepts;
    HoldingEdge(p, c.r, i);
    if Hands(p, c.r, i) {
      HandOverCounts(p, c.r, c.x, i);
      SwapMatches(p, c.r, c.x, c.r.pr);
      FrontDecides(p, SwapNext(p, c.r, c.r.pr), Edge(p, c.r, i), c.x);
    } else {
      FeedKeepsRecv(p, c.r, c.x, i, Tick(p, c, i).r);
    }
  }

  // ---- the probe engine in its surroundings ----

  /** The runs the message in flight has armed. */
  function GoalAt(p: Params, r: Regs): Goal
    requires Sound(p) && RegsShaped(p, r)
  {
    match r.st
    case BODY => GoalOf(p, r.m.mtype, r.m.acc, r.bi)
    case WAIT => GoalOf(p, r.m.mtype, r.m.acc, 16)
    case APPLY => GoalOf(p, r.m.mtype, r.m.acc, 16)
    case _ => NO_GOAL
  }

  /** The engine serves the message in flight; it is quiet before the table is written. */
  ghost predicate EngineInv(p: Params, r: Regs)
    requires Sound(p) && RegsShaped(p, r)
  {
    && ProbeInv(p, r.pr, r.t.core.mem, GoalAt(p, r))
    && (r.st.APPLY? || r.st.UADD? ==> Quiet(r.pr))
    && (r.st.WAIT? ==> ReadsTable(r.m.mtype))
  }

  /** The engine registers after a body word: advanced, then armed. */
  function BodyProbe(p: Params, before: Probe, advanced: Probe, t: byte, acc: seq<Word>, bi: nat): Probe
    requires Sound(p) && |acc| == 16
  {
    var pr1 := if ArmsOld(p, t, bi) then ArmOld(p, advanced, t, acc).(anchor := before.runs, needed := RunsNeeded(t))
      else advanced;
    if ArmsNew(p, t, bi) then ArmNew(p, pr1, acc) else pr1
  }

  /** The word that completes a reference arms its run; other words arm nothing. */
  lemma {:induction false} BodyArms(p: Params, pr: Probe, mem: seq<Entry>, t: byte, acc: seq<Word>, bi: nat, w: Word)
    requires Sound(p) && |mem| == p.nslot && ProbeShaped(p, pr) && bi < |acc| == 16
    requires ProbeInv(p, pr, mem, GoalOf(p, t, acc, bi))
    ensures
      var s := BodyProbe(p, pr, ProbeAdvance(p, pr, mem, false), t, acc[bi := w], bi);
      ProbeShaped(p, s) && ProbeInv(p, s, mem, GoalOf(p, t, acc[bi := w], bi + 1))
  {
    var g, h := GoalOf(p, t, acc, bi), GoalOf(p, t, acc[bi := w], bi + 1);
    var a := ProbeAdvance(p, pr, mem, false);
    ProbeStep(p, pr, mem, g);
    LaterWords(p, acc, bi, w);
    if ArmsOld(p, t, bi) {
      assert Quiet(pr);
      QuietStep(p, pr, mem, false);
      ArmOldKeeps(p, a, mem, t, acc[bi := w], bi + 1);
      SameGoalSameInv(p, ArmOld(p, a, t, acc[bi := w]).(anchor := a.runs, needed := RunsNeeded(t)), mem,
                      GoalOf(p, t, acc[bi := w], bi + 1).(forNew := false), h);
    } else if ArmsNew(p, t, bi) {
      ArmNewKeeps(p, a, mem, acc[bi := w], g);
      SameGoalSameInv(p, ArmNew(p, a, acc[bi := w]), mem,
                      g.(forNew := true, newRef := JoinedRef(p, acc[bi := w], 1)), h);
    } else {
      SameGoalSameInv(p, a, mem, g, h);
    }
  }

  /** A record whose body is complete has armed every run it needs. */
  lemma {:induction false} CompleteBodyArms(p: Params, t: byte, acc: seq<Word>, n: nat)
    requires Sound(p) && n <= |acc| == 16 && CoversFields(p, t, n)
    ensures SameGoal(GoalOf(p, t, acc, n), GoalOf(p, t, acc, 16))
    ensures GoalOf(p, t, acc, 16).needed == (if t == TYPE_U then 2 else if ReadsTable(t) then 1 else 0)
  {
  }

  /** The hand-over arms exactly the runs whose words are already in. */
  lemma {:induction false} SwapArms(p: Params, before: Probe, advanced: Probe, nx: Next, mem: seq<Entry>, n: nat)
    requires Sound(p) && |mem| == p.nslot && ProbeShaped(p, before) && ProbeShaped(p, advanced)
    requires Quiet(before) && Quiet(advanced) && advanced.runs == before.runs
    requires |nx.msg.acc| == 16 && n <= 16 && n == (if nx.done then nx.bi + 1 else nx.bi)
    requires nx.done ==> CoversFields(p, nx.msg.mtype, n)
    ensures
      var s := HandOver(p, before, advanced, nx);
      ProbeShaped(p, s) && ProbeInv(p, s, mem, GoalOf(p, nx.msg.mtype, nx.msg.acc, n))
  {
    hide OnTrack, Lookup, JoinedRef;
    var t, acc := nx.msg.mtype, nx.msg.acc;
    var g := GoalOf(p, t, acc, n);
    if nx.done {
      CompleteBodyArms(p, t, acc, n);
    }
    if g.forOld {
      var pr1 := ArmOld(p, advanced, t, acc).(anchor := before.runs, needed := RunsNeeded(t));
      ArmOldKeeps(p, advanced, mem, t, acc, n);
      if g.forNew {
        ArmNewKeeps(p, pr1, mem, acc, g.(forNew := false));
      }
    }
  }

  /** With no run armed, a quiet engine serves, and a serving engine is quiet. */
  lemma {:induction false} QuietServes(p: Params, s: Regs)
    requires Sound(p) && RegsShaped(p, s) && !s.st.WAIT? && !GoalAt(p, s).forOld && !GoalAt(p, s).forNew
    ensures EngineInv(p, s) <==> Quiet(s.pr)
  {
    hide OnTrack, Lookup;
  }

  /** What the hand-over of a message with body words does to the registers the engine serves. */
  lemma {:induction false} SwapBody(p: Params, q: Regs, before: Probe)
    requires Sound(p) && RegsShaped(p, q) && ProbeShaped(p, before) && Quiet(before) && Quiet(q.pr)
    requires q.f.nx.active && q.f.nx.st == 2
    ensures
      var nx, s := q.f.nx, SwapNext(p, q, before);
      && s.m == nx.msg && s.t == q.t && s.pr == HandOver(p, before, q.pr, nx)
      && (if nx.done then s.st == (if ReadsTable(nx.msg.mtype) then WAIT else APPLY) else s.st.BODY? && s.bi == nx.bi)
      && (s.st.APPLY? ==> Quiet(s.pr))
  {
    hide JoinedRef;
  }

  /** After a hand-over the engine serves the message now in flight. */
  lemma {:induction false} SwapEngine(p: Params, q: Regs, x: Rx, before: Probe)
    requires Sound(p) && RegsShaped(p, q) && RxShaped(p, x) && x.ok && FeedMatches(q.f, x)
    requires ProbeShaped(p, before) && Quiet(before) && Quiet(q.pr) && q.pr.runs == before.runs
    ensures EngineInv(p, SwapNext(p, q, before))
  {
    var nx, mem := q.f.nx, q.t.core.mem;
    var s := SwapNext(p, q, before);
    if nx.active && nx.st == 2 {
      hide ProbeInv, JoinedRef, CoversFields, SwapNext, HandOver, GoalOf, SameGoal, ReadsTable;
      var n := if nx.done then nx.bi + 1 else nx.bi;
      SwapArms(p, before, q.pr, nx, mem, n);
      SwapBody(p, q, before);
      if nx.done {
        CompleteBodyArms(p, nx.msg.mtype, nx.msg.acc, n);
        SameGoalSameInv(p, s.pr, mem, GoalOf(p, nx.msg.mtype, nx.msg.acc, n), GoalAt(p, s));
      }
    } else {
      hide ProbeInv, JoinedRef, CoversFields, EngineInv;
      QuietServes(p, s);
    }
  }

  /** The states with no run armed leave the engine quiet. */
  lemma {:induction false} QuietEdge(p: Params, r: Regs, i: In)
    requires Sound(p) && RegsShaped(p, r) && |i.beat.data| == p.bytes && EngineInv(p, r)
    requires r.st.INVAL? || r.st.W0? || (r.st.TS? && r.bi == 0) || InTail(r.st)
    ensures EngineInv(p, Edge(p, r, i))
  {
    hide TailStep, EvaluateEntry, Resolve, BodyWords, EngineInv, ProbeAdvance, NextApply, NextEmitC, SwapNext,
         NextBody, ProbeInv, NxRecv;
    QuietServes(p, r);
    QuietStep(p, r.pr, r.t.core.mem, r.st.UADD?);
    QuietServes(p, Edge(p, r, i));
  }

  /** What a body word does to the registers that matter to the engine. */
  predicate TakesWord(p: Params, r: Regs, i: In, s: Regs)
    requires Sound(p) && RegsShaped(p, r) && |i.beat.data| == p.bytes
  {
    var acc := r.m.acc[r.bi := i.beat.data];
    var busy := r.pr.pendOld || r.pr.pendNew || Active(r.pr) || ArmsOld(p, r.m.mtype, r.bi)
      || ArmsNew(p, r.m.mtype, r.bi);
    && s.pr == BodyProbe(p, r.pr, ProbeAdvance(p, r.pr, r.t.core.mem, false), r.m.mtype, acc, r.bi)
    && s.t == r.t && s.m == r.m.(acc := acc)
    && s.st == (if i.beat.last || r.nbody <= 1 then (if busy then WAIT else APPLY) else BODY)
    && (s.st.BODY? ==> s.bi == (r.bi + 1) % 16)
  }

  lemma {:induction false} BodyTakesWord(p: Params, r: Regs, i: In)
    requires Sound(p) && RegsShaped(p, r) && |i.beat.data| == p.bytes && r.st.BODY? && i.tvalid
    ensures TakesWord(p, r, i, Edge(p, r, i))
  {
  }

  /** No message reaches the apply state with a run pending, active or just armed. */
  lemma {:induction false} LastWordQuiet(p: Params, pr: Probe, mem: seq<Entry>, t: byte, acc: seq<Word>, bi: nat)
    requires Sound(p) && |mem| == p.nslot && ProbeShaped(p, pr) && Quiet(pr) && |acc| == 16
    requires !ArmsOld(p, t, bi) && !ArmsNew(p, t, bi)
    ensures Quiet(BodyProbe(p, pr, ProbeAdvance(p, pr, mem, false), t, acc, bi))
  {
    QuietStep(p, pr, mem, false);
  }

  /** A well-formed body ends on its last word, with every field in. */
  lemma {:induction false} BodyCounts(p: Params, r: Regs, x: Rx, i: In)
    requires Sound(p) && RegsShaped(p, r) && RxShaped(p, x) && |i.beat.data| == p.bytes
    requires r.st.BODY? && x.ok && RecvInv(p, r, x) && RxStep(p, x, i.beat).ok
    ensures if i.beat.last || r.nbody <= 1 then CoversFields(p, r.m.mtype, r.bi + 1) else r.bi < 15
  {
  }

  /** A body word that is not the last. */
  lemma {:induction false} BodyGoesOn(p: Params, r: Regs, i: In, s: Regs)
    requires Sound(p) && RegsShaped(p, r) && |i.beat.data| == p.bytes && EngineInv(p, r)
    requires r.st.BODY? && RegsShaped(p, s) && TakesWord(p, r, i, s) && s.st.BODY? && r.bi < 15
    ensures EngineInv(p, s)
  {
    hide ProbeInv, BodyProbe, GoalOf, ReadsTable, ProbeShaped;
    BodyArms(p, r.pr, r.t.core.mem, r.m.mtype, r.m.acc, r.bi, i.beat.data);
  }

  /** The last body word: on to the apply state only when every run is over. */
  lemma {:induction false} BodyEnds(p: Params, r: Regs, i: In, s: Regs)
    requires Sound(p) && RegsShaped(p, r) && |i.beat.data| == p.bytes && EngineInv(p, r)
    requires r.st.BODY? && RegsShaped(p, s) && TakesWord(p, r, i, s) && !s.st.BODY?
    requires CoversFields(p, r.m.mtype, r.bi + 1)
    ensures EngineInv(p, s)
  {
    hide ProbeInv, BodyProbe, GoalOf, SameGoal, CoversFields;
    var mem, t, acc := r.t.core.mem, r.m.mtype, s.m.acc;
    BodyArms(p, r.pr, mem, t, r.m.acc, r.bi, i.beat.data);
    CompleteBodyArms(p, t, acc, r.bi + 1);
    SameGoalSameInv(p, s.pr, mem, GoalOf(p, t, acc, r.bi + 1), GoalOf(p, t, acc, 16));
    if s.st.APPLY? {
      LastWordQuiet(p, r.pr, mem, t, acc, r.bi);
    } else {
      BusyReadsTable(p, r.pr, mem, t, r.m.acc, r.bi);
    }
  }

  /** Only a message that reads the table ever has a run. */
  lemma {:induction false} BusyReadsTable(p: Params, pr: Probe, mem: seq<Entry>, t: byte, acc: seq<Word>, n: nat)
    requires Sound(p) && |mem| == p.nslot && ProbeShaped(p, pr) && n < |acc| == 16
    requires ProbeInv(p, pr, mem, GoalOf(p, t, acc, n))
    ensures pr.pendOld || pr.pendNew || Active(pr) || ArmsOld(p, t, n) || ArmsNew(p, t, n) ==> ReadsTable(t)
  {
  }

  lemma {:induction false} BodyEdge(p: Params, r: Regs, x: Rx, i: In)
    requires Sound(p) && RegsShaped(p, r) && RxShaped(p, x) && |i.beat.data| == p.bytes && EngineInv(p, r)
    requires r.st.BODY? && x.ok && RecvInv(p, r, x)
    requires Accepts(r, i) ==> RxStep(p, x, i.beat).ok
    ensures EngineInv(p, Edge(p, r, i))
  {
    var s := Edge(p, r, i);
    if i.tvalid {
      BodyTakesWord(p, r, i);
      BodyCounts(p, r, x, i);
      if s.st.BODY? {
        BodyGoesOn(p, r, i, s);
      } else {
        BodyEnds(p, r, i, s);
      }
    } else {
      ProbeStep(p, r.pr, r.t.core.mem, GoalAt(p, r));
    }
  }

  /** Waiting ends only when every armed run has ended. */
  lemma {:induction false} WaitEdge(p: Params, r: Regs, x: Rx, i: In)
    requires Sound(p) && RegsShaped(p, r) && RxShaped(p, x) && |i.beat.data| == p.bytes && EngineInv(p, r)
    requires r.st.WAIT? && x.ok && RecvInv(p, r, x)
    ensures EngineInv(p, Edge(p, r, i))
  {
    var g := GoalAt(p, r);
    ProbeStep(p, r.pr, r.t.core.mem, g);
    if ProbeDone(r.pr) {
      CompleteBodyArms(p, r.m.mtype, r.m.acc, |x.done[Finished(r, x)].words|);
      DoneMeansQuiet(p, r.pr, r.t.core.mem, g);
      QuietStep(p, r.pr, r.t.core.mem, false);
    }
  }

  /** Leaving the tail hands a quiet engine over. */
  lemma {:induction false} LeaveEngine(p: Params, q: Regs, x: Rx, i: In, before: Probe)
    requires Sound(p) && RegsShaped(p, q) && RxShaped(p, x) && x.ok && FeedMatches(q.f, x) && |i.beat.data| == p.bytes
    requires ProbeShaped(p, before) && Quiet(before) && Quiet(q.pr) && q.pr.runs == before.runs
    ensures EngineInv(p, LeaveTail(p, q, i, before))
  {
    hide EngineInv, SwapNext, NxRecv;
    SwapEngine(p, q, x, before);
    if i.tvalid && !q.f.nx.done {
      QuietServes(p, LeaveTail(p, q, i, before));
    }
  }

  lemma {:induction false} ApplyEngine(p: Params, r: Regs, x: Rx, i: In)
    requires Sound(p) && RegsShaped(p, r) && RxShaped(p, x) && |i.beat.data| == p.bytes && EngineInv(p, r)
    requires r.st.APPLY? && x.ok && RecvInv(p, r, x)
    ensures EngineInv(p, Edge(p, r, i))
  {
    hide ProbeInv, ProbeAdvance, SwapNext, NxRecv, ApplyTail, DecodeOp, GoalOf;
    QuietStep(p, r.pr, r.t.core.mem, true);
    var q := r.(pr := ProbeAdvance(p, r.pr, r.t.core.mem, true), out := Retain(r.out, i));
    LeaveEngine(p, if r.m.bad then q else q.(t := AfterApply(p, r).1), x, i, r.pr);
    if !Retires(p, r) {
      QuietServes(p, Edge(p, r, i));
    }
  }

  lemma {:induction false} EmitEngine(p: Params, r: Regs, x: Rx, i: In)
    requires Sound(p) && RegsShaped(p, r) && RxShaped(p, x) && |i.beat.data| == p.bytes && EngineInv(p, r)
    requires r.st.EMITC? && x.ok && RecvInv(p, r, x)
    ensures EngineInv(p, Edge(p, r, i))
  {
    hide EngineInv, ProbeAdvance, SwapNext, NxRecv, EmitResult;
    QuietServes(p, r);
    QuietStep(p, r.pr, r.t.core.mem, false);
    var q := r.(pr := ProbeAdvance(p, r.pr, r.t.core.mem, false), out := Retain(r.out, i));
    if r.t.emitOk {
      var (core, e) := EmitResult(p, r.t, r.m.locate, r.m.index);
      LeaveEngine(p, q.(t := r.t.(core := core), out := Out(true, true, e)), x, i, r.pr);
    } else {
      LeaveEngine(p, q, x, i, r.pr);
    }
    if !Retires(p, r) {
      QuietServes(p, Edge(p, r, i));
    }
  }

  /** Every edge keeps the engine on the runs of the message in flight, and quiet
      whenever the table is about to be written. */
  lemma {:induction false} EngineStep(p: Params, c: Config, i: In)
    requires Sound(p) && ConfigShaped(p, c) && |i.beat.data| == p.bytes
    requires c.x.ok && RecvInv(p, c.r, c.x) && EngineInv(p, c.r)
    ensures Tick(p, c, i).x.ok ==> EngineInv(p, Tick(p, c, i).r)
  {
    if Tick(p, c, i).x.ok {
      match c.r.st
      case BODY => BodyEdge(p, c.r, c.x, i);
      case WAIT => WaitEdge(p, c.r, c.x, i);
      case APPLY => ApplyEngine(p, c.r, c.x, i);
      case EMITC => EmitEngine(p, c.r, c.x, i);
      case SWAP =>
        QuietServes(p, c.r);
        QuietStep(p, c.r.pr, c.r.t.core.mem, false);
        var q := c.r.(pr := ProbeAdvance(p, c.r.pr, c.r.t.core.mem, false), out := Retain(c.r.out, i));
        SwapEngine(p, q, c.x, c.r.pr);
      case _ => QuietEdge(p, c.r, i);
    }
  }
}
