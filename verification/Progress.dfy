// The clocked book never stalls on its own: a complete message leaves the
// machine within a bounded number of cycles in which the consumer is ready.
module Progress {
  import opened Records
  import opened Engine
  import opened Receiver
  import opened Clock
  import opened TailMeaning
  import opened ProbeSafety
  import opened Overlap
  import opened ClockSafety
  import opened ClockRefinement
  import opened Runs
  import LevelPipeline

  /** Cycles left, at most, until the message held by the machine retires. */
  function CyclesLeft(p: Params, r: Regs): (n: nat)
    requires Sound(p) && RegsShaped(p, r)
    ensures !Arriving(r.st) ==> n > 0
  {
    if Arriving(r.st) then 0
    else if r.st.WAIT? then 14 + WaitLeft(p, r.pr)
    else if r.st.APPLY? then 13
    else if r.st.EMITC? then (if r.out.bboValid || r.out.depthValid then 2 else 1)
    else 2 + StatesLeft(r.st, r.t.uadd)
  }

  /** Waiting for the probe always ends: whatever arrives and whatever the consumer
      does, either the message is applied next or the wait has become shorter. */
  lemma {:induction false} WaitShortens(p: Params, c: Config, i: In)
    requires Sound(p) && ConfigShaped(p, c) && |i.beat.data| == p.bytes && Inv(p, c) && c.r.st.WAIT?
    ensures
      var d := Tick(p, c, i);
      d.r.st.APPLY? || (d.r.st.WAIT? && WaitLeft(p, d.r.pr) < WaitLeft(p, c.r.pr))
  {
    var pr := c.r.pr;
    if Quiet(pr) {
      CompleteBodyArms(p, c.r.m.mtype, c.r.m.acc, |c.x.done[Finished(c.r, c.x)].words|);
    } else {
      WaitFalls(p, pr, c.r.t.core.mem);
    }
  }

  lemma {:induction false} PipelineShortens(p: Params, st: St, t: Tail, index: nat)
    requires Sound(p) && TailShaped(p, t) && index < p.nsym && InTail(st)
    ensures
      var (st', t') := TailStep(p, st, t, index);
      StatesLeft(st', t'.uadd) < StatesLeft(st, t.uadd)
  {
    hide LevelPipeline.DecodeA, LevelPipeline.DecodeB, LevelPipeline.Materialize, LaunchOn, WithHalf;
  }

  /** Publishing waits only for a channel that still offers its last event. */
  lemma {:induction false} EmitShortens(p: Params, r: Regs, i: In)
    requires Sound(p) && RegsShaped(p, r) && |i.beat.data| == p.bytes && r.st.EMITC? && i.bboReady && i.depthReady
    ensures Retires(p, r) || (Edge(p, r, i).st.EMITC? && CyclesLeft(p, Edge(p, r, i)) == 1 && CyclesLeft(p, r) == 2)
  {
    hide Edge;
    EmitBook(p, r, i);
  }

  lemma {:induction false} ApplyShortens(p: Params, r: Regs, i: In)
    requires Sound(p) && RegsShaped(p, r) && |i.beat.data| == p.bytes && r.st.APPLY?
    ensures
      var s := Edge(p, r, i);
      Retires(p, r) || (!Arriving(s.st) && !s.st.SWAP? && CyclesLeft(p, s) < CyclesLeft(p, r))
  {
    hide Edge, ApplyTail, SideShaped, Engine.Shaped, Retires, WaitLeft, TailShaped, DecodeOp;
    ApplyBook(p, r, i);
  }

  /** Every other state behind a complete message gets closer to the end in each
      cycle, once the consumer is ready. */
  lemma {:induction false} TailShortens(p: Params, r: Regs, i: In)
    requires Sound(p) && RegsShaped(p, r) && |i.beat.data| == p.bytes
    requires !Arriving(r.st) && !r.st.WAIT? && !r.st.SWAP? && i.bboReady && i.depthReady
    ensures
      var s := Edge(p, r, i);
      Retires(p, r) || (!Arriving(s.st) && !s.st.SWAP? && CyclesLeft(p, s) < CyclesLeft(p, r))
  {
    hide Edge, EmitResult, TailStep, Engine.Shaped, Retires;
    if r.st.APPLY? {
      ApplyShortens(p, r, i);
    } else if r.st.EMITC? {
      EmitShortens(p, r, i);
    } else {
      PipelineBook(p, r, i);
      PipelineShortens(p, r.st, r.t, r.m.index);
    }
  }

  /** A message held by the machine gets closer to its end in each cycle. */
  lemma {:induction false} HeldShortens(p: Params, c: Config, i: In)
    requires Sound(p) && ConfigShaped(p, c) && |i.beat.data| == p.bytes && Inv(p, c)
    requires !Arriving(c.r.st) && !c.r.st.SWAP? && i.bboReady && i.depthReady
    ensures
      var d := Tick(p, c, i);
      Retires(p, c.r) || (!Arriving(d.r.st) && !d.r.st.SWAP? && CyclesLeft(p, d.r) < CyclesLeft(p, c.r))
  {
    hide Edge, RxStep, Inv, Retires, WaitLeft;
    if c.r.st.WAIT? {
      WaitShortens(p, c, i);
    } else {
      TailShortens(p, c.r, i);
    }
  }

  /** The machine run on from a configuration. */
  function Continue(p: Params, c: Config, ins: seq<In>): (d: Config)
    requires Sound(p) && ConfigShaped(p, c) && Wired(p, ins)
    ensures ConfigShaped(p, d)
    decreases |ins|
  {
    if ins == [] then c else Continue(p, Tick(p, c, ins[0]), ins[1..])
  }

  lemma {:induction false} OkBefore(p: Params, c: Config, ins: seq<In>)
    requires Sound(p) && ConfigShaped(p, c) && Wired(p, ins) && Continue(p, c, ins).x.ok
    ensures c.x.ok
    decreases |ins|
  {
    hide Edge;
    if ins != [] {
      OkBefore(p, Tick(p, c, ins[0]), ins[1..]);
    }
  }

  predicate AllReady(ins: seq<In>) {
    forall i :: 0 <= i < |ins| ==> ins[i].bboReady && ins[i].depthReady
  }

  /** A message held by the machine retires within CyclesLeft cycles of a ready
      consumer, whatever the producer does meanwhile. */
  lemma {:induction false} MessageRetires(p: Params, c: Config, ins: seq<In>) returns (j: nat)
    requires Sound(p) && ConfigShaped(p, c) && Inv(p, c) && !Arriving(c.r.st) && !c.r.st.SWAP?
    requires Wired(p, ins) && AllReady(ins) && |ins| >= CyclesLeft(p, c.r) && Continue(p, c, ins).x.ok
    ensures 0 < j <= CyclesLeft(p, c.r)
    ensures
      var d := Continue(p, c, ins[..j]);
      Inv(p, d) && Finished(d.r, d.x) == Finished(c.r, c.x) + 1
    decreases CyclesLeft(p, c.r)
  {
    hide Edge, RxStep, EngineInv, RecvInv, BookInv, EventsInv, Retires, CyclesLeft, TailStep, Finish;
    var d := Tick(p, c, ins[0]);
    OkBefore(p, d, ins[1..]);
    InvStep(p, c, ins[0]);
    TickMoves(p, c, ins[0]);
    assert ins[..1][1..] == [];
    HeldShortens(p, c, ins[0]);
    if Retires(p, c.r) {
      j := 1;
    } else {
      var k := MessageRetires(p, d, ins[1..]);
      j := k + 1;
      assert ins[..j][1..] == ins[1..][..k];
    }
  }

  /** Between messages, and while one arrives, the machine accepts every word offered. */
  lemma {:induction false} AcceptsWhileArriving(p: Params, c: Config)
    requires Sound(p) && ConfigShaped(p, c) && Inv(p, c) && Arriving(c.r.st) && !c.r.st.INVAL?
    ensures TReady(c.r)
  {
    hide EngineInv, EventsInv;
  }
}
