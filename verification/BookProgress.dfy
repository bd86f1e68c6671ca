// The clocked book on a whole stream: whatever is left to do gets less in every
// cycle in which the producer offers its next word and both consumers are ready,
// so that in the end every event of the stream has been delivered.
module BookProgress {
  import opened Records
  import opened Engine
  import opened Receiver
  import opened Clock
  import opened Overlap
  import opened ClockSafety
  import opened ClockRefinement
  import opened Runs
  import opened Progress
  import opened Chain

  // ---- what is left to do between two words ----

  /** The most cycles a message is held. */
  function MostHeld(p: Params): nat {
    3 * p.probe + 23
  }

  /** Cycles left, at most, until the machine is between messages or in the middle of one
      that arrives, when no further word comes. */
  function StepsLeft(p: Params, r: Regs): nat
    requires Sound(p) && RegsShaped(p, r)
  {
    if r.st.INVAL? then p.nslot - r.inval
    else if Arriving(r.st) then 0
    else if r.st.SWAP? then (if r.f.nx.done then MostHeld(p) + 2 else 1)
    else CyclesLeft(p, r) + if r.f.nx.done then MostHeld(p) + 2 else 1
  }

  function Offering(r: Regs): nat {
    if r.out.bboValid || r.out.depthValid then 1 else 0
  }

  /** The same, with the event still on offer. */
  function Busy(p: Params, r: Regs): nat
    requires Sound(p) && RegsShaped(p, r)
  {
    2 * StepsLeft(p, r) + Offering(r)
  }

  function MostBusy(p: Params): nat {
    2 * (p.nslot + 2 * MostHeld(p) + 2) + 1
  }

  /** Nothing in work: only a word can move the machine on. */
  predicate Resting(r: Regs) {
    Arriving(r.st) && !r.st.INVAL? && !r.out.bboValid && !r.out.depthValid
  }

  lemma {:induction false} HeldBound(p: Params, r: Regs)
    requires Sound(p) && RegsShaped(p, r)
    ensures CyclesLeft(p, r) <= MostHeld(p)
  {
    hide TailShaped;
  }

  lemma {:induction false} BusyBound(p: Params, r: Regs)
    requires Sound(p) && RegsShaped(p, r)
    ensures Busy(p, r) <= MostBusy(p)
  {
    hide CyclesLeft, TailShaped, ProbeShaped;
    HeldBound(p, r);
  }

  /** After a hand-over: a complete message is held, or one arrives. */
  lemma {:induction false} AfterSwap(p: Params, r: Regs, before: Probe, s: Regs)
    requires Sound(p) && RegsShaped(p, r) && RegsShaped(p, s) && SameFront(s, SwapNext(p, r, before))
    ensures !s.st.INVAL? && StepsLeft(p, s) <= if r.f.nx.done then MostHeld(p) + 1 else 0
  {
    hide HandOver, CyclesLeft, TailShaped, ProbeShaped;
    HeldBound(p, s);
  }

  lemma {:induction false} InvalFalls(p: Params, r: Regs, i: In)
    requires Sound(p) && RegsShaped(p, r) && |i.beat.data| == p.bytes && r.st.INVAL?
    ensures StepsLeft(p, Edge(p, r, i)) < StepsLeft(p, r)
  {
    hide ProbeAdvance, NextW0, NextTs, NextBody, NextApply, NextEmitC, TailStep, SwapNext, CyclesLeft;
  }

  lemma {:induction false} ArrivingWaits(p: Params, r: Regs, i: In)
    requires Sound(p) && RegsShaped(p, r) && |i.beat.data| == p.bytes && Arriving(r.st) && !r.st.INVAL? && !i.tvalid
    ensures Edge(p, r, i).st == r.st && StepsLeft(p, Edge(p, r, i)) == 0
  {
    hide ProbeAdvance, NextApply, NextEmitC, TailStep, SwapNext, CyclesLeft;
  }

  /** Without a word, a cycle with ready consumers leaves fewer steps, unless only a word
      can move the machine on. */
  lemma {:induction false} StepsFall(p: Params, c: Config, i: In)
    requires Sound(p) && ConfigShaped(p, c) && |i.beat.data| == p.bytes && Inv(p, c)
    requires i.bboReady && i.depthReady && !Accepts(c.r, i)
    ensures
      var s := Edge(p, c.r, i);
      StepsLeft(p, s) < StepsLeft(p, c.r) || (Arriving(c.r.st) && !c.r.st.INVAL? && s.st == c.r.st
                                              && StepsLeft(p, s) == 0)
  {
    hide Edge, SwapNext, NxRecv, CyclesLeft, EngineInv, BookInv, EventsInv, RecvInv, Retires, TailShaped, ProbeShaped;
    var s := Edge(p, c.r, i);
    if c.r.st.INVAL? {
      InvalFalls(p, c.r, i);
    } else if Arriving(c.r.st) {
      AcceptsWhileArriving(p, c);
      ArrivingWaits(p, c.r, i);
    } else {
      HoldingEdge(p, c.r, i);
      if Hands(p, c.r, i) {
        AfterSwap(p, c.r, c.r.pr, s);
      } else {
        HeldShortens(p, c, i);
      }
    }
  }

  /** The same with the event on offer: everything falls until the machine rests. */
  lemma {:induction false} BusyFalls(p: Params, c: Config, i: In)
    requires Sound(p) && ConfigShaped(p, c) && |i.beat.data| == p.bytes && Inv(p, c)
    requires i.bboReady && i.depthReady && !Accepts(c.r, i)
    ensures Busy(p, Edge(p, c.r, i)) < Busy(p, c.r) || Resting(c.r)
  {
    hide Edge, StepsLeft, Inv;
    StepsFall(p, c, i);
    if Arriving(c.r.st) {
      OtherOut(p, c.r, i);
    }
  }

  // ---- a stream ----

  /** Along the run the producer offers the words one after the other, each until it is
      taken, and both consumers are ready. */
  predicate EagerRun(p: Params, c: Config, words: seq<Beat>, ins: seq<In>)
    requires Sound(p) && ConfigShaped(p, c) && Wired(p, ins)
    decreases |ins|
  {
    ins == [] ||
    (&& ins[0].bboReady && ins[0].depthReady
     && (if words != [] then ins[0].tvalid && ins[0].beat == words[0] else !ins[0].tvalid)
     && EagerRun(p, Tick(p, c, ins[0]), if Accepts(c.r, ins[0]) then words[1..] else words, ins[1..]))
  }

  /** Words to take and everything to be done with them. */
  function Work(p: Params, r: Regs, words: seq<Beat>): nat
    requires Sound(p) && RegsShaped(p, r)
  {
    |words| * (MostBusy(p) + 1) + Busy(p, r)
  }

  lemma {:induction false} WorkFalls(p: Params, c: Config, words: seq<Beat>, i: In)
    requires Sound(p) && ConfigShaped(p, c) && |i.beat.data| == p.bytes && Inv(p, c) && !(Resting(c.r) && words == [])
    requires i.bboReady && i.depthReady && (words != [] ==> i.tvalid && i.beat == words[0])
             && (words == [] ==> !i.tvalid)
    ensures Work(p, Edge(p, c.r, i), if Accepts(c.r, i) then words[1..] else words) < Work(p, c.r, words)
  {
    hide Edge, Busy, EngineInv, BookInv, EventsInv, RecvInv, MostBusy;
    BusyBound(p, Edge(p, c.r, i));
    if Accepts(c.r, i) {
      assert |words| * (MostBusy(p) + 1) == |words[1..]| * (MostBusy(p) + 1) + (MostBusy(p) + 1);
    } else {
      if Arriving(c.r.st) && !c.r.st.INVAL? {
        AcceptsWhileArriving(p, c);
      }
      BusyFalls(p, c, i);
    }
  }

  lemma {:induction false} WorkPositive(p: Params, r: Regs, words: seq<Beat>)
    requires Sound(p) && RegsShaped(p, r) && !(Resting(r) && words == [])
    ensures Work(p, r, words) > 0
  {
    hide CyclesLeft, MostBusy;
    if words != [] {
      AtLeastOnce(|words|, MostBusy(p) + 1);
    } else {
      BusyPositive(p, r);
    }
  }

  lemma {:induction false} BusyPositive(p: Params, r: Regs)
    requires Sound(p) && RegsShaped(p, r) && !Resting(r)
    ensures Busy(p, r) > 0
  {
    hide CyclesLeft;
  }

  lemma {:induction false} AtLeastOnce(a: nat, b: nat)
    requires a > 0
    ensures a * b >= b
  {
    assert a * b == b + (a - 1) * b;
  }

  /** A resting machine between messages has finished every record and delivered every
      event. */
  lemma {:induction false} RestingDone(p: Params, c: Config)
    requires Sound(p) && ConfigShaped(p, c) && Inv(p, c) && Resting(c.r) && c.x.part.Nothing?
    ensures Finished(c.r, c.x) == |c.x.done| && c.bbos == c.depths == RunRecords(p, c.x.done).1
  {
    hide EngineInv, BookInv, RunRecords;
    assert c.x.done[..|c.x.done|] == c.x.done;
    assert c.bbos + [] == c.bbos && c.depths + [] == c.depths;
  }

  /** The first word of a stream, and the rest. */
  lemma {:induction false} ReceiveFirst(p: Params, x: Rx, words: seq<Beat>)
    requires Sound(p) && RxShaped(p, x) && WiredBeats(p, words) && words != []
    ensures WiredBeats(p, words[1..])
    ensures Receive(p, x, words) == Receive(p, RxStep(p, x, words[0]), words[1..])
  {
    hide RxStep, RxShaped;
    ReceiveAppend(p, x, [words[0]], words[1..]);
    assert [words[0]] + words[1..] == words && [words[0]][..0] == [];
    assert Receive(p, x, [words[0]]) == RxStep(p, x, words[0]);
  }

  /** From every reachable configuration, as many eager cycles as there is work left take
      every word of a stream of whole records, finish every record, and deliver every
      event on both channels. */
  lemma {:induction false} EverythingPublished(p: Params, c: Config, words: seq<Beat>, ins: seq<In>) returns (n: nat)
    requires Sound(p) && ConfigShaped(p, c) && Inv(p, c) && Wired(p, ins) && WiredBeats(p, words)
    requires Receive(p, c.x, words).ok && Receive(p, c.x, words).part.Nothing?
    requires EagerRun(p, c, words, ins) && |ins| >= Work(p, c.r, words)
    ensures n <= |ins| && n <= Work(p, c.r, words)
    ensures
      var d := Continue(p, c, ins[..n]);
      && Inv(p, d) && Resting(d.r) && d.x == Receive(p, c.x, words) && Finished(d.r, d.x) == |d.x.done|
      && d.bbos == d.depths == RunRecords(p, d.x.done).1
    decreases |ins|
  {
    hide Edge, RxStep, EngineInv, RecvInv, BookInv, EventsInv, Work, RunRecords, Receive, Process;
    if Resting(c.r) && words == [] {
      n := 0;
      NothingMore(p, c.x);
      assert words == [];
      RestingDone(p, c);
    } else {
      WorkPositive(p, c.r, words);
      var d, more := Tick(p, c, ins[0]), if Accepts(c.r, ins[0]) then words[1..] else words;
      WorkFalls(p, c, words, ins[0]);
      if Accepts(c.r, ins[0]) {
        ReceiveFirst(p, c.x, words);
      }
      ReceiveGrows(p, d.x, more);
      InvStep(p, c, ins[0]);
      var k := EverythingPublished(p, d, more, ins[1..]);
      n := k + 1;
      assert ins[..n][1..] == ins[1..][..k];
    }
  }

  lemma {:induction false} NothingMore(p: Params, x: Rx)
    requires Sound(p) && RxShaped(p, x)
    ensures Receive(p, x, []) == x
  {
  }
}
