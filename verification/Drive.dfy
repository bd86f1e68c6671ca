// The devices switched on and driven for any number of cycles: what is proved of
// runs, said of the fields and arrays of a device and of what has passed its pins.
module Drive {
  import opened FirstHot
  import opened Records
  import opened Engine
  import opened Receiver
  import opened Overlap
  import opened ClockRefinement
  import opened BookRefinement
  import opened Runs
  import opened Itch
  import opened Chain
  import Market
  import OrderTable
  import Clock
  import ClockSafety
  import TableRuns
  import WireToBook
  import BookDevice
  import Parser = ItchParser
  import ParserSafety
  import ParserRuns
  import ParserDevice
  import Passthrough
  import PassthroughRuns
  import PassthroughDevice

  // ---- the order book ----

  /** The book after reset, driven cycle by cycle: the words it has taken, and the events
      its two channels have delivered. While the words are well formed, its table array
      stores the rows of the finished records; as long as these are tame, both channels
      have delivered or still offer the reference's events, and between messages its
      arrays and registers mirror the reference's state. */
  method DriveBook(p: Params, logCap: nat, ins: seq<Clock.In>)
    returns (d: BookDevice.Device, taken: seq<Beat>, bbos: seq<Event>, depths: seq<Event>)
    requires Sound(p) && 0 < logCap && p.cap == Pow2(logCap) && Runs.Wired(p, ins)
    ensures fresh(d) && d.p == p && d.Valid() && WiredBeats(p, taken)
    ensures
      var r, x := d.Registers(), Receive(p, RxReset(p), taken);
      x.ok ==>
        && 0 <= Finished(r, x) <= |x.done| && GoodRecords(p, x.done[..Finished(r, x)])
        && var rs := x.done[..Finished(r, x)];
           var resting := !d.st.INVAL? && !InPipeline(d.st);
           && (resting ==> OrderTable.Stores(d.oMem[..], p.probe, TableRuns.RowsAfter(p, rs)))
           && (TameRun(p, rs) ==>
                 && TraceAgrees(p, rs, bbos + Pending(d.out.bboValid, d.out.event))
                 && TraceAgrees(p, rs, depths + Pending(d.out.depthValid, d.out.event))
                 && (resting ==> Mirrors(p, x.locs, x.cnt, d.TheCore(), Market.Run(MessagesOf(p, rs)).0)))
  {
    hide Run, Clock.Edge, BookDevice.AtReset, RxStep, Receive, RxReset, WireToBook.Taken, BookDevice.Device.Built;
    d := new BookDevice.Device(p, logCap);
    ghost var r0 := d.Registers();
    taken, bbos, depths := [], [], [];
    NothingDriven(p, r0);
    var n := 0;
    while n < |ins|
      invariant 0 <= n <= |ins| && fresh(d) && fresh(d.oMem) && fresh(d.levels) && fresh(d.levels.price)
                && fresh(d.levels.qty)
      invariant d.p == p && d.Valid() && Runs.Wired(p, ins[..n])
      invariant d.Registers() == Run(p, r0, ins[..n]).r && taken == WireToBook.Taken(p, r0, ins[..n])
      invariant bbos == Run(p, r0, ins[..n]).bbos && depths == Run(p, r0, ins[..n]).depths
    {
      var i := ins[n];
      CycleDriven(p, r0, ins, n);
      if i.tvalid && d.Ready() {
        taken := taken + [i.beat];
      }
      if d.out.bboValid && i.bboReady {
        bbos := bbos + [d.out.event];
      }
      if d.out.depthValid && i.depthReady {
        depths := depths + [d.out.event];
      }
      d.Cycle(i);
      n := n + 1;
    }
    assert ins[..n] == ins;
    BookDriven(p, r0, ins);
  }

  lemma {:induction false} NothingDriven(p: Params, r0: Clock.Regs)
    requires Sound(p) && Runs.IsReset(p, r0)
    ensures forall ins: seq<Clock.In> :: ins == [] ==>
              Runs.Wired(p, ins) && Run(p, r0, ins) == ClockSafety.Config(r0, RxReset(p), [], [])
                && WireToBook.Taken(p, r0, ins) == []
  {
  }

  lemma {:induction false} CycleDriven(p: Params, r0: Clock.Regs, ins: seq<Clock.In>, n: nat)
    requires Sound(p) && Runs.IsReset(p, r0) && Runs.Wired(p, ins) && n < |ins|
    ensures Runs.Wired(p, ins[..n]) && Runs.Wired(p, ins[..n + 1])
    ensures Run(p, r0, ins[..n + 1]) == ClockSafety.Tick(p, Run(p, r0, ins[..n]), ins[n])
    ensures WireToBook.Taken(p, r0, ins[..n + 1]) ==
            WireToBook.Taken(p, r0, ins[..n])
              + if ClockSafety.Accepts(Run(p, r0, ins[..n]).r, ins[n]) then [ins[n].beat] else []
  {
    hide ClockSafety.Tick;
    assert ins[..n + 1][..n] == ins[..n];
  }

  /** What is proved of runs, put together. */
  lemma {:induction false} BookDriven(p: Params, r0: Clock.Regs, ins: seq<Clock.In>)
    requires Sound(p) && Runs.IsReset(p, r0) && Runs.Wired(p, ins)
    ensures
      var c := Run(p, r0, ins);
      && c.x == Receive(p, RxReset(p), WireToBook.Taken(p, r0, ins))
      && (c.x.ok ==>
            && 0 <= Finished(c.r, c.x) <= |c.x.done| && GoodRecords(p, c.x.done[..Finished(c.r, c.x)])
            && var rs := c.x.done[..Finished(c.r, c.x)];
               var resting := !c.r.st.INVAL? && !InPipeline(c.r.st);
               && (resting ==> OrderTable.Stores(c.r.t.core.mem, p.probe, TableRuns.RowsAfter(p, rs)))
               && (TameRun(p, rs) ==>
                     && TraceAgrees(p, rs, c.bbos + Pending(c.r.out.bboValid, c.r.out.event))
                     && TraceAgrees(p, rs, c.depths + Pending(c.r.out.depthValid, c.r.out.event))
                     && (resting ==> Mirrors(p, c.x.locs, c.x.cnt, c.r.t.core, Market.Run(MessagesOf(p, rs)).0))))
  {
    hide Run, Receive, RxReset, WireToBook.Taken, TraceAgrees, Mirrors, TameRun, OrderTable.Stores,
         TableRuns.RowsAfter, MessagesOf;
    var c := Run(p, r0, ins);
    WireToBook.TakenIsReceived(p, r0, ins);
    if c.x.ok {
      DeliversHistory(p, r0, ins);
      TableRuns.ClockedTable(p, r0, ins);
      if TameRun(p, c.x.done[..Finished(c.r, c.x)]) {
        ClockedBookRefinesReference(p, r0, ins);
      }
    }
  }

  // ---- the parser ----

  /** The parser after reset, driven cycle by cycle: what it has taken, the words it has
      put out, and the gap pulses. For whatever datagrams the bytes taken cut: the words
      are a beginning of the records of their messages, exactly the closed datagrams'
      between datagrams, and the pulses are the gaps among the headers taken. */
  method DriveParser(z: Parser.Sizes, ins: seq<Parser.In>)
    returns (d: ParserDevice.Device, taken: ParserSafety.Accepted, sent: seq<Beat>, gaps: nat)
    requires Parser.Fit(z) && ParserRuns.AllWellKept(z, ins)
    ensures fresh(d) && d.z == z
    ensures forall ds :: ParserSafety.AllFit(z, ds) && ParserSafety.Conforms(ds, taken) ==>
                           ParserDriven(z, ds, d.Registers(), taken, sent, gaps)
  {
    hide ParserRuns.Run, Parser.Edge, ParserSafety.Conforms, ParserSafety.AllFit, ParserDriven;
    d := new ParserDevice.Device(z);
    ghost var r0 := d.Registers();
    taken, sent, gaps := ParserRuns.NOTHING, [], 0;
    NothingParsed(z, r0);
    var n := 0;
    while n < |ins|
      invariant 0 <= n <= |ins| && fresh(d) && d.z == z && ParserRuns.AllWellKept(z, ins[..n])
      invariant ParserSafety.Config(d.Registers(), taken, sent, gaps) == ParserRuns.Run(z, r0, ins[..n])
      invariant Parser.RegsShaped(z, d.Registers())
    {
      var i := ins[n];
      CycleParsed(z, r0, ins, n);
      if i.tvalid && d.Ready(|i.bytes|) {
        taken := ParserSafety.Accept(taken, i.bytes, i.last);
      }
      if d.b.valid && i.mready {
        sent := sent + [d.b.out];
      }
      ParserSafety.EdgeShaped(z, d.Registers(), i);
      d.Cycle(i);
      if d.b.gap {
        gaps := gaps + 1;
      }
      n := n + 1;
    }
    assert ins[..n] == ins;
    forall ds | ParserSafety.AllFit(z, ds) && ParserSafety.Conforms(ds, taken)
      ensures ParserDriven(z, ds, d.Registers(), taken, sent, gaps)
    {
      RunDriven(z, ds, r0, ins);
    }
  }

  ghost predicate ParserDriven(z: Parser.Sizes, ds: seq<Datagram>, r: Parser.Regs, taken: ParserSafety.Accepted,
                               sent: seq<Beat>, gaps: nat)
    requires Parser.Fit(z)
  {
    var k := ParserSafety.At(taken, r.eop);
    && 0 <= k <= |ds| && (r.st.HDR? || k < |ds|)
    && sent <= ParserSafety.StreamWords(z.p, ds, |ds|) && (r.st.HDR? ==> sent == ParserSafety.StreamWords(z.p, ds, k))
    && gaps == ParserSafety.GapCount(ds, if r.st.HDR? then k else k + 1)
    && (r.st.HDR? && k == |ds| && AllCanonical(AllMessages(ds)) ==>
        sent == StreamOf(z.p, RecordsOf(AllMessages(ds), 0)))
  }

  lemma {:induction false} NothingParsed(z: Parser.Sizes, r0: Parser.Regs)
    requires Parser.Fit(z)
    ensures forall ins: seq<Parser.In> :: ins == [] ==>
              ParserRuns.AllWellKept(z, ins) && ParserRuns.Run(z, r0, ins)
                == ParserSafety.Config(r0, ParserRuns.NOTHING, [], 0)
  {
  }

  lemma {:induction false} CycleParsed(z: Parser.Sizes, r0: Parser.Regs, ins: seq<Parser.In>, n: nat)
    requires Parser.Fit(z) && ParserRuns.AllWellKept(z, ins) && n < |ins|
    ensures ParserRuns.AllWellKept(z, ins[..n]) && ParserRuns.AllWellKept(z, ins[..n + 1])
    ensures ParserRuns.Run(z, r0, ins[..n + 1]) == ParserSafety.Tick(z, ParserRuns.Run(z, r0, ins[..n]), ins[n])
  {
    hide ParserSafety.Tick;
    assert ins[..n + 1][..n] == ins[..n];
  }

  lemma {:induction false} RunDriven(z: Parser.Sizes, ds: seq<Datagram>, r0: Parser.Regs, ins: seq<Parser.In>)
    requires Parser.Fit(z) && ParserSafety.AllFit(z, ds) && Parser.IsReset(r0) && ParserRuns.AllWellKept(z, ins)
    requires ParserSafety.Conforms(ds, ParserRuns.Run(z, r0, ins).a)
    ensures
      var c := ParserRuns.Run(z, r0, ins);
      ParserDriven(z, ds, c.r, c.a, c.sent, c.gaps)
  {
    hide ParserRuns.Run, ParserSafety.StreamWords, ParserSafety.GapCount, StreamOf, RecordsOf, Canonical,
         ParserSafety.Conforms;
    ParserRuns.ParserDelivers(z, ds, r0, ins);
    if AllCanonical(AllMessages(ds)) {
      ParserRuns.ParserIsOracle(z, ds, r0, ins);
    }
  }

  // ---- the passthrough path ----

  /** The passthrough path after reset, driven cycle by cycle: the words delivered are a
      beginning of the words of the messages' records, all of them once the path is idle,
      and the buffer array never holds more than it can. */
  method DrivePassthrough(ins: seq<Passthrough.In>)
    returns (d: PassthroughDevice.Device, all: seq<Passthrough.Captured>, sent: seq<Passthrough.Slot>)
    requires PassthroughRuns.GoodInputs(ins)
    ensures fresh(d) && d.mem.Length == Passthrough.DEPTH && d.cnt <= Passthrough.DEPTH
            && PassthroughRuns.AllComplete(all)
    ensures sent <= Passthrough.Output(all)
    ensures d.valid ==> sent + [d.shown] <= Passthrough.Output(all)
    ensures d.waiting == [] && d.cnt == 0 ==> sent == Passthrough.Output(all)
  {
    hide PassthroughRuns.Run, Passthrough.Edge, Passthrough.Output, PassthroughRuns.Inv, Passthrough.Complete;
    d := new PassthroughDevice.Device();
    ghost var r0 := d.Registers();
    all, sent := [], [];
    NothingPassed(r0);
    var n := 0;
    while n < |ins|
      invariant 0 <= n <= |ins| && fresh(d) && fresh(d.mem) && PassthroughRuns.GoodInputs(ins[..n])
      invariant PassthroughRuns.Config(d.Registers(), all, sent) == PassthroughRuns.Run(r0, ins[..n])
    {
      var i := ins[n];
      CyclePassed(r0, ins, n);
      PassedShape(PassthroughRuns.Run(r0, ins[..n]));
      if i.captured.Some? {
        all := all + [i.captured.value];
      }
      if d.valid && i.ready {
        sent := sent + [d.shown];
      }
      d.Cycle(i);
      n := n + 1;
    }
    assert ins[..n] == ins;
    PassedShape(PassthroughRuns.Run(r0, ins));
    PassthroughRuns.RecordsDelivered(r0, ins);
  }

  lemma {:induction false} NothingPassed(r0: Passthrough.Regs)
    requires Passthrough.IsReset(r0)
    ensures forall ins: seq<Passthrough.In> :: ins == [] ==>
              PassthroughRuns.GoodInputs(ins) && PassthroughRuns.Run(r0, ins) == PassthroughRuns.Config(r0, [], [])
  {
  }

  lemma {:induction false} CyclePassed(r0: Passthrough.Regs, ins: seq<Passthrough.In>, n: nat)
    requires Passthrough.IsReset(r0) && PassthroughRuns.GoodInputs(ins) && n < |ins|
    ensures PassthroughRuns.GoodInputs(ins[..n]) && PassthroughRuns.GoodInputs(ins[..n + 1])
    ensures
      var c := PassthroughRuns.Run(r0, ins[..n]);
      && Passthrough.RegsShaped(c.r) && c.r.p.cnt <= 3
      && PassthroughRuns.Run(r0, ins[..n + 1]) == PassthroughRuns.Tick(c, ins[n])
  {
    hide PassthroughRuns.Tick;
    assert ins[..n + 1][..n] == ins[..n];
    PassedShape(PassthroughRuns.Run(r0, ins[..n]));
  }

  lemma {:induction false} PassedShape(c: PassthroughRuns.Config)
    requires PassthroughRuns.Inv(c)
    ensures Passthrough.RegsShaped(c.r) && c.r.p.cnt <= 3 && PassthroughRuns.AllComplete(c.all)
  {
  }
}
