// Parser and book on one clock never stall: while the wire offers what it has
// and both consumers are ready, every cycle leaves less to do, until every event
// of every datagram has been delivered.
module SystemProgress {
  import opened Records
  import opened Receiver
  import opened Itch
  import opened Chain
  import opened Lockstep
  import opened BookProgress
  import Parser = ItchParser
  import ParserSafety
  import ParserRuns
  import ParserProgress
  import Clock
  import ClockRefinement
  import Overlap
  import Runs
  import Progress
  import Engine
  import WireToBook

  /** Both machines in step with the datagrams. */
  ghost predicate Inv(z: Parser.Sizes, ds: seq<Datagram>, s: System)
    requires Parser.Fit(z) && Shaped(z, s)
  {
    && ParserSafety.Inv(z, ds, s.parser) && ClockRefinement.Inv(z.p, s.book)
    && WiredBeats(z.p, s.parser.sent) && s.book.x == Receive(z.p, RxReset(z.p), s.parser.sent)
  }

  /** Every run of the system keeps both machines in step. */
  lemma {:induction false} RunInv(z: Parser.Sizes, ds: seq<Datagram>, q0: Parser.Regs, r0: Clock.Regs, ins: seq<Pins>)
    requires Parser.Fit(z) && ParserSafety.AllFit(z, ds) && Resets(z, q0, r0) && AllKept(z, ins)
    requires ParserSafety.Conforms(ds, Run(z, q0, r0, ins).parser.a)
    ensures Inv(z, ds, Run(z, q0, r0, ins))
  {
    hide Run, Seen, Runs.Run, ParserRuns.Run, WireToBook.Taken, ParserSafety.Inv, ClockRefinement.Inv, Receive,
         RxReset, KeptOf, Chain.Carries;
    RunSplits(z, q0, r0, ins);
    var (pins, bins) := Seen(z, q0, r0, ins);
    ParserRuns.RunInv(z, ds, q0, pins);
    WireToBook.TakenIsReceived(z.p, r0, bins);
    WireToBook.ReceivedIsWire(z, ds, q0, pins, r0, bins);
    Runs.RunInv(z.p, r0, bins);
  }

  // ---- what is left to do ----

  /** The wire offers while it has bytes, and both consumers are ready. */
  predicate Eager(ds: seq<Datagram>, s: System, i: Pins)
    requires ParserSafety.Conforms(ds, s.parser.a)
  {
    i.bboReady && i.depthReady && (i.tvalid || ParserProgress.BytesLeft(ds, s.parser.a) == 0)
  }

  /** All datagrams are decoded and closed, and the book has nothing in work. */
  predicate Done(ds: seq<Datagram>, s: System) {
    ParserProgress.Finished(ds, s.parser) && Resting(s.book.r)
  }

  /** The parser's work, each piece of it worth all that a word can bring the book, and
      the book's own. */
  function Left(z: Parser.Sizes, ds: seq<Datagram>, s: System): int
    requires Parser.Fit(z) && Shaped(z, s) && ParserSafety.Inv(z, ds, s.parser)
  {
    ParserProgress.Work(z, ds, s.parser) * (MostBusy(z.p) + 1) + Busy(z.p, s.book.r)
  }

  lemma {:induction false} Outweighs(a: int, b: int, k: nat, x: int, y: int)
    requires a < b && 0 <= x <= k && 0 <= y
    ensures a * (k + 1) + x < b * (k + 1) + y
  {
    AtLeastOnce(b - a, k + 1);
    Distributes(a, b, k + 1);
  }

  lemma {:induction false} NoMore(a: int, b: int, k: nat, x: int, y: int)
    requires a <= b && x < y
    ensures a * (k + 1) + x < b * (k + 1) + y
  {
    if a < b {
      AtLeastOnce(b - a, k + 1);
    }
    Distributes(a, b, k + 1);
  }

  lemma {:induction false} Distributes(a: int, b: int, n: int)
    ensures b * n == a * n + (b - a) * n
  {
  }

  /** Each eager cycle leaves less to do. */
  lemma {:induction false} LeftFalls(z: Parser.Sizes, ds: seq<Datagram>, s: System, i: Pins)
    requires Parser.Fit(z) && ParserSafety.AllFit(z, ds) && Shaped(z, s) && WireKept(z, i)
    requires Inv(z, ds, s) && ParserSafety.Conforms(ds, Tick(z, s, i).parser.a)
    requires ParserSafety.Inv(z, ds, Tick(z, s, i).parser)
    requires Eager(ds, s, i) && !Done(ds, s)
    ensures Left(z, ds, Tick(z, s, i)) < Left(z, ds, s)
  {
    hide Parser.Edge, Clock.Edge, ParserSafety.Inv, ParserProgress.Work, Busy, MostBusy, RxStep, BusShaped, Receive,
         ParserProgress.BytesLeft, Parser.TReady, ParserSafety.Conforms, ParserSafety.AllFit;
    var t, pin, bin := Tick(z, s, i), ParserPins(z, s, i), BookPins(z, s, i);
    ParserProgress.WorkNeverRises(z, ds, s.parser, pin);
    BusyBound(z.p, t.book.r);
    if Clock.TReady(s.book.r) && !ParserProgress.Finished(ds, s.parser) {
      ParserProgress.WorkFalls(z, ds, s.parser, pin);
      Outweighs(ParserProgress.Work(z, ds, t.parser), ParserProgress.Work(z, ds, s.parser), MostBusy(z.p),
                Busy(z.p, t.book.r), Busy(z.p, s.book.r));
    } else {
      if ParserProgress.Finished(ds, s.parser) {
        FinishedIsQuiet(z, ds, s.parser);
      }
      if Resting(s.book.r) {
        Progress.AcceptsWhileArriving(z.p, s.book);
      }
      BusyFalls(z.p, s.book, bin);
      NoMore(ParserProgress.Work(z, ds, t.parser), ParserProgress.Work(z, ds, s.parser), MostBusy(z.p),
             Busy(z.p, t.book.r), Busy(z.p, s.book.r));
    }
  }

  /** Between datagrams no word is on offer. */
  lemma {:induction false} FinishedIsQuiet(z: Parser.Sizes, ds: seq<Datagram>, c: ParserSafety.Config)
    requires Parser.Fit(z) && ParserSafety.Inv(z, ds, c) && ParserProgress.Finished(ds, c)
    ensures !c.r.outValid && c.sent == ParserSafety.StreamWords(z.p, ds, |ds|)
            && c.gaps == ParserSafety.GapCount(ds, |ds|)
  {
    hide ParserSafety.StreamWords, ParserSafety.GapCount, ParserSafety.Queued;
    assert c.sent + [] == c.sent;
  }

  lemma {:induction false} LeftPositive(z: Parser.Sizes, ds: seq<Datagram>, s: System)
    requires Parser.Fit(z) && Shaped(z, s) && ParserSafety.Inv(z, ds, s.parser)
    ensures Left(z, ds, s) >= 0 && (!Done(ds, s) ==> Left(z, ds, s) > 0)
  {
    hide ParserSafety.Inv, ParserProgress.Work, Busy, MostBusy, BusShaped;
    ParserProgress.WorkIsNatural(z, ds, s.parser);
    var w := ParserProgress.Work(z, ds, s.parser);
    if w > 0 {
      AtLeastOnce(w, MostBusy(z.p) + 1);
    } else if !Done(ds, s) {
      BusyPositive(z.p, s.book.r);
    }
  }

  // ---- everything comes out ----

  /** From the configuration after some cycles on, the further cycles are eager and go on
      cutting the datagrams. */
  predicate EagerFrom(z: Parser.Sizes, ds: seq<Datagram>, q0: Parser.Regs, r0: Clock.Regs, past: seq<Pins>,
                      more: seq<Pins>)
    requires Parser.Fit(z) && Resets(z, q0, r0) && AllKept(z, past) && AllKept(z, more)
    decreases |more|
  {
    && ParserSafety.Conforms(ds, Run(z, q0, r0, past).parser.a)
    && (more != [] ==>
        Eager(ds, Run(z, q0, r0, past), more[0]) && EagerFrom(z, ds, q0, r0, past + [more[0]], more[1..]))
  }

  /** What the system has delivered when all is done: the parser every word and one pulse
      per gap, the book every event of the subset's messages, on both channels. */
  ghost predicate AllDelivered(z: Parser.Sizes, ds: seq<Datagram>, s: System)
    requires Parser.Fit(z) && Shaped(z, s)
  {
    && s.parser.sent == ParserSafety.StreamWords(z.p, ds, |ds|) && s.parser.gaps == ParserSafety.GapCount(ds, |ds|)
    && s.book.x.ok && Chain.Carries(z.p, s.book.x.done, KeptOf(ds, |ds|))
    && s.book.bbos == s.book.depths == Engine.RunRecords(z.p, s.book.x.done).1
    && (Runs.TameRun(z.p, s.book.x.done) ==> Runs.TraceAgrees(z.p, s.book.x.done, s.book.bbos))
  }

  lemma {:induction false} DoneIsDelivered(z: Parser.Sizes, ds: seq<Datagram>, q0: Parser.Regs, r0: Clock.Regs,
                                           ins: seq<Pins>)
    requires Parser.Fit(z) && ParserSafety.AllFit(z, ds) && Resets(z, q0, r0) && AllKept(z, ins)
    requires ParserSafety.Conforms(ds, Run(z, q0, r0, ins).parser.a) && Done(ds, Run(z, q0, r0, ins))
    ensures AllDelivered(z, ds, Run(z, q0, r0, ins))
  {
    hide Run, Receive, RxReset, ParserSafety.StreamWords, ParserSafety.GapCount, KeptOf, Chain.Carries,
         Engine.RunRecords, Runs.TameRun, Runs.TraceAgrees;
    hide ParserSafety.Inv, ClockRefinement.Inv;
    var s := Run(z, q0, r0, ins);
    RunInv(z, ds, q0, r0, ins);
    FinishedIsQuiet(z, ds, s.parser);
    StreamReceived(z.p, ds, |ds|);
    WholeStream(z.p, s.book.x, KeptOf(ds, |ds|));
    RestingDone(z.p, s.book);
    if Runs.TameRun(z.p, s.book.x.done) {
      TameAgrees(z, q0, r0, ins);
    }
  }

  lemma {:induction false} WholeStream(p: Params, x: Rx, ms: seq<Message>)
    requires Sound(p) && (forall i :: 0 <= i < |ms| ==> ParserSafety.Recorded(ms[i])) && InStep(p, x, ms)
    ensures x.ok && x.part.Nothing? && Chain.Carries(p, x.done, ms)
  {
  }

  lemma {:induction false} TameAgrees(z: Parser.Sizes, q0: Parser.Regs, r0: Clock.Regs, ins: seq<Pins>)
    requires Parser.Fit(z) && Resets(z, q0, r0) && AllKept(z, ins)
    requires
      var c := Run(z, q0, r0, ins).book;
      c.x.ok && Overlap.Finished(c.r, c.x) == |c.x.done| && !c.r.out.bboValid && Runs.TameRun(z.p, c.x.done)
    ensures Runs.TraceAgrees(z.p, Run(z, q0, r0, ins).book.x.done, Run(z, q0, r0, ins).book.bbos)
  {
    hide Run, Runs.Run, Seen, Runs.TameRun, Runs.TraceAgrees, WireToBook.Taken;
    RunSplits(z, q0, r0, ins);
    var (_, bins) := Seen(z, q0, r0, ins);
    var c := Run(z, q0, r0, ins).book;
    assert c.x.done[..|c.x.done|] == c.x.done && c.bbos + [] == c.bbos;
    Runs.ClockedBookRefinesReference(z.p, r0, bins);
  }

  /** From every reachable configuration, as many eager cycles as there is work left
      deliver every event of every datagram. */
  lemma {:induction false} EverythingFlows(z: Parser.Sizes, ds: seq<Datagram>, q0: Parser.Regs, r0: Clock.Regs,
                                           past: seq<Pins>, more: seq<Pins>)
    returns (n: nat)
    requires Parser.Fit(z) && ParserSafety.AllFit(z, ds) && Resets(z, q0, r0) && AllKept(z, past) && AllKept(z, more)
    requires EagerFrom(z, ds, q0, r0, past, more)
    requires ParserSafety.Inv(z, ds, Run(z, q0, r0, past).parser) && |more| >= Left(z, ds, Run(z, q0, r0, past))
    ensures n <= |more| && n <= Left(z, ds, Run(z, q0, r0, past)) && AllKept(z, past + more[..n])
    ensures ParserSafety.Conforms(ds, Run(z, q0, r0, past + more[..n]).parser.a)
    ensures AllDelivered(z, ds, Run(z, q0, r0, past + more[..n]))
    decreases |more|
  {
    hide Run, Left, ParserSafety.Inv, ClockRefinement.Inv, Receive, RxReset, AllDelivered, Tick, Eager, EagerFrom,
         ParserSafety.Conforms, ParserSafety.AllFit;
    var s := Run(z, q0, r0, past);
    InvConforms(z, ds, s.parser);
    LeftPositive(z, ds, s);
    if Done(ds, s) {
      n := 0;
      assert past + more[..0] == past;
      DoneIsDelivered(z, ds, q0, r0, past);
    } else {
      var next := past + [more[0]];
      RunInv(z, ds, q0, r0, past);
      EagerGoesOn(z, ds, q0, r0, past, more);
      RunInv(z, ds, q0, r0, next);
      LeftFalls(z, ds, s, more[0]);
      var k := EverythingFlows(z, ds, q0, r0, next, more[1..]);
      n := k + 1;
      assert next + more[1..][..k] == past + more[..n];
    }
  }

  lemma {:induction false} InvConforms(z: Parser.Sizes, ds: seq<Datagram>, c: ParserSafety.Config)
    requires Parser.Fit(z) && ParserSafety.Inv(z, ds, c)
    ensures ParserSafety.Conforms(ds, c.a)
  {
  }

  lemma {:induction false} EagerGoesOn(z: Parser.Sizes, ds: seq<Datagram>, q0: Parser.Regs, r0: Clock.Regs,
                                       past: seq<Pins>, more: seq<Pins>)
    requires Parser.Fit(z) && Resets(z, q0, r0) && AllKept(z, past) && AllKept(z, more)
    requires EagerFrom(z, ds, q0, r0, past, more) && more != []
    ensures AllKept(z, past + [more[0]]) && AllKept(z, more[1..])
    ensures ParserSafety.Conforms(ds, Run(z, q0, r0, past).parser.a)
            && ParserSafety.Conforms(ds, Run(z, q0, r0, past + [more[0]]).parser.a)
    ensures Eager(ds, Run(z, q0, r0, past), more[0]) && EagerFrom(z, ds, q0, r0, past + [more[0]], more[1..])
    ensures Run(z, q0, r0, past + [more[0]]) == Tick(z, Run(z, q0, r0, past), more[0])
  {
    hide Eager, Tick;
    var next := past + [more[0]];
    assert next[..|next| - 1] == past && next[|next| - 1] == more[0];
  }
}
