// From the wire to the best bid and offer: the parser's bus wired to the book's.
module WireToBook {
  import opened Records
  import opened Receiver
  import opened Itch
  import opened Overlap
  import opened ClockSafety
  import opened ClockRefinement
  import opened Runs
  import opened Chain
  import Parser = ItchParser
  import ParserSafety
  import ParserRuns
  import Clock
  import Engine

  /** The words the book has accepted in a run. */
  function Taken(p: Params, r0: Clock.Regs, ins: seq<Clock.In>): (bs: seq<Beat>)
    requires Sound(p) && Runs.IsReset(p, r0) && Runs.Wired(p, ins)
    ensures WiredBeats(p, bs)
    decreases |ins|
  {
    if ins == [] then []
    else
      var init, i := ins[..|ins| - 1], ins[|ins| - 1];
      Taken(p, r0, init) + if Accepts(Runs.Run(p, r0, init).r, i) then [i.beat] else []
  }

  /** The book's stream history is the receiver over the words it has accepted. */
  lemma {:induction false} TakenIsReceived(p: Params, r0: Clock.Regs, ins: seq<Clock.In>)
    requires Sound(p) && Runs.IsReset(p, r0) && Runs.Wired(p, ins)
    ensures Runs.Run(p, r0, ins).x == Receive(p, RxReset(p), Taken(p, r0, ins))
    decreases |ins|
  {
    hide RxStep, Clock.Edge;
    if ins != [] {
      var init, i := ins[..|ins| - 1], ins[|ins| - 1];
      TakenIsReceived(p, r0, init);
      var c, bs := Runs.Run(p, r0, init), Taken(p, r0, init);
      assert Runs.Run(p, r0, ins) == Tick(p, c, i);
      if Accepts(c.r, i) {
        assert Taken(p, r0, ins) == bs + [i.beat] && (bs + [i.beat])[..|bs|] == bs;
      } else {
        assert Taken(p, r0, ins) == bs + [] == bs;
      }
    }
  }

  /** The finished records of the book's run. */
  function FinishedRecords(c: Config): seq<Record> {
    if 0 <= Finished(c.r, c.x) <= |c.x.done| then c.x.done[..Finished(c.r, c.x)] else []
  }

  /** What the book has received is the first wire messages of the subset. */
  lemma {:induction false} ReceivedIsWire(z: Parser.Sizes, ds: seq<Datagram>, q0: Parser.Regs, pins: seq<Parser.In>,
                                          r0: Clock.Regs, ins: seq<Clock.In>)
    requires Parser.Fit(z) && ParserSafety.AllFit(z, ds) && Parser.IsReset(q0) && ParserRuns.AllWellKept(z, pins)
    requires ParserSafety.Conforms(ds, ParserRuns.Run(z, q0, pins).a)
    requires Runs.IsReset(z.p, r0) && Runs.Wired(z.p, ins)
    requires Taken(z.p, r0, ins) == ParserRuns.Run(z, q0, pins).sent
    ensures
      var x, ms := Runs.Run(z.p, r0, ins).x, KeptOf(ds, |ds|);
      x.ok && |x.done| <= |ms| && Chain.Carries(z.p, x.done, ms[..|x.done|])
  {
    hide Runs.Run, ParserRuns.Run, Receive, KeptOf, MessageOf, Chain.Meaning, RxReset, ParserSafety.StreamWords;
    ParserRuns.ParserDelivers(z, ds, q0, pins);
    TakenIsReceived(z.p, r0, ins);
    BeginningReceived(z.p, ds, Taken(z.p, r0, ins));
  }

  /** The finished records are the first wire messages of the subset, and as long as they
      are tame both channels have carried, or still offer, the reference book's events. */
  ghost predicate ShowsWire(p: Params, ds: seq<Datagram>, c: Config)
    requires Sound(p)
  {
    var rs, ms := FinishedRecords(c), KeptOf(ds, |ds|);
    && c.x.ok && 0 <= Finished(c.r, c.x) <= |c.x.done| && Engine.GoodRecords(p, rs)
    && |rs| <= |ms| && Chain.Carries(p, rs, ms[..|rs|])
    && (TameRun(p, rs) ==>
          && TraceAgrees(p, rs, c.bbos + Pending(c.r.out.bboValid, c.r.out.event))
          && TraceAgrees(p, rs, c.depths + Pending(c.r.out.depthValid, c.r.out.event)))
  }

  /** The book's messages are what the wire messages tell it. */
  lemma {:induction false} CarriedMeanings(p: Params, rs: seq<Record>, ms: seq<Message>)
    requires Sound(p) && (forall i :: 0 <= i < |ms| ==> ParserSafety.Recorded(ms[i])) && Chain.Carries(p, rs, ms)
    requires Engine.GoodRecords(p, rs)
    ensures MessagesOf(p, rs) == Meanings(ms)
    decreases |rs|
  {
    hide MessageOf, Chain.Meaning, ParserSafety.Recorded, LocateOf, Engine.GoodRecord;
    if rs != [] {
      var init := rs[..|rs| - 1];
      assert Engine.GoodRecord(p, rs[|rs| - 1]);
      CarriesBefore(p, rs, ms, |init|);
      CarriedMeanings(p, init, ms[..|init|]);
    }
  }

  lemma {:induction false} CarriesBefore(p: Params, rs: seq<Record>, ms: seq<Message>, k: nat)
    requires Sound(p) && (forall i :: 0 <= i < |ms| ==> ParserSafety.Recorded(ms[i])) && Chain.Carries(p, rs, ms)
             && k <= |rs|
    ensures Chain.Carries(p, rs[..k], ms[..k])
  {
    hide MessageOf, Chain.Meaning, ParserSafety.Recorded, LocateOf;
  }

  /** A book fed with what the parser has sent, both under any schedule. */
  lemma {:induction false} WireToBbo(z: Parser.Sizes, ds: seq<Datagram>, q0: Parser.Regs, pins: seq<Parser.In>,
                                     r0: Clock.Regs, ins: seq<Clock.In>)
    requires Parser.Fit(z) && ParserSafety.AllFit(z, ds) && Parser.IsReset(q0) && ParserRuns.AllWellKept(z, pins)
    requires ParserSafety.Conforms(ds, ParserRuns.Run(z, q0, pins).a)
    requires Runs.IsReset(z.p, r0) && Runs.Wired(z.p, ins)
    requires Taken(z.p, r0, ins) == ParserRuns.Run(z, q0, pins).sent
    ensures ShowsWire(z.p, ds, Runs.Run(z.p, r0, ins))
  {
    hide Runs.Run, ParserRuns.Run, Receive, KeptOf, Chain.Carries, RxReset, TraceAgrees, TameRun,
         ParserSafety.StreamWords, Taken;
    var c := Runs.Run(z.p, r0, ins);
    ReceivedIsWire(z, ds, q0, pins, r0, ins);
    DeliversHistory(z.p, r0, ins);
    CarriesBefore(z.p, c.x.done, KeptOf(ds, |ds|)[..|c.x.done|], Finished(c.r, c.x));
    assert KeptOf(ds, |ds|)[..|c.x.done|][..Finished(c.r, c.x)] == KeptOf(ds, |ds|)[..Finished(c.r, c.x)];
    if TameRun(z.p, FinishedRecords(c)) {
      ClockedBookRefinesReference(z.p, r0, ins);
    }
  }
}
