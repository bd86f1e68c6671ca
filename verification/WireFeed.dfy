// The whole chain on conditions that can be read off the wire messages alone: what
// the datagrams say decides the events, for every cutting and every schedule.
module WireFeed {
  import opened Prices
  import opened Records
  import opened Receiver
  import opened Itch
  import opened Chain
  import opened WireToBook
  import opened FeedLimits
  import opened Lockstep
  import Parser = ItchParser
  import ParserSafety
  import ParserRuns
  import SystemProgress
  import LevelRuns
  import StepRefinement
  import BookRefinement
  import ClockRefinement
  import Clock
  import Overlap
  import Runs
  import Engine
  import Symbols
  import TableRuns
  import Market

  // ---- the conditions ----

  /** The symbols that the messages name. */
  function Locates(ks: seq<Message>): set<nat>
    requires forall i :: 0 <= i < |ks| ==> ParserSafety.Recorded(ks[i])
  {
    set i | 0 <= i < |ks| :: LocateOf(ks[i])
  }

  /** No more symbols than the table has slots, none of them its marker, and sizes, orders
      and levels within the limits. */
  ghost predicate WithinLimits(p: Params, ks: seq<Message>)
    requires forall i :: 0 <= i < |ks| ==> ParserSafety.Recorded(ks[i])
  {
    |Locates(ks)| <= p.nsym && 0xFFFF !in Locates(ks) && FeedRun(p, Meanings(ks))
  }

  lemma {:induction false} LimitsBefore(p: Params, ms: seq<Market.Message>, n: nat)
    requires FeedRun(p, ms) && n <= |ms|
    ensures FeedRun(p, ms[..n])
    decreases |ms|
  {
    hide LevelRuns.WithinCapacity, FeedFits;
    if n < |ms| {
      LevelRuns.CapacityBefore(p, ms);
      LimitsBefore(p, ms[..|ms| - 1], n);
      assert ms[..|ms| - 1][..n] == ms[..n];
    } else {
      assert ms[..n] == ms;
    }
  }

  // ---- the events ----

  /** The events are the reference's for these messages, with the depth of the book after
      each. */
  ghost predicate FeedShown(p: Params, ms: seq<Market.Message>, es: seq<Engine.Event>)
    requires Sound(p)
    decreases |ms|
  {
    if ms == [] then es == []
    else
      var init := ms[..|ms| - 1];
      var (s, out) := Market.Step(Market.Run(init).0, ms[|ms| - 1]);
      if out.Event? then
        && es != [] && FeedShown(p, init, es[..|es| - 1])
        && BookRefinement.Agrees(p, Some(es[|es| - 1]), out, s.orders)
      else FeedShown(p, init, es)
  }

  lemma {:induction false} TraceIsShown(p: Params, rs: seq<Record>, es: seq<Engine.Event>)
    requires Sound(p) && Engine.GoodRecords(p, rs) && Runs.TraceAgrees(p, rs, es)
    ensures FeedShown(p, Runs.MessagesOf(p, rs), es)
    decreases |rs|
  {
    hide MessageOf, Market.Step, BookRefinement.Agrees, WordsOf;
    if rs != [] {
      var init := rs[..|rs| - 1];
      assert Engine.GoodRecord(p, rs[|rs| - 1]);
      assert Runs.MessagesOf(p, rs)[..|rs| - 1] == Runs.MessagesOf(p, init);
      var out := Market.Step(Market.Run(Runs.MessagesOf(p, init)).0, MessageOf(p, rs[|rs| - 1])).1;
      TraceIsShown(p, init, if out.Event? then es[..|es| - 1] else es);
    }
  }

  // ---- every record has its place ----

  lemma {:induction false} NamedAreLocates(p: Params, rs: seq<Record>, ks: seq<Message>)
    requires Sound(p) && (forall i :: 0 <= i < |ks| ==> ParserSafety.Recorded(ks[i])) && |rs| <= |ks|
    requires Chain.Carries(p, rs, ks[..|rs|])
    ensures Symbols.Named(rs) <= Locates(ks)
  {
    hide MessageOf, Chain.Meaning, LocateOf, ParserSafety.Recorded;
    forall l | l in Symbols.Named(rs)
      ensures l in Locates(ks)
    {
      var i :| 0 <= i < |rs| && rs[i].locate == l;
      assert l == LocateOf(ks[..|rs|][i]) == LocateOf(ks[i]);
    }
  }

  /** Few symbols on the wire: every record of the book is for a registered one. */
  lemma {:induction false} WirePlaces(z: Parser.Sizes, ds: seq<Datagram>, q0: Parser.Regs, r0: Clock.Regs,
                                      ins: seq<Pins>)
    requires Parser.Fit(z) && ParserSafety.AllFit(z, ds) && Resets(z, q0, r0) && AllKept(z, ins)
    requires ParserSafety.Conforms(ds, Run(z, q0, r0, ins).parser.a)
    requires |Locates(KeptOf(ds, |ds|))| <= z.p.nsym && 0xFFFF !in Locates(KeptOf(ds, |ds|))
    ensures
      var x, ks := Run(z, q0, r0, ins).book.x, KeptOf(ds, |ds|);
      && x.ok && |x.done| <= |ks| && Chain.Carries(z.p, x.done, ks[..|x.done|])
      && BookRefinement.Distinct(x.locs, x.cnt) && |x.locs| == z.p.nsym
      && AllRegistered(x.done) && forall i :: 0 <= i < |x.done| ==> StepRefinement.Addressed(x.locs, x.cnt, x.done[i])
  {
    hide Run, Seen, Runs.Run, ParserRuns.Run, Taken, KeptOf, Chain.Carries, Locates, Symbols.Named, Runs.SymbolsInv;
    RunSplits(z, q0, r0, ins);
    var (pins, bins) := Seen(z, q0, r0, ins);
    ReceivedIsWire(z, ds, q0, pins, r0, bins);
    var x, ks := Run(z, q0, r0, ins).book.x, KeptOf(ds, |ds|);
    NamedAreLocates(z.p, x.done, ks);
    TableRuns.SubsetSize(Symbols.Named(x.done), Locates(ks));
    Symbols.FewSymbolsHavePlaces(z.p, r0, bins);
    Runs.RunSymbols(z.p, r0, bins);
    TableOfSymbols(z.p, x);
  }

  lemma {:induction false} TableOfSymbols(p: Params, x: Rx)
    requires Runs.SymbolsInv(p, x)
    ensures BookRefinement.Distinct(x.locs, x.cnt) && |x.locs| == p.nsym
  {
  }

  // ---- what comes out ----

  /** The first records of such a feed are tame. */
  lemma {:induction false} WireIsTame(p: Params, x: Rx, ks: seq<Message>, n: nat)
    requires Sound(p) && RxShaped(p, x) && x.ok && (forall i :: 0 <= i < |ks| ==> ParserSafety.Recorded(ks[i]))
    requires n <= |x.done| <= |ks| && Chain.Carries(p, x.done, ks[..|x.done|]) && WithinLimits(p, ks)
    requires BookRefinement.Distinct(x.locs, x.cnt) && |x.locs| == p.nsym && AllRegistered(x.done)
    requires forall i :: 0 <= i < |x.done| ==> StepRefinement.Addressed(x.locs, x.cnt, x.done[i])
    ensures Runs.TameRun(p, x.done[..n]) && Runs.MessagesOf(p, x.done[..n]) == Meanings(ks)[..n]
  {
    hide Chain.Carries, Chain.Meaning, ParserSafety.Recorded, FeedRun, Engine.GoodRecord, Locates, Runs.TameRun;
    CarriesBefore(p, x.done, ks[..|x.done|], n);
    assert ks[..|x.done|][..n] == ks[..n];
    CarriedMeanings(p, x.done[..n], ks[..n]);
    assert Meanings(ks[..n]) == Meanings(ks)[..n];
    LimitsBefore(p, Meanings(ks), n);
    FeedIsEnough(p, x.locs, x.cnt, x.done[..n]);
  }

  /** For all datagrams whose subset messages are within the limits, every cutting into
      beats and every schedule of the wire and of both consumers: both channels have
      carried, or still offer, the reference's events for the first messages, and between
      messages the registers mirror the reference after them. */
  lemma {:induction false} WireShown(z: Parser.Sizes, ds: seq<Datagram>, q0: Parser.Regs, r0: Clock.Regs,
                                     ins: seq<Pins>)
    requires Parser.Fit(z) && ParserSafety.AllFit(z, ds) && Resets(z, q0, r0) && AllKept(z, ins)
    requires ParserSafety.Conforms(ds, Run(z, q0, r0, ins).parser.a) && WithinLimits(z.p, KeptOf(ds, |ds|))
    ensures
      var c, ms := Run(z, q0, r0, ins).book, Meanings(KeptOf(ds, |ds|));
      var n := Overlap.Finished(c.r, c.x);
      && 0 <= n <= |ms|
      && FeedShown(z.p, ms[..n], c.bbos + ClockRefinement.Pending(c.r.out.bboValid, c.r.out.event))
      && FeedShown(z.p, ms[..n], c.depths + ClockRefinement.Pending(c.r.out.depthValid, c.r.out.event))
      && (!c.r.st.INVAL? && !ClockRefinement.InPipeline(c.r.st) ==>
            BookRefinement.Mirrors(z.p, c.x.locs, c.x.cnt, c.r.t.core, Market.Run(ms[..n]).0))
  {
    hide Run, Seen, Runs.Run, ParserRuns.Run, Taken, KeptOf, Meanings, Chain.Carries, FeedShown, WithinLimits,
         Runs.TraceAgrees, Runs.TameRun, Runs.MessagesOf, BookRefinement.Mirrors, AllRegistered,
         BookRefinement.Distinct;
    var c, ks := Run(z, q0, r0, ins).book, KeptOf(ds, |ds|);
    LimitsOnSymbols(z.p, ks);
    WirePlaces(z, ds, q0, r0, ins);
    RunSplits(z, q0, r0, ins);
    var (_, bins) := Seen(z, q0, r0, ins);
    Runs.DeliversHistory(z.p, r0, bins);
    var n := Overlap.Finished(c.r, c.x);
    WireIsTame(z.p, c.x, ks, n);
    Runs.ClockedBookRefinesReference(z.p, r0, bins);
    TraceIsShown(z.p, c.x.done[..n], c.bbos + ClockRefinement.Pending(c.r.out.bboValid, c.r.out.event));
    TraceIsShown(z.p, c.x.done[..n], c.depths + ClockRefinement.Pending(c.r.out.depthValid, c.r.out.event));
  }

  lemma {:induction false} LimitsOnSymbols(p: Params, ks: seq<Message>)
    requires (forall i :: 0 <= i < |ks| ==> ParserSafety.Recorded(ks[i])) && WithinLimits(p, ks)
    ensures |Locates(ks)| <= p.nsym && 0xFFFF !in Locates(ks)
  {
  }

  /** Once everything is delivered, both channels have carried the reference's events for
      all the messages. */
  lemma {:induction false} AllShown(z: Parser.Sizes, ds: seq<Datagram>, q0: Parser.Regs, r0: Clock.Regs, ins: seq<Pins>)
    requires Parser.Fit(z) && ParserSafety.AllFit(z, ds) && Resets(z, q0, r0) && AllKept(z, ins)
    requires ParserSafety.Conforms(ds, Run(z, q0, r0, ins).parser.a) && WithinLimits(z.p, KeptOf(ds, |ds|))
    requires SystemProgress.AllDelivered(z, ds, Run(z, q0, r0, ins))
    ensures
      var c, ms := Run(z, q0, r0, ins).book, Meanings(KeptOf(ds, |ds|));
      c.bbos == c.depths && FeedShown(z.p, ms, c.bbos)
  {
    hide Run, KeptOf, Meanings, Chain.Carries, FeedShown, WithinLimits, Runs.TraceAgrees, Runs.TameRun,
         Runs.MessagesOf, Engine.RunRecords, ParserSafety.StreamWords, ParserSafety.GapCount, AllRegistered,
         BookRefinement.Distinct;
    var c, ks := Run(z, q0, r0, ins).book, KeptOf(ds, |ds|);
    LimitsOnSymbols(z.p, ks);
    WirePlaces(z, ds, q0, r0, ins);
    SameLength(z.p, c.x.done, ks);
    WireIsTame(z.p, c.x, ks, |c.x.done|);
    assert c.x.done[..|c.x.done|] == c.x.done && Meanings(ks)[..|ks|] == Meanings(ks);
    TraceIsShown(z.p, c.x.done, c.bbos);
  }

  lemma {:induction false} SameLength(p: Params, rs: seq<Record>, ks: seq<Message>)
    requires Sound(p) && (forall i :: 0 <= i < |ks| ==> ParserSafety.Recorded(ks[i])) && Chain.Carries(p, rs, ks)
    ensures |rs| == |ks|
  {
  }
}
