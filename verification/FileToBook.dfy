// A message file all the way: converted into a capture, read back, sent as
// datagrams through parser and book on one clock, out as best bids and offers.
module FileToBook {
  import opened Itch
  import opened Packetizer
  import opened Capture
  import opened Converter
  import opened Replay
  import opened Chain
  import opened Lockstep
  import opened WireFeed
  import Parser = ItchParser
  import ParserSafety
  import SystemProgress
  import ClockRefinement
  import Overlap
  import Clock

  // ---- the file's messages on the wire ----

  lemma {:induction false} KeptAppend(a: seq<Message>, b: seq<Message>, n: nat)
    requires n <= |b|
    ensures Kept(a + b, |a| + n) == Kept(a, |a|) + Kept(b, n)
    decreases n
  {
    if n == 0 {
      KeptBegins(a, b, |a|);
    } else {
      KeptAppend(a, b, n - 1);
    }
  }

  lemma {:induction false} KeptBegins(a: seq<Message>, b: seq<Message>, n: nat)
    requires n <= |a|
    ensures Kept(a + b, n) == Kept(a, n)
  {
    if n > 0 {
      KeptBegins(a, b, n - 1);
    }
  }

  lemma {:induction false} AllMessagesSplit(ds: seq<Datagram>)
    requires ds != []
    ensures AllMessages(ds) == AllMessages(ds[..|ds| - 1]) + ds[|ds| - 1].msgs
    decreases |ds|
  {
    if |ds| > 1 {
      assert ds[..|ds| - 1][1..] == ds[1..][..|ds| - 2];
      AllMessagesSplit(ds[1..]);
    }
  }

  /** What the datagrams bring the book does not depend on how the messages are grouped. */
  lemma {:induction false} KeptOfAll(ds: seq<Datagram>)
    ensures KeptOf(ds, |ds|) == Kept(AllMessages(ds), |AllMessages(ds)|)
    decreases |ds|
  {
    if ds != [] {
      var init, last := ds[..|ds| - 1], ds[|ds| - 1].msgs;
      KeptOfAll(init);
      KeptOfBegins(ds, |init|);
      AllMessagesSplit(ds);
      KeptAppend(AllMessages(init), last, |last|);
    }
  }

  lemma {:induction false} KeptOfBegins(ds: seq<Datagram>, n: nat)
    requires n < |ds|
    ensures KeptOf(ds[..|ds| - 1], n) == KeptOf(ds, n)
  {
    if n > 0 {
      KeptOfBegins(ds, n - 1);
    }
  }

  // ---- what is sent ----

  /** The payloads of the packets, in order, the last one perhaps not yet to its end. */
  predicate Sends(ps: seq<Packet>, a: ParserSafety.Accepted) {
    && |a.done| <= |ps| && (forall i :: 0 <= i < |a.done| ==> a.done[i] == ps[i].payload)
    && (if |a.done| == |ps| then a.part == [] else a.part < ps[|a.done|].payload)
  }

  lemma {:induction false} PacketPerDatagram(ds: seq<Datagram>)
    ensures |PacketsOf(ds)| == |ds| && forall i :: 0 <= i < |ds| ==> PacketsOf(ds)[i].payload == Payload(ds[i])
  {
    hide Payload;
    if ds != [] {
      PacketPerDatagram(ds[1..]);
    }
  }

  lemma {:induction false} SentConforms(ds: seq<Datagram>, a: ParserSafety.Accepted)
    requires Sends(PacketsOf(ds), a)
    ensures ParserSafety.Conforms(ds, a)
  {
    hide Payload, PacketsOf;
    PacketPerDatagram(ds);
  }

  // ---- the whole way ----

  /** A file that the converter takes, for a parser that holds its messages, and within the
      book's limits. */
  ghost predicate Replayable(s: Settings, ms: seq<Message>, z: Parser.Sizes) {
    && Usable(s) && s.maxPayload <= MOST && |ms| < WORD64
    && (forall i :: 0 <= i < |ms| ==> Sendable(s, ms[i]) && 2 + |ms[i]| <= z.qb)
    && WithinLimits(z.p, Kept(ms, |ms|))
  }

  lemma {:induction false} FileOnWire(s: Settings, ms: seq<Message>, z: Parser.Sizes)
    requires Replayable(s, ms, z)
    ensures ReadCapture(CaptureFile(s, Feed(s, ms))) == Reading(PacketsOf(Feed(s, ms)), false)
    ensures ParserSafety.AllFit(z, Feed(s, ms)) && ParserSafety.GapCount(Feed(s, ms), |Feed(s, ms)|) == 0
    ensures KeptOf(Feed(s, ms), |Feed(s, ms)|) == Kept(ms, |ms|)
  {
    hide Feed, CaptureFile, ReadCapture, PacketsOf, WithinLimits, AllPackable, ParserSafety.GapCount;
    FeedPacksIff(s, ms);
    ReadsMessages(s, ms);
    FeedFits(s, ms, z);
    FeedHasNoGap(s, ms, |Feed(s, ms)|);
    KeptOfAll(Feed(s, ms));
    FeedCarriesAll(s, ms);
  }

  /** Whatever is read back from the converter's capture and sent, in any cutting and under
      any schedule: the events on both channels are the reference's for the first subset
      messages of the file. */
  lemma {:induction false} FileShown(s: Settings, ms: seq<Message>, r: Reading, z: Parser.Sizes, q0: Parser.Regs,
                                     r0: Clock.Regs, ins: seq<Pins>)
    requires Parser.Fit(z) && Replayable(s, ms, z) && Resets(z, q0, r0) && AllKept(z, ins)
    requires r == ReadCapture(CaptureFile(s, Feed(s, ms)))
    requires r.Reading? ==> Sends(r.packets, Run(z, q0, r0, ins).parser.a)
    ensures r.Reading? && !r.damaged
    ensures
      var c, ns := Run(z, q0, r0, ins).book, Meanings(Kept(ms, |ms|));
      var n := Overlap.Finished(c.r, c.x);
      && 0 <= n <= |ns|
      && FeedShown(z.p, ns[..n], c.bbos + ClockRefinement.Pending(c.r.out.bboValid, c.r.out.event))
      && FeedShown(z.p, ns[..n], c.depths + ClockRefinement.Pending(c.r.out.depthValid, c.r.out.event))
  {
    hide Run, Feed, CaptureFile, ReadCapture, PacketsOf, WithinLimits, FeedShown, KeptOf, Kept, Meanings, Sends,
         ParserSafety.Conforms, ParserSafety.AllFit, ParserSafety.GapCount;
    FileOnWire(s, ms, z);
    SentConforms(Feed(s, ms), Run(z, q0, r0, ins).parser.a);
    WireShown(z, Feed(s, ms), q0, r0, ins);
  }

  /** And with the wire offering what it has and both consumers ready, as many cycles as
      there is work deliver them all: every event of every message of the file, each once
      and in order on both channels, and not one gap signalled. */
  lemma {:induction false} FileDelivered(s: Settings, ms: seq<Message>, z: Parser.Sizes, q0: Parser.Regs,
                                         r0: Clock.Regs, past: seq<Pins>, more: seq<Pins>)
    returns (n: nat)
    requires Parser.Fit(z) && Replayable(s, ms, z) && Resets(z, q0, r0) && AllKept(z, past) && AllKept(z, more)
    requires SystemProgress.EagerFrom(z, Feed(s, ms), q0, r0, past, more)
    requires ParserSafety.Inv(z, Feed(s, ms), Run(z, q0, r0, past).parser)
    requires |more| >= SystemProgress.Left(z, Feed(s, ms), Run(z, q0, r0, past))
    ensures n <= |more| && AllKept(z, past + more[..n])
    ensures
      var t := Run(z, q0, r0, past + more[..n]);
      && t.parser.gaps == 0 && t.book.bbos == t.book.depths
      && FeedShown(z.p, Meanings(Kept(ms, |ms|)), t.book.bbos)
  {
    hide Run, Feed, CaptureFile, ReadCapture, PacketsOf, WithinLimits, FeedShown, KeptOf, Kept, Meanings,
         SystemProgress.Left, SystemProgress.EagerFrom, ParserSafety.Inv, ParserSafety.Conforms, ParserSafety.AllFit,
         ParserSafety.GapCount, AllKept;
    FileOnWire(s, ms, z);
    n := SystemProgress.EverythingFlows(z, Feed(s, ms), q0, r0, past, more);
    AllShown(z, Feed(s, ms), q0, r0, past + more[..n]);
    DeliveredGaps(z, Feed(s, ms), Run(z, q0, r0, past + more[..n]));
  }

  lemma {:induction false} DeliveredGaps(z: Parser.Sizes, ds: seq<Datagram>, t: System)
    requires Parser.Fit(z) && Shaped(z, t) && SystemProgress.AllDelivered(z, ds, t)
    ensures t.parser.gaps == ParserSafety.GapCount(ds, |ds|)
  {
  }
}
