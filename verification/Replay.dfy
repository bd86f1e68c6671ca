// A message file replayed: converted into a capture, read back, and sent
// through the hardware parser.
module Replay {
  import opened Bytes
  import opened Prices
  import opened Itch
  import opened Packetizer
  import opened Capture
  import opened Converter
  import opened ParserSafety
  import opened ParserRuns
  import Parser = ItchParser

  lemma {:induction false} DatagramMessages(session: seq<byte>, n: nat, gs: seq<seq<Message>>, k: nat)
    requires k <= |gs|
    ensures AllMessages(Datagrams(session, n, gs)[..k]) == Joined(gs[..k])
  {
    if k > 0 {
      var ds := Datagrams(session, n, gs);
      DatagramMessages(session, n, gs, k - 1);
      AllMessagesTo(ds, k - 1);
      assert gs[..k][..k - 1] == gs[..k - 1];
    }
  }

  /** The datagrams carry the file's messages, in order and byte for byte. */
  lemma {:induction false} FeedCarriesAll(s: Settings, ms: seq<Message>)
    ensures AllMessages(Feed(s, ms)) == ms
  {
    var gs := Groups(s, ms);
    DatagramMessages(s.session, 1, gs, |gs|);
    GroupsJoin(s, ms);
    assert gs[..|gs|] == gs && Feed(s, ms)[..|gs|] == Feed(s, ms);
  }

  lemma {:induction false} JoinedStep(gs: seq<seq<Message>>, k: nat)
    requires 0 < k <= |gs|
    ensures Joined(gs[..k]) == Joined(gs[..k - 1]) + gs[k - 1]
  {
    assert gs[..k][..k - 1] == gs[..k - 1];
  }

  lemma {:induction false} NoGapAt(s: Settings, ms: seq<Message>, k: nat)
    requires k < |Feed(s, ms)| && Packable(Feed(s, ms)[k])
    ensures !IsGap(Feed(s, ms), k)
  {
    hide Groups, Datagrams, Payload, Joined;
    var gs := Groups(s, ms);
    NumbersArePrefixSums(s.session, 1, gs, k);
    if k > 0 {
      NumbersArePrefixSums(s.session, 1, gs, k - 1);
      JoinedStep(gs, k);
    } else {
      assert |Joined(gs[..0])| == 0 by { NoneJoined(gs[..0]); }
    }
  }

  lemma {:induction false} NoneJoined(gs: seq<seq<Message>>)
    requires gs == []
    ensures Joined(gs) == []
  {
  }

  /** The numbering has no gap at any datagram. */
  lemma {:induction false} FeedHasNoGap(s: Settings, ms: seq<Message>, k: nat)
    requires k <= |Feed(s, ms)| && AllPackable(Feed(s, ms))
    ensures GapCount(Feed(s, ms), k) == 0
  {
    hide IsGap, Packable, Feed;
    if k > 0 {
      FeedHasNoGap(s, ms, k - 1);
      NoGapAt(s, ms, k - 1);
    }
  }

  function MessagesIn(ps: seq<Packet>): seq<Message> {
    if ps == [] then [] else ps[0].msgs + MessagesIn(ps[1..])
  }

  lemma {:induction false} MessagesInPackets(ds: seq<Datagram>)
    ensures MessagesIn(PacketsOf(ds)) == AllMessages(ds)
  {
    if ds != [] {
      assert PacketsOf(ds)[1..] == PacketsOf(ds[1..]);
      MessagesInPackets(ds[1..]);
    }
  }

  // ---- which message files can be converted ----

  lemma {:induction false} GroupFits(g: seq<Message>)
    ensures 2 * |g| <= |Frames(g)|
  {
    if g != [] {
      GroupFits(g[1..]);
    }
  }

  lemma {:induction false} FewerBefore(gs: seq<seq<Message>>, k: nat)
    requires k < |gs| && gs[k] != []
    ensures |Joined(gs[..k])| < |Joined(gs)|
    decreases |gs|
  {
    if k < |gs| - 1 {
      assert gs[..|gs| - 1][..k] == gs[..k];
      FewerBefore(gs[..|gs| - 1], k);
    }
  }

  /** A datagram holds a message alone, or is within the limit. */
  lemma {:induction false} DatagramPacks(s: Settings, ms: seq<Message>, k: nat)
    requires s.maxPayload <= MOST && |ms| < WORD64 && |s.session| == 10
    requires (forall i :: 0 <= i < |ms| ==> MOLD_HEADER + 2 + |ms[i]| <= MOST) && k < |Feed(s, ms)|
    ensures Packable(Feed(s, ms)[k])
  {
    hide Groups, Joined, Datagrams;
    var gs := Groups(s, ms);
    GroupsJoin(s, ms);
    GroupsAreGreedy(s, ms, k);
    NumbersArePrefixSums(s.session, 1, gs, k);
    FewerBefore(gs, k);
    GroupFits(gs[k]);
    if |gs[k]| == 1 {
      var i := InJoined(gs, k, 0);
      FrameOfOne(gs[k][0]);
      assert gs[k] == [gs[k][0]];
    }
  }

  /** With a limit that UDP can carry, the datagrams of a file hold all their fields if and
      only if every message fits one with both its headers. */
  lemma {:induction false} FeedPacksIff(s: Settings, ms: seq<Message>)
    requires s.maxPayload <= MOST && |ms| < WORD64 && |s.session| == 10
    ensures AllPackable(Feed(s, ms)) <==> forall i :: 0 <= i < |ms| ==> MOLD_HEADER + 2 + |ms[i]| <= MOST
  {
    hide Groups, Joined, Datagrams, Packable;
    if forall i :: 0 <= i < |ms| ==> MOLD_HEADER + 2 + |ms[i]| <= MOST {
      forall k | 0 <= k < |Feed(s, ms)|
        ensures Packable(Feed(s, ms)[k])
      {
        DatagramPacks(s, ms, k);
      }
    }
    if AllPackable(Feed(s, ms)) {
      forall i | 0 <= i < |ms|
        ensures MOLD_HEADER + 2 + |ms[i]| <= MOST
      {
        GroupsJoin(s, ms);
        var k, j := GroupOf(Groups(s, ms), i);
        FrameInside(Groups(s, ms)[k], j);
        PackableSize(Feed(s, ms)[k]);
      }
    }
  }

  lemma {:induction false} PackableSize(d: Datagram)
    requires Packable(d)
    ensures MOLD_HEADER + |Frames(d.msgs)| <= MOST
  {
  }

  /** A message the converter takes, and a datagram can carry. */
  predicate Sendable(s: Settings, m: Message) {
    2 + |m| <= s.maxPayload && MOLD_HEADER + 2 + |m| <= MOST
  }

  /** A file of length-prefixed messages is converted if and only if every message is one
      the converter takes and a datagram can carry. */
  lemma {:induction false} ConvertsIff(s: Settings, ms: seq<Message>)
    requires s.maxPayload <= MOST && |ms| < WORD64 && |s.session| == 10
    requires forall i :: 0 <= i < |ms| ==> |ms[i]| < 0x1_0000
    ensures Convertible(s, ParseFile(Frames(ms)), None) <==> forall i :: 0 <= i < |ms| ==> Sendable(s, ms[i])
  {
    hide AllPackable, Feed, ParseFile, Frames;
    ParsesFrames(ms);
    FeedPacksIff(s, ms);
  }

  // ---- there and back ----

  /** What was written for the datagrams of a file reads back as its messages. */
  lemma {:induction false} ReadsMessages(s: Settings, ms: seq<Message>)
    requires Usable(s) && AllPackable(Feed(s, ms))
    ensures
      var r := ReadCapture(CaptureFile(s, Feed(s, ms)));
      && r == Reading(PacketsOf(Feed(s, ms)), false)
      && MessagesIn(r.packets) == ms
  {
    ReadsWhatWasWritten(s, Feed(s, ms));
    MessagesInPackets(Feed(s, ms));
    FeedCarriesAll(s, ms);
  }

  /** The round trip: a file of sendable messages is converted, and what is read back are
      the same messages in the same order, in numbered packets, nothing damaged. */
  method RoundTrip(s: Settings, ms: seq<Message>) returns (r: Reading)
    requires Usable(s) && s.maxPayload <= MOST && |ms| < WORD64
    requires forall i :: 0 <= i < |ms| ==> Sendable(s, ms[i])
    ensures r == Reading(PacketsOf(Feed(s, ms)), false) && MessagesIn(r.packets) == ms
  {
    hide CaptureFile, ReadCapture, Feed, Convertible, ParseFile, Frames, AllPackable;
    ConvertsIff(s, ms);
    ParsesFrames(ms);
    FeedPacksIff(s, ms);
    ReadsMessages(s, ms);
    var st, capture, packets := Convert(Frames(ms), s, None);
    r := IterPcapPackets(capture);
  }

  /** The file's datagrams sent through the parser, in any cutting and under any schedule:
      once all are in and closed the bus has carried exactly the reference decoder's
      records of the file, and no gap was ever signalled. */
  lemma {:induction false} ReplayThroughParser(s: Settings, ms: seq<Message>, z: Parser.Sizes, q0: Parser.Regs,
                                               ins: seq<Parser.In>)
    requires s.maxPayload <= MOST && |ms| < WORD64 && |s.session| == 10 && AllCanonical(ms)
    requires forall i :: 0 <= i < |ms| ==> 2 + |ms[i]| <= z.qb
    requires Parser.Fit(z) && Parser.IsReset(q0) && AllWellKept(z, ins) && Conforms(Feed(s, ms), Run(z, q0, ins).a)
    ensures
      var c, ds := Run(z, q0, ins), Feed(s, ms);
      && c.gaps == 0
      && (c.r.st.HDR? && At(c.a, c.r.eop) == |ds| ==> c.sent == StreamOf(z.p, RecordsOf(ms, 0)))
  {
    hide Run, StreamOf, RecordsOf, Groups, Datagrams, GapCount, Canonical, Payload, Conforms, Feed, AllPackable,
         AllFit, AllMessages, MessageWords, FirstWords;
    var c, ds := Run(z, q0, ins), Feed(s, ms);
    FeedCarriesAll(s, ms);
    FeedPacksIff(s, ms);
    FeedFits(s, ms, z);
    ParserDelivers(z, ds, q0, ins);
    ParserIsOracle(z, ds, q0, ins);
    FeedHasNoGap(s, ms, if c.r.st.HDR? then At(c.a, c.r.eop) else At(c.a, c.r.eop) + 1);
  }

  lemma {:induction false} FeedFits(s: Settings, ms: seq<Message>, z: Parser.Sizes)
    requires AllPackable(Feed(s, ms)) && forall i :: 0 <= i < |ms| ==> 2 + |ms[i]| <= z.qb
    ensures AllFit(z, Feed(s, ms))
  {
    var ds, gs := Feed(s, ms), Groups(s, ms);
    GroupsJoin(s, ms);
    forall k | 0 <= k < |ds|
      ensures Fits(z, ds[k])
    {
      assert Packable(ds[k]);
      forall j | 0 <= j < |ds[k].msgs|
        ensures 2 + |ds[k].msgs[j]| <= z.qb
      {
        var i := InJoined(gs, k, j);
      }
    }
  }

  // ---- a limit on the messages ----

  lemma {:induction false} ParsesBefore(ms: seq<Message>, tail: seq<byte>)
    requires forall i :: 0 <= i < |ms| ==> |ms[i]| < 0x1_0000
    ensures ParseFile(Frames(ms) + tail) == Contents(ms + ParseFile(tail).msgs, ParseFile(tail).cut)
  {
    hide Frame, ParseFile;
    if ms == [] {
      assert Frames(ms) + tail == tail;
      assert ms + ParseFile(tail).msgs == ParseFile(tail).msgs;
    } else {
      var rest := Frames(ms[1..]) + tail;
      assert Frames(ms) + tail == Frame(ms[0]) + rest;
      ParsesFirst(ms[0], rest);
      ParsesBefore(ms[1..], tail);
      assert [ms[0]] + (ms[1..] + ParseFile(tail).msgs) == ms + ParseFile(tail).msgs;
    }
  }

  /** With a limit below the number of whole messages exactly the first ones are converted,
      whatever follows in the file, and it succeeds if and only if these can be sent. */
  lemma {:induction false} LimitStops(s: Settings, ms: seq<Message>, tail: seq<byte>, limit: nat)
    requires s.maxPayload <= MOST && |ms| < WORD64 && |s.session| == 10
    requires limit < |ms| && forall i :: 0 <= i < |ms| ==> |ms[i]| < 0x1_0000
    ensures
      var c := ParseFile(Frames(ms) + tail);
      && Taken(c.msgs, Some(limit)) == ms[..limit]
      && (Convertible(s, c, Some(limit)) <==> forall i :: 0 <= i < limit ==> Sendable(s, ms[i]))
  {
    hide AllPackable, Feed, ParseFile, Frames;
    ParsesBefore(ms, tail);
    FeedPacksIff(s, ms[..limit]);
  }
}
