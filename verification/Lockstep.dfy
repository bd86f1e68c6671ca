// Parser and book on one clock: the parser's bus is the book's input, and the
// book's ready line is the parser's consumer.
module Lockstep {
  import opened Bytes
  import opened Records
  import opened Receiver
  import opened Itch
  import opened WireToBook
  import Parser = ItchParser
  import ParserSafety
  import ParserRuns
  import Clock
  import ClockSafety
  import Runs

  datatype System = System(parser: ParserSafety.Config, book: ClockSafety.Config)

  /** The outer pins in one cycle: the wire, and the consumers of both channels. */
  datatype Pins = Pins(tvalid: bool, bytes: seq<byte>, last: bool, bboReady: bool, depthReady: bool)

  predicate WireKept(z: Parser.Sizes, i: Pins) {
    Parser.WellKept(z, Parser.In(i.tvalid, i.bytes, i.last, true))
  }

  /** The parser's registers have their widths, and the word on its bus has the bus's. */
  predicate BusShaped(z: Parser.Sizes, r: Parser.Regs) {
    Parser.RegsShaped(z, r) && (r.outValid ==> |r.out.data| == z.p.bytes)
  }

  lemma {:induction false} BusStaysShaped(z: Parser.Sizes, r: Parser.Regs, i: Parser.In)
    requires Parser.Fit(z) && Parser.WellKept(z, i) && BusShaped(z, r)
    ensures BusShaped(z, Parser.Edge(z, r, i))
  {
    hide Parser.Edge, Parser.RegsShaped;
    ParserSafety.EdgeShaped(z, r, i);
    if r.drop || !ParserSafety.Emitting(r.st) {
      BusKept(z, r, i);
    } else {
      WordShaped(z, r, i);
    }
  }

  /** Outside the emission states no word is put on the bus. */
  lemma {:induction false} BusKept(z: Parser.Sizes, r: Parser.Regs, i: Parser.In)
    requires Parser.Fit(z) && Parser.WellKept(z, i) && (r.drop || !ParserSafety.Emitting(r.st))
    ensures
      var s := Parser.Edge(z, r, i);
      s.outValid ==> r.outValid && s.out == r.out
  {
    hide Parser.EdgeHdr, Parser.EdgeLen, Parser.EdgeBody, Parser.EdgeNext, Parser.Discard, Parser.Emits,
         Parser.Advance, Parser.HeadWord, Parser.SecondWord;
    HdrKeepsBus(z, r, Parser.Advance(z, r, i));
    LenKeepsBus(z, r, Parser.Advance(z, r, i));
    OthersKeepBus(z, r, i, Parser.Advance(z, r, i));
  }

  /** The emission states put words of the bus's width on it. */
  lemma {:induction false} WordShaped(z: Parser.Sizes, r: Parser.Regs, i: Parser.In)
    requires Parser.Fit(z) && Parser.WellKept(z, i) && BusShaped(z, r) && !r.drop && ParserSafety.Emitting(r.st)
    ensures
      var s := Parser.Edge(z, r, i);
      s.outValid ==> |s.out.data| == z.p.bytes
  {
    hide Parser.Emits, Parser.CapturedByte, Parser.Advance, ToBigEndian;
  }

  lemma {:induction false} OthersKeepBus(z: Parser.Sizes, r: Parser.Regs, i: Parser.In, s: Parser.Regs)
    ensures !Parser.EdgeNext(r, s).outValid
    ensures Parser.Discard(z, r, i).out == r.out && (Parser.Discard(z, r, i).outValid ==> r.outValid)
  {
    hide Parser.Takes;
  }

  lemma {:induction false} HdrKeepsBus(z: Parser.Sizes, r: Parser.Regs, s: Parser.Regs)
    ensures Parser.EdgeHdr(z, r, s).outValid == s.outValid && Parser.EdgeHdr(z, r, s).out == s.out
  {
    hide Parser.NextHeader;
  }

  lemma {:induction false} LenKeepsBus(z: Parser.Sizes, r: Parser.Regs, s: Parser.Regs)
    requires Parser.Fit(z)
    ensures Parser.EdgeLen(z, r, s).outValid == s.outValid && Parser.EdgeLen(z, r, s).out == s.out
  {
    hide Parser.Capture, Parser.DeclaredLength;
  }

  predicate Shaped(z: Parser.Sizes, s: System)
    requires Parser.Fit(z)
  {
    BusShaped(z, s.parser.r) && ClockSafety.ConfigShaped(z.p, s.book)
  }

  // ---- one clock cycle ----

  function ParserPins(z: Parser.Sizes, s: System, i: Pins): (pin: Parser.In)
    requires Parser.Fit(z) && WireKept(z, i)
    ensures Parser.WellKept(z, pin)
  {
    Parser.In(i.tvalid, i.bytes, i.last, Clock.TReady(s.book.r))
  }

  function BookPins(z: Parser.Sizes, s: System, i: Pins): (pin: Clock.In)
    requires Parser.Fit(z) && Shaped(z, s)
    ensures |pin.beat.data| == z.p.bytes
  {
    Clock.In(s.parser.r.outValid, if s.parser.r.outValid then s.parser.r.out
             else Beat(Zeros(z.p.bytes), false), i.bboReady, i.depthReady)
  }

  function Tick(z: Parser.Sizes, s: System, i: Pins): (t: System)
    requires Parser.Fit(z) && Shaped(z, s) && WireKept(z, i)
    ensures Shaped(z, t)
  {
    BusStaysShaped(z, s.parser.r, ParserPins(z, s, i));
    System(ParserSafety.Tick(z, s.parser, ParserPins(z, s, i)), ClockSafety.Tick(z.p, s.book, BookPins(z, s, i)))
  }

  // ---- runs ----

  predicate Resets(z: Parser.Sizes, q0: Parser.Regs, r0: Clock.Regs)
    requires Parser.Fit(z)
  {
    Parser.IsReset(q0) && Runs.IsReset(z.p, r0)
  }

  predicate AllKept(z: Parser.Sizes, ins: seq<Pins>) {
    forall i :: 0 <= i < |ins| ==> WireKept(z, ins[i])
  }

  function Run(z: Parser.Sizes, q0: Parser.Regs, r0: Clock.Regs, ins: seq<Pins>): (s: System)
    requires Parser.Fit(z) && Resets(z, q0, r0) && AllKept(z, ins)
    ensures Shaped(z, s)
    decreases |ins|
  {
    if ins == [] then
      assert Parser.RegsShaped(z, q0);
      System(ParserSafety.Config(q0, ParserRuns.NOTHING, [], 0), ClockSafety.Config(r0, RxReset(z.p), [], []))
    else Tick(z, Run(z, q0, r0, ins[..|ins| - 1]), ins[|ins| - 1])
  }

  /** What the parser's pins and the book's pins see in a run. */
  function Seen(z: Parser.Sizes, q0: Parser.Regs, r0: Clock.Regs,
                ins: seq<Pins>): (seen: (seq<Parser.In>, seq<Clock.In>))
    requires Parser.Fit(z) && Resets(z, q0, r0) && AllKept(z, ins)
    ensures |seen.0| == |seen.1| == |ins| && ParserRuns.AllWellKept(z, seen.0) && Runs.Wired(z.p, seen.1)
    decreases |ins|
  {
    if ins == [] then ([], [])
    else
      var init, i := ins[..|ins| - 1], ins[|ins| - 1];
      var (pins, bins) := Seen(z, q0, r0, init);
      var s := Run(z, q0, r0, init);
      (pins + [ParserPins(z, s, i)], bins + [BookPins(z, s, i)])
  }

  /** A run of the system is a run of either machine under what its pins see, and the words
      the book has taken are the words the parser has sent. */
  lemma {:induction false} RunSplits(z: Parser.Sizes, q0: Parser.Regs, r0: Clock.Regs, ins: seq<Pins>)
    requires Parser.Fit(z) && Resets(z, q0, r0) && AllKept(z, ins)
    ensures
      var s, (pins, bins) := Run(z, q0, r0, ins), Seen(z, q0, r0, ins);
      && s.parser == ParserRuns.Run(z, q0, pins) && s.book == Runs.Run(z.p, r0, bins)
      && Taken(z.p, r0, bins) == s.parser.sent
    decreases |ins|
  {
    hide Parser.Edge, Clock.Edge, RxStep, ClockSafety.ConfigShaped, BusShaped;
    if ins != [] {
      var init, i := ins[..|ins| - 1], ins[|ins| - 1];
      RunSplits(z, q0, r0, init);
      var s := Run(z, q0, r0, init);
      var (pins, bins) := Seen(z, q0, r0, init);
      var pin, bin := ParserPins(z, s, i), BookPins(z, s, i);
      assert (pins + [pin])[..|pins|] == pins && (bins + [bin])[..|bins|] == bins;
      assert ClockSafety.Accepts(s.book.r, bin) <==> s.parser.r.outValid && pin.mready;
    }
  }

  // ---- what comes out ----

  /** The whole chain on one clock. For all datagrams whose messages fit the parser's queue,
      every cutting into beats, and every schedule of the wire and of both consumers: the
      finished records of the book are the first wire messages of the subset, and as long
      as these are tame both output channels carry exactly the reference book's events. */
  lemma {:induction false} SystemToBbo(z: Parser.Sizes, ds: seq<Datagram>, q0: Parser.Regs, r0: Clock.Regs,
                                       ins: seq<Pins>)
    requires Parser.Fit(z) && ParserSafety.AllFit(z, ds) && Resets(z, q0, r0) && AllKept(z, ins)
    requires ParserSafety.Conforms(ds, Run(z, q0, r0, ins).parser.a)
    ensures ShowsWire(z.p, ds, Run(z, q0, r0, ins).book)
  {
    hide Run, Seen, Runs.Run, ParserRuns.Run, Taken, ShowsWire;
    RunSplits(z, q0, r0, ins);
    var (pins, bins) := Seen(z, q0, r0, ins);
    WireToBbo(z, ds, q0, pins, r0, bins);
  }
}
