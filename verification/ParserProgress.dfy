// The hardware parser never stalls on its own: while the producer offers and
// the consumer is ready, every cycle brings the end closer.
module ParserProgress {
  import opened Bytes
  import opened Records
  import opened Itch
  import opened ItchParser
  import opened ParserSafety
  import opened ParserRuns

  /** Bytes of the datagrams from number k on. */
  function BytesFrom(ds: seq<Datagram>, k: nat): nat
    requires k <= |ds|
    decreases |ds| - k
  {
    if k == |ds| then 0 else |Payload(ds[k])| + BytesFrom(ds, k + 1)
  }

  /** Bytes still to be accepted. */
  function BytesLeft(ds: seq<Datagram>, a: Accepted): (n: nat)
    requires Conforms(ds, a)
  {
    assert |a.done| < |ds| ==> |a.part| < |Payload(ds[|a.done|])|;
    BytesFrom(ds, |a.done|) - |a.part|
  }

  /** States a message passes through, at most. */
  function StatesOf(p: Params, m: Message): nat
    requires Sound(p)
  {
    6 + BodyWordsOf(p, |m|)
  }

  function StatesOfAll(p: Params, ms: seq<Message>): nat
    requires Sound(p)
  {
    if ms == [] then 0 else StatesOf(p, ms[0]) + StatesOfAll(p, ms[1..])
  }

  function StatesFrom(p: Params, ds: seq<Datagram>, k: nat): nat
    requires Sound(p) && k <= |ds|
    decreases |ds| - k
  {
    if k == |ds| then 0 else 1 + StatesOfAll(p, ds[k].msgs) + StatesFrom(p, ds, k + 1)
  }

  /** States left for the message in work. */
  function StatesHere(p: Params, r: Regs, m: Message): int
    requires Sound(p)
  {
    match r.st
    case LEN => StatesOf(p, m)
    case CAP => StatesOf(p, m) - 1
    case W0 => StatesOf(p, m) - 2
    case TS => StatesOf(p, m) - 3
    case BODY => StatesOf(p, m) - 4 - r.bi
    case _ => 1
  }

  /** States left for all datagrams. */
  function StatesLeft(z: Sizes, ds: seq<Datagram>, c: Config): int
    requires Fit(z) && Inv(z, ds, c)
  {
    var k := At(c.a, c.r.eop);
    if c.r.st.HDR? then StatesFrom(z.p, ds, k)
    else
      var j := |ds[k].msgs| - c.r.packLeft;
      StatesHere(z.p, c.r, ds[k].msgs[j]) + StatesOfAll(z.p, ds[k].msgs[j + 1..]) + StatesFrom(z.p, ds, k + 1)
  }

  /** Bytes to accept plus states to pass through. */
  function Work(z: Sizes, ds: seq<Datagram>, c: Config): int
    requires Fit(z) && Inv(z, ds, c)
  {
    BytesLeft(ds, c.a) + StatesLeft(z, ds, c)
  }

  /** A header or a message is still incomplete. */
  predicate Waiting(r: Regs) {
    (r.st.HDR? && |r.q| < MOLD_HEADER) || (r.st.LEN? && (|r.q| < 2 || |r.q| < 2 + DeclaredLength(r.q)))
  }

  /** All datagrams are in, decoded and closed. */
  predicate Finished(ds: seq<Datagram>, c: Config) {
    c.r.st.HDR? && At(c.a, c.r.eop) == |ds|
  }

  /** The producer offers while it has bytes; the consumer is ready. */
  predicate Eager(ds: seq<Datagram>, c: Config, i: In)
    requires Conforms(ds, c.a)
  {
    i.mready && (i.tvalid || BytesLeft(ds, c.a) == 0)
  }

  /** While a header or a message is incomplete, a whole beat always fits. */
  lemma {:induction false} RoomForBeat(z: Sizes, ds: seq<Datagram>, c: Config, i: In)
    requires Fit(z) && AllFit(z, ds) && Inv(z, ds, c) && !Finished(ds, c) && WellKept(z, i)
    requires Waiting(c.r)
    ensures TReady(z, c.r, |i.bytes|) && BytesLeft(ds, c.a) > 0
  {
    hide Payload, StreamWords, FirstWords, MessageWords, Captured, BytesFrom;
    var k := At(c.a, c.r.eop);
    if c.r.st.HDR? {
      HdrReads(z, ds, c);
    } else {
      LenReads(z, ds, c, k, |ds[k].msgs| - c.r.packLeft);
    }
    MoreToCome(ds, c.a);
  }

  lemma {:induction false} MoreToCome(ds: seq<Datagram>, a: Accepted)
    requires Conforms(ds, a)
    ensures |a.done| < |ds| ==> BytesLeft(ds, a) > 0
  {
    hide Payload;
  }

  /** An accepted beat leaves less to accept. */
  lemma {:induction false} BytesFall(ds: seq<Datagram>, a: Accepted, bytes: seq<byte>, last: bool)
    requires bytes != [] && Conforms(ds, a) && Conforms(ds, Accept(a, bytes, last))
    ensures BytesLeft(ds, Accept(a, bytes, last)) == BytesLeft(ds, a) - |bytes|
  {
    hide Payload;
    if last {
      assert Accept(a, bytes, last).done[|a.done|] == a.part + bytes;
    }
  }

  lemma {:induction false} StatesUnfold(p: Params, ds: seq<Datagram>, k: nat, j: nat)
    requires Sound(p) && k < |ds| && j <= |ds[k].msgs|
    ensures StatesFrom(p, ds, k) == 1 + StatesOfAll(p, ds[k].msgs[0..]) + StatesFrom(p, ds, k + 1)
    ensures j == |ds[k].msgs| ==> StatesOfAll(p, ds[k].msgs[j..]) == 0
    ensures j < |ds[k].msgs| ==>
              StatesOfAll(p, ds[k].msgs[j..]) == StatesOf(p, ds[k].msgs[j]) + StatesOfAll(p, ds[k].msgs[j + 1..])
  {
    assert ds[k].msgs[0..] == ds[k].msgs;
    if j < |ds[k].msgs| {
      assert ds[k].msgs[j..][1..] == ds[k].msgs[j + 1..];
    }
  }

  /** The datagram in work changes only when it is closed. */
  lemma {:induction false} AtStays(z: Sizes, c: Config, i: In)
    requires Fit(z) && WellKept(z, i) && !c.r.drop
    ensures At(Tick(z, c, i).a, Advance(z, c.r, i).eop) == At(c.a, c.r.eop)
  {
    hide Edge;
  }

  /** Where the parser is after an edge with a ready consumer: at a header, */
  lemma {:induction false} PlaceHdr(z: Sizes, ds: seq<Datagram>, c: Config, i: In)
    requires Fit(z) && AllFit(z, ds) && WellKept(z, i) && Inv(z, ds, c) && c.r.st.HDR? && !Finished(ds, c)
    requires !Tick(z, c, i).r.drop
    ensures
      var d, k := Tick(z, c, i), At(c.a, c.r.eop);
      && k < |ds|
      && (if Waiting(c.r) then d.r.st.HDR? && At(d.a, d.r.eop) == k
          else if ds[k].msgs == [] then d.r.st.HDR? && At(d.a, d.r.eop) == k + 1
          else d.r.st.LEN? && d.r.packLeft == |ds[k].msgs| && At(d.a, d.r.eop) == k)
  {
    hide Payload, StreamWords, CountBefore, Queued, Advance, Frames, BigEndian, GapCount, Conforms, Accept;
    HdrReads(z, ds, c);
    AtStays(z, c, i);
  }

  /** at a length, */
  lemma {:induction false} PlaceLen(z: Sizes, ds: seq<Datagram>, c: Config, i: In)
    requires Fit(z) && AllFit(z, ds) && WellKept(z, i) && Inv(z, ds, c) && c.r.st.LEN?
    ensures
      var d := Tick(z, c, i);
      && d.r.packLeft == c.r.packLeft && At(d.a, d.r.eop) == At(c.a, c.r.eop)
      && (if Waiting(c.r) then d.r.st.LEN? else d.r.st.CAP?)
  {
    hide Payload, StreamWords, CountBefore, Queued, Advance, Frames, BigEndian, GapCount, Conforms, Accept, InWork,
         Capture, DeclaredLength;
    var k := At(c.a, c.r.eop);
    LenReads(z, ds, c, k, |ds[k].msgs| - c.r.packLeft);
    AtStays(z, c, i);
  }

  /** emitting, */
  lemma {:induction false} PlaceEmit(z: Sizes, ds: seq<Datagram>, c: Config, i: In)
    requires Fit(z) && WellKept(z, i) && Inv(z, ds, c) && i.mready && (c.r.st.CAP? || Emitting(c.r.st))
    ensures
      var d := Tick(z, c, i);
      && d.r.packLeft == c.r.packLeft && At(d.a, d.r.eop) == At(c.a, c.r.eop) && Onward(c.r, d.r)
  {
    hide Payload, StreamWords, CountBefore, Queued, Advance, Frames, GapCount, Conforms, Accept, InWork, HeadWord,
         SecondWord, CapturedWord;
    AtStays(z, c, i);
  }

  /** and past a message. */
  lemma {:induction false} PlaceNext(z: Sizes, ds: seq<Datagram>, c: Config, i: In)
    requires Fit(z) && WellKept(z, i) && Inv(z, ds, c) && i.mready && c.r.st.NEXT? && !Tick(z, c, i).r.drop
    ensures
      var d, k := Tick(z, c, i), At(c.a, c.r.eop);
      if c.r.packLeft == 1 then d.r.st.HDR? && At(d.a, d.r.eop) == k + 1
      else d.r.st.LEN? && d.r.packLeft == c.r.packLeft - 1 && At(d.a, d.r.eop) == k
  {
    hide Payload, StreamWords, CountBefore, Queued, Advance, Frames, GapCount, Conforms, Accept, InWork;
    AtStays(z, c, i);
  }

  /** The next state of a message, one word further. */
  predicate Onward(r: Regs, s: Regs) {
    match r.st
    case LEN => s.st.CAP?
    case CAP => s.st.W0? || s.st.NEXT?
    case W0 => s.st.TS?
    case TS => s.st.BODY? && s.bi == r.bi
    case BODY => (s.st.BODY? && s.bi == r.bi + 1) || s.st.NEXT?
    case _ => false
  }

  /** The state of a message in work bounds its words. */
  lemma {:induction false} BodyBound(z: Sizes, ds: seq<Datagram>, c: Config)
    requires Fit(z) && Inv(z, ds, c) && !c.r.st.HDR?
    ensures
      var k := At(c.a, c.r.eop);
      var m := ds[k].msgs[|ds[k].msgs| - c.r.packLeft];
      && (c.r.st.BODY? ==> c.r.bi <= BodyWordsOf(z.p, |m|)) && (c.r.st.TS? ==> c.r.bi == 0)
      && StatesHere(z.p, c.r, m) >= 1
  {
    hide Payload, StreamWords, CountBefore, Queued, Frames, GapCount, Conforms, BodyWord, BodyWordsOf, FirstWord,
         OtherWord, FirstWords;
  }

  /** Unless a header or a message is incomplete, an edge passes a state. */
  lemma {:induction false} StatesFall(z: Sizes, ds: seq<Datagram>, c: Config, i: In)
    requires Fit(z) && AllFit(z, ds) && WellKept(z, i) && Inv(z, ds, c) && Inv(z, ds, Tick(z, c, i))
    requires !Finished(ds, c) && i.mready
    ensures StatesLeft(z, ds, Tick(z, c, i)) < StatesLeft(z, ds, c)
            || (Waiting(c.r) && StatesLeft(z, ds, Tick(z, c, i)) == StatesLeft(z, ds, c))
  {
    hide Tick, MessageInv, HdrInv, StatesFrom, StatesOfAll, BodyWordsOf, DeclaredLength, Conforms, AllFit, RegsShaped;
    var k := At(c.a, c.r.eop);
    if c.r.st.HDR? {
      PlaceHdr(z, ds, c, i);
      StatesUnfold(z.p, ds, k, 0);
    } else {
      var j := |ds[k].msgs| - c.r.packLeft;
      BodyBound(z, ds, c);
      StatesUnfold(z.p, ds, k, j + 1);
      if c.r.st.LEN? {
        PlaceLen(z, ds, c, i);
      } else if c.r.st.NEXT? {
        PlaceNext(z, ds, c, i);
      } else {
        PlaceEmit(z, ds, c, i);
      }
    }
  }

  /** Each cycle with an eager producer and consumer leaves less to do. */
  lemma {:induction false} WorkFalls(z: Sizes, ds: seq<Datagram>, c: Config, i: In)
    requires Steps(z, ds, c, i) && Inv(z, ds, Tick(z, c, i)) && !Finished(ds, c) && Eager(ds, c, i)
    ensures Work(z, ds, Tick(z, c, i)) < Work(z, ds, c)
  {
    hide Inv, Edge, StatesLeft, Waiting, BytesLeft, Conforms, TReady, AllFit;
    StatesFall(z, ds, c, i);
    if Waiting(c.r) {
      RoomForBeat(z, ds, c, i);
    }
    if Takes(z, c.r, i) {
      ConformsBefore(ds, c.a, i.bytes, i.last);
      BytesFall(ds, c.a, i.bytes, i.last);
    }
  }

  /** Without an offered word the consumer's ready line does not matter. */
  lemma {:induction false} ReadyUnseen(z: Sizes, c: Config, i: In)
    requires Fit(z) && WellKept(z, i) && !c.r.outValid
    ensures Tick(z, c, i) == Tick(z, c, i.(mready := true))
  {
    hide EdgeHdr, EdgeLen, EdgeBody, EdgeNext, HeadWord, SecondWord, Drained, Emits;
  }

  /** With a word on offer that is not taken, the message in work stays where it is. */
  lemma {:induction false} Stalled(z: Sizes, ds: seq<Datagram>, c: Config, i: In)
    requires Fit(z) && WellKept(z, i) && Inv(z, ds, c) && c.r.outValid && !i.mready
    ensures
      var d := Tick(z, c, i);
      && (c.r.st.TS? || c.r.st.BODY?) && d.r.st == c.r.st && d.r.bi == c.r.bi && d.r.packLeft == c.r.packLeft
      && At(d.a, d.r.eop) == At(c.a, c.r.eop)
  {
    hide Payload, StreamWords, CountBefore, Queued, Advance, Frames, GapCount, Conforms, Accept, HeadWord, SecondWord,
         CapturedWord;
    AtStays(z, c, i);
  }

  /** Whatever the consumer does, no cycle leaves more to do. */
  lemma {:induction false} WorkNeverRises(z: Sizes, ds: seq<Datagram>, c: Config, i: In)
    requires Steps(z, ds, c, i) && Inv(z, ds, Tick(z, c, i))
    ensures Work(z, ds, Tick(z, c, i)) <= Work(z, ds, c)
    ensures Finished(ds, c) ==> Finished(ds, Tick(z, c, i))
  {
    hide Inv, Edge, StatesLeft, Waiting, BytesLeft, Conforms, TReady, AllFit;
    StatesNeverRise(z, ds, c, i);
    if Takes(z, c.r, i) {
      ConformsBefore(ds, c.a, i.bytes, i.last);
      BytesFall(ds, c.a, i.bytes, i.last);
    }
  }

  lemma {:induction false} StatesNeverRise(z: Sizes, ds: seq<Datagram>, c: Config, i: In)
    requires Steps(z, ds, c, i) && Inv(z, ds, Tick(z, c, i))
    ensures StatesLeft(z, ds, Tick(z, c, i)) <= StatesLeft(z, ds, c)
    ensures Finished(ds, c) ==> Finished(ds, Tick(z, c, i))
  {
    hide Tick, Inv, StatesLeft, Conforms, AllFit, Finished;
    if Finished(ds, c) {
      FinishedStays(z, ds, c, i);
    } else if c.r.outValid && !i.mready {
      StalledStates(z, ds, c, i);
    } else {
      if !i.mready {
        ReadyUnseen(z, c, i);
      }
      StatesFall(z, ds, c, i.(mready := true));
    }
  }

  lemma {:induction false} StalledStates(z: Sizes, ds: seq<Datagram>, c: Config, i: In)
    requires Steps(z, ds, c, i) && Inv(z, ds, Tick(z, c, i)) && c.r.outValid && !i.mready
    ensures StatesLeft(z, ds, Tick(z, c, i)) == StatesLeft(z, ds, c)
  {
    hide Tick, MessageInv, HdrInv, StatesFrom, StatesOfAll, Conforms, AllFit, BodyWordsOf;
    Stalled(z, ds, c, i);
  }

  /** Past the last datagram nothing comes any more. */
  lemma {:induction false} FinishedStays(z: Sizes, ds: seq<Datagram>, c: Config, i: In)
    requires Steps(z, ds, c, i) && Inv(z, ds, Tick(z, c, i)) && Finished(ds, c)
    ensures Finished(ds, Tick(z, c, i)) && StatesLeft(z, ds, Tick(z, c, i)) == StatesLeft(z, ds, c)
  {
    hide Payload, StreamWords, CountBefore, Frames, BigEndian, GapCount;
    assert c.r.q == [] && !c.r.eop;
  }

  lemma {:induction false} WorkIsNatural(z: Sizes, ds: seq<Datagram>, c: Config)
    requires Fit(z) && Inv(z, ds, c)
    ensures Work(z, ds, c) >= 0 && (!Finished(ds, c) ==> Work(z, ds, c) > 0)
  {
    hide MessageInv, HdrInv, BytesLeft, Conforms;
    if !c.r.st.HDR? {
      BodyBound(z, ds, c);
    }
  }

  /** The parser run on from a configuration. */
  function Continue(z: Sizes, c: Config, ins: seq<In>): Config
    requires Fit(z) && AllWellKept(z, ins)
    decreases |ins|
  {
    if ins == [] then c else Continue(z, Tick(z, c, ins[0]), ins[1..])
  }

  /** Along the run the producer cuts these datagrams, and both sides are eager. */
  predicate EagerRun(z: Sizes, ds: seq<Datagram>, c: Config, ins: seq<In>)
    requires Fit(z) && AllWellKept(z, ins)
    decreases |ins|
  {
    Conforms(ds, c.a) && (ins != [] ==> Eager(ds, c, ins[0]) && EagerRun(z, ds, Tick(z, c, ins[0]), ins[1..]))
  }

  /** From every reachable configuration, as many eager cycles as there is work
      left deliver every word of every datagram. */
  lemma {:induction false} EverythingArrives(z: Sizes, ds: seq<Datagram>, c: Config, ins: seq<In>) returns (n: nat)
    requires Fit(z) && AllFit(z, ds) && AllWellKept(z, ins) && Inv(z, ds, c) && EagerRun(z, ds, c, ins)
    requires |ins| >= Work(z, ds, c)
    ensures n <= |ins| && n <= Work(z, ds, c)
    ensures
      var d := Continue(z, c, ins[..n]);
      Inv(z, ds, d) && Finished(ds, d) && d.sent == StreamWords(z.p, ds, |ds|) && d.gaps == GapCount(ds, |ds|)
    decreases |ins|
  {
    hide MessageInv, Edge, Work, StreamWords, BytesLeft, Queued;
    WorkIsNatural(z, ds, c);
    if Finished(ds, c) {
      n := 0;
      assert c.sent + [] == c.sent;
    } else {
      hide Inv;
      var d := Tick(z, c, ins[0]);
      InvStep(z, ds, c, ins[0]);
      WorkFalls(z, ds, c, ins[0]);
      var k := EverythingArrives(z, ds, d, ins[1..]);
      n := k + 1;
      assert ins[..n][1..] == ins[1..][..k];
    }
  }
}
