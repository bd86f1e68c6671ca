// Every run of the hardware parser: whatever the cutting of the datagrams into
// beats and whatever the schedules, the words on its bus are the records of
// the messages, and its gap pulses are the gaps of the sequence numbers.
module ParserSafety {
  import opened Bytes
  import opened Records
  import opened Itch
  import opened ItchParser

  // ---- what goes in ----

  /** Every message fits the queue and every header field its width. */
  predicate Fits(z: Sizes, d: Datagram) {
    && |d.session| == 10 && d.seq64 < WORD64 && |d.msgs| < 0x1_0000
    && forall i :: 0 <= i < |d.msgs| ==> 2 + |d.msgs[i]| <= z.qb
  }

  predicate AllFit(z: Sizes, ds: seq<Datagram>) {
    forall i :: 0 <= i < |ds| ==> Fits(z, ds[i])
  }

  /** What the parser has accepted: whole datagrams, and the bytes of the next one. */
  datatype Accepted = Accepted(done: seq<seq<byte>>, part: seq<byte>)

  function Accept(a: Accepted, bytes: seq<byte>, last: bool): Accepted {
    if last then Accepted(a.done + [a.part + bytes], []) else Accepted(a.done, a.part + bytes)
  }

  /** The accepted beats cut these datagrams, in order; the last beat of each is marked. */
  predicate Conforms(ds: seq<Datagram>, a: Accepted) {
    && |a.done| <= |ds| && (forall i :: 0 <= i < |a.done| ==> a.done[i] == Payload(ds[i]))
    && (if |a.done| == |ds| then a.part == [] else a.part < Payload(ds[|a.done|]))
  }

  // ---- what comes out ----

  /** The pins' history: accepted beats, delivered words, gap pulses. */
  datatype Config = Config(r: Regs, a: Accepted, sent: seq<Beat>, gaps: nat)

  function Tick(z: Sizes, c: Config, i: In): Config
    requires Fit(z) && WellKept(z, i)
  {
    var s := Edge(z, c.r, i);
    Config(s, if Takes(z, c.r, i) then Accept(c.a, i.bytes, i.last) else c.a,
           if c.r.outValid && i.mready then c.sent + [c.r.out] else c.sent,
           c.gaps + if s.gap then 1 else 0)
  }

  /** The registers keep their widths, whatever comes in. */
  lemma {:induction false} EdgeShaped(z: Sizes, r: Regs, i: In)
    requires Fit(z) && WellKept(z, i) && RegsShaped(z, r)
    ensures RegsShaped(z, Edge(z, r, i))
  {
    hide HeadWord, SecondWord, CapturedWord, TReady, Drained, Emits, EdgeHdr, EdgeLen, Advance;
    HdrShaped(z, r, Advance(z, r, i));
    LenShaped(z, r, Advance(z, r, i));
  }

  lemma {:induction false} HdrShaped(z: Sizes, r: Regs, s: Regs)
    requires RegsShaped(z, r) && RegsShaped(z, s)
    ensures RegsShaped(z, EdgeHdr(z, r, s))
  {
    hide NextHeader;
  }

  lemma {:induction false} LenShaped(z: Sizes, r: Regs, s: Regs)
    requires Fit(z) && RegsShaped(z, r) && RegsShaped(z, s)
    ensures RegsShaped(z, EdgeLen(z, r, s))
  {
    hide Capture, DeclaredLength;
  }

  predicate Recorded(m: Message) {
    m != [] && InSubset(m[0]) && |m| == ExpectedLength(m[0])
  }

  /** The words of one message; none when its type or length is not a record's. */
  function MessageWords(p: Params, m: Message, idx: nat): (bs: seq<Beat>)
    requires Sound(p)
    ensures |bs| == if Recorded(m) then 2 + BodyWordsOf(p, |m|) else 0
  {
    if !Recorded(m) then []
    else [Beat(FirstWord(p, m, idx), false), Beat(OtherWord(p, m, idx), false)]
         + seq(BodyWordsOf(p, |m|), i requires 0 <= i => Beat(BodyWord(p, m, i), i == BodyWordsOf(p, |m|) - 1))
  }

  function FirstWord(p: Params, m: Message, idx: nat): Word
    requires Sound(p) && |m| >= HEADER_LENGTH
  {
    [m[0]] + m[1..3] + [(|m| % 256) as byte] + if p.bytes == 4 then [] else ToBigEndian(idx % WORD32, 4)
  }

  function OtherWord(p: Params, m: Message, idx: nat): Word
    requires Sound(p) && |m| >= HEADER_LENGTH
  {
    if p.bytes == 4 then ToBigEndian(idx % WORD32, 4) else [0, 0] + m[5..11]
  }

  function BodyWord(p: Params, m: Message, i: nat): Word
    requires Sound(p)
  {
    var base := HEADER_LENGTH + p.bytes * i;
    seq<byte>(p.bytes, k requires 0 <= k < p.bytes => QByte(m, base + k))
  }

  /** The words of the first n messages of a list, numbered from idx. */
  function FirstWords(p: Params, ms: seq<Message>, idx: nat, n: nat): seq<Beat>
    requires Sound(p) && n <= |ms|
  {
    if n == 0 then [] else FirstWords(p, ms, idx, n - 1) + MessageWords(p, ms[n - 1], idx + n - 1)
  }

  /** How many messages the first k datagrams hold. */
  function CountBefore(ds: seq<Datagram>, k: nat): nat
    requires k <= |ds|
  {
    if k == 0 then 0 else CountBefore(ds, k - 1) + |ds[k - 1].msgs|
  }

  /** All words of the first k datagrams. */
  function StreamWords(p: Params, ds: seq<Datagram>, k: nat): seq<Beat>
    requires Sound(p) && k <= |ds|
  {
    if k == 0 then []
    else StreamWords(p, ds, k - 1) + FirstWords(p, ds[k - 1].msgs, CountBefore(ds, k - 1), |ds[k - 1].msgs|)
  }

  // ---- sequence numbers ----

  /** The session of the last datagram and the number expected next. */
  function SessionAfter(ds: seq<Datagram>, k: nat): seq<byte>
    requires k <= |ds|
  {
    if k == 0 then seq(10, _ => 0) else ds[k - 1].session
  }

  function ExpectedAfter(ds: seq<Datagram>, k: nat): nat
    requires k <= |ds|
  {
    if k == 0 then 1 else (ds[k - 1].seq64 + |ds[k - 1].msgs|) % WORD64
  }

  /** A gap: the same session goes on, but not at the expected number. */
  predicate IsGap(ds: seq<Datagram>, k: nat)
    requires k < |ds|
  {
    ds[k].session == SessionAfter(ds, k) && ds[k].seq64 != ExpectedAfter(ds, k)
  }

  function GapCount(ds: seq<Datagram>, k: nat): nat
    requires k <= |ds|
  {
    if k == 0 then 0 else GapCount(ds, k - 1) + if IsGap(ds, k - 1) then 1 else 0
  }

  // ---- the invariant ----

  /** The datagram in work: the last accepted one until it is closed, then the next. */
  function At(a: Accepted, eop: bool): int {
    |a.done| - if eop then 1 else 0
  }

  /** Its bytes still to be accepted. */
  function Rest(ds: seq<Datagram>, a: Accepted, eop: bool): seq<byte>
    requires Conforms(ds, a)
  {
    if eop || |a.done| == |ds| then [] else Payload(ds[|a.done|])[|a.part|..]
  }

  /** The bytes of the queue and those still to come make up what is left to do. */
  predicate Queued(ds: seq<Datagram>, q: seq<byte>, a: Accepted, eop: bool, want: seq<byte>)
    requires Conforms(ds, a)
  {
    q + Rest(ds, a, eop) == want
  }

  function WholeAt(ds: seq<Datagram>, k: int): seq<byte> {
    if 0 <= k < |ds| then Payload(ds[k]) else []
  }

  function Offered(valid: bool, out: Beat): seq<Beat> {
    if valid then [out] else []
  }

  /** Everything put on the bus so far, delivered or on offer. */
  function Shown(c: Config): seq<Beat> {
    c.sent + Offered(c.r.outValid, c.r.out)
  }

  /** The captured registers are those of the message. */
  predicate Captured(z: Sizes, r: Regs, m: Message)
    requires Fit(z)
  {
    && r.msgLen == |m|
    && (Emits(r) && r.lenOk <==> Recorded(m))
    && (Recorded(m) ==>
          && r.msgType == m[0] && r.locate == m[1..3] && r.ts == m[5..11] && r.bodyWords == BodyWordsOf(z.p, |m|)
          && |m| <= |r.msg| && r.msg[..|m|] == m)
  }

  /** A message is in work. */
  predicate Working(r: Regs) {
    r.st.LEN? || r.st.CAP? || r.st.W0? || r.st.TS? || r.st.BODY? || r.st.NEXT?
  }

  /** How many words of the message in work have been put on the bus. */
  function WordsShown(p: Params, r: Regs, m: Message): nat
    requires Sound(p)
  {
    match r.st
    case TS => 1
    case BODY => 2 + r.bi
    case NEXT => if Recorded(m) then 2 + BodyWordsOf(p, |m|) else 0
    case _ => 0
  }

  /** All words before message j of datagram k. */
  function WordsBefore(p: Params, ds: seq<Datagram>, k: nat, j: nat): seq<Beat>
    requires Sound(p) && k < |ds| && j <= |ds[k].msgs|
  {
    StreamWords(p, ds, k) + FirstWords(p, ds[k].msgs, CountBefore(ds, k), j)
  }

  /** Between datagrams: nothing of the last one is left. */
  predicate HdrInv(z: Sizes, ds: seq<Datagram>, c: Config)
    requires Fit(z) && Conforms(ds, c.a) && 0 <= At(c.a, c.r.eop) <= |ds|
  {
    var k := At(c.a, c.r.eop);
    && Queued(ds, c.r.q, c.a, c.r.eop, WholeAt(ds, k))
    && c.r.session == SessionAfter(ds, k) && c.r.expSeq == ExpectedAfter(ds, k)
    && c.r.msgIdx == CountBefore(ds, k) % WORD32
    && !c.r.outValid && Shown(c) == StreamWords(z.p, ds, k) && c.gaps == GapCount(ds, k)
  }

  /** The registers that place the parser inside datagram k at message j. */
  predicate Placed(ds: seq<Datagram>, r: Regs, gaps: nat, k: nat, j: nat)
    requires k < |ds|
  {
    && j < |ds[k].msgs| && r.packCount == |ds[k].msgs| && r.packLeft == |ds[k].msgs| - j
    && r.session == ds[k].session && r.thisSeq == ds[k].seq64 && gaps == GapCount(ds, k + 1)
    && r.msgIdx == (CountBefore(ds, k) + j) % WORD32
  }

  /** Message j of datagram k is in work: its captured registers and its words. */
  predicate InWork(z: Sizes, ds: seq<Datagram>, c: Config, k: nat, j: nat)
    requires Fit(z) && k < |ds| && j < |ds[k].msgs|
  {
    var m := ds[k].msgs[j];
    var words := MessageWords(z.p, m, CountBefore(ds, k) + j);
    && (c.r.st.LEN? || Captured(z, c.r, m))
    && (c.r.st.W0? || c.r.st.TS? || c.r.st.BODY? ==> Recorded(m))
    && (c.r.st.CAP? || c.r.st.W0? || c.r.st.TS? ==> c.r.bi == 0)
    && (c.r.outValid ==> c.r.st.TS? || c.r.st.BODY?)
    && WordsShown(z.p, c.r, m) <= |words|
    && Shown(c) == WordsBefore(z.p, ds, k, j) + words[..WordsShown(z.p, c.r, m)]
  }

  /** Inside a datagram. */
  predicate MessageInv(z: Sizes, ds: seq<Datagram>, c: Config, k: nat, j: nat)
    requires Fit(z) && Conforms(ds, c.a) && k < |ds|
  {
    && Placed(ds, c.r, c.gaps, k, j) && InWork(z, ds, c, k, j)
    && (c.r.st.CAP? ==> |c.r.q| >= 2 + |ds[k].msgs[j]|)
    && Queued(ds, c.r.q, c.a, c.r.eop, Frames(ds[k].msgs[if c.r.st.LEN? || c.r.st.CAP? then j else j + 1..]))
  }

  /** The parser in step with the datagrams. */
  predicate Inv(z: Sizes, ds: seq<Datagram>, c: Config)
    requires Fit(z)
  {
    && RegsShaped(z, c.r) && Conforms(ds, c.a) && !c.r.drop
    && 0 <= At(c.a, c.r.eop) && (c.r.eop ==> c.a.part == [])
    && if c.r.st.HDR? then HdrInv(z, ds, c)
       else
         var k := At(c.a, c.r.eop);
         Working(c.r) && k < |ds| && 0 < c.r.packLeft <= |ds[k].msgs|
           && MessageInv(z, ds, c, k, |ds[k].msgs| - c.r.packLeft)
  }

  // ---- bytes in, bytes out of the queue ----

  lemma {:induction false} DropPrefix(a: seq<byte>, b: seq<byte>, whole: seq<byte>)
    requires a + b <= whole
    ensures whole[|a|..] == b + whole[|a + b|..]
  {
  }

  /** Across an edge nothing is lost, repeated or mixed between datagrams. */
  lemma {:induction false} FlowStep(z: Sizes, ds: seq<Datagram>, c: Config, i: In, want: seq<byte>)
    requires Fit(z) && WellKept(z, i) && Conforms(ds, c.a) && !c.r.drop
    requires 0 <= At(c.a, c.r.eop) && (c.r.eop ==> c.a.part == []) && Conforms(ds, Tick(z, c, i).a)
    requires c.r.q[Drained(c.r)..] + Rest(ds, c.a, c.r.eop) == want
    ensures
      var s, b := Advance(z, c.r, i), Tick(z, c, i).a;
      && Queued(ds, s.q, b, s.eop, want)
      && At(b, s.eop) == At(c.a, c.r.eop) && (s.eop ==> b.part == [])
      && (want == [] && At(b, s.eop) < |ds| ==> s.eop && s.q == [])
  {
    hide Edge;
    var kept := c.r.q[Drained(c.r)..];
    if Takes(z, c.r, i) {
      var whole := Payload(ds[|c.a.done|]);
      assert i.last ==> Tick(z, c, i).a.done[|c.a.done|] == whole;
      DropPrefix(c.a.part, i.bytes, whole);
    }
  }

  /** The same when nothing is drained. */
  lemma {:induction false} FlowKeeps(z: Sizes, ds: seq<Datagram>, c: Config, i: In, want: seq<byte>)
    requires Fit(z) && WellKept(z, i) && Conforms(ds, c.a) && !c.r.drop
    requires 0 <= At(c.a, c.r.eop) && (c.r.eop ==> c.a.part == []) && Conforms(ds, Tick(z, c, i).a)
    requires Queued(ds, c.r.q, c.a, c.r.eop, want) && Drained(c.r) == 0
    ensures
      var s, b := Advance(z, c.r, i), Tick(z, c, i).a;
      && Queued(ds, s.q, b, s.eop, want) && |s.q| >= |c.r.q|
      && At(b, s.eop) == At(c.a, c.r.eop) && (s.eop ==> b.part == [])
      && (want == [] && At(b, s.eop) < |ds| ==> s.eop && s.q == [])
  {
    assert c.r.q[0..] == c.r.q;
    FlowStep(z, ds, c, i, want);
  }

  /** A closed datagram leaves the next one whole. */
  lemma {:induction false} NextIsWhole(ds: seq<Datagram>, b: Accepted)
    requires Conforms(ds, b) && b.part == []
    ensures Queued(ds, [], b, false, WholeAt(ds, |b.done|))
  {
  }

  /** The bus in one edge, before the state acts. */
  lemma {:induction false} BusStep(z: Sizes, c: Config, i: In)
    requires Fit(z) && WellKept(z, i)
    ensures Tick(z, c, i).sent + Offered(c.r.outValid && !i.mready, c.r.out) == Shown(c)
  {
    hide Edge;
  }

  // ---- fields at the head of the queue ----

  lemma {:induction false} FrameAtHead(m: Message, tail: seq<byte>, q: seq<byte>, rest: seq<byte>)
    requires q + rest == Frame(m) + tail && |m| < 256
    ensures |q| >= 2 ==> DeclaredLength(q) == |m|
    ensures |q| >= 2 + |m| ==> q[2..2 + |m|] == m && q[2 + |m|..] + rest == tail
    ensures rest == [] ==> |q| >= 2 + |m|
  {
    var whole := q + rest;
    assert |rest| == 0 ==> q == whole;
    if |q| >= 2 {
      assert Pow256(2) == 0x1_0000;
      BigEndianRoundTrip(|m|, 2);
      assert q[..2] == whole[..2] == ToBigEndian(|m|, 2);
    }
    if |q| >= 2 + |m| {
      assert q[2..2 + |m|] == whole[2..2 + |m|] == m;
      assert q[2 + |m|..] + rest == whole[2 + |m|..];
    }
  }

  lemma {:induction false} CaptureMatches(z: Sizes, r: Regs, m: Message)
    requires Fit(z) && |m| < 256 && |r.q| >= 2 + |m| && DeclaredLength(r.q) == |m| && r.q[2..2 + |m|] == m
    ensures Captured(z, Capture(z, r), m)
  {
    var c := Capture(z, r);
    assert forall i :: 0 <= i < |m| ==> QByte(r.q, 2 + i) == m[i];
    if Recorded(m) {
      assert c.locate == m[1..3] && c.ts == m[5..11] && c.msg[..|m|] == m;
    }
  }

  lemma {:induction false} HeaderAtHead(d: Datagram, q: seq<byte>, rest: seq<byte>)
    requires q + rest == Payload(d) && |q| >= MOLD_HEADER
    requires |d.session| == 10 && d.seq64 < WORD64 && |d.msgs| < 0x1_0000
    ensures q[..10] == d.session && BigEndian(q[10..18]) == d.seq64 && BigEndian(q[18..20]) == |d.msgs|
    ensures q[MOLD_HEADER..] + rest == Frames(d.msgs)
  {
    var whole := q + rest;
    assert Pow256(2) == 0x1_0000 && Pow256(8) == WORD64;
    BigEndianRoundTrip(d.seq64, 8);
    BigEndianRoundTrip(|d.msgs|, 2);
    assert q[..10] == whole[..10] == d.session;
    assert q[10..18] == whole[10..18] == ToBigEndian(d.seq64, 8);
    assert q[18..20] == whole[18..20] == ToBigEndian(|d.msgs|, 2);
    assert q[MOLD_HEADER..] + rest == whole[MOLD_HEADER..] == Frames(d.msgs);
  }

  lemma {:induction false} BodyWordMatches(p: Params, r: Regs, m: Message, i: nat)
    requires Sound(p) && r.msgLen == |m| <= |r.msg| && r.msg[..|m|] == m
    ensures CapturedWord(p, r, i) == BodyWord(p, m, i)
  {
    var base := HEADER_LENGTH + p.bytes * i;
    forall b: nat
      ensures CapturedByte(r, b) == QByte(m, b)
    {
      assert b < |m| ==> r.msg[..|m|][b] == m[b];
    }
    assert forall k :: 0 <= k < p.bytes ==> CapturedWord(p, r, i)[k] == CapturedByte(r, base + k);
  }

  /** The captured registers put the message's own words on the bus. */
  lemma {:induction false} WordsMatch(z: Sizes, r: Regs, m: Message, idx: nat)
    requires Fit(z) && RegsShaped(z, r) && Captured(z, r, m) && Recorded(m) && r.msgIdx == idx % WORD32
    ensures
      var words := MessageWords(z.p, m, idx);
      && Emits(r) && r.bodyWords > 0 && |words| == 2 + r.bodyWords
      && words[0] == Beat(HeadWord(z.p, r), false) && words[1] == Beat(SecondWord(z.p, r), false)
      && forall i :: 0 <= i < r.bodyWords ==> words[2 + i] == Beat(CapturedWord(z.p, r, i), i == r.bodyWords - 1)
  {
    hide CapturedWord, BodyWord;
    forall i | 0 <= i < r.bodyWords
      ensures CapturedWord(z.p, r, i) == BodyWord(z.p, m, i)
    {
      BodyWordMatches(z.p, r, m, i);
    }
  }

  lemma {:induction false} NextFrame(ms: seq<Message>, j: nat)
    requires j <= |ms|
    ensures j == |ms| ==> Frames(ms[j..]) == []
    ensures j < |ms| ==> Frames(ms[j..]) == Frame(ms[j]) + Frames(ms[j + 1..])
  {
    if j < |ms| {
      assert ms[j..][1..] == ms[j + 1..];
    }
  }

  // ---- one edge ----

  predicate Steps(z: Sizes, ds: seq<Datagram>, c: Config, i: In) {
    && Fit(z) && WellKept(z, i) && AllFit(z, ds) && Inv(z, ds, c)
    && Conforms(ds, Tick(z, c, i).a)
  }

  /** The words and counts at the start of a datagram, and past one without messages. */
  lemma {:induction false} DatagramStarts(p: Params, ds: seq<Datagram>, k: nat)
    requires Sound(p) && k < |ds|
    ensures WordsBefore(p, ds, k, 0) == StreamWords(p, ds, k)
    ensures GapCount(ds, k + 1) == GapCount(ds, k) + if IsGap(ds, k) then 1 else 0
    ensures |ds[k].msgs| == 0 ==>
            StreamWords(p, ds, k + 1) == StreamWords(p, ds, k) && CountBefore(ds, k + 1) == CountBefore(ds, k)
  {
  }

  /** The edge that takes a header. */
  lemma {:induction false} HdrEdge(z: Sizes, c: Config, i: In)
    requires Fit(z) && WellKept(z, i) && c.r.st.HDR? && !c.r.drop && |c.r.q| >= MOLD_HEADER
    ensures
      var q, s, t := c.r.q, Advance(z, c.r, i), Edge(z, c.r, i);
      var id, n, count := q[..10], BigEndian(q[10..18]), BigEndian(q[18..20]);
      var u := s.(thisSeq := n, packLeft := count, packCount := count, session := id,
                  expSeq := if id != c.r.session then n else c.r.expSeq, gap := id == c.r.session && n != c.r.expSeq);
      && (count != 0 ==> t == u.(st := LEN))
      && (count == 0 && s.eop && s.q == [] ==> t == u.(expSeq := n, eop := false))
  {
  }

  /** A header with messages: the tracker takes it, and a gap pulses exactly for a gap. */
  lemma {:induction false} TakeHeader(z: Sizes, ds: seq<Datagram>, c: Config, i: In)
    requires Steps(z, ds, c, i) && c.r.st.HDR? && |c.r.q| >= MOLD_HEADER && At(c.a, c.r.eop) < |ds|
             && ds[At(c.a, c.r.eop)].msgs != []
    ensures Inv(z, ds, Tick(z, c, i))
  {
    hide Payload, Frames, MessageWords, Advance, Edge, Conforms, Rest, AllFit, Queued, Fits, StreamWords, CountBefore,
         GapCount, WordsBefore;
    hide BigEndian, Captured, Drained, Accept, TReady, Recorded, Bytes.Pow256, FirstWords;
    var k, d := At(c.a, c.r.eop), Tick(z, c, i);
    HdrReads(z, ds, c);
    FlowStep(z, ds, c, i, Frames(ds[k].msgs));
    BusStep(z, c, i);
    HdrEdge(z, c, i);
    DatagramStarts(z.p, ds, k);
    assert ds[k].msgs[0..] == ds[k].msgs;
    assert Placed(ds, d.r, d.gaps, k, 0);
    assert InWork(z, ds, d, k, 0);
  }

  /** A header without messages closes its datagram at once. */
  lemma {:induction false} TakeEmpty(z: Sizes, ds: seq<Datagram>, c: Config, i: In)
    requires Steps(z, ds, c, i) && c.r.st.HDR? && |c.r.q| >= MOLD_HEADER && At(c.a, c.r.eop) < |ds|
             && ds[At(c.a, c.r.eop)].msgs == []
    ensures Inv(z, ds, Tick(z, c, i))
  {
    hide Payload, Frames, MessageWords, Advance, Edge, Conforms, Rest, AllFit, Queued, Fits, StreamWords, CountBefore,
         GapCount, WordsBefore;
    hide BigEndian, Captured, Drained, Accept, TReady, Recorded, Bytes.Pow256, FirstWords;
    var k, d := At(c.a, c.r.eop), Tick(z, c, i);
    HdrReads(z, ds, c);
    NextFrame(ds[k].msgs, 0);
    assert ds[k].msgs[0..] == ds[k].msgs;
    FlowStep(z, ds, c, i, []);
    BusStep(z, c, i);
    HdrEdge(z, c, i);
    DatagramStarts(z.p, ds, k);
    NextIsWhole(ds, d.a);
    assert HdrInv(z, ds, d);
  }

  lemma {:induction false} StepHdr(z: Sizes, ds: seq<Datagram>, c: Config, i: In)
    requires Steps(z, ds, c, i) && c.r.st.HDR?
    ensures Inv(z, ds, Tick(z, c, i))
  {
    if |c.r.q| >= MOLD_HEADER {
      HdrReads(z, ds, c);
      if ds[At(c.a, c.r.eop)].msgs == [] {
        TakeEmpty(z, ds, c, i);
      } else {
        TakeHeader(z, ds, c, i);
      }
    } else {
      hide Payload, Frames, MessageWords, Advance, Conforms, Rest, AllFit, Queued, Fits, StreamWords, CountBefore,
           GapCount;
      HdrReads(z, ds, c);
      BusStep(z, c, i);
      FlowKeeps(z, ds, c, i, WholeAt(ds, At(c.a, c.r.eop)));
    }
  }

  /** What the header state reads. */
  lemma {:induction false} HdrReads(z: Sizes, ds: seq<Datagram>, c: Config)
    requires Fit(z) && AllFit(z, ds) && Conforms(ds, c.a) && c.r.st.HDR? && RegsShaped(z, c.r)
    requires 0 <= At(c.a, c.r.eop) && (c.r.eop ==> c.a.part == [])
    requires Queued(ds, c.r.q, c.a, c.r.eop, WholeAt(ds, At(c.a, c.r.eop)))
    ensures At(c.a, c.r.eop) <= |ds|
    ensures
      var k, q := At(c.a, c.r.eop), c.r.q;
      && (c.r.eop ==> |q| >= MOLD_HEADER)
      && (|q| >= MOLD_HEADER ==>
            && k < |ds| && ds[k].seq64 < WORD64 && q[..10] == ds[k].session && BigEndian(q[10..18]) == ds[k].seq64
            && BigEndian(q[18..20]) == |ds[k].msgs|
            && q[MOLD_HEADER..] + Rest(ds, c.a, c.r.eop) == Frames(ds[k].msgs))
      && (Drained(c.r) == if |q| >= MOLD_HEADER then MOLD_HEADER else 0)
  {
    hide Payload;
    var k := At(c.a, c.r.eop);
    if k < |ds| {
      assert Fits(z, ds[k]);
      assert c.r.eop ==> c.r.q == Payload(ds[k]);
      if |c.r.q| >= MOLD_HEADER {
        HeaderAtHead(ds[k], c.r.q, Rest(ds, c.a, c.r.eop));
      }
    }
  }

  /** The length: the message is captured as soon as it is in whole. */
  lemma {:induction false} StepLen(z: Sizes, ds: seq<Datagram>, c: Config, i: In)
    requires Steps(z, ds, c, i) && c.r.st.LEN?
    ensures Inv(z, ds, Tick(z, c, i))
  {
    hide Payload, Frames, MessageWords, Advance, Conforms, FirstWords, StreamWords, Rest, Capture, Captured,
         DeclaredLength, CountBefore, GapCount, MessageWords, Queued;
    var k := At(c.a, c.r.eop);
    var j := |ds[k].msgs| - c.r.packLeft;
    var m := ds[k].msgs[j];
    LenReads(z, ds, c, k, j);
    FlowKeeps(z, ds, c, i, Frames(ds[k].msgs[j..]));
    BusStep(z, c, i);
    if |c.r.q| >= 2 + |m| {
      CaptureMatches(z, c.r, m);
      SameCapture(z, Capture(z, c.r), Tick(z, c, i).r, m);
    }
  }

  lemma {:induction false} SameCapture(z: Sizes, r: Regs, s: Regs, m: Message)
    requires Fit(z) && Captured(z, r, m)
    requires s.msgLen == r.msgLen && s.msgType == r.msgType && s.locate == r.locate && s.ts == r.ts
             && s.lenOk == r.lenOk
    requires s.msg == r.msg && s.bodyWords == r.bodyWords
    ensures Captured(z, s, m)
  {
  }

  /** What the length state reads. */
  lemma {:induction false} LenReads(z: Sizes, ds: seq<Datagram>, c: Config, k: nat, j: nat)
    requires Fit(z) && AllFit(z, ds) && k < |ds| && j < |ds[k].msgs| && Conforms(ds, c.a)
    requires Queued(ds, c.r.q, c.a, c.r.eop, Frames(ds[k].msgs[j..]))
    ensures
      var q, m := c.r.q, ds[k].msgs[j];
      && 2 + |m| <= z.qb && (c.r.eop ==> |q| >= 2 + |m|)
      && (|q| >= 2 ==> DeclaredLength(q) == |m|)
      && (|q| >= 2 + |m| ==>
            q[2..2 + |m|] == m && q[2 + |m|..] + Rest(ds, c.a, c.r.eop) == Frames(ds[k].msgs[j + 1..]))
  {
    hide Frames, Frame, Payload;
    NextFrame(ds[k].msgs, j);
    assert Fits(z, ds[k]);
    FrameAtHead(ds[k].msgs[j], Frames(ds[k].msgs[j + 1..]), c.r.q, Rest(ds, c.a, c.r.eop));
  }

  /** The captured message leaves the queue whole, and once: no word is on offer here. */
  lemma {:induction false} StepCap(z: Sizes, ds: seq<Datagram>, c: Config, i: In)
    requires Steps(z, ds, c, i) && c.r.st.CAP?
    ensures Inv(z, ds, Tick(z, c, i))
  {
    hide Payload, Frames, MessageWords, Advance, Conforms, Rest, Queued, StreamWords, FirstWords, CountBefore,
         GapCount, DeclaredLength;
    var k := At(c.a, c.r.eop);
    var j := |ds[k].msgs| - c.r.packLeft;
    var m := ds[k].msgs[j];
    var d := Tick(z, c, i);
    LenReads(z, ds, c, k, j);
    FlowStep(z, ds, c, i, Frames(ds[k].msgs[j + 1..]));
    BusStep(z, c, i);
    SameCapture(z, c.r, d.r, m);
    if !Recorded(m) {
      NoWords(z.p, m, CountBefore(ds, k) + j);
    }
    assert InWork(z, ds, d, k, j);
  }

  lemma {:induction false} NoWords(p: Params, m: Message, idx: nat)
    requires Sound(p) && !Recorded(m)
    ensures MessageWords(p, m, idx) == []
  {
  }

  /** One more word of a record on the bus. */
  lemma {:induction false} ShowsOneMore(sent: seq<Beat>, base: seq<Beat>, words: seq<Beat>, n: nat)
    requires n < |words| && sent + [] == base + words[..n]
    ensures sent + [words[n]] == base + words[..n + 1]
  {
    assert words[..n + 1] == words[..n] + [words[n]];
    assert sent + [] == sent;
  }

  predicate Emitting(st: St) {
    st.W0? || st.TS? || st.BODY?
  }

  /** What an emission state does once the bus is free. */
  lemma {:induction false} EmitEdge(z: Sizes, r: Regs, i: In, m: Message, idx: nat)
    requires Fit(z) && WellKept(z, i) && RegsShaped(z, r) && !r.drop && Emitting(r.st)
    requires Captured(z, r, m) && Recorded(m) && r.msgIdx == idx % WORD32
    requires WordsShown(z.p, r, m) <= |MessageWords(z.p, m, idx)| && (r.st.BODY? || r.bi == 0)
    ensures
      var s, t := Advance(z, r, i), Edge(z, r, i);
      var words, n := MessageWords(z.p, m, idx), WordsShown(z.p, r, m);
      && t == s.(outValid := t.outValid, out := t.out, st := t.st, bi := t.bi)
      && (!OutFree(r, i) ==> t == s && WordsShown(z.p, t, m) == n)
      && (OutFree(r, i) && n < |words| ==>
          t.outValid && t.out == words[n] && ((t.st.TS? && t.bi == 0) || t.st.BODY?) && WordsShown(z.p, t, m) == n + 1)
      && (OutFree(r, i) && n == |words| ==> !t.outValid && t.st.NEXT? && WordsShown(z.p, t, m) == n)
  {
    hide MessageWords, HeadWord, SecondWord, CapturedWord, BodyWordsOf, Advance, EdgeHdr, EdgeLen, EdgeNext, Discard,
         CoversFields;
    WordsMatch(z, r, m, idx);
  }

  /** The emission states put the record's words on the bus, each once the last is taken. */
  lemma {:induction false} StepEmit(z: Sizes, ds: seq<Datagram>, c: Config, i: In)
    requires Steps(z, ds, c, i) && Emitting(c.r.st)
    ensures Inv(z, ds, Tick(z, c, i))
  {
    hide Payload, Frames, MessageWords, Advance, Conforms, Rest, Queued, StreamWords, FirstWords, CountBefore,
         GapCount, Edge, WordsBefore;
    hide Captured, WordsShown;
    var k := At(c.a, c.r.eop);
    var j := |ds[k].msgs| - c.r.packLeft;
    var m, idx := ds[k].msgs[j], CountBefore(ds, k) + j;
    var d := Tick(z, c, i);
    var words, n := MessageWords(z.p, m, idx), WordsShown(z.p, c.r, m);
    FlowKeeps(z, ds, c, i, Frames(ds[k].msgs[j + 1..]));
    BusStep(z, c, i);
    EmitEdge(z, c.r, i, m, idx);
    SameCapture(z, c.r, d.r, m);
    if OutFree(c.r, i) && n < |words| {
      ShowsOneMore(d.sent, WordsBefore(z.p, ds, k, j), words, n);
    }
    assert WordsShown(z.p, d.r, m) <= |words| && (d.r.st.NEXT? || Emitting(d.r.st));
    assert InWork(z, ds, d, k, j);
  }

  /** After the last word of a message: the words before the next one, or before the next datagram. */
  lemma {:induction false} MessageEnds(p: Params, ds: seq<Datagram>, k: nat, j: nat)
    requires Sound(p) && k < |ds| && j < |ds[k].msgs|
    ensures WordsBefore(p, ds, k, j + 1) == WordsBefore(p, ds, k, j)
            + MessageWords(p, ds[k].msgs[j], CountBefore(ds, k) + j)
    ensures WordsBefore(p, ds, k, |ds[k].msgs|) == StreamWords(p, ds, k + 1)
    ensures CountBefore(ds, k + 1) == CountBefore(ds, k) + |ds[k].msgs|
  {
    hide MessageWords;
  }

  lemma {:induction false} NextIndex(a: nat)
    ensures (a % WORD32 + 1) % WORD32 == (a + 1) % WORD32
  {
  }

  /** What the closing state does. */
  lemma {:induction false} NextEdge(z: Sizes, r: Regs, i: In)
    requires Fit(z) && WellKept(z, i) && r.st.NEXT? && !r.drop && !r.outValid
    ensures
      var s, t := Advance(z, r, i), Edge(z, r, i);
      var u := s.(msgIdx := (r.msgIdx + 1) % WORD32);
      && (r.packLeft > 1 ==> t == u.(packLeft := r.packLeft - 1, st := LEN))
      && (r.packLeft == 1 && s.eop && s.q == [] ==>
          t == u.(expSeq := (r.thisSeq + r.packCount) % WORD64, eop := false, st := HDR))
  {
    hide Advance;
  }

  /** The next message of the datagram, */
  lemma {:induction false} NextGoesOn(z: Sizes, ds: seq<Datagram>, c: Config, i: In)
    requires Steps(z, ds, c, i) && c.r.st.NEXT? && c.r.packLeft > 1
    ensures Inv(z, ds, Tick(z, c, i))
  {
    hide Payload, Frames, MessageWords, Advance, Conforms, Rest, Queued, StreamWords, CountBefore, GapCount,
         WordsBefore, Captured, Edge, Accept;
    hide FirstWords, Recorded, AllFit, BodyWordsOf, TReady, HdrInv;
    var k := At(c.a, c.r.eop);
    var j := |ds[k].msgs| - c.r.packLeft;
    var d := Tick(z, c, i);
    FlowKeeps(z, ds, c, i, Frames(ds[k].msgs[j + 1..]));
    BusStep(z, c, i);
    NextEdge(z, c.r, i);
    MessageEnds(z.p, ds, k, j);
    NextIndex(CountBefore(ds, k) + j);
    assert Placed(ds, d.r, d.gaps, k, j + 1);
    assert InWork(z, ds, d, k, j + 1);
  }

  /** Past the last message of a datagram: all its words are out and nothing of it is left. */
  lemma {:induction false} PastLast(z: Sizes, ds: seq<Datagram>, c: Config)
    requires Fit(z) && Inv(z, ds, c) && c.r.st.NEXT? && c.r.packLeft == 1
    ensures
      var k := At(c.a, c.r.eop);
      && 0 <= k < |ds| && ds[k].msgs != [] && !c.r.outValid && Queued(ds, c.r.q, c.a, c.r.eop, [])
      && c.r.packCount == |ds[k].msgs| && c.r.session == ds[k].session && c.r.thisSeq == ds[k].seq64
      && c.gaps == GapCount(ds, k + 1) && (c.r.msgIdx + 1) % WORD32 == CountBefore(ds, k + 1) % WORD32
      && Shown(c) == StreamWords(z.p, ds, k + 1)
  {
    hide Payload, MessageWords, Queued, StreamWords, CountBefore, GapCount, WordsBefore, Captured, FirstWords,
         Recorded, BodyWordsOf;
    var k := At(c.a, c.r.eop);
    var j := |ds[k].msgs| - 1;
    MessageEnds(z.p, ds, k, j);
    NextIndex(CountBefore(ds, k) + j);
    assert ds[k].msgs[j + 1..] == [];
    var words := MessageWords(z.p, ds[k].msgs[j], CountBefore(ds, k) + j);
    assert words[..|words|] == words;
  }

  /** or the datagram closed with nothing left of it. */
  lemma {:induction false} NextCloses(z: Sizes, ds: seq<Datagram>, c: Config, i: In)
    requires Steps(z, ds, c, i) && c.r.st.NEXT? && c.r.packLeft == 1
    ensures Inv(z, ds, Tick(z, c, i))
  {
    hide Payload, Advance, Conforms, Queued, StreamWords, CountBefore, GapCount, Edge, Accept, AllFit, TReady,
         MessageInv;
    var d := Tick(z, c, i);
    PastLast(z, ds, c);
    FlowKeeps(z, ds, c, i, []);
    BusStep(z, c, i);
    NextEdge(z, c.r, i);
    NextIsWhole(ds, d.a);
    assert HdrInv(z, ds, d);
  }

  lemma {:induction false} StepNext(z: Sizes, ds: seq<Datagram>, c: Config, i: In)
    requires Steps(z, ds, c, i) && c.r.st.NEXT?
    ensures Inv(z, ds, Tick(z, c, i))
  {
    hide Tick, InWork, Conforms, AllFit, Queued;
    if c.r.packLeft == 1 {
      NextCloses(z, ds, c, i);
    } else {
      NextGoesOn(z, ds, c, i);
    }
  }

  /** One cycle, any schedule. */
  lemma {:induction false} InvStep(z: Sizes, ds: seq<Datagram>, c: Config, i: In)
    requires Steps(z, ds, c, i)
    ensures Inv(z, ds, Tick(z, c, i))
  {
    hide HdrInv, MessageInv, Edge;
    match c.r.st
    case HDR => StepHdr(z, ds, c, i);
    case LEN => StepLen(z, ds, c, i);
    case CAP => StepCap(z, ds, c, i);
    case NEXT => StepNext(z, ds, c, i);
    case DRAIN =>
    case _ => StepEmit(z, ds, c, i);
  }
}
