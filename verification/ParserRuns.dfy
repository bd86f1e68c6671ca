// Whole runs of the hardware parser against the reference decoder.
module ParserRuns {
  import opened Bytes
  import opened Records
  import opened Itch
  import opened ItchParser
  import opened ParserSafety

  predicate AllWellKept(z: Sizes, ins: seq<In>) {
    forall i :: 0 <= i < |ins| ==> WellKept(z, ins[i])
  }

  const NOTHING := Accepted([], [])

  /** The parser after all cycles, with the history of its pins. */
  function Run(z: Sizes, r0: Regs, ins: seq<In>): Config
    requires Fit(z) && AllWellKept(z, ins)
  {
    if ins == [] then Config(r0, NOTHING, [], 0)
    else Tick(z, Run(z, r0, ins[..|ins| - 1]), ins[|ins| - 1])
  }

  lemma {:induction false} ConformsBefore(ds: seq<Datagram>, a: Accepted, bytes: seq<byte>, last: bool)
    requires bytes != [] && Conforms(ds, Accept(a, bytes, last))
    ensures Conforms(ds, a)
  {
    var b := Accept(a, bytes, last);
    if last {
      assert b.done[|a.done|] == a.part + bytes;
      forall i | 0 <= i < |a.done|
        ensures a.done[i] == Payload(ds[i])
      {
        assert b.done[i] == a.done[i];
      }
    }
  }

  /** Every reachable configuration is in step with the datagrams it was fed. */
  lemma {:induction false} RunInv(z: Sizes, ds: seq<Datagram>, r0: Regs, ins: seq<In>)
    requires Fit(z) && AllFit(z, ds) && IsReset(r0) && AllWellKept(z, ins) && Conforms(ds, Run(z, r0, ins).a)
    ensures Inv(z, ds, Run(z, r0, ins))
  {
    hide MessageInv, Edge;
    if ins == [] {
      NextIsWhole(ds, NOTHING);
    } else {
      hide Inv, Conforms;
      var init, i := ins[..|ins| - 1], ins[|ins| - 1];
      var c := Run(z, r0, init);
      if Takes(z, c.r, i) {
        ConformsBefore(ds, c.a, i.bytes, i.last);
      }
      RunInv(z, ds, r0, init);
      InvStep(z, ds, c, i);
    }
  }

  lemma {:induction false} StreamsGrow(p: Params, ds: seq<Datagram>, k: nat, n: nat)
    requires Sound(p) && k <= n <= |ds|
    ensures StreamWords(p, ds, k) <= StreamWords(p, ds, n)
    decreases n
  {
    hide FirstWords, MessageWords, CountBefore;
    if k < n {
      StreamsGrow(p, ds, k, n - 1);
    }
  }

  lemma {:induction false} FirstWordsGrow(p: Params, ms: seq<Message>, idx: nat, j: nat, n: nat)
    requires Sound(p) && j <= n <= |ms|
    ensures FirstWords(p, ms, idx, j) <= FirstWords(p, ms, idx, n)
    decreases n
  {
    hide MessageWords;
    if j < n {
      FirstWordsGrow(p, ms, idx, j, n - 1);
    }
  }

  /** Words of a message in work are words of the whole stream. */
  lemma {:induction false} InWorkIsPrefix(p: Params, ds: seq<Datagram>, k: nat, j: nat, n: nat)
    requires Sound(p) && k < |ds| && j < |ds[k].msgs| && n <= |MessageWords(p, ds[k].msgs[j], CountBefore(ds, k) + j)|
    ensures WordsBefore(p, ds, k, j) + MessageWords(p, ds[k].msgs[j], CountBefore(ds, k) + j)[..n]
            <= StreamWords(p, ds, |ds|)
  {
    hide MessageWords, FirstWords, StreamWords;
    var ms, idx := ds[k].msgs, CountBefore(ds, k);
    var words := MessageWords(p, ms[j], idx + j);
    var here := FirstWords(p, ms, idx, j);
    OneMoreMessage(p, ds, k, j);
    FirstWordsGrow(p, ms, idx, j + 1, |ms|);
    StreamsGrow(p, ds, k + 1, |ds|);
    assert here + words[..n] <= here + words == FirstWords(p, ms, idx, j + 1);
    assert WordsBefore(p, ds, k, j) + words[..n] == StreamWords(p, ds, k) + (here + words[..n]);
  }

  lemma {:induction false} OneMoreMessage(p: Params, ds: seq<Datagram>, k: nat, j: nat)
    requires Sound(p) && k < |ds| && j < |ds[k].msgs|
    ensures
      var ms, idx := ds[k].msgs, CountBefore(ds, k);
      && FirstWords(p, ms, idx, j + 1) == FirstWords(p, ms, idx, j) + MessageWords(p, ms[j], idx + j)
      && StreamWords(p, ds, k + 1) == StreamWords(p, ds, k) + FirstWords(p, ms, idx, |ms|)
  {
    hide MessageWords;
  }

  /** The main theorem of the parser. For every list of datagrams whose messages fit
      the queue, every cutting into beats and every schedule on both sides: what is
      on the bus is always a beginning of the datagrams' words, exactly the words of
      the closed datagrams whenever the parser waits for a header, and the gap line
      has pulsed once per gap among the headers taken. */
  lemma {:induction false} ParserDelivers(z: Sizes, ds: seq<Datagram>, r0: Regs, ins: seq<In>)
    requires Fit(z) && AllFit(z, ds) && IsReset(r0) && AllWellKept(z, ins) && Conforms(ds, Run(z, r0, ins).a)
    ensures
      var c := Run(z, r0, ins);
      var k := At(c.a, c.r.eop);
      && 0 <= k <= |ds|
      && Shown(c) <= StreamWords(z.p, ds, |ds|)
      && (c.r.st.HDR? ==> Shown(c) == c.sent == StreamWords(z.p, ds, k))
      && (c.r.st.HDR? || k < |ds|)
      && c.gaps == GapCount(ds, if c.r.st.HDR? then k else k + 1)
  {
    hide Edge, Run, StreamWords, Queued, Captured, MessageWords, AllFit, AllWellKept, GapCount, WordsBefore, Rest;
    RunInv(z, ds, r0, ins);
    var c := Run(z, r0, ins);
    var k := At(c.a, c.r.eop);
    if c.r.st.HDR? {
      StreamsGrow(z.p, ds, k, |ds|);
      assert c.sent + [] == c.sent;
    } else {
      var j := |ds[k].msgs| - c.r.packLeft;
      InWorkIsPrefix(z.p, ds, k, j, WordsShown(z.p, c.r, ds[k].msgs[j]));
    }
  }

  /** No output word is pending when a message is captured, so it leaves the queue in
      one cycle; and the queue never outgrows its register. */
  lemma {:induction false} CaptureIsClean(z: Sizes, ds: seq<Datagram>, r0: Regs, ins: seq<In>, i: In)
    requires Fit(z) && AllFit(z, ds) && IsReset(r0) && AllWellKept(z, ins) && Conforms(ds, Run(z, r0, ins).a)
    requires WellKept(z, i) && Run(z, r0, ins).r.st.CAP?
    ensures
      var r := Run(z, r0, ins).r;
      && !r.outValid && Drained(r) == 2 + r.msgLen
      && (Edge(z, r, i).st.W0? || Edge(z, r, i).st.NEXT?)
  {
    hide Run, StreamWords, Captured, MessageWords, Advance, Conforms, AllFit, AllWellKept, GapCount, WordsBefore;
    RunInv(z, ds, r0, ins);
    var c := Run(z, r0, ins);
    hide Captured;
    var k := At(c.a, c.r.eop);
    CapturedLength(z, ds, c, k, |ds[k].msgs| - c.r.packLeft);
  }

  lemma {:induction false} CapturedLength(z: Sizes, ds: seq<Datagram>, c: Config, k: nat, j: nat)
    requires Fit(z) && AllFit(z, ds) && Conforms(ds, c.a) && k < |ds| && MessageInv(z, ds, c, k, j) && c.r.st.CAP?
    ensures 2 + c.r.msgLen <= z.qb && |c.r.q| >= 2 + c.r.msgLen && !c.r.outValid
  {
    assert Fits(z, ds[k]);
  }

  // ---- against the reference decoder ----

  lemma {:induction false} Widths()
    ensures Pow256(1) == 0x100 && Pow256(2) == 0x1_0000 && Pow256(4) == WORD32
  {
  }

  /** The digits of a record's first word are the message's own bytes. */
  lemma {:induction false} FirstWordDigits(m: Message, idx: nat)
    requires Recorded(m)
    ensures ToBigEndian(RecordOf(m, idx).word0, 8) == [m[0]] + m[1..3] + [(|m| % 256) as byte]
            + ToBigEndian(idx % WORD32, 4)
  {
    var low := ToBigEndian(idx % WORD32, 4);
    var len: seq<byte> := [(|m| % 256) as byte];
    var all := [m[0]] + m[1..3] + len + low;
    assert BigEndian(all) == RecordOf(m, idx).word0 by {
      assert BigEndian([m[0]]) == m[0] as nat && BigEndian(len) == |m| % 256;
      hide BigEndian, Pow256, ToBigEndian;
      Widths();
      BigEndianRoundTrip(idx % WORD32, 4);
      BigEndianJoin([m[0]], m[1..3]);
      BigEndianJoin([m[0]] + m[1..3], len);
      BigEndianJoin([m[0]] + m[1..3] + len, low);
    }
    DigitsOf(all, 8);
  }

  lemma {:induction false} TimeStampDigits(m: Message, idx: nat)
    requires Recorded(m)
    ensures ToBigEndian(RecordOf(m, idx).ts, 8) == [0, 0] + m[5..11]
  {
    DigitsOf(m[5..11], 8);
  }

  lemma {:induction false} WordsCons(a: Word, b: seq<byte>)
    requires |a| > 0
    ensures Words(a + b, |a|) == [a] + Words(b, |a|)
  {
    assert b == [] ==> a + b + seq(0, _ => 0) == a;
    assert (a + b)[..|a|] == a && (a + b)[|a|..] == b;
  }

  /** The body words from word n on. */
  lemma {:induction false} WordsOfBody(p: Params, m: Message, n: nat)
    requires Sound(p) && |m| > HEADER_LENGTH && n <= BodyWordsOf(p, |m|)
    ensures
      var from := if n == BodyWordsOf(p, |m|) then |m| else HEADER_LENGTH + p.bytes * n;
      && from <= |m|
      && Words(m[from..], p.bytes) == seq(BodyWordsOf(p, |m|) - n, i requires 0 <= i => BodyWord(p, m, n + i))
    decreases BodyWordsOf(p, |m|) - n
  {
    hide BodyWord;
    var count := BodyWordsOf(p, |m|);
    if n < count {
      hide Words, BodyWordsOf;
      var base := HEADER_LENGTH + p.bytes * n;
      var rest := if n + 1 == count then |m| else base + p.bytes;
      WordFits(p, |m|, n);
      WordsOfBody(p, m, n + 1);
      OneBodyWord(p, m, n, base, rest);
      var ws := seq(count - n, i requires 0 <= i => BodyWord(p, m, n + i));
      assert ws == [BodyWord(p, m, n)] + seq(count - (n + 1), i requires 0 <= i => BodyWord(p, m, n + 1 + i));
    }
  }

  lemma {:induction false} WordFits(p: Params, len: nat, n: nat)
    requires Sound(p) && len > HEADER_LENGTH && n < BodyWordsOf(p, len)
    ensures
      var base := HEADER_LENGTH + p.bytes * n;
      base < len && (n + 1 == BodyWordsOf(p, len) <==> len <= base + p.bytes)
    ensures HEADER_LENGTH + p.bytes * (n + 1) == HEADER_LENGTH + p.bytes * n + p.bytes
  {
  }

  lemma {:induction false} OneBodyWord(p: Params, m: Message, n: nat, base: nat, rest: nat)
    requires Sound(p) && base == HEADER_LENGTH + p.bytes * n && base < rest <= |m|
    requires if |m| <= base + p.bytes then rest == |m| else rest == base + p.bytes
    ensures Words(m[base..], p.bytes) == [BodyWord(p, m, n)] + Words(m[rest..], p.bytes)
  {
    assert forall k :: 0 <= k < p.bytes ==> BodyWord(p, m, n)[k] == QByte(m, base + k);
    if rest == |m| {
      assert m[base..] + seq(p.bytes - |m[base..]|, _ => 0) == BodyWord(p, m, n);
    } else {
      assert m[base..][..p.bytes] == BodyWord(p, m, n);
      assert m[base..][p.bytes..] == m[rest..];
    }
  }

  /** The two head words and the body make up the record's bytes. */
  lemma {:induction false} RecordBytes(p: Params, m: Message, idx: nat)
    requires Sound(p) && Recorded(m)
    ensures
      var r := RecordOf(m, idx);
      |FirstWord(p, m, idx)| == |OtherWord(p, m, idx)| == p.bytes
      && FirstWord(p, m, idx) + (OtherWord(p, m, idx) + m[HEADER_LENGTH..]) ==
         (if p.bytes == 4 then ToBigEndian(r.word0, 8) else ToBigEndian(r.word0, 8) + ToBigEndian(r.ts, 8)) + r.body
  {
    FirstWordDigits(m, idx);
    TimeStampDigits(m, idx);
  }

  /** The parser's words of a message are its record on the bus. */
  lemma {:induction false} MessageIsRecord(p: Params, m: Message, idx: nat)
    requires Sound(p) && Recorded(m)
    ensures MessageWords(p, m, idx) == OnBus(p, RecordOf(m, idx))
  {
    hide Words, BodyWord, RecordOf, FirstWord, OtherWord, BodyWordsOf;
    var first, second, body := FirstWord(p, m, idx), OtherWord(p, m, idx), m[HEADER_LENGTH..];
    RecordBytes(p, m, idx);
    WordsOfBody(p, m, 0);
    BodyNotEmpty(p, m);
    WordsCons(second, body);
    WordsCons(first, second + body);
  }

  lemma {:induction false} BodyNotEmpty(p: Params, m: Message)
    requires Sound(p) && Recorded(m)
    ensures BodyWordsOf(p, |m|) > 0 && |m| > HEADER_LENGTH
  {
  }

  lemma {:induction false} StreamAppend(p: Params, a: seq<OracleRecord>, b: seq<OracleRecord>)
    requires Sound(p)
    ensures StreamOf(p, a + b) == StreamOf(p, a) + StreamOf(p, b)
  {
    if a == [] {
      assert a + b == b;
    } else {
      assert (a + b)[1..] == a[1..] + b;
      StreamAppend(p, a[1..], b);
    }
  }

  /** The words of the first n messages are those of their records. */
  lemma {:induction false} FirstWordsAreRecords(p: Params, ms: seq<Message>, idx: nat, n: nat)
    requires Sound(p) && n <= |ms| && AllCanonical(ms)
    ensures FirstWords(p, ms, idx, n) == StreamOf(p, RecordsOf(ms[..n], idx))
  {
    hide MessageWords, OnBus, RecordOf, RecordsOf, StreamOf, AllCanonical, FirstWords, ExpectedLength, InSubset;
    FirstWordsNext(p, ms, idx, n);
    if n == 0 {
      NoRecordsAt(p, ms[..0], idx);
    } else {
      var m := ms[n - 1];
      CanonicalParts(ms, n);
      FirstWordsAreRecords(p, ms, idx, n - 1);
      RecordsAppend(ms[..n - 1], [m], idx);
      OneMessage(p, m, idx + n - 1);
      StreamAppend(p, RecordsOf(ms[..n - 1], idx), RecordsOf([m], idx + n - 1));
      assert RecordsOf(ms[..n], idx) == RecordsOf(ms[..n - 1], idx) + RecordsOf([m], idx + n - 1);
    }
  }

  lemma {:induction false} FirstWordsNext(p: Params, ms: seq<Message>, idx: nat, n: nat)
    requires Sound(p) && n <= |ms|
    ensures n == 0 ==> FirstWords(p, ms, idx, n) == []
    ensures n > 0 ==>
            FirstWords(p, ms, idx, n) == FirstWords(p, ms, idx, n - 1) + MessageWords(p, ms[n - 1], idx + n - 1)
  {
  }

  /** The words of one message are its record, if it has one. */
  lemma {:induction false} OneMessage(p: Params, m: Message, idx: nat)
    requires Sound(p) && Canonical(m)
    ensures AllCanonical([m]) && StreamOf(p, RecordsOf([m], idx)) == MessageWords(p, m, idx)
  {
    hide MessageWords, OnBus, RecordOf, RecordsOf, StreamOf, ExpectedLength, InSubset;
    OneRecord(p, m, idx);
    if InSubset(m[0]) {
      MessageIsRecord(p, m, idx);
    } else {
      NoWords(p, m, idx);
    }
  }

  lemma {:induction false} CanonicalParts(ms: seq<Message>, n: nat)
    requires AllCanonical(ms) && 0 < n <= |ms|
    ensures AllCanonical(ms[..n - 1]) && AllCanonical(ms[..n]) && AllCanonical([ms[n - 1]])
    ensures Canonical(ms[n - 1]) && ms[..n] == ms[..n - 1] + [ms[n - 1]]
  {
  }

  lemma {:induction false} NoRecordsAt(p: Params, ms: seq<Message>, idx: nat)
    requires Sound(p) && ms == []
    ensures StreamOf(p, RecordsOf(ms, idx)) == []
  {
  }

  lemma {:induction false} OneRecord(p: Params, m: Message, idx: nat)
    requires Sound(p) && Canonical(m)
    ensures StreamOf(p, RecordsOf([m], idx)) == if InSubset(m[0]) then OnBus(p, RecordOf(m, idx)) else []
  {
    hide OnBus, RecordOf;
    if InSubset(m[0]) {
      var r := RecordOf(m, idx);
      assert RecordsOf([m], idx) == [r];
      assert StreamOf(p, [r]) == OnBus(p, r) + StreamOf(p, []);
    }
  }

  lemma {:induction false} AllMessagesTo(ds: seq<Datagram>, k: nat)
    requires k < |ds|
    ensures AllMessages(ds[..k + 1]) == AllMessages(ds[..k]) + ds[k].msgs
    decreases k
  {
    if k == 0 {
      assert ds[..1] == [ds[0]];
      assert AllMessages([ds[0]]) == ds[0].msgs + AllMessages([]);
    } else {
      assert ds[..k + 1][1..] == ds[1..][..k] && ds[..k][1..] == ds[1..][..k - 1];
      AllMessagesTo(ds[1..], k - 1);
    }
  }

  /** The words of the first k datagrams are the reference decoder's records on the bus. */
  lemma {:induction false} StreamIsOracle(p: Params, ds: seq<Datagram>, k: nat)
    requires Sound(p) && k <= |ds| && AllCanonical(AllMessages(ds[..k]))
    ensures StreamWords(p, ds, k) == StreamOf(p, RecordsOf(AllMessages(ds[..k]), 0))
    ensures CountBefore(ds, k) == |AllMessages(ds[..k])|
  {
    hide FirstWords, StreamOf, RecordsOf;
    if k > 0 {
      var init, msgs := AllMessages(ds[..k - 1]), ds[k - 1].msgs;
      AllMessagesTo(ds, k - 1);
      forall i | 0 <= i < |init|
        ensures Canonical(init[i])
      {
        assert AllMessages(ds[..k])[i] == init[i];
      }
      forall i | 0 <= i < |msgs|
        ensures Canonical(msgs[i])
      {
        assert AllMessages(ds[..k])[|init| + i] == msgs[i];
      }
      StreamIsOracle(p, ds, k - 1);
      FirstWordsAreRecords(p, msgs, |init|, |msgs|);
      assert msgs[..|msgs|] == msgs;
      RecordsAppend(init, msgs, 0);
      StreamAppend(p, RecordsOf(init, 0), RecordsOf(msgs, |init|));
    } else {
      NoRecordsAt(p, [], 0);
    }
  }

  /** Once all datagrams are in and closed, the consumer has received exactly the
      reference decoder's records, in order. */
  lemma {:induction false} ParserIsOracle(z: Sizes, ds: seq<Datagram>, r0: Regs, ins: seq<In>)
    requires Fit(z) && AllFit(z, ds) && IsReset(r0) && AllWellKept(z, ins) && Conforms(ds, Run(z, r0, ins).a)
    requires AllCanonical(AllMessages(ds))
    ensures
      var c := Run(z, r0, ins);
      var expected := StreamOf(z.p, RecordsOf(AllMessages(ds), 0));
      Shown(c) <= expected && (c.r.st.HDR? && At(c.a, c.r.eop) == |ds| ==> c.sent == expected)
  {
    hide Run, StreamOf, RecordsOf, StreamWords;
    ParserDelivers(z, ds, r0, ins);
    assert ds[..|ds|] == ds;
    StreamIsOracle(z.p, ds, |ds|);
  }
}
