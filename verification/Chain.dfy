// The parser in front of the book: the words the parser puts on its bus are a
// well-formed stream for the book, and carry the wire messages' own fields.
module Chain {
  import opened Bytes
  import opened Records
  import opened Receiver
  import opened Itch
  import opened ItchParser
  import opened ParserSafety
  import opened ParserRuns
  import Market

  // ---- the wire messages the book is about ----

  function LocateOf(m: Message): nat
    requires Recorded(m)
  {
    BigEndian(m[1..3])
  }

  /** What a message on the wire tells the book, field by field. */
  function Meaning(m: Message): Market.Message
    requires Recorded(m)
  {
    var locate := LocateOf(m);
    if m[0] == TYPE_A || m[0] == TYPE_F then
      Market.AddOrder(locate, BigEndian(m[11..19]), m[19] == 0x53, BigEndian(m[20..24]), BigEndian(m[32..36]))
    else if m[0] == TYPE_E || m[0] == TYPE_C || m[0] == TYPE_X then
      Market.ReduceOrder(locate, BigEndian(m[11..19]), BigEndian(m[19..23]))
    else if m[0] == TYPE_D then Market.DeleteOrder(locate, BigEndian(m[11..19]))
    else if m[0] == TYPE_U then
      Market.ReplaceOrder(locate, BigEndian(m[11..19]), BigEndian(m[19..27]), BigEndian(m[27..31]),
                          BigEndian(m[31..35]))
    else if m[0] == TYPE_S then Market.SystemEvent(m[11])
    else Market.Unrelated
  }

  function Meanings(ms: seq<Message>): (ns: seq<Market.Message>)
    requires forall i :: 0 <= i < |ms| ==> Recorded(ms[i])
    ensures |ns| == |ms|
  {
    seq(|ms|, i requires 0 <= i < |ms| => Meaning(ms[i]))
  }

  /** The messages of the first n that produce a record. */
  function Kept(ms: seq<Message>, n: nat): (ks: seq<Message>)
    requires n <= |ms|
    ensures forall i :: 0 <= i < |ks| ==> Recorded(ks[i])
  {
    if n == 0 then [] else Kept(ms, n - 1) + if Recorded(ms[n - 1]) then [ms[n - 1]] else []
  }

  function KeptOf(ds: seq<Datagram>, k: nat): (ks: seq<Message>)
    requires k <= |ds|
    ensures forall i :: 0 <= i < |ks| ==> Recorded(ks[i])
  {
    if k == 0 then [] else KeptOf(ds, k - 1) + Kept(ds[k - 1].msgs, |ds[k - 1].msgs|)
  }

  // ---- the receiver over many words ----

  predicate WiredBeats(p: Params, bs: seq<Beat>) {
    forall i :: 0 <= i < |bs| ==> |bs[i].data| == p.bytes
  }

  function Receive(p: Params, x: Rx, bs: seq<Beat>): (y: Rx)
    requires Sound(p) && RxShaped(p, x) && WiredBeats(p, bs)
    ensures RxShaped(p, y)
    decreases |bs|
  {
    if bs == [] then x else RxStep(p, Receive(p, x, bs[..|bs| - 1]), bs[|bs| - 1])
  }

  lemma {:induction false} ReceiveAppend(p: Params, x: Rx, a: seq<Beat>, b: seq<Beat>)
    requires Sound(p) && RxShaped(p, x) && WiredBeats(p, a) && WiredBeats(p, b)
    ensures WiredBeats(p, a + b) && Receive(p, x, a + b) == Receive(p, Receive(p, x, a), b)
    decreases |b|
  {
    hide RxStep, RxShaped;
    if b == [] {
      assert a + b == a;
    } else {
      assert (a + b)[..|a + b| - 1] == a + b[..|b| - 1];
      ReceiveAppend(p, x, a, b[..|b| - 1]);
    }
  }

  /** Well-formedness is never regained, and records are never lost. */
  lemma {:induction false} ReceiveGrows(p: Params, x: Rx, bs: seq<Beat>)
    requires Sound(p) && RxShaped(p, x) && WiredBeats(p, bs)
    ensures Receive(p, x, bs).ok ==> x.ok
    ensures x.done <= Receive(p, x, bs).done
    decreases |bs|
  {
    hide RxShaped;
    if bs != [] {
      ReceiveGrows(p, x, bs[..|bs| - 1]);
      StepGrows(p, Receive(p, x, bs[..|bs| - 1]), bs[|bs| - 1]);
    }
  }

  lemma {:induction false} StepGrows(p: Params, x: Rx, b: Beat)
    requires Sound(p) && RxShaped(p, x) && |b.data| == p.bytes
    ensures RxStep(p, x, b).ok ==> x.ok
    ensures x.done <= RxStep(p, x, b).done
  {
  }

  // ---- one message ----

  /** The record the book makes of a message. */
  function RecordFor(p: Params, m: Message, s: Resolved, n: nat): Record
    requires Sound(p) && Recorded(m)
  {
    Record(m[0], LocateOf(m), s.index, s.bad, seq(n, i requires 0 <= i => BodyWord(p, m, i)))
  }

  /** The parser's head word is a good first word for the book. */
  lemma {:induction false} HeadIsGood(p: Params, m: Message, idx: nat)
    requires Sound(p) && Recorded(m)
    ensures
      var w := FirstWord(p, m, idx);
      && |w| == p.bytes && GoodHead(p, w) && HeadType(w) == m[0] && HeadLocate(w) == BigEndian(m[1..3])
      && BodyWords(p, HeadLength(w)) == BodyWordsOf(p, |m|) && |OtherWord(p, m, idx)| == p.bytes
      && CoversFields(p, m[0], BodyWordsOf(p, |m|))
  {
    assert m[1..3] == [m[1], m[2]] && [m[1], m[2]][..1] == [m[1]];
    assert BigEndian(m[1..3]) == BigEndian([m[1]]) * 256 + m[2] as int;
  }

  lemma {:induction false} MessageWired(p: Params, m: Message, idx: nat)
    requires Sound(p)
    ensures WiredBeats(p, MessageWords(p, m, idx))
  {
    if Recorded(m) {
      HeadIsGood(p, m, idx);
    }
  }

  /** After both head words and n body words. */
  lemma {:induction false} PartReceived(p: Params, x: Rx, m: Message, idx: nat, n: nat)
    requires Sound(p) && RxShaped(p, x) && x.ok && x.part.Nothing? && Recorded(m)
    requires n < BodyWordsOf(p, |m|)
    ensures
      var words := MessageWords(p, m, idx);
      var s := Resolve(p, x.locs, x.cnt, BigEndian(m[1..3]));
      WiredBeats(p, words) && Receive(p, x, words[..2 + n]) ==
      Rx(x.done, Body(RecordFor(p, m, s, n), BodyWordsOf(p, |m|) - n), s.locs, s.cnt, true)
    decreases n
  {
    hide RxStep, BodyWord, FirstWord, OtherWord, Resolve, GoodHead, BodyWordsOf, BodyWords, CoversFields;
    var words := MessageWords(p, m, idx);
    MessageWired(p, m, idx);
    if n == 0 {
      HeadReceived(p, x, m, idx);
    } else {
      PartReceived(p, x, m, idx, n - 1);
      assert words[..2 + n][..1 + n] == words[..1 + n] && words[..2 + n][1 + n] == words[1 + n];
      var s := Resolve(p, x.locs, x.cnt, BigEndian(m[1..3]));
      assert RecordFor(p, m, s, n).words == RecordFor(p, m, s, n - 1).words + [BodyWord(p, m, n - 1)];
      WordReceived(p, Receive(p, x, words[..1 + n]), words[1 + n]);
    }
  }

  lemma {:induction false} WordReceived(p: Params, x: Rx, b: Beat)
    requires Sound(p) && RxShaped(p, x) && |b.data| == p.bytes && x.part.Body? && x.part.left > 1 && !b.last
    ensures RxStep(p, x, b) == x.(part := Body(x.part.rec.(words := x.part.rec.words + [b.data]), x.part.left - 1))
  {
  }

  /** After both head words. */
  lemma {:induction false} HeadReceived(p: Params, x: Rx, m: Message, idx: nat)
    requires Sound(p) && RxShaped(p, x) && x.ok && x.part.Nothing? && Recorded(m)
    ensures
      var words := MessageWords(p, m, idx);
      var s := Resolve(p, x.locs, x.cnt, BigEndian(m[1..3]));
      WiredBeats(p, words) && Receive(p, x, words[..2]) ==
      Rx(x.done, Body(RecordFor(p, m, s, 0), BodyWordsOf(p, |m|)), s.locs, s.cnt, true)
  {
    hide BodyWord, FirstWord, OtherWord, Resolve, GoodHead, BodyWordsOf, BodyWords, CoversFields;
    var words := MessageWords(p, m, idx);
    MessageWired(p, m, idx);
    HeadIsGood(p, m, idx);
    BodyNotEmpty(p, m);
    var s := Resolve(p, x.locs, x.cnt, BigEndian(m[1..3]));
    assert RecordFor(p, m, s, 0).words == [];
    assert words[..2][..1] == words[..1] && words[..1][..0] == [];
    assert Receive(p, x, words[..1]) == RxStep(p, x, words[0]);
  }

  /** A whole message: one more record, well formed, and nothing begun. */
  lemma {:induction false} MessageReceived(p: Params, x: Rx, m: Message, idx: nat)
    requires Sound(p) && RxShaped(p, x) && x.ok && x.part.Nothing? && Recorded(m)
    ensures
      var words := MessageWords(p, m, idx);
      var s := Resolve(p, x.locs, x.cnt, BigEndian(m[1..3]));
      WiredBeats(p, words) && Receive(p, x, words) ==
      Rx(x.done + [RecordFor(p, m, s, BodyWordsOf(p, |m|))], Nothing, s.locs, s.cnt, true)
  {
    hide BodyWord, FirstWord, OtherWord, Resolve, BodyWordsOf;
    var words := MessageWords(p, m, idx);
    var n := BodyWordsOf(p, |m|);
    BodyNotEmpty(p, m);
    PartReceived(p, x, m, idx, n - 1);
    assert words[..2 + (n - 1)] == words[..|words| - 1];
    var s := Resolve(p, x.locs, x.cnt, BigEndian(m[1..3]));
    assert RecordFor(p, m, s, n).words == RecordFor(p, m, s, n - 1).words + [BodyWord(p, m, n - 1)];
  }

  // ---- the fields ----

  lemma {:induction false} BodyByteIs(p: Params, m: Message, b: nat)
    requires Sound(p) && Recorded(m) && HEADER_LENGTH + b < |m|
    ensures
      var ws := seq(BodyWordsOf(p, |m|), i requires 0 <= i => BodyWord(p, m, i));
      WordsOf(p, ws) && BodyByte(p, ws, b) == m[HEADER_LENGTH + b]
  {
    var n := BodyWordsOf(p, |m|);
    var ws := seq(n, i requires 0 <= i => BodyWord(p, m, i));
    if p.bytes == 4 {
      assert b / 4 < n && BodyWord(p, m, b / 4)[b % 4] == QByte(m, HEADER_LENGTH + 4 * (b / 4) + b % 4);
    } else {
      assert b / 8 < n && BodyWord(p, m, b / 8)[b % 8] == QByte(m, HEADER_LENGTH + 8 * (b / 8) + b % 8);
    }
  }

  lemma {:induction false} Field32Is(p: Params, m: Message, b: nat)
    requires Sound(p) && Recorded(m) && HEADER_LENGTH + b + 4 <= |m|
    ensures
      var ws := seq(BodyWordsOf(p, |m|), i requires 0 <= i => BodyWord(p, m, i));
      WordsOf(p, ws) && Body32(p, ws, b) == BigEndian(m[HEADER_LENGTH + b..HEADER_LENGTH + b + 4])
  {
    hide BodyWord, BodyWordsOf, BigEndian, BodyByte;
    BodyByteIs(p, m, b);
    BodyByteIs(p, m, b + 1);
    BodyByteIs(p, m, b + 2);
    BodyByteIs(p, m, b + 3);
    var f := m[HEADER_LENGTH + b..HEADER_LENGTH + b + 4];
    assert f == [m[HEADER_LENGTH + b], m[HEADER_LENGTH + b + 1], m[HEADER_LENGTH + b + 2], m[HEADER_LENGTH + b + 3]];
  }

  lemma {:induction false} Field64Is(p: Params, m: Message, b: nat)
    requires Sound(p) && Recorded(m) && HEADER_LENGTH + b + 8 <= |m|
    ensures
      var ws := seq(BodyWordsOf(p, |m|), i requires 0 <= i => BodyWord(p, m, i));
      WordsOf(p, ws) && Body64(p, ws, b) == BigEndian(m[HEADER_LENGTH + b..HEADER_LENGTH + b + 8])
  {
    hide BodyWord, BodyWordsOf, BigEndian, BodyByte;
    BodyByteIs(p, m, b);
    var ws := seq(BodyWordsOf(p, |m|), i requires 0 <= i => BodyWord(p, m, i));
    var f := m[HEADER_LENGTH + b..HEADER_LENGTH + b + 8];
    forall i | 0 <= i < 8
      ensures EightBytes(p, ws, b)[i] == f[i]
    {
      BodyByteIs(p, m, b + i);
    }
    assert EightBytes(p, ws, b) == f;
  }

  /** The book decodes from the record exactly the wire message's fields. */
  lemma {:induction false} RecordMeans(p: Params, m: Message, s: Resolved)
    requires Sound(p) && Recorded(m)
    ensures
      var r := RecordFor(p, m, s, BodyWordsOf(p, |m|));
      WordsOf(p, r.words) && MessageOf(p, r) == Meaning(m) && r.locate == LocateOf(m)
  {
    hide LocateOf, BodyWord, BodyWordsOf, BigEndian, Body32, Body64, BodyByte;
    BodyByteIs(p, m, 0);
    if m[0] == TYPE_A || m[0] == TYPE_F {
      Field64Is(p, m, 0);
      BodyByteIs(p, m, 8);
      Field32Is(p, m, 9);
      Field32Is(p, m, 21);
    } else if m[0] == TYPE_E || m[0] == TYPE_C || m[0] == TYPE_X {
      Field64Is(p, m, 0);
      Field32Is(p, m, 8);
    } else if m[0] == TYPE_D {
      Field64Is(p, m, 0);
    } else if m[0] == TYPE_U {
      Field64Is(p, m, 0);
      Field64Is(p, m, 8);
      Field32Is(p, m, 16);
      Field32Is(p, m, 20);
    }
  }

  // ---- the whole stream ----

  /** The records carry these wire messages, one by one. */
  ghost predicate Carries(p: Params, rs: seq<Record>, ms: seq<Message>)
    requires Sound(p) && forall i :: 0 <= i < |ms| ==> Recorded(ms[i])
  {
    |rs| == |ms| && forall i :: 0 <= i < |rs| ==>
      WordsOf(p, rs[i].words) && MessageOf(p, rs[i]) == Meaning(ms[i]) && rs[i].locate == LocateOf(ms[i])
  }

  lemma {:induction false} CarriesMore(p: Params, rs: seq<Record>, ms: seq<Message>, r: Record, m: Message)
    requires Sound(p) && (forall i :: 0 <= i < |ms| ==> Recorded(ms[i])) && Carries(p, rs, ms)
    requires Recorded(m) && WordsOf(p, r.words) && MessageOf(p, r) == Meaning(m) && r.locate == LocateOf(m)
    ensures forall i :: 0 <= i <= |ms| ==> Recorded((ms + [m])[i])
    ensures Carries(p, rs + [r], ms + [m])
  {
    hide MessageOf, Meaning, Recorded;
  }

  /** Between messages, in step with the wire messages received so far. */
  ghost predicate InStep(p: Params, x: Rx, ms: seq<Message>)
    requires Sound(p) && forall i :: 0 <= i < |ms| ==> Recorded(ms[i])
  {
    RxShaped(p, x) && x.ok && x.part.Nothing? && Carries(p, x.done, ms)
  }

  lemma {:induction false} OneReceived(p: Params, x: Rx, m: Message, idx: nat, before: seq<Message>)
    requires Sound(p) && (forall i :: 0 <= i < |before| ==> Recorded(before[i])) && InStep(p, x, before) && Recorded(m)
    ensures
      && (forall i :: 0 <= i <= |before| ==> Recorded((before + [m])[i]))
      && WiredBeats(p, MessageWords(p, m, idx))
      && InStep(p, Receive(p, x, MessageWords(p, m, idx)), before + [m])
  {
    hide MessageWords, Receive, RecordFor, Meaning, MessageOf, Carries;
    var s := Resolve(p, x.locs, x.cnt, BigEndian(m[1..3]));
    MessageReceived(p, x, m, idx);
    RecordMeans(p, m, s);
    CarriesMore(p, x.done, before, RecordFor(p, m, s, BodyWordsOf(p, |m|)), m);
  }

  lemma {:induction false} ListReceived(p: Params, x: Rx, ms: seq<Message>, idx: nat, n: nat, before: seq<Message>)
    requires Sound(p) && (forall i :: 0 <= i < |before| ==> Recorded(before[i])) && InStep(p, x, before) && n <= |ms|
    ensures
      && (forall i :: 0 <= i < |before + Kept(ms, n)| ==> Recorded((before + Kept(ms, n))[i]))
      && WiredBeats(p, FirstWords(p, ms, idx, n))
      && InStep(p, Receive(p, x, FirstWords(p, ms, idx, n)), before + Kept(ms, n))
    decreases n
  {
    hide MessageWords, InStep, Recorded, RxShaped;
    if n == 0 {
      assert before + [] == before;
    } else {
      ListReceived(p, x, ms, idx, n - 1, before);
      var sofar, m := before + Kept(ms, n - 1), ms[n - 1];
      InStepShaped(p, x, before);
      if Recorded(m) {
        var y := Receive(p, x, FirstWords(p, ms, idx, n - 1));
        OneReceived(p, y, m, idx + n - 1, sofar);
        assert before + Kept(ms, n) == sofar + [m];
      } else {
        NoWords(p, m, idx + n - 1);
        assert before + Kept(ms, n) == sofar;
      }
      MessageWired(p, m, idx + n - 1);
      ReceiveAppend(p, x, FirstWords(p, ms, idx, n - 1), MessageWords(p, m, idx + n - 1));
    }
  }

  lemma {:induction false} InStepShaped(p: Params, x: Rx, ms: seq<Message>)
    requires Sound(p) && (forall i :: 0 <= i < |ms| ==> Recorded(ms[i])) && InStep(p, x, ms)
    ensures RxShaped(p, x)
  {
  }

  lemma {:induction false} NothingReceived(p: Params, ds: seq<Datagram>)
    requires Sound(p)
    ensures WiredBeats(p, StreamWords(p, ds, 0))
            && InStep(p, Receive(p, RxReset(p), StreamWords(p, ds, 0)), KeptOf(ds, 0))
  {
    hide RxStep, MessageOf, Meaning;
  }

  lemma {:induction false} OneMoreDatagram(p: Params, ds: seq<Datagram>, k: nat)
    requires Sound(p) && 0 < k <= |ds|
    ensures
      var ms := ds[k - 1].msgs;
      && StreamWords(p, ds, k) == StreamWords(p, ds, k - 1) + FirstWords(p, ms, CountBefore(ds, k - 1), |ms|)
      && KeptOf(ds, k) == KeptOf(ds, k - 1) + Kept(ms, |ms|)
  {
  }

  lemma {:induction false} DatagramReceived(p: Params, ds: seq<Datagram>, k: nat)
    requires Sound(p) && 0 < k <= |ds| && WiredBeats(p, StreamWords(p, ds, k - 1))
    requires InStep(p, Receive(p, RxReset(p), StreamWords(p, ds, k - 1)), KeptOf(ds, k - 1))
    ensures WiredBeats(p, StreamWords(p, ds, k))
    ensures InStep(p, Receive(p, RxReset(p), StreamWords(p, ds, k)), KeptOf(ds, k))
  {
    hide FirstWords, CountBefore, InStep, Recorded, RxShaped, Kept, KeptOf, Receive, RxReset, StreamWords, WiredBeats;
    var ms, idx := ds[k - 1].msgs, CountBefore(ds, k - 1);
    var x := Receive(p, RxReset(p), StreamWords(p, ds, k - 1));
    OneMoreDatagram(p, ds, k);
    ListReceived(p, x, ms, idx, |ms|, KeptOf(ds, k - 1));
    ReceiveAppend(p, RxReset(p), StreamWords(p, ds, k - 1), FirstWords(p, ms, idx, |ms|));
  }

  /** The parser's words are a well-formed stream for the book, and bring it exactly the
      wire messages of the subset, in order. */
  lemma {:induction false} StreamReceived(p: Params, ds: seq<Datagram>, k: nat)
    requires Sound(p) && k <= |ds|
    ensures WiredBeats(p, StreamWords(p, ds, k))
    ensures InStep(p, Receive(p, RxReset(p), StreamWords(p, ds, k)), KeptOf(ds, k))
    decreases k
  {
    hide InStep, KeptOf, Receive, RxReset, StreamWords, WiredBeats;
    if k == 0 {
      NothingReceived(p, ds);
    } else {
      StreamReceived(p, ds, k - 1);
      DatagramReceived(p, ds, k);
    }
  }

  /** Any beginning of the parser's words is well formed, and its complete records
      carry the first wire messages. */
  lemma {:induction false} BeginningReceived(p: Params, ds: seq<Datagram>, bs: seq<Beat>)
    requires Sound(p) && bs <= StreamWords(p, ds, |ds|)
    ensures WiredBeats(p, bs)
    ensures
      var y := Receive(p, RxReset(p), bs);
      var ms := KeptOf(ds, |ds|);
      y.ok && |y.done| <= |ms| && Carries(p, y.done, ms[..|y.done|])
  {
    hide StreamWords, RxStep, MessageOf, Meaning, Recorded, Receive, RxReset, RxShaped;
    var all := StreamWords(p, ds, |ds|);
    StreamReceived(p, ds, |ds|);
    assert all == bs + all[|bs|..];
    forall i | 0 <= i < |bs|
      ensures |bs[i].data| == p.bytes
    {
      assert all[i] == bs[i];
    }
    forall i | 0 <= i < |all[|bs|..]|
      ensures |all[|bs|..][i].data| == p.bytes
    {
      assert all[|bs| + i] == all[|bs|..][i];
    }
    var y := Receive(p, RxReset(p), bs);
    ReceiveAppend(p, RxReset(p), bs, all[|bs|..]);
    ReceiveGrows(p, y, all[|bs|..]);
  }
}
