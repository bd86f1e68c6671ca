// What the letters on the wire mean: which messages there are, which of them make a
// record, what the words on the bus are byte by byte, and what the book takes out of them.
module Letters {
  import opened Bytes
  import opened Records
  import opened Engine
  import opened Itch
  import opened ItchParser
  import opened ParserSafety
  import opened Chain
  import Market

  // ---- messages ----

  /** The types of the specification with their lengths. */
  lemma {:induction false} CanonicalIff(m: Message)
    ensures Canonical(m) <==>
            m != [] && (m[0] as nat, |m|) in
            {(0x53, 12), (0x52, 39), (0x48, 25), (0x59, 20), (0x4c, 26), (0x56, 35), (0x57, 12), (0x4b, 28), (0x4a, 35),
             (0x4f, 21), (0x41, 36), (0x46, 40), (0x45, 31), (0x43, 36), (0x58, 23), (0x44, 19), (0x55, 35), (0x50, 44),
             (0x51, 40), (0x42, 19), (0x49, 50), (0x4e, 20)}
  {
  }

  /** The book expects the types it takes fields out of at these lengths, and no others. */
  lemma {:induction false} FieldLengths(t: byte)
    ensures FieldLength(t) == if t in {0x41, 0x46, 0x45, 0x43, 0x58, 0x44, 0x55, 0x53, 0x48} then ExpectedLength(t)
            else 0
  {
  }

  /** A canonical message makes one record if its letter is one of S R A F E C X D U P, and
      none otherwise. */
  lemma {:induction false} RecordsByLetter(m: Message, idx: nat)
    requires Canonical(m)
    ensures
      var recorded := m[0] in {0x53, 0x52, 0x41, 0x46, 0x45, 0x43, 0x58, 0x44, 0x55, 0x50};
      && |m| >= 12
      && RecordsOf([m], idx) ==
         if recorded then
           [OracleRecord((m[0] as nat) * 0x100_0000_0000_0000 + BigEndian(m[1..3]) * 0x100_0000_0000
                           + |m| * 0x1_0000_0000 + idx % 0x1_0000_0000,
                         BigEndian(m[5..11]), m[11..])]
         else []
  {
    assert [m][1..] == [] && AllCanonical([]);
  }

  /** The parser puts words on its bus for exactly the same messages. */
  lemma {:induction false} WordsByLetter(p: Params, m: Message, idx: nat)
    requires Sound(p)
    ensures MessageWords(p, m, idx) != [] <==>
            m != [] && (m[0] as nat, |m|) in
            {(0x53, 12), (0x52, 39), (0x41, 36), (0x46, 40), (0x45, 31), (0x43, 36), (0x58, 23), (0x44, 19), (0x55, 35),
             (0x50, 44)}
  {
  }

  // ---- the words on the bus ----

  /** What a record starts with: type, locate, length, number, and with eight bytes a word
      the time behind two zeroes. */
  function HeadBytes(p: Params, m: Message, idx: nat): (h: seq<byte>)
    requires |m| >= 11
  {
    [m[0], m[1], m[2], (|m| % 256) as byte] + ToBigEndian(idx % 0x1_0000_0000, 4)
    + if p.bytes == 4 then [] else [0, 0, m[5], m[6], m[7], m[8], m[9], m[10]]
  }

  lemma {:induction false} HeadWordBytes(p: Params, m: Message, idx: nat)
    requires Sound(p) && Recorded(m)
    ensures |m| >= 11 && FirstWord(p, m, idx) + OtherWord(p, m, idx) == HeadBytes(p, m, idx)
    ensures |FirstWord(p, m, idx)| == |OtherWord(p, m, idx)| == p.bytes
  {
    hide ToBigEndian;
    assert m[1..3] == [m[1], m[2]] && m[5..11] == [m[5], m[6], m[7], m[8], m[9], m[10]];
  }

  lemma {:induction false} BodyWordBytes(p: Params, m: Message, i: nat, k: nat)
    requires Sound(p) && k < p.bytes
    ensures
      var from := 11 + p.bytes * i + k;
      |BodyWord(p, m, i)| == p.bytes && BodyWord(p, m, i)[k] == if from < |m| then m[from] else 0
  {
    if p.bytes == 4 {
      assert BodyWord(p, m, i)[k] == QByte(m, HEADER_LENGTH + 4 * i + k);
    } else {
      assert BodyWord(p, m, i)[k] == QByte(m, HEADER_LENGTH + 8 * i + k);
    }
  }

  lemma {:induction false} WordsAre(p: Params, m: Message, idx: nat, i: nat)
    requires Sound(p) && Recorded(m) && i < |MessageWords(p, m, idx)|
    ensures
      var ws := MessageWords(p, m, idx);
      && |ws| == 2 + BodyWordsOf(p, |m|) && |m| >= 11
      && ws[i].data == (if i == 0 then FirstWord(p, m, idx) else if i == 1 then OtherWord(p, m, idx)
                        else BodyWord(p, m, i - 2))
      && (ws[i].last <==> i == |ws| - 1)
  {
    hide FirstWord, OtherWord, BodyWord;
    assert BodyWordsOf(p, |m|) > 0;
  }

  lemma {:induction false} BodySpans(p: Params, len: nat)
    requires Sound(p) && len >= 11
    ensures p.bytes * (BodyWordsOf(p, len) - 1) < len - 11 <= p.bytes * BodyWordsOf(p, len)
  {
    if p.bytes == 4 {
      assert 4 * (BodyWordsOf(p, len) - 1) < len - 11 <= 4 * BodyWordsOf(p, len);
    } else {
      assert 8 * (BodyWordsOf(p, len) - 1) < len - 11 <= 8 * BodyWordsOf(p, len);
    }
  }

  /** Byte by byte: the head, the message from its twelfth byte on, zeroes to the end of the
      last word, and the last mark on that word only. */
  lemma {:induction false} BusBytes(p: Params, m: Message, idx: nat, i: nat, k: nat)
    requires Sound(p) && MessageWords(p, m, idx) != [] && i < |MessageWords(p, m, idx)| && k < p.bytes
    ensures
      var ws, x := MessageWords(p, m, idx), p.bytes * i + k;
      && |m| >= 11 && |HeadBytes(p, m, idx)| == 2 * p.bytes && |ws[i].data| == p.bytes
      && p.bytes * (|ws| - 3) < |m| - 11 <= p.bytes * (|ws| - 2)
      && (ws[i].last <==> i == |ws| - 1)
      && var from := 11 + x - 2 * p.bytes;
         ws[i].data[k] == if i < 2 then HeadBytes(p, m, idx)[x] else if from < |m| then m[from] else 0
  {
    hide FirstWord, OtherWord, BodyWord, MessageWords, HeadBytes;
    assert Recorded(m) by { WordsOnlyOfRecords(p, m, idx); }
    HeadWordBytes(p, m, idx);
    WordsAre(p, m, idx, i);
    BodySpans(p, |m|);
    if i >= 2 {
      BodyWordBytes(p, m, i - 2, k);
      assert p.bytes * i == p.bytes * (i - 2) + 2 * p.bytes;
    } else if i == 1 {
      assert HeadBytes(p, m, idx)[p.bytes + k] == OtherWord(p, m, idx)[k];
    } else {
      assert HeadBytes(p, m, idx)[k] == FirstWord(p, m, idx)[k];
    }
  }

  lemma {:induction false} WordsOnlyOfRecords(p: Params, m: Message, idx: nat)
    requires Sound(p) && MessageWords(p, m, idx) != []
    ensures Recorded(m)
  {
  }

  // ---- what the book takes out of a wire message ----

  /** Field by field, at the offsets of the specification. */
  lemma {:induction false} MessageSays(m: Message)
    requires Recorded(m)
    ensures
      var t, locate := m[0], BigEndian(m[1..3]);
      Meaning(m) ==
      if t == 0x41 || t == 0x46 then
        Market.AddOrder(locate, BigEndian(m[11..19]), m[19] == 0x53, BigEndian(m[20..24]), BigEndian(m[32..36]))
      else if t == 0x45 || t == 0x43 || t == 0x58 then
        Market.ReduceOrder(locate, BigEndian(m[11..19]), BigEndian(m[19..23]))
      else if t == 0x44 then Market.DeleteOrder(locate, BigEndian(m[11..19]))
      else if t == 0x55 then
        Market.ReplaceOrder(locate, BigEndian(m[11..19]), BigEndian(m[19..27]), BigEndian(m[27..31]),
                            BigEndian(m[31..35]))
      else if t == 0x53 then Market.SystemEvent(m[11])
      else Market.Unrelated
  {
  }

  // ---- what the book takes out of a record ----

  /** The words of a body, one behind the other. */
  function Body(ws: seq<Word>): seq<byte> {
    if ws == [] then [] else Body(ws[..|ws| - 1]) + ws[|ws| - 1]
  }

  lemma {:induction false} BodySize(p: Params, ws: seq<Word>)
    requires Sound(p) && WordsOf(p, ws)
    ensures |Body(ws)| == p.bytes * |ws|
  {
    if ws != [] {
      BodySize(p, ws[..|ws| - 1]);
    }
  }

  lemma {:induction false} BodyAt(p: Params, ws: seq<Word>, b: nat)
    requires Sound(p) && WordsOf(p, ws) && b < p.bytes * |ws|
    ensures |Body(ws)| == p.bytes * |ws| && BodyByte(p, ws, b) == Body(ws)[b]
  {
    BodySize(p, ws);
    BodySize(p, ws[..|ws| - 1]);
    if b < p.bytes * (|ws| - 1) {
      BodyAt(p, ws[..|ws| - 1], b);
    }
  }

  lemma {:induction false} FourAt(p: Params, ws: seq<Word>, b: nat)
    requires Sound(p) && WordsOf(p, ws) && b + 4 <= p.bytes * |ws|
    ensures |Body(ws)| == p.bytes * |ws| && Body32(p, ws, b) == BigEndian(Body(ws)[b..b + 4])
  {
    hide BodyByte, BigEndian, Body;
    BodyAt(p, ws, b);
    BodyAt(p, ws, b + 1);
    BodyAt(p, ws, b + 2);
    BodyAt(p, ws, b + 3);
    var s := Body(ws)[b..b + 4];
    assert s == [s[0], s[1], s[2], s[3]];
  }

  lemma {:induction false} EightAt(p: Params, ws: seq<Word>, b: nat)
    requires Sound(p) && WordsOf(p, ws) && b + 8 <= p.bytes * |ws|
    ensures |Body(ws)| == p.bytes * |ws| && Body64(p, ws, b) == BigEndian(Body(ws)[b..b + 8])
  {
    hide BodyByte, BigEndian, Body;
    BodySize(p, ws);
    var s := Body(ws)[b..b + 8];
    forall i | 0 <= i < 8
      ensures EightBytes(p, ws, b)[i] == s[i]
    {
      BodyAt(p, ws, b + i);
    }
    assert EightBytes(p, ws, b) == s;
  }

  /** Adds: `A` and `F`. */
  lemma {:induction false} AddRecordSays(p: Params, r: Record)
    requires Sound(p) && GoodRecord(p, r) && (r.mtype == 0x41 || r.mtype == 0x46)
    ensures
      var b := Body(r.words);
      && |b| >= 25
      && MessageOf(p, r) ==
         Market.AddOrder(r.locate, BigEndian(b[..8]), b[8] == 0x53, BigEndian(b[9..13]), BigEndian(b[21..25]))
  {
    hide BodyByte, Body32, Body64, BigEndian, Body;
    EightAt(p, r.words, 0);
    BodyAt(p, r.words, 8);
    FourAt(p, r.words, 9);
    FourAt(p, r.words, 21);
  }

  /** Executions and cancellations: `E`, `C` and `X`. */
  lemma {:induction false} ReduceRecordSays(p: Params, r: Record)
    requires Sound(p) && GoodRecord(p, r) && (r.mtype == 0x45 || r.mtype == 0x43 || r.mtype == 0x58)
    ensures
      var b := Body(r.words);
      |b| >= 12 && MessageOf(p, r) == Market.ReduceOrder(r.locate, BigEndian(b[..8]), BigEndian(b[8..12]))
  {
    hide BodyByte, Body32, Body64, BigEndian, Body;
    EightAt(p, r.words, 0);
    FourAt(p, r.words, 8);
  }

  /** Replaces: `U`. */
  lemma {:induction false} ReplaceRecordSays(p: Params, r: Record)
    requires Sound(p) && GoodRecord(p, r) && r.mtype == 0x55
    ensures
      var b := Body(r.words);
      && |b| >= 24
      && MessageOf(p, r) ==
         Market.ReplaceOrder(r.locate, BigEndian(b[..8]), BigEndian(b[8..16]), BigEndian(b[16..20]),
                             BigEndian(b[20..24]))
  {
    hide BodyByte, Body32, Body64, BigEndian, Body;
    EightAt(p, r.words, 0);
    EightAt(p, r.words, 8);
    FourAt(p, r.words, 16);
    FourAt(p, r.words, 20);
  }

  /** Deletes `D`, system events `S`, trading actions `H`; any other letter says nothing. */
  lemma {:induction false} OtherRecordsSay(p: Params, r: Record)
    requires Sound(p) && GoodRecord(p, r)
    ensures
      var t, b := r.mtype, Body(r.words);
      && (t == 0x44 ==> |b| >= 8 && MessageOf(p, r) == Market.DeleteOrder(r.locate, BigEndian(b[..8])))
      && (t == 0x53 ==> |b| >= 1 && MessageOf(p, r) == Market.SystemEvent(b[0]))
      && (t == 0x48 ==> |b| >= 9 && MessageOf(p, r) == Market.TradingAction(r.locate, b[8]))
      && (t !in {0x41, 0x46, 0x45, 0x43, 0x58, 0x44, 0x55, 0x53, 0x48} ==> MessageOf(p, r) == Market.Unrelated)
  {
    hide BodyByte, Body32, Body64, BigEndian, Body;
    BodySize(p, r.words);
    if r.mtype == 0x44 {
      EightAt(p, r.words, 0);
    } else if r.mtype == 0x53 {
      BodyAt(p, r.words, 0);
    } else if r.mtype == 0x48 {
      BodyAt(p, r.words, 8);
    }
  }
}
