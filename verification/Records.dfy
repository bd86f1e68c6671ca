// The stream between parser and book: records of words, and the messages they
// carry. Two header words come first (type, locate and length in the first),
// then the message body, most significant byte first.
module Records {
  import opened Bytes
  import Market

  /** The sizes fixed at synthesis. */
  datatype Params = Params(
    bytes: nat,   // bytes per stream word
    nslot: nat,   // slots of the order table
    probe: nat,   // longest probe path
    cap: nat,     // price levels per side
    nsym: nat,    // symbols
    nd: nat)      // levels of the public depth

  predicate Sound(p: Params) {
    && (p.bytes == 4 || p.bytes == 8)
    && 0 < p.probe <= p.nslot && p.probe < 0x1_0000
    && 0 < p.cap < 0x8000_0000 && p.nd <= p.cap
    && 0 < p.nsym < 32
  }

  const TYPE_A: byte := 0x41
  const TYPE_F: byte := 0x46
  const TYPE_E: byte := 0x45
  const TYPE_C: byte := 0x43
  const TYPE_X: byte := 0x58
  const TYPE_D: byte := 0x44
  const TYPE_U: byte := 0x55
  const TYPE_S: byte := 0x53
  const TYPE_H: byte := 0x48

  type Word = seq<byte>

  /** One word on the bus. */
  datatype Beat = Beat(data: Word, last: bool)

  predicate WordsOf(p: Params, ws: seq<Word>) {
    forall i :: 0 <= i < |ws| ==> |ws[i]| == p.bytes
  }

  /** Byte b of a body held in words; zero beyond the last word. */
  function BodyByte(p: Params, ws: seq<Word>, b: nat): byte
    requires Sound(p) && WordsOf(p, ws)
  {
    if p.bytes == 4 then (if b / 4 < |ws| then ws[b / 4][b % 4] else 0)
    else (if b / 8 < |ws| then ws[b / 8][b % 8] else 0)
  }

  function Body32(p: Params, ws: seq<Word>, b: nat): (r: nat)
    requires Sound(p) && WordsOf(p, ws)
    ensures r < 0x1_0000_0000
  {
    assert Pow256(4) == 0x1_0000_0000;
    BigEndian([BodyByte(p, ws, b), BodyByte(p, ws, b + 1), BodyByte(p, ws, b + 2), BodyByte(p, ws, b + 3)])
  }

  function EightBytes(p: Params, ws: seq<Word>, b: nat): (s: seq<byte>)
    requires Sound(p) && WordsOf(p, ws)
    ensures |s| == 8 && forall i :: 0 <= i < 8 ==> s[i] == BodyByte(p, ws, b + i)
  {
    [BodyByte(p, ws, b), BodyByte(p, ws, b + 1), BodyByte(p, ws, b + 2), BodyByte(p, ws, b + 3),
     BodyByte(p, ws, b + 4), BodyByte(p, ws, b + 5), BodyByte(p, ws, b + 6), BodyByte(p, ws, b + 7)]
  }

  function Body64(p: Params, ws: seq<Word>, b: nat): nat
    requires Sound(p) && WordsOf(p, ws)
  {
    BigEndian(EightBytes(p, ws, b))
  }

  /** The types that look an order up. */
  predicate ReadsTable(t: byte) {
    t == TYPE_A || t == TYPE_F || t == TYPE_E || t == TYPE_C || t == TYPE_X || t == TYPE_D || t == TYPE_U
  }

  datatype Op =
    | Add(ref: nat, ask: bool, shares: nat, price: nat)
    | Reduce(ref: nat, shares: nat)
    | Delete(ref: nat)
    | Replace(orig: nat, newRef: nat, shares: nat, price: nat)
    | SystemEvent(code: nat)
    | Trading(state: nat)
    | Other

  /** The fields the book takes out of a body, by message type. */
  function DecodeOp(p: Params, t: byte, ws: seq<Word>): (op: Op)
    requires Sound(p) && WordsOf(p, ws)
  {
    if t == TYPE_A || t == TYPE_F then
      Add(Body64(p, ws, 0), BodyByte(p, ws, 8) == 0x53, Body32(p, ws, 9), Body32(p, ws, 21))
    else if t == TYPE_E || t == TYPE_C || t == TYPE_X then Reduce(Body64(p, ws, 0), Body32(p, ws, 8))
    else if t == TYPE_D then Delete(Body64(p, ws, 0))
    else if t == TYPE_U then
      Replace(Body64(p, ws, 0), Body64(p, ws, 8), Body32(p, ws, 16), Body32(p, ws, 20))
    else if t == TYPE_S then SystemEvent(BodyByte(p, ws, 0))
    else if t == TYPE_H then Trading(BodyByte(p, ws, 8))
    else Other
  }

  /** A complete record with the symbol slot its locate was given. */
  datatype Record = Record(mtype: byte, locate: nat, index: nat, bad: bool, words: seq<Word>)

  /** The same record as a message of the reference book. */
  function MessageOf(p: Params, r: Record): Market.Message
    requires Sound(p) && WordsOf(p, r.words)
  {
    match DecodeOp(p, r.mtype, r.words)
    case Add(ref, ask, shares, price) => Market.AddOrder(r.locate, ref, ask, shares, price)
    case Reduce(ref, shares) => Market.ReduceOrder(r.locate, ref, shares)
    case Delete(ref) => Market.DeleteOrder(r.locate, ref)
    case Replace(orig, newRef, shares, price) => Market.ReplaceOrder(r.locate, orig, newRef, shares, price)
    case SystemEvent(code) => Market.SystemEvent(code)
    case Trading(state) => Market.TradingAction(r.locate, state)
    case Other => Market.Unrelated
  }

  /** Body words of a message of that total length: the 11-byte message header is not body. */
  function BodyWords(p: Params, len: nat): nat
    requires Sound(p)
  {
    if p.bytes == 4 then (len - 11 + 3) % 256 / 4 else (len - 11 + 7) % 256 / 8
  }

  /** Length of the messages the book takes fields out of; zero when it takes none. */
  function FieldLength(t: byte): nat {
    if t == TYPE_A then 36 else if t == TYPE_F then 40 else if t == TYPE_E then 31 else if t == TYPE_C then 36
    else if t == TYPE_X then 23 else if t == TYPE_D then 19 else if t == TYPE_U then 35
    else if t == TYPE_S then 12 else if t == TYPE_H then 25 else 0
  }

  function HeadType(w: Word): byte
    requires |w| >= 4
  {
    w[0]
  }

  function HeadLocate(w: Word): (r: nat)
    requires |w| >= 4
    ensures r < 0x1_0000
  {
    (w[1] as nat) * 256 + w[2] as nat
  }

  function HeadLength(w: Word): byte
    requires |w| >= 4
  {
    w[3]
  }

  /** A first header word with a canonical length and a body that fits the 16-word buffer. */
  predicate GoodHead(p: Params, w: Word)
    requires Sound(p) && |w| == p.bytes
  {
    && HeadLength(w) >= 12
    && 1 <= BodyWords(p, HeadLength(w)) <= 16
    && (FieldLength(HeadType(w)) != 0 ==> HeadLength(w) == FieldLength(HeadType(w)))
  }

  // ---- fields do not depend on what lies beyond the record's own words ----

  /** Enough words for every field of the type. */
  predicate CoversFields(p: Params, t: byte, n: nat)
    requires Sound(p)
  {
    FieldLength(t) != 0 ==> n == BodyWords(p, FieldLength(t))
  }

  lemma {:induction false} FieldsArePrefix(p: Params, t: byte, ws: seq<Word>, buffer: seq<Word>)
    requires Sound(p) && WordsOf(p, ws) && WordsOf(p, buffer)
    requires |ws| <= |buffer| && buffer[..|ws|] == ws && CoversFields(p, t, |ws|)
    ensures DecodeOp(p, t, buffer) == DecodeOp(p, t, ws)
  {
    hide BodyByte, Body32, Body64;
    if t == TYPE_A || t == TYPE_F {
      Field64IsPrefix(p, ws, buffer, 0);
      BytesArePrefix(p, ws, buffer, 8);
      Field32IsPrefix(p, ws, buffer, 9);
      Field32IsPrefix(p, ws, buffer, 21);
    } else if t == TYPE_E || t == TYPE_C || t == TYPE_X {
      Field64IsPrefix(p, ws, buffer, 0);
      Field32IsPrefix(p, ws, buffer, 8);
    } else if t == TYPE_D {
      Field64IsPrefix(p, ws, buffer, 0);
    } else if t == TYPE_U {
      Field64IsPrefix(p, ws, buffer, 0);
      Field64IsPrefix(p, ws, buffer, 8);
      Field32IsPrefix(p, ws, buffer, 16);
      Field32IsPrefix(p, ws, buffer, 20);
    } else if t == TYPE_S {
      BytesArePrefix(p, ws, buffer, 0);
    } else if t == TYPE_H {
      BytesArePrefix(p, ws, buffer, 8);
    }
  }

  lemma {:induction false} Field32IsPrefix(p: Params, ws: seq<Word>, buffer: seq<Word>, b: nat)
    requires Sound(p) && WordsOf(p, ws) && WordsOf(p, buffer)
    requires |ws| <= |buffer| && buffer[..|ws|] == ws && b + 4 <= p.bytes * |ws|
    ensures Body32(p, buffer, b) == Body32(p, ws, b)
  {
    BytesArePrefix(p, ws, buffer, b);
    BytesArePrefix(p, ws, buffer, b + 1);
    BytesArePrefix(p, ws, buffer, b + 2);
    BytesArePrefix(p, ws, buffer, b + 3);
  }

  lemma {:induction false} Field64IsPrefix(p: Params, ws: seq<Word>, buffer: seq<Word>, b: nat)
    requires Sound(p) && WordsOf(p, ws) && WordsOf(p, buffer)
    requires |ws| <= |buffer| && buffer[..|ws|] == ws && b + 8 <= p.bytes * |ws|
    ensures Body64(p, buffer, b) == Body64(p, ws, b)
  {
    forall i | 0 <= i < 8
      ensures EightBytes(p, buffer, b)[i] == EightBytes(p, ws, b)[i]
    {
      BytesArePrefix(p, ws, buffer, b + i);
    }
    assert EightBytes(p, buffer, b) == EightBytes(p, ws, b);
  }

  lemma {:induction false} BytesArePrefix(p: Params, ws: seq<Word>, buffer: seq<Word>, b: nat)
    requires Sound(p) && WordsOf(p, ws) && WordsOf(p, buffer)
    requires |ws| <= |buffer| && buffer[..|ws|] == ws && b < p.bytes * |ws|
    ensures BodyByte(p, buffer, b) == BodyByte(p, ws, b)
  {
    if p.bytes == 4 {
      assert buffer[..|ws|][b / 4] == buffer[b / 4];
    } else {
      assert buffer[..|ws|][b / 8] == buffer[b / 8];
    }
  }

  /** Body words that hold one reference number. */
  function RefWords(p: Params): nat
    requires Sound(p)
  {
    if p.bytes == 4 then 2 else 1
  }

  /** Reference number k of a body, as the probe takes it: whole words joined. */
  function JoinedRef(p: Params, ws: seq<Word>, k: nat): nat
    requires Sound(p) && (k + 1) * RefWords(p) <= |ws|
  {
    if p.bytes == 4 then BigEndian(ws[2 * k] + ws[2 * k + 1]) else BigEndian(ws[k])
  }

  lemma {:induction false} JoinedRefIsField(p: Params, ws: seq<Word>, k: nat)
    requires Sound(p) && WordsOf(p, ws) && k <= 1 && (k + 1) * RefWords(p) <= |ws|
    ensures JoinedRef(p, ws, k) == Body64(p, ws, 8 * k)
  {
    if p.bytes == 4 {
      assert ws[2 * k] + ws[2 * k + 1] == EightBytes(p, ws, 8 * k);
    } else {
      assert ws[k] == EightBytes(p, ws, 8 * k);
    }
  }
}
