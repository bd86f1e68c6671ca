// ITCH messages in MoldUDP64 datagrams, and the reference decoder that turns
// them into normalized records: what the hardware parser has to put on its bus.
module Itch {
  import opened Bytes
  import opened Records

  type Message = seq<byte>

  datatype Datagram = Datagram(session: seq<byte>, seq64: nat, msgs: seq<Message>)

  const HEADER_LENGTH := 11
  const MOLD_HEADER := 20
  const WORD32: nat := 0x1_0000_0000
  const WORD64: nat := 0x1_0000_0000_0000_0000

  /** Total length by type for the 22 known types; zero for any other. */
  function ExpectedLength(t: byte): (n: nat)
    ensures n <= 50
    ensures InSubset(t) ==> 12 <= n <= 44
  {
    match t
    case 0x53 => 12 case 0x52 => 39 case 0x48 => 25 case 0x59 => 20 case 0x4c => 26 case 0x56 => 35
    case 0x57 => 12 case 0x4b => 28 case 0x4a => 35 case 0x4f => 21 case 0x41 => 36 case 0x46 => 40
    case 0x45 => 31 case 0x43 => 36 case 0x58 => 23 case 0x44 => 19 case 0x55 => 35 case 0x50 => 44
    case 0x51 => 40 case 0x42 => 19 case 0x49 => 50 case 0x4e => 20
    case _ => 0
  }

  /** S R A F E C X D U P: the types that produce a record. */
  predicate InSubset(t: byte) {
    t == 0x53 || t == 0x52 || t == 0x41 || t == 0x46 || t == 0x45 || t == 0x43 || t == 0x58 || t == 0x44
    || t == 0x55 || t == 0x50
  }

  predicate Canonical(m: Message) {
    m != [] && |m| == ExpectedLength(m[0])
  }

  predicate AllCanonical(ms: seq<Message>) {
    forall i :: 0 <= i < |ms| ==> Canonical(ms[i])
  }

  // ---- MoldUDP64 framing ----

  function Frame(m: Message): (s: seq<byte>)
    ensures |s| == 2 + |m|
  {
    ToBigEndian(|m|, 2) + m
  }

  function Frames(ms: seq<Message>): seq<byte> {
    if ms == [] then [] else Frame(ms[0]) + Frames(ms[1..])
  }

  function Payload(d: Datagram): (s: seq<byte>)
    ensures |s| >= |d.session| + 10
  {
    d.session + ToBigEndian(d.seq64, 8) + ToBigEndian(|d.msgs|, 2) + Frames(d.msgs)
  }

  // ---- the reference decoder ----

  /** A normalized record: the first word and the time stamp as 64-bit integers, then the body. */
  datatype OracleRecord = OracleRecord(word0: nat, ts: nat, body: seq<byte>)

  datatype Verdict = Decoded(records: seq<OracleRecord>) | BadMessage(index: nat)

  function RecordOf(m: Message, idx: nat): OracleRecord
    requires |m| >= HEADER_LENGTH
  {
    OracleRecord(
      (m[0] as nat) * 0x100_0000_0000_0000 + BigEndian(m[1..3]) * 0x100_0000_0000 + (|m| % 256) * WORD32 + idx % WORD32,
      BigEndian(m[5..11]), m[HEADER_LENGTH..])
  }

  /** The records of the messages in order; every message advances the global index. */
  function RecordsOf(msgs: seq<Message>, idx: nat): (rs: seq<OracleRecord>)
    requires AllCanonical(msgs)
  {
    if msgs == [] then []
    else
      assert Canonical(msgs[0]);
      (if InSubset(msgs[0][0]) then [RecordOf(msgs[0], idx)] else []) + RecordsOf(msgs[1..], idx + 1)
  }

  /** All messages of all datagrams, in wire order. */
  function AllMessages(ds: seq<Datagram>): (ms: seq<Message>) {
    if ds == [] then [] else ds[0].msgs + AllMessages(ds[1..])
  }

  lemma {:induction false} RecordsAppend(a: seq<Message>, b: seq<Message>, idx: nat)
    requires AllCanonical(a) && AllCanonical(b)
    ensures AllCanonical(a + b)
    ensures RecordsOf(a + b, idx) == RecordsOf(a, idx) + RecordsOf(b, idx + |a|)
  {
    hide RecordOf, Canonical;
    if a == [] {
      assert a + b == b;
    } else {
      assert a + b == [a[0]] + (a[1..] + b) && (a + b)[1..] == a[1..] + b;
      RecordsAppend(a[1..], b, idx + 1);
      assert RecordsOf(a + b, idx) == RecordsOf([a[0]], idx) + RecordsOf(a[1..] + b, idx + 1);
    }
  }

  lemma {:induction false} NoRecordsYet(all: seq<Message>)
    ensures RecordsOf(all[..0], 0) == []
  {
  }

  lemma {:induction false} RecordsStep(all: seq<Message>, n: nat)
    requires n < |all| && forall i :: 0 <= i <= n ==> Canonical(all[i])
    ensures RecordsOf(all[..n + 1], 0) == RecordsOf(all[..n], 0) + if InSubset(all[n][0]) then [RecordOf(all[n], n)]
            else []
  {
    assert all[..n + 1] == all[..n] + [all[n]];
    RecordsAppend(all[..n], [all[n]], 0);
  }

  /** The decoder over datagrams: it stops at the first message whose type is
      unknown or whose length is not its type's. */
  method IterMessageRecords(ds: seq<Datagram>) returns (v: Verdict)
    ensures v.Decoded? <==> AllCanonical(AllMessages(ds))
    ensures v.Decoded? ==> v.records == RecordsOf(AllMessages(ds), 0)
    ensures v.BadMessage? ==> v.index < |AllMessages(ds)| && !Canonical(AllMessages(ds)[v.index])
                              && forall i :: 0 <= i < v.index ==> Canonical(AllMessages(ds)[i])
  {
    hide RecordOf, RecordsOf;
    var out: seq<OracleRecord> := [];
    var idx: nat := 0;
    ghost var all := AllMessages(ds);
    NoRecordsYet(all);
    var k := 0;
    while k < |ds|
      invariant 0 <= k <= |ds| && idx <= |all| && all[idx..] == AllMessages(ds[k..])
      invariant forall i :: 0 <= i < idx ==> Canonical(all[i])
      invariant out == RecordsOf(all[..idx], 0)
    {
      var msgs := ds[k].msgs;
      ghost var start := idx;
      assert all[start..] == msgs + AllMessages(ds[k..][1..]) && ds[k..][1..] == ds[k + 1..];
      var j := 0;
      while j < |msgs|
        invariant 0 <= j <= |msgs| && idx == start + j && start + |msgs| <= |all|
        invariant forall i :: 0 <= i < idx ==> Canonical(all[i])
        invariant out == RecordsOf(all[..idx], 0)
      {
        var raw := msgs[j];
        assert all[start..][j] == all[idx] == raw;
        if raw == [] || ExpectedLength(raw[0]) == 0 || |raw| != ExpectedLength(raw[0]) {
          return BadMessage(idx);
        }
        RecordsStep(all, idx);
        if InSubset(raw[0]) {
          out := out + [RecordOf(raw, idx)];
        }
        idx := idx + 1;
        j := j + 1;
      }
      assert all[idx..] == all[start..][|msgs|..];
      k := k + 1;
    }
    assert all[..idx] == all;
    v := Decoded(out);
  }

  // ---- a record on the bus ----

  /** Bytes in words of that width, the last one padded with zeroes. */
  function Words(s: seq<byte>, width: nat): (ws: seq<Word>)
    requires width > 0
    ensures forall i :: 0 <= i < |ws| ==> |ws[i]| == width
    decreases |s|
  {
    if s == [] then []
    else if |s| <= width then [s + seq(width - |s|, _ => 0)]
    else [s[..width]] + Words(s[width..], width)
  }

  /** The stream of one record; the 32-bit bus carries no time stamp. */
  function OnBus(p: Params, r: OracleRecord): (bs: seq<Beat>)
    requires Sound(p)
  {
    var heads := if p.bytes == 4 then ToBigEndian(r.word0, 8) else ToBigEndian(r.word0, 8) + ToBigEndian(r.ts, 8);
    var ws := Words(heads + r.body, p.bytes);
    seq(|ws|, i requires 0 <= i < |ws| => Beat(ws[i], i == |ws| - 1))
  }

  function StreamOf(p: Params, rs: seq<OracleRecord>): seq<Beat>
    requires Sound(p)
  {
    if rs == [] then [] else OnBus(p, rs[0]) + StreamOf(p, rs[1..])
  }
}
