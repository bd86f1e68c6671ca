// The packet capture: MoldUDP64 datagrams in UDP, IPv4 and Ethernet, one capture
// record each, and the reader that gets sequence numbers and messages back.
module Capture {
  import opened Bytes
  import opened InternetChecksum
  import opened Itch
  import opened Packetizer

  // ---- written ----

  function IpHeaderStart(total: nat): (s: seq<byte>)
    ensures |s| == 10
  {
    [0x45, 0] + ToBigEndian(total, 2) + [0, 0, 0x40, 0, 64, 17]
  }

  function IpHeader(s: Settings, total: nat): (h: seq<byte>)
    requires Usable(s)
    ensures |h| == 20
  {
    var start, addresses := IpHeaderStart(total), s.srcIp + s.dstIp;
    start + ToBigEndian(Checksum(start + [0, 0] + addresses), 2) + addresses
  }

  function UdpPacket(s: Settings, payload: seq<byte>): (p: seq<byte>)
    requires Usable(s)
    ensures |p| == 28 + |payload| && p[28..] == payload
  {
    IpHeader(s, 28 + |payload|)
    + (ToBigEndian(s.srcPort, 2) + ToBigEndian(s.dstPort, 2) + ToBigEndian(8 + |payload|, 2) + [0, 0])
    + payload
  }

  /** The group address of a multicast IPv4 address, and the frame sent to it. */
  function EthernetFrame(s: Settings, packet: seq<byte>): (f: seq<byte>)
    requires Usable(s)
    ensures |f| == 14 + |packet| && f[14..] == packet
  {
    [0x01, 0x00, 0x5e, (s.dstIp[1] % 0x80) as byte, s.dstIp[2], s.dstIp[3]] + [0x02, 0, 0, 0, 0, 0x01] + [0x08, 0]
      + packet
  }

  function TimeOf(d: Datagram): (ns: nat)
    requires d.msgs != []
  {
    BigEndian(Clip(d.msgs[0], 5, 11))
  }

  function RecordHead(ns: nat, size: nat): (h: seq<byte>)
    ensures |h| == 16
  {
    ToLittleEndian(ns / 1_000_000_000, 4) + ToLittleEndian(ns % 1_000_000_000 / 1000, 4)
    + ToLittleEndian(size, 4) + ToLittleEndian(size, 4)
  }

  function CaptureRecord(s: Settings, d: Datagram): (r: seq<byte>)
    requires Usable(s) && d.msgs != []
  {
    var frame := EthernetFrame(s, UdpPacket(s, Payload(d)));
    RecordHead(TimeOf(d), |frame|) + frame
  }

  const FILE_HEAD: seq<byte> :=
    ToLittleEndian(0xA1B2_C3D4, 4) + ToLittleEndian(2, 2) + ToLittleEndian(4, 2) + ToLittleEndian(0, 4)
      + ToLittleEndian(0, 4)
    + ToLittleEndian(65535, 4) + ToLittleEndian(1, 4)

  predicate HaveMessages(ds: seq<Datagram>) {
    forall i :: 0 <= i < |ds| ==> ds[i].msgs != []
  }

  function CaptureRecords(s: Settings, ds: seq<Datagram>): seq<byte>
    requires Usable(s) && HaveMessages(ds)
  {
    if ds == [] then [] else CaptureRecord(s, ds[0]) + CaptureRecords(s, ds[1..])
  }

  function CaptureFile(s: Settings, ds: seq<Datagram>): seq<byte>
    requires Usable(s) && HaveMessages(ds)
  {
    FILE_HEAD + CaptureRecords(s, ds)
  }

  /** The largest UDP payload that an IPv4 packet carries. */
  const MOST := 65507

  /** Every header field holds its value. */
  predicate Packable(d: Datagram) {
    |d.session| == 10 && d.seq64 < WORD64 && |d.msgs| < 0x1_0000 && |Payload(d)| <= MOST
  }

  lemma {:induction false} RecordsAppendOne(s: Settings, ds: seq<Datagram>, d: Datagram)
    requires Usable(s) && HaveMessages(ds) && d.msgs != []
    ensures CaptureRecords(s, ds + [d]) == CaptureRecords(s, ds) + CaptureRecord(s, d)
  {
    hide CaptureRecord;
    if ds == [] {
      assert ds + [d] == [d];
      assert CaptureRecords(s, [d]) == CaptureRecord(s, d) + CaptureRecords(s, []);
    } else {
      assert (ds + [d])[1..] == ds[1..] + [d];
      RecordsAppendOne(s, ds[1..], d);
    }
  }

  // ---- the header checks ----

  /** The header that is sent verifies: its own checksum over it is zero. */
  lemma {:induction false} IpHeaderVerifies(s: Settings, total: nat)
    requires Usable(s)
    ensures Checksum(IpHeader(s, total)) == 0
  {
    var start, addresses := IpHeaderStart(total), s.srcIp + s.dstIp;
    assert start + [0, 0] + Padded(addresses) == start + ([0, 0] + addresses);
    WordSumAppend(start, [0, 0] + addresses);
    ChecksumVerifies(start, addresses);
  }

  /** A frame goes to the group address: 01-00-5E and the low 23 bits of the IPv4
      address (RFC 1112 section 6.4). */
  lemma {:induction false} SentToGroup(s: Settings, packet: seq<byte>)
    requires Usable(s)
    ensures BigEndian(EthernetFrame(s, packet)[..6]) == 0x0100_5E00_0000 + BigEndian(s.dstIp) % 0x80_0000
  {
    hide BigEndian;
    var f, ip := EthernetFrame(s, packet)[..6], s.dstIp;
    assert 0 <= ip[1] % 0x80 < 256;
    assert f == [0x01, 0x00, 0x5e] + [(ip[1] % 0x80) as byte, ip[2], ip[3]];
    SixBytes(0x01, 0x00, 0x5e, (ip[1] % 0x80) as byte, ip[2], ip[3]);
    assert [0, 0, ip[0]] + [ip[1], ip[2], ip[3]] == [0, 0] + ip;
    SixBytes(0, 0, ip[0], ip[1], ip[2], ip[3]);
    BigEndianJoin([0, 0], ip);
    TwoZeros();
    LowBits(ip[0], ip[1], (ip[2] as nat) * 0x100 + ip[3] as nat);
  }

  lemma {:induction false} SixBytes(a: byte, b: byte, c: byte, x: byte, y: byte, z: byte)
    ensures BigEndian([a, b, c] + [x, y, z]) == (a * 0x1_0000 + b * 0x100 + c) * 0x100_0000
            + (x * 0x1_0000 + y * 0x100 + z)
  {
    hide BigEndian;
    BigEndianJoin([a, b, c], [x, y, z]);
    ThreeBytes(a, b, c);
    ThreeBytes(x, y, z);
    assert Pow256(3) == 0x100_0000;
  }

  lemma {:induction false} TwoZeros()
    ensures BigEndian([0, 0]) == 0
  {
    assert [0, 0][..1] == [0] && BigEndian([0]) == 0;
  }

  lemma {:induction false} LowBits(a: nat, b: nat, low: nat)
    requires low < 0x1_0000
    ensures (a * 0x100_0000 + b * 0x1_0000 + low) % 0x80_0000 == b % 0x80 * 0x1_0000 + low
  {
    Remainder(a * 2 + b / 0x80, b % 0x80 * 0x1_0000 + low);
  }

  lemma {:induction false} Remainder(q: nat, rest: nat)
    requires rest < 0x80_0000
    ensures (q * 0x80_0000 + rest) % 0x80_0000 == rest
  {
  }

  lemma {:induction false} ThreeBytes(a: byte, b: byte, c: byte)
    ensures BigEndian([a, b, c]) == a * 0x1_0000 + b * 0x100 + c
  {
    assert [a, b, c][..2] == [a, b] && [a, b][..1] == [a] && [a][..0] == [];
    assert BigEndian([a]) == a && BigEndian([a, b]) == a * 256 + b;
  }

  /** What the headers of a record say: the first message's time in microseconds, the
      sizes of frame, packet and datagram, both addresses and both ports. */
  lemma {:induction false} HeadersSay(s: Settings, d: Datagram)
    requires Usable(s) && Packable(d) && d.msgs != []
    ensures
      var r, n := CaptureRecord(s, d), |Payload(d)|;
      && |r| == 58 + n && r[58..] == Payload(d)
      && LittleEndian(r[..4]) * 1_000_000 + LittleEndian(r[4..8]) == BigEndian(Clip(d.msgs[0], 5, 11)) / 1000
      && LittleEndian(r[4..8]) < 1_000_000
      && LittleEndian(r[8..12]) == LittleEndian(r[12..16]) == 42 + n
      && r[22..28] == [2, 0, 0, 0, 0, 1] && BigEndian(r[28..30]) == 0x0800
      && r[30..32] == [0x45, 0] && r[34..40] == [0, 0, 0x40, 0, 64, 17]
      && BigEndian(r[32..34]) == 28 + n && Checksum(r[30..50]) == 0
      && r[42..46] == s.srcIp && r[46..50] == s.dstIp
      && BigEndian(r[50..52]) == s.srcPort && BigEndian(r[52..54]) == s.dstPort
      && BigEndian(r[54..56]) == 8 + n && r[56..58] == [0, 0]
  {
    hide ToLittleEndian, LittleEndian, ToBigEndian, BigEndian, Payload, Checksum, Packable, Clip;
    var r, n := CaptureRecord(s, d), |Payload(d)|;
    FieldsHold(d);
    RecordParts(s, d);
    hide CaptureRecord, IpHeader, RecordHead;
    RecordHeadSays(r, TimeOf(d), 42 + n);
    IpHeaderVerifies(s, 28 + n);
    IpHeaderSays(s, 28 + n);
    Within(r, 30, 50, 0, 2);
    Within(r, 30, 50, 2, 4);
    Within(r, 30, 50, 4, 10);
    Within(r, 30, 50, 12, 16);
    Within(r, 30, 50, 16, 20);
    assert r[30..50][..2] == r[30..50][0..2];
    EtherTypeIs();
    BigEndianRoundTrip(s.srcPort, 2);
    BigEndianRoundTrip(s.dstPort, 2);
    BigEndianRoundTrip(8 + n, 2);
  }

  lemma {:induction false} Within(r: seq<byte>, lo: nat, hi: nat, a: nat, b: nat)
    requires lo <= hi <= |r| && a <= b <= hi - lo
    ensures r[lo..hi][a..b] == r[lo + a..lo + b]
  {
    var x, y := r[lo..hi][a..b], r[lo + a..lo + b];
    forall k | 0 <= k < b - a
      ensures x[k] == y[k]
    {
      assert x[k] == r[lo..hi][a + k] == r[lo + a + k] == y[k];
    }
  }

  /** The headers of a record, one behind the other. */
  lemma {:induction false} RecordParts(s: Settings, d: Datagram)
    requires Usable(s) && d.msgs != []
    ensures
      var r, n := CaptureRecord(s, d), |Payload(d)|;
      && |r| == 58 + n && r[..16] == RecordHead(TimeOf(d), 42 + n) && r[22..28] == [2, 0, 0, 0, 0, 1]
      && r[28..30] == [0x08, 0x00] && r[30..50] == IpHeader(s, 28 + n)
      && r[50..52] == ToBigEndian(s.srcPort, 2) && r[52..54] == ToBigEndian(s.dstPort, 2)
      && r[54..56] == ToBigEndian(8 + n, 2) && r[56..58] == [0, 0] && r[58..] == Payload(d)
  {
    hide ToBigEndian, Payload, IpHeader, RecordHead, TimeOf;
    var payload := Payload(d);
    var packet := UdpPacket(s, payload);
    var udp := ToBigEndian(s.srcPort, 2) + ToBigEndian(s.dstPort, 2) + ToBigEndian(8 + |payload|, 2) + [0, 0];
    assert packet[..20] == IpHeader(s, 28 + |payload|) && packet[20..28] == udp;
    var frame := EthernetFrame(s, packet);
    assert frame[6..12] == [2, 0, 0, 0, 0, 1] && frame[12..14] == [0x08, 0x00];
    hide UdpPacket, EthernetFrame;
    var r := CaptureRecord(s, d);
    var head := RecordHead(TimeOf(d), 42 + |payload|);
    assert r == head + frame;
    FromRecord(head, frame, packet);
    assert udp[..2] == ToBigEndian(s.srcPort, 2) && udp[2..4] == ToBigEndian(s.dstPort, 2);
    assert udp[4..6] == ToBigEndian(8 + |payload|, 2) && udp[6..8] == [0, 0];
    Within(packet, 20, 28, 0, 2);
    Within(packet, 20, 28, 2, 4);
    Within(packet, 20, 28, 4, 6);
    Within(packet, 20, 28, 6, 8);
    assert udp[0..2] == udp[..2];
  }

  lemma {:induction false} FromRecord(head: seq<byte>, frame: seq<byte>, packet: seq<byte>)
    requires |head| == 16 && |frame| >= 42 && frame[14..] == packet
    ensures
      var r := head + frame;
      && r[..16] == head && r[22..28] == frame[6..12] && r[28..30] == frame[12..14] && r[30..50] == packet[..20]
      && r[50..52] == packet[20..22] && r[52..54] == packet[22..24] && r[54..56] == packet[24..26]
      && r[56..58] == packet[26..28] && r[58..] == packet[28..]
  {
  }

  lemma {:induction false} EtherTypeIs()
    ensures BigEndian([0x08, 0x00]) == 0x0800
  {
    assert [0x08, 0x00][..1] == [0x08] && BigEndian([0x08]) == 0x08;
  }

  lemma {:induction false} FieldsHold(d: Datagram)
    requires Packable(d) && d.msgs != []
    ensures |Payload(d)| <= MOST && TimeOf(d) < Pow256(6) == 0x1_0000_0000_0000
    ensures Pow256(2) == 0x1_0000 && Pow256(4) == WORD32
  {
    var t := Clip(d.msgs[0], 5, 11);
    PowersAdd(|t|, 6 - |t|);
    assert Pow256(|t|) <= Pow256(|t|) * Pow256(6 - |t|);
  }

  lemma {:induction false} RecordHeadSays(r: seq<byte>, ns: nat, size: nat)
    requires |r| >= 16 && r[..16] == RecordHead(ns, size) && ns < 0x1_0000_0000_0000 && size < Pow256(4) == WORD32
    ensures LittleEndian(r[..4]) * 1_000_000 + LittleEndian(r[4..8]) == ns / 1000 && LittleEndian(r[4..8]) < 1_000_000
    ensures LittleEndian(r[8..12]) == LittleEndian(r[12..16]) == size
  {
    hide ToLittleEndian, LittleEndian;
    var sec, usec := ns / 1_000_000_000, ns % 1_000_000_000 / 1000;
    assert r[..4] == r[..16][..4] == ToLittleEndian(sec, 4);
    assert r[4..8] == r[..16][4..8] == ToLittleEndian(usec, 4);
    assert r[8..12] == r[..16][8..12] == ToLittleEndian(size, 4);
    assert r[12..16] == r[..16][12..16] == ToLittleEndian(size, 4);
    LittleEndianRoundTrip(sec, 4);
    LittleEndianRoundTrip(usec, 4);
    LittleEndianRoundTrip(size, 4);
  }

  lemma {:induction false} IpHeaderSays(s: Settings, total: nat)
    requires Usable(s) && total < Pow256(2)
    ensures
      var h := IpHeader(s, total);
      && h[..2] == [0x45, 0] && BigEndian(h[2..4]) == total && h[4..10] == [0, 0, 0x40, 0, 64, 17]
      && h[12..16] == s.srcIp && h[16..20] == s.dstIp
  {
    hide ToBigEndian, BigEndian, Checksum;
    assert IpHeader(s, total)[2..4] == ToBigEndian(total, 2);
    BigEndianRoundTrip(total, 2);
  }

  // ---- read ----

  datatype Packet = Packet(seq64: nat, msgs: seq<Message>, payload: seq<byte>)

  /** What the reader yields before the file ends, or before it finds the file damaged. */
  datatype Reading = Reading(packets: seq<Packet>, damaged: bool) | NotACapture

  function ReadMessages(payload: seq<byte>, off: nat, count: nat): (ms: seq<Message>)
    decreases count
  {
    if count == 0 then []
    else
      var len := BigEndian(Clip(payload, off, off + 2));
      [Clip(payload, off + 2, off + 2 + len)] + ReadMessages(payload, off + 2 + len, count - 1)
  }

  /** The payload of the record that starts here; none when it is cut short. */
  predicate Whole(rest: seq<byte>) {
    |rest| >= 16 && |rest| >= 16 + LittleEndian(rest[8..12])
    && LittleEndian(rest[8..12]) >= 42 + MOLD_HEADER
  }

  function PayloadAt(rest: seq<byte>): (p: seq<byte>)
    requires Whole(rest)
    ensures |p| >= MOLD_HEADER
  {
    rest[16 + 42..16 + LittleEndian(rest[8..12])]
  }

  function PacketAt(rest: seq<byte>): Packet
    requires Whole(rest)
  {
    var p := PayloadAt(rest);
    Packet(BigEndian(p[10..18]), ReadMessages(p, MOLD_HEADER, BigEndian(p[18..20])), p)
  }

  function ReadRecords(rest: seq<byte>): (r: Reading)
    ensures r.Reading?
    decreases |rest|
  {
    if rest == [] then Reading([], false)
    else if !Whole(rest) then Reading([], true)
    else
      var more := ReadRecords(rest[16 + LittleEndian(rest[8..12])..]);
      Reading([PacketAt(rest)] + more.packets, more.damaged)
  }

  function ReadCapture(file: seq<byte>): Reading {
    if Clip(file, 0, 4) != FILE_HEAD[..4] then NotACapture else ReadRecords(Clip(file, 24, |file|))
  }

  lemma {:induction false} ReadNext(payload: seq<byte>, off: nat, count: nat)
    ensures count == 0 ==> ReadMessages(payload, off, count) == []
    ensures count > 0 ==>
              var len := BigEndian(Clip(payload, off, off + 2));
              ReadMessages(payload, off, count) ==
              [Clip(payload, off + 2, off + 2 + len)] + ReadMessages(payload, off + 2 + len, count - 1)
  {
  }

  method IterMessages(payload: seq<byte>, count: nat) returns (ms: seq<Message>)
    ensures ms == ReadMessages(payload, MOLD_HEADER, count)
  {
    hide ReadMessages, BigEndian, Clip;
    ms := [];
    var off: nat := MOLD_HEADER;
    var i := 0;
    while i < count
      invariant 0 <= i <= count
      invariant ms + ReadMessages(payload, off, count - i) == ReadMessages(payload, MOLD_HEADER, count)
    {
      ReadNext(payload, off, count - i);
      var len := BigEndian(Clip(payload, off, off + 2));
      ms := ms + [Clip(payload, off + 2, off + 2 + len)];
      off := off + 2 + len;
      i := i + 1;
    }
    ReadNext(payload, off, 0);
    assert ms + [] == ms;
  }

  lemma {:induction false} ReadRecordsNext(rest: seq<byte>)
    ensures rest == [] ==> ReadRecords(rest) == Reading([], false)
    ensures rest != [] && !Whole(rest) ==> ReadRecords(rest) == Reading([], true)
    ensures Whole(rest) ==>
              var more := ReadRecords(rest[16 + LittleEndian(rest[8..12])..]);
              ReadRecords(rest) == Reading([PacketAt(rest)] + more.packets, more.damaged)
  {
  }

  method IterPcapPackets(file: seq<byte>) returns (r: Reading)
    ensures r == ReadCapture(file)
  {
    hide ReadRecords, LittleEndian, BigEndian, ReadMessages, Clip;
    if Clip(file, 0, 4) != FILE_HEAD[..4] {
      return NotACapture;
    }
    var packets: seq<Packet> := [];
    ghost var whole := Clip(file, 24, |file|);
    var rest := Clip(file, 24, |file|);
    while rest != []
      invariant ReadRecords(whole) == Reading(packets + ReadRecords(rest).packets, ReadRecords(rest).damaged)
      decreases |rest|
    {
      ReadRecordsNext(rest);
      if !Whole(rest) {
        return Reading(packets, true);
      }
      var payload := PayloadAt(rest);
      var msgs := IterMessages(payload, BigEndian(payload[18..20]));
      packets := packets + [Packet(BigEndian(payload[10..18]), msgs, payload)];
      rest := rest[16 + LittleEndian(rest[8..12])..];
    }
    ReadRecordsNext(rest);
    r := Reading(packets, false);
  }

  // ---- the round trip ----

  lemma {:induction false} ReadsFrame(head: seq<byte>, m: Message, tail: seq<byte>)
    requires |m| < 0x1_0000
    ensures
      var p, off := head + (Frame(m) + tail), |head|;
      && BigEndian(Clip(p, off, off + 2)) == |m| && Clip(p, off + 2, off + 2 + |m|) == m
      && p == head + Frame(m) + tail && |head + Frame(m)| == off + 2 + |m|
  {
    hide ToBigEndian, BigEndian;
    var p, off, size := head + (Frame(m) + tail), |head|, ToBigEndian(|m|, 2);
    Widths64();
    BigEndianRoundTrip(|m|, 2);
    assert p == head + (size + (m + tail)) && p == head + Frame(m) + tail;
    assert Clip(p, off, off + 2) == p[off..off + 2] == size;
    assert Clip(p, off + 2, off + 2 + |m|) == p[off + 2..off + 2 + |m|] == m;
  }

  /** The messages behind the header are the ones framed. */
  lemma {:induction false} ReadsFrames(head: seq<byte>, ms: seq<Message>)
    requires forall i :: 0 <= i < |ms| ==> |ms[i]| < 0x1_0000
    ensures ReadMessages(head + Frames(ms), |head|, |ms|) == ms
    decreases |ms|
  {
    hide Frame, Clip, BigEndian;
    if ms != [] {
      ReadsFrame(head, ms[0], Frames(ms[1..]));
      ReadsFrames(head + Frame(ms[0]), ms[1..]);
    }
  }

  lemma {:induction false} MessagesAreShort(d: Datagram, i: nat)
    requires Packable(d) && i < |d.msgs|
    ensures |d.msgs[i]| < 0x1_0000
  {
    FrameInside(d.msgs, i);
  }

  function PacketOf(d: Datagram): Packet {
    Packet(d.seq64, d.msgs, Payload(d))
  }

  lemma {:induction false} ReadsPayload(d: Datagram)
    requires Packable(d)
    ensures
      var p := Payload(d);
      |p| >= MOLD_HEADER && Packet(BigEndian(p[10..18]), ReadMessages(p, MOLD_HEADER, BigEndian(p[18..20])), p)
        == PacketOf(d)
  {
    var p := Payload(d);
    var head := d.session + ToBigEndian(d.seq64, 8) + ToBigEndian(|d.msgs|, 2);
    Widths64();
    BigEndianRoundTrip(d.seq64, 8);
    BigEndianRoundTrip(|d.msgs|, 2);
    assert p[10..18] == ToBigEndian(d.seq64, 8) && p[18..20] == ToBigEndian(|d.msgs|, 2);
    forall i | 0 <= i < |d.msgs| {
      MessagesAreShort(d, i);
    }
    ReadsFrames(head, d.msgs);
  }

  lemma {:induction false} Widths64()
    ensures Pow256(2) == 0x1_0000 && Pow256(4) == WORD32 && Pow256(8) == WORD64
  {
  }

  lemma {:induction false} ReadsRecord(s: Settings, d: Datagram, more: seq<byte>)
    requires Usable(s) && Packable(d) && d.msgs != []
    ensures
      var r := CaptureRecord(s, d);
      && Whole(r + more) && PacketAt(r + more) == PacketOf(d)
      && (r + more)[16 + LittleEndian((r + more)[8..12])..] == more
  {
    hide ToLittleEndian, LittleEndian, IpHeader, ReadMessages, Payload, Frames;
    var frame := EthernetFrame(s, UdpPacket(s, Payload(d)));
    var r := CaptureRecord(s, d);
    Widths64();
    LittleEndianRoundTrip(|frame|, 4);
    assert (r + more)[8..12] == ToLittleEndian(|frame|, 4);
    assert (r + more)[16..16 + |frame|] == frame;
    assert frame[42..] == frame[14..][28..] == Payload(d);
    ReadsPayload(d);
    assert PayloadAt(r + more) == Payload(d);
  }

  predicate AllPackable(ds: seq<Datagram>) {
    forall i :: 0 <= i < |ds| ==> Packable(ds[i])
  }

  function PacketsOf(ds: seq<Datagram>): seq<Packet> {
    if ds == [] then [] else [PacketOf(ds[0])] + PacketsOf(ds[1..])
  }

  lemma {:induction false} ReadsRecords(s: Settings, ds: seq<Datagram>)
    requires Usable(s) && HaveMessages(ds) && AllPackable(ds)
    ensures ReadRecords(CaptureRecords(s, ds)) == Reading(PacketsOf(ds), false)
    decreases |ds|
  {
    hide CaptureRecord, PacketAt, PacketOf, LittleEndian;
    if ds != [] {
      ReadsRecord(s, ds[0], CaptureRecords(s, ds[1..]));
      ReadsRecords(s, ds[1..]);
    }
  }

  /** Reading back what was written gives the sequence number, the messages and
      the payload of every datagram, in order. */
  lemma {:induction false} ReadsWhatWasWritten(s: Settings, ds: seq<Datagram>)
    requires Usable(s) && HaveMessages(ds) && AllPackable(ds)
    ensures ReadCapture(CaptureFile(s, ds)) == Reading(PacketsOf(ds), false)
  {
    hide CaptureRecords, Packable, ReadRecords, PacketsOf;
    var file := CaptureFile(s, ds);
    assert |FILE_HEAD| == 24;
    assert Clip(file, 0, 4) == FILE_HEAD[..4] && Clip(file, 24, |file|) == CaptureRecords(s, ds);
    ReadsRecords(s, ds);
  }

  // ---- which datagrams can be sent ----

  /** A datagram is sent exactly when its session has ten bytes and every number fits its
      field: sequence number, count, and the sizes of payload, UDP and IPv4 in two bytes. */
  lemma {:induction false} PackableIff(d: Datagram)
    ensures Packable(d) <==>
            && |d.session| == 10 && d.seq64 < 0x1_0000_0000_0000_0000 && |d.msgs| < 0x1_0000
            && 20 + 8 + |Payload(d)| < 0x1_0000
  {
  }

  // ---- what is in the file, byte by byte ----

  /** The head of the file, and the records right behind it. */
  lemma {:induction false} FileSays(s: Settings, ds: seq<Datagram>)
    requires Usable(s) && HaveMessages(ds)
    ensures
      var file := CaptureFile(s, ds);
      && |file| >= 24 && file[24..] == CaptureRecords(s, ds)
      && file[..24] == [0xd4, 0xc3, 0xb2, 0xa1, 2, 0, 4, 0, 0, 0, 0, 0, 0, 0, 0, 0, 0xff, 0xff, 0, 0, 1, 0, 0, 0]
  {
    hide CaptureRecords, ToLittleEndian;
    HeadDigits();
    assert |FILE_HEAD| == 24;
    assert FILE_HEAD == [0xd4, 0xc3, 0xb2, 0xa1, 2, 0, 4, 0, 0, 0, 0, 0, 0, 0, 0, 0, 0xff, 0xff, 0, 0, 1, 0, 0, 0];
  }

  lemma {:induction false} HeadDigits()
    ensures ToLittleEndian(0xA1B2_C3D4, 4) == [0xd4, 0xc3, 0xb2, 0xa1]
    ensures ToLittleEndian(2, 2) == [2, 0] && ToLittleEndian(4, 2) == [4, 0] && ToLittleEndian(0, 4) == [0, 0, 0, 0]
    ensures ToLittleEndian(65535, 4) == [0xff, 0xff, 0, 0] && ToLittleEndian(1, 4) == [1, 0, 0, 0]
  {
    assert ToLittleEndian(0xA1B2_C3, 3) == [0xc3, 0xb2, 0xa1];
  }

  /** Where message k of a datagram stands. */
  function Before(ms: seq<Message>, k: nat): nat
    requires k <= |ms|
  {
    if k == 0 then 0 else Before(ms, k - 1) + 2 + |ms[k - 1]|
  }

  lemma {:induction false} FrameStands(ms: seq<Message>, k: nat)
    requires k < |ms|
    ensures
      var b, at := Frames(ms), Before(ms, k);
      at + 2 + |ms[k]| <= |b| && b[at..at + 2] == ToBigEndian(|ms[k]|, 2) && b[at + 2..at + 2 + |ms[k]|] == ms[k]
    decreases |ms|
  {
    hide ToBigEndian, Before;
    var first, rest := Frame(ms[0]), Frames(ms[1..]);
    if k > 0 {
      BeforeTail(ms, k);
      FrameStands(ms[1..], k - 1);
      var at, n := Before(ms[1..], k - 1), |ms[k]|;
      SecondPart(first, rest, at, at + 2);
      SecondPart(first, rest, at + 2, at + 2 + n);
    } else {
      assert Before(ms, 0) == 0 by { NothingBefore(ms); }
      assert (first + rest)[..2] == first[..2] && (first + rest)[2..2 + |ms[0]|] == first[2..];
    }
  }

  lemma {:induction false} NothingBefore(ms: seq<Message>)
    ensures Before(ms, 0) == 0
  {
  }

  lemma {:induction false} SecondPart(first: seq<byte>, rest: seq<byte>, a: nat, b: nat)
    requires a <= b <= |rest|
    ensures (first + rest)[|first| + a..|first| + b] == rest[a..b]
  {
  }

  lemma {:induction false} BeforeTail(ms: seq<Message>, k: nat)
    requires 0 < k <= |ms|
    ensures Before(ms, k) == 2 + |ms[0]| + Before(ms[1..], k - 1)
    decreases k
  {
    if k > 1 {
      BeforeTail(ms, k - 1);
    }
  }

  /** A payload: ten bytes of session, the number of the first message, how many there are,
      and each of them behind its own length. */
  lemma {:induction false} PayloadSays(d: Datagram, k: nat)
    requires Packable(d) && k < |d.msgs|
    ensures
      var p, at := Payload(d), 20 + Before(d.msgs, k);
      && p[..10] == d.session && BigEndian(p[10..18]) == d.seq64 && BigEndian(p[18..20]) == |d.msgs|
      && at + 2 + |d.msgs[k]| <= |p| && BigEndian(p[at..at + 2]) == |d.msgs[k]|
      && p[at + 2..at + 2 + |d.msgs[k]|] == d.msgs[k]
  {
    hide ToBigEndian, BigEndian, Frames;
    var p, b, at, n := Payload(d), Frames(d.msgs), Before(d.msgs, k), |d.msgs[k]|;
    FrameStands(d.msgs, k);
    Widths64();
    MessagesAreShort(d, k);
    BigEndianRoundTrip(d.seq64, 8);
    BigEndianRoundTrip(|d.msgs|, 2);
    BigEndianRoundTrip(n, 2);
    assert p[..10] == d.session && p[10..18] == ToBigEndian(d.seq64, 8) && p[18..20] == ToBigEndian(|d.msgs|, 2);
    assert p[20 + at..20 + at + 2] == b[at..at + 2] && p[20 + at + 2..20 + at + 2 + n] == b[at + 2..at + 2 + n];
  }

  // ---- a file cut short ----

  lemma {:induction false} RecordSize(s: Settings, d: Datagram)
    requires Usable(s) && Packable(d) && d.msgs != []
    ensures
      var r := CaptureRecord(s, d);
      |r| == 16 + LittleEndian(r[8..12])
  {
    HeadersSay(s, d);
  }

  /** Inside a record nothing is whole. */
  lemma {:induction false} CutInside(s: Settings, d: Datagram, n: nat)
    requires Usable(s) && Packable(d) && d.msgs != [] && 0 < n < |CaptureRecord(s, d)|
    ensures ReadRecords(CaptureRecord(s, d)[..n]) == Reading([], true)
  {
    hide CaptureRecord, LittleEndian, Packable;
    RecordSize(s, d);
    var cut := CaptureRecord(s, d)[..n];
    assert n >= 16 ==> cut[8..12] == CaptureRecord(s, d)[8..12];
  }

  lemma {:induction false} FirstAndRest(s: Settings, ds: seq<Datagram>, k: nat)
    requires Usable(s) && HaveMessages(ds) && 0 < k <= |ds|
    ensures CaptureRecords(s, ds[..k]) == CaptureRecord(s, ds[0]) + CaptureRecords(s, ds[1..][..k - 1])
    ensures PacketsOf(ds[..k]) == [PacketOf(ds[0])] + PacketsOf(ds[1..][..k - 1])
  {
    hide CaptureRecord, PacketOf;
    assert ds[..k][1..] == ds[1..][..k - 1];
  }

  /** The packets before a cut: as many as are whole. */
  ghost predicate CutAfter(s: Settings, ds: seq<Datagram>, n: nat, k: nat)
    requires Usable(s) && HaveMessages(ds)
  {
    && k <= |ds| && |CaptureRecords(s, ds[..k])| <= n <= |CaptureRecords(s, ds)|
    && (k < |ds| ==> n < |CaptureRecords(s, ds[..k + 1])|)
    && ReadRecords(CaptureRecords(s, ds)[..n]) == Reading(PacketsOf(ds[..k]), n != |CaptureRecords(s, ds[..k])|)
  }

  lemma {:induction false} CutInFirst(s: Settings, ds: seq<Datagram>, n: nat)
    requires Usable(s) && HaveMessages(ds) && AllPackable(ds) && ds != [] && n < |CaptureRecord(s, ds[0])|
    ensures CutAfter(s, ds, n, 0)
  {
    hide CaptureRecord, Packable, Whole;
    var r, rest := CaptureRecord(s, ds[0]), CaptureRecords(s, ds[1..]);
    assert (r + rest)[..n] == r[..n] && ds[..1][1..] == [];
    if n > 0 {
      CutInside(s, ds[0], n);
    }
  }

  lemma {:induction false} CutInRest(s: Settings, ds: seq<Datagram>, n: nat, j: nat)
    requires Usable(s) && HaveMessages(ds) && AllPackable(ds) && ds != [] && n >= |CaptureRecord(s, ds[0])|
    requires CutAfter(s, ds[1..], n - |CaptureRecord(s, ds[0])|, j)
    ensures CutAfter(s, ds, n, j + 1)
  {
    hide CaptureRecord, PacketAt, PacketOf, LittleEndian, Packable, CaptureRecords, PacketsOf;
    var r, rest := CaptureRecord(s, ds[0]), CaptureRecords(s, ds[1..]);
    FirstAndRest(s, ds, |ds|);
    assert ds[..|ds|] == ds && ds[1..][..|ds| - 1] == ds[1..];
    assert (r + rest)[..n] == r + rest[..n - |r|];
    var more := rest[..n - |r|];
    ReadsRecord(s, ds[0], more);
    assert ReadRecords(r + more) ==
           Reading([PacketOf(ds[0])] + ReadRecords(more).packets, ReadRecords(more).damaged);
    FirstAndRest(s, ds, j + 1);
    if j + 1 < |ds| {
      FirstAndRest(s, ds, j + 2);
    }
  }

  /** Records cut short at any byte: the packets before the cut are read, and damage is told
      unless the cut is between two records. */
  lemma {:induction false} CutRecords(s: Settings, ds: seq<Datagram>, n: nat) returns (k: nat)
    requires Usable(s) && HaveMessages(ds) && AllPackable(ds) && n <= |CaptureRecords(s, ds)|
    ensures CutAfter(s, ds, n, k)
    decreases |ds|
  {
    hide CaptureRecord, ReadRecords, Packable, PacketsOf;
    if ds == [] {
      k := 0;
      NothingCut(s);
    } else if n < |CaptureRecord(s, ds[0])| {
      k := 0;
      CutInFirst(s, ds, n);
    } else {
      hide CutAfter;
      var j := CutRecords(s, ds[1..], n - |CaptureRecord(s, ds[0])|);
      k := j + 1;
      CutInRest(s, ds, n, j);
    }
  }

  lemma {:induction false} NothingCut(s: Settings)
    requires Usable(s)
    ensures CutAfter(s, [], 0, 0)
  {
  }

  /** A capture cut short anywhere behind its head: the packets before the cut are read, and
      damage is told unless the cut is between two records. */
  lemma {:induction false} CutCaptureReads(s: Settings, ds: seq<Datagram>, n: nat) returns (k: nat)
    requires Usable(s) && HaveMessages(ds) && AllPackable(ds) && 24 <= n <= |CaptureFile(s, ds)|
    ensures k <= |ds| && |CaptureFile(s, ds[..k])| <= n && (k < |ds| ==> n < |CaptureFile(s, ds[..k + 1])|)
    ensures ReadCapture(CaptureFile(s, ds)[..n]) == Reading(PacketsOf(ds[..k]), n != |CaptureFile(s, ds[..k])|)
  {
    hide CaptureRecords, Packable, ReadRecords, PacketsOf, ToLittleEndian;
    var file := CaptureFile(s, ds);
    assert |FILE_HEAD| == 24;
    k := CutRecords(s, ds, n - 24);
    var cut := CaptureRecords(s, ds)[..n - 24];
    assert file[..n] == FILE_HEAD + cut;
    ReadsHead(cut);
  }

  lemma {:induction false} ReadsHead(rest: seq<byte>)
    ensures ReadCapture(FILE_HEAD + rest) == ReadRecords(rest)
  {
    hide ReadRecords, ToLittleEndian;
    assert |FILE_HEAD| == 24;
    var file := FILE_HEAD + rest;
    assert Clip(file, 0, 4) == FILE_HEAD[..4] && Clip(file, 24, |file|) == rest;
  }
}
