// Whole messages and packets of the codec: encoding, walking a packet, and what
// comes back.
module SbePackets {
  import opened Bytes
  import opened Prices
  import opened SbeValues
  import opened SbeCodec

  const SUBSET: set<nat> := {46, 47, 52, 53}

  datatype PacketMessage = PacketMessage(
    seqNum: nat, time: nat, size: nat, blockLength: nat, templateId: nat, schemaId: nat, version: nat, body: seq<byte>)

  // ---- a message ----

  function EncodeBody(t: Template, c: Content, version: nat): (b: Option<seq<byte>>)
    requires SaneTemplate(t)
  {
    var root, groups := EncodeBlock(t.blockLength, t.fields, c.root, version, true), EncodeGroups(t.groups, c, version);
    if root.None? || groups.None? then None else Some(root.value + groups.value)
  }

  function Prefix(size: nat, blockLength: nat, id: nat, schemaId: nat, version: nat): (p: seq<byte>)
    ensures |p| == PREFIX
  {
    ToLittleEndian(size, 2) + ToLittleEndian(blockLength, 2) + ToLittleEndian(id, 2) + ToLittleEndian(schemaId, 2)
    + ToLittleEndian(version, 2)
  }

  /** A message with its prefix; none when a value or a header field does not fit. */
  function EncodeMessage(t: Template, c: Content, schemaId: nat, version: nat): (m: Option<seq<byte>>)
    requires SaneTemplate(t)
  {
    var body := EncodeBody(t, c, version);
    if body.None? || PREFIX + |body.value| >= U16 || t.blockLength >= U16 || t.id >= U16 || schemaId >= U16
      || version >= U16
    then None
    else Some(Prefix(PREFIX + |body.value|, t.blockLength, t.id, schemaId, version) + body.value)
  }

  /** The size of a message: the prefix, the root block, and each group's dimension and entries. */
  lemma {:induction false} MessageSize(t: Template, c: Content, schemaId: nat, version: nat)
    requires SaneTemplate(t) && EncodeMessage(t, c, schemaId, version).Some?
    ensures |EncodeMessage(t, c, schemaId, version).value| == PREFIX + t.blockLength + GroupsSize(t.groups, c)
  {
    GroupsTake(t.groups, c, version);
  }

  /** Only templates of the subset are decoded, and only as long as the schema's root block. */
  function DecodeMessage(schema: map<nat, Template>, pm: PacketMessage): Content {
    if pm.templateId !in SUBSET || pm.templateId !in schema || pm.blockLength > schema[pm.templateId].blockLength
    then Content(map[], map[])
    else
      var t := schema[pm.templateId];
      Content(DecodeBlock(t.fields, pm.body, 0, pm.version, pm.blockLength),
              DecodeGroups(t.groups, pm.body, pm.blockLength, pm.version))
  }

  /** The message as the packet walk hands it out. */
  function Handed(n: nat, time: nat, t: Template, c: Content, schemaId: nat, version: nat): PacketMessage
    requires SaneTemplate(t) && EncodeBody(t, c, version).Some?
  {
    var body := EncodeBody(t, c, version).value;
    PacketMessage(n, time, PREFIX + |body|, t.blockLength, t.id, schemaId, version, body)
  }

  lemma {:induction false} OneEmptyEntry(g: Group, c: Content)
    requires g.blockLength == 0 && !g.wide && g.fields == [] && c.groups == map[g.name := [map[]]]
    ensures SaneGroups([g]) && EncodeGroups([g], c, 0) == Some([0, 0, 1])
  {
    hide Dimension, EncodeEntries;
    EmptyEntry(g);
    assert EncodeGroups([g][1..], c, 0) == Some([]);
    assert EncodeGroups([g], c, 0) == Some([0, 0, 1] + ([] + []));
    assert [0, 0, 1] + ([] + []) == [0, 0, 1];
  }

  lemma {:induction false} EmptyEntry(g: Group)
    requires g.blockLength == 0 && !g.wide && g.fields == []
    ensures Dimension(g, 1) == Some([0, 0, 1]) && EncodeEntries(g, [map[]], 0) == Some([])
  {
    var row: Row := map[];
    assert ToLittleEndian(0, 1) == [0] && ToLittleEndian(0, 2) == [0, 0];
    assert Dimension(g, 1).value == [0, 0] + [1] == [0, 0, 1];
    assert [row][..0] == [] && EncodeBlock(0, [], row, 0, false) == Some([]);
  }

  /** A group newer than the version a message declares is encoded and not decoded. */
  lemma {:induction false} NewerGroupIsLost()
    ensures
      var g := Group("NoMDEntries", 0, false, [], 1);
      var t, c := Template(46, 0, [], [g]), Content(map[], map[g.name := [map[]]]);
      && SaneTemplate(t) && EncodeBody(t, c, 0) == Some([0, 0, 1])
      && DecodeMessage(map[t.id := t], Handed(1, 0, t, c, 1, 0)).groups == map[]
  {
    hide EncodeGroups;
    var g := Group("NoMDEntries", 0, false, [], 1);
    var t, c := Template(46, 0, [], [g]), Content(map[], map[g.name := [map[]]]);
    OneEmptyEntry(g, c);
    assert EncodeBlock(0, [], c.root, 0, true) == Some([]) && [] + [0, 0, 1] == [0, 0, 1];
    assert DecodeGroups([g][1..], [0, 0, 1], 0, 0) == map[];
  }

  lemma {:induction false} RootReads(t: Template, c: Content, version: nat, body: seq<byte>)
    requires SaneTemplate(t) && EncodeBlock(t.blockLength, t.fields, c.root, version, true).Some?
    requires Stands(body, 0, EncodeBlock(t.blockLength, t.fields, c.root, version, true).value)
    ensures RowEncodable(t.fields, c.root, version)
    ensures DecodeBlock(t.fields, body, 0, version, t.blockLength) == SeenRow(t.fields, c.root, version)
  {
    BlockReads(t.blockLength, t.fields, c.root, version, true, body, 0, |t.fields|);
    assert t.fields[..|t.fields|] == t.fields;
  }

  // ---- what comes back, field by field ----

  lemma {:induction false} SeenRowAt(fs: seq<Field>, row: Row, version: nat, i: nat)
    requires RowEncodable(fs, row, version) && i < |fs| && fs[i].since <= version
    requires forall a, b :: 0 <= a < b < |fs| ==> fs[a].name != fs[b].name
    ensures fs[i].name in SeenRow(fs, row, version) && SeenRow(fs, row, version)[fs[i].name] == SeenField(fs[i], row)
    decreases |fs|
  {
    hide SeenField, Encodable;
    if i < |fs| - 1 {
      SeenRowAt(fs[..|fs| - 1], row, version, i);
    }
  }

  /** A field's value comes back exactly when it is faithful to its type. */
  lemma {:induction false} FieldComesBack(fs: seq<Field>, size: nat, row: Row, version: nat, i: nat)
    requires SaneFields(fs, size) && RowEncodable(fs, row, version) && i < |fs| && fs[i].since <= version
    requires ValueFor(fs[i], row).Some?
    ensures fs[i].name in SeenRow(fs, row, version)
    ensures SeenRow(fs, row, version)[fs[i].name] == ValueFor(fs[i], row).value
            <==> Faithful(fs[i].typ, ValueFor(fs[i], row).value)
  {
    SeenRowAt(fs, row, version, i);
    assert Inside(fs[i], size) && Encodable(fs[i], row);
    ValueRoundTrip(fs[i].typ, ValueFor(fs[i], row).value);
  }

  /** Every entry comes back, in order. */
  lemma {:induction false} EntriesComeBack(g: Group, rows: seq<Row>, version: nat, k: nat)
    requires RowsEncodable(g, rows, version) && k < |rows|
    ensures |SeenRows(g, rows, version)| == |rows|
    ensures RowEncodable(g.fields, rows[k], version)
            && SeenRows(g, rows, version)[k] == SeenRow(g.fields, rows[k], version)
    decreases |rows|
  {
    hide RowEncodable, SeenRow;
    assert forall i :: 0 <= i < |rows| - 1 ==> rows[1..][i] == rows[i + 1];
    if |rows| > 1 {
      EntriesComeBack(g, rows[1..], version, if k > 0 then k - 1 else 0);
    }
  }

  lemma {:induction false} GroupComesBack(gs: seq<Group>, c: Content, version: nat, i: nat)
    requires SaneGroups(gs) && GroupsEncodable(gs, c, version) && i < |gs|
    ensures RowsEncodable(gs[i], RowsFor(gs[i], c), version)
    ensures gs[i].name in SeenGroups(gs, c, version)
    ensures SeenGroups(gs, c, version)[gs[i].name] == SeenRows(gs[i], RowsFor(gs[i], c), version)
    decreases |gs|
  {
    hide RowsEncodable, SeenRows, SaneGroup;
    SaneTail(gs);
    forall j | 0 <= j < |gs| - 1
      ensures gs[1..][j] == gs[j + 1] && RowsEncodable(gs[1..][j], RowsFor(gs[1..][j], c), version)
    {
    }
    if i > 0 {
      GroupComesBack(gs[1..], c, version, i - 1);
    }
  }

  /** Decoding finds every group of the template exactly when none is newer than the
      version the message declares; encoding writes them all the same. */
  lemma {:induction false} GroupsFound(gs: seq<Group>, buf: seq<byte>, base: nat, version: nat)
    ensures (forall i :: 0 <= i < |gs| ==> gs[i].name in DecodeGroups(gs, buf, base, version))
            || (exists i :: 0 <= i < |gs| && gs[i].since > version)
    ensures DecodeGroups(gs, buf, base, version).Keys <= NamesUpTo(gs, version)
    decreases |gs|
  {
    hide DecodeEntries, EntryCount;
    if gs != [] {
      var g := gs[0];
      var next := if g.since > version then base
                  else if base + DimSize(g) > |buf| then base + DimSize(g)
                  else DecodeEntries(g, buf, base + DimSize(g), EntryCount(g, buf, base) as nat, version).1;
      GroupsFound(gs[1..], buf, next, version);
      assert NamesUpTo(gs, version) == NamesUpTo(gs[1..], version) + if g.since > version then {} else {g.name};
      if forall i :: 0 <= i < |gs| ==> gs[i].since <= version {
        forall i | 0 <= i < |gs|
          ensures gs[i].name in DecodeGroups(gs, buf, base, version)
        {
          assert i > 0 ==> gs[1..][i - 1] == gs[i];
        }
      }
    }
  }

  function NamesUpTo(gs: seq<Group>, version: nat): set<string> {
    if gs == [] then {} else NamesUpTo(gs[1..], version) + if gs[0].since > version then {} else {gs[0].name}
  }

  lemma {:induction false} NewerIsNotNamed(gs: seq<Group>, version: nat, i: nat)
    requires SaneGroups(gs) && i < |gs| && gs[i].since > version
    ensures gs[i].name !in NamesUpTo(gs, version)
    decreases |gs|
  {
    SaneTail(gs);
    if i > 0 {
      assert gs[1..][i - 1] == gs[i];
      NewerIsNotNamed(gs[1..], version, i - 1);
    } else {
      NameElsewhere(gs[1..], version, gs[0].name);
    }
  }

  lemma {:induction false} NameElsewhere(gs: seq<Group>, version: nat, name: string)
    requires forall i :: 0 <= i < |gs| ==> gs[i].name != name
    ensures name !in NamesUpTo(gs, version)
    decreases |gs|
  {
    if gs != [] {
      assert forall i :: 0 <= i < |gs| - 1 ==> gs[1..][i] == gs[i + 1];
      NameElsewhere(gs[1..], version, name);
    }
  }

  lemma {:induction false} GroupsFoundIff(gs: seq<Group>, buf: seq<byte>, base: nat, version: nat)
    requires SaneGroups(gs)
    ensures (forall i :: 0 <= i < |gs| ==> gs[i].name in DecodeGroups(gs, buf, base, version))
            <==> NoneNewer(gs, version)
  {
    hide DecodeGroups, SaneGroup;
    GroupsFound(gs, buf, base, version);
    forall i | 0 <= i < |gs| && gs[i].since > version
      ensures gs[i].name !in DecodeGroups(gs, buf, base, version)
    {
      NewerIsNotNamed(gs, version, i);
    }
  }

  // ---- packets ----

  function Chain(ms: seq<seq<byte>>): seq<byte> {
    if ms == [] then [] else ms[0] + Chain(ms[1..])
  }

  /** A packet; none when the sequence number or the time does not fit its field. */
  function EncodePacket(n: nat, time: nat, ms: seq<seq<byte>>): Option<seq<byte>> {
    if n >= Pow256(4) || time >= Pow256(8) then None
    else Some(ToLittleEndian(n, 4) + ToLittleEndian(time, 8) + Chain(ms))
  }

  function U16At(s: seq<byte>, at: nat): nat
    requires at + 2 <= |s|
  {
    LittleEndian(s[at..at + 2])
  }

  predicate Declares(rest: seq<byte>) {
    |rest| >= 2 && PREFIX <= U16At(rest, 0) <= |rest|
  }

  /** The message at the beginning of the rest of a packet. */
  function Head(n: nat, time: nat, rest: seq<byte>): PacketMessage
    requires Declares(rest)
  {
    PacketMessage(n, time, U16At(rest, 0), U16At(rest, 2), U16At(rest, 4), U16At(rest, 6), U16At(rest, 8),
                  rest[PREFIX..U16At(rest, 0)])
  }

  /** The messages of the rest of a packet; a size that cannot be ends the walk with an empty message. */
  function Walk(n: nat, time: nat, rest: seq<byte>): (ms: seq<PacketMessage>)
    decreases |rest|
  {
    if |rest| < 2 then []
    else if !Declares(rest) then [PacketMessage(n, time, U16At(rest, 0), 0, 0, 0, 0, [])]
    else [Head(n, time, rest)] + Walk(n, time, rest[U16At(rest, 0)..])
  }

  /** All messages of a packet; none when even its header is cut short. */
  function PacketMessages(packet: seq<byte>): Option<seq<PacketMessage>> {
    if |packet| < PACKET_HEADER then None
    else Some(Walk(LittleEndian(packet[..4]), LittleEndian(packet[4..12]), packet[PACKET_HEADER..]))
  }

  lemma {:induction false} WalkNext(n: nat, time: nat, packet: seq<byte>, off: nat)
    requires off <= |packet|
    ensures
      var rest := packet[off..];
      && (|rest| < 2 ==> Walk(n, time, rest) == [])
      && (|rest| >= 2 && !Declares(rest) ==>
          Walk(n, time, rest) == [PacketMessage(n, time, U16At(rest, 0), 0, 0, 0, 0, [])])
      && (Declares(rest) ==>
            off + U16At(rest, 0) <= |packet|
            && Walk(n, time, rest) == [Head(n, time, rest)] + Walk(n, time, packet[off + U16At(rest, 0)..]))
  {
    var rest := packet[off..];
    assert Declares(rest) ==> rest[U16At(rest, 0)..] == packet[off + U16At(rest, 0)..];
  }

  /** The walk ends for every packet, each message starting where the one before ended. */
  method IterPacketMessages(packet: seq<byte>) returns (r: Option<seq<PacketMessage>>)
    ensures r == PacketMessages(packet)
  {
    hide Walk, Head, U16At, LittleEndian;
    if |packet| < PACKET_HEADER {
      return None;
    }
    var n, time := LittleEndian(packet[..4]), LittleEndian(packet[4..12]);
    var out: seq<PacketMessage> := [];
    var off := PACKET_HEADER;
    while off + 2 <= |packet|
      invariant PACKET_HEADER <= off <= |packet|
      invariant out + Walk(n, time, packet[off..]) == Walk(n, time, packet[PACKET_HEADER..])
      decreases |packet| - off
    {
      WalkNext(n, time, packet, off);
      var rest := packet[off..];
      var size := U16At(rest, 0);
      if size < PREFIX || off + size > |packet| {
        return Some(out + [PacketMessage(n, time, size, 0, 0, 0, 0, [])]);
      }
      out := out + [Head(n, time, rest)];
      off := off + size;
    }
    WalkNext(n, time, packet, off);
    assert out + [] == out;
    return Some(out);
  }

  lemma {:induction false} ReadsU16(a: seq<byte>, x: nat, b: seq<byte>)
    requires x < U16
    ensures U16At(a + ToLittleEndian(x, 2) + b, |a|) == x
  {
    var s := a + ToLittleEndian(x, 2) + b;
    assert Pow256(2) == U16;
    LittleEndianRoundTrip(x, 2);
    assert s[|a|..|a| + 2] == ToLittleEndian(x, 2);
  }

  lemma {:induction false} PrefixReads(size: nat, blockLength: nat, id: nat, schemaId: nat, version: nat,
                                       rest: seq<byte>)
    requires size < U16 && blockLength < U16 && id < U16 && schemaId < U16 && version < U16
    ensures
      var w := Prefix(size, blockLength, id, schemaId, version) + rest;
      U16At(w, 0) == size && U16At(w, 2) == blockLength && U16At(w, 4) == id && U16At(w, 6) == schemaId
        && U16At(w, 8) == version
  {
    hide ToLittleEndian, LittleEndian, U16At;
    var w := Prefix(size, blockLength, id, schemaId, version) + rest;
    var total, block := ToLittleEndian(size, 2), ToLittleEndian(blockLength, 2);
    var tid, sid, ver := ToLittleEndian(id, 2), ToLittleEndian(schemaId, 2), ToLittleEndian(version, 2);
    ReadsU16([], size, block + tid + sid + ver + rest);
    ReadsU16(total, blockLength, tid + sid + ver + rest);
    ReadsU16(total + block, id, sid + ver + rest);
    ReadsU16(total + block + tid, schemaId, ver + rest);
    ReadsU16(total + block + tid + sid, version, rest);
    assert w == [] + total + (block + tid + sid + ver + rest);
    assert w == total + block + (tid + sid + ver + rest);
    assert w == total + block + tid + (sid + ver + rest);
    assert w == total + block + tid + sid + (ver + rest);
    assert w == total + block + tid + sid + ver + rest;
  }

  /** A message at the head of the rest of a packet is handed out as it was encoded. */
  lemma {:induction false} HeadReads(n: nat, time: nat, t: Template, c: Content, schemaId: nat, version: nat,
                                     more: seq<byte>)
    requires SaneTemplate(t) && EncodeMessage(t, c, schemaId, version).Some?
    ensures
      var m := EncodeMessage(t, c, schemaId, version).value;
      && Declares(m + more) && Head(n, time, m + more) == Handed(n, time, t, c, schemaId, version)
      && U16At(m + more, 0) == |m| && (m + more)[|m|..] == more
  {
    hide EncodeBody, Prefix, U16At;
    var body := EncodeBody(t, c, version).value;
    var m := EncodeMessage(t, c, schemaId, version).value;
    PrefixReads(PREFIX + |body|, t.blockLength, t.id, schemaId, version, body + more);
    assert m + more == Prefix(PREFIX + |body|, t.blockLength, t.id, schemaId, version) + (body + more);
    assert (m + more)[PREFIX..|m|] == body;
  }

  /** One message to encode. */
  datatype Item = Item(t: Template, c: Content, schemaId: nat, version: nat)

  predicate Encodes(items: seq<Item>) {
    forall i :: 0 <= i < |items| ==>
      SaneTemplate(items[i].t) && EncodeMessage(items[i].t, items[i].c, items[i].schemaId, items[i].version).Some?
  }

  function EncodedAll(items: seq<Item>): seq<seq<byte>>
    requires Encodes(items)
  {
    seq(|items|, i requires 0 <= i < |items| =>
        EncodeMessage(items[i].t, items[i].c, items[i].schemaId, items[i].version).value)
  }

  function HandedAll(n: nat, time: nat, items: seq<Item>): seq<PacketMessage>
    requires Encodes(items)
  {
    seq(|items|, i requires 0 <= i < |items| =>
        Handed(n, time, items[i].t, items[i].c, items[i].schemaId, items[i].version))
  }

  lemma {:induction false} WalkReads(n: nat, time: nat, items: seq<Item>)
    requires Encodes(items)
    ensures Walk(n, time, Chain(EncodedAll(items))) == HandedAll(n, time, items)
    decreases |items|
  {
    hide EncodeMessage, Handed, Head, SaneTemplate;
    if items != [] {
      var x, rest := items[0], items[1..];
      assert forall i :: 0 <= i < |rest| ==> rest[i] == items[i + 1];
      assert EncodedAll(items)[1..] == EncodedAll(rest) && HandedAll(n, time, items)[1..] == HandedAll(n, time, rest);
      HeadReads(n, time, x.t, x.c, x.schemaId, x.version, Chain(EncodedAll(rest)));
      WalkReads(n, time, rest);
      assert HandedAll(n, time, items) == [HandedAll(n, time, items)[0]] + HandedAll(n, time, items)[1..];
    }
  }

  /** The round trip of a packet: every message is handed out as it was encoded, in order. */
  lemma {:induction false} PacketRoundTrip(n: nat, time: nat, items: seq<Item>)
    requires Encodes(items) && EncodePacket(n, time, EncodedAll(items)).Some?
    ensures PacketMessages(EncodePacket(n, time, EncodedAll(items)).value) == Some(HandedAll(n, time, items))
  {
    var packet := EncodePacket(n, time, EncodedAll(items)).value;
    LittleEndianRoundTrip(n, 4);
    LittleEndianRoundTrip(time, 8);
    assert packet[..4] == ToLittleEndian(n, 4) && packet[4..12] == ToLittleEndian(time, 8);
    assert packet[PACKET_HEADER..] == Chain(EncodedAll(items));
    WalkReads(n, time, items);
  }

  // ---- the encoder's block, in place ----

  /** Writes a block in place, field by field; it is given up at the first value that
      does not encode. */
  method WriteBlock(size: nat, fs: seq<Field>, row: Row, version: nat, optional: bool)
    returns (ok: bool, block: array<byte>)
    requires SaneFields(fs, size)
    ensures fresh(block) && block.Length == size
    ensures ok <==> EncodeBlock(size, fs, row, version, optional).Some?
    ensures ok ==> block[..] == EncodeBlock(size, fs, row, version, optional).value
  {
    hide PutFields, EncodeValue, Put, Width, FieldSize, EncodeBlock, SaneFields, ValueFor;
    block := new byte[size](_ => 0);
    NoFieldsYet(size, fs, row, version, optional);
    assert block[..] == Zeros(size);
    var i := 0;
    while i < |fs|
      invariant 0 <= i <= |fs| && SaneFields(fs[..i], size)
      invariant PutFields(Zeros(size), fs[..i], row, version, optional) == Some(block[..])
    {
      var f := fs[i];
      NextField(size, fs, i, row, version, optional);
      if f.since <= version {
        var v := ValueFor(f, row);
        if v.None? {
          if !optional && !NeedsNoValue(f.typ) {
            StopsThere(size, fs, i, row, version, optional);
            return false, block;
          }
        } else {
          var e := EncodeValue(f.typ, v.value);
          if e.None? {
            StopsThere(size, fs, i, row, version, optional);
            return false, block;
          }
          ValueSizes(f.typ, v.value);
          WriteAt(block, f.offset, e.value);
        }
      }
      i := i + 1;
    }
    AllFields(size, fs, row, version, optional);
    ok := true;
  }

  lemma {:induction false} NoFieldsYet(size: nat, fs: seq<Field>, row: Row, version: nat, optional: bool)
    requires SaneFields(fs, size)
    ensures SaneFields(fs[..0], size) && PutFields(Zeros(size), fs[..0], row, version, optional) == Some(Zeros(size))
  {
  }

  lemma {:induction false} NextField(size: nat, fs: seq<Field>, i: nat, row: Row, version: nat, optional: bool)
    requires SaneFields(fs, size) && i < |fs|
    ensures SaneFields(fs[..i], size) && SaneFields(fs[..i + 1], size) && Inside(fs[i], size)
    ensures
      var now := PutFields(Zeros(size), fs[..i], row, version, optional);
      PutFields(Zeros(size), fs[..i + 1], row, version, optional) ==
      if now.None? then None else PutField(now.value, fs[i], row, version, optional)
  {
    assert fs[..i + 1][..i] == fs[..i];
  }

  lemma {:induction false} AllFields(size: nat, fs: seq<Field>, row: Row, version: nat, optional: bool)
    requires SaneFields(fs, size)
    ensures SaneFields(fs[..|fs|], size)
    ensures PutFields(Zeros(size), fs[..|fs|], row, version, optional) == EncodeBlock(size, fs, row, version, optional)
  {
    assert fs[..|fs|] == fs;
  }

  method WriteAt(block: array<byte>, off: nat, e: seq<byte>)
    requires off + |e| <= block.Length
    modifies block
    ensures block[..] == Put(old(block[..]), off, e)
  {
    var k := 0;
    while k < |e|
      invariant 0 <= k <= |e|
      invariant forall j :: 0 <= j < block.Length ==>
                block[j] == if off <= j < off + k then e[j - off] else old(block[j])
    {
      block[off + k] := e[k];
      k := k + 1;
    }
  }

  lemma {:induction false} StopsThere(size: nat, fs: seq<Field>, i: nat, row: Row, version: nat, optional: bool)
    requires SaneFields(fs, size) && i < |fs| && PutFields(Zeros(size), fs[..i + 1], row, version, optional).None?
    ensures EncodeBlock(size, fs, row, version, optional).None?
    decreases |fs|
  {
    if i + 1 < |fs| {
      assert fs[..|fs| - 1][..i + 1] == fs[..i + 1];
      StopsThere(size, fs[..|fs| - 1], i, row, version, optional);
    } else {
      assert fs[..i + 1] == fs;
    }
  }
}
