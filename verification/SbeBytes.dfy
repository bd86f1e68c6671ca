// What stands where in an encoded message, byte by byte, and what any bytes decode to.
module SbeBytes {
  import opened Bytes
  import opened Prices
  import opened SbeValues
  import opened SbeCodec
  import opened SbePackets

  // ---- numbers and text ----

  /** An integer is encoded exactly when it is in range, least significant byte first, a
      negative one as its complement. */
  lemma {:induction false} IntegerStands(size: nat, signed: bool, n: int, k: nat)
    requires k < size
    ensures
      var e, all := EncodeScalar(Integer(size, signed), Number(n)), Pow256(size);
      && (e.Some? <==> if signed then -(all as int) <= 2 * n < all else 0 <= n < all)
      && (e.Some? ==> |e.value| == size && e.value[k] == (if n < 0 then n + all else n) / Pow256(k) % 256)
  {
    var all := Pow256(size);
    if InRange(Integer(size, signed), n) {
      LittleEndianDigit(if n < 0 then n + all else n, size, k);
    }
  }

  /** Any bytes decode to the scalar that is encoded by them. */
  lemma {:induction false} DecodedEncodes(p: Prim, buf: seq<byte>, off: nat)
    requires off + PrimSize(p) <= |buf|
    ensures EncodeScalar(p, DecodeScalar(p, buf, off)) == Some(buf[off..off + PrimSize(p)])
  {
    var s := buf[off..off + PrimSize(p)];
    assert Clip(buf, off, off + PrimSize(p)) == s;
    LittleDigitsOf(s);
    assert |s| == 1 ==> s[..1] == s;
  }

  /** A character is the first byte of a text, zero for an empty one, or a number's byte. */
  lemma {:induction false} CharacterStands(v: Scalar)
    ensures
      EncodeScalar(Char, v) ==
      match v
      case Number(n) => if n < 0 || n > 255 then None else Some([n])
      case Text(s) => if |s| > 0 then Some([s[0]]) else Some([0])
      case Str(s) => if |s| > 0 then Some([s[0]]) else Some([0])
  {
    match v
    case Number(_) =>
    case Text(s) => assert s != [] ==> s[..1] == [s[0]];
    case Str(s) => assert s != [] ==> s[..1] == [s[0]];
  }

  /** The value of a part: a value that is no collection of parts is meant for each of them. */
  lemma {:induction false} PartIs(v: Value, name: string)
    ensures v.One? ==> PartOf(v, name) == Some(v.v)
    ensures v.Parts? ==> PartOf(v, name) == if name in v.m then Some(v.m[name]) else None
  {
  }

  /** A composite is encoded exactly when each of its parts but the constants is given and
      can be. */
  lemma {:induction false} PartsEncodeIff(parts: seq<Component>, v: Value)
    ensures EncodeParts(parts, v).Some? <==>
            forall i :: 0 <= i < |parts| && parts[i].constant.None? ==>
              PartOf(v, parts[i].name).Some? && EncodeScalar(parts[i].prim, PartOf(v, parts[i].name).value).Some?
  {
    hide EncodeScalar;
    if parts != [] {
      PartsEncodeIff(parts[1..], v);
      assert forall i :: 0 <= i < |parts| - 1 ==> parts[1..][i] == parts[i + 1];
      assert forall i :: 0 < i < |parts| ==> parts[i] == parts[1..][i - 1];
    }
  }

  /** The types that are encoded without a value are those that a value without parts will do
      for. */
  lemma {:induction false} NeedsNoValueIff(t: Type)
    ensures NeedsNoValue(t) <==> EncodeValue(t, Parts(map[])).Some?
  {
    if t.Composite? {
      PartsEncodeIff(t.parts, Parts(map[]));
    }
  }

  /** A part of a composite stands behind the parts before it, constants taking no room. */
  lemma {:induction false} PartStands(parts: seq<Component>, v: Value, i: nat)
    requires SaneParts(parts) && EncodeParts(parts, v).Some? && i < |parts| && parts[i].constant.None?
    ensures
      var e, at, part := EncodeParts(parts, v).value, PartsWidth(parts[..i]), PartOf(v, parts[i].name);
      && part.Some? && EncodeScalar(parts[i].prim, part.value).Some?
      && at + PrimSize(parts[i].prim) <= |e|
      && e[at..at + PrimSize(parts[i].prim)] == EncodeScalar(parts[i].prim, part.value).value
    decreases |parts|
  {
    hide EncodeScalar, SaneParts;
    var e := EncodeParts(parts, v).value;
    if i > 0 {
      SaneRest(parts);
      PartStands(parts[1..], v, i - 1);
      assert parts[..i][1..] == parts[1..][..i - 1] && parts[..i][0] == parts[0];
      if OnWire(parts[0]) {
        var first, rest := EncodeScalar(parts[0].prim, PartOf(v, parts[0].name).value).value,
          EncodeParts(parts[1..], v).value;
        var at, n := PartsWidth(parts[1..][..i - 1]), PrimSize(parts[i].prim);
        Behind(first, rest, at, at + n);
      }
    } else {
      assert parts[..0] == [];
    }
  }

  lemma {:induction false} Behind(first: seq<byte>, rest: seq<byte>, a: nat, b: nat)
    requires a <= b <= |rest|
    ensures (first + rest)[|first| + a..|first| + b] == rest[a..b]
  {
  }

  // ---- blocks ----

  /** A field of the version stands at its offset: the value under its name, or else under
      its tag; without one, or newer, it is zeroes. */
  lemma {:induction false} FieldStands(size: nat, fs: seq<Field>, row: Row, version: nat, optional: bool, i: nat)
    requires SaneFields(fs, size) && EncodeBlock(size, fs, row, version, optional).Some? && i < |fs|
    ensures
      var b, f := EncodeBlock(size, fs, row, version, optional).value, fs[i];
      && |b| == size && f.offset + Width(f.typ) <= size
      && var place := b[f.offset..f.offset + Width(f.typ)];
         if f.since <= version && f.name in row then EncodeValue(f.typ, row[f.name]) == Some(place)
         else if f.since <= version && f.tag in row then EncodeValue(f.typ, row[f.tag]) == Some(place)
         else place == Zeros(Width(f.typ))
  {
    hide PutFields, EncodeValue;
    InsideWidth(fs[i], size);
    BlockHolds(Zeros(size), fs, row, version, optional, i);
    assert At(Zeros(size), fs[i]) == Zeros(Width(fs[i].typ));
  }

  /** A value is given for the field. */
  predicate Given(f: Field, row: Row) {
    f.name in row || f.tag in row
  }

  /** A block is encoded exactly when every value given for a field of the version can be,
      and every field without one may be left out. */
  lemma {:induction false} BlockEncodesIff(block: seq<byte>, fs: seq<Field>, row: Row, version: nat, optional: bool)
    requires SaneFields(fs, |block|)
    ensures PutFields(block, fs, row, version, optional).Some? <==>
            forall i :: 0 <= i < |fs| && fs[i].since <= version ==>
              if fs[i].name in row then EncodeValue(fs[i].typ, row[fs[i].name]).Some?
              else if fs[i].tag in row then EncodeValue(fs[i].typ, row[fs[i].tag]).Some?
              else optional || NeedsNoValue(fs[i].typ)
    decreases |fs|
  {
    hide EncodeValue, NeedsNoValue, Inside;
    if fs != [] {
      BlockEncodesIff(block, fs[..|fs| - 1], row, version, optional);
      assert forall i :: 0 <= i < |fs| - 1 ==> fs[..|fs| - 1][i] == fs[i];
    }
  }

  /** The bytes that belong to no given field of the version are zero. */
  lemma {:induction false} RestIsZero(block: seq<byte>, fs: seq<Field>, row: Row, version: nat, optional: bool, x: nat)
    requires SaneFields(fs, |block|) && PutFields(block, fs, row, version, optional).Some? && x < |block|
    requires forall i :: 0 <= i < |fs| && fs[i].since <= version && Given(fs[i], row) ==>
               x < fs[i].offset || fs[i].offset + Width(fs[i].typ) <= x
    ensures PutFields(block, fs, row, version, optional).value[x] == block[x]
    decreases |fs|
  {
    hide EncodeValue;
    if fs != [] {
      var f, init := fs[|fs| - 1], PutFields(block, fs[..|fs| - 1], row, version, optional).value;
      assert forall i :: 0 <= i < |fs| - 1 ==> fs[..|fs| - 1][i] == fs[i];
      RestIsZero(block, fs[..|fs| - 1], row, version, optional, x);
      if f.since <= version && Given(f, row) {
        ValueSizes(f.typ, ValueFor(f, row).value);
      }
    }
  }

  /** What any bytes decode to: the fields of the version that lie inside the block. */
  lemma {:induction false} DecodedFields(fs: seq<Field>, buf: seq<byte>, base: nat, version: nat, size: nat, i: nat)
    requires i < |fs| && forall a, b :: 0 <= a < b < |fs| ==> fs[a].name != fs[b].name
    ensures
      var row, f := DecodeBlock(fs, buf, base, version, size), fs[i];
      && (f.name in row <==> f.since <= version && f.offset + FieldSize(f.typ) <= size)
      && (f.name in row ==> row[f.name] == DecodeValue(f.typ, buf, base + f.offset))
    decreases |fs|
  {
    hide DecodeValue, FieldSize;
    if i < |fs| - 1 {
      DecodedFields(fs[..|fs| - 1], buf, base, version, size, i);
    } else {
      NotDecoded(fs[..|fs| - 1], buf, base, version, size, fs[i].name);
    }
  }

  lemma {:induction false} NotDecoded(fs: seq<Field>, buf: seq<byte>, base: nat, version: nat, size: nat, name: string)
    requires forall i :: 0 <= i < |fs| ==> fs[i].name != name
    ensures name !in DecodeBlock(fs, buf, base, version, size)
    decreases |fs|
  {
    hide DecodeValue, FieldSize;
    if fs != [] {
      NotDecoded(fs[..|fs| - 1], buf, base, version, size, name);
    }
  }

  // ---- groups ----

  lemma {:induction false} InFront(first: seq<byte>, rest: seq<byte>, a: nat, b: nat)
    requires a <= b <= |first|
    ensures (first + rest)[a..b] == first[a..b]
  {
  }

  lemma {:induction false} LastEntry(g: Group, rows: seq<Row>, version: nat)
    requires SaneFields(g.fields, g.blockLength) && EncodeEntries(g, rows, version).Some? && rows != []
    ensures
      var n, size := |rows| - 1, g.blockLength;
      var init, last := EncodeEntries(g, rows[..n], version), EncodeBlock(size, g.fields, rows[n], version, false);
      init.Some? && last.Some? && EncodeEntries(g, rows, version).value == init.value + last.value
  {
    hide EncodeBlock;
  }

  /** Entry k of a group stands in its turn. */
  lemma {:induction false} EntryStands(g: Group, rows: seq<Row>, version: nat, k: nat)
    requires SaneFields(g.fields, g.blockLength) && EncodeEntries(g, rows, version).Some? && k < |rows|
    ensures
      var e, entry := EncodeEntries(g, rows, version).value,
        EncodeBlock(g.blockLength, g.fields, rows[k], version, false);
      var at := k * g.blockLength;
      at + g.blockLength <= |e| == |rows| * g.blockLength && entry == Some(e[at..at + g.blockLength])
    decreases |rows|
  {
    hide EncodeBlock, EncodeEntries;
    var n, size := |rows| - 1, g.blockLength;
    LastEntry(g, rows, version);
    var init, last := EncodeEntries(g, rows[..n], version).value,
      EncodeBlock(size, g.fields, rows[n], version, false).value;
    Larger(k, |rows|, size);
    if k < n {
      Larger(k, n, size);
      EntryStands(g, rows[..n], version, k);
      InFront(init, last, k * size, k * size + size);
    } else {
      Behind(init, last, 0, size);
      assert last[0..size] == last && |init| == k * size;
    }
  }

  lemma {:induction false} DimensionSays(g: Group, n: nat)
    requires Dimension(g, n).Some?
    ensures
      var d := Dimension(g, n).value;
      && |d| == (if g.wide then 8 else 3) && d[0] as int + 256 * d[1] as int == g.blockLength
      && d[|d| - 1] as int == n && (g.wide ==> d[2..7] == [0, 0, 0, 0, 0])
  {
    LittleEndianDigit(g.blockLength, 2, 0);
    LittleEndianDigit(g.blockLength, 2, 1);
    Powers();
  }

  /** A group stands there: its block length in two bytes, zeroes, the number of its entries
      in the last byte of three or eight, and then the entries. */
  predicate GroupAt(e: seq<byte>, at: nat, g: Group, rows: seq<Row>, version: nat)
    requires SaneFields(g.fields, g.blockLength)
  {
    var width := if g.wide then 8 else 3;
    && at + width + |rows| * g.blockLength <= |e|
    && var d := e[at..at + width];
       && d[0] as int + 256 * d[1] as int == g.blockLength && d[width - 1] as int == |rows|
       && (g.wide ==> d[2..7] == [0, 0, 0, 0, 0])
       && EncodeEntries(g, rows, version) == Some(e[at + width..at + width + |rows| * g.blockLength])
  }

  lemma {:induction false} FirstGroupAt(g: Group, rows: seq<Row>, version: nat, dim: seq<byte>, body: seq<byte>,
                                        more: seq<byte>)
    requires SaneFields(g.fields, g.blockLength) && Dimension(g, |rows|) == Some(dim)
    requires EncodeEntries(g, rows, version) == Some(body)
    ensures GroupAt(dim + (body + more), 0, g, rows, version)
  {
    hide EncodeEntries, Dimension;
    DimensionSays(g, |rows|);
    InFront(dim, body + more, 0, |dim|);
    Behind(dim, body + more, 0, |body|);
    InFront(body, more, 0, |body|);
    assert body[0..|body|] == body && dim[0..|dim|] == dim;
  }

  lemma {:induction false} GroupFurther(before: seq<byte>, e: seq<byte>, at: nat, g: Group, rows: seq<Row>,
                                        version: nat)
    requires SaneFields(g.fields, g.blockLength) && GroupAt(e, at, g, rows, version)
    ensures GroupAt(before + e, |before| + at, g, rows, version)
  {
    hide EncodeEntries;
    var width, n := if g.wide then 8 else 3, |rows| * g.blockLength;
    Behind(before, e, at, at + width);
    Behind(before, e, at + width, at + width + n);
  }

  /** Each group stands behind the groups before it. */
  lemma {:induction false} GroupStands(gs: seq<Group>, c: Content, version: nat, k: nat)
    requires SaneGroups(gs) && EncodeGroups(gs, c, version).Some? && k < |gs|
    ensures SaneFields(gs[k].fields, gs[k].blockLength)
    ensures
      var rows := if gs[k].name in c.groups then c.groups[gs[k].name] else [];
      GroupAt(EncodeGroups(gs, c, version).value, GroupsSize(gs[..k], c), gs[k], rows, version)
    decreases |gs|
  {
    hide EncodeEntries, SaneGroup, Dimension, GroupAt;
    SaneTail(gs);
    GroupIsSane(gs[k], gs, k);
    var g, rows := gs[0], RowsFor(gs[0], c);
    var dim, body, more := Dimension(g, |rows|).value, EncodeEntries(g, rows, version).value,
      EncodeGroups(gs[1..], c, version).value;
    if k == 0 {
      assert gs[..0] == [];
      FirstGroupAt(g, rows, version, dim, body, more);
    } else {
      GroupStands(gs[1..], c, version, k - 1);
      assert gs[..k][1..] == gs[1..][..k - 1];
      assert dim + (body + more) == (dim + body) + more;
      GroupFurther(dim + body, more, GroupsSize(gs[1..][..k - 1], c), gs[k], RowsFor(gs[k], c), version);
    }
  }

  lemma {:induction false} GroupIsSane(g: Group, gs: seq<Group>, k: nat)
    requires SaneGroups(gs) && k < |gs| && g == gs[k]
    ensures SaneFields(g.fields, g.blockLength)
  {
  }

  /** The bytes the groups before one take. */
  lemma {:induction false} PlaceOfGroup(gs: seq<Group>, c: Content, k: nat)
    requires k < |gs|
    ensures GroupsSize([], c) == 0
    ensures
      var n := if gs[k].name in c.groups then |c.groups[gs[k].name]| else 0;
      GroupsSize(gs[..k + 1], c) == GroupsSize(gs[..k], c) + (if gs[k].wide then 8 else 3) + n * gs[k].blockLength
    decreases |gs|
  {
    if k > 0 {
      PlaceOfGroup(gs[1..], c, k - 1);
      assert gs[..k + 1][1..] == gs[1..][..k] && gs[..k][1..] == gs[1..][..k - 1];
    } else {
      assert gs[..1][1..] == [] && gs[..0] == [];
    }
  }

  // ---- messages and packets ----

  lemma {:induction false} TwoBytes(n: nat)
    requires n < 0x1_0000
    ensures ToLittleEndian(n, 2) == [n % 256, n / 256]
  {
    LittleEndianDigit(n, 2, 0);
    LittleEndianDigit(n, 2, 1);
    Powers();
  }

  /** A message: ten bytes of size, block length, template, schema and version, the root
      block, and the groups. */
  lemma {:induction false} MessageStands(t: Template, c: Content, schemaId: nat, version: nat)
    requires SaneTemplate(t) && EncodeMessage(t, c, schemaId, version).Some?
    ensures
      var m := EncodeMessage(t, c, schemaId, version).value;
      && 10 + t.blockLength <= |m| < 0x1_0000
      && m[..10] == [|m| % 256, |m| / 256, t.blockLength % 256, t.blockLength / 256, t.id % 256, t.id / 256,
                     schemaId % 256, schemaId / 256, version % 256, version / 256]
      && EncodeBlock(t.blockLength, t.fields, c.root, version, true) == Some(m[10..10 + t.blockLength])
      && EncodeGroups(t.groups, c, version) == Some(m[10 + t.blockLength..])
  {
    hide EncodeBlock, EncodeGroups, ToLittleEndian;
    var m := EncodeMessage(t, c, schemaId, version).value;
    var root, groups := EncodeBlock(t.blockLength, t.fields, c.root, version, true).value,
      EncodeGroups(t.groups, c, version).value;
    var head := Prefix(|m|, t.blockLength, t.id, schemaId, version);
    assert m == head + (root + groups);
    assert m[10..10 + |root|] == root && m[10 + |root|..] == groups;
    TwoBytes(|m|);
    TwoBytes(t.blockLength);
    TwoBytes(t.id);
    TwoBytes(schemaId);
    TwoBytes(version);
  }

  /** A message is not encoded only when its block or a group is not, or a number of the
      prefix does not fit its two bytes. */
  lemma {:induction false} MessageEncodesIff(t: Template, c: Content, schemaId: nat, version: nat)
    requires SaneTemplate(t)
    ensures
      EncodeMessage(t, c, schemaId, version).Some? <==>
        && EncodeBlock(t.blockLength, t.fields, c.root, version, true).Some? && EncodeGroups(t.groups, c, version).Some?
        && 10 + t.blockLength + GroupsSize(t.groups, c) < 0x1_0000
        && t.id < 0x1_0000 && schemaId < 0x1_0000 && version < 0x1_0000
  {
    hide EncodeBlock, EncodeGroups;
    if EncodeGroups(t.groups, c, version).Some? {
      GroupsTake(t.groups, c, version);
    }
  }

  /** A packet: the number in four bytes, the time in eight, the messages one by one. */
  lemma {:induction false} PacketStands(n: nat, time: nat, ms: seq<seq<byte>>, k: nat)
    requires EncodePacket(n, time, ms).Some?
    ensures
      var p := EncodePacket(n, time, ms).value;
      && |p| >= 12 && p[12..] == Chain(ms) && n < 0x1_0000_0000 && time < 0x1_0000_0000_0000_0000
      && (k < 4 ==> p[k] == n / Pow256(k) % 256) && (k < 8 ==> p[4 + k] == time / Pow256(k) % 256)
  {
    hide ToLittleEndian;
    Powers();
    if k < 4 {
      LittleEndianDigit(n, 4, k);
    }
    if k < 8 {
      LittleEndianDigit(time, 8, k);
    }
  }

  /** Which messages are decoded at all. */
  lemma {:induction false} DecodedOrNot(schema: map<nat, Template>, pm: PacketMessage)
    ensures
      var id := pm.templateId;
      if (id == 46 || id == 47 || id == 52 || id == 53) && id in schema && pm.blockLength <= schema[id].blockLength then
        DecodeMessage(schema, pm) ==
        Content(DecodeBlock(schema[id].fields, pm.body, 0, pm.version, pm.blockLength),
                DecodeGroups(schema[id].groups, pm.body, pm.blockLength, pm.version))
      else DecodeMessage(schema, pm) == Content(map[], map[])
  {
  }

  // ---- the walk over any packet ----

  /** Where message i of a walk begins. */
  function StartOf(ms: seq<PacketMessage>, i: nat): nat
    requires i <= |ms|
  {
    if i == 0 then 0 else StartOf(ms, i - 1) + ms[i - 1].size
  }

  lemma {:induction false} StartBehind(m: PacketMessage, ms: seq<PacketMessage>, i: nat)
    requires i <= |ms|
    ensures StartOf([m] + ms, i + 1) == m.size + StartOf(ms, i)
  {
    if i > 0 {
      StartBehind(m, ms, i - 1);
    }
  }

  /** A message handed out from a place of a packet: its size stands there; it comes with the
      numbers of its prefix and the bytes behind it, or, with a size that is too small or does
      not fit, empty and as the last one. */
  predicate HandedAt(rest: seq<byte>, at: nat, m: PacketMessage, last: bool) {
    && at + 2 <= |rest| && m.size == rest[at] as nat + 256 * rest[at + 1] as nat
    && if m.size < 10 || at + m.size > |rest| then
         last && m == PacketMessage(m.seqNum, m.time, m.size, 0, 0, 0, 0, [])
       else
         && m.blockLength == rest[at + 2] as nat + 256 * rest[at + 3] as nat
         && m.templateId == rest[at + 4] as nat + 256 * rest[at + 5] as nat
         && m.schemaId == rest[at + 6] as nat + 256 * rest[at + 7] as nat
         && m.version == rest[at + 8] as nat + 256 * rest[at + 9] as nat
         && m.body == rest[at + 10..at + m.size]
         && (last ==> |rest| - (at + m.size) < 2)
  }

  lemma {:induction false} HandedFurther(rest: seq<byte>, from: nat, at: nat, m: PacketMessage, last: bool)
    requires from <= |rest| && HandedAt(rest[from..], at, m, last)
    ensures HandedAt(rest, from + at, m, last)
  {
    if m.size >= 10 && at + m.size <= |rest[from..]| {
      Further(rest, from, at + 10, at + m.size);
    }
  }

  /** Every message of any packet stands where the one before ended. */
  lemma {:induction false} WalkStands(n: nat, time: nat, rest: seq<byte>, i: nat)
    requires i < |Walk(n, time, rest)|
    ensures
      var ms := Walk(n, time, rest);
      ms[i].seqNum == n && ms[i].time == time && HandedAt(rest, StartOf(ms, i), ms[i], i == |ms| - 1)
    decreases |rest|
  {
    FirstStands(n, time, rest);
    StartsAtZero(Walk(n, time, rest));
    hide U16At, Walk, HandedAt, StartOf, Head, Declares;
    if i > 0 {
      var ms, size := Walk(n, time, rest), U16At(rest, 0);
      WalkStands(n, time, rest[size..], i - 1);
      LaterStands(rest, size, ms, i);
    }
  }

  lemma {:induction false} LaterStands(rest: seq<byte>, size: nat, ms: seq<PacketMessage>, i: nat)
    requires 0 < i < |ms| && ms[0].size == size <= |rest|
    requires HandedAt(rest[size..], StartOf(ms[1..], i - 1), ms[1..][i - 1], i - 1 == |ms[1..]| - 1)
    ensures HandedAt(rest, StartOf(ms, i), ms[i], i == |ms| - 1)
  {
    hide HandedAt, StartOf;
    assert ms == [ms[0]] + ms[1..];
    StartBehind(ms[0], ms[1..], i - 1);
    HandedFurther(rest, size, StartOf(ms[1..], i - 1), ms[i], i == |ms| - 1);
  }

  lemma {:induction false} StartsAtZero(ms: seq<PacketMessage>)
    ensures StartOf(ms, 0) == 0
  {
  }

  lemma {:induction false} Further(s: seq<byte>, from: nat, a: nat, b: nat)
    requires from <= |s| && a <= b <= |s| - from
    ensures s[from..][a..b] == s[from + a..from + b]
  {
  }

  lemma {:induction false} TwoAt(s: seq<byte>, at: nat)
    requires at + 2 <= |s|
    ensures U16At(s, at) == s[at] as nat + 256 * s[at + 1] as nat
  {
    var t, x := s[at..at + 2], s[at + 1];
    assert t[1..] == [x] && [x][1..] == [];
    assert LittleEndian([x]) == x;
  }

  lemma {:induction false} FirstStands(n: nat, time: nat, rest: seq<byte>)
    requires |Walk(n, time, rest)| > 0
    ensures
      var ms := Walk(n, time, rest);
      && |rest| >= 2 && ms[0].seqNum == n && ms[0].time == time && HandedAt(rest, 0, ms[0], |ms| == 1)
      && (|ms| > 1 ==>
            && U16At(rest, 0) == ms[0].size && 10 <= ms[0].size <= |rest|
            && ms[1..] == Walk(n, time, rest[U16At(rest, 0)..]))
  {
    TwoAt(rest, 0);
    if Declares(rest) {
      TwoAt(rest, 2);
      TwoAt(rest, 4);
      TwoAt(rest, 6);
      TwoAt(rest, 8);
    }
    hide U16At;
  }
}
