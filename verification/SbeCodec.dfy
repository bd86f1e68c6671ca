// The schema-driven message codec: a root block of fields, then repeating
// groups; and the packet that carries many such messages.
module SbeCodec {
  import opened Bytes
  import opened Prices
  import opened SbeValues

  datatype Field = Field(name: string, tag: string, typ: Type, offset: nat, since: nat)

  /** A repeating group; its dimension takes eight bytes or three. */
  datatype Group = Group(name: string, blockLength: nat, wide: bool, fields: seq<Field>, since: nat)

  datatype Template = Template(id: nat, blockLength: nat, fields: seq<Field>, groups: seq<Group>)

  type Row = map<string, Value>

  datatype Content = Content(root: Row, groups: map<string, seq<Row>>)

  const PREFIX := 10
  const PACKET_HEADER := 12
  const U16 := 0x1_0000

  // ---- blocks ----

  /** A field's value under its name, or else under its tag. */
  function ValueFor(f: Field, row: Row): Option<Value> {
    var key := if f.name in row then f.name else f.tag;
    if key in row then Some(row[key]) else None
  }

  /** Bytes put over a block from an offset on. */
  function Put(block: seq<byte>, off: nat, e: seq<byte>): seq<byte>
    requires off + |e| <= |block|
  {
    block[..off] + e + block[off + |e|..]
  }

  predicate Inside(f: Field, size: nat) {
    SaneType(f.typ) && f.offset + FieldSize(f.typ) <= size
  }

  predicate Apart(f: Field, g: Field) {
    f.offset + FieldSize(f.typ) <= g.offset || g.offset + FieldSize(g.typ) <= f.offset
  }

  /** Fields inside the block, no two of them overlapping, with distinct names. */
  predicate SaneFields(fs: seq<Field>, size: nat) {
    && (forall i :: 0 <= i < |fs| ==> Inside(fs[i], size))
    && (forall i, j :: 0 <= i < j < |fs| ==> Apart(fs[i], fs[j]) && fs[i].name != fs[j].name)
  }

  /** One field written; a field newer than the version, an absent optional one, or an
      absent composite of constants is skipped. */
  function PutField(block: seq<byte>, f: Field, row: Row, version: nat, optional: bool): (b: Option<seq<byte>>)
    requires Inside(f, |block|)
    ensures b.Some? ==> |b.value| == |block|
  {
    if f.since > version then Some(block)
    else
      var v := ValueFor(f, row);
      if v.None? then (if optional || NeedsNoValue(f.typ) then Some(block) else None)
      else
        var e := EncodeValue(f.typ, v.value);
        ValueSizes(f.typ, v.value);
        if e.None? then None else Some(Put(block, f.offset, e.value))
  }

  function PutFields(block: seq<byte>, fs: seq<Field>, row: Row, version: nat, optional: bool): (b: Option<seq<byte>>)
    requires SaneFields(fs, |block|)
    ensures b.Some? ==> |b.value| == |block|
    decreases |fs|
  {
    if fs == [] then Some(block)
    else
      var init := PutFields(block, fs[..|fs| - 1], row, version, optional);
      if init.None? then None else PutField(init.value, fs[|fs| - 1], row, version, optional)
  }

  function EncodeBlock(size: nat, fs: seq<Field>, row: Row, version: nat, optional: bool): (b: Option<seq<byte>>)
    requires SaneFields(fs, size)
    ensures b.Some? ==> |b.value| == size
  {
    PutFields(Zeros(size), fs, row, version, optional)
  }

  /** A field as decoded: present in the version, and inside the block that was sent. */
  predicate Sent(f: Field, version: nat, size: nat) {
    f.since <= version && f.offset + FieldSize(f.typ) <= size
  }

  function DecodeBlock(fs: seq<Field>, buf: seq<byte>, base: nat, version: nat, size: nat): Row
    decreases |fs|
  {
    if fs == [] then map[]
    else
      var f, more := fs[|fs| - 1], DecodeBlock(fs[..|fs| - 1], buf, base, version, size);
      if Sent(f, version, size) then more[f.name := DecodeValue(f.typ, buf, base + f.offset)] else more
  }

  // ---- what a block says ----

  /** What decoding gives for a field of an encoded row. */
  function SeenField(f: Field, row: Row): Value
    requires ValueFor(f, row).Some? ==> EncodeValue(f.typ, ValueFor(f, row).value).Some?
  {
    if ValueFor(f, row).Some? then Seen(f.typ, ValueFor(f, row).value) else DecodeValue(f.typ, Zeros(Width(f.typ)), 0)
  }

  predicate Encodable(f: Field, row: Row) {
    ValueFor(f, row).Some? ==> EncodeValue(f.typ, ValueFor(f, row).value).Some?
  }

  /** The row that decoding an encoded row gives. */
  function SeenRow(fs: seq<Field>, row: Row, version: nat): Row
    requires forall i :: 0 <= i < |fs| && fs[i].since <= version ==> Encodable(fs[i], row)
    decreases |fs|
  {
    if fs == [] then map[]
    else
      var f, more := fs[|fs| - 1], SeenRow(fs[..|fs| - 1], row, version);
      assert f.since <= version ==> Encodable(fs[|fs| - 1], row);
      if f.since <= version then more[f.name := SeenField(f, row)] else more
  }

  /** The bytes at a field's place. */
  function At(block: seq<byte>, f: Field): seq<byte>
    requires f.offset + Width(f.typ) <= |block|
  {
    block[f.offset..f.offset + Width(f.typ)]
  }

  lemma {:induction false} InsideWidth(f: Field, size: nat)
    requires Inside(f, size)
    ensures f.offset + Width(f.typ) <= size
  {
    ValueSizes(f.typ, One(Number(0)));
  }

  /** Writing one field leaves the places of the others alone. */
  lemma {:induction false} PutApart(block: seq<byte>, f: Field, g: Field, row: Row, version: nat, optional: bool)
    requires Inside(f, |block|) && Inside(g, |block|) && Apart(f, g) && PutField(block, f, row, version, optional).Some?
    ensures g.offset + Width(g.typ) <= |block|
    ensures At(PutField(block, f, row, version, optional).value, g) == At(block, g)
  {
    InsideWidth(g, |block|);
    ValueSizes(g.typ, One(Number(0)));
    if f.since <= version && ValueFor(f, row).Some? {
      var v := ValueFor(f, row).value;
      ValueSizes(f.typ, v);
      PlaceApart(block, f.offset, EncodeValue(f.typ, v).value, g.offset, Width(g.typ));
    }
  }

  lemma {:induction false} PlaceApart(block: seq<byte>, off: nat, e: seq<byte>, at: nat, n: nat)
    requires off + |e| <= |block| && at + n <= |block| && (off + |e| <= at || at + n <= off)
    ensures Put(block, off, e)[at..at + n] == block[at..at + n]
  {
  }

  lemma {:induction false} PlaceOf(block: seq<byte>, off: nat, e: seq<byte>)
    requires off + |e| <= |block|
    ensures Put(block, off, e)[off..off + |e|] == e
  {
  }

  /** The bytes that end up at a field's place. */
  function PlacedBytes(f: Field, row: Row, version: nat, before: seq<byte>): seq<byte>
    requires f.offset + Width(f.typ) <= |before|
  {
    if f.since <= version && ValueFor(f, row).Some? && EncodeValue(f.typ, ValueFor(f, row).value).Some?
    then EncodeValue(f.typ, ValueFor(f, row).value).value else At(before, f)
  }

  /** After all fields are written each one's bytes stand at its place. */
  lemma {:induction false} BlockHolds(block: seq<byte>, fs: seq<Field>, row: Row, version: nat, optional: bool, i: nat)
    requires SaneFields(fs, |block|) && PutFields(block, fs, row, version, optional).Some? && i < |fs|
    ensures fs[i].offset + Width(fs[i].typ) <= |block|
    ensures At(PutFields(block, fs, row, version, optional).value, fs[i]) == PlacedBytes(fs[i], row, version, block)
    ensures fs[i].since <= version ==>
            Encodable(fs[i], row) && (optional || NeedsNoValue(fs[i].typ) || ValueFor(fs[i], row).Some?)
    decreases |fs|
  {
    hide Put, EncodeValue, FieldSize, Width;
    var last := fs[|fs| - 1];
    var init := PutFields(block, fs[..|fs| - 1], row, version, optional).value;
    InsideWidth(fs[i], |block|);
    if i < |fs| - 1 {
      BlockHolds(block, fs[..|fs| - 1], row, version, optional, i);
      PutApart(init, last, fs[i], row, version, optional);
    } else {
      LastField(block, fs, row, version, optional, init);
    }
  }

  lemma {:induction false} LastField(block: seq<byte>, fs: seq<Field>, row: Row, version: nat, optional: bool,
                                     init: seq<byte>)
    requires SaneFields(fs, |block|) && fs != []
             && PutFields(block, fs[..|fs| - 1], row, version, optional) == Some(init)
    requires PutField(init, fs[|fs| - 1], row, version, optional).Some?
    ensures fs[|fs| - 1].offset + Width(fs[|fs| - 1].typ) <= |block|
    ensures At(PutField(init, fs[|fs| - 1], row, version, optional).value, fs[|fs| - 1]) ==
            PlacedBytes(fs[|fs| - 1], row, version, block)
    ensures fs[|fs| - 1].since <= version ==>
              Encodable(fs[|fs| - 1], row) && (optional || NeedsNoValue(fs[|fs| - 1].typ)
                                               || ValueFor(fs[|fs| - 1], row).Some?)
  {
    var last := fs[|fs| - 1];
    InsideWidth(last, |block|);
    Untouched(block, fs[..|fs| - 1], last, row, version, optional);
    if last.since <= version && ValueFor(last, row).Some? {
      var v := ValueFor(last, row).value;
      ValueSizes(last.typ, v);
      PlaceOf(init, last.offset, EncodeValue(last.typ, v).value);
    }
  }

  /** A place apart from all fields keeps its bytes. */
  lemma {:induction false} Untouched(block: seq<byte>, fs: seq<Field>, g: Field, row: Row, version: nat, optional: bool)
    requires SaneFields(fs, |block|) && Inside(g, |block|) && forall i :: 0 <= i < |fs| ==> Apart(fs[i], g)
    requires PutFields(block, fs, row, version, optional).Some?
    ensures g.offset + Width(g.typ) <= |block|
    ensures At(PutFields(block, fs, row, version, optional).value, g) == At(block, g)
    decreases |fs|
  {
    hide Put, EncodeValue, FieldSize, Width;
    InsideWidth(g, |block|);
    if fs != [] {
      var init := PutFields(block, fs[..|fs| - 1], row, version, optional).value;
      Untouched(block, fs[..|fs| - 1], g, row, version, optional);
      PutApart(init, fs[|fs| - 1], g, row, version, optional);
    }
  }

  /** Decoding an encoded block, wherever it stands in the buffer. */
  lemma {:induction false} BlockReads(size: nat, fs: seq<Field>, row: Row, version: nat, optional: bool,
                                      buf: seq<byte>, base: nat, k: nat)
    requires SaneFields(fs, size) && EncodeBlock(size, fs, row, version, optional).Some? && k <= |fs|
    requires base + size <= |buf| && buf[base..base + size] == EncodeBlock(size, fs, row, version, optional).value
    ensures forall i :: 0 <= i < k && fs[i].since <= version ==> Encodable(fs[i], row)
    ensures DecodeBlock(fs[..k], buf, base, version, size) == SeenRow(fs[..k], row, version)
    decreases k
  {
    if k > 0 {
      hide PutFields, Width, FieldSize, DecodeValue, PlacedBytes, SeenField, Encodable;
      var f := fs[k - 1];
      assert fs[..k][..k - 1] == fs[..k - 1];
      BlockReads(size, fs, row, version, optional, buf, base, k - 1);
      BlockHolds(Zeros(size), fs, row, version, optional, k - 1);
      if f.since <= version {
        FieldReads(size, f, row, version, optional, EncodeBlock(size, fs, row, version, optional).value, buf, base);
      }
    }
  }

  lemma {:induction false} FieldReads(size: nat, f: Field, row: Row, version: nat, optional: bool,
                                      block: seq<byte>, buf: seq<byte>, base: nat)
    requires Inside(f, size) && |block| == size && f.since <= version && Encodable(f, row)
    requires f.offset + Width(f.typ) <= size && At(block, f) == PlacedBytes(f, row, version, Zeros(size))
    requires base + size <= |buf| && buf[base..base + size] == block
    ensures Sent(f, version, size) && DecodeValue(f.typ, buf, base + f.offset) == SeenField(f, row)
  {
    hide EncodeValue, DecodeValue;
    var e := At(block, f);
    ClipLocal(buf, base, block, f.offset, |e|);
    assert buf[base + f.offset..base + f.offset + |e|] == e;
    assert At(Zeros(size), f) == Zeros(Width(f.typ));
    ValueLocal(f.typ, buf, base + f.offset, e);
  }

  // ---- groups ----

  function DimSize(g: Group): nat {
    if g.wide then 8 else 3
  }

  /** Block length and number of entries; the number is one byte. */
  function Dimension(g: Group, n: nat): (d: Option<seq<byte>>)
    ensures d.Some? ==> |d.value| == DimSize(g)
  {
    if g.blockLength >= U16 || n >= 256 then None
    else
      var start := ToLittleEndian(g.blockLength, 2);
      Some(if g.wide then start + [0, 0, 0, 0, 0, n] else start + [n])
  }

  function EntryCount(g: Group, buf: seq<byte>, base: nat): byte
    requires base + DimSize(g) <= |buf|
  {
    if g.wide then buf[base + 7] else buf[base + 2]
  }

  function EncodeEntries(g: Group, rows: seq<Row>, version: nat): (b: Option<seq<byte>>)
    requires SaneFields(g.fields, g.blockLength)
    ensures b.Some? ==> |b.value| == |rows| * g.blockLength
    decreases |rows|
  {
    if rows == [] then Some([])
    else
      var init := EncodeEntries(g, rows[..|rows| - 1], version);
      var last := EncodeBlock(g.blockLength, g.fields, rows[|rows| - 1], version, false);
      if init.None? || last.None? then None
      else
        assert |rows| * g.blockLength == (|rows| - 1) * g.blockLength + g.blockLength;
        Some(init.value + last.value)
  }

  /** Entries from base on, as many as announced and as fit. */
  function DecodeEntries(g: Group, buf: seq<byte>, base: nat, n: nat, version: nat): (res: (seq<Row>, nat))
    decreases n
  {
    if n == 0 || base + g.blockLength > |buf| then ([], base)
    else
      var row := DecodeBlock(g.fields, buf, base, version, g.blockLength);
      var (rows, at) := DecodeEntries(g, buf, base + g.blockLength, n - 1, version);
      ([row] + rows, at)
  }

  function SeenRows(g: Group, rows: seq<Row>, version: nat): seq<Row>
    requires RowsEncodable(g, rows, version)
    decreases |rows|
  {
    if rows == [] then []
    else
      assert RowEncodable(g.fields, rows[0], version);
      assert RowsEncodable(g, rows[1..], version) by {
        assert forall i :: 0 <= i < |rows| - 1 ==> rows[1..][i] == rows[i + 1];
      }
      [SeenRow(g.fields, rows[0], version)] + SeenRows(g, rows[1..], version)
  }

  predicate RowEncodable(fs: seq<Field>, row: Row, version: nat) {
    forall i :: 0 <= i < |fs| && fs[i].since <= version ==> Encodable(fs[i], row)
  }

  predicate RowsEncodable(g: Group, rows: seq<Row>, version: nat) {
    forall i :: 0 <= i < |rows| ==> RowEncodable(g.fields, rows[i], version)
  }

  /** The encoding entry by entry, from the first. */
  lemma {:induction false} EntriesCons(g: Group, rows: seq<Row>, version: nat)
    requires SaneFields(g.fields, g.blockLength) && rows != [] && EncodeEntries(g, rows, version).Some?
    ensures
      var first, rest := EncodeBlock(g.blockLength, g.fields, rows[0], version, false),
        EncodeEntries(g, rows[1..], version);
      first.Some? && rest.Some? && EncodeEntries(g, rows, version).value == first.value + rest.value
    decreases |rows|
  {
    hide EncodeBlock;
    if |rows| > 1 {
      assert rows[..|rows| - 1][1..] == rows[1..][..|rows| - 2]
        && rows[1..][..|rows[1..]| - 1] == rows[1..][..|rows| - 2];
      assert rows[1..][|rows[1..]| - 1] == rows[|rows| - 1];
      EntriesCons(g, rows[..|rows| - 1], version);
    } else {
      assert rows[..0] == [] && rows[1..] == [];
    }
  }

  lemma {:induction false} TwoParts(buf: seq<byte>, base: nat, first: seq<byte>, rest: seq<byte>)
    requires base + |first| + |rest| <= |buf| && buf[base..base + |first + rest|] == first + rest
    ensures buf[base..base + |first|] == first
    ensures buf[base + |first|..base + |first| + |rest|] == rest
  {
    var all := first + rest;
    ClipLocal(buf, base, all, 0, |first|);
    ClipLocal(buf, base, all, |first|, |rest|);
    assert all[0..|first|] == first && all[|first|..|first| + |rest|] == rest;
  }

  /** Decoding encoded entries, wherever they stand in the buffer. */
  lemma {:induction false} EntriesRead(g: Group, rows: seq<Row>, version: nat, buf: seq<byte>, base: nat)
    requires SaneFields(g.fields, g.blockLength) && EncodeEntries(g, rows, version).Some?
    requires base + |rows| * g.blockLength <= |buf|
    requires buf[base..base + |rows| * g.blockLength] == EncodeEntries(g, rows, version).value
    ensures RowsEncodable(g, rows, version)
    ensures DecodeEntries(g, buf, base, |rows|, version) == (SeenRows(g, rows, version), base + |rows| * g.blockLength)
    decreases |rows|
  {
    if rows != [] {
      hide EncodeBlock, DecodeBlock, SeenRow;
      EntriesCons(g, rows, version);
      var size, rest := g.blockLength, rows[1..];
      assert |rows| * size == size + |rest| * size;
      TwoParts(buf, base, EncodeBlock(size, g.fields, rows[0], version, false).value,
               EncodeEntries(g, rest, version).value);
      EntryReads(g, rows[0], version, buf, base);
      EntriesRead(g, rest, version, buf, base + size);
      assert forall i :: 0 < i < |rows| ==> rows[i] == rest[i - 1];
    }
  }

  lemma {:induction false} EntryReads(g: Group, row: Row, version: nat, buf: seq<byte>, base: nat)
    requires SaneFields(g.fields, g.blockLength) && EncodeBlock(g.blockLength, g.fields, row, version, false).Some?
    requires base + g.blockLength <= |buf|
    requires buf[base..base + g.blockLength] == EncodeBlock(g.blockLength, g.fields, row, version, false).value
    ensures RowEncodable(g.fields, row, version)
    ensures DecodeBlock(g.fields, buf, base, version, g.blockLength) == SeenRow(g.fields, row, version)
  {
    BlockReads(g.blockLength, g.fields, row, version, false, buf, base, |g.fields|);
    assert g.fields[..|g.fields|] == g.fields;
  }

  // ---- messages ----

  predicate SaneGroup(g: Group) {
    SaneFields(g.fields, g.blockLength)
  }

  predicate SaneTemplate(t: Template) {
    SaneFields(t.fields, t.blockLength) && SaneGroups(t.groups)
  }

  predicate SaneGroups(gs: seq<Group>) {
    && (forall i :: 0 <= i < |gs| ==> SaneGroup(gs[i]))
    && (forall i, j :: 0 <= i < j < |gs| ==> gs[i].name != gs[j].name)
  }

  lemma {:induction false} SaneTail(gs: seq<Group>)
    requires SaneGroups(gs) && gs != []
    ensures SaneGroups(gs[1..]) && SaneGroup(gs[0]) && forall i :: 0 <= i < |gs[1..]| ==> gs[1..][i].name != gs[0].name
  {
  }

  function RowsFor(g: Group, c: Content): seq<Row> {
    if g.name in c.groups then c.groups[g.name] else []
  }

  /** The groups one after the other, whatever their version. */
  function EncodeGroups(gs: seq<Group>, c: Content, version: nat): (b: Option<seq<byte>>)
    requires SaneGroups(gs)
    decreases |gs|
  {
    if gs == [] then Some([])
    else
      SaneTail(gs);
      var g := gs[0];
      var dim, rows := Dimension(g, |RowsFor(g, c)|), EncodeEntries(g, RowsFor(g, c), version);
      var more := EncodeGroups(gs[1..], c, version);
      if dim.None? || rows.None? || more.None? then None else Some(dim.value + (rows.value + more.value))
  }

  /** Groups newer than the version are passed over, without their bytes. */
  function DecodeGroups(gs: seq<Group>, buf: seq<byte>, base: nat, version: nat): map<string, seq<Row>>
    decreases |gs|
  {
    if gs == [] then map[]
    else
      var g := gs[0];
      if g.since > version then DecodeGroups(gs[1..], buf, base, version)
      else if base + DimSize(g) > |buf| then
        DecodeGroups(gs[1..], buf, base + DimSize(g), version) + map[g.name := []]
      else
        var (rows, at) := DecodeEntries(g, buf, base + DimSize(g), EntryCount(g, buf, base) as nat, version);
        DecodeGroups(gs[1..], buf, at, version) + map[g.name := rows]
  }

  predicate GroupsEncodable(gs: seq<Group>, c: Content, version: nat) {
    forall i :: 0 <= i < |gs| ==> RowsEncodable(gs[i], RowsFor(gs[i], c), version)
  }

  function SeenGroups(gs: seq<Group>, c: Content, version: nat): map<string, seq<Row>>
    requires GroupsEncodable(gs, c, version)
    decreases |gs|
  {
    if gs == [] then map[]
    else
      assert GroupsEncodable(gs[1..], c, version) by {
        assert forall i :: 0 <= i < |gs| - 1 ==> gs[1..][i] == gs[i + 1];
      }
      SeenGroups(gs[1..], c, version) + map[gs[0].name := SeenRows(gs[0], RowsFor(gs[0], c), version)]
  }

  /** These bytes stand at this place. */
  predicate Stands(buf: seq<byte>, base: nat, e: seq<byte>) {
    base + |e| <= |buf| && buf[base..base + |e|] == e
  }

  predicate NoneNewer(gs: seq<Group>, version: nat) {
    forall i :: 0 <= i < |gs| ==> gs[i].since <= version
  }

  /** The first group is decoded, and decoding goes on right behind it. */
  lemma {:induction false} FirstGroupReads(gs: seq<Group>, c: Content, version: nat, buf: seq<byte>,
                                           base: nat) returns (next: nat)
    requires SaneGroups(gs) && gs != [] && EncodeGroups(gs, c, version).Some? && gs[0].since <= version
    requires Stands(buf, base, EncodeGroups(gs, c, version).value)
    ensures SaneGroups(gs[1..]) && EncodeGroups(gs[1..], c, version).Some?
    ensures RowsEncodable(gs[0], RowsFor(gs[0], c), version)
            && Stands(buf, next, EncodeGroups(gs[1..], c, version).value)
    ensures DecodeGroups(gs, buf, base, version) ==
            DecodeGroups(gs[1..], buf, next, version) + map[gs[0].name := SeenRows(gs[0], RowsFor(gs[0], c), version)]
  {
    hide EncodeEntries, DecodeEntries, SeenRows, RowsEncodable, SaneGroup, Dimension, EntryCount;
    SaneTail(gs);
    var g, rows := gs[0], RowsFor(gs[0], c);
    var dim, body, more := Dimension(g, |rows|).value, EncodeEntries(g, rows, version).value,
      EncodeGroups(gs[1..], c, version).value;
    TwoParts(buf, base, dim, body + more);
    TwoParts(buf, base + |dim|, body, more);
    DimensionReads(g, |rows|, buf, base);
    GroupReads(g, rows, version, buf, base + |dim|);
    next := base + |dim| + |body|;
  }

  /** Decoding encoded groups when none is newer than the version. */
  lemma {:induction false} GroupsRead(gs: seq<Group>, c: Content, version: nat, buf: seq<byte>, base: nat)
    requires SaneGroups(gs) && EncodeGroups(gs, c, version).Some? && NoneNewer(gs, version)
    requires Stands(buf, base, EncodeGroups(gs, c, version).value)
    ensures GroupsEncodable(gs, c, version)
    ensures DecodeGroups(gs, buf, base, version) == SeenGroups(gs, c, version)
    decreases |gs|
  {
    hide EncodeGroups, DecodeGroups, RowsEncodable, SeenRows, SaneGroups, SeenGroups, GroupsEncodable, Stands;
    if gs == [] {
      NoGroups(c, version, buf, base);
    } else {
      var next := FirstGroupReads(gs, c, version, buf, base);
      GroupsRead(gs[1..], c, version, buf, next);
      SeenCons(gs, c, version);
    }
  }

  lemma {:induction false} NoGroups(c: Content, version: nat, buf: seq<byte>, base: nat)
    ensures GroupsEncodable([], c, version) && DecodeGroups([], buf, base, version) == SeenGroups([], c, version)
  {
  }

  lemma {:induction false} SeenCons(gs: seq<Group>, c: Content, version: nat)
    requires gs != [] && RowsEncodable(gs[0], RowsFor(gs[0], c), version) && GroupsEncodable(gs[1..], c, version)
    ensures GroupsEncodable(gs, c, version)
    ensures SeenGroups(gs, c, version) ==
            SeenGroups(gs[1..], c, version) + map[gs[0].name := SeenRows(gs[0], RowsFor(gs[0], c), version)]
  {
    hide RowsEncodable, SeenRows;
    forall i | 0 <= i < |gs|
      ensures RowsEncodable(gs[i], RowsFor(gs[i], c), version)
    {
      assert i > 0 ==> gs[i] == gs[1..][i - 1];
    }
  }

  lemma {:induction false} GroupReads(g: Group, rows: seq<Row>, version: nat, buf: seq<byte>, base: nat)
    requires SaneGroup(g) && EncodeEntries(g, rows, version).Some?
    requires
      var body := EncodeEntries(g, rows, version).value;
      base + |body| <= |buf| && buf[base..base + |body|] == body
    ensures RowsEncodable(g, rows, version)
    ensures DecodeEntries(g, buf, base, |rows|, version) ==
            (SeenRows(g, rows, version), base + |EncodeEntries(g, rows, version).value|)
  {
    EntriesRead(g, rows, version, buf, base);
  }

  lemma {:induction false} DimensionReads(g: Group, n: nat, buf: seq<byte>, base: nat)
    requires Dimension(g, n).Some? && base + DimSize(g) <= |buf|
             && buf[base..base + DimSize(g)] == Dimension(g, n).value
    ensures EntryCount(g, buf, base) as nat == n
  {
    var d := buf[base..base + DimSize(g)];
    assert g.wide ==> d[7] == buf[base + 7];
    assert !g.wide ==> d[2] == buf[base + 2];
  }

  // ---- sizes ----

  function GroupsSize(gs: seq<Group>, c: Content): nat {
    if gs == [] then 0 else DimSize(gs[0]) + |RowsFor(gs[0], c)| * gs[0].blockLength + GroupsSize(gs[1..], c)
  }

  lemma {:induction false} GroupsTake(gs: seq<Group>, c: Content, version: nat)
    requires SaneGroups(gs) && EncodeGroups(gs, c, version).Some?
    ensures |EncodeGroups(gs, c, version).value| == GroupsSize(gs, c)
  {
    if gs != [] {
      SaneTail(gs);
      GroupsTake(gs[1..], c, version);
    }
  }
}
