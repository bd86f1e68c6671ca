// Values of the Simple Binary Encoding: integers, characters and composites in
// little-endian bytes, and exactly which of them come back as they went in.
module SbeValues {
  import opened Bytes
  import opened Prices

  datatype Prim = Integer(size: nat, signed: bool) | Char

  /** A character string is encoded in bytes; decoding gives the bytes. */
  datatype Scalar = Number(n: int) | Text(s: seq<byte>) | Str(utf8: seq<byte>)

  /** A type or one part of a composite; a constant is not on the wire when it is a part. */
  datatype Component = Component(name: string, prim: Prim, length: Option<nat>, constant: Option<Scalar>)

  /** Enumerations and sets are coded as their number. */
  datatype Type = Plain(c: Component) | Coded(code: Prim) | Composite(parts: seq<Component>)

  datatype Value = One(v: Scalar) | Parts(m: map<string, Scalar>)

  function PrimSize(p: Prim): nat {
    if p.Integer? then p.size else 1
  }

  /** The size the schema declares. */
  function Declared(c: Component): nat {
    if c.length.Some? then c.length.value else PrimSize(c.prim)
  }

  predicate InRange(p: Prim, n: int)
    requires p.Integer?
  {
    if p.signed then -(Pow256(p.size) as int) <= 2 * n < Pow256(p.size) else 0 <= n < Pow256(p.size)
  }

  // ---- scalars ----

  function EncodeScalar(p: Prim, v: Scalar): (e: Option<seq<byte>>)
    ensures e.Some? ==> |e.value| == PrimSize(p)
  {
    match (p, v)
    case (Char, Text(s)) => Some(if s == [] then [0] else s[..1])
    case (Char, Str(s)) => Some(if s == [] then [0] else s[..1])
    case (Char, Number(n)) => if 0 <= n < 256 then Some([n]) else None
    case (Integer(size, _), Number(n)) =>
      if InRange(p, n) then Some(ToLittleEndian(if n < 0 then n + Pow256(size) else n, size)) else None
    case (Integer(_, _), Text(_)) => None
    case (Integer(_, _), Str(_)) => None
  }

  function DecodeScalar(p: Prim, buf: seq<byte>, off: nat): Scalar {
    match p
    case Char => Text(Clip(buf, off, off + 1))
    case Integer(size, signed) =>
      var n := LittleEndian(Clip(buf, off, off + size));
      Number(if signed && 2 * n >= Pow256(size) then n - Pow256(size) else n)
  }

  /** What decoding makes of an encoded scalar. */
  function SeenScalar(p: Prim, v: Scalar): Scalar
    requires EncodeScalar(p, v).Some?
  {
    DecodeScalar(p, EncodeScalar(p, v).value, 0)
  }

  /** Integers in range, and texts of exactly one byte: a longer text loses all but its
      first byte; an empty one, a number or a character string comes back as a one-byte
      text. */
  predicate FaithfulScalar(p: Prim, v: Scalar) {
    if p.Integer? then v.Number? && InRange(p, v.n) else v.Text? && |v.s| == 1
  }

  lemma {:induction false} WholeClip(e: seq<byte>)
    ensures Clip(e, 0, |e|) == e
  {
  }

  lemma {:induction false} ScalarRoundTrip(p: Prim, v: Scalar)
    requires EncodeScalar(p, v).Some?
    ensures SeenScalar(p, v) == v <==> FaithfulScalar(p, v)
  {
    WholeClip(EncodeScalar(p, v).value);
    if p.Integer? {
      LittleEndianRoundTrip(if v.n < 0 then v.n + Pow256(p.size) else v.n, p.size);
    }
  }

  /** A text of two characters comes back as its first. */
  lemma {:induction false} LongTextIsCut(a: byte, b: byte)
    ensures EncodeScalar(Char, Text([a, b])) == Some([a]) && SeenScalar(Char, Text([a, b])) == Text([a])
  {
    assert Text([a, b]).s[..1] == [a];
    WholeClip([a]);
  }

  // ---- composites ----

  predicate OnWire(c: Component) {
    c.constant.None?
  }

  /** The value of a part: looked up by name, or the whole value for every part. */
  function PartOf(v: Value, name: string): Option<Scalar> {
    match v
    case One(s) => Some(s)
    case Parts(m) => if name in m then Some(m[name]) else None
  }

  function EncodeParts(parts: seq<Component>, v: Value): (e: Option<seq<byte>>) {
    if parts == [] then Some([])
    else
      var c, more := parts[0], EncodeParts(parts[1..], v);
      if !OnWire(c) then more
      else
        var part := PartOf(v, c.name);
        if part.None? then None
        else
          var first := EncodeScalar(c.prim, part.value);
          if first.None? || more.None? then None else Some(first.value + more.value)
  }

  function DecodeParts(parts: seq<Component>, buf: seq<byte>, off: nat): map<string, Scalar> {
    if parts == [] then map[]
    else
      var c := parts[0];
      if OnWire(c) then DecodeParts(parts[1..], buf, off + Declared(c)) + map[c.name := DecodeScalar(c.prim, buf, off)]
      else DecodeParts(parts[1..], buf, off) + map[c.name := c.constant.value]
  }

  function EncodeValue(t: Type, v: Value): (e: Option<seq<byte>>) {
    match t
    case Plain(c) => if v.One? then EncodeScalar(c.prim, v.v) else None
    case Coded(p) => if v.One? then EncodeScalar(p, v.v) else None
    case Composite(parts) => EncodeParts(parts, v)
  }

  function DecodeValue(t: Type, buf: seq<byte>, off: nat): Value {
    match t
    case Plain(c) => if OnWire(c) then One(DecodeScalar(c.prim, buf, off)) else One(c.constant.value)
    case Coded(p) => One(DecodeScalar(p, buf, off))
    case Composite(parts) => Parts(DecodeParts(parts, buf, off))
  }

  /** Bytes the encoding takes. */
  function Width(t: Type): nat {
    match t
    case Plain(c) => PrimSize(c.prim)
    case Coded(p) => PrimSize(p)
    case Composite(parts) => PartsWidth(parts)
  }

  function PartsWidth(parts: seq<Component>): nat {
    if parts == [] then 0 else (if OnWire(parts[0]) then PrimSize(parts[0].prim) else 0) + PartsWidth(parts[1..])
  }

  /** The size of a field of the type, as the schema computes it. */
  function FieldSize(t: Type): nat {
    match t
    case Plain(c) => Declared(c)
    case Coded(p) => PrimSize(p)
    case Composite(parts) => DeclaredWidth(parts)
  }

  function DeclaredWidth(parts: seq<Component>): nat {
    if parts == [] then 0 else (if OnWire(parts[0]) then Declared(parts[0]) else 0) + DeclaredWidth(parts[1..])
  }

  /** The parts of a composite have distinct names and no length of their own; a plain
      type takes no more room than it declares. */
  predicate SaneType(t: Type) {
    match t
    case Plain(c) => PrimSize(c.prim) <= Declared(c)
    case Coded(_) => true
    case Composite(parts) => SaneParts(parts)
  }

  predicate SaneParts(parts: seq<Component>) {
    && (forall i :: 0 <= i < |parts| && OnWire(parts[i]) ==> Declared(parts[i]) == PrimSize(parts[i].prim))
    && (forall i, j :: 0 <= i < j < |parts| ==> parts[i].name != parts[j].name)
  }

  lemma {:induction false} SaneRest(parts: seq<Component>)
    requires SaneParts(parts) && parts != []
    ensures SaneParts(parts[1..])
  {
  }

  lemma {:induction false} PartsSizes(parts: seq<Component>, v: Value)
    requires SaneParts(parts)
    ensures DeclaredWidth(parts) == PartsWidth(parts)
    ensures EncodeParts(parts, v).Some? ==> |EncodeParts(parts, v).value| == PartsWidth(parts)
  {
    if parts != [] {
      SaneRest(parts);
      PartsSizes(parts[1..], v);
    }
  }

  lemma {:induction false} ValueSizes(t: Type, v: Value)
    requires SaneType(t)
    ensures Width(t) <= FieldSize(t)
    ensures EncodeValue(t, v).Some? ==> |EncodeValue(t, v).value| == Width(t)
  {
    if t.Composite? {
      PartsSizes(t.parts, v);
    }
  }

  // ---- decoding looks only at the value's own bytes ----

  lemma {:induction false} ClipLocal(buf: seq<byte>, off: nat, e: seq<byte>, at: nat, n: nat)
    requires off + |e| <= |buf| && buf[off..off + |e|] == e && at + n <= |e|
    ensures Clip(buf, off + at, off + at + n) == Clip(e, at, at + n)
  {
    var x, y := buf[off + at..off + at + n], e[at..at + n];
    forall k | 0 <= k < n
      ensures x[k] == y[k]
    {
      assert buf[off..off + |e|][at + k] == e[at + k];
    }
    assert x == y;
  }

  lemma {:induction false} ScalarLocal(p: Prim, buf: seq<byte>, off: nat, e: seq<byte>, at: nat)
    requires off + |e| <= |buf| && buf[off..off + |e|] == e && at + PrimSize(p) <= |e|
    ensures DecodeScalar(p, buf, off + at) == DecodeScalar(p, e, at)
  {
    ClipLocal(buf, off, e, at, PrimSize(p));
  }

  lemma {:induction false} PartsLocal(parts: seq<Component>, buf: seq<byte>, off: nat, e: seq<byte>, at: nat)
    requires SaneParts(parts) && off + |e| <= |buf| && buf[off..off + |e|] == e && at + PartsWidth(parts) <= |e|
    ensures DecodeParts(parts, buf, off + at) == DecodeParts(parts, e, at)
    decreases |parts|
  {
    hide DecodeScalar, SaneParts;
    if parts != [] {
      var c := parts[0];
      FirstDeclared(parts);
      if OnWire(c) {
        ScalarLocal(c.prim, buf, off, e, at);
        PartsLocal(parts[1..], buf, off, e, at + PrimSize(c.prim));
      } else {
        PartsLocal(parts[1..], buf, off, e, at);
      }
    }
  }

  lemma {:induction false} ValueLocal(t: Type, buf: seq<byte>, off: nat, e: seq<byte>)
    requires SaneType(t) && off + |e| <= |buf| && buf[off..off + |e|] == e && |e| == Width(t)
    ensures DecodeValue(t, buf, off) == DecodeValue(t, e, 0)
  {
    match t
    case Plain(c) => ClipLocal(buf, off, e, 0, PrimSize(c.prim));
    case Coded(p) => ClipLocal(buf, off, e, 0, PrimSize(p));
    case Composite(parts) => PartsLocal(parts, buf, off, e, 0);
  }

  /** A composite of constants is encoded without looking at the value. */
  predicate NeedsNoValue(t: Type) {
    t.Composite? && forall i :: 0 <= i < |t.parts| ==> !OnWire(t.parts[i])
  }

  // ---- which values come back ----

  /** What decoding makes of an encoded value. */
  function Seen(t: Type, v: Value): Value
    requires EncodeValue(t, v).Some?
  {
    DecodeValue(t, EncodeValue(t, v).value, 0)
  }

  function Names(parts: seq<Component>): set<string> {
    set i | 0 <= i < |parts| :: parts[i].name
  }

  predicate Faithful(t: Type, v: Value) {
    match t
    case Plain(c) => v.One? && if OnWire(c) then FaithfulScalar(c.prim, v.v) else v.v == c.constant.value
    case Coded(p) => v.One? && FaithfulScalar(p, v.v)
    case Composite(parts) =>
      v.Parts? && v.m.Keys == Names(parts)
      && forall i :: 0 <= i < |parts| ==> FaithfulPart(parts[i], v)
  }

  predicate FaithfulPart(c: Component, v: Value) {
    v.Parts? && c.name in v.m && if OnWire(c) then FaithfulScalar(c.prim, v.m[c.name])
      else v.m[c.name] == c.constant.value
  }

  /** What decoding makes of one part. */
  function SeenPart(c: Component, v: Value): Option<Scalar> {
    if !OnWire(c) then c.constant
    else
      var part := PartOf(v, c.name);
      if part.Some? && EncodeScalar(c.prim, part.value).Some? then Some(SeenScalar(c.prim, part.value)) else None
  }

  /** The first part and the rest of a composite decode on their own. */
  lemma {:induction false} PartsSplit(parts: seq<Component>, v: Value)
    requires parts != [] && SaneParts(parts) && EncodeParts(parts, v).Some?
    ensures EncodeParts(parts[1..], v).Some? && SeenPart(parts[0], v).Some?
    ensures DecodeParts(parts, EncodeParts(parts, v).value, 0) ==
            DecodeParts(parts[1..], EncodeParts(parts[1..], v).value, 0)
              + map[parts[0].name := SeenPart(parts[0], v).value]
  {
    hide DecodeScalar, EncodeScalar, SaneParts;
    FirstDeclared(parts);
    PartsSizes(parts[1..], v);
    if OnWire(parts[0]) {
      WirePartSplits(parts, v);
    }
  }

  lemma {:induction false} WirePartSplits(parts: seq<Component>, v: Value)
    requires parts != [] && SaneParts(parts) && OnWire(parts[0]) && EncodeParts(parts, v).Some?
    ensures EncodeParts(parts[1..], v).Some? && SeenPart(parts[0], v).Some?
    ensures DecodeParts(parts, EncodeParts(parts, v).value, 0) ==
            DecodeParts(parts[1..], EncodeParts(parts[1..], v).value, 0)
              + map[parts[0].name := SeenPart(parts[0], v).value]
  {
    hide DecodeScalar, EncodeScalar, SaneParts;
    var c, e := parts[0], EncodeParts(parts, v).value;
    FirstDeclared(parts);
    PartsSizes(parts[1..], v);
    var first := EncodeScalar(c.prim, PartOf(v, c.name).value).value;
    var rest := EncodeParts(parts[1..], v).value;
    hide EncodeParts;
    assert e == first + rest && e[|first|..|first| + |rest|] == rest && e[0..0 + |first|] == first;
    PartsLocal(parts[1..], e, |first|, rest, 0);
    ScalarLocal(c.prim, e, 0, first, 0);
  }

  lemma {:induction false} FirstDeclared(parts: seq<Component>)
    requires parts != [] && SaneParts(parts)
    ensures SaneParts(parts[1..]) && (OnWire(parts[0]) ==> Declared(parts[0]) == PrimSize(parts[0].prim))
  {
  }

  lemma {:induction false} PartsSeen(parts: seq<Component>, v: Value)
    requires SaneParts(parts) && EncodeParts(parts, v).Some?
    ensures
      var m := DecodeParts(parts, EncodeParts(parts, v).value, 0);
      && m.Keys == Names(parts)
      && forall i :: 0 <= i < |parts| ==> SeenPart(parts[i], v) == Some(m[parts[i].name])
    decreases |parts|
  {
    if parts != [] {
      PartsSplit(parts, v);
      SaneRest(parts);
      PartsSeen(parts[1..], v);
      hide DecodeParts, EncodeParts, SeenPart;
      var rest := DecodeParts(parts[1..], EncodeParts(parts[1..], v).value, 0);
      assert forall i :: 1 <= i < |parts| ==> parts[i] == parts[1..][i - 1];
      assert Names(parts) == Names(parts[1..]) + {parts[0].name};
      forall i | 0 <= i < |parts|
        ensures SeenPart(parts[i], v) == Some((rest + map[parts[0].name := SeenPart(parts[0], v).value])[parts[i].name])
      {
        assert i > 0 ==> SeenPart(parts[1..][i - 1], v) == Some(rest[parts[i].name]) && parts[i].name != parts[0].name;
      }
    } else {
      assert Names(parts) == {};
    }
  }

  /** A value that can be encoded comes back exactly when it is faithful. */
  lemma {:induction false} ValueRoundTrip(t: Type, v: Value)
    requires SaneType(t) && EncodeValue(t, v).Some?
    ensures Seen(t, v) == v <==> Faithful(t, v)
  {
    match t
    case Plain(c) => ScalarRoundTrip(c.prim, v.v);
    case Coded(p) => ScalarRoundTrip(p, v.v);
    case Composite(parts) => CompositeRoundTrip(parts, v);
  }

  lemma {:induction false} CompositeRoundTrip(parts: seq<Component>, v: Value)
    requires SaneParts(parts) && EncodeParts(parts, v).Some?
    ensures Parts(DecodeParts(parts, EncodeParts(parts, v).value, 0)) == v <==> Faithful(Composite(parts), v)
  {
    hide DecodeParts, EncodeParts, EncodeScalar;
    var m := DecodeParts(parts, EncodeParts(parts, v).value, 0);
    PartsSeen(parts, v);
    if v.Parts? && v.m.Keys == Names(parts) {
      forall i | 0 <= i < |parts|
        ensures parts[i].name in m && (m[parts[i].name] == v.m[parts[i].name] <==> FaithfulPart(parts[i], v))
      {
        if OnWire(parts[i]) {
          ScalarRoundTrip(parts[i].prim, v.m[parts[i].name]);
        }
      }
      assert (forall i :: 0 <= i < |parts| ==> m[parts[i].name] == v.m[parts[i].name]) <==> m == v.m by {
        assert forall n :: n in m ==> exists i :: 0 <= i < |parts| && parts[i].name == n;
      }
    }
  }
}
