// What the words on the bus mean: a plain word-by-word parser of the record
// stream that also assigns symbol slots in order of first appearance.
module Receiver {
  import opened Records
  import opened Engine

  const NOT_FOUND: nat := 31
  const UNREGISTERED: nat := 0xFFFF

  /** Index of the first slot from i on that holds the locate, or 31. */
  function FindLocate(locs: seq<nat>, l: nat, i: nat): (r: nat)
    requires i <= |locs| < 32
    ensures r != NOT_FOUND ==> i <= r < |locs| && locs[r] == l && forall j :: i <= j < r ==> locs[j] != l
    ensures r == NOT_FOUND ==> forall j :: i <= j < |locs| ==> locs[j] != l
    decreases |locs| - i
  {
    if i == |locs| then NOT_FOUND else if locs[i] == l then i else FindLocate(locs, l, i + 1)
  }

  /** The symbol table after one more locate: its slot, or bad when the table is full. */
  datatype Resolved = Resolved(index: nat, bad: bool, locs: seq<nat>, cnt: nat)

  function Resolve(p: Params, locs: seq<nat>, cnt: nat, l: nat): (r: Resolved)
    requires Sound(p) && |locs| == p.nsym && cnt <= p.nsym
    ensures r.index < p.nsym && |r.locs| == p.nsym && r.cnt <= p.nsym
  {
    var at := FindLocate(locs, l, 0);
    if at == NOT_FOUND && cnt < p.nsym then Resolved(cnt, false, locs[cnt := l], cnt + 1)
    else if at == NOT_FOUND then Resolved(0, true, locs, cnt)
    else Resolved(at, false, locs, cnt)
  }

  /** A record that has begun: after its first word, or into its body. */
  datatype Part =
    | Nothing
    | Head(rec: Record, left: nat)
    | Body(rec: Record, left: nat)

  /** Everything received: complete records, the one begun, the symbol table,
      and whether the stream has been well formed so far. */
  datatype Rx = Rx(done: seq<Record>, part: Part, locs: seq<nat>, cnt: nat, ok: bool)

  function RxReset(p: Params): (x: Rx)
    requires Sound(p)
    ensures RxShaped(p, x)
  {
    Rx([], Nothing, seq(p.nsym, _ => UNREGISTERED), 0, true)
  }

  predicate PartShaped(p: Params, part: Part)
    requires Sound(p)
  {
    match part
    case Nothing => true
    case Head(rec, left) =>
      rec.words == [] && rec.index < p.nsym && 1 <= left <= 16 && CoversFields(p, rec.mtype, left)
    case Body(rec, left) =>
      && WordsOf(p, rec.words) && rec.index < p.nsym
      && 1 <= left && |rec.words| + left <= 16 && CoversFields(p, rec.mtype, |rec.words| + left)
  }

  predicate RxShaped(p: Params, x: Rx)
    requires Sound(p)
  {
    && |x.locs| == p.nsym && x.cnt <= p.nsym
    && (x.ok ==> PartShaped(p, x.part) && GoodRecords(p, x.done))
  }

  /** One accepted word. */
  function RxStep(p: Params, x: Rx, b: Beat): (r: Rx)
    requires Sound(p) && RxShaped(p, x) && |b.data| == p.bytes
    ensures RxShaped(p, r)
  {
    match x.part
    case Nothing =>
      var s := Resolve(p, x.locs, x.cnt, HeadLocate(b.data));
      var rec := Record(HeadType(b.data), HeadLocate(b.data), s.index, s.bad, []);
      Rx(x.done, Head(rec, BodyWords(p, HeadLength(b.data))), s.locs, s.cnt, x.ok && GoodHead(p, b.data))
    case Head(rec, left) => x.(part := Body(rec, left))
    case Body(rec, left) =>
      var rec' := rec.(words := rec.words + [b.data]);
      if b.last || left <= 1 then x.(done := x.done + [rec'], part := Nothing, ok := x.ok && left <= 1)
      else x.(part := Body(rec', left - 1))
  }
}
