// The hardware ITCH parser: a byte queue in front of a state machine that
// captures whole messages and emits their records word by word. All registers,
// and their values after one clock edge.
module ItchParser {
  import opened Bytes
  import opened Records
  import opened Itch

  /** Bus width in bytes, and the queue size a message has to fit. */
  datatype Sizes = Sizes(p: Params, qb: nat)

  predicate Fit(z: Sizes) {
    Sound(z.p) && 46 <= z.qb <= 128
  }

  const CAPTURE := 44

  datatype St = HDR | LEN | CAP | W0 | TS | BODY | NEXT | DRAIN

  datatype Regs = Regs(
    st: St,
    q: seq<byte>,                 // the valid bytes of the queue, oldest first
    msgIdx: nat, expSeq: nat, thisSeq: nat, session: seq<byte>,
    packLeft: nat, packCount: nat,
    msgLen: nat, msgType: byte, locate: seq<byte>, ts: seq<byte>, lenOk: bool,
    msg: seq<byte>, bodyWords: nat, bi: nat,
    eop: bool, drop: bool,
    outValid: bool, out: Beat,
    gap: bool)

  /** The input pins in one cycle. The bytes of a beat are its kept lanes, first byte first. */
  datatype In = In(tvalid: bool, bytes: seq<byte>, last: bool, mready: bool)

  /** Only the last beat of a datagram may be partial, and none is empty. */
  predicate WellKept(z: Sizes, i: In) {
    0 < |i.bytes| <= z.p.bytes && (|i.bytes| < z.p.bytes ==> i.last)
  }

  predicate RegsShaped(z: Sizes, r: Regs) {
    |r.session| == 10 && |r.locate| == 2 && |r.ts| == 6 && |r.msg| == CAPTURE && r.msgLen < 256
  }

  /** Byte i of the queue register; zero past the valid bytes. */
  function QByte(q: seq<byte>, i: nat): byte {
    if i < |q| then q[i] else 0
  }

  function QBytes(q: seq<byte>, lo: nat, n: nat): (s: seq<byte>)
    ensures |s| == n
  {
    seq<byte>(n, i requires 0 <= i < n => QByte(q, lo + i))
  }

  // ---- the queue in one cycle ----

  function DrainNeed(r: Regs): nat {
    match r.st
    case HDR => MOLD_HEADER
    case CAP => (2 + r.msgLen) % 256
    case _ => 0
  }

  function Drained(r: Regs): (n: nat)
    ensures n <= |r.q|
  {
    if DrainNeed(r) <= |r.q| then DrainNeed(r) else 0
  }

  /** The ready line: room for the offered bytes beside what stays, one beat of
      margin beyond the largest message; nothing past the end of a datagram. */
  predicate TReady(z: Sizes, r: Regs, n: nat) {
    r.drop || (!r.eop && |r.q| - Drained(r) + n < z.qb + z.p.bytes)
  }

  predicate Takes(z: Sizes, r: Regs, i: In) {
    i.tvalid && TReady(z, r, |i.bytes|)
  }

  // ---- the fields of a message at the head of the queue ----

  /** The declared length; only its low byte is used. */
  function DeclaredLength(q: seq<byte>): (n: nat)
    requires |q| >= 2
    ensures n < 256
  {
    BigEndian(q[..2]) % 256
  }

  function BodyWordsOf(p: Params, len: nat): (n: nat)
    requires Sound(p)
    ensures len >= HEADER_LENGTH && p.bytes == 4 ==> 4 * (n - 1) < len - HEADER_LENGTH <= 4 * n
    ensures len >= HEADER_LENGTH && p.bytes == 8 ==> 8 * (n - 1) < len - HEADER_LENGTH <= 8 * n
  {
    if len < HEADER_LENGTH then 0 else if p.bytes == 4 then (len - 8) / 4 else (len - 4) / 8
  }

  function Capture(z: Sizes, r: Regs): (c: Regs)
    requires Fit(z) && |r.q| >= 2
    ensures RegsShaped(z, r) ==> RegsShaped(z, c)
  {
    var len, t := DeclaredLength(r.q), QByte(r.q, 2);
    r.(msgLen := len, msgType := t, locate := QBytes(r.q, 3, 2), ts := QBytes(r.q, 7, 6),
       lenOk := ExpectedLength(t) == 0 || ExpectedLength(t) == len,
       msg := QBytes(r.q, 2, CAPTURE), bodyWords := BodyWordsOf(z.p, len), bi := 0)
  }

  // ---- what the emission states put on the bus ----

  predicate Emits(r: Regs) {
    InSubset(r.msgType) && r.msgLen >= HEADER_LENGTH
  }

  function HeadWord(p: Params, r: Regs): Word
    requires Sound(p)
  {
    [r.msgType] + r.locate + [(r.msgLen % 256) as byte] + if p.bytes == 4 then [] else ToBigEndian(r.msgIdx, 4)
  }

  function SecondWord(p: Params, r: Regs): Word
    requires Sound(p)
  {
    if p.bytes == 4 then ToBigEndian(r.msgIdx, 4) else [0, 0] + r.ts
  }

  function CapturedByte(r: Regs, i: nat): byte {
    if i < r.msgLen then QByte(r.msg, i) else 0
  }

  /** Word i of the captured body; zero past the message's length. */
  function CapturedWord(p: Params, r: Regs, i: nat): Word
    requires Sound(p)
  {
    var base := HEADER_LENGTH + p.bytes * i;
    seq<byte>(p.bytes, k requires 0 <= k < p.bytes => CapturedByte(r, base + k))
  }

  // ---- one clock edge ----

  /** The datagram is given up: the queue is emptied and the rest of it discarded. */
  function GiveUp(r: Regs, discard: bool): Regs {
    r.(q := [], eop := false, drop := discard, st := HDR)
  }

  /** The next datagram: the queue must hold nothing of the current one. */
  function NextHeader(z: Sizes, r: Regs): (h: Regs)
    requires |r.q| >= MOLD_HEADER
    ensures |h.session| == 10
  {
    var id, n, count := r.q[..10], BigEndian(r.q[10..18]), BigEndian(r.q[18..20]);
    r.(thisSeq := n, packLeft := count, packCount := count, session := id,
       expSeq := if id != r.session then n else r.expSeq,
       gap := id == r.session && n != r.expSeq)
  }

  /** r is the state before the edge; s has the queue, the end-of-datagram latch and
      the output handshake already updated. */
  function EdgeHdr(z: Sizes, r: Regs, s: Regs): Regs {
    if Drained(r) == MOLD_HEADER then
      var h := NextHeader(z, r);
      var t := s.(thisSeq := h.thisSeq, packLeft := h.packLeft, packCount := h.packCount, session := h.session,
                  expSeq := h.expSeq, gap := h.gap);
      if h.packCount != 0 then t.(st := LEN)
      else if s.eop && s.q == [] then t.(expSeq := h.thisSeq, eop := false)
      else GiveUp(t, !s.eop)
    else if r.eop then GiveUp(s, false)
    else s
  }

  function EdgeLen(z: Sizes, r: Regs, s: Regs): Regs
    requires Fit(z)
  {
    if |r.q| >= 2 && |r.q| >= 2 + DeclaredLength(r.q) then
      var c := Capture(z, r);
      s.(st := CAP, msgLen := c.msgLen, msgType := c.msgType, locate := c.locate, ts := c.ts, lenOk := c.lenOk,
         msg := c.msg, bodyWords := c.bodyWords, bi := 0)
    else if |r.q| >= 2 && 2 + DeclaredLength(r.q) > z.qb then s.(q := [], st := DRAIN)
    else if r.eop then GiveUp(s, false).(packLeft := 0)
    else s
  }

  function PutOut(s: Regs, data: Word, last: bool): Regs {
    s.(outValid := true, out := Beat(data, last))
  }

  function EdgeBody(z: Sizes, r: Regs, s: Regs): Regs
    requires Fit(z)
  {
    if Emits(r) && r.bi < r.bodyWords then
      PutOut(s, CapturedWord(z.p, r, r.bi), r.bi == r.bodyWords - 1).(bi := r.bi + 1)
    else s.(outValid := false, st := NEXT)
  }

  function EdgeNext(r: Regs, s: Regs): Regs {
    var t := s.(msgIdx := (r.msgIdx + 1) % WORD32, outValid := false);
    if r.packLeft > 1 then t.(packLeft := r.packLeft - 1, st := LEN)
    else if s.eop && s.q == [] then t.(expSeq := (r.thisSeq + r.packCount) % WORD64, eop := false, st := HDR)
    else GiveUp(t, !s.eop).(packLeft := 0)
  }

  predicate OutFree(r: Regs, i: In) {
    !r.outValid || i.mready
  }

  /** The queue, the end-of-datagram latch, the pulses and the output handshake. */
  function Advance(z: Sizes, r: Regs, i: In): (s: Regs)
    ensures s == r.(q := s.q, eop := s.eop, outValid := r.outValid && !i.mready, gap := false)
  {
    r.(q := r.q[Drained(r)..] + (if Takes(z, r, i) then i.bytes else []),
       eop := r.eop || (Takes(z, r, i) && i.last),
       outValid := r.outValid && !i.mready, gap := false)
  }

  /** While a datagram is discarded only its end matters. */
  function Discard(z: Sizes, r: Regs, i: In): Regs {
    var s := r.(outValid := r.outValid && !i.mready, gap := false);
    if !(Takes(z, r, i) && i.last) then s
    else if r.st.CAP? || r.st.W0? || r.st.TS? || r.st.BODY? || r.st.NEXT?
    then s.(drop := false, eop := true, packLeft := 1)
    else s.(drop := false, eop := false, st := HDR)
  }

  function Edge(z: Sizes, r: Regs, i: In): Regs
    requires Fit(z) && WellKept(z, i)
  {
    var s := Advance(z, r, i);
    if r.drop then Discard(z, r, i)
    else match r.st
      case HDR => EdgeHdr(z, r, s)
      case LEN => EdgeLen(z, r, s)
      case CAP => if OutFree(r, i) then s.(outValid := false, st := if Emits(r) && r.lenOk then W0 else NEXT) else s
      case W0 => if OutFree(r, i) then (if Emits(r) then PutOut(s, HeadWord(z.p, r), false) else s).(st := TS) else s
      case TS => if OutFree(r, i) then PutOut(s, SecondWord(z.p, r), false).(st := BODY) else s
      case BODY => if OutFree(r, i) then EdgeBody(z, r, s) else s
      case NEXT => if OutFree(r, i) then EdgeNext(r, s) else s
      case DRAIN => s
  }

  /** The registers after reset. */
  predicate IsReset(r: Regs) {
    && r.st.HDR? && r.q == [] && r.msgIdx == 0 && r.expSeq == 1 && r.session == seq(10, _ => 0)
    && !r.eop && !r.drop && !r.outValid && !r.gap
    && |r.locate| == 2 && |r.ts| == 6 && |r.msg| == CAPTURE && r.msgLen < 256
  }
}
