// The ITCH parser as a device: its registers are fields, updated in place by
// one clock edge.
module ParserDevice {
  import opened Bytes
  import opened Records
  import opened Itch
  import opened ItchParser

  /** Numbering of messages and datagrams. */
  datatype Tracker = Tracker(msgIdx: nat, expSeq: nat, thisSeq: nat, session: seq<byte>, packLeft: nat, packCount: nat)

  /** The captured message. */
  datatype Held = Held(
    msgLen: nat, msgType: byte, locate: seq<byte>, ts: seq<byte>, lenOk: bool, msg: seq<byte>, bodyWords: nat, bi: nat)

  /** The output register with its valid line, and the gap pulse. */
  datatype Bus = Bus(valid: bool, out: Beat, gap: bool)

  function RegsOf(st: St, q: seq<byte>, t: Tracker, h: Held, eop: bool, drop: bool, b: Bus): Regs {
    Regs(st, q, t.msgIdx, t.expSeq, t.thisSeq, t.session, t.packLeft, t.packCount,
         h.msgLen, h.msgType, h.locate, h.ts, h.lenOk, h.msg, h.bodyWords, h.bi, eop, drop, b.valid, b.out, b.gap)
  }

  class Device {
    const z: Sizes
    var st: St
    var q: seq<byte>
    var t: Tracker
    var h: Held
    var eop: bool
    var drop: bool
    var b: Bus

    function Registers(): Regs
      reads this
    {
      RegsOf(st, q, t, h, eop, drop, b)
    }

    /** The ready line for an offer of so many bytes. */
    function Ready(offered: nat): bool
      requires Fit(z)
      reads this
    {
      TReady(z, Registers(), offered)
    }

    constructor (z: Sizes)
      ensures this.z == z && IsReset(Registers())
    {
      this.z := z;
      st, q, eop, drop := HDR, [], false, false;
      t := Tracker(0, 1, 0, seq(10, _ => 0), 0, 0);
      h := Held(0, 0, [0, 0], [0, 0, 0, 0, 0, 0], false, seq(CAPTURE, _ => 0), 0, 0);
      b := Bus(false, Beat([], false), false);
    }

    /** The rest of the datagram is given up. */
    method Abandon()
      modifies `q, `eop, `drop, `st
      ensures q == [] && !eop && drop == !old(eop) && st == HDR
    {
      drop := !eop;
      q, eop, st := [], false, HDR;
    }

    /** The header state; was holds the queue before the edge. */
    method Header(was: seq<byte>, wasEop: bool, ghost r: Regs)
      requires Fit(z) && r.st.HDR? && !r.drop && was == r.q && wasEop == r.eop && (wasEop ==> eop)
      requires t == Tracker(r.msgIdx, r.expSeq, r.thisSeq, r.session, r.packLeft, r.packCount) && !drop && st == HDR
               && !b.gap
      modifies this
      ensures Registers() == EdgeHdr(z, r, old(Registers()))
    {
      hide BigEndian, EdgeHdr;
      HeaderForm(z, r, Registers());
      if |was| >= MOLD_HEADER {
        var id, n, count := was[..10], BigEndian(was[10..18]), BigEndian(was[18..20]);
        b := b.(gap := id == t.session && n != t.expSeq);
        t := t.(thisSeq := n, packLeft := count, packCount := count, session := id,
                expSeq := if id != t.session then n else t.expSeq);
        if count != 0 {
          st := LEN;
        } else if eop && q == [] {
          t, eop := t.(expSeq := n), false;
        } else {
          Abandon();
        }
      } else if wasEop {
        Abandon();
      }
    }

    /** The length state: the whole message is captured at once. */
    method Length(was: seq<byte>, wasEop: bool, ghost r: Regs)
      requires Fit(z) && r.st.LEN? && !r.drop && was == r.q && wasEop == r.eop && (wasEop ==> eop)
      requires !drop && st == LEN && t.packLeft == r.packLeft
      modifies this
      ensures Registers() == EdgeLen(z, r, old(Registers()))
    {
      hide BigEndian, BodyWordsOf, ExpectedLength;
      if |was| >= 2 && |was| >= 2 + DeclaredLength(was) {
        var len, kind := DeclaredLength(was), QByte(was, 2);
        h := Held(len, kind, QBytes(was, 3, 2), QBytes(was, 7, 6),
                  ExpectedLength(kind) == 0 || ExpectedLength(kind) == len,
                  QBytes(was, 2, CAPTURE), BodyWordsOf(z.p, len), 0);
        st := CAP;
      } else if |was| >= 2 && 2 + DeclaredLength(was) > z.qb {
        q, st := [], DRAIN;
      } else if wasEop {
        Abandon();
        t := t.(packLeft := 0);
      }
    }

    /** One body word, byte by byte: zero past the message's length. */
    method BodyWordAt(i: nat, ghost r: Regs) returns (w: Word)
      requires Fit(z) && h.msg == r.msg && h.msgLen == r.msgLen
      ensures w == CapturedWord(z.p, r, i)
    {
      var base := HEADER_LENGTH + z.p.bytes * i;
      w := [];
      var k := 0;
      while k < z.p.bytes
        invariant 0 <= k <= z.p.bytes && |w| == k
        invariant forall j :: 0 <= j < k ==> w[j] == CapturedByte(r, base + j)
      {
        w := w + [if base + k < h.msgLen then QByte(h.msg, base + k) else 0];
        k := k + 1;
      }
    }

    /** The emission states, once the bus is free. */
    method Emission(ghost r: Regs)
      requires Fit(z) && !r.drop && Registers() == r.(q := q, eop := eop, outValid := b.valid, gap := false)
      requires st.CAP? || st.W0? || st.TS? || st.BODY?
      modifies `st, `b, `h
      ensures
        var s := old(Registers());
        Registers() ==
        if r.st.CAP? then s.(outValid := false, st := if Emits(r) && r.lenOk then W0 else NEXT)
        else if r.st.W0? then (if Emits(r) then PutOut(s, HeadWord(z.p, r), false) else s).(st := TS)
        else if r.st.TS? then PutOut(s, SecondWord(z.p, r), false).(st := BODY)
        else EdgeBody(z, r, s)
    {
      hide CapturedWord, HeadWord, SecondWord, InSubset;
      var emits := InSubset(h.msgType) && h.msgLen >= HEADER_LENGTH;
      if st.CAP? {
        b, st := b.(valid := false), if emits && h.lenOk then W0 else NEXT;
      } else if st.W0? {
        if emits {
          SameHead(z.p, r, q, eop, b.valid);
          b := b.(valid := true, out := Beat(HeadWord(z.p, Registers()), false));
        }
        st := TS;
      } else if st.TS? {
        SameHead(z.p, r, q, eop, b.valid);
        b := b.(valid := true, out := Beat(SecondWord(z.p, Registers()), false));
        st := BODY;
      } else if emits && h.bi < h.bodyWords {
        var w := BodyWordAt(h.bi, r);
        b, h := b.(valid := true, out := Beat(w, h.bi == h.bodyWords - 1)), h.(bi := h.bi + 1);
      } else {
        b, st := b.(valid := false), NEXT;
      }
    }

    /** The head words depend on the captured fields only. */
    static lemma {:induction false} SameHead(p: Params, r: Regs, q: seq<byte>, eop: bool, valid: bool)
      requires Sound(p)
      ensures
        var s := r.(q := q, eop := eop, outValid := valid, gap := false);
        HeadWord(p, s) == HeadWord(p, r) && SecondWord(p, s) == SecondWord(p, r)
    {
    }

    /** Past a message: on to the next, or the datagram closed. */
    method Closing(ghost r: Regs)
      requires r.st.NEXT? && !r.drop && Registers() == r.(q := q, eop := eop, outValid := b.valid, gap := false)
      modifies this
      ensures Registers() == EdgeNext(r, old(Registers()))
    {
      b := b.(valid := false);
      t := t.(msgIdx := (t.msgIdx + 1) % WORD32);
      if t.packLeft > 1 {
        t, st := t.(packLeft := t.packLeft - 1), LEN;
      } else if eop && q == [] {
        t, eop, st := t.(expSeq := (t.thisSeq + t.packCount) % WORD64), false, HDR;
      } else {
        Abandon();
        t := t.(packLeft := 0);
      }
    }

    /** While a datagram is discarded only its end matters. */
    method Discarding(ended: bool)
      modifies this
      ensures
        var s := old(Registers());
        Registers() ==
        if !ended then s
        else if s.st.CAP? || s.st.W0? || s.st.TS? || s.st.BODY? || s.st.NEXT?
        then s.(drop := false, eop := true, packLeft := 1)
        else s.(drop := false, eop := false, st := HDR)
    {
      if ended {
        drop := false;
        if st.CAP? || st.W0? || st.TS? || st.BODY? || st.NEXT? {
          eop, t := true, t.(packLeft := 1);
        } else {
          eop, st := false, HDR;
        }
      }
    }

    /** The queue, the end-of-datagram latch, the pulse and the output handshake. */
    method Moving(i: In)
      requires Fit(z) && WellKept(z, i)
      modifies `q, `eop, `b
      ensures Registers() == Advance(z, old(Registers()), i)
    {
      hide Drained;
      var drained, takes := Drained(Registers()), i.tvalid && TReady(z, Registers(), |i.bytes|);
      q := q[drained..] + if takes then i.bytes else [];
      eop := eop || (takes && i.last);
      b := b.(valid := b.valid && !i.mready, gap := false);
    }

    /** One clock edge. */
    method Cycle(i: In)
      requires Fit(z) && WellKept(z, i) && RegsShaped(z, Registers())
      modifies this
      ensures Registers() == Edge(z, old(Registers()), i)
    {
      hide EdgeHdr, EdgeLen, EdgeBody, EdgeNext, HeadWord, SecondWord, Emits, Drained, TReady, Advance;
      ghost var r := Registers();
      var was, wasEop, free := q, eop, !b.valid || i.mready;
      if drop {
        var ended := i.tvalid && TReady(z, Registers(), |i.bytes|) && i.last;
        b := b.(valid := b.valid && !i.mready, gap := false);
        Discarding(ended);
        return;
      }
      Moving(i);
      EopStays(z, r, i);
      if st.HDR? {
        Header(was, wasEop, r);
      } else if st.LEN? {
        Length(was, wasEop, r);
      } else if st.NEXT? {
        if free {
          Closing(r);
        }
      } else if !st.DRAIN? && free {
        Emission(r);
      }
    }

    static lemma {:induction false} EopStays(z: Sizes, r: Regs, i: In)
      requires Fit(z) && WellKept(z, i)
      ensures r.eop ==> Advance(z, r, i).eop
    {
    }
  }

  /** What the header state does with a whole header in the queue. */
  lemma {:induction false} HeaderForm(z: Sizes, r: Regs, s: Regs)
    requires r.st.HDR?
    ensures |r.q| >= MOLD_HEADER ==>
              var id, n, count := r.q[..10], BigEndian(r.q[10..18]), BigEndian(r.q[18..20]);
              var t := s.(thisSeq := n, packLeft := count, packCount := count, session := id,
                          expSeq := if id != r.session then n else r.expSeq, gap := id == r.session && n != r.expSeq);
              EdgeHdr(z, r, s) == if count != 0 then t.(st := LEN)
                                  else if s.eop && s.q == [] then t.(expSeq := n, eop := false)
                                  else GiveUp(t, !s.eop)
    ensures |r.q| < MOLD_HEADER ==> EdgeHdr(z, r, s) == if r.eop then GiveUp(s, false) else s
  {
  }
}
