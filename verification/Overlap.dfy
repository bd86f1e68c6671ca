// The two receivers: at every cycle the words accepted so far are the finished
// records, then the message in flight, then the next message's buffer.
module Overlap {
  import opened Records
  import opened Receiver
  import opened Clock

  /** Before the table is valid, or between messages, or while a message arrives. */
  predicate Arriving(st: St) {
    st.INVAL? || st.W0? || st.TS? || st.BODY?
  }

  /** Complete records still inside the machine: the one in flight and a completed next one. */
  function Held(r: Regs): nat {
    if Arriving(r.st) then 0
    else (if r.st.SWAP? then 0 else 1) + (if r.f.nx.done then 1 else 0)
  }

  /** How many records are finished. */
  function Finished(r: Regs, x: Rx): int {
    |x.done| - Held(r)
  }

  predicate Carries(m: Msg, rec: Record) {
    m.mtype == rec.mtype && m.locate == rec.locate && m.index == rec.index && m.bad == rec.bad
  }

  /** The buffer holds the words received so far. */
  predicate Holds(m: Msg, rec: Record) {
    Carries(m, rec) && |rec.words| <= |m.acc| && m.acc[..|rec.words|] == rec.words
  }

  predicate NextIdle(nx: Next) {
    !nx.active && !nx.done
  }

  /** The next message's buffer matches what the stream has begun. */
  predicate NextMatches(nx: Next, x: Rx) {
    if !nx.active then !nx.done && x.part.Nothing?
    else
      && nx.hrem == 1
      && (nx.st == 1 || nx.st == 2)
      && (nx.st == 1 ==>
            !nx.done && x.part.Head? && Carries(nx.msg, x.part.rec) && nx.bi == 0 && nx.nbody == x.part.left)
      && (nx.st == 2 && !nx.done ==>
            x.part.Body? && Holds(nx.msg, x.part.rec) && nx.bi == |x.part.rec.words| && nx.nbody == x.part.left)
      && (nx.st == 2 && nx.done ==>
            && x.part.Nothing? && |x.done| > 0
            && Holds(nx.msg, x.done[|x.done| - 1]) && nx.bi + 1 == |x.done[|x.done| - 1].words|)
  }

  /** The machine's receivers against the stream. */
  predicate RecvInv(p: Params, r: Regs, x: Rx)
    requires Sound(p)
  {
    && r.f.locs == x.locs && r.f.cnt == x.cnt
    && 0 <= Finished(r, x)
    && match r.st
       case INVAL => x == RxReset(p) && NextIdle(r.f.nx)
       case W0 => x.part.Nothing? && NextIdle(r.f.nx)
       case TS =>
         && x.part.Head? && Carries(r.m, x.part.rec) && r.nbody == x.part.left
         && r.bi == 0 && r.hrem == 1 && NextIdle(r.f.nx)
       case BODY =>
         && x.part.Body? && Holds(r.m, x.part.rec) && r.nbody == x.part.left
         && r.bi == |x.part.rec.words| && NextIdle(r.f.nx)
       case SWAP => NextMatches(r.f.nx, x)
       case _ => Holds(r.m, x.done[Finished(r, x)]) && NextMatches(r.f.nx, x)
  }

  /** The receivers' part of the registers decides the invariant. */
  predicate SameFront(r: Regs, s: Regs) {
    r.st == s.st && r.m == s.m && r.bi == s.bi && r.nbody == s.nbody && r.hrem == s.hrem && r.f == s.f
  }

  /** The next message's receiver and the stream agree, symbol table included. */
  predicate FeedMatches(f: Feed, x: Rx) {
    NextMatches(f.nx, x) && f.locs == x.locs && f.cnt == x.cnt
  }

  /** A word goes to the next message's receiver: one more word of the stream. */
  lemma {:induction false} NxRecvMatches(p: Params, f: Feed, x: Rx, b: Beat)
    requires Sound(p) && FeedShaped(p, f) && RxShaped(p, x) && |b.data| == p.bytes
    requires x.ok && FeedMatches(f, x) && !f.nx.done
    ensures
      var g := NxRecv(p, f, b);
      var y := RxStep(p, x, b);
      y.ok ==>
        && FeedMatches(g, y)
        && |y.done| == |x.done| + (if g.nx.done then 1 else 0)
        && y.done[..|x.done|] == x.done
  {
    var y := RxStep(p, x, b);
    if y.ok && f.nx.active && f.nx.st == 2 {
      var acc := f.nx.msg.acc;
      assert acc[f.nx.bi := b.data][..f.nx.bi + 1] == acc[..f.nx.bi] + [b.data];
    }
  }

  /** The swap hands the buffer over as it stands. */
  lemma {:induction false} SwapMatches(p: Params, r: Regs, x: Rx, before: Probe)
    requires Sound(p) && RegsShaped(p, r) && RxShaped(p, x)
    requires x.ok && FeedMatches(r.f, x)
    requires |x.done| >= if r.f.nx.done then 1 else 0
    ensures
      var s := SwapNext(p, r, before);
      && RecvInv(p, s, x)
      && Finished(s, x) == |x.done| - (if r.f.nx.done then 1 else 0)
  {
  }
}
