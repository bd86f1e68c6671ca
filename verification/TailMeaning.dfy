// The states behind ST_APPLY, taken to their end: whatever the registers of
// the pipelines held before, they compute the message's closed form.
module TailMeaning {
  import opened Bytes
  import opened Prices
  import opened LevelPipeline
  import opened OrderTable
  import opened Records
  import opened Engine
  import opened Clock

  /** States left before the message is finished. */
  function StatesLeft(st: St, uadd: bool): nat {
    match st
    case EMITB => 1
    case EMITA => 2
    case LV3 => if uadd then 7 else 3
    case UADD => 6
    case LV2B => if uadd then 8 else 4
    case LV2 => if uadd then 9 else 5
    case _ => 0
  }

  /** The book and the event once the message in the tail is finished. */
  function Complete(p: Params, st: St, t: Tail, locate: nat, index: nat): (Core, Option<Event>)
    requires Sound(p) && TailShaped(p, t) && index < p.nsym
    decreases StatesLeft(st, t.uadd)
  {
    if InTail(st) then
      var (st', t') := TailStep(p, st, t, index);
      Complete(p, st', t', locate, index)
    else if t.emitOk then
      var (c, e) := EmitResult(p, t, locate, index);
      (c, Some(e))
    else (t.core, None)
  }

  /** The three emission states publish the first occupied slot of each side. */
  lemma {:induction false} EmissionStates(p: Params, t: Tail, locate: nat, index: nat)
    requires Sound(p) && TailShaped(p, t) && index < p.nsym
    ensures Complete(p, EMITA, t, locate, index) ==
            if t.emitOk then (Emit(p, t.core, locate, index).0, Some(Emit(p, t.core, locate, index).1))
            else (t.core, None)
  {
    var (_, t1) := TailStep(p, EMITA, t, index);
    var (_, t2) := TailStep(p, EMITB, t1, index);
    assert Complete(p, EMITA, t, locate, index) == Complete(p, EMITB, t1, locate, index);
    assert Complete(p, EMITB, t1, locate, index) == Complete(p, EMITC, t2, locate, index);
  }

  /** The three level states write the launched operation back. */
  lemma {:induction false} LevelStates(p: Params, t: Tail, locate: nat, index: nat, q: LevelReq)
    requires Sound(p) && TailShaped(p, t) && index < p.nsym && -0x8000_0000 <= q.delta < 0x8000_0000
    requires t.side == SideOf(index, q.ask) && t.lv == Launch(t.core.sides[t.side], q.ask, q.price, q.delta)
    ensures
      var (_, t1) := TailStep(p, LV2, t, index);
      var (_, t2) := TailStep(p, LV2B, t1, index);
      var (st3, t3) := TailStep(p, LV3, t2, index);
      && t3.core == WithLevel(p, t.core, index, q)
      && t3.uadd == t.uadd && t3.half == t.half && t3.emitOk == t.emitOk
      && Complete(p, LV2, t, locate, index) == Complete(p, if t.uadd then UADD else EMITA, t3, locate, index)
  {
    var (_, t1) := TailStep(p, LV2, t, index);
    var (_, t2) := TailStep(p, LV2B, t1, index);
    var (st3, t3) := TailStep(p, LV3, t2, index);
    StaleQuantityIsIgnored(t.lv, t.dec.newq);
    assert Complete(p, LV2, t, locate, index) == Complete(p, LV2B, t1, locate, index);
    assert Complete(p, LV2B, t1, locate, index) == Complete(p, LV3, t2, locate, index);
    assert Complete(p, LV3, t2, locate, index) == Complete(p, st3, t3, locate, index);
  }

  /** The add half of a replace: one table write, one more level operation, then emission. */
  lemma {:induction false} HalfStates(p: Params, t: Tail, locate: nat, index: nat)
    requires Sound(p) && TailShaped(p, t) && index < p.nsym
    ensures
      var c := WithLevel(p, WithHalf(p, t.core, t.half), index, HalfReq(t.half));
      Complete(p, UADD, t, locate, index) ==
      if t.emitOk then (Emit(p, c, locate, index).0, Some(Emit(p, c, locate, index).1)) else (c, None)
  {
    var (_, t1) := TailStep(p, UADD, t, index);
    assert Complete(p, UADD, t, locate, index) == Complete(p, LV2, t1, locate, index);
    LevelStates(p, t1, locate, index, HalfReq(t.half));
    var (_, t2) := TailStep(p, LV2, t1, index);
    var (_, t3) := TailStep(p, LV2B, t2, index);
    var (_, t4) := TailStep(p, LV3, t3, index);
    EmissionStates(p, t4, locate, index);
  }

  /** From ST_APPLY to the end of the tail the machine computes the closed form. */
  lemma {:induction false} ApplyThenComplete(p: Params, t: Tail, mtype: byte, locate: nat, index: nat, op: Op,
                                             wOld: Walked, wNew: Walked)
    requires Sound(p) && TailShaped(p, t) && index < p.nsym
    requires Addresses(wOld, p.nslot) && Addresses(wNew, p.nslot)
    ensures
      var (st, t') := ApplyTail(p, t, mtype, index, op, wOld, wNew);
      Complete(p, st, t', locate, index) == Finish(p, locate, index, ApplyOne(p, t.core, index, op, wOld, wNew))
  {
    var a := ApplyOne(p, t.core, index, op, wOld, wNew);
    var (st, t') := ApplyTail(p, t, mtype, index, op, wOld, wNew);
    if a.req.Some? {
      LevelStates(p, t', locate, index, a.req.value);
      var (_, t1) := TailStep(p, LV2, t', index);
      var (_, t2) := TailStep(p, LV2B, t1, index);
      var (_, t3) := TailStep(p, LV3, t2, index);
      if a.half.Some? {
        HalfStates(p, t3, locate, index);
      } else {
        EmissionStates(p, t3, locate, index);
      }
    } else if st.EMITA? {
      EmissionStates(p, t', locate, index);
    }
  }
}
