// The symbol table against the stream: no record is for a symbol without a place
// in the table as long as the stream names no more symbols than the table has slots.
module Symbols {
  import opened Records
  import opened Receiver
  import opened BookRefinement
  import opened StepRefinement
  import opened Runs
  import TableRuns
  import Clock
  import ClockSafety

  /** The locates of complete records. */
  function Named(rs: seq<Record>): set<nat> {
    set i | 0 <= i < |rs| :: rs[i].locate
  }

  /** With the locate of the record that has begun. */
  function AllNamed(x: Rx): set<nat> {
    Named(x.done) + if x.part.Nothing? then {} else {x.part.rec.locate}
  }

  function Registered(locs: seq<nat>, n: nat): set<nat>
    requires n <= |locs|
  {
    if n == 0 then {} else Registered(locs, n - 1) + {locs[n - 1]}
  }

  /** Registered locates were named; a record without a place means too many names. */
  predicate NamesInv(p: Params, x: Rx) {
    && x.cnt <= |x.locs| == p.nsym
    && (forall j :: 0 <= j < x.cnt ==> x.locs[j] in AllNamed(x))
    && (forall i :: 0 <= i < |x.done| && x.done[i].bad ==> p.nsym < |Named(x.done)|)
    && (!x.part.Nothing? && x.part.rec.bad ==> p.nsym < |AllNamed(x)|)
  }

  lemma {:induction false} RegisteredSize(locs: seq<nat>, cnt: nat, n: nat)
    requires n <= cnt && Distinct(locs, cnt)
    ensures |Registered(locs, n)| == n
    ensures forall l :: l in Registered(locs, n) <==> exists j :: 0 <= j < n && locs[j] == l
  {
    if n > 0 {
      RegisteredSize(locs, cnt, n - 1);
    }
  }

  /** A full table and one more locate: more names than slots. */
  lemma {:induction false} OneTooMany(p: Params, locs: seq<nat>, l: nat, names: set<nat>)
    requires |locs| == p.nsym && Distinct(locs, p.nsym) && l in names
    requires forall j :: 0 <= j < |locs| ==> locs[j] in names && locs[j] != l
    ensures p.nsym < |names|
  {
    RegisteredSize(locs, p.nsym, p.nsym);
    TableRuns.SubsetSize(Registered(locs, p.nsym) + {l}, names);
  }

  lemma {:induction false} NamedMore(rs: seq<Record>, r: Record)
    ensures Named(rs + [r]) == Named(rs) + {r.locate}
  {
    var more := rs + [r];
    assert forall i :: 0 <= i < |rs| ==> more[i] == rs[i];
    assert more[|rs|] == r;
    assert forall l :: l in Named(more) ==> l in Named(rs) || l == r.locate;
    forall l | l in Named(rs)
      ensures l in Named(more)
    {
      var i :| 0 <= i < |rs| && rs[i].locate == l;
      assert more[i].locate == l;
    }
  }

  /** A first word. */
  lemma {:induction false} NamesBegin(p: Params, x: Rx, b: Beat)
    requires Sound(p) && RxShaped(p, x) && |b.data| == p.bytes && SymbolsInv(p, x) && NamesInv(p, x) && x.part.Nothing?
    ensures NamesInv(p, RxStep(p, x, b))
  {
    hide BodyWords, GoodHead, Named;
    var l := HeadLocate(b.data);
    var y := RxStep(p, x, b);
    if y.part.rec.bad {
      OneTooMany(p, x.locs, l, AllNamed(y));
    }
  }

  /** Any other word. */
  lemma {:induction false} NamesGoOn(p: Params, x: Rx, b: Beat)
    requires Sound(p) && RxShaped(p, x) && |b.data| == p.bytes && NamesInv(p, x) && !x.part.Nothing?
    ensures NamesInv(p, RxStep(p, x, b))
  {
    hide Named;
    var y := RxStep(p, x, b);
    if y.part.Nothing? {
      NamedMore(x.done, y.done[|x.done|]);
      TableRuns.SubsetSize(Named(x.done), Named(y.done));
    }
  }

  lemma {:induction false} RunNames(p: Params, r0: Clock.Regs, ins: seq<Clock.In>)
    requires Sound(p) && IsReset(p, r0) && Wired(p, ins)
    ensures NamesInv(p, Run(p, r0, ins).x)
  {
    hide Clock.Edge, RxStep, NamesInv, SymbolsInv, RxShaped;
    if ins == [] {
      NothingNamed(p);
    } else {
      var init, i := ins[..|ins| - 1], ins[|ins| - 1];
      var c := Run(p, r0, init);
      RunNames(p, r0, init);
      RunSymbols(p, r0, init);
      if ClockSafety.Accepts(c.r, i) {
        if c.x.part.Nothing? {
          NamesBegin(p, c.x, i.beat);
        } else {
          NamesGoOn(p, c.x, i.beat);
        }
      }
    }
  }

  lemma {:induction false} NothingNamed(p: Params)
    requires Sound(p)
    ensures NamesInv(p, RxReset(p))
  {
  }

  /** No more symbols than slots, and not the marker of an empty slot among them: every
      record of every run has its symbol's place. */
  lemma {:induction false} FewSymbolsHavePlaces(p: Params, r0: Clock.Regs, ins: seq<Clock.In>)
    requires Sound(p) && IsReset(p, r0) && Wired(p, ins)
    requires |Named(Run(p, r0, ins).x.done)| <= p.nsym && 0xFFFF !in Named(Run(p, r0, ins).x.done)
    ensures
      var x := Run(p, r0, ins).x;
      forall i :: 0 <= i < |x.done| ==> x.done[i].locate != 0xFFFF && Addressed(x.locs, x.cnt, x.done[i])
  {
    hide Run;
    RunNames(p, r0, ins);
    RunSymbols(p, r0, ins);
  }
}
