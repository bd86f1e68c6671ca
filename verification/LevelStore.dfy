// The level registers as the hardware holds them: two flat arrays over all
// symbols and sides, and the pipeline registers, changed in place.
module LevelStore {
  import opened FirstHot
  import opened LevelPipeline
  import opened Prices

  /** The first slot of a side in the flat arrays, and the slots that belong to it. */
  lemma {:induction false} SideRange(k: nat, sides: nat, cap: nat)
    requires k < sides
    ensures k * cap + cap <= sides * cap
  {
    assert sides * cap == k * cap + (sides - k) * cap;
    assert (sides - k) * cap >= cap by {
      assert (sides - k) * cap == cap + (sides - k - 1) * cap;
    }
  }

  lemma {:induction false} SidesApart(k: nat, j: nat, cap: nat)
    requires k < j
    ensures k * cap + cap <= j * cap
  {
    SideRange(k, j, cap);
  }

  /** The levels in a stretch of the flat arrays. */
  function SliceOf(ps: seq<nat>, qs: seq<nat>, base: nat, cap: nat): (s: seq<Level>)
    requires base + cap <= |ps| == |qs|
    ensures |s| == cap && forall i :: 0 <= i < cap ==> s[i] == Level(ps[base + i], qs[base + i])
  {
    seq(cap, i requires 0 <= i < cap => Level(ps[base + i], qs[base + i]))
  }

  /** A write inside one stretch leaves the others alone. */
  lemma {:induction false} SliceApart(ps: seq<nat>, qs: seq<nat>, ps': seq<nat>, qs': seq<nat>, side: nat, k: nat,
                                      sides: nat, cap: nat)
    requires |ps| == |qs| == |ps'| == |qs'| == sides * cap && side < sides && k < sides && k != side
    requires forall j :: 0 <= j < |ps| && !(side * cap <= j < side * cap + cap) ==> ps'[j] == ps[j] && qs'[j] == qs[j]
    ensures k * cap + cap <= |ps| && SliceOf(ps', qs', k * cap, cap) == SliceOf(ps, qs, k * cap, cap)
  {
    SideRange(k, sides, cap);
    if k < side {
      SidesApart(k, side, cap);
    } else {
      SidesApart(side, k, cap);
    }
  }

  /** The levels of side k in flat arrays over that many sides. */
  function SideSlice(ps: seq<nat>, qs: seq<nat>, k: nat, sides: nat, cap: nat): (s: seq<Level>)
    requires |ps| == |qs| == sides * cap && k < sides
    ensures |s| == cap
  {
    SideRange(k, sides, cap);
    SliceOf(ps, qs, k * cap, cap)
  }

  /** The pipeline's first stage at reset. */
  function ResetLaunch(cap: nat): Launched {
    Launched(0, 0, seq(cap, _ => VACANT), seq(cap, _ => false), seq(cap, _ => false), seq(cap, _ => false),
             seq(cap, _ => 0))
  }

  lemma {:induction false} LaunchSizes(slots: seq<Level>, ask: bool, price: nat, delta: int)
    requires (forall i :: 0 <= i < |slots| ==> slots[i].qty < WORD) && -0x8000_0000 <= delta < 0x8000_0000
    ensures
      var l := Launch(slots, ask, price, delta);
      && l.price == price && l.delta == delta && l.slots == slots
      && |l.eq| == |l.zer| == |l.beat| == |l.cand| == |slots|
  {
  }

  lemma {:induction false} LaunchAt(slots: seq<Level>, ask: bool, price: nat, delta: int, i: nat)
    requires (forall j :: 0 <= j < |slots| ==> slots[j].qty < WORD) && -0x8000_0000 <= delta < 0x8000_0000
             && i < |slots|
    ensures
      var l, x := Launch(slots, ask, price, delta), slots[i];
      && i < |l.eq| && i < |l.zer| && i < |l.beat| && i < |l.cand|
      && l.eq[i] == (x.qty != 0 && x.price == price) && l.zer[i] == (x.qty == 0)
      && l.beat[i] == (x.qty != 0 && Better(ask, price, x.price)) && l.cand[i] == Candidate(x.qty, delta)
  {
  }

  /** The first n slots of a launch are computed. */
  predicate Begun(l: Launched, n: nat, slots: seq<Level>, eq: seq<bool>, zer: seq<bool>, beat: seq<bool>,
                  cand: seq<nat>) {
    && n <= |l.slots| == |l.eq| == |l.zer| == |l.beat| == |l.cand|
    && slots == l.slots[..n] && eq == l.eq[..n] && zer == l.zer[..n] && beat == l.beat[..n] && cand == l.cand[..n]
  }

  lemma {:induction false} BegunEmpty(l: Launched)
    requires |l.slots| == |l.eq| == |l.zer| == |l.beat| == |l.cand|
    ensures Begun(l, 0, [], [], [], [], [])
  {
  }

  lemma {:induction false} BegunNext(
    l: Launched, n: nat, slots: seq<Level>, eq: seq<bool>, zer: seq<bool>, beat: seq<bool>, cand: seq<nat>,
    p: nat, q: nat, price: nat, ask: bool)
    requires Begun(l, n, slots, eq, zer, beat, cand) && n < |l.slots| && l.slots[n] == Level(p, q)
    requires n < |l.eq| && n < |l.zer| && n < |l.beat| && n < |l.cand|
    requires l.eq[n] == (q != 0 && p == price) && l.zer[n] == (q == 0) && l.beat[n] == (q != 0 && Better(ask, price, p))
    ensures Begun(l, n + 1, slots + [Level(p, q)], eq + [q != 0 && p == price], zer + [q == 0],
                  beat + [q != 0 && if ask then p > price else p < price], cand + [l.cand[n]])
  {
  }

  lemma {:induction false} BegunAll(l: Launched, slots: seq<Level>, eq: seq<bool>, zer: seq<bool>, beat: seq<bool>,
                                    cand: seq<nat>)
    requires Begun(l, |l.slots|, slots, eq, zer, beat, cand)
    ensures l == Launched(l.price, l.delta, slots, eq, zer, beat, cand)
  {
  }

  lemma {:induction false} MaterializeAt(l: Launched, d: Decoded, i: nat)
    requires Shaped(l) && i < |l.slots| && forall j :: 0 <= j < |l.slots| ==> l.slots[j].qty < WORD
    ensures Materialize(l, d)[i] == NewSlot(l, d, i) && NewSlot(l, d, i).qty < WORD
  {
  }

  /** The first n slots of a stretch are written, everything else is as it was. */
  predicate Written(ps: seq<nat>, qs: seq<nat>, ps': seq<nat>, qs': seq<nat>, base: nat, out: seq<Level>, n: nat) {
    && base + |out| <= |ps| == |qs| == |ps'| == |qs'| && n <= |out|
    && (forall j :: 0 <= j < |ps| && !(base <= j < base + n) ==> ps'[j] == ps[j] && qs'[j] == qs[j])
    && (forall j :: base <= j < base + n ==> ps'[j] == out[j - base].price && qs'[j] == out[j - base].qty)
  }

  lemma {:induction false} WrittenNone(ps: seq<nat>, qs: seq<nat>, base: nat, out: seq<Level>)
    requires base + |out| <= |ps| == |qs|
    ensures Written(ps, qs, ps, qs, base, out, 0)
  {
  }

  lemma {:induction false} WrittenNext(ps: seq<nat>, qs: seq<nat>, ps': seq<nat>, qs': seq<nat>, base: nat,
                                       out: seq<Level>, n: nat)
    requires n < |out| && Written(ps, qs, ps', qs', base, out, n)
    ensures base + n < |ps'| == |qs'|
    ensures Written(ps, qs, ps'[base + n := out[n].price], qs'[base + n := out[n].qty], base, out, n + 1)
  {
  }

  /** A side written whole: it holds what was written, the other sides what they held. */
  lemma {:induction false} WrittenAll(
    ps: seq<nat>, qs: seq<nat>, ps': seq<nat>, qs': seq<nat>, out: seq<Level>, side: nat, sides: nat, cap: nat)
    requires |ps| == sides * cap && side < sides && |out| == cap && Written(ps, qs, ps', qs', side * cap, out, cap)
    requires forall j :: 0 <= j < |qs| ==> qs[j] < WORD
    requires forall i :: 0 <= i < cap ==> out[i].qty < WORD
    ensures |ps'| == |qs'| == |ps| == |qs| && (forall j :: 0 <= j < |qs'| ==> qs'[j] < WORD)
    ensures SideSlice(ps', qs', side, sides, cap) == out
    ensures forall k :: 0 <= k < sides && k != side ==>
            SideSlice(ps', qs', k, sides, cap) == SideSlice(ps, qs, k, sides, cap)
  {
    SideRange(side, sides, cap);
    forall k | 0 <= k < sides && k != side
      ensures SideSlice(ps', qs', k, sides, cap) == SideSlice(ps, qs, k, sides, cap)
    {
      SliceApart(ps, qs, ps', qs', side, k, sides, cap);
    }
  }

  class LevelArrays {
    const sides: nat
    const cap: nat
    const logCap: nat
    const price: array<nat>
    const qty: array<nat>
    var launched: Launched
    var side: nat
    var found: Found
    var decoded: Decoded

    constructor (sides: nat, cap: nat, logCap: nat)
      requires 0 < sides && 0 < logCap && cap == Pow2(logCap) < NO_SLOT
      ensures Valid() && fresh(price) && fresh(qty)
      ensures this.sides == sides && this.cap == cap && this.logCap == logCap
      ensures forall k :: 0 <= k < sides ==> Side(k) == seq(cap, _ => VACANT)
      ensures launched == ResetLaunch(cap) && side == 0
      ensures found == Found(0, 0, 0, false, false, false) && decoded == Decoded(0, 0, 0, 0, KEEP)
    {
      this.sides, this.cap, this.logCap := sides, cap, logCap;
      price := new nat[sides * cap](_ => 0);
      qty := new nat[sides * cap](_ => 0);
      launched := ResetLaunch(cap);
      side, found, decoded := 0, Found(0, 0, 0, false, false, false), Decoded(0, 0, 0, 0, KEEP);
      new;
      forall k | 0 <= k < sides
        ensures Side(k) == seq(cap, _ => VACANT)
      {
        SideRange(k, sides, cap);
      }
    }

    ghost predicate Valid()
      reads this, price, qty
    {
      && price != qty && price.Length == qty.Length == sides * cap && 0 < logCap && cap == Pow2(logCap) < NO_SLOT
      && (forall i :: 0 <= i < qty.Length ==> qty[i] < WORD)
      && Shaped(launched) && |launched.slots| == cap && (forall i :: 0 <= i < cap ==> launched.slots[i].qty < WORD)
      && side < sides && found.fnd < cap
    }

    /** The list of one side. */
    ghost function Side(k: nat): (s: seq<Level>)
      requires Valid() && k < sides
      reads this, price, qty
      ensures |s| == cap && forall i :: 0 <= i < cap ==> s[i].qty < WORD
    {
      SideRange(k, sides, cap);
      SideSlice(price[..], qty[..], k, sides, cap)
    }

    /** A side read out slot by slot, with the flags of its occupied slots. */
    method ReadSide(k: nat) returns (s: seq<Level>, occupied: seq<bool>)
      requires Valid() && k < sides
      ensures s == Side(k) && |occupied| == cap
      ensures forall i :: 0 <= i < cap ==> occupied[i] == (s[i].qty != 0)
    {
      ghost var side := Side(k);
      SideRange(k, sides, cap);
      var base := k * cap;
      s, occupied := [], [];
      var i := 0;
      while i < cap
        invariant 0 <= i <= cap && |s| == |occupied| == i && s == side[..i]
        invariant forall j :: 0 <= j < i ==> occupied[j] == (s[j].qty != 0)
      {
        s := s + [Level(price[base + i], qty[base + i])];
        occupied := occupied + [qty[base + i] != 0];
        i := i + 1;
      }
    }

    /** Stage 1: captures a side and computes the predicates and candidate sums of its slots. */
    method LaunchLv(k: nat, ask: bool, newPrice: nat, delta: int)
      requires Valid() && k < sides && -0x8000_0000 <= delta < 0x8000_0000
      modifies `launched, `side
      ensures Valid() && side == k && launched == Launch(Side(k), ask, newPrice, delta)
    {
      hide Launch, Begun, SideSlice, Candidate;
      ghost var was := Side(k);
      ghost var want := Launch(was, ask, newPrice, delta);
      var base := k * cap;
      var slots: seq<Level>, eq: seq<bool>, zer: seq<bool>, beat: seq<bool>, cand: seq<nat> := [], [], [], [], [];
      LaunchSizes(was, ask, newPrice, delta);
      BegunEmpty(want);
      var i := 0;
      while i < cap
        invariant 0 <= i <= cap && Begun(want, i, slots, eq, zer, beat, cand)
        invariant launched == old(launched) && side == old(side)
      {
        SlotAt(k, base, i);
        LaunchAt(was, ask, newPrice, delta, i);
        var p, q := price[base + i], qty[base + i];
        BegunNext(want, i, slots, eq, zer, beat, cand, p, q, newPrice, ask);
        slots := slots + [Level(p, q)];
        eq := eq + [q != 0 && p == newPrice];
        zer := zer + [q == 0];
        beat := beat + [q != 0 && if ask then p > newPrice else p < newPrice];
        cand := cand + [Candidate(q, delta)];
        i := i + 1;
      }
      BegunAll(want, slots, eq, zer, beat, cand);
      launched := Launched(newPrice, delta, slots, eq, zer, beat, cand);
      side := k;
    }

    /** A slot of a side in the flat arrays. */
    lemma {:induction false} SlotAt(k: nat, base: nat, i: nat)
      requires Valid() && k < sides && base == k * cap && i < cap
      ensures base + i < price.Length && Side(k)[i] == Level(price[base + i], qty[base + i])
    {
      SideRange(k, sides, cap);
    }

    /** Stage 2a: the tree encoders over the launched predicates. */
    method DecodeLv2a()
      requires Valid()
      modifies `found
      ensures Valid() && found == DecodeA(launched)
    {
      var fnd := FirstOneTree(launched.eq, logCap);
      var emp := FirstOneTree(launched.zer, logCap);
      var btx := FirstOneTree(launched.beat, logCap);
      found := Found(fnd, emp, btx, true in launched.eq, true in launched.zer, true in launched.beat);
    }

    /** Stage 2b: the decision. Registers not written keep what they held. */
    method DecodeLv2b()
      requires Valid()
      modifies `decoded
      ensures Valid() && decoded == DecodeB(launched, found, old(decoded.newq))
    {
      var mode, newq := KEEP, decoded.newq;
      if !found.anyFnd && !found.anyEmp {
        if launched.delta >= 0 && found.anyBtx {
          mode := INSERT;
        }
      } else if !found.anyFnd {
        if launched.delta >= 0 {
          mode := INSERT;
        }
      } else {
        var c := launched.cand[found.fnd];
        newq := c % WORD;
        mode := if c >= WORD then KEEP else if c == 0 then REMOVE else UPDATE;
      }
      decoded := Decoded(if found.anyFnd then found.fnd else NO_SLOT, if found.anyEmp then found.emp else NO_SLOT,
                         if found.anyBtx then found.btx else found.emp, newq, mode);
    }

    /** Stage 3: the launched side is written back in place; no other side is touched. */
    method MaterializeWrite()
      requires Valid()
      modifies price, qty
      ensures Valid() && Side(side) == Materialize(launched, decoded)
      ensures forall k :: 0 <= k < sides && k != side ==> Side(k) == old(Side(k))
    {
      hide Materialize, NewSlot, Written, SideSlice;
      SideRange(side, sides, cap);
      MaterializeBounded(launched, decoded);
      var base := side * cap;
      ghost var out, ps, qs := Materialize(launched, decoded), price[..], qty[..];
      WrittenNone(ps, qs, base, out);
      var i := 0;
      while i < cap
        invariant 0 <= i <= cap && Written(ps, qs, price[..], qty[..], base, out, i)
      {
        ghost var ps', qs' := price[..], qty[..];
        MaterializeAt(launched, decoded, i);
        var x := NewSlot(launched, decoded, i);
        price[base + i], qty[base + i] := x.price, x.qty;
        assert price[..] == ps'[base + i := x.price] && qty[..] == qs'[base + i := x.qty];
        WrittenNext(ps, qs, ps', qs', base, out, i);
        i := i + 1;
      }
      WrittenAll(ps, qs, price[..], qty[..], out, side, sides, cap);
    }

    /** The whole pipeline on one side. */
    method Operate(k: nat, ask: bool, newPrice: nat, delta: int)
      requires Valid() && k < sides && -0x8000_0000 <= delta < 0x8000_0000
      modifies `launched, `side, `found, `decoded, price, qty
      ensures Valid() && Side(k) == LevelOp(old(Side(k)), ask, newPrice, delta)
      ensures forall j :: 0 <= j < sides && j != k ==> Side(j) == old(Side(j))
    {
      hide Launch, DecodeA, DecodeB, Materialize;
      LaunchLv(k, ask, newPrice, delta);
      DecodeLv2a();
      ghost var stale := decoded.newq;
      DecodeLv2b();
      StaleQuantityIsIgnored(launched, stale);
      MaterializeWrite();
    }
  }
}
