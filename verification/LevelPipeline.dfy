// The price levels of one side of one symbol, as the hardware keeps them: a
// list of slots, best price first, changed by a three-stage pipeline (launch,
// two-part decode, materialize). On a well-formed list the pipeline is one insert,
// update or removal in a sorted sequence.
module LevelPipeline {
  import opened FirstHot
  import opened Prices

  datatype Level = Level(price: nat, qty: nat)

  const WORD: int := 0x1_0000_0000
  const VACANT := Level(0, 0)
  const NO_SLOT: nat := 0xFFFF_FFFF

  /** The low 32 bits of x read as a two's complement number. */
  function Signed32(x: int): (r: int)
    ensures -0x8000_0000 <= r < 0x8000_0000
    ensures -0x8000_0000 <= x < 0x8000_0000 ==> r == x
  {
    if x % WORD < 0x8000_0000 then x % WORD else x % WORD - WORD
  }

  // ---- the registers between the stages ----

  /** Stage 1: the captured side with one set of predicates per slot. */
  datatype Launched = Launched(
    price: nat, delta: int, slots: seq<Level>,
    eq: seq<bool>, zer: seq<bool>, beat: seq<bool>, cand: seq<nat>)

  /** Stage 2a: first-hot indices and any-flags. */
  datatype Found = Found(fnd: nat, emp: nat, btx: nat, anyFnd: bool, anyEmp: bool, anyBtx: bool)

  datatype Mode = KEEP | UPDATE | INSERT | REMOVE

  /** Stage 2b: the decision. */
  datatype Decoded = Decoded(found: nat, empty: nat, ins: nat, newq: nat, mode: Mode)

  /** qty + delta as a 33-bit pattern; bit 32 set means the sum does not fit. */
  function Candidate(qty: nat, delta: int): (r: nat)
    requires qty < WORD && -0x8000_0000 <= delta < 0x8000_0000
    ensures r < 2 * WORD
    ensures r < WORD <==> 0 <= qty + delta < WORD
    ensures r < WORD ==> r == qty + delta
  {
    (qty + delta) % (2 * WORD)
  }

  function Launch(slots: seq<Level>, ask: bool, price: nat, delta: int): Launched
    requires forall i :: 0 <= i < |slots| ==> slots[i].qty < WORD
    requires -0x8000_0000 <= delta < 0x8000_0000
  {
    Launched(
      price, delta, slots,
      seq(|slots|, i requires 0 <= i < |slots| => slots[i].qty != 0 && slots[i].price == price),
      seq(|slots|, i requires 0 <= i < |slots| => slots[i].qty == 0),
      seq(|slots|, i requires 0 <= i < |slots| => slots[i].qty != 0 && Better(ask, price, slots[i].price)),
      seq(|slots|, i requires 0 <= i < |slots| => Candidate(slots[i].qty, delta)))
  }

  predicate Shaped(l: Launched) {
    |l.slots| == |l.eq| == |l.zer| == |l.beat| == |l.cand| && 0 < |l.slots| < NO_SLOT
  }

  function DecodeA(l: Launched): (a: Found)
    requires Shaped(l)
    ensures a.fnd < |l.slots| && a.emp < |l.slots| && a.btx < |l.slots|
  {
    Found(FirstOne(l.eq), FirstOne(l.zer), FirstOne(l.beat), true in l.eq, true in l.zer, true in l.beat)
  }

  /** staleq is what the new-quantity register held before. */
  function DecodeB(l: Launched, a: Found, staleq: nat): Decoded
    requires Shaped(l) && a.fnd < |l.slots|
  {
    var found := if a.anyFnd then a.fnd else NO_SLOT;
    var empty := if a.anyEmp then a.emp else NO_SLOT;
    var ins := if a.anyBtx then a.btx else a.emp;
    if !a.anyFnd && !a.anyEmp then
      Decoded(found, empty, ins, staleq, if l.delta < 0 || !a.anyBtx then KEEP else INSERT)
    else if !a.anyFnd && l.delta < 0 then
      Decoded(found, empty, ins, staleq, KEEP)
    else if !a.anyFnd then
      Decoded(found, empty, ins, staleq, INSERT)
    else
      var c := l.cand[a.fnd];
      Decoded(found, empty, ins, c % WORD, if c >= WORD then KEEP else if c == 0 then REMOVE else UPDATE)
  }

  /** Slot i of the list that stage 3 writes back. */
  function NewSlot(l: Launched, d: Decoded, i: nat): Level
    requires Shaped(l) && i < |l.slots|
  {
    match d.mode
    case KEEP => l.slots[i]
    case UPDATE => if i == d.found then Level(l.slots[i].price, d.newq % WORD) else l.slots[i]
    case REMOVE =>
      if i < d.found then l.slots[i] else if i < |l.slots| - 1 then l.slots[i + 1] else VACANT
    case INSERT =>
      if i > d.empty || i < d.ins then l.slots[i]
      else if i == d.ins then Level(l.price, l.delta % WORD)
      else l.slots[i - 1]
  }

  function Materialize(l: Launched, d: Decoded): (slots: seq<Level>)
    requires Shaped(l)
    ensures |slots| == |l.slots|
  {
    seq(|l.slots|, i requires 0 <= i < |l.slots| => NewSlot(l, d, i))
  }

  lemma {:induction false} MaterializeBounded(l: Launched, d: Decoded)
    requires Shaped(l) && forall i :: 0 <= i < |l.slots| ==> l.slots[i].qty < WORD
    ensures forall i :: 0 <= i < |l.slots| ==> Materialize(l, d)[i].qty < WORD
  {
  }

  /** The whole pipeline, from registered side to registered side. */
  function LevelOp(slots: seq<Level>, ask: bool, price: nat, delta: int): (r: seq<Level>)
    requires 0 < |slots| < NO_SLOT
    requires forall i :: 0 <= i < |slots| ==> slots[i].qty < WORD
    requires -0x8000_0000 <= delta < 0x8000_0000
    ensures |r| == |slots|
  {
    var l := Launch(slots, ask, price, delta);
    Materialize(l, DecodeB(l, DecodeA(l), 0))
  }

  /** What the new-quantity register held before never shows in the written list. */
  lemma {:induction false} StaleQuantityIsIgnored(l: Launched, staleq: nat)
    requires Shaped(l)
    ensures Materialize(l, DecodeB(l, DecodeA(l), staleq)) == Materialize(l, DecodeB(l, DecodeA(l), 0))
  {
  }

  lemma {:induction false} LevelOpBounded(slots: seq<Level>, ask: bool, price: nat, delta: int)
    requires 0 < |slots| < NO_SLOT && forall i :: 0 <= i < |slots| ==> slots[i].qty < WORD
    requires -0x8000_0000 <= delta < 0x8000_0000
    ensures forall i :: 0 <= i < |slots| ==> LevelOp(slots, ask, price, delta)[i].qty < WORD
  {
  }

  // ---- what a well-formed list is, and what an operation means on it ----

  /** Strictly best first, every quantity positive and in 32 bits. */
  predicate Ranked(ask: bool, lv: seq<Level>) {
    && (forall i :: 0 <= i < |lv| ==> 0 < lv[i].qty < WORD)
    && (forall i, j :: 0 <= i < j < |lv| ==> Better(ask, lv[i].price, lv[j].price))
  }

  /** The slots of a list of live levels: the levels, then zeroes. */
  function Pad(lv: seq<Level>, cap: nat): (slots: seq<Level>)
    requires |lv| <= cap
    ensures |slots| == cap
  {
    lv + seq(cap - |lv|, _ => VACANT)
  }

  /** How many levels rank strictly before the price. */
  function Rank(ask: bool, lv: seq<Level>, price: nat): (k: nat)
    ensures k <= |lv|
    ensures forall i :: 0 <= i < k ==> Better(ask, lv[i].price, price)
    ensures k < |lv| ==> !Better(ask, lv[k].price, price)
  {
    if lv == [] || !Better(ask, lv[0].price, price) then 0 else 1 + Rank(ask, lv[1..], price)
  }

  /** The level at the price is live; its index is then its rank. */
  predicate Holds(ask: bool, lv: seq<Level>, price: nat) {
    Rank(ask, lv, price) < |lv| && lv[Rank(ask, lv, price)].price == price
  }

  /** A new level at rank k; a full list loses its worst level. */
  function InsertAt(lv: seq<Level>, cap: nat, k: nat, x: Level): (r: seq<Level>)
    requires k <= |lv| <= cap
    ensures |r| <= cap
  {
    var wide := lv[..k] + [x] + lv[k..];
    if |wide| > cap then wide[..cap] else wide
  }

  /** The operation on the sorted sequence of live levels, with room for cap of them. */
  function Adjust(lv: seq<Level>, cap: nat, ask: bool, price: nat, delta: int): (r: seq<Level>)
    requires |lv| <= cap
    ensures |r| <= cap
  {
    var k := Rank(ask, lv, price);
    if Holds(ask, lv, price) then
      var q := lv[k].qty + delta;
      if q < 0 || q >= WORD then lv
      else if q == 0 then lv[..k] + lv[k + 1..]
      else lv[k := Level(price, q)]
    else if delta < 0 || k == cap then lv
    else InsertAt(lv, cap, k, Level(price, delta))
  }

  /** In a ranked list the ranks split it into better, equal and worse. */
  lemma {:induction false} RankSplits(ask: bool, lv: seq<Level>, price: nat)
    requires Ranked(ask, lv)
    ensures forall i :: Rank(ask, lv, price) < i < |lv| ==> Better(ask, price, lv[i].price)
    ensures Holds(ask, lv, price) <==> exists i :: 0 <= i < |lv| && lv[i].price == price
    ensures !Holds(ask, lv, price) && Rank(ask, lv, price) < |lv| ==> Better(ask, price, lv[Rank(ask, lv, price)].price)
  {
    var k := Rank(ask, lv, price);
    if k < |lv| {
      assert forall i :: k < i < |lv| ==> Better(ask, lv[k].price, lv[i].price);
    }
  }

  lemma {:induction false} FirstSetIs(v: seq<bool>, k: nat)
    requires k < |v| && v[k] && forall i :: 0 <= i < k ==> !v[i]
    ensures true in v && FirstOne(v) == k
  {
    assert v[k] in v;
  }

  lemma {:induction false} NoneSet(v: seq<bool>)
    requires forall i :: 0 <= i < |v| ==> !v[i]
    ensures true !in v
  {
  }

  /** Stage 2a finds the price at its rank, or not at all. */
  lemma {:induction false} FindsPrice(lv: seq<Level>, cap: nat, ask: bool, price: nat, delta: int, l: Launched)
    requires Ranked(ask, lv) && |lv| <= cap && 0 < cap < NO_SLOT
    requires -0x8000_0000 <= delta < 0x8000_0000 && l == Launch(Pad(lv, cap), ask, price, delta)
    ensures
      var a := DecodeA(l);
      && (a.anyFnd <==> Holds(ask, lv, price))
      && (a.anyFnd ==> a.fnd == Rank(ask, lv, price))
  {
    var eq := l.eq;
    RankSplits(ask, lv, price);
    if Holds(ask, lv, price) {
      FirstSetIs(eq, Rank(ask, lv, price));
    } else {
      NoneSet(eq);
    }
  }

  /** Stage 2a finds the first vacant slot right after the live levels. */
  lemma {:induction false} FindsVacancy(lv: seq<Level>, cap: nat, ask: bool, price: nat, delta: int, l: Launched)
    requires Ranked(ask, lv) && |lv| <= cap && 0 < cap < NO_SLOT
    requires -0x8000_0000 <= delta < 0x8000_0000 && l == Launch(Pad(lv, cap), ask, price, delta)
    ensures
      var a := DecodeA(l);
      && (a.anyEmp <==> |lv| < cap)
      && (a.anyEmp ==> a.emp == |lv|)
  {
    var zer := l.zer;
    if |lv| < cap {
      FirstSetIs(zer, |lv|);
    } else {
      NoneSet(zer);
    }
  }

  /** Stage 2a finds the first worse level at the rank of an absent price. */
  lemma {:induction false} FindsWorse(lv: seq<Level>, cap: nat, ask: bool, price: nat, delta: int, l: Launched)
    requires Ranked(ask, lv) && |lv| <= cap && 0 < cap < NO_SLOT
    requires -0x8000_0000 <= delta < 0x8000_0000 && l == Launch(Pad(lv, cap), ask, price, delta)
    requires !Holds(ask, lv, price)
    ensures
      var a := DecodeA(l);
      && (a.anyBtx <==> Rank(ask, lv, price) < |lv|)
      && (a.anyBtx ==> a.btx == Rank(ask, lv, price))
  {
    var beat := l.beat;
    RankSplits(ask, lv, price);
    if Rank(ask, lv, price) < |lv| {
      FirstSetIs(beat, Rank(ask, lv, price));
    } else {
      NoneSet(beat);
    }
  }

  /** Removal compacts the list over the found slot. */
  lemma {:induction false} RemoveSlots(lv: seq<Level>, cap: nat, l: Launched, d: Decoded)
    requires |lv| <= cap && Shaped(l) && l.slots == Pad(lv, cap)
    requires d.mode == REMOVE && d.found < |lv|
    ensures Materialize(l, d) == Pad(lv[..d.found] + lv[d.found + 1..], cap)
  {
  }

  /** Insertion shifts the tail right and pushes the last level out of a full list. */
  lemma {:induction false} InsertSlots(lv: seq<Level>, cap: nat, l: Launched, d: Decoded)
    requires |lv| <= cap && Shaped(l) && l.slots == Pad(lv, cap)
    requires d.mode == INSERT && d.ins <= |lv| && d.ins < cap
    requires d.empty == if |lv| < cap then |lv| else NO_SLOT
    ensures Materialize(l, d) == Pad(InsertAt(lv, cap, d.ins, Level(l.price, l.delta % WORD)), cap)
  {
    var wide := lv[..d.ins] + [Level(l.price, l.delta % WORD)] + lv[d.ins..];
    assert forall i :: d.ins < i <= |lv| ==> wide[i] == lv[i - 1];
    forall i | 0 <= i < cap
      ensures NewSlot(l, d, i) == Pad(InsertAt(lv, cap, d.ins, Level(l.price, l.delta % WORD)), cap)[i]
    {
    }
  }

  /** The decision for a price that is in the list, by the value of the sum. */
  lemma {:induction false} DecodeHeld(l: Launched, a: Found, qty: nat)
    requires Shaped(l) && a.fnd < |l.slots| && a.anyFnd
    requires qty < WORD && -0x8000_0000 <= l.delta < 0x8000_0000
    requires l.cand[a.fnd] == Candidate(qty, l.delta)
    ensures
      var d := DecodeB(l, a, 0);
      var q := qty + l.delta;
      && d.found == a.fnd
      && d.mode == (if q < 0 || q >= WORD then KEEP else if q == 0 then REMOVE else UPDATE)
      && (d.mode == UPDATE ==> d.newq == q)
  {
  }

  /** The decision for a price that is not in the list. */
  lemma {:induction false} DecodeAbsent(l: Launched, a: Found)
    requires Shaped(l) && a.fnd < |l.slots| && !a.anyFnd
    ensures
      var d := DecodeB(l, a, 0);
      && d.mode == (if l.delta < 0 || (!a.anyEmp && !a.anyBtx) then KEEP else INSERT)
      && d.ins == (if a.anyBtx then a.btx else a.emp)
      && d.empty == (if a.anyEmp then a.emp else NO_SLOT)
  {
  }

  /** The pipeline on a list that holds the price. */
  lemma {:induction false} OpOnHeldPrice(lv: seq<Level>, cap: nat, ask: bool, price: nat, delta: int)
    requires Ranked(ask, lv) && |lv| <= cap && 0 < cap < NO_SLOT
    requires -0x8000_0000 <= delta < 0x8000_0000
    requires Holds(ask, lv, price)
    ensures LevelOp(Pad(lv, cap), ask, price, delta) == Pad(Adjust(lv, cap, ask, price, delta), cap)
  {
    var slots := Pad(lv, cap);
    var l := Launch(slots, ask, price, delta);
    var d := DecodeB(l, DecodeA(l), 0);
    var k := Rank(ask, lv, price);
    FindsPrice(lv, cap, ask, price, delta, l);
    assert l.cand[k] == Candidate(slots[k].qty, delta) && slots[k] == lv[k];
    DecodeHeld(l, DecodeA(l), lv[k].qty);
    match d.mode {
      case KEEP =>
        assert Materialize(l, d) == slots;
      case REMOVE =>
        RemoveSlots(lv, cap, l, d);
      case UPDATE =>
        assert Materialize(l, d) == Pad(lv[k := Level(price, d.newq)], cap);
    }
  }

  /** Stages 2b and 3 for an absent price whose rank is k. */
  lemma {:induction false} WriteAbsent(lv: seq<Level>, cap: nat, l: Launched, a: Found, k: nat)
    requires k <= |lv| <= cap && Shaped(l) && l.slots == Pad(lv, cap) && |l.slots| == cap
    requires a.fnd < cap && !a.anyFnd && -0x8000_0000 <= l.delta < 0x8000_0000
    requires (a.anyEmp <==> |lv| < cap) && (a.anyEmp ==> a.emp == |lv|)
    requires (a.anyBtx <==> k < |lv|) && (a.anyBtx ==> a.btx == k)
    ensures l.delta < 0 || k == cap ==> Materialize(l, DecodeB(l, a, 0)) == Pad(lv, cap)
    ensures l.delta >= 0 && k < cap ==>
      Materialize(l, DecodeB(l, a, 0)) == Pad(InsertAt(lv, cap, k, Level(l.price, l.delta)), cap)
  {
    var d := DecodeB(l, a, 0);
    DecodeAbsent(l, a);
    if d.mode == INSERT {
      InsertSlots(lv, cap, l, d);
    } else {
      assert Materialize(l, d) == l.slots;
    }
  }

  /** The pipeline on a list that does not hold the price. */
  lemma {:induction false} OpOnAbsentPrice(lv: seq<Level>, cap: nat, ask: bool, price: nat, delta: int)
    requires Ranked(ask, lv) && |lv| <= cap && 0 < cap < NO_SLOT
    requires -0x8000_0000 <= delta < 0x8000_0000
    requires !Holds(ask, lv, price)
    ensures LevelOp(Pad(lv, cap), ask, price, delta) == Pad(Adjust(lv, cap, ask, price, delta), cap)
  {
    var l := Launch(Pad(lv, cap), ask, price, delta);
    FindsPrice(lv, cap, ask, price, delta, l);
    FindsVacancy(lv, cap, ask, price, delta, l);
    FindsWorse(lv, cap, ask, price, delta, l);
    WriteAbsent(lv, cap, l, DecodeA(l), Rank(ask, lv, price));
  }

  /** The pipeline on a well-formed list is the sorted-sequence operation. */
  lemma {:induction false} LevelOpIsAdjust(lv: seq<Level>, cap: nat, ask: bool, price: nat, delta: int)
    requires Ranked(ask, lv) && |lv| <= cap && 0 < cap < NO_SLOT
    requires -0x8000_0000 <= delta < 0x8000_0000
    ensures LevelOp(Pad(lv, cap), ask, price, delta) == Pad(Adjust(lv, cap, ask, price, delta), cap)
  {
    if Holds(ask, lv, price) {
      OpOnHeldPrice(lv, cap, ask, price, delta);
    } else {
      OpOnAbsentPrice(lv, cap, ask, price, delta);
    }
  }

  lemma {:induction false} InsertRanked(ask: bool, lv: seq<Level>, k: nat, x: Level)
    requires Ranked(ask, lv) && k <= |lv| && 0 < x.qty < WORD
    requires forall i :: 0 <= i < k ==> Better(ask, lv[i].price, x.price)
    requires forall i :: k <= i < |lv| ==> Better(ask, x.price, lv[i].price)
    ensures Ranked(ask, lv[..k] + [x] + lv[k..])
  {
    var wide := lv[..k] + [x] + lv[k..];
    assert forall i :: 0 <= i < |wide| ==> wide[i] == if i < k then lv[i] else if i == k then x else lv[i - 1];
    forall i, j | 0 <= i < j < |wide|
      ensures Better(ask, wide[i].price, wide[j].price)
    {
      if i == k {
        assert wide[j] == lv[j - 1];
      } else if j == k {
        assert wide[i] == lv[i];
      } else {
        var i', j' := if i < k then i else i - 1, if j < k then j else j - 1;
        assert wide[i] == lv[i'] && wide[j] == lv[j'];
      }
    }
  }

  lemma {:induction false} RemoveRanked(ask: bool, lv: seq<Level>, k: nat)
    requires Ranked(ask, lv) && k < |lv|
    ensures Ranked(ask, lv[..k] + lv[k + 1..])
  {
    var cut := lv[..k] + lv[k + 1..];
    assert forall i :: 0 <= i < |cut| ==> cut[i] == if i < k then lv[i] else lv[i + 1];
  }

  lemma {:induction false} CutRanked(ask: bool, lv: seq<Level>, cap: nat)
    requires Ranked(ask, lv) && cap <= |lv|
    ensures Ranked(ask, lv[..cap])
  {
  }

  lemma {:induction false} UpdateRanked(ask: bool, lv: seq<Level>, k: nat, q: nat)
    requires Ranked(ask, lv) && k < |lv| && 0 < q < WORD
    ensures Ranked(ask, lv[k := Level(lv[k].price, q)])
  {
    var up := lv[k := Level(lv[k].price, q)];
    assert forall i :: 0 <= i < |lv| ==> up[i].price == lv[i].price;
  }

  /** A non-zero change keeps the list strictly ranked and within capacity. */
  lemma {:induction false} AdjustKeepsRanked(lv: seq<Level>, cap: nat, ask: bool, price: nat, delta: int)
    requires Ranked(ask, lv) && |lv| <= cap
    requires -0x8000_0000 <= delta < 0x8000_0000
    requires delta != 0 || Holds(ask, lv, price)
    ensures Ranked(ask, Adjust(lv, cap, ask, price, delta))
  {
    hide Ranked, Rank;
    var k := Rank(ask, lv, price);
    if Holds(ask, lv, price) {
      if lv[k].qty + delta == 0 {
        RemoveRanked(ask, lv, k);
      } else if 0 < lv[k].qty + delta < WORD {
        UpdateRanked(ask, lv, k, lv[k].qty + delta);
      }
    } else if delta > 0 {
      RankSplitsAbsent(ask, lv, price);
      InsertRanked(ask, lv, k, Level(price, delta));
      var wide := lv[..k] + [Level(price, delta)] + lv[k..];
      CutRanked(ask, wide, if |wide| > cap then cap else |wide|);
    }
  }

  /** An absent price ranks between the better and the worse levels. */
  lemma {:induction false} RankSplitsAbsent(ask: bool, lv: seq<Level>, price: nat)
    requires Ranked(ask, lv) && !Holds(ask, lv, price)
    ensures forall i :: Rank(ask, lv, price) <= i < |lv| ==> Better(ask, price, lv[i].price)
  {
    RankSplits(ask, lv, price);
  }
}
