// What the slots of one side show of its true levels: a best-first beginning
// of them, and as long as nothing is lost the best of them all. Which changes
// keep this can be told from the slots and the levels before the change.
module ShownLevels {
  import opened Prices
  import opened LevelPipeline
  import opened TopOfBook
  import opened Engine

  /** The slots are a list of levels, a best-first beginning of the true ones with
      exact quantities; with top, no level is missing from a list with room. */
  ghost predicate ListShows(lv: seq<Level>, side: seq<Level>, m: Levels, ask: bool, top: bool) {
    && |lv| <= |side| && side == Pad(lv, |side|) && Prefix(ask, lv, m)
    && (top ==> |lv| == |side| || Complete(lv, m))
  }

  ghost predicate SideShows(side: seq<Level>, m: Levels, ask: bool, top: bool) {
    (forall q :: q in m ==> 0 < m[q] < WORD) && exists lv: seq<Level> :: ListShows(lv, side, m, ask, top)
  }

  // ---- seen from the slots ----

  /** Some slot carries the price. */
  predicate Carried(side: seq<Level>, price: nat) {
    exists i :: 0 <= i < |side| && side[i].qty != 0 && side[i].price == price
  }

  ghost predicate Missing(side: seq<Level>, m: Levels, q: nat) {
    q in m && !Carried(side, q)
  }

  /** A listed level empties while another level is missing. */
  ghost predicate Loses(side: seq<Level>, m: Levels, price: nat, delta: int) {
    Carried(side, price) && Total(m, price) + delta == 0 && exists q :: Missing(side, m, q)
  }

  /** A level enters a list with room at or behind a missing one. */
  ghost predicate ReEnters(side: seq<Level>, m: Levels, ask: bool, price: nat, delta: int) {
    && delta > 0 && side != [] && side[|side| - 1].qty == 0 && !Carried(side, price)
    && exists q :: Missing(side, m, q) && !Better(ask, price, q)
  }

  /** A level enters ahead of every missing one. */
  ghost predicate Refills(side: seq<Level>, m: Levels, ask: bool, price: nat) {
    !Carried(side, price) && forall q :: Missing(side, m, q) ==> Better(ask, price, q)
  }

  lemma {:induction false} CarriedIsIn(ask: bool, lv: seq<Level>, cap: nat)
    requires Ranked(ask, lv) && |lv| <= cap
    ensures forall q :: Carried(Pad(lv, cap), q) <==> In(lv, q)
  {
    var side := Pad(lv, cap);
    assert forall i :: 0 <= i < |lv| ==> side[i] == lv[i];
  }

  /** A list is determined by its slots. */
  lemma {:induction false} PadDetermines(ask: bool, a: seq<Level>, b: seq<Level>, cap: nat)
    requires Ranked(ask, a) && Ranked(ask, b) && |a| <= cap && |b| <= cap && Pad(a, cap) == Pad(b, cap)
    ensures a == b
  {
    var side := Pad(a, cap);
    assert forall i :: 0 <= i < cap ==> (side[i].qty != 0 <==> i < |a|);
    assert forall i :: 0 <= i < cap ==> (side[i].qty != 0 <==> i < |b|);
    assert |a| < cap ==> side[|a|].qty == 0;
    assert |b| < cap ==> side[|b|].qty == 0;
    assert a == side[..|a|] && b == side[..|b|];
  }

  // ---- one level operation ----

  /** What is asked of a change: both sides of it within 32 bits, and a zero change only
      of a listed level. */
  predicate Fits(side: seq<Level>, m: Levels, price: nat, delta: int) {
    && -0x8000_0000 <= delta < 0x8000_0000
    && 0 <= Total(m, price) + delta < WORD && (delta == 0 ==> Carried(side, price))
  }

  predicate Slots(side: seq<Level>) {
    0 < |side| < NO_SLOT && forall i :: 0 <= i < |side| ==> side[i].qty < WORD
  }

  lemma {:induction false} PrefixRanked(ask: bool, lv: seq<Level>, m: Levels)
    requires Prefix(ask, lv, m)
    ensures Ranked(ask, lv)
  {
  }

  /** The list behind the slots, and what an operation makes of it. */
  lemma {:induction false} OperatedList(side: seq<Level>, m: Levels, ask: bool, price: nat, delta: int, top: bool)
    returns (lv: seq<Level>, next: seq<Level>)
    requires Slots(side) && SideShows(side, m, ask, top) && Fits(side, m, price, delta)
    ensures ListShows(lv, side, m, ask, top) && Positive(m) && Admissible(lv, m, price, delta)
    ensures forall q :: Carried(side, q) <==> In(lv, q)
    ensures side[|side| - 1].qty == 0 <==> |lv| < |side|
    ensures next == Adjust(lv, |side|, ask, price, delta) && Ranked(ask, next)
    ensures LevelOp(side, ask, price, delta) == Pad(next, |side|)
  {
    lv :| ListShows(lv, side, m, ask, top);
    hide Prefix, LevelOp, Adjust;
    PrefixRanked(ask, lv, m);
    CarriedIsIn(ask, lv, |side|);
    LevelOpIsAdjust(lv, |side|, ask, price, delta);
    next := Adjust(lv, |side|, ask, price, delta);
    RankSplits(ask, lv, price);
    AdjustKeepsRanked(lv, |side|, ask, price, delta);
  }

  /** Whether slots show the levels is decided by the list behind them. */
  lemma {:induction false} ShownIff(lv: seq<Level>, cap: nat, m: Levels, ask: bool, top: bool)
    requires |lv| <= cap && Ranked(ask, lv) && forall q :: q in m ==> 0 < m[q] < WORD
    ensures SideShows(Pad(lv, cap), m, ask, top) <==> ListShows(lv, Pad(lv, cap), m, ask, top)
  {
    hide Prefix, Ranked, Complete, Pad;
    var side := Pad(lv, cap);
    if SideShows(side, m, ask, top) {
      var other: seq<Level> :| ListShows(other, side, m, ask, top);
      PrefixRanked(ask, other, m);
      PadDetermines(ask, lv, other, cap);
    }
  }

  /** One operation on slots that show a beginning: they still do if and only if no
      level enters a list with room at or behind a missing one. */
  lemma {:induction false} BeginningKeptIff(side: seq<Level>, m: Levels, ask: bool, price: nat, delta: int)
    requires Slots(side) && SideShows(side, m, ask, false) && Fits(side, m, price, delta)
    ensures SideShows(LevelOp(side, ask, price, delta), Bump(m, price, delta), ask, false)
            <==> !ReEnters(side, m, ask, price, delta)
  {
    hide Prefix, Adjust, LevelOp, Pad, Carried, Ranked, In;
    var lv, next := OperatedList(side, m, ask, price, delta, false);
    PrefixStep(ask, lv, m, |side|, price, delta);
    ShownIff(next, |side|, Bump(m, price, delta), ask, false);
    assert forall q :: Missing(side, m, q) <==> Dropped(lv, m, q);
  }

  /** One operation on slots that show the best levels: they still do if and only if no
      listed level empties while another is missing. */
  lemma {:induction false} TopKeptIff(side: seq<Level>, m: Levels, ask: bool, price: nat, delta: int)
    requires Slots(side) && SideShows(side, m, ask, true) && Fits(side, m, price, delta)
    ensures SideShows(LevelOp(side, ask, price, delta), Bump(m, price, delta), ask, true)
            <==> !Loses(side, m, price, delta)
  {
    hide Prefix, Adjust, LevelOp, Pad, Carried, Ranked, In;
    var lv, next := OperatedList(side, m, ask, price, delta, true);
    FullTopStep(ask, lv, m, |side|, price, delta);
    ShownIff(next, |side|, Bump(m, price, delta), ask, true);
    assert forall q :: Missing(side, m, q) <==> Dropped(lv, m, q);
  }

  /** A list that has lost one level shows the best levels again if and only if the
      next level enters ahead of every missing one. */
  lemma {:induction false} TopRegainedIff(side: seq<Level>, m: Levels, ask: bool, price: nat, delta: int)
    requires Slots(side) && SideShows(side, m, ask, false) && Fits(side, m, price, delta) && delta > 0
    requires side[|side| - 1].qty == 0 && (|side| > 1 ==> side[|side| - 2].qty != 0) && exists q :: Missing(side, m, q)
    ensures SideShows(LevelOp(side, ask, price, delta), Bump(m, price, delta), ask, true)
            <==> Refills(side, m, ask, price)
  {
    var lv, next := OperatedList(side, m, ask, price, delta, false);
    assert |lv| == |side| - 1;
    hide Prefix, Adjust, LevelOp, Pad, Carried, Ranked, In;
    assert forall q :: Missing(side, m, q) <==> Dropped(lv, m, q);
    RefillStep(ask, lv, m, |side|, price, delta);
    ShownIff(next, |side|, Bump(m, price, delta), ask, true);
  }

  /** Losing a level leaves the list one short of full, with the same levels missing. */
  lemma {:induction false} LossLeavesRoom(side: seq<Level>, m: Levels, ask: bool, price: nat, delta: int)
    requires Slots(side) && SideShows(side, m, ask, true) && Fits(side, m, price, delta) && Loses(side, m, price, delta)
    ensures
      var after, left := LevelOp(side, ask, price, delta), Bump(m, price, delta);
      && after[|side| - 1].qty == 0 && (|side| > 1 ==> after[|side| - 2].qty != 0)
      && exists q :: Missing(after, left, q)
  {
    var lv, next := OperatedList(side, m, ask, price, delta, true);
    var q :| Missing(side, m, q);
    assert Dropped(lv, m, q);
    FullTopStep(ask, lv, m, |side|, price, delta);
    HeldStep(ask, lv, m, |side|, price, delta);
    assert |next| == |side| - 1;
    CarriedIsIn(ask, next, |side|);
    assert Missing(Pad(next, |side|), Bump(m, price, delta), q);
  }

  /** What a change must not do, if the slots are to go on showing what they show. */
  ghost predicate Stays(side: seq<Level>, m: Levels, ask: bool, price: nat, delta: int, top: bool) {
    if top then !Loses(side, m, price, delta) else !ReEnters(side, m, ask, price, delta)
  }

  lemma {:induction false} StaysIff(side: seq<Level>, m: Levels, ask: bool, price: nat, delta: int, top: bool)
    requires Slots(side) && SideShows(side, m, ask, top) && Fits(side, m, price, delta)
    ensures SideShows(LevelOp(side, ask, price, delta), Bump(m, price, delta), ask, top)
            <==> Stays(side, m, ask, price, delta, top)
  {
    hide SideShows, Fits, LevelOp, Bump, Loses, ReEnters;
    if top {
      TopKeptIff(side, m, ask, price, delta);
    } else {
      BeginningKeptIff(side, m, ask, price, delta);
    }
  }

  /** Lowering a level never enters one, so a beginning stays one. */
  lemma {:induction false} LoweringStays(side: seq<Level>, m: Levels, ask: bool, price: nat, delta: int)
    requires Slots(side) && SideShows(side, m, ask, false) && Fits(side, m, price, delta) && delta <= 0
    ensures SideShows(LevelOp(side, ask, price, delta), Bump(m, price, delta), ask, false)
  {
    BeginningKeptIff(side, m, ask, price, delta);
  }

  /** The best levels are a beginning. */
  lemma {:induction false} TopIsBeginning(side: seq<Level>, m: Levels, ask: bool)
    requires SideShows(side, m, ask, true)
    ensures SideShows(side, m, ask, false)
  {
    var lv: seq<Level> :| ListShows(lv, side, m, ask, true);
    assert ListShows(lv, side, m, ask, false);
  }

  /** A replace changes one side twice: a level lowered, then one raised. What the slots
      show at the end if and only if what the first half loses the second one makes
      good, or nothing enters behind a missing level. */
  lemma {:induction false} HalvesShowIff(side: seq<Level>, m: Levels, ask: bool, gone: nat, down: int, price: nat,
                                         shares: nat, top: bool)
    requires Slots(side) && SideShows(side, m, ask, top) && down < 0 && Fits(side, m, gone, down)
    requires 0 < shares < 0x8000_0000 && Total(Bump(m, gone, down), price) + shares < WORD
    ensures
      var between, left := LevelOp(side, ask, gone, down), Bump(m, gone, down);
      && Slots(between) && |between| == |side| && SideShows(between, left, ask, false)
      && (SideShows(LevelOp(between, ask, price, shares), Bump(left, price, shares), ask, top)
          <==> if top then Loses(side, m, gone, down) ==> Refills(between, left, ask, price)
               else !ReEnters(between, left, ask, price, shares))
  {
    hide SideShows, LevelOp, Bump, ReEnters, Refills, Carried;
    var between, left := LevelOp(side, ask, gone, down), Bump(m, gone, down);
    LevelOpBounded(side, ask, gone, down);
    if top {
      TopIsBeginning(side, m, ask);
    }
    LoweringStays(side, m, ask, gone, down);
    if !top {
      BeginningKeptIff(between, left, ask, price, shares);
    } else if Loses(side, m, gone, down) {
      LossLeavesRoom(side, m, ask, gone, down);
      TopRegainedIff(between, left, ask, price, shares);
    } else {
      TopKeptIff(side, m, ask, gone, down);
      TopKeptIff(between, left, ask, price, shares);
    }
  }

  // ---- within capacity ----

  /** As many slots as levels: nothing is missing, so nothing is lost. */
  lemma {:induction false} NothingMissing(side: seq<Level>, m: Levels, ask: bool)
    requires SideShows(side, m, ask, true) && |m| <= |side|
    ensures forall q :: !Missing(side, m, q)
    ensures forall price, delta :: Stays(side, m, ask, price, delta, true)
  {
    var lv: seq<Level> :| ListShows(lv, side, m, ask, true);
    CarriedIsIn(ask, lv, |side|);
    if q :| Missing(side, m, q) {
      assert Dropped(lv, m, q);
      SizeOfPrefix(ask, lv, m);
    }
  }

  // ---- the best price ----

  /** What the slots show as the best level. */
  ghost predicate ShowsBest(side: seq<Level>, m: Levels, ask: bool)
    requires |side| > 0
  {
    Selected(side) == if Best(m, ask).None? then VACANT else Level(Best(m, ask).value, m[Best(m, ask).value])
  }

  /** The first occupied slot is the true best level if and only if there is an occupied
      slot or no level at all. */
  lemma {:induction false} BestShownIff(side: seq<Level>, m: Levels, ask: bool)
    requires |side| > 0 && SideShows(side, m, ask, false)
    ensures ShowsBest(side, m, ask) <==> side[0].qty != 0 || m == map[]
  {
    var lv: seq<Level> :| ListShows(lv, side, m, ask, false);
    if lv == [] {
      NoneSet(Occupied(side));
      assert side[0] == VACANT;
    } else {
      FirstSetIs(Occupied(side), 0);
      BestIsFirst(ask, lv, m);
    }
  }

  lemma {:induction false} BestIsFirst(ask: bool, lv: seq<Level>, m: Levels)
    requires Prefix(ask, lv, m) && lv != []
    ensures Best(m, ask) == Some(lv[0].price) && m[lv[0].price] == lv[0].qty
  {
    forall q | q in m
      ensures !Better(ask, q, lv[0].price)
    {
      if In(lv, q) {
        var i :| 0 <= i < |lv| && lv[i].price == q;
        assert i > 0 ==> Better(ask, lv[0].price, lv[i].price);
      } else {
        assert Dropped(lv, m, q);
      }
    }
    BestIsUnique(m, ask, lv[0].price);
  }

  /** Slots that show the best levels show the best one. */
  lemma {:induction false} TopShowsBest(side: seq<Level>, m: Levels, ask: bool)
    requires |side| > 0 && SideShows(side, m, ask, true)
    ensures ShowsBest(side, m, ask)
  {
    var lv: seq<Level> :| ListShows(lv, side, m, ask, true);
    TopIsBeginning(side, m, ask);
    BestShownIff(side, m, ask);
    if lv == [] {
      assert forall q :: q in m ==> Dropped(lv, m, q);
    }
  }
}
