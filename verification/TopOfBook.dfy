// The bounded level list against the unbounded map of levels: through
// push-outs and discards the list stays a best-first prefix of the map, and
// the exact operations that end this are identified.
module TopOfBook {
  import opened LevelPipeline
  import opened Prices

  predicate In(lv: seq<Level>, price: nat) {
    exists i :: 0 <= i < |lv| && lv[i].price == price
  }

  /** A level of the map that the list does not carry. */
  predicate Dropped(lv: seq<Level>, m: Levels, price: nat) {
    price in m && !In(lv, price)
  }

  /** The list is the best-first beginning of the map, with exact quantities. */
  ghost predicate Prefix(ask: bool, lv: seq<Level>, m: Levels) {
    && Ranked(ask, lv)
    && (forall i :: 0 <= i < |lv| ==> lv[i].price in m && m[lv[i].price] == lv[i].qty)
    && (forall q, i :: Dropped(lv, m, q) && 0 <= i < |lv| ==> Better(ask, lv[i].price, q))
  }

  ghost predicate Complete(lv: seq<Level>, m: Levels) {
    forall q :: !Dropped(lv, m, q)
  }

  /** The list carries the best cap levels, or all of them. */
  ghost predicate FullTop(ask: bool, lv: seq<Level>, m: Levels, cap: nat) {
    Prefix(ask, lv, m) && (|lv| == cap || Complete(lv, m))
  }

  /** A change the environment may request: never below zero, never past 32 bits,
      and not a zero change of a level that the list does not carry. */
  predicate Admissible(lv: seq<Level>, m: Levels, price: nat, delta: int) {
    && -0x8000_0000 <= delta < 0x8000_0000
    && 0 <= Total(m, price) + delta < WORD
    && (delta == 0 ==> In(lv, price))
  }

  /** An add enters a list with room at or behind a price that the list has dropped. */
  ghost predicate ReEntry(ask: bool, lv: seq<Level>, m: Levels, cap: nat, price: nat, delta: int) {
    && delta > 0 && |lv| < cap && !In(lv, price)
    && exists q :: Dropped(lv, m, q) && !Better(ask, price, q)
  }

  lemma {:induction false} InInsert(lv: seq<Level>, k: nat, x: Level, q: nat)
    requires k <= |lv|
    ensures In(lv[..k] + [x] + lv[k..], q) <==> q == x.price || In(lv, q)
  {
    var wide := lv[..k] + [x] + lv[k..];
    assert wide[k] == x;
    forall i | 0 <= i < |lv| && lv[i].price == q
      ensures In(wide, q)
    {
      assert wide[if i < k then i else i + 1] == lv[i];
    }
    forall i | 0 <= i < |wide| && i != k
      ensures wide[i] == lv[if i < k then i else i - 1]
    {
    }
  }

  lemma {:induction false} InRemove(ask: bool, lv: seq<Level>, k: nat, q: nat)
    requires Ranked(ask, lv) && k < |lv|
    ensures In(lv[..k] + lv[k + 1..], q) <==> q != lv[k].price && In(lv, q)
  {
    var cut := lv[..k] + lv[k + 1..];
    forall i | 0 <= i < |lv| && i != k
      ensures lv[i] == cut[if i < k then i else i - 1] && lv[i].price != lv[k].price
    {
      assert Better(ask, lv[if i < k then i else k].price, lv[if i < k then k else i].price);
    }
    forall i | 0 <= i < |cut|
      ensures cut[i] == lv[if i < k then i else i + 1]
    {
    }
  }

  lemma {:induction false} HeldRemove(ask: bool, lv: seq<Level>, m: Levels, k: nat)
    requires Prefix(ask, lv, m) && k < |lv|
    ensures Prefix(ask, lv[..k] + lv[k + 1..], m - {lv[k].price})
    ensures forall q :: Dropped(lv[..k] + lv[k + 1..], m - {lv[k].price}, q) <==> Dropped(lv, m, q)
  {
    var cut := lv[..k] + lv[k + 1..];
    RemoveRanked(ask, lv, k);
    forall q
      ensures In(cut, q) <==> q != lv[k].price && In(lv, q)
    {
      InRemove(ask, lv, k, q);
    }
    forall i | 0 <= i < |cut|
      ensures cut[i] == lv[if i < k then i else i + 1] && cut[i].price != lv[k].price
    {
      assert In(cut, cut[i].price);
    }
    assert In(lv, lv[k].price);
    forall q
      ensures Dropped(cut, m - {lv[k].price}, q) <==> Dropped(lv, m, q)
    {
      assert In(cut, q) <==> q != lv[k].price && In(lv, q);
    }
  }

  lemma {:induction false} HeldUpdate(ask: bool, lv: seq<Level>, m: Levels, k: nat, q: nat)
    requires Prefix(ask, lv, m) && k < |lv| && 0 < q < WORD
    ensures Prefix(ask, lv[k := Level(lv[k].price, q)], m[lv[k].price := q])
    ensures forall p :: Dropped(lv[k := Level(lv[k].price, q)], m[lv[k].price := q], p) <==> Dropped(lv, m, p)
  {
    var up := lv[k := Level(lv[k].price, q)];
    assert forall i :: 0 <= i < |lv| ==> up[i].price == lv[i].price;
    forall p
      ensures In(up, p) <==> In(lv, p)
    {
      if In(lv, p) {
        var i :| 0 <= i < |lv| && lv[i].price == p;
        assert up[i].price == p;
      }
    }
    assert In(lv, lv[k].price);
    forall i | 0 <= i < |lv| && i != k
      ensures lv[i].price != lv[k].price
    {
      assert Better(ask, lv[if i < k then i else k].price, lv[if i < k then k else i].price);
    }
    forall p
      ensures Dropped(up, m[lv[k].price := q], p) <==> Dropped(lv, m, p)
    {
      assert In(up, p) <==> In(lv, p);
    }
    forall p, i | Dropped(up, m[lv[k].price := q], p) && 0 <= i < |up|
      ensures Better(ask, up[i].price, p)
    {
      assert Dropped(lv, m, p);
    }
    assert Ranked(ask, up);
  }

  lemma {:induction false} CarriedExactly(ask: bool, lv: seq<Level>, m: Levels, k: nat)
    requires Prefix(ask, lv, m) && k < |lv|
    ensures lv[k].price in m && m[lv[k].price] == lv[k].qty
  {
  }

  /** A change at a carried price is exact and drops nothing. */
  lemma {:induction false} HeldStep(ask: bool, lv: seq<Level>, m: Levels, cap: nat, price: nat, delta: int)
    requires Prefix(ask, lv, m) && |lv| <= cap && Admissible(lv, m, price, delta)
    requires Holds(ask, lv, price)
    ensures Prefix(ask, Adjust(lv, cap, ask, price, delta), Bump(m, price, delta))
    ensures forall q :: Dropped(Adjust(lv, cap, ask, price, delta), Bump(m, price, delta), q) <==> Dropped(lv, m, q)
    ensures |Adjust(lv, cap, ask, price, delta)| == |lv| - if Total(m, price) + delta == 0 then 1 else 0
  {
    hide Prefix, Dropped, In, Rank;
    var k := Rank(ask, lv, price);
    CarriedExactly(ask, lv, m, k);
    if lv[k].qty + delta == 0 {
      HeldRemove(ask, lv, m, k);
      assert Bump(m, price, delta) == m - {price};
    } else {
      HeldUpdate(ask, lv, m, k, lv[k].qty + delta);
    }
  }

  /** A change at a price that stays outside the list touches only dropped levels. */
  lemma {:induction false} OutsideStep(ask: bool, lv: seq<Level>, m: Levels, price: nat, delta: int)
    requires Prefix(ask, lv, m) && !In(lv, price) && 0 <= Total(m, price) + delta
    requires price in m || forall i :: 0 <= i < |lv| ==> Better(ask, lv[i].price, price)
    ensures Prefix(ask, lv, Bump(m, price, delta))
  {
    forall i | 0 <= i < |lv|
      ensures lv[i].price != price
    {
      assert In(lv, lv[i].price);
    }
    forall q, i | Dropped(lv, Bump(m, price, delta), q) && 0 <= i < |lv|
      ensures Better(ask, lv[i].price, q)
    {
      assert q != price ==> Dropped(lv, m, q);
      assert price in m ==> Dropped(lv, m, price);
    }
  }

  /** A fresh price enters; nothing else changes its place in or out of the list. */
  lemma {:induction false} EnterDrops(ask: bool, lv: seq<Level>, m: Levels, k: nat, x: Level)
    requires k <= |lv|
    ensures forall q :: Dropped(lv[..k] + [x] + lv[k..], m[x.price := x.qty], q) <==> q != x.price && Dropped(lv, m, q)
  {
    forall q
      ensures Dropped(lv[..k] + [x] + lv[k..], m[x.price := x.qty], q) <==> q != x.price && Dropped(lv, m, q)
    {
      InInsert(lv, k, x, q);
    }
  }

  /** A fresh price enters and every dropped level is behind it. */
  lemma {:induction false} EnterStep(ask: bool, lv: seq<Level>, m: Levels, k: nat, x: Level)
    requires Prefix(ask, lv, m) && 0 < x.qty < WORD
    requires k == Rank(ask, lv, x.price) && x.price !in m
    requires forall q :: Dropped(lv, m, q) ==> Better(ask, x.price, q)
    ensures Prefix(ask, lv[..k] + [x] + lv[k..], m[x.price := x.qty])
  {
    hide In, Rank;
    var wide := lv[..k] + [x] + lv[k..];
    RankSplits(ask, lv, x.price);
    InsertRanked(ask, lv, k, x);
    EnterDrops(ask, lv, m, k, x);
    forall i | 0 <= i < |wide|
      ensures wide[i] == if i < k then lv[i] else if i == k then x else lv[i - 1]
    {
    }
    forall q, i | Dropped(wide, m[x.price := x.qty], q) && 0 <= i < |wide|
      ensures Better(ask, wide[i].price, q)
    {
      assert Dropped(lv, m, q);
    }
  }

  lemma {:induction false} InInit(lv: seq<Level>, q: nat)
    requires |lv| > 0 && In(lv, q)
    ensures In(lv[..|lv| - 1], q) || lv[|lv| - 1].price == q
  {
    var j :| 0 <= j < |lv| && lv[j].price == q;
    if j < |lv| - 1 {
      assert lv[..|lv| - 1][j].price == q;
    }
  }

  /** Cutting the worst level keeps the prefix; only that level is newly dropped. */
  lemma {:induction false} CutStep(ask: bool, lv: seq<Level>, m: Levels)
    requires Prefix(ask, lv, m) && |lv| > 0
    ensures Prefix(ask, lv[..|lv| - 1], m)
  {
    var n := |lv| - 1;
    var cut := lv[..n];
    forall q, i | Dropped(cut, m, q) && 0 <= i < n
      ensures Better(ask, cut[i].price, q)
    {
      if In(lv, q) {
        InInit(lv, q);
      } else {
        assert Dropped(lv, m, q);
      }
    }
  }

  /** A positive change at a price outside a full list: discarded, or a push-out. */
  lemma {:induction false} FullListStep(ask: bool, lv: seq<Level>, m: Levels, cap: nat, price: nat, delta: int)
    requires Prefix(ask, lv, m) && |lv| == cap > 0 && Admissible(lv, m, price, delta)
    requires !Holds(ask, lv, price) && delta > 0
    ensures Prefix(ask, Adjust(lv, cap, ask, price, delta), Bump(m, price, delta))
    ensures |Adjust(lv, cap, ask, price, delta)| == cap
  {
    hide Rank, Ranked;
    var k := Rank(ask, lv, price);
    RankSplits(ask, lv, price);
    assert !In(lv, price);
    if k == cap {
      OutsideStep(ask, lv, m, price, delta);
    } else {
      assert Better(ask, price, lv[k].price);
      assert price in m ==> Dropped(lv, m, price);
      forall q | Dropped(lv, m, q)
        ensures Better(ask, price, q)
      {
        assert Better(ask, lv[k].price, q);
      }
      EnterStep(ask, lv, m, k, Level(price, delta));
      CutStep(ask, lv[..k] + [Level(price, delta)] + lv[k..], Bump(m, price, delta));
    }
  }

  /** Entering at or behind a dropped price leaves a list that is no prefix. */
  lemma {:induction false} EnterBehindDropped(ask: bool, lv: seq<Level>, m: Levels, k: nat, x: Level, q: nat)
    requires k <= |lv| && !In(lv, x.price) && Dropped(lv, m, q) && !Better(ask, x.price, q) && m[q] > 0
    ensures !Prefix(ask, lv[..k] + [x] + lv[k..], Bump(m, x.price, x.qty))
  {
    var wide := lv[..k] + [x] + lv[k..];
    assert wide[k] == x;
    InInsert(lv, k, x, q);
    assert q != x.price ==> Dropped(wide, Bump(m, x.price, x.qty), q);
  }

  /** A positive change at a price outside a list with room: exact unless it is a re-entry. */
  lemma {:induction false} RoomStep(ask: bool, lv: seq<Level>, m: Levels, cap: nat, price: nat, delta: int)
    requires Prefix(ask, lv, m) && Positive(m) && |lv| < cap && Admissible(lv, m, price, delta)
    requires !Holds(ask, lv, price) && delta > 0
    ensures |Adjust(lv, cap, ask, price, delta)| == |lv| + 1
    ensures ReEntry(ask, lv, m, cap, price, delta) ==>
              !Prefix(ask, Adjust(lv, cap, ask, price, delta), Bump(m, price, delta))
    ensures !ReEntry(ask, lv, m, cap, price, delta) ==>
              Prefix(ask, Adjust(lv, cap, ask, price, delta), Bump(m, price, delta))
    ensures !ReEntry(ask, lv, m, cap, price, delta) && Complete(lv, m) ==>
              Complete(Adjust(lv, cap, ask, price, delta), Bump(m, price, delta))
  {
    hide Rank;
    var k := Rank(ask, lv, price);
    var x := Level(price, delta);
    var wide := lv[..k] + [x] + lv[k..];
    RankSplits(ask, lv, price);
    assert !In(lv, price);
    assert wide[k] == x;
    if exists q :: Dropped(lv, m, q) && !Better(ask, price, q) {
      var q :| Dropped(lv, m, q) && !Better(ask, price, q);
      EnterBehindDropped(ask, lv, m, k, x, q);
    } else {
      assert price in m ==> Dropped(lv, m, price);
      EnterStep(ask, lv, m, k, x);
      EnterDrops(ask, lv, m, k, x);
      if Complete(lv, m) {
        forall q
          ensures !Dropped(wide, Bump(m, price, delta), q)
        {
          assert !Dropped(lv, m, q);
        }
      }
    }
  }

  /** One operation: the list is still a prefix of the map exactly when it was no re-entry. */
  lemma {:induction false} PrefixStep(ask: bool, lv: seq<Level>, m: Levels, cap: nat, price: nat, delta: int)
    requires Prefix(ask, lv, m) && Positive(m) && |lv| <= cap && cap > 0 && Admissible(lv, m, price, delta)
    ensures Prefix(ask, Adjust(lv, cap, ask, price, delta), Bump(m, price, delta))
            <==> !ReEntry(ask, lv, m, cap, price, delta)
  {
    RankSplits(ask, lv, price);
    if Holds(ask, lv, price) {
      HeldStep(ask, lv, m, cap, price, delta);
    } else if delta < 0 {
      OutsideStep(ask, lv, m, price, delta);
    } else if |lv| == cap {
      FullListStep(ask, lv, m, cap, price, delta);
    } else {
      RoomStep(ask, lv, m, cap, price, delta);
    }
  }

  /** One operation on the full best-cap list: it stays full unless a carried level
      empties while a dropped one exists. */
  lemma {:induction false} FullTopStep(ask: bool, lv: seq<Level>, m: Levels, cap: nat, price: nat, delta: int)
    requires FullTop(ask, lv, m, cap) && Positive(m) && |lv| <= cap && cap > 0 && Admissible(lv, m, price, delta)
    ensures FullTop(ask, Adjust(lv, cap, ask, price, delta), Bump(m, price, delta), cap)
            <==> !(In(lv, price) && Total(m, price) + delta == 0 && !Complete(lv, m))
  {
    var lv', m' := Adjust(lv, cap, ask, price, delta), Bump(m, price, delta);
    PrefixStep(ask, lv, m, cap, price, delta);
    RankSplits(ask, lv, price);
    if Holds(ask, lv, price) {
      HeldStep(ask, lv, m, cap, price, delta);
    } else if delta < 0 {
      assert Dropped(lv, m, price);
    } else if |lv| == cap {
      FullListStep(ask, lv, m, cap, price, delta);
    } else {
      RoomStep(ask, lv, m, cap, price, delta);
    }
  }

  /** A list one level short of full, with levels dropped: an add makes it the best cap
      levels again exactly when it enters ahead of every dropped one. */
  lemma {:induction false} RefillStep(ask: bool, lv: seq<Level>, m: Levels, cap: nat, price: nat, delta: int)
    requires Prefix(ask, lv, m) && Positive(m) && |lv| + 1 == cap && Admissible(lv, m, price, delta) && delta > 0
    requires exists q :: Dropped(lv, m, q)
    ensures FullTop(ask, Adjust(lv, cap, ask, price, delta), Bump(m, price, delta), cap)
            <==> !In(lv, price) && forall q :: Dropped(lv, m, q) ==> Better(ask, price, q)
  {
    RankSplits(ask, lv, price);
    if Holds(ask, lv, price) {
      HeldStep(ask, lv, m, cap, price, delta);
    } else {
      RoomStep(ask, lv, m, cap, price, delta);
    }
  }

  /** A list that drops a level has fewer slots in use than there are levels. */
  lemma {:induction false} SizeOfPrefix(ask: bool, lv: seq<Level>, m: Levels)
    requires Prefix(ask, lv, m) && exists q :: Dropped(lv, m, q)
    ensures |lv| < |m|
  {
    var q :| Dropped(lv, m, q);
    if lv == [] {
      assert q in m;
    } else {
      CarriedExactly(ask, lv, m, 0);
      hide Prefix, Dropped;
      HeldRemove(ask, lv, m, 0);
      assert lv[..0] + lv[1..] == lv[1..];
      assert Dropped(lv[1..], m - {lv[0].price}, q);
      SizeOfPrefix(ask, lv[1..], m - {lv[0].price});
      assert m.Keys == (m - {lv[0].price}).Keys + {lv[0].price};
    }
  }

  /** Within capacity nothing is ever dropped: the list is the whole map, ranked. */
  lemma {:induction false} WithinCapacityStep(ask: bool, lv: seq<Level>, m: Levels, cap: nat, price: nat, delta: int)
    requires Prefix(ask, lv, m) && Complete(lv, m) && Positive(m) && |lv| <= cap && cap > 0
    requires Admissible(lv, m, price, delta) && |Bump(m, price, delta)| <= cap
    ensures
      var lv' := Adjust(lv, cap, ask, price, delta);
      Prefix(ask, lv', Bump(m, price, delta)) && Complete(lv', Bump(m, price, delta))
  {
    RankSplits(ask, lv, price);
    if Holds(ask, lv, price) {
      HeldStep(ask, lv, m, cap, price, delta);
    } else {
      assert !Dropped(lv, m, price);
      SizeOfComplete(ask, lv, m);
      RoomStep(ask, lv, m, cap, price, delta);
    }
  }

  /** A complete ranked list has one slot per level of the map. */
  lemma {:induction false} SizeOfComplete(ask: bool, lv: seq<Level>, m: Levels)
    requires Prefix(ask, lv, m) && Complete(lv, m)
    ensures |lv| == |m|
  {
    if lv == [] {
      assert m == map[] by {
        if q :| q in m { assert Dropped(lv, m, q); }
      }
    } else {
      HeldRemove(ask, lv, m, 0);
      assert lv[..0] + lv[1..] == lv[1..];
      forall q
        ensures !Dropped(lv[1..], m - {lv[0].price}, q)
      {
        assert !Dropped(lv, m, q);
      }
      SizeOfComplete(ask, lv[1..], m - {lv[0].price});
      assert m.Keys == (m - {lv[0].price}).Keys + {lv[0].price};
    }
  }
}
