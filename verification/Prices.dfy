// Price order on the two sides, and aggregated levels as maps from price to quantity.
module Prices {

  datatype Option<+T> = None | Some(value: T)

  /** Unbounded aggregated levels of one side: price to total quantity. */
  type Levels = map<nat, nat>

  /** Price a ranks strictly before price b on the given side. */
  predicate Better(ask: bool, a: nat, b: nat) {
    if ask then a < b else a > b
  }

  function Total(m: Levels, price: nat): nat {
    if price in m then m[price] else 0
  }

  predicate Positive(m: Levels) {
    forall q :: q in m ==> 0 < m[q]
  }

  /** The level map after a change of quantity at one price; an empty level does not exist. */
  function Bump(m: Levels, price: nat, delta: int): (r: Levels)
    requires Total(m, price) + delta >= 0
    ensures forall q: nat :: Total(r, q) == Total(m, q) + if q == price then delta else 0
    ensures Positive(m) ==> Positive(r)
  {
    if Total(m, price) + delta == 0 then m - {price} else m[price := Total(m, price) + delta]
  }

  /** Positive level maps are determined by their totals. */
  lemma {:induction false} SameTotals(m: Levels, n: Levels)
    requires Positive(m) && Positive(n)
    requires forall q: nat :: Total(m, q) == Total(n, q)
    ensures m == n
  {
    forall q: nat
      ensures q in m <==> q in n
      ensures q in m ==> m[q] == n[q]
    {
      assert Total(m, q) == Total(n, q);
    }
    assert forall q :: q in m ==> q in n;
    assert forall q :: q in n ==> q in m;
  }

  predicate IsBest(m: Levels, ask: bool, p: nat) {
    p in m && forall q :: q in m ==> !Better(ask, q, p)
  }

  lemma {:induction false} BestExists(m: Levels, ask: bool)
    requires m != map[]
    ensures exists p :: IsBest(m, ask, p)
    decreases |m|
  {
    var p :| p in m;
    if m - {p} == map[] {
      assert forall q :: q in m && q != p ==> q in m - {p};
      assert IsBest(m, ask, p);
    } else {
      BestExists(m - {p}, ask);
      var b :| IsBest(m - {p}, ask, b);
      assert forall q :: q in m && q != p ==> q in m - {p};
      assert IsBest(m, ask, if Better(ask, p, b) then p else b);
    }
  }

  /** The best price: highest bid, lowest ask. */
  ghost function Best(m: Levels, ask: bool): (r: Option<nat>)
    ensures r.None? <==> m == map[]
    ensures r.Some? ==> IsBest(m, ask, r.value)
  {
    if m == map[] then None
    else
      BestExists(m, ask);
      var p :| IsBest(m, ask, p);
      Some(p)
  }

  lemma {:induction false} BestIsUnique(m: Levels, ask: bool, p: nat)
    requires IsBest(m, ask, p)
    ensures Best(m, ask) == Some(p)
  {
    var b := Best(m, ask).value;
    assert !Better(ask, p, b) && !Better(ask, b, p);
  }
}
