// The first-hot encoder: least set index of a vector, and the index of the
// last slot when nothing is set.
module FirstHot {

  function Pow2(n: nat): (r: nat)
    ensures r > 0
  {
    if n == 0 then 1 else 2 * Pow2(n - 1)
  }

  /** Reference meaning of the encoder, by a left-to-right search. */
  function FirstOne(v: seq<bool>): (r: nat)
    requires |v| > 0
    ensures r < |v|
    ensures true in v ==> v[r] && forall i :: 0 <= i < r ==> !v[i]
    ensures true !in v ==> r == |v| - 1
  {
    if v[0] || |v| == 1 then 0 else 1 + FirstOne(v[1..])
  }

  /** Some bit of v[lo..hi] is set. */
  ghost predicate AnyIn(v: seq<bool>, lo: int, hi: int) {
    exists i :: lo <= i < hi && 0 <= i < |v| && v[i]
  }

  /** The bits of block b, counted in blocks of 2^k bits. */
  ghost predicate AnyBlock(v: seq<bool>, k: nat, b: int) {
    AnyIn(v, b * Pow2(k), b * Pow2(k) + Pow2(k))
  }

  /** Block b of twice the size is the union of blocks 2b and 2b+1. */
  lemma {:induction false} BlockHalves(v: seq<bool>, k: nat, b: nat)
    ensures AnyBlock(v, k + 1, b) <==> AnyBlock(v, k, 2 * b) || AnyBlock(v, k, 2 * b + 1)
    ensures b * Pow2(k + 1) == 2 * b * Pow2(k)
    ensures (2 * b + 1) * Pow2(k) == 2 * b * Pow2(k) + Pow2(k)
  {
    var w := Pow2(k);
    assert Pow2(k + 1) == 2 * w;
    assert b * Pow2(k + 1) == 2 * b * w;
    assert (2 * b + 1) * w == 2 * b * w + w;
  }

  /** Where the search stands once the bits above k are decided. */
  ghost predicate Narrowed(v: seq<bool>, k: nat, b: nat) {
    && (true in v ==> b * Pow2(k) <= FirstOne(v) < b * Pow2(k) + Pow2(k))
    && (true !in v ==> b * Pow2(k) + Pow2(k) == |v|)
  }

  /** One decided bit: go right exactly when the left half is empty. */
  lemma {:induction false} NarrowOnce(v: seq<bool>, k: nat, b: nat)
    requires |v| > 0 && Narrowed(v, k + 1, b)
    requires b * Pow2(k + 1) + Pow2(k + 1) <= |v|
    ensures Narrowed(v, k, if AnyBlock(v, k, 2 * b) then 2 * b else 2 * b + 1)
  {
    BlockHalves(v, k, b);
  }

  /** A row of the tree: bit b tells whether block b of 2^k bits has a set bit. */
  ghost predicate RowOf(v: seq<bool>, k: nat, row: seq<bool>) {
    && |row| * Pow2(k) == |v|
    && forall b :: 0 <= b < |row| ==> (row[b] <==> AnyBlock(v, k, b))
  }

  /** One row up: the OR of neighbouring pairs. */
  method OrPairs(ghost v: seq<bool>, ghost k: nat, row: seq<bool>) returns (up: seq<bool>)
    requires RowOf(v, k, row) && |row| % 2 == 0
    ensures RowOf(v, k + 1, up) && |up| == |row| / 2
  {
    up := [];
    var i := 0;
    while i < |row| / 2
      invariant 0 <= i <= |row| / 2 && |up| == i
      invariant forall b :: 0 <= b < i ==> (up[b] <==> AnyBlock(v, k + 1, b))
    {
      BlockHalves(v, k, i);
      up := up + [row[2 * i] || row[2 * i + 1]];
      i := i + 1;
    }
    assert |up| * Pow2(k + 1) == |row| * Pow2(k);
  }

  /** All rows, from single bits to the two halves. */
  method BuildRows(v: seq<bool>, logp: nat) returns (rows: seq<seq<bool>>)
    requires logp > 0 && |v| == Pow2(logp)
    ensures |rows| == logp
    ensures forall k :: 0 <= k < logp ==> RowOf(v, k, rows[k])
  {
    rows := [v];
    assert forall b :: 0 <= b < |v| ==> (v[b] <==> AnyBlock(v, 0, b));
    var k := 0;
    while k < logp - 1
      invariant 0 <= k < logp && |rows| == k + 1
      invariant |rows[k]| == Pow2(logp - k)
      invariant forall j :: 0 <= j <= k ==> RowOf(v, j, rows[j])
    {
      assert Pow2(logp - k) == 2 * Pow2(logp - k - 1);
      var up := OrPairs(v, k, rows[k]);
      rows := rows + [up];
      k := k + 1;
    }
  }

  /** The tree encoder: OR rows bottom up, then one index bit per row top down. */
  method FirstOneTree(v: seq<bool>, logp: nat) returns (r: nat)
    requires logp > 0 && |v| == Pow2(logp)
    ensures r == FirstOne(v)
  {
    var rows := BuildRows(v, logp);
    r := 0;
    var blk: nat := 0;
    var k: nat := logp;
    while k > 0
      invariant 0 <= k <= logp
      invariant blk * Pow2(k) + Pow2(k) <= |v| && Narrowed(v, k, blk)
      invariant r == blk * Pow2(k)
    {
      BlockFits(|v|, Pow2(k - 1), |rows[k - 1]|, blk);
      NarrowOnce(v, k - 1, blk);
      BlockHalves(v, k - 1, blk);
      k := k - 1;
      if !rows[k][blk * 2] {
        r := r + Pow2(k);
        blk := blk * 2 + 1;
      } else {
        blk := blk * 2;
      }
    }
  }

  /** Both halves of a block that lies inside the vector are entries of the row below. */
  lemma {:induction false} BlockFits(size: nat, w: nat, rowLength: nat, blk: nat)
    requires w > 0 && rowLength * w == size && blk * (2 * w) + 2 * w <= size
    ensures 2 * blk + 1 < rowLength
  {
    calc {
      (2 * blk + 2) * w;
      blk * (2 * w) + 2 * w;
    }
    if rowLength < 2 * blk + 2 {
      MulGrows(rowLength, 2 * blk + 2, w);
    }
  }

  lemma {:induction false} MulGrows(a: nat, b: nat, w: nat)
    requires a < b && w > 0
    ensures a * w < b * w
  {
    assert b * w == a * w + (b - a) * w;
  }
}
