// The parser's byte queue as the hardware holds it: one wide register with the
// oldest byte on top, changed by shifts and by joining the new bytes below.
module QueueRegister {
  import opened Bytes
  import opened ItchParser

  /** The register of the given width in bytes that holds these valid bytes. */
  function Register(width: nat, q: seq<byte>): (n: nat)
    requires |q| <= width
    ensures n < Pow256(width)
  {
    BigEndian(q + Zeros(width - |q|))
  }

  /** Shifting the drained bytes out at the top, cut to the width. */
  function ShiftOut(width: nat, register: nat, n: nat): nat {
    register * Pow256(n) % Pow256(width)
  }

  /** A beat's bytes moved below the kept ones. */
  function Placed(width: nat, kept: nat, bytes: seq<byte>): nat
    requires kept + |bytes| <= width
  {
    BigEndian(bytes) * Pow256(width - kept - |bytes|)
  }

  lemma {:induction false} RegisterValue(width: nat, q: seq<byte>)
    requires |q| <= width
    ensures Register(width, q) == BigEndian(q) * Pow256(width - |q|)
  {
    TrailingZeros(q, width - |q|);
  }

  /** Draining is a shift. */
  lemma {:induction false} ShiftDrains(width: nat, q: seq<byte>, n: nat)
    requires n <= |q| <= width
    ensures ShiftOut(width, Register(width, q), n) == Register(width, q[n..])
  {
    var top, rest := q[..n], q[n..];
    var spare := width - |q|;
    assert q == top + rest;
    BigEndianJoin(top, rest);
    RegisterValue(width, q);
    RegisterValue(width, rest);
    PowersAdd(spare, n);
    PowersAdd(|rest|, spare + n);
    ShiftArithmetic(BigEndian(top), BigEndian(rest), Pow256(|rest|), Pow256(spare), Pow256(n), Pow256(spare + n),
                    Pow256(width));
    Quotient(BigEndian(top), Register(width, rest), Pow256(width));
  }

  lemma {:induction false} ShiftArithmetic(a: nat, b: nat, r: nat, s: nat, n: nat, sn: nat, w: nat)
    requires sn == s * n && w == r * sn
    ensures (a * r + b) * s * n == a * w + b * sn
  {
    calc {
      (a * r + b) * s * n;
      (a * r + b) * sn;
      a * r * sn + b * sn;
      a * (r * sn) + b * sn;
    }
  }

  lemma {:induction false} Quotient(a: nat, x: nat, w: nat)
    requires x < w
    ensures (a * w + x) / w == a && (a * w + x) % w == x
  {
    var n := a * w + x;
    SameQuotient(a, x, n / w, n % w, w);
  }

  lemma {:induction false} SameQuotient(a: nat, x: nat, q: nat, r: nat, w: nat)
    requires x < w && r < w && a * w + x == q * w + r
    ensures a == q && x == r
  {
    if a < q {
      Apart(a, q, w);
    } else if q < a {
      Apart(q, a, w);
    }
  }

  lemma {:induction false} Apart(a: nat, b: nat, w: nat)
    requires a < b
    ensures a * w + w <= b * w
  {
    if a + 1 < b {
      Apart(a, b - 1, w);
    }
    assert b * w == (b - 1) * w + w;
  }

  /** Joining a beat touches only bits that are zero, and appends its bytes. */
  lemma {:induction false} JoinAppends(width: nat, q: seq<byte>, bytes: seq<byte>)
    requires |q| + |bytes| <= width
    ensures Register(width, q) % Pow256(width - |q|) == 0 && Placed(width, |q|, bytes) < Pow256(width - |q|)
    ensures Register(width, q) + Placed(width, |q|, bytes) == Register(width, q + bytes)
  {
    var below := width - |q| - |bytes|;
    RegisterValue(width, q);
    RegisterValue(width, q + bytes);
    BigEndianJoin(q, bytes);
    PowersAdd(|bytes|, below);
    Quotient(BigEndian(q), 0, Pow256(width - |q|));
    Scaled(BigEndian(bytes), Pow256(|bytes|), Pow256(below));
    ShiftArithmetic(BigEndian(q), BigEndian(bytes), Pow256(|bytes|), 1, Pow256(below), Pow256(below),
                    Pow256(width - |q|));
  }

  lemma {:induction false} Scaled(x: nat, w: nat, k: nat)
    requires x < w && k > 0
    ensures x * k < w * k
  {
    assert w * k == x * k + (w - x) * k;
  }

  /** Reading byte i of the register reads the queue; past the valid bytes it is zero. */
  lemma {:induction false} ByteReads(width: nat, q: seq<byte>, i: nat)
    requires |q| <= width && i < width
    ensures Register(width, q) / Pow256(width - 1 - i) % 256 == QByte(q, i) as int
  {
    var all := q + Zeros(width - |q|);
    var head, tail := all[..i + 1], all[i + 1..];
    LastByte(head);
    assert all == head + tail && head[i] == QByte(q, i) && |head| - 1 == i && |tail| == width - 1 - i;
    hide BigEndian, Pow256, QByte, Zeros;
    BigEndianJoin(head, tail);
    Quotient(BigEndian(head), BigEndian(tail), Pow256(|tail|));
  }

  lemma {:induction false} LastByte(s: seq<byte>)
    requires s != []
    ensures BigEndian(s) % 256 == s[|s| - 1] as int
  {
  }

  /** One edge of the queue register is one edge of the queue. */
  lemma {:induction false} QueueEdge(z: Sizes, r: Regs, i: In)
    requires Fit(z) && WellKept(z, i) && !r.drop && |r.q| < z.qb + z.p.bytes
    ensures
      var width := z.qb + z.p.bytes - 1;
      var kept := |r.q| - Drained(r);
      var shifted := ShiftOut(width, Register(width, r.q), Drained(r));
      && |Advance(z, r, i).q| <= width
      && Register(width, Advance(z, r, i).q) ==
         if Takes(z, r, i) then shifted + Placed(width, kept, i.bytes) else shifted
  {
    var width := z.qb + z.p.bytes - 1;
    ShiftDrains(width, r.q, Drained(r));
    if Takes(z, r, i) {
      JoinAppends(width, r.q[Drained(r)..], i.bytes);
    } else {
      assert Advance(z, r, i).q == r.q[Drained(r)..];
    }
  }
}
