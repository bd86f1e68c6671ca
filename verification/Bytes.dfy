// Bytes and the big- and little-endian integers built from them.
module Bytes {

  type byte = x: int | 0 <= x < 256

  /** 256 to the power n. */
  function Pow256(n: nat): (r: nat)
    ensures r > 0
  {
    if n == 0 then 1 else 256 * Pow256(n - 1)
  }

  /** Most significant byte first. */
  function BigEndian(s: seq<byte>): (r: nat)
    ensures r < Pow256(|s|)
  {
    if s == [] then 0 else BigEndian(s[..|s| - 1]) * 256 + s[|s| - 1]
  }

  function ToBigEndian(n: nat, width: nat): (s: seq<byte>)
    ensures |s| == width
  {
    if width == 0 then [] else ToBigEndian(n / 256, width - 1) + [n % 256]
  }

  /** Least significant byte first. */
  function LittleEndian(s: seq<byte>): (r: nat)
    ensures r < Pow256(|s|)
  {
    if s == [] then 0 else s[0] + 256 * LittleEndian(s[1..])
  }

  function ToLittleEndian(n: nat, width: nat): (s: seq<byte>)
    ensures |s| == width
  {
    if width == 0 then [] else [n % 256] + ToLittleEndian(n / 256, width - 1)
  }

  lemma {:induction false} BigEndianRoundTrip(n: nat, width: nat)
    requires n < Pow256(width)
    ensures BigEndian(ToBigEndian(n, width)) == n
  {
    if width > 0 {
      var s := ToBigEndian(n, width);
      assert s[..width - 1] == ToBigEndian(n / 256, width - 1);
      BigEndianRoundTrip(n / 256, width - 1);
    }
  }

  lemma {:induction false} LittleEndianRoundTrip(n: nat, width: nat)
    requires n < Pow256(width)
    ensures LittleEndian(ToLittleEndian(n, width)) == n
  {
    if width > 0 {
      LittleEndianRoundTrip(n / 256, width - 1);
    }
  }

  lemma {:induction false} BigEndianJoin(a: seq<byte>, b: seq<byte>)
    ensures BigEndian(a + b) == BigEndian(a) * Pow256(|b|) + BigEndian(b)
  {
    if b == [] {
      assert a + b == a;
    } else {
      var init, x := b[..|b| - 1], b[|b| - 1];
      assert (a + b)[..|a + b| - 1] == a + init;
      BigEndianJoin(a, init);
      ShiftByte(BigEndian(a), Pow256(|init|), BigEndian(init));
    }
  }

  lemma {:induction false} ShiftByte(x: nat, w: nat, y: nat)
    ensures (x * w + y) * 256 == x * (256 * w) + y * 256
  {
  }

  /** A byte string is its number's digits, with zeroes in front. */
  lemma {:induction false} DigitsOf(s: seq<byte>, width: nat)
    requires |s| <= width
    ensures ToBigEndian(BigEndian(s), width) == seq(width - |s|, _ => 0) + s
  {
    if s == [] {
      ZeroDigits(width);
    } else {
      var init := s[..|s| - 1];
      DigitsOf(init, width - 1);
      assert BigEndian(s) / 256 == BigEndian(init);
    }
  }

  lemma {:induction false} ZeroDigits(width: nat)
    ensures ToBigEndian(0, width) == seq(width, _ => 0)
  {
    if width > 0 {
      ZeroDigits(width - 1);
    }
  }

  lemma {:induction false} PowersAdd(a: nat, b: nat)
    ensures Pow256(a + b) == Pow256(a) * Pow256(b)
  {
    if a > 0 {
      PowersAdd(a - 1, b);
      assert 256 * (Pow256(a - 1) * Pow256(b)) == (256 * Pow256(a - 1)) * Pow256(b);
    }
  }

  function Zeros(n: nat): seq<byte> {
    seq(n, _ => 0)
  }

  lemma {:induction false} TrailingZeros(s: seq<byte>, n: nat)
    ensures BigEndian(s + Zeros(n)) == BigEndian(s) * Pow256(n)
  {
    if n == 0 {
      assert s + Zeros(0) == s;
    } else {
      assert (s + Zeros(n))[..|s| + n - 1] == s + Zeros(n - 1);
      TrailingZeros(s, n - 1);
      ShiftByte(BigEndian(s), Pow256(n - 1), 0);
    }
  }

  /** A slice with its bounds cut to the string. */
  function Clip(s: seq<byte>, lo: nat, hi: nat): (t: seq<byte>)
    ensures lo <= hi <= |s| ==> t == s[lo..hi]
  {
    if lo >= |s| || hi <= lo then [] else if hi > |s| then s[lo..] else s[lo..hi]
  }

  // ---- the digits themselves ----

  lemma {:induction false} Powers()
    ensures Pow256(0) == 1 && Pow256(1) == 0x100 && Pow256(2) == 0x1_0000 && Pow256(4) == 0x1_0000_0000
    ensures Pow256(6) == 0x1_0000_0000_0000 && Pow256(8) == 0x1_0000_0000_0000_0000
  {
    PowersAdd(2, 4);
    PowersAdd(4, 4);
  }

  lemma {:induction false} DivideTwice(n: nat, a: nat, b: nat)
    requires a > 0 && b > 0
    ensures a * b > 0 && n / a / b == n / (a * b)
  {
    var q, r := n / (a * b), n % (a * b);
    assert n == q * (a * b) + r;
    var x, y := r / a, r % a;
    assert r == x * a + y && x < b by { NotBelow(x, a, b, r); }
    assert q * (a * b) == (q * b) * a by { Reorder(q, a, b); }
    QuotientIs(n, a, q * b + x, y);
    QuotientIs(q * b + x, b, q, x);
  }

  lemma {:induction false} Reorder(q: nat, a: nat, b: nat)
    ensures q * (a * b) == (q * b) * a
  {
  }

  lemma {:induction false} Larger(a: nat, b: nat, d: nat)
    requires a < b
    ensures a * d + d <= b * d
  {
    assert b * d == a * d + (b - a) * d;
    assert (b - a) * d == (b - a - 1) * d + d;
  }

  lemma {:induction false} NotBelow(x: nat, a: nat, b: nat, r: nat)
    requires x * a <= r < a * b
    ensures x < b
  {
    if b < x {
      Larger(b, x, a);
    }
  }

  lemma {:induction false} QuotientIs(n: nat, d: nat, q: nat, r: nat)
    requires d > 0 && r < d && n == q * d + r
    ensures n / d == q
  {
    DivMod(n, d, n / d, n % d, q, r);
  }

  lemma {:induction false} DivMod(n: nat, d: nat, p: nat, t: nat, q: nat, r: nat)
    requires n == p * d + t == q * d + r && t < d && r < d
    ensures p == q
  {
    if p < q {
      Larger(p, q, d);
    } else if q < p {
      Larger(q, p, d);
    }
  }

  /** Byte k of a big-endian number is its digit of that place. */
  lemma {:induction false} BigEndianDigit(n: nat, width: nat, k: nat)
    requires k < width
    ensures ToBigEndian(n, width)[k] == n / Pow256(width - 1 - k) % 256
    decreases width
  {
    if k < width - 1 {
      BigEndianDigit(n / 256, width - 1, k);
      DivideTwice(n, 256, Pow256(width - 2 - k));
    }
  }

  /** Byte k of a little-endian number is its k-th digit to base 256. */
  lemma {:induction false} LittleEndianDigit(n: nat, width: nat, k: nat)
    requires k < width
    ensures ToLittleEndian(n, width)[k] == n / Pow256(k) % 256
    decreases width
  {
    if k > 0 {
      LittleEndianDigit(n / 256, width - 1, k - 1);
      DivideTwice(n, 256, Pow256(k - 1));
    }
  }

  lemma {:induction false} LittleDigitsOf(s: seq<byte>)
    ensures ToLittleEndian(LittleEndian(s), |s|) == s
  {
    if s != [] {
      LittleDigitsOf(s[1..]);
    }
  }

  /** What a string of bytes says as a number, either way round. */
  lemma {:induction false} DigitsSay(s: seq<byte>, k: nat)
    requires k < |s|
    ensures BigEndian(s) / Pow256(|s| - 1 - k) % 256 == s[k] == LittleEndian(s) / Pow256(k) % 256
  {
    DigitsOf(s, |s|);
    LittleDigitsOf(s);
    assert seq(0, _ => 0 as byte) + s == s;
    BigEndianDigit(BigEndian(s), |s|, k);
    LittleEndianDigit(LittleEndian(s), |s|, k);
  }
}
