// The 16-bit one's complement checksum of an IPv4 header (RFC 791 section 3.1,
// RFC 1071 section 1), computed by summing and folding the carries back in.
module InternetChecksum {
  import opened Bytes

  /** Sum of the big-endian 16-bit words. */
  function WordSum(s: seq<byte>): nat {
    if |s| < 2 then 0 else (s[0] as nat) * 256 + s[1] as nat + WordSum(s[2..])
  }

  /** Carries folded back until none is left. */
  function Fold(t: nat): (r: nat)
    ensures r < 0x1_0000 && r % 0xFFFF == t % 0xFFFF && (t > 0 ==> r > 0)
  {
    if t < 0x1_0000 then t
    else
      assert t == t / 0x1_0000 * 0xFFFF + (t % 0x1_0000 + t / 0x1_0000);
      Fold(t % 0x1_0000 + t / 0x1_0000)
  }

  function Padded(s: seq<byte>): (r: seq<byte>)
    ensures |r| % 2 == 0
  {
    if |s| % 2 == 1 then s + [0] else s
  }

  function Checksum(header: seq<byte>): (r: nat)
    ensures r < 0x1_0000
  {
    0xFFFF - Fold(WordSum(Padded(header)))
  }

  method IpChecksum(header: seq<byte>) returns (r: nat)
    ensures r == Checksum(header)
  {
    var h := header;
    if |h| % 2 == 1 {
      h := h + [0];
    }
    var total: nat := 0;
    var i := 0;
    while i < |h|
      invariant 0 <= i <= |h| && i % 2 == 0 && |h| % 2 == 0
      invariant total + WordSum(h[i..]) == WordSum(h)
    {
      assert h[i..][2..] == h[i + 2..];
      total := total + (h[i] as nat) * 256 + h[i + 1] as nat;
      i := i + 2;
    }
    while total / 0x1_0000 != 0
      invariant Fold(total) == Fold(WordSum(h))
      decreases total
    {
      total := total % 0x1_0000 + total / 0x1_0000;
    }
    r := 0xFFFF - total;
  }

  lemma {:induction false} WordSumAppend(a: seq<byte>, b: seq<byte>)
    requires |a| % 2 == 0
    ensures WordSum(a + b) == WordSum(a) + WordSum(b)
  {
    if a == [] {
      assert a + b == b;
    } else {
      assert (a + b)[2..] == a[2..] + b;
      WordSumAppend(a[2..], b);
    }
  }

  /** A header whose checksum field held zero, with the checksum put in, checks to zero. */
  lemma {:induction false} ChecksumVerifies(before: seq<byte>, after: seq<byte>)
    requires |before| % 2 == 0
    ensures Checksum(before + ToBigEndian(Checksum(before + [0, 0] + after), 2) + after) == 0
  {
    var sum := Checksum(before + [0, 0] + after);
    var field := ToBigEndian(sum, 2);
    assert Padded(before + [0, 0] + after) == before + [0, 0] + Padded(after);
    assert Padded(before + field + after) == before + field + Padded(after);
    WordSumAppend(before, [0, 0]);
    WordSumAppend(before, field);
    WordSumAppend(before + [0, 0], Padded(after));
    WordSumAppend(before + field, Padded(after));
    FieldSum(sum);
    var t := WordSum(before + [0, 0] + Padded(after));
    assert WordSum([0, 0]) == 0;
    assert WordSum(before + field + Padded(after)) == t + sum;
    FoldsToOnes(t);
  }

  lemma {:induction false} FieldSum(n: nat)
    requires n < 0x1_0000
    ensures WordSum(ToBigEndian(n, 2)) == n
  {
    var s := ToBigEndian(n, 2);
    assert ToBigEndian(n / 256, 1) == [n / 256 % 256];
    assert s[2..] == [];
  }

  /** A sum plus the complement of its fold folds to all ones. */
  lemma {:induction false} FoldsToOnes(t: nat)
    ensures Fold(t + (0xFFFF - Fold(t))) == 0xFFFF
  {
    var f := Fold(t);
    hide Fold;
    assert t == t / 0xFFFF * 0xFFFF + t % 0xFFFF && f == f / 0xFFFF * 0xFFFF + f % 0xFFFF;
    MultipleOf(t / 0xFFFF - f / 0xFFFF + 1);
    assert t + (0xFFFF - f) == (t / 0xFFFF - f / 0xFFFF + 1) * 0xFFFF;
  }

  lemma {:induction false} MultipleOf(k: int)
    ensures k * 0xFFFF % 0xFFFF == 0
  {
  }

  // ---- the checksum as a number ----

  /** The sum of the words leaves the same remainder as all the bytes read as one number. */
  lemma {:induction false} SumIsNumber(s: seq<byte>)
    requires |s| % 2 == 0
    ensures WordSum(s) % 0xFFFF == BigEndian(s) % 0xFFFF && (WordSum(s) == 0 <==> BigEndian(s) == 0)
    decreases |s|
  {
    if s != [] {
      var init, last := s[..|s| - 2], s[|s| - 2..];
      assert s == init + last && last == [last[0], last[1]];
      SumIsNumber(init);
      WordSumAppend(init, last);
      BigEndianJoin(init, last);
      Powers();
      TwoAre(last[0], last[1]);
      var q := BigEndian(init);
      assert BigEndian(s) == q * 0xFFFF + (q + BigEndian(last));
      SameRemainder(q, q + BigEndian(last));
      assert (WordSum(init) + WordSum(last)) % 0xFFFF == (q + BigEndian(last)) % 0xFFFF by {
        SumsAgree(WordSum(init), q, BigEndian(last));
      }
    }
  }

  lemma {:induction false} TwoAre(a: byte, b: byte)
    ensures BigEndian([a, b]) == a * 256 + b == WordSum([a, b])
  {
    assert [a, b][..1] == [a] && [a][..0] == [] && [a, b][2..] == [];
  }

  lemma {:induction false} SameRemainder(q: nat, rest: nat)
    ensures (q * 0xFFFF + rest) % 0xFFFF == rest % 0xFFFF
  {
  }

  lemma {:induction false} SumsAgree(a: nat, b: nat, c: nat)
    requires a % 0xFFFF == b % 0xFFFF
    ensures (a + c) % 0xFFFF == (b + c) % 0xFFFF
  {
  }

  /** The checksum is the number that makes the header, read as one big-endian number, a
      multiple of 65535: all ones for a header of zeroes, and never otherwise. */
  lemma {:induction false} ChecksumIs(header: seq<byte>)
    ensures
      var n := BigEndian(header + seq(|header| % 2, _ => 0));
      (n + Checksum(header)) % 0xFFFF == 0 && (Checksum(header) == 0xFFFF <==> n == 0)
  {
    hide Fold;
    var s := Padded(header);
    assert s == header + seq(|header| % 2, _ => 0);
    SumIsNumber(s);
    var t, n := WordSum(s), BigEndian(s);
    assert Fold(t) == 0 <==> t == 0 by { FoldOfZero(t); }
    Complement(n, Fold(t));
  }

  lemma {:induction false} FoldOfZero(t: nat)
    ensures Fold(t) == 0 <==> t == 0
  {
  }

  lemma {:induction false} Complement(n: nat, f: nat)
    requires n % 0xFFFF == f % 0xFFFF && f <= 0xFFFF
    ensures (n + (0xFFFF - f)) % 0xFFFF == 0
  {
  }
}
