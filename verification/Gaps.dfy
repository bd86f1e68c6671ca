// What the gap pulses tell: a stream of datagrams in order has none, and one that is lost
// or comes twice gives exactly one.
module Gaps {
  import opened Itch
  import opened ParserSafety

  /** One session, numbered on from datagram to datagram; a stream that begins with the
      parser's own reset values begins with number one. */
  predicate InOrder(ds: seq<Datagram>) {
    && (forall k :: 0 < k < |ds| ==>
          ds[k].session == ds[k - 1].session
          && ds[k].seq64 == (ds[k - 1].seq64 + |ds[k - 1].msgs|) % 0x1_0000_0000_0000_0000)
    && (ds != [] ==> ds[0].session != seq(10, _ => 0) || ds[0].seq64 == 1)
  }

  lemma {:induction false} OneGapAtMost(ds: seq<Datagram>, n: nat, k: nat)
    requires n <= |ds| && forall j :: 0 <= j < n && j != k ==> !IsGap(ds, j)
    ensures GapCount(ds, n) == if k < n && IsGap(ds, k) then 1 else 0
    decreases n
  {
    hide IsGap;
    if n > 0 {
      OneGapAtMost(ds, n - 1, k);
    }
  }

  lemma {:induction false} NoGapHere(ds: seq<Datagram>, k: nat)
    requires InOrder(ds) && k < |ds|
    ensures !IsGap(ds, k)
  {
  }

  /** In order: not one. */
  lemma {:induction false} InOrderHasNone(ds: seq<Datagram>)
    requires InOrder(ds)
    ensures GapCount(ds, |ds|) == 0
  {
    forall j | 0 <= j < |ds|
      ensures !IsGap(ds, j)
    {
      NoGapHere(ds, j);
    }
    OneGapAtMost(ds, |ds|, |ds|);
  }

  lemma {:induction false} SameGap(ds: seq<Datagram>, es: seq<Datagram>, k: nat, j: nat)
    requires k < |ds| && j < |es| && ds[k] == es[j] && (k == 0 <==> j == 0) && (k > 0 ==> ds[k - 1] == es[j - 1])
    ensures IsGap(ds, k) <==> IsGap(es, j)
  {
  }

  /** One datagram lost on the way: one gap if it had messages, none otherwise. */
  lemma {:induction false} LostIsOneGap(ds: seq<Datagram>, k: nat)
    requires InOrder(ds) && 0 < k < |ds| - 1 && |ds[k].msgs| < 0x1_0000
    ensures
      var got := ds[..k] + ds[k + 1..];
      GapCount(got, |got|) == if ds[k].msgs == [] then 0 else 1
  {
    var got := ds[..k] + ds[k + 1..];
    forall j | 0 <= j < |got| && j != k
      ensures !IsGap(got, j)
    {
      var i := if j < k then j else j + 1;
      NoGapHere(ds, i);
      SameGap(got, ds, j, i);
    }
    OneGapAtMost(got, |got|, k);
    NumbersOn(ds[k - 1].seq64 + |ds[k - 1].msgs|, |ds[k].msgs|);
  }

  /** One datagram that comes twice in a row: again one gap if it had messages. */
  lemma {:induction false} TwiceIsOneGap(ds: seq<Datagram>, k: nat)
    requires InOrder(ds) && k < |ds| && |ds[k].msgs| < 0x1_0000 && ds[k].seq64 < 0x1_0000_0000_0000_0000
    ensures
      var got := ds[..k + 1] + ds[k..];
      GapCount(got, |got|) == if ds[k].msgs == [] then 0 else 1
  {
    var got := ds[..k + 1] + ds[k..];
    forall j | 0 <= j < |got| && j != k + 1
      ensures !IsGap(got, j)
    {
      var i := if j <= k then j else j - 1;
      NoGapHere(ds, i);
      SameGap(got, ds, j, i);
    }
    OneGapAtMost(got, |got|, k + 1);
    NumbersOn(ds[k].seq64, |ds[k].msgs|);
  }

  lemma {:induction false} NumbersOn(a: nat, n: nat)
    requires n < 0x1_0000
    ensures (a % 0x1_0000_0000_0000_0000 + n) % 0x1_0000_0000_0000_0000 == a % 0x1_0000_0000_0000_0000 <==> n == 0
  {
  }

  /** A datagram of another session than the one before is no gap, whatever its number. */
  lemma {:induction false} NewSessionIsNone(ds: seq<Datagram>, k: nat)
    requires 0 < k < |ds| && ds[k].session != ds[k - 1].session
    ensures GapCount(ds, k + 1) == GapCount(ds, k)
  {
  }
}
