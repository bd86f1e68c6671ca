// Whole runs of the reference book: the caches stay right through any list of
// messages, and every share that entered is live or has left.
module Conservation {
  import opened Market
  import opened ReferenceBook

  /** All live shares. */
  ghost function Volume(os: Orders): nat
    decreases |os|
  {
    if os == map[] then 0
    else
      var r := Pick(os);
      os[r].qty + Volume(os - {r})
  }

  lemma {:induction false} VolumeInsert(os: Orders, r: nat, o: Order)
    requires r !in os
    ensures Volume(os[r := o]) == Volume(os) + o.qty
    decreases |os|
  {
    var wide := os[r := o];
    assert r in wide;
    var r0 := Pick(wide);
    if r0 == r {
      assert wide - {r} == os;
    } else {
      assert wide - {r0} == (os - {r0})[r := o];
      VolumeInsert(os - {r0}, r, o);
      assert os == (os - {r0})[r0 := os[r0]];
      VolumeInsert(os - {r0}, r0, os[r0]);
    }
  }

  lemma {:induction false} VolumeRemove(os: Orders, r: nat)
    requires r in os
    ensures Volume(os) == Volume(os - {r}) + os[r].qty
  {
    assert os == (os - {r})[r := os[r]];
    VolumeInsert(os - {r}, r, os[r]);
  }

  lemma {:induction false} VolumeLess(os: Orders, r: nat, n: nat)
    requires r in os && n < os[r].qty
    ensures Volume(Less(os, r, n)) == Volume(os) - n
  {
    VolumeRemove(os, r);
    assert Less(os, r, n) == (os - {r})[r := os[r].(qty := os[r].qty - n)];
    VolumeInsert(os - {r}, r, os[r].(qty := os[r].qty - n));
  }

  /** Shares that a message brings into the book. */
  function Entering(s: State, m: Message): nat {
    match m
    case AddOrder(_, ref, _, shares, _) => if ref in s.orders then 0 else shares
    case ReplaceOrder(_, orig, newRef, shares, _) => if orig in s.orders && newRef !in s.orders then shares else 0
    case _ => 0
  }

  /** Shares that a message takes out: executed, cancelled, deleted or replaced. */
  function Leaving(s: State, m: Message): nat {
    match m
    case ReduceOrder(_, ref, shares) => if ref in s.orders && shares <= s.orders[ref].qty then shares else 0
    case DeleteOrder(_, ref) => if ref in s.orders then s.orders[ref].qty else 0
    case ReplaceOrder(_, orig, newRef, shares, _) =>
      if orig in s.orders && newRef !in s.orders && shares > 0 then s.orders[orig].qty else 0
    case _ => 0
  }

  lemma {:induction false} StepConserves(s: State, m: Message)
    requires AllLive(s.orders)
    ensures Volume(Step(s, m).0.orders) + Leaving(s, m) == Volume(s.orders) + Entering(s, m)
  {
    hide Publish, Volume;
    match m
    case AddOrder(l, ref, ask, shares, price) =>
      if ref !in s.orders && shares != 0 {
        VolumeInsert(s.orders, ref, Order(l, ask, price, shares));
      }
    case ReduceOrder(_, ref, shares) =>
      if ref in s.orders && shares <= s.orders[ref].qty {
        VolumeRemove(s.orders, ref);
        if shares < s.orders[ref].qty {
          VolumeLess(s.orders, ref, shares);
        }
      }
    case DeleteOrder(_, ref) =>
      if ref in s.orders {
        VolumeRemove(s.orders, ref);
      }
    case ReplaceOrder(_, orig, newRef, shares, price) =>
      if orig in s.orders && shares > 0 && newRef !in s.orders {
        var o := s.orders[orig];
        VolumeRemove(s.orders, orig);
        VolumeInsert(s.orders - {orig}, newRef, Order(o.locate, o.ask, price, shares));
      }
    case _ =>
  }

  ghost function Entered(ms: seq<Message>): nat {
    if ms == [] then 0
    else Entered(ms[..|ms| - 1]) + Entering(Run(ms[..|ms| - 1]).0, ms[|ms| - 1])
  }

  ghost function Left(ms: seq<Message>): nat {
    if ms == [] then 0
    else Left(ms[..|ms| - 1]) + Leaving(Run(ms[..|ms| - 1]).0, ms[|ms| - 1])
  }

  /** Over every run: shares entered are shares live plus shares gone, and every live
      order has shares. */
  lemma {:induction false} VolumeConserved(ms: seq<Message>)
    ensures AllLive(Run(ms).0.orders)
    ensures Entered(ms) == Volume(Run(ms).0.orders) + Left(ms)
    decreases |ms|
  {
    hide Step, Publish, Volume, Entering, Leaving;
    if ms == [] {
      NothingLive();
    } else {
      var s := Run(ms[..|ms| - 1]).0;
      VolumeConserved(ms[..|ms| - 1]);
      StepKeepsLive(s, ms[|ms| - 1]);
      StepConserves(s, ms[|ms| - 1]);
    }
  }

  lemma {:induction false} NothingLive()
    ensures Volume(map[]) == 0
  {
  }

  /** A whole list of messages through the caching book: every outcome is the
      reference's, the caches are right after each, and the periodic revalidation
      never fails. */
  method Replay(ms: seq<Message>) returns (b: Book, outs: seq<Outcome>, sound: bool)
    ensures fresh(b) && b.Valid() && (b.Meaning(), outs) == Run(ms)
    ensures sound
  {
    b := new Book();
    outs, sound := [], true;
    var i := 0;
    while i < |ms|
      invariant 0 <= i <= |ms| && fresh(b) && b.Valid()
      invariant (b.Meaning(), outs) == Run(ms[..i]) && sound
    {
      var out := b.Apply(ms[i]);
      assert ms[..i + 1][..i] == ms[..i];
      outs := outs + [out];
      var ok := b.CheckDeep();
      sound := sound && ok;
      i := i + 1;
    }
    assert ms[..i] == ms;
  }
}
