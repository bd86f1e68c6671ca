// Messages from a file, grouped greedily into MoldUDP64 datagrams and written
// out as a packet capture; and the reader that takes such a capture apart.
module Packetizer {
  import opened Bytes
  import opened Itch
  import opened Prices

  datatype Settings = Settings(
    maxPayload: nat, perPacket: Option<nat>,
    session: seq<byte>, srcIp: seq<byte>, dstIp: seq<byte>, srcPort: nat, dstPort: nat)

  predicate Addresses(s: Settings) {
    |s.srcIp| == 4 && |s.dstIp| == 4 && s.srcPort < 0x1_0000 && s.dstPort < 0x1_0000
  }

  predicate Usable(s: Settings) {
    |s.session| == 10 && Addresses(s)
  }

  // ---- grouping ----

  /** The next message no longer goes into the group: it is too full, or has enough messages. */
  predicate StartsNew(s: Settings, g: seq<Message>, m: Message) {
    MOLD_HEADER + |Frames(g)| + 2 + |m| > s.maxPayload || (s.perPacket.Some? && |g| >= s.perPacket.value)
  }

  /** The groups of the messages, the last one still open. */
  function Groups(s: Settings, ms: seq<Message>): (gs: seq<seq<Message>>)
    ensures gs == [] <==> ms == []
    ensures forall i :: 0 <= i < |gs| ==> gs[i] != []
    decreases |ms|
  {
    if ms == [] then []
    else
      var gs, m := Groups(s, ms[..|ms| - 1]), ms[|ms| - 1];
      if gs == [] || StartsNew(s, gs[|gs| - 1], m) then gs + [[m]]
      else gs[..|gs| - 1] + [gs[|gs| - 1] + [m]]
  }

  function Joined(gs: seq<seq<Message>>): seq<Message> {
    if gs == [] then [] else Joined(gs[..|gs| - 1]) + gs[|gs| - 1]
  }

  lemma {:induction false} LastMessage(s: Settings, ms: seq<Message>)
    requires ms != []
    ensures
      var gs, m, now := Groups(s, ms[..|ms| - 1]), ms[|ms| - 1], Groups(s, ms);
      if gs == [] || StartsNew(s, gs[|gs| - 1], m) then now == gs + [[m]]
      else now == gs[..|gs| - 1] + [gs[|gs| - 1] + [m]]
  {
  }

  /** The groups are the messages, in order. */
  lemma {:induction false} GroupsJoin(s: Settings, ms: seq<Message>)
    ensures Joined(Groups(s, ms)) == ms
    decreases |ms|
  {
    if ms != [] {
      hide Groups, StartsNew;
      var gs, m, now := Groups(s, ms[..|ms| - 1]), ms[|ms| - 1], Groups(s, ms);
      GroupsJoin(s, ms[..|ms| - 1]);
      LastMessage(s, ms);
      assert ms == ms[..|ms| - 1] + [m];
      if gs == [] || StartsNew(s, gs[|gs| - 1], m) {
        assert now[..|now| - 1] == gs && now[|now| - 1] == [m];
      } else {
        assert now[..|now| - 1] == gs[..|gs| - 1] && now[|now| - 1] == gs[|gs| - 1] + [m];
      }
    }
  }

  lemma {:induction false} FramesAppend(a: seq<Message>, b: seq<Message>)
    ensures Frames(a + b) == Frames(a) + Frames(b)
  {
    if a == [] {
      assert a + b == b;
    } else {
      assert (a + b)[1..] == a[1..] + b;
      FramesAppend(a[1..], b);
    }
  }

  lemma {:induction false} FrameOfOne(m: Message)
    ensures Frames([m]) == Frame(m)
  {
    assert Frame(m) + Frames([]) == Frame(m);
  }

  lemma {:induction false} FrameMore(g: seq<Message>, m: Message)
    ensures |Frames(g + [m])| == |Frames(g)| + 2 + |m|
  {
    FramesAppend(g, [m]);
    FrameOfOne(m);
  }

  /** Greedy: a group was closed only because it and the next message together exceed the
      payload, header included, or because it had enough messages; and only a message by
      itself exceeds the limits. */
  lemma {:induction false} GroupsAreGreedy(s: Settings, ms: seq<Message>, i: nat)
    requires i < |Groups(s, ms)|
    ensures
      var gs := Groups(s, ms);
      && (i + 1 < |gs| ==>
            20 + |Frames(gs[i] + [gs[i + 1][0]])| > s.maxPayload || (s.perPacket.Some? && |gs[i]| >= s.perPacket.value))
      && (|gs[i]| > 1 ==>
            20 + |Frames(gs[i])| <= s.maxPayload && (s.perPacket.Some? ==> |gs[i]| <= s.perPacket.value))
    decreases |ms|
  {
    hide Frames, Groups;
    var gs, m := Groups(s, ms[..|ms| - 1]), ms[|ms| - 1];
    LastMessage(s, ms);
    if i < |gs| {
      GroupsAreGreedy(s, ms[..|ms| - 1], i);
      FrameMore(gs[i], m);
    }
  }

  lemma {:induction false} FrameInside(g: seq<Message>, i: nat)
    requires i < |g|
    ensures 2 + |g[i]| <= |Frames(g)|
  {
    if i > 0 {
      FrameInside(g[1..], i - 1);
    }
  }

  lemma {:induction false} GroupOf(gs: seq<seq<Message>>, i: nat) returns (k: nat, j: nat)
    requires i < |Joined(gs)|
    ensures k < |gs| && j < |gs[k]| && gs[k][j] == Joined(gs)[i]
  {
    var init := Joined(gs[..|gs| - 1]);
    if i < |init| {
      k, j := GroupOf(gs[..|gs| - 1], i);
    } else {
      k, j := |gs| - 1, i - |init|;
    }
  }

  lemma {:induction false} InJoined(gs: seq<seq<Message>>, k: nat, j: nat) returns (i: nat)
    requires k < |gs| && j < |gs[k]|
    ensures i < |Joined(gs)| && Joined(gs)[i] == gs[k][j]
    decreases |gs|
  {
    if k < |gs| - 1 {
      i := InJoined(gs[..|gs| - 1], k, j);
    } else {
      i := |Joined(gs[..|gs| - 1])| + j;
    }
  }

  /** Every datagram stays within the payload limit exactly when every message does
      together with the datagram header. The conversion only demands this without
      the header. */
  lemma {:induction false} WithinLimitIff(s: Settings, ms: seq<Message>)
    ensures (forall k :: 0 <= k < |Groups(s, ms)| ==> MOLD_HEADER + |Frames(Groups(s, ms)[k])| <= s.maxPayload)
            <==> (forall i :: 0 <= i < |ms| ==> MOLD_HEADER + 2 + |ms[i]| <= s.maxPayload)
  {
    var gs := Groups(s, ms);
    GroupsJoin(s, ms);
    if forall k :: 0 <= k < |gs| ==> MOLD_HEADER + |Frames(gs[k])| <= s.maxPayload {
      forall i | 0 <= i < |ms|
        ensures MOLD_HEADER + 2 + |ms[i]| <= s.maxPayload
      {
        var k, j := GroupOf(gs, i);
        FrameInside(gs[k], j);
      }
    }
    if forall i :: 0 <= i < |ms| ==> MOLD_HEADER + 2 + |ms[i]| <= s.maxPayload {
      forall k | 0 <= k < |gs|
        ensures MOLD_HEADER + |Frames(gs[k])| <= s.maxPayload
      {
        GroupsAreGreedy(s, ms, k);
        if |gs[k]| == 1 {
          var i := InJoined(gs, k, 0);
          FrameOfOne(gs[k][0]);
          assert gs[k] == [gs[k][0]];
        }
      }
    }
  }

  /** A message the conversion accepts, in a datagram beyond the limit. */
  lemma {:induction false} LimitCanBeExceeded(s: Settings)
    requires s.maxPayload == 40 && s.perPacket.None?
    ensures
      var m: Message := Zeros(38);
      |m| + 2 <= s.maxPayload && Groups(s, [m]) == [[m]] && MOLD_HEADER + |Frames([m])| > s.maxPayload
  {
    var m: Message := Zeros(38);
    FrameOfOne(m);
    assert [m][..0] == [];
    assert Groups(s, []) == [];
    assert [] + [[m]] == [[m]];
  }

  // ---- numbering ----

  /** The datagrams of groups, numbered from n on. */
  function Datagrams(session: seq<byte>, n: nat, gs: seq<seq<Message>>): (ds: seq<Datagram>)
    ensures |ds| == |gs| && forall i :: 0 <= i < |ds| ==> ds[i].session == session && ds[i].msgs == gs[i]
    decreases |gs|
  {
    if gs == [] then []
    else
      Datagrams(session, n, gs[..|gs| - 1])
      + [Datagram(session, n + |Joined(gs[..|gs| - 1])|, gs[|gs| - 1])]
  }

  /** Sequence numbers are the first one plus the messages before. */
  lemma {:induction false} NumbersArePrefixSums(session: seq<byte>, n: nat, gs: seq<seq<Message>>, k: nat)
    requires k < |gs|
    ensures Datagrams(session, n, gs)[k].seq64 == n + |Joined(gs[..k])|
    decreases |gs|
  {
    if k < |gs| - 1 {
      NumbersArePrefixSums(session, n, gs[..|gs| - 1], k);
      assert gs[..|gs| - 1][..k] == gs[..k];
    }
  }
}
