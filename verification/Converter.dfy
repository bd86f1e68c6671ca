// The conversion itself: a message file read one message at a time into an
// open group, groups flushed into the capture.
module Converter {
  import opened Bytes
  import opened Itch
  import opened Packetizer
  import opened Capture
  import opened Prices

  // ---- the message file ----

  /** The whole messages at the beginning of the file, and whether something cut short follows. */
  datatype Contents = Contents(msgs: seq<Message>, cut: bool)

  predicate StartsWhole(rest: seq<byte>) {
    |rest| >= 2 && |rest| >= 2 + BigEndian(rest[..2])
  }

  function ParseFile(rest: seq<byte>): (c: Contents)
    decreases |rest|
  {
    if rest == [] then Contents([], false)
    else if !StartsWhole(rest) then Contents([], true)
    else
      var end := 2 + BigEndian(rest[..2]);
      var more := ParseFile(rest[end..]);
      Contents([rest[2..end]] + more.msgs, more.cut)
  }

  /** A file of framed messages parses into them. */
  lemma {:induction false} ParsesFrames(ms: seq<Message>)
    requires forall i :: 0 <= i < |ms| ==> |ms[i]| < 0x1_0000
    ensures ParseFile(Frames(ms)) == Contents(ms, false)
  {
    hide Frame, BigEndian;
    if ms != [] {
      ParsesFirst(ms[0], Frames(ms[1..]));
      ParsesFrames(ms[1..]);
    }
  }

  lemma {:induction false} CutMessage(m: Message, n: nat)
    requires |m| < 0x1_0000 && 0 < n < |Frame(m)|
    ensures ParseFile(Frame(m)[..n]) == Contents([], true)
  {
    hide ToBigEndian, BigEndian;
    Powers();
    BigEndianRoundTrip(|m|, 2);
    assert n >= 2 ==> Frame(m)[..n][..2] == ToBigEndian(|m|, 2);
  }

  /** The messages before a cut: as many as are whole. */
  predicate CutBehind(ms: seq<Message>, n: nat, k: nat) {
    && k <= |ms| && |Frames(ms[..k])| <= n <= |Frames(ms)| && (k < |ms| ==> n < |Frames(ms[..k + 1])|)
    && ParseFile(Frames(ms)[..n]) == Contents(ms[..k], n != |Frames(ms[..k])|)
  }

  lemma {:induction false} CutInFirst(ms: seq<Message>, n: nat)
    requires ms != [] && |ms[0]| < 0x1_0000 && n < |Frame(ms[0])|
    ensures CutBehind(ms, n, 0)
  {
    hide Frame, BigEndian, StartsWhole;
    var first, rest := Frame(ms[0]), Frames(ms[1..]);
    assert (first + rest)[..n] == first[..n] && ms[..1][1..] == [];
    if n > 0 {
      CutMessage(ms[0], n);
    }
  }

  lemma {:induction false} CutInRest(ms: seq<Message>, n: nat, j: nat)
    requires ms != [] && |ms[0]| < 0x1_0000 && n >= |Frame(ms[0])| && CutBehind(ms[1..], n - |Frame(ms[0])|, j)
    ensures CutBehind(ms, n, j + 1)
  {
    hide Frame, BigEndian, ParseFile;
    var first, rest := Frame(ms[0]), Frames(ms[1..]);
    assert (first + rest)[..n] == first + rest[..n - |first|];
    ParsesFirst(ms[0], rest[..n - |first|]);
    TailOfFirst(ms, j);
    if j + 1 < |ms| {
      TailOfFirst(ms, j + 1);
    }
  }

  lemma {:induction false} TailOfFirst(ms: seq<Message>, j: nat)
    requires j < |ms|
    ensures ms[..j + 1][1..] == ms[1..][..j] && ms[..j + 1] == [ms[0]] + ms[1..][..j]
  {
    assert forall i :: 0 <= i < j ==> ms[..j + 1][1..][i] == ms[i + 1] == ms[1..][..j][i];
  }

  /** A file cut short at any byte: the messages before the cut are there, and the cut is
      told unless it is between two messages. */
  lemma {:induction false} CutFileParses(ms: seq<Message>, n: nat) returns (k: nat)
    requires (forall i :: 0 <= i < |ms| ==> |ms[i]| < 0x1_0000) && n <= |Frames(ms)|
    ensures CutBehind(ms, n, k)
    decreases |ms|
  {
    hide Frame, BigEndian, StartsWhole;
    if ms == [] {
      k := 0;
    } else if n < |Frame(ms[0])| {
      k := 0;
      CutInFirst(ms, n);
    } else {
      hide CutBehind;
      var j := CutFileParses(ms[1..], n - |Frame(ms[0])|);
      k := j + 1;
      CutInRest(ms, n, j);
    }
  }

  lemma {:induction false} ParsesFirst(m: Message, tail: seq<byte>)
    requires |m| < 0x1_0000
    ensures ParseFile(Frame(m) + tail) == Contents([m] + ParseFile(tail).msgs, ParseFile(tail).cut)
  {
    hide Frame, BigEndian;
    var file := Frame(m) + tail;
    ReadsFrame([], m, tail);
    assert [] + file == file;
    assert file[..2] == Clip(file, 0, 2) && file[2..2 + |m|] == Clip(file, 2, 2 + |m|) && file[2 + |m|..] == tail;
  }

  // ---- groups persist ----

  lemma {:induction false} GroupsExtend(s: Settings, ms: seq<Message>, m: Message)
    ensures Groups(s, ms + [m]) ==
            var gs := Groups(s, ms);
            if gs == [] || StartsNew(s, gs[|gs| - 1], m) then gs + [[m]]
            else gs[..|gs| - 1] + [gs[|gs| - 1] + [m]]
  {
    assert (ms + [m])[..|ms|] == ms;
  }

  /** A group once closed stays as it is. */
  lemma {:induction false} ClosedStay(s: Settings, ms: seq<Message>, more: seq<Message>, closed: seq<seq<Message>>)
    requires closed < Groups(s, ms)
    ensures closed < Groups(s, ms + more)
    decreases |more|
  {
    if more == [] {
      assert ms + more == ms;
    } else {
      var init, m := more[..|more| - 1], more[|more| - 1];
      ClosedStay(s, ms, init, closed);
      assert ms + more == ms + init + [m];
      GroupsExtend(s, ms + init, m);
    }
  }

  lemma {:induction false} DatagramsPrefix(session: seq<byte>, n: nat, gs: seq<seq<Message>>, k: nat)
    requires k <= |gs|
    ensures Datagrams(session, n, gs)[..k] == Datagrams(session, n, gs[..k])
    decreases |gs|
  {
    if k < |gs| {
      DatagramsPrefix(session, n, gs[..|gs| - 1], k);
      assert gs[..|gs| - 1][..k] == gs[..k];
    } else {
      assert gs[..k] == gs;
    }
  }

  datatype Status = Fine | BadSession | CutShort | Oversized(index: nat) | Unpackable

  function Taken(ms: seq<Message>, limit: Option<nat>): seq<Message> {
    if limit.Some? && limit.value < |ms| then ms[..limit.value] else ms
  }

  /** All datagrams of the messages. */
  function Feed(s: Settings, ms: seq<Message>): (ds: seq<Datagram>)
    ensures HaveMessages(ds)
  {
    Datagrams(s.session, 1, Groups(s, ms))
  }

  predicate NonEmpty(gs: seq<seq<Message>>) {
    forall i :: 0 <= i < |gs| ==> gs[i] != []
  }

  lemma {:induction false} DatagramsNext(session: seq<byte>, closed: seq<seq<Message>>, g: seq<Message>)
    ensures Datagrams(session, 1, closed + [g]) == Datagrams(session, 1, closed)
            + [Datagram(session, 1 + |Joined(closed)|, g)]
    ensures Joined(closed + [g]) == Joined(closed) + g
  {
    assert (closed + [g])[..|closed|] == closed;
  }

  /** One more group closed: one more datagram, one more record in the file. */
  lemma {:induction false} OneMoreGroup(s: Settings, closed: seq<seq<Message>>, g: seq<Message>)
    requires Usable(s) && NonEmpty(closed) && g != []
    ensures
      var ds := Datagrams(s.session, 1, closed);
      var d := Datagram(s.session, 1 + |Joined(closed)|, g);
      && NonEmpty(closed + [g]) && HaveMessages(ds) && HaveMessages(ds + [d])
      && Datagrams(s.session, 1, closed + [g]) == ds + [d]
      && CaptureFile(s, ds + [d]) == CaptureFile(s, ds) + CaptureRecord(s, d)
      && Joined(closed + [g]) == Joined(closed) + g
      && (AllPackable(ds + [d]) <==> AllPackable(ds) && Packable(d))
  {
    hide CaptureRecord, CaptureRecords, Packable, Payload;
    DatagramsNext(s.session, closed, g);
    var ds := Datagrams(s.session, 1, closed);
    var d := Datagram(s.session, 1 + |Joined(closed)|, g);
    hide Datagrams, Joined;
    RecordsAppendOne(s, ds, d);
    assert FILE_HEAD + (CaptureRecords(s, ds) + CaptureRecord(s, d)) == CaptureFile(s, ds) + CaptureRecord(s, d);
    assert forall i :: 0 <= i < |ds| ==> (ds + [d])[i] == ds[i];
    assert (ds + [d])[|ds|] == d;
  }

  class Conversion {
    const s: Settings
    var group: seq<Message>
    var groupLen: nat
    var seqNo: nat
    var file: seq<byte>
    var packets: nat
    ghost var closed: seq<seq<Message>>

    /** The file holds the closed groups' datagrams, and the numbering goes on behind them. */
    ghost predicate Valid()
      reads this
    {
      && Usable(s) && NonEmpty(closed) && HaveMessages(Datagrams(s.session, 1, closed))
      && file == CaptureFile(s, Datagrams(s.session, 1, closed)) && AllPackable(Datagrams(s.session, 1, closed))
      && seqNo == 1 + |Joined(closed)| && packets == |closed|
    }

    /** These messages have been taken: all groups are closed but the open one. */
    ghost predicate Took(ms: seq<Message>)
      reads this
    {
      && Valid() && groupLen == |Frames(group)| && (group == [] <==> ms == [])
      && Groups(s, ms) == closed + (if group == [] then [] else [group])
    }

    /** The open group is a group of these messages and cannot be written. */
    ghost predicate Blocked(ms: seq<Message>)
      reads this
    {
      && group != [] && closed + [group] < Groups(s, ms)
      && !Packable(Datagram(s.session, 1 + |Joined(closed)|, group))
    }

    constructor (s: Settings)
      requires Usable(s)
      ensures this.s == s && Took([])
    {
      this.s := s;
      group, groupLen, seqNo, packets, closed := [], 0, 1, 0, [];
      file := FILE_HEAD;
      new;
      assert FILE_HEAD + [] == FILE_HEAD;
    }

    /** Writes the open group as one datagram; false when a header field cannot hold its value. */
    method Flush() returns (ok: bool)
      requires Valid()
      modifies `group, `seqNo, `file, `packets, `closed
      ensures Valid()
      ensures ok <==> old(group) == [] || Packable(Datagram(s.session, old(seqNo), old(group)))
      ensures closed == if ok && old(group) != [] then old(closed) + [old(group)] else old(closed)
      ensures ok ==> group == []
      ensures !ok ==> group == old(group) && seqNo == old(seqNo)
    {
      hide CaptureFile, CaptureRecord, Datagrams, Payload, Joined, HaveMessages, AllPackable, NonEmpty;
      if group == [] {
        return true;
      }
      var d := Datagram(s.session, seqNo, group);
      if d.seq64 >= WORD64 || |d.msgs| >= 0x1_0000 || |Payload(d)| > MOST {
        return false;
      }
      OneMoreGroup(s, closed, group);
      file := file + CaptureRecord(s, d);
      packets := packets + 1;
      seqNo := seqNo + |group|;
      closed := closed + [group];
      group := [];
      ok := true;
    }

    /** One message: the group is flushed first when the message does not go in. */
    method Put(m: Message, ghost ms: seq<Message>) returns (ok: bool)
      requires Took(ms)
      modifies this
      ensures ok ==> Took(ms + [m])
      ensures !ok ==> Blocked(ms + [m])
    {
      hide CaptureFile, CaptureRecord, Datagrams, Payload, Joined, HaveMessages, AllPackable, NonEmpty, Groups, Frames;
      GroupsExtend(s, ms, m);
      FramesAppend(group, [m]);
      FrameOfOne(m);
      var overSize := groupLen + MOLD_HEADER + (2 + |m|) > s.maxPayload;
      var overCount := s.perPacket.Some? && |group| >= s.perPacket.value;
      ghost var gs := Groups(s, ms);
      assert group != [] ==> gs[|gs| - 1] == group && gs[..|gs| - 1] == closed;
      if group != [] && (overSize || overCount) {
        ok := Flush();
        if !ok {
          assert Groups(s, ms + [m]) == closed + [group] + [[m]];
          return;
        }
        groupLen := 0;
      }
      assert group == [] ==> Groups(s, ms + [m]) == closed + [[m]] && [] + [m] == [m];
      group := group + [m];
      groupLen := groupLen + (2 + |m|);
      ok := true;
    }

    /** The last group written: the file is the capture of all messages. */
    method Finish(ghost ms: seq<Message>) returns (ok: bool)
      requires Took(ms)
      modifies `group, `seqNo, `file, `packets, `closed
      ensures ok ==>
                file == CaptureFile(s, Feed(s, ms)) && packets == |Feed(s, ms)| && AllPackable(Feed(s, ms))
      ensures !ok ==>
                && group != [] && closed + [group] == Groups(s, ms)
                && !Packable(Datagram(s.session, 1 + |Joined(closed)|, group))
    {
      hide CaptureFile, CaptureRecord, Datagrams, Payload, Joined, HaveMessages, AllPackable, NonEmpty, Groups,
           Frames, Packable;
      ok := Flush();
      assert closed + [] == closed;
    }
  }

  /** A group that cannot be written is a datagram that does not pack. */
  lemma {:induction false} BlockedMeans(s: Settings, closed: seq<seq<Message>>, g: seq<Message>, gs: seq<seq<Message>>)
    requires closed + [g] <= gs && !Packable(Datagram(s.session, 1 + |Joined(closed)|, g))
    ensures !AllPackable(Datagrams(s.session, 1, gs))
  {
    hide Packable, Joined;
    var k := |closed|;
    DatagramsPrefix(s.session, 1, gs, k + 1);
    assert gs[..k + 1] == closed + [g] && (closed + [g])[..k] == closed;
    assert Datagrams(s.session, 1, gs)[..k + 1][k] == Datagram(s.session, 1 + |Joined(closed)|, g);
  }

  /** The conversion succeeds on exactly these files. */
  predicate Convertible(s: Settings, c: Contents, limit: Option<nat>) {
    && |s.session| == 10
    && (c.cut ==> limit.Some? && limit.value < |c.msgs|)
    && AllAccepted(s, Taken(c.msgs, limit))
    && AllPackable(Feed(s, Taken(c.msgs, limit)))
  }

  /** The messages read so far, and what the rest of the file parses into. */
  ghost predicate ReadSoFar(all: Contents, ms: seq<Message>, rest: seq<byte>, limit: Option<nat>) {
    && all == Contents(ms + ParseFile(rest).msgs, ParseFile(rest).cut)
    && (limit.Some? ==> |ms| <= limit.value)
  }

  lemma {:induction false} ReadsNext(all: Contents, ms: seq<Message>, rest: seq<byte>, limit: Option<nat>)
    requires ReadSoFar(all, ms, rest, limit) && StartsWhole(rest)
    ensures
      var end := 2 + BigEndian(rest[..2]);
      var m := rest[2..end];
      if limit.Some? && |ms| >= limit.value then Taken(all.msgs, limit) == ms && limit.value < |all.msgs|
      else
        && |ms| < |Taken(all.msgs, limit)| && Taken(all.msgs, limit)[|ms|] == m && ms + [m] <= Taken(all.msgs, limit)
        && ReadSoFar(all, ms + [m], rest[end..], limit)
  {
    var end := 2 + BigEndian(rest[..2]);
    var m, more := rest[2..end], ParseFile(rest[end..]).msgs;
    assert all.msgs == ms + ([m] + more) == ms + [m] + more;
  }

  lemma {:induction false} ReadsLast(all: Contents, ms: seq<Message>, rest: seq<byte>, limit: Option<nat>)
    requires ReadSoFar(all, ms, rest, limit) && !StartsWhole(rest)
    ensures Taken(all.msgs, limit) == ms == all.msgs && (all.cut <==> rest != [])
            && !(limit.Some? && limit.value < |all.msgs|)
  {
  }

  predicate AllAccepted(s: Settings, ms: seq<Message>) {
    forall i :: 0 <= i < |ms| ==> |ms[i]| + 2 <= s.maxPayload
  }

  /** A blocked group stands in the way of the whole conversion. */
  lemma {:induction false} BlockedFails(s: Settings, closed: seq<seq<Message>>, g: seq<Message>, ms: seq<Message>,
                                        all: Contents, limit: Option<nat>)
    requires ms <= Taken(all.msgs, limit) && !Packable(Datagram(s.session, 1 + |Joined(closed)|, g))
    requires closed + [g] < Groups(s, ms) || (closed + [g] == Groups(s, ms) && ms == Taken(all.msgs, limit))
    ensures !Convertible(s, all, limit)
  {
    hide Packable, Joined, Groups, AllPackable, Datagrams;
    var taken := Taken(all.msgs, limit);
    var more := taken[|ms|..];
    assert taken == ms + more;
    if closed + [g] < Groups(s, ms) {
      ClosedStay(s, ms, more, closed + [g]);
    }
    BlockedMeans(s, closed, g, Groups(s, taken));
  }

  /** The conversion of a message file, with an optional limit on the messages. */
  method Convert(file: seq<byte>, s: Settings, limit: Option<nat>)
    returns (st: Status, capture: seq<byte>, packets: nat)
    requires Addresses(s)
    ensures st.BadSession? <==> |s.session| != 10
    ensures st.Fine? <==> Convertible(s, ParseFile(file), limit)
    ensures st.Fine? ==>
              var ds := Feed(s, Taken(ParseFile(file).msgs, limit));
              capture == CaptureFile(s, ds) && packets == |ds|
    ensures st.Oversized? ==>
              var ms := Taken(ParseFile(file).msgs, limit);
              st.index < |ms| && |ms[st.index]| + 2 > s.maxPayload && AllAccepted(s, ms[..st.index])
  {
    hide CaptureFile, Datagrams, Payload, Joined, HaveMessages, AllPackable, NonEmpty, Groups, Frames, Packable;
    hide ParseFile, StartsWhole, Taken, BigEndian, Conversion.Took, Conversion.Valid, Feed;
    if |s.session| != 10 {
      return BadSession, [], 0;
    }
    var c := new Conversion(s);
    var rest, idx := file, 0;
    ghost var all, ms: seq<Message> := ParseFile(file), [];
    capture, packets := [], 0;
    assert [] + all.msgs == all.msgs;
    while rest != []
      invariant fresh(c) && c.s == s && c.Took(ms) && idx == |ms|
      invariant ReadSoFar(all, ms, rest, limit) && AllAccepted(s, ms)
      decreases |rest|
    {
      if !StartsWhole(rest) {
        ReadsLast(all, ms, rest, limit);
        return CutShort, [], 0;
      }
      StartsInside(rest);
      var end := 2 + BigEndian(rest[..2]);
      var payload := rest[2..end];
      ReadsNext(all, ms, rest, limit);
      if limit.Some? && idx >= limit.value {
        break;
      }
      assert Taken(all.msgs, limit)[..idx] == (ms + [payload])[..idx] == ms;
      if |payload| + 2 > s.maxPayload {
        return Oversized(idx), [], 0;
      }
      var ok := c.Put(payload, ms);
      if !ok {
        BlockedFails(s, c.closed, c.group, ms + [payload], all, limit);
        return Unpackable, [], 0;
      }
      ms := ms + [payload];
      rest := rest[end..];
      idx := idx + 1;
    }
    if rest == [] {
      EmptyStarts();
      ReadsLast(all, ms, rest, limit);
    }
    var ok := c.Finish(ms);
    if !ok {
      BlockedFails(s, c.closed, c.group, ms, all, limit);
      return Unpackable, [], 0;
    }
    return Fine, c.file, c.packets;
  }

  lemma {:induction false} StartsInside(rest: seq<byte>)
    requires StartsWhole(rest)
    ensures |rest| >= 2 && |rest| >= 2 + BigEndian(rest[..2])
  {
  }

  lemma {:induction false} EmptyStarts()
    ensures !StartsWhole([])
  {
  }

  // ---- what the datagrams are ----

  /** Datagram k: the session, the number of its first message counted from one, a group. */
  lemma {:induction false} FeedSays(s: Settings, ms: seq<Message>, k: nat)
    requires k < |Feed(s, ms)|
    ensures
      var gs, d := Groups(s, ms), Feed(s, ms)[k];
      && |Feed(s, ms)| == |gs| && d.session == s.session && d.msgs == gs[k]
      && d.seq64 == 1 + |Joined(gs[..k])|
  {
    NumbersArePrefixSums(s.session, 1, Groups(s, ms), k);
  }
}
