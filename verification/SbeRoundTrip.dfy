// Which contents of a message come back as they were put in.
module SbeRoundTrip {
  import opened Bytes
  import opened Prices
  import opened SbeValues
  import opened SbeCodec
  import opened SbePackets

  // ---- rows ----

  /** The fields of a version. */
  function FieldNames(fs: seq<Field>, version: nat): set<string> {
    if fs == [] then {}
    else FieldNames(fs[..|fs| - 1], version) + if fs[|fs| - 1].since <= version then {fs[|fs| - 1].name} else {}
  }

  /** A value for every field of the version under the field's name, each faithful to its
      type, and nothing else. */
  predicate RowExact(fs: seq<Field>, row: Row, version: nat) {
    && row.Keys == FieldNames(fs, version)
    && forall i :: 0 <= i < |fs| && fs[i].since <= version ==> fs[i].name in row && Faithful(fs[i].typ, row[fs[i].name])
  }

  lemma {:induction false} SeenNames(fs: seq<Field>, row: Row, version: nat)
    requires RowEncodable(fs, row, version)
    ensures SeenRow(fs, row, version).Keys == FieldNames(fs, version)
    decreases |fs|
  {
    if fs != [] {
      SeenNames(fs[..|fs| - 1], row, version);
    }
  }

  lemma {:induction false} NamedField(fs: seq<Field>, version: nat, name: string) returns (i: nat)
    requires name in FieldNames(fs, version)
    ensures i < |fs| && fs[i].name == name && fs[i].since <= version
    decreases |fs|
  {
    if fs[|fs| - 1].since <= version && fs[|fs| - 1].name == name {
      i := |fs| - 1;
    } else {
      i := NamedField(fs[..|fs| - 1], version, name);
    }
  }

  lemma {:induction false} FieldNamed(fs: seq<Field>, version: nat, i: nat)
    requires i < |fs| && fs[i].since <= version
    ensures fs[i].name in FieldNames(fs, version)
    decreases |fs|
  {
    if i < |fs| - 1 {
      FieldNamed(fs[..|fs| - 1], version, i);
    }
  }

  /** A row comes back if and only if it is exact. */
  lemma {:induction false} RowComesBackIff(fs: seq<Field>, size: nat, row: Row, version: nat)
    requires SaneFields(fs, size) && RowEncodable(fs, row, version)
    ensures SeenRow(fs, row, version) == row <==> RowExact(fs, row, version)
  {
    hide SeenRow, FieldNames, Faithful, SeenField, FieldSize;
    SeenNames(fs, row, version);
    var seen := SeenRow(fs, row, version);
    forall i | 0 <= i < |fs| && fs[i].since <= version && row.Keys == FieldNames(fs, version)
      ensures fs[i].name in row && fs[i].name in seen
      ensures seen[fs[i].name] == row[fs[i].name] <==> Faithful(fs[i].typ, row[fs[i].name])
    {
      FieldNamed(fs, version, i);
      FieldComesBack(fs, size, row, version, i);
    }
    if RowExact(fs, row, version) {
      forall name | name in row
        ensures seen[name] == row[name]
      {
        var i := NamedField(fs, version, name);
      }
    }
  }

  predicate RowsExact(g: Group, rows: seq<Row>, version: nat) {
    forall k :: 0 <= k < |rows| ==> RowExact(g.fields, rows[k], version)
  }

  lemma {:induction false} RowsComeBackIff(g: Group, rows: seq<Row>, version: nat)
    requires SaneFields(g.fields, g.blockLength) && RowsEncodable(g, rows, version)
    ensures SeenRows(g, rows, version) == rows <==> RowsExact(g, rows, version)
  {
    hide SeenRow, RowExact, SeenRows, RowEncodable, SaneFields;
    var seen := SeenRows(g, rows, version);
    if rows == [] {
      NoRows(g, version);
    } else {
      EntriesComeBack(g, rows, version, 0);
      forall k | 0 <= k < |rows|
        ensures seen[k] == rows[k] <==> RowExact(g.fields, rows[k], version)
      {
        EntriesComeBack(g, rows, version, k);
        RowComesBackIff(g.fields, g.blockLength, rows[k], version);
      }
      if RowsExact(g, rows, version) {
        forall k | 0 <= k < |rows|
          ensures seen[k] == rows[k]
        {
          assert RowExact(g.fields, rows[k], version);
        }
        assert seen == rows;
      }
    }
  }

  lemma {:induction false} NoRows(g: Group, version: nat)
    ensures RowsEncodable(g, [], version) && SeenRows(g, [], version) == []
  {
  }

  // ---- groups ----

  /** The names that decoding gives groups under. */
  lemma {:induction false} DecodedNames(gs: seq<Group>, buf: seq<byte>, base: nat, version: nat)
    ensures DecodeGroups(gs, buf, base, version).Keys == NamesUpTo(gs, version)
    decreases |gs|
  {
    hide DecodeEntries, EntryCount;
    if gs != [] {
      var g := gs[0];
      var next := if g.since > version then base
                  else if base + DimSize(g) > |buf| then base + DimSize(g)
                  else DecodeEntries(g, buf, base + DimSize(g), EntryCount(g, buf, base) as nat, version).1;
      DecodedNames(gs[1..], buf, next, version);
    }
  }

  /** The entries found where a group's dimension is looked for. */
  function RowsAt(g: Group, buf: seq<byte>, at: nat, version: nat): seq<Row> {
    if at + DimSize(g) > |buf| then []
    else DecodeEntries(g, buf, at + DimSize(g), EntryCount(g, buf, at) as nat, version).0
  }

  lemma {:induction false} EntriesTake(g: Group, buf: seq<byte>, base: nat, n: nat, version: nat)
    ensures
      var (rows, at) := DecodeEntries(g, buf, base, n, version);
      at == base + |rows| * g.blockLength
    decreases n
  {
    hide DecodeBlock;
    if n > 0 && base + g.blockLength <= |buf| {
      EntriesTake(g, buf, base + g.blockLength, n - 1, version);
      var rest := DecodeEntries(g, buf, base + g.blockLength, n - 1, version).0;
      assert (1 + |rest|) * g.blockLength == g.blockLength + |rest| * g.blockLength;
    }
  }

  /** Where the dimension of the group behind this one stands. */
  function Behind(g: Group, at: nat, rows: seq<Row>): nat {
    at + DimSize(g) + |rows| * g.blockLength
  }

  /** Decoding takes one group of the version after the other. */
  lemma {:induction false} DecodeStep(gs: seq<Group>, buf: seq<byte>, at: nat, version: nat)
    requires gs != [] && gs[0].since <= version
    ensures
      var rows := RowsAt(gs[0], buf, at, version);
      DecodeGroups(gs, buf, at, version) == DecodeGroups(gs[1..], buf, Behind(gs[0], at, rows), version)
        + map[gs[0].name := rows]
  {
    hide DecodeEntries, EntryCount;
    if at + DimSize(gs[0]) <= |buf| {
      EntriesTake(gs[0], buf, at + DimSize(gs[0]), EntryCount(gs[0], buf, at) as nat, version);
    }
  }

  /** What makes the groups come back, from one on whose dimension stands at a place and is
      looked for that much before it, by the dimensions of the newer groups passed over:
      exact entries up to the first newer group; behind it, what is found at the wrong place
      has to be the entries. */
  predicate GroupsCome(gs: seq<Group>, c: Content, version: nat, buf: seq<byte>, at: nat, lag: nat)
    requires lag <= at
    decreases |gs|
  {
    gs == [] ||
    var g, rows := gs[0], RowsFor(gs[0], c);
    if g.since > version then GroupsCome(gs[1..], c, version, buf, Behind(g, at, rows), lag + DimSize(g))
    else
      && (if lag == 0 then RowsExact(g, rows, version) else RowsAt(g, buf, at - lag, version) == rows)
      && GroupsCome(gs[1..], c, version, buf, Behind(g, at, rows), lag)
  }

  /** The content names no group that is newer than the version. */
  predicate NoneNamed(gs: seq<Group>, c: Content, version: nat) {
    forall i :: 0 <= i < |gs| && gs[i].since > version ==> RowsFor(gs[i], c) == []
  }

  /** What decoding gives for the groups of the version is what the content has for them. */
  predicate Matches(gs: seq<Group>, c: Content, version: nat, d: map<string, seq<Row>>) {
    forall i :: 0 <= i < |gs| && gs[i].since <= version ==> gs[i].name in d && d[gs[i].name] == RowsFor(gs[i], c)
  }

  lemma {:induction false} MatchesSkip(gs: seq<Group>, c: Content, version: nat, d: map<string, seq<Row>>)
    requires gs != [] && gs[0].since > version
    ensures Matches(gs, c, version, d) <==> Matches(gs[1..], c, version, d)
    ensures NoneNamed(gs, c, version) ==> NoneNamed(gs[1..], c, version)
  {
    assert forall i :: 0 <= i < |gs| - 1 ==> gs[1..][i] == gs[i + 1];
    assert forall i :: 0 < i < |gs| ==> gs[i] == gs[1..][i - 1];
  }

  lemma {:induction false} MatchesCons(gs: seq<Group>, c: Content, version: nat, d: map<string, seq<Row>>,
                                       rows: seq<Row>)
    requires SaneGroups(gs) && gs != [] && gs[0].since <= version
    ensures Matches(gs, c, version, d + map[gs[0].name := rows])
            <==> rows == RowsFor(gs[0], c) && Matches(gs[1..], c, version, d)
    ensures NoneNamed(gs, c, version) ==> NoneNamed(gs[1..], c, version)
  {
    hide SaneGroup;
    assert forall i :: 0 <= i < |gs| - 1 ==> gs[1..][i] == gs[i + 1];
    assert forall i :: 0 < i < |gs| ==> gs[i] == gs[1..][i - 1];
  }

  /** The bytes of the groups behind the first one. */
  lemma {:induction false} RestStands(gs: seq<Group>, c: Content, version: nat, buf: seq<byte>, at: nat)
    requires SaneGroups(gs) && gs != [] && EncodeGroups(gs, c, version).Some?
             && Stands(buf, at, EncodeGroups(gs, c, version).value)
    ensures SaneGroups(gs[1..]) && SaneGroup(gs[0]) && EncodeGroups(gs[1..], c, version).Some?
    ensures Dimension(gs[0], |RowsFor(gs[0], c)|).Some? && Stands(buf, at, Dimension(gs[0], |RowsFor(gs[0], c)|).value)
    ensures Stands(buf, Behind(gs[0], at, RowsFor(gs[0], c)), EncodeGroups(gs[1..], c, version).value)
  {
    hide EncodeEntries, SaneGroup, Dimension;
    SaneTail(gs);
    var g, rows := gs[0], RowsFor(gs[0], c);
    var dim, body, more := Dimension(g, |rows|).value, EncodeEntries(g, rows, version).value,
      EncodeGroups(gs[1..], c, version).value;
    TwoParts(buf, at, dim, body + more);
    TwoParts(buf, at + |dim|, body, more);
  }

  /** A group found in its place has the entries as they are seen. */
  lemma {:induction false} RowsInPlace(gs: seq<Group>, c: Content, version: nat, buf: seq<byte>, at: nat)
    requires SaneGroups(gs) && gs != [] && gs[0].since <= version
    requires EncodeGroups(gs, c, version).Some? && Stands(buf, at, EncodeGroups(gs, c, version).value)
    ensures RowsAt(gs[0], buf, at, version) == RowsFor(gs[0], c) <==> RowsExact(gs[0], RowsFor(gs[0], c), version)
  {
    hide EncodeGroups, DecodeGroups, SeenRows, RowsEncodable, RowsExact, RowsAt, Stands;
    var next := FirstGroupReads(gs, c, version, buf, at);
    DecodeStep(gs, buf, at, version);
    assert DecodeGroups(gs, buf, at, version)[gs[0].name] == RowsAt(gs[0], buf, at, version);
    SaneTail(gs);
    RowsComeBackIff(gs[0], RowsFor(gs[0], c), version);
  }

  /** Group by group. */
  lemma {:induction false} GroupsMatchIff(gs: seq<Group>, c: Content, version: nat, buf: seq<byte>, at: nat, lag: nat)
    requires SaneGroups(gs) && EncodeGroups(gs, c, version).Some? && NoneNamed(gs, c, version) && lag <= at
    requires Stands(buf, at, EncodeGroups(gs, c, version).value)
    ensures Matches(gs, c, version, DecodeGroups(gs, buf, at - lag, version))
            <==> GroupsCome(gs, c, version, buf, at, lag)
    decreases |gs|
  {
    hide EncodeGroups, RowsExact, RowsAt, Stands, Matches, NoneNamed, SaneGroups, EntryCount, DecodeEntries, Dimension;
    if gs == [] {
      NothingToMatch(c, version, buf, at - lag);
    } else {
      var g, rows := gs[0], RowsFor(gs[0], c);
      RestStands(gs, c, version, buf, at);
      if g.since > version {
        NewerIsEmpty(gs, c, version);
        MatchesSkip(gs, c, version, DecodeGroups(gs, buf, at - lag, version));
        GroupsMatchIff(gs[1..], c, version, buf, Behind(g, at, rows), lag + DimSize(g));
      } else {
        DecodeStep(gs, buf, at - lag, version);
        var found := RowsAt(g, buf, at - lag, version);
        MatchesCons(gs, c, version, DecodeGroups(gs[1..], buf, Behind(g, at - lag, found), version), found);
        if lag == 0 {
          RowsInPlace(gs, c, version, buf, at);
        }
        if found == rows {
          GroupsMatchIff(gs[1..], c, version, buf, Behind(g, at, rows), lag);
        }
      }
    }
  }

  lemma {:induction false} NothingToMatch(c: Content, version: nat, buf: seq<byte>, at: nat)
    ensures Matches([], c, version, DecodeGroups([], buf, at, version))
  {
  }

  lemma {:induction false} NewerIsEmpty(gs: seq<Group>, c: Content, version: nat)
    requires gs != [] && gs[0].since > version && NoneNamed(gs, c, version)
    ensures RowsFor(gs[0], c) == []
  {
  }

  lemma {:induction false} UnnamedNewer(gs: seq<Group>, c: Content, version: nat)
    requires SaneGroups(gs) && c.groups.Keys == NamesUpTo(gs, version)
    ensures NoneNamed(gs, c, version)
    ensures forall i :: 0 <= i < |gs| && gs[i].since <= version ==> gs[i].name in c.groups
  {
    forall i | 0 <= i < |gs|
      ensures gs[i].since <= version <==> gs[i].name in c.groups
    {
      if gs[i].since > version {
        NewerIsNotNamed(gs, version, i);
      } else {
        OlderIsNamed(gs, version, i);
      }
    }
  }

  lemma {:induction false} OlderIsNamed(gs: seq<Group>, version: nat, i: nat)
    requires i < |gs| && gs[i].since <= version
    ensures gs[i].name in NamesUpTo(gs, version)
    decreases |gs|
  {
    if i > 0 {
      assert gs[1..][i - 1] == gs[i];
      OlderIsNamed(gs[1..], version, i - 1);
    }
  }

  lemma {:induction false} NamedIsOlder(gs: seq<Group>, version: nat, name: string) returns (i: nat)
    requires name in NamesUpTo(gs, version)
    ensures i < |gs| && gs[i].since <= version && gs[i].name == name
    decreases |gs|
  {
    if gs[0].since <= version && gs[0].name == name {
      i := 0;
    } else {
      var k := NamedIsOlder(gs[1..], version, name);
      i := k + 1;
    }
  }

  /** The groups come back if and only if the content names exactly those of the version
      and each is found with its entries. */
  lemma {:induction false} GroupsComeBackIff(gs: seq<Group>, c: Content, version: nat, buf: seq<byte>, at: nat)
    requires SaneGroups(gs) && EncodeGroups(gs, c, version).Some? && Stands(buf, at, EncodeGroups(gs, c, version).value)
    ensures DecodeGroups(gs, buf, at, version) == c.groups
            <==> c.groups.Keys == NamesUpTo(gs, version) && GroupsCome(gs, c, version, buf, at, 0)
  {
    hide EncodeGroups, DecodeGroups, GroupsCome, Stands, NamesUpTo, SaneGroups, NoneNamed;
    var d := DecodeGroups(gs, buf, at, version);
    DecodedNames(gs, buf, at, version);
    if c.groups.Keys == NamesUpTo(gs, version) {
      UnnamedNewer(gs, c, version);
      GroupsMatchIff(gs, c, version, buf, at, 0);
      if Matches(gs, c, version, d) {
        forall name | name in d
          ensures d[name] == c.groups[name]
        {
          var i := NamedIsOlder(gs, version, name);
        }
        assert d == c.groups;
      }
    }
  }

  // ---- templates where it is only the entries that count ----

  /** Every group of the version that the content names is exact. */
  predicate OlderExact(gs: seq<Group>, c: Content, version: nat) {
    forall i :: 0 <= i < |gs| && gs[i].since <= version ==> RowsExact(gs[i], RowsFor(gs[i], c), version)
  }

  lemma {:induction false} OlderExactCons(gs: seq<Group>, c: Content, version: nat)
    requires gs != []
    ensures OlderExact(gs, c, version) <==>
            (gs[0].since <= version ==> RowsExact(gs[0], RowsFor(gs[0], c), version)) && OlderExact(gs[1..], c, version)
  {
    hide RowsExact;
    assert forall i :: 0 <= i < |gs| - 1 ==> gs[1..][i] == gs[i + 1];
    assert forall i :: 0 < i < |gs| ==> gs[i] == gs[1..][i - 1];
  }

  /** Groups that came later stand later, as the encoding's rules for extending a message
      ask. */
  predicate NewerLast(gs: seq<Group>, version: nat) {
    forall i, j :: 0 <= i < j < |gs| && gs[j].since <= version ==> gs[i].since <= version
  }

  /** Newer groups at the end: all depends on the entries. */
  lemma {:induction false} LaterGroupsLast(gs: seq<Group>, c: Content, version: nat, buf: seq<byte>, at: nat, lag: nat)
    requires NewerLast(gs, version) && lag <= at && (lag > 0 ==> forall i :: 0 <= i < |gs| ==> gs[i].since > version)
    ensures GroupsCome(gs, c, version, buf, at, lag) <==> OlderExact(gs, c, version)
    decreases |gs|
  {
    hide RowsExact, OlderExact, RowsAt;
    if gs == [] {
      NothingOlder(c, version);
    } else {
      OlderExactCons(gs, c, version);
      assert forall i :: 0 <= i < |gs| - 1 ==> gs[1..][i] == gs[i + 1];
      LaterGroupsLast(gs[1..], c, version, buf, Behind(gs[0], at, RowsFor(gs[0], c)),
                      if gs[0].since > version then lag + DimSize(gs[0]) else lag);
    }
  }

  lemma {:induction false} NothingOlder(c: Content, version: nat)
    ensures OlderExact([], c, version)
  {
  }

  /** All dimensions take the same number of bytes. */
  predicate OneWidth(gs: seq<Group>) {
    forall i, j :: 0 <= i < j < |gs| ==> gs[i].wide == gs[j].wide
  }

  /** A group of the version behind a newer one has no entries. */
  predicate EmptyBehind(gs: seq<Group>, c: Content, version: nat, behind: bool)
    decreases |gs|
  {
    gs == [] ||
    ((behind && gs[0].since <= version ==> RowsFor(gs[0], c) == [])
     && EmptyBehind(gs[1..], c, version, behind || gs[0].since > version))
  }

  /** A dimension of that many bytes stands there and says no entries. */
  predicate SaysNone(w: nat, buf: seq<byte>, at: int) {
    0 <= at < at + w <= |buf| && buf[at + w - 1] == 0
  }

  /** Nothing but such dimensions for so many bytes before a place. */
  predicate NoneBefore(w: nat, buf: seq<byte>, at: nat, lag: nat)
    decreases lag
  {
    lag == 0 || (0 < w <= lag && SaysNone(w, buf, at - lag) && NoneBefore(w, buf, at, lag - w))
  }

  lemma {:induction false} OneMoreNone(w: nat, buf: seq<byte>, at: nat, lag: nat)
    requires w > 0 && NoneBefore(w, buf, at, lag) && SaysNone(w, buf, at)
    ensures NoneBefore(w, buf, at + w, lag + w) && (lag > 0 ==> NoneBefore(w, buf, at + w, lag))
    decreases lag
  {
    if lag > 0 {
      OneMoreNone(w, buf, at, lag - w);
    } else {
      assert NoneBefore(w, buf, at + w, 0);
    }
  }

  lemma {:induction false} NoneFound(g: Group, buf: seq<byte>, at: nat, version: nat)
    requires SaysNone(DimSize(g), buf, at)
    ensures RowsAt(g, buf, at, version) == []
  {
    hide DecodeBlock;
  }

  lemma {:induction false} EmptySaysNone(g: Group, buf: seq<byte>, at: nat)
    requires Dimension(g, 0).Some? && Stands(buf, at, Dimension(g, 0).value)
    ensures SaysNone(DimSize(g), buf, at)
  {
    var d := Dimension(g, 0).value;
    assert buf[at..at + |d|][|d| - 1] == buf[at + |d| - 1];
  }

  lemma {:induction false} NothingIsExact(g: Group, version: nat)
    ensures RowsExact(g, [], version)
  {
  }

  /** Dimensions of one width: behind a newer group nothing is ever found, so all depends on
      the entries before it, and on there being none behind. */
  lemma {:induction false} OneWidthCome(gs: seq<Group>, w: nat, c: Content, version: nat, buf: seq<byte>, at: nat,
                                        lag: nat)
    requires SaneGroups(gs) && EncodeGroups(gs, c, version).Some? && NoneNamed(gs, c, version) && lag <= at
    requires Stands(buf, at, EncodeGroups(gs, c, version).value)
    requires w > 0 && (forall i :: 0 <= i < |gs| ==> DimSize(gs[i]) == w) && NoneBefore(w, buf, at, lag)
    ensures GroupsCome(gs, c, version, buf, at, lag)
            <==> OlderExact(gs, c, version) && EmptyBehind(gs, c, version, lag > 0)
    decreases |gs|
  {
    hide EncodeGroups, RowsExact, OlderExact, RowsAt, Stands, SaneGroups, SaneGroup, Dimension, DimSize, SaysNone,
         NoneNamed;
    if gs == [] {
      NothingOlder(c, version);
    } else {
      var g, rows := gs[0], RowsFor(gs[0], c);
      OlderExactCons(gs, c, version);
      RestStands(gs, c, version, buf, at);
      TailNoneNamed(gs, c, version);
      assert forall i :: 0 <= i < |gs| - 1 ==> gs[1..][i] == gs[i + 1];
      if rows == [] {
        EmptySaysNone(g, buf, at);
        OneMoreNone(w, buf, at, lag);
        NothingIsExact(g, version);
      }
      if lag > 0 {
        NoneFound(g, buf, at - lag, version);
      }
      if g.since > version {
        OneWidthCome(gs[1..], w, c, version, buf, at + w, lag + w);
      } else if lag == 0 || rows == [] {
        OneWidthCome(gs[1..], w, c, version, buf, Behind(g, at, rows), lag);
      }
    }
  }

  lemma {:induction false} TailNoneNamed(gs: seq<Group>, c: Content, version: nat)
    requires NoneNamed(gs, c, version) && gs != []
    ensures NoneNamed(gs[1..], c, version) && (gs[0].since > version ==> RowsFor(gs[0], c) == [])
  {
    assert forall i :: 0 <= i < |gs| - 1 ==> gs[1..][i] == gs[i + 1];
  }

  // ---- messages ----

  /** Everything that the version of the message has, faithfully, and nothing else. */
  predicate Exact(t: Template, c: Content, version: nat) {
    RowExact(t.fields, c.root, version) && c.groups.Keys == NamesUpTo(t.groups, version)
      && OlderExact(t.groups, c, version)
  }

  /** What makes a message come back: exact fields, exactly the groups of the version, and
      each of them found with its entries. */
  predicate Comes(t: Template, c: Content, version: nat)
    requires SaneTemplate(t) && EncodeBody(t, c, version).Some?
  {
    && RowExact(t.fields, c.root, version) && c.groups.Keys == NamesUpTo(t.groups, version)
    && GroupsCome(t.groups, c, version, EncodeBody(t, c, version).value, t.blockLength, 0)
  }

  lemma {:induction false} BodyParts(t: Template, c: Content, version: nat)
    requires SaneTemplate(t) && EncodeBody(t, c, version).Some?
    ensures
      var body := EncodeBody(t, c, version).value;
      var root, groups := EncodeBlock(t.blockLength, t.fields, c.root, version, true),
        EncodeGroups(t.groups, c, version);
      && root.Some? && groups.Some? && Stands(body, 0, root.value) && Stands(body, t.blockLength, groups.value)
  {
    hide EncodeBlock, EncodeGroups, SaneFields, SaneGroups;
    var root, groups := EncodeBlock(t.blockLength, t.fields, c.root, version, true).value,
      EncodeGroups(t.groups, c, version).value;
    TwoParts(root + groups, 0, root, groups);
  }

  /** The round trip of a message, for every template and every content that can be encoded. */
  lemma {:induction false} MessageComesBackIff(schema: map<nat, Template>, n: nat, time: nat, t: Template,
                                               c: Content, schemaId: nat, version: nat)
    requires SaneTemplate(t) && EncodeBody(t, c, version).Some?
    requires t.id in SUBSET && t.id in schema && schema[t.id] == t
    ensures DecodeMessage(schema, Handed(n, time, t, c, schemaId, version)) == c <==> Comes(t, c, version)
  {
    hide EncodeBody, EncodeBlock, DecodeBlock, EncodeGroups, DecodeGroups, SeenRow, RowEncodable, SaneFields,
         SaneGroups, RowExact, GroupsCome;
    BodyParts(t, c, version);
    var body := EncodeBody(t, c, version).value;
    RootReads(t, c, version, body);
    RowComesBackIff(t.fields, t.blockLength, c.root, version);
    GroupsComeBackIff(t.groups, c, version, body, t.blockLength);
  }

  /** With newer groups last, a content comes back if and only if it is exact. */
  lemma {:induction false} NewerLastComesIff(t: Template, c: Content, version: nat)
    requires SaneTemplate(t) && EncodeBody(t, c, version).Some? && NewerLast(t.groups, version)
    ensures Comes(t, c, version) <==> Exact(t, c, version)
  {
    hide EncodeBody, RowExact, GroupsCome, OlderExact;
    LaterGroupsLast(t.groups, c, version, EncodeBody(t, c, version).value, t.blockLength, 0);
  }

  /** With dimensions of one width, a content comes back if and only if it is exact and has
      no entries behind a newer group. */
  lemma {:induction false} OneWidthComesIff(t: Template, c: Content, version: nat)
    requires SaneTemplate(t) && EncodeBody(t, c, version).Some? && OneWidth(t.groups)
    ensures Comes(t, c, version) <==> Exact(t, c, version) && EmptyBehind(t.groups, c, version, false)
  {
    hide EncodeBody, RowExact, GroupsCome, OlderExact, EmptyBehind, SaneGroups, NoneNamed, NamesUpTo;
    if c.groups.Keys == NamesUpTo(t.groups, version) {
      BodyParts(t, c, version);
      UnnamedNewer(t.groups, c, version);
      var w := if t.groups != [] then DimSize(t.groups[0]) else 3;
      OneWidthCome(t.groups, w, c, version, EncodeBody(t, c, version).value, t.blockLength, 0);
    }
  }

  /** A newer group in front of an older one: the older one's entry is lost, since its
      dimension is read where the newer one's stands. */
  lemma {:induction false} MisreadBehindNewer()
    ensures
      var g, h := Group("New", 0, false, [], 1), Group("Old", 0, false, [], 0);
      var t, c := Template(46, 0, [], [g, h]), Content(map[], map[h.name := [map[]]]);
      && SaneTemplate(t) && Exact(t, c, 0) && EncodeBody(t, c, 0) == Some([0, 0, 0, 0, 0, 1])
      && DecodeMessage(map[t.id := t], Handed(1, 0, t, c, 1, 0)).groups == map[h.name := []]
  {
    hide EncodeGroups, DecodeGroups, EncodeBlock;
    var g, h := Group("New", 0, false, [], 1), Group("Old", 0, false, [], 0);
    var t, c := Template(46, 0, [], [g, h]), Content(map[], map[h.name := [map[]]]);
    TwoGroupsEncoded(g, h, c);
    TwoGroupsDecoded(g, h);
    EmptyBlock(c.root, true);
    assert [g, h][1..] == [h] && [h][1..] == [];
    assert NamesUpTo([h], 0) == {h.name} == NamesUpTo([g, h], 0);
    assert RowExact([], map[], 0) && [] + [0, 0, 0, 0, 0, 1] == [0, 0, 0, 0, 0, 1];
  }

  lemma {:induction false} EmptyBlock(row: Row, optional: bool)
    ensures EncodeBlock(0, [], row, 0, optional) == Some([])
  {
  }

  lemma {:induction false} TwoGroupsEncoded(g: Group, h: Group, c: Content)
    requires g.blockLength == h.blockLength == 0 && !g.wide && !h.wide && g.fields == h.fields == [] && g.name != h.name
    requires c.groups == map[h.name := [map[]]]
    ensures SaneGroups([g, h]) && EncodeGroups([g, h], c, 0) == Some([0, 0, 0, 0, 0, 1])
  {
    hide Dimension, EncodeEntries;
    OneEmptyEntry(h, c);
    NoEntry(g);
    assert [g, h][1..] == [h] && RowsFor(g, c) == [];
    assert EncodeGroups([g, h], c, 0) == Some([0, 0, 0] + ([] + [0, 0, 1]));
    assert [0, 0, 0] + ([] + [0, 0, 1]) == [0, 0, 0, 0, 0, 1];
  }

  lemma {:induction false} NoEntry(g: Group)
    requires g.blockLength == 0 && !g.wide && g.fields == []
    ensures Dimension(g, 0) == Some([0, 0, 0]) && EncodeEntries(g, [], 0) == Some([])
  {
    assert ToLittleEndian(0, 1) == [0] && ToLittleEndian(0, 2) == [0, 0];
    assert Dimension(g, 0).value == [0, 0] + [0] == [0, 0, 0];
  }

  lemma {:induction false} TwoGroupsDecoded(g: Group, h: Group)
    requires g.since > 0 && h.since == 0 && !h.wide
    ensures DecodeGroups([g, h], [0, 0, 0, 0, 0, 1], 0, 0) == map[h.name := []]
  {
    var buf: seq<byte> := [0, 0, 0, 0, 0, 1];
    assert [g, h][1..] == [h] && [h][1..] == [];
    assert EntryCount(h, buf, 0) == 0;
    assert DecodeGroups([h], buf, 0, 0) == map[h.name := []];
  }

  // ---- right by accident ----

  const NEWER := Group("New", 0, true, [], 1)
  const FIRST := Group("First", 1, false, [], 0)
  const SECOND := Group("Second", 0, false, [], 0)
  const THIRD := Group("Third", 0, false, [], 0)
  const LAST := [THIRD]
  const LAST_TWO := [SECOND, THIRD]
  const LAST_THREE := [FIRST, SECOND, THIRD]
  const FOUR_GROUPS := [NEWER, FIRST, SECOND, THIRD]

  lemma {:induction false} Tails()
    ensures FOUR_GROUPS[1..] == LAST_THREE && LAST_THREE[1..] == LAST_TWO && LAST_TWO[1..] == LAST && LAST[1..] == []
    ensures SaneGroups(FOUR_GROUPS) && SaneGroups(LAST_THREE) && SaneGroups(LAST_TWO) && SaneGroups(LAST)
  {
  }

  lemma {:induction false} EncodeOnto(gs: seq<Group>, c: Content, dim: seq<byte>, rest: seq<byte>, all: seq<byte>)
    requires SaneGroups(gs) && gs != [] && SaneGroup(gs[0])
    requires SaneGroups(gs[1..]) && EncodeGroups(gs[1..], c, 0) == Some(rest) && all == dim + rest
    requires Dimension(gs[0], |RowsFor(gs[0], c)|) == Some(dim)
             && EncodeEntries(gs[0], RowsFor(gs[0], c), 0) == Some([])
    ensures EncodeGroups(gs, c, 0) == Some(all)
  {
    hide Dimension, EncodeEntries, SaneGroup;
    assert [] + rest == rest;
  }

  lemma {:induction false} EmptyDimensions()
    ensures Dimension(NEWER, 0) == Some([0, 0, 0, 0, 0, 0, 0, 0]) && EncodeEntries(NEWER, [], 0) == Some([])
    ensures Dimension(FIRST, 0) == Some([1, 0, 0]) && EncodeEntries(FIRST, [], 0) == Some([])
  {
    assert ToLittleEndian(0, 1) == [0] && ToLittleEndian(0, 2) == [0, 0] && ToLittleEndian(1, 2) == [1, 0];
    assert [0, 0] + [0, 0, 0, 0, 0, 0] == [0, 0, 0, 0, 0, 0, 0, 0] && [1, 0] + [0] == [1, 0, 0];
  }

  lemma {:induction false} FourEncoded(c: Content)
    requires c.groups == map[FIRST.name := [], SECOND.name := [], THIRD.name := [map[]]]
    ensures SaneGroups(FOUR_GROUPS)
    ensures EncodeGroups(FOUR_GROUPS, c, 0) == Some([0, 0, 0, 0, 0, 0, 0, 0, 1, 0, 0, 0, 0, 0, 0, 0, 1])
  {
    hide Dimension, EncodeEntries, SaneGroups, EncodeGroups;
    Tails();
    EmptyDimensions();
    NoEntry(SECOND);
    EmptyEntry(THIRD);
    NoGroup(c);
    EncodeOnto(LAST, c, [0, 0, 1], [], [0, 0, 1]);
    EncodeOnto(LAST_TWO, c, [0, 0, 0], [0, 0, 1], [0, 0, 0, 0, 0, 1]);
    EncodeOnto(LAST_THREE, c, [1, 0, 0], [0, 0, 0, 0, 0, 1], [1, 0, 0, 0, 0, 0, 0, 0, 1]);
    EncodeOnto(FOUR_GROUPS, c, [0, 0, 0, 0, 0, 0, 0, 0], [1, 0, 0, 0, 0, 0, 0, 0, 1],
               [0, 0, 0, 0, 0, 0, 0, 0, 1, 0, 0, 0, 0, 0, 0, 0, 1]);
  }

  lemma {:induction false} NoGroup(c: Content)
    ensures SaneGroups([]) && EncodeGroups([], c, 0) == Some([])
  {
  }

  /** With dimensions of both widths an entry behind a newer group can come back all the
      same: the number of entries is read out of another group's block length. */
  lemma {:induction false} RightByAccident()
    ensures
      var t := Template(46, 0, [], FOUR_GROUPS);
      var c := Content(map[], map[FIRST.name := [], SECOND.name := [], THIRD.name := [map[]]]);
      && SaneTemplate(t) && EncodeBody(t, c, 0).Some? && !EmptyBehind(t.groups, c, 0, false)
      && DecodeMessage(map[t.id := t], Handed(1, 0, t, c, 1, 0)) == c
  {
    hide EncodeGroups, DecodeEntries;
    var t := Template(46, 0, [], FOUR_GROUPS);
    var c := Content(map[], map[FIRST.name := [], SECOND.name := [], THIRD.name := [map[]]]);
    FourEncoded(c);
    EmptyBlock(c.root, true);
    var buf: seq<byte> := [0, 0, 0, 0, 0, 0, 0, 0, 1, 0, 0, 0, 0, 0, 0, 0, 1];
    assert [] + buf == buf && EncodeBody(t, c, 0) == Some(buf);
    FourDecoded(buf);
    Tails();
    assert !EmptyBehind(LAST, c, 0, true);
    assert !EmptyBehind(LAST_TWO, c, 0, true);
    assert !EmptyBehind(LAST_THREE, c, 0, true);
  }

  lemma {:induction false} FourDecoded(buf: seq<byte>)
    requires buf == [0, 0, 0, 0, 0, 0, 0, 0, 1, 0, 0, 0, 0, 0, 0, 0, 1]
    ensures DecodeGroups(FOUR_GROUPS, buf, 0, 0) == map[FIRST.name := [], SECOND.name := [], THIRD.name := [map[]]]
  {
    Tails();
    hide SaneGroups;
    assert EntryCount(FIRST, buf, 0) == 0 && EntryCount(SECOND, buf, 3) == 0 && EntryCount(THIRD, buf, 6) == 1;
    assert DecodeEntries(THIRD, buf, 9, 1, 0).0 == [map[]];
    assert DecodeGroups(LAST, buf, 6, 0) == map[THIRD.name := [map[]]];
    assert DecodeGroups(LAST_TWO, buf, 3, 0) == map[SECOND.name := [], THIRD.name := [map[]]];
    assert DecodeGroups(LAST_THREE, buf, 0, 0) == map[FIRST.name := [], SECOND.name := [], THIRD.name := [map[]]];
  }

  /** The round trip of a packet, message by message. */
  lemma {:induction false} PacketComesBackIff(schema: map<nat, Template>, n: nat, time: nat, items: seq<Item>, i: nat)
    requires Encodes(items) && EncodePacket(n, time, EncodedAll(items)).Some? && i < |items|
    requires items[i].t.id in SUBSET && items[i].t.id in schema && schema[items[i].t.id] == items[i].t
    ensures
      var ms := PacketMessages(EncodePacket(n, time, EncodedAll(items)).value);
      && ms.Some? && |ms.value| == |items|
      && (DecodeMessage(schema, ms.value[i]) == items[i].c <==> Comes(items[i].t, items[i].c, items[i].version))
  {
    hide EncodePacket, PacketMessages, DecodeMessage, Comes, Handed;
    var x := items[i];
    PacketRoundTrip(n, time, items);
    MessageComesBackIff(schema, n, time, x.t, x.c, x.schemaId, x.version);
  }
}
