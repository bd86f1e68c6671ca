// Every run of the passthrough path: under any schedule of arriving messages
// and any ready line, the output carries exactly the words of the reference
// records, in order, none lost and none twice.
module PassthroughRuns {
  import opened Bytes
  import opened Itch
  import opened Passthrough
  import opened Prices

  /** The path with its history: the messages captured and the words delivered. */
  datatype Config = Config(r: Regs, all: seq<Captured>, sent: seq<Slot>)

  function Tick(c: Config, i: In): Config
    requires RegsShaped(c.r) && c.r.p.cnt <= 3 && GoodInput(i)
  {
    Config(Edge(c.r, i), if i.captured.Some? then c.all + [i.captured.value] else c.all,
           if c.r.f.valid && i.ready then c.sent + [c.r.f.shown] else c.sent)
  }

  predicate AllComplete(ms: seq<Captured>) {
    forall i :: 0 <= i < |ms| ==> Complete(ms[i])
  }

  // ---- the words of a body ----

  /** Word i of a body: four bytes, or what is left of them and zeroes. */
  lemma {:induction false} WordAt(s: seq<byte>, i: nat)
    ensures |Words(s, 4)| == (|s| + 3) / 4
    ensures 4 * i < |s| ==>
              var end := if 4 * i + 4 <= |s| then 4 * i + 4 else |s|;
              Words(s, 4)[i] == s[4 * i..end] + Zeros(4 * i + 4 - end)
    decreases |s|
  {
    if |s| > 4 {
      WordAt(s[4..], if i > 0 then i - 1 else 0);
      if i > 0 && 4 * i < |s| {
        var end := if 4 * i + 4 <= |s| then 4 * i + 4 else |s|;
        assert s[4..][4 * (i - 1)..end - 4] == s[4 * i..end];
        assert Words(s, 4)[i] == Words(s[4..], 4)[i - 1];
      } else {
        assert s[0..4] + Zeros(0) == s[..4];
      }
    } else if s != [] {
      assert s[0..|s|] == s;
    }
  }

  /** How many words of the record are written when the packer stands here. */
  function WordsWritten(p: Packer, size: nat): nat
    requires size >= PREFIX
  {
    if p.n <= 1 then p.n
    else if p.n == 2 && p.off >= PREFIX then 2 + (p.off - PREFIX) / 4
    else 2 + (size - PREFIX + 3) / 4
  }

  /** The packer inside the message: the word under construction holds the bytes since
      the last word. */
  predicate PackerInv(p: Packer, m: Captured)
    requires Complete(m)
  {
    && p.n <= 3 && p.cnt <= 3
    && (p.n == 2 ==>
          && PREFIX <= p.off < |m| && p.cnt == (p.off - PREFIX) % 4
          && p.word == BigEndian(m[p.off - p.cnt..p.off]))
  }

  predicate Latched(r: Regs, m: Captured)
    requires Complete(m)
  {
    r.size == Field(m, 0) && r.tpl == Field(m, 4) && r.sid == Field(m, 6) && r.ver == Field(m, 8)
  }

  lemma {:induction false} PackedIs(m: Captured, off: nat, cnt: nat)
    requires cnt <= 3 && cnt <= off < |m|
    ensures
      var word := BigEndian(m[off - cnt..off]);
      && word * 256 % WORD32 + m[off] as nat == BigEndian(m[off - cnt..off + 1])
      && PackedWord(word, cnt, m[off]) == BigEndian(m[off - cnt..off + 1] + Zeros(3 - cnt))
  {
    var before, all := m[off - cnt..off], m[off - cnt..off + 1];
    assert all[..|all| - 1] == before && all[|all| - 1] == m[off];
    assert BigEndian(all) == BigEndian(before) * 256 + m[off] as nat;
    SmallPowers();
    TrailingZeros(all, 3 - cnt);
    assert BigEndian(before) < Pow256(cnt);
    assert BigEndian(all + Zeros(3 - cnt)) < Pow256(4);
  }

  lemma {:induction false} SmallPowers()
    ensures Pow256(0) == 1 && Pow256(1) == 0x100 && Pow256(2) == 0x1_0000 && Pow256(3) == 0x100_0000
            && Pow256(4) == WORD32
  {
  }

  lemma {:induction false} FieldIs(m: Captured, at: nat)
    requires at + 2 <= |m|
    ensures Field(m, at) == m[at + 1] as nat * 256 + m[at] as nat
  {
    var s := m[at..at + 2];
    var x := m[at + 1];
    assert s[0] == m[at] && s[1..] == [x] && [x][1..] == [];
    assert LittleEndian([x]) == x;
  }

  lemma {:induction false} MarkedFields(m: Captured, i: nat)
    requires Complete(m)
    ensures
      var s := Marked(PassthroughRecord(m));
      && |s| == 2 + (|m| - PREFIX + 3) / 4
      && s[0] == Slot(Field(m, 4) * 0x1_0000 + Field(m, 0), false)
      && s[1] == Slot(Field(m, 6) * 0x1_0000 + Field(m, 8), |m| == PREFIX)
      && (PREFIX + 4 * i < |m| ==>
            var from := PREFIX + 4 * i;
            var end := if from + 4 <= |m| then from + 4 else |m|;
            s[2 + i] == Slot(BigEndian(m[from..end] + Zeros(from + 4 - end)), end == |m|))
  {
    var body := m[PREFIX..];
    WordAt(body, i);
    if PREFIX + 4 * i < |m| {
      var from := PREFIX + 4 * i;
      var end := if from + 4 <= |m| then from + 4 else |m|;
      assert body[4 * i..end - PREFIX] == m[from..end];
    }
  }

  /** The marked record of a message, word by word. */
  lemma {:induction false} MarkedAt(m: Captured, i: nat)
    requires Complete(m)
    ensures
      var s := Marked(PassthroughRecord(m));
      && |m| >= 10 && |s| == 2 + (|m| - 10 + 3) / 4
      && s[0] == Slot((m[5] as nat * 256 + m[4] as nat) * 0x1_0000 + m[1] as nat * 256 + m[0] as nat, false)
      && s[1] == Slot((m[7] as nat * 256 + m[6] as nat) * 0x1_0000 + m[9] as nat * 256 + m[8] as nat, |m| == 10)
      && (10 + 4 * i < |m| ==>
            var from := 10 + 4 * i;
            var end := if from + 4 <= |m| then from + 4 else |m|;
            s[2 + i] == Slot(BigEndian(m[from..end] + Zeros(from + 4 - end)), end == |m|))
  {
    hide Field, Marked, PassthroughRecord, BigEndian;
    FieldIs(m, 0);
    FieldIs(m, 4);
    FieldIs(m, 6);
    FieldIs(m, 8);
    MarkedFields(m, i);
  }

  /** One step of the packer writes the record's next word, or takes one more byte. */
  lemma {:induction false} PackStep(r: Regs, m: Captured)
    requires RegsShaped(r) && r.st.PASS? && r.waiting[0] == m && Complete(m) && Latched(r, m) && PackerInv(r.p, m)
    ensures
      var (push, p, st) := PackEdge(r);
      var record, n := Marked(PassthroughRecord(m)), WordsWritten(r.p, |m|);
      && PackerInv(p, m) && WordsWritten(p, |m|) == n + (if push.Some? then 1 else 0)
      && (push.Some? ==> n < |record| && push.value == record[n])
      && (st.DONE? <==> r.p.n == 3) && (st.DONE? ==> n == |record|) && (st.DONE? || st.PASS?)
  {
    var p := r.p;
    if p.n == 2 {
      MarkedFields(m, (p.off - PREFIX) / 4);
      PackedIs(m, p.off, p.cnt);
      PackBody(r, m);
    } else {
      MarkedFields(m, 0);
    }
  }

  /** A body byte. */
  lemma {:induction false} PackBody(r: Regs, m: Captured)
    requires RegsShaped(r) && r.st.PASS? && r.waiting[0] == m && Complete(m) && Latched(r, m) && PackerInv(r.p, m)
             && r.p.n == 2
    ensures
      var (push, p, st) := PackEdge(r);
      var record, n := Marked(PassthroughRecord(m)), WordsWritten(r.p, |m|);
      && PackerInv(p, m) && WordsWritten(p, |m|) == n + (if push.Some? then 1 else 0) && st.PASS?
      && (push.Some? ==> n < |record| && push.value == record[n])
  {
    hide Marked, PassthroughRecord, BigEndian, PackedWord, Complete, Field, Zeros;
    var p := r.p;
    var i := (p.off - PREFIX) / 4;
    MarkedFields(m, i);
    PackedIs(m, p.off, p.cnt);
    OffsetStep(p.off, |m|);
    NothingYet(m, p.off + 1);
  }

  lemma {:induction false} OffsetStep(off: nat, size: nat)
    requires PREFIX <= off < size
    ensures
      var i, cnt := (off - PREFIX) / 4, (off - PREFIX) % 4;
      && off - cnt == PREFIX + 4 * i
      && (off + 1 - PREFIX) % 4 == (if cnt == 3 then 0 else cnt + 1)
      && (off + 1 - PREFIX) / 4 == (if cnt == 3 then i + 1 else i)
      && (off + 1 == size ==> (size - PREFIX + 3) / 4 == i + 1)
      && (cnt == 3 ==> off + 1 == PREFIX + 4 * i + 4)
  {
  }

  lemma {:induction false} NothingYet(m: Captured, off: nat)
    requires off <= |m|
    ensures BigEndian(m[off..off]) == 0
  {
  }

  // ---- the record as bytes ----

  /** The bytes of a record on the bus, each word most significant byte first. */
  function RecordBytes(r: seq<nat>): seq<byte> {
    if r == [] then [] else ToBigEndian(r[0] % WORD32, 4) + RecordBytes(r[1..])
  }

  function Padding(n: nat): nat {
    (4 - n % 4) % 4
  }

  lemma {:induction false} ValuesCons(s: seq<byte>)
    requires s != []
    ensures
      var first := if |s| > 4 then s[..4] else s + Zeros(4 - |s|);
      WordValues(Words(s, 4)) == [BigEndian(first)] + (if |s| > 4 then WordValues(Words(s[4..], 4)) else [])
  {
    hide BigEndian;
    var ws := Words(s, 4);
    if |s| > 4 {
      assert ws == [s[..4]] + Words(s[4..], 4);
    }
  }

  lemma {:induction false} RecordCons(x: nat, more: seq<nat>)
    ensures RecordBytes([x] + more) == ToBigEndian(x % WORD32, 4) + RecordBytes(more)
  {
    assert ([x] + more)[1..] == more;
  }

  lemma {:induction false} WordsAreBytes(s: seq<byte>)
    ensures RecordBytes(WordValues(Words(s, 4))) == s + Zeros(Padding(|s|))
    decreases |s|
  {
    if s != [] {
      ValuesCons(s);
      hide BigEndian, ToBigEndian, WordValues, Words, RecordBytes, Zeros, Padding;
      if |s| > 4 {
        var rest := s[4..];
        WordsAreBytes(rest);
        OneWord(s[..4]);
        RecordCons(BigEndian(s[..4]), WordValues(Words(rest, 4)));
        JoinTail(s);
      } else {
        OneWord(s + Zeros(4 - |s|));
        RecordCons(BigEndian(s + Zeros(4 - |s|)), []);
        NoBytes();
        ShortTail(s);
      }
    }
  }

  lemma {:induction false} JoinTail(s: seq<byte>)
    requires |s| > 4
    ensures s[..4] + (s[4..] + Zeros(Padding(|s[4..]|))) == s + Zeros(Padding(|s|))
  {
    assert Padding(|s|) == Padding(|s[4..]|);
  }

  lemma {:induction false} ShortTail(s: seq<byte>)
    requires 0 < |s| <= 4
    ensures s + Zeros(4 - |s|) + [] == s + Zeros(Padding(|s|))
  {
    assert Padding(|s|) == 4 - |s|;
  }

  lemma {:induction false} NoBytes()
    ensures RecordBytes([]) == []
  {
  }

  lemma {:induction false} OneWord(w: seq<byte>)
    requires |w| == 4
    ensures ToBigEndian(BigEndian(w) % WORD32, 4) == w
  {
    hide BigEndian, ToBigEndian, Pow256;
    SmallPowers();
    DigitsOf(w, 4);
  }

  /** The body's bytes are in the record exactly, between the two prefix words and the padding. */
  lemma {:induction false} BodyIsKept(m: Captured)
    requires Complete(m)
    ensures
      var r := PassthroughRecord(m);
      RecordBytes(r) == ToBigEndian(r[0] % WORD32, 4)
        + (ToBigEndian(r[1] % WORD32, 4) + (m[PREFIX..] + Zeros(Padding(|m| - PREFIX))))
  {
    hide WordValues, Words;
    var r, body := PassthroughRecord(m), WordValues(Words(m[PREFIX..], 4));
    WordsAreBytes(m[PREFIX..]);
    assert r[1..] == [r[1]] + body && r[1..][1..] == body;
  }

  // ---- the invariant ----

  /** Messages decoded and released. */
  function Released(c: Config): int {
    |c.all| - |c.r.waiting|
  }

  /** Words of the message in work that are written. */
  function WrittenHere(c: Config): nat
    requires RegsShaped(c.r)
  {
    match c.r.st
    case PASS => WordsWritten(c.r.p, |c.r.waiting[0]|)
    case DONE => |Marked(PassthroughRecord(c.r.waiting[0]))|
    case _ => 0
  }

  /** Everything written so far: delivered, or in the buffer. */
  function Written(c: Config): seq<Slot>
    requires RegsShaped(c.r)
  {
    c.sent + Queue(c.r.f)
  }

  predicate Inv(c: Config) {
    && RegsShaped(c.r) && FifoInv(c.r.f) && AllComplete(c.all) && c.r.p.cnt <= 3
    && 0 <= Released(c) && c.r.waiting == c.all[Released(c)..]
    && (c.r.st.PASS? ==> Latched(c.r, c.r.waiting[0]) && PackerInv(c.r.p, c.r.waiting[0]))
    && Here(c)
  }

  predicate Here(c: Config)
    requires RegsShaped(c.r) && AllComplete(c.all) && 0 <= Released(c) && c.r.waiting == c.all[Released(c)..]
  {
    var record := if c.r.st.IDLE? then [] else Marked(PassthroughRecord(c.r.waiting[0]));
    WrittenHere(c) <= |record| && Written(c) == Output(c.all[..Released(c)]) + record[..WrittenHere(c)]
  }

  /** The front of the waiting messages does not change when one arrives. */
  lemma {:induction false} Arrives(c: Config, i: In)
    requires RegsShaped(c.r) && c.r.p.cnt <= 3 && GoodInput(i) && AllComplete(c.all)
    requires 0 <= Released(c) && c.r.waiting == c.all[Released(c)..]
    ensures
      var d, arrived := Tick(c, i), if i.captured.Some? then c.r.waiting + [i.captured.value] else c.r.waiting;
      && AllComplete(d.all) && d.all[..Released(c)] == c.all[..Released(c)] && d.all[Released(c)..] == arrived
      && AllComplete(arrived) && (c.r.waiting != [] ==> arrived[0] == c.r.waiting[0])
      && |d.all| - |arrived| == Released(c)
  {
    hide Edge, Complete;
  }

  /** What one edge writes. */
  lemma {:induction false} WrittenStep(c: Config, i: In, push: Option<Slot>)
    requires RegsShaped(c.r) && c.r.p.cnt <= 3 && GoodInput(i) && FifoInv(c.r.f) && (push.Some? ==> c.r.f.cnt < DEPTH)
    requires Edge(c.r, i).f == FifoEdge(c.r.f, push, i.ready)
    ensures
      var g := Edge(c.r, i).f;
      FifoInv(g) && Tick(c, i).sent + Queue(g) == Written(c) + (if push.Some? then [push.value] else [])
  {
    hide Edge, FifoEdge, Queue;
    FifoStep(c.r.f, push, i.ready);
    var took := if c.r.f.valid && i.ready then [c.r.f.shown] else [];
    assert Tick(c, i).sent == c.sent + took;
    assert c.sent + took + Queue(Edge(c.r, i).f) == c.sent + (took + Queue(Edge(c.r, i).f));
  }

  /** A record gets its next word, or none. */
  lemma {:induction false} OneMoreWord(written: seq<Slot>, base: seq<Slot>, record: seq<Slot>, n: nat)
    requires n < |record| && written == base + record[..n]
    ensures written + [record[n]] == base + record[..n + 1]
  {
    assert record[..n + 1] == record[..n] + [record[n]];
  }

  lemma {:induction false} StepWaits(c: Config, i: In)
    requires Inv(c) && GoodInput(i) && c.r.st.PASS? && c.r.f.cnt >= DEPTH
    ensures Inv(Tick(c, i))
  {
    hide FifoEdge, Queue, PackEdge, Output, Marked, PassthroughRecord, Complete, WordsWritten, PackerInv, FifoInv;
    Arrives(c, i);
    WrittenStep(c, i, None);
    assert Tick(c, i).r.waiting[0] == c.r.waiting[0];
    assert Here(Tick(c, i));
  }

  lemma {:induction false} StepPass(c: Config, i: In)
    requires Inv(c) && GoodInput(i) && c.r.st.PASS?
    ensures Inv(Tick(c, i))
  {
    hide FifoEdge, Queue, PackEdge, Output, Marked, PassthroughRecord, Complete, WordsWritten, PackerInv, FifoInv;
    if c.r.f.cnt >= DEPTH {
      StepWaits(c, i);
    } else {
      var d, m := Tick(c, i), c.r.waiting[0];
      var (push, p, st) := PackEdge(c.r);
      Arrives(c, i);
      PackStep(c.r, m);
      WrittenStep(c, i, push);
      if push.Some? {
        OneMoreWord(Written(c), Output(c.all[..Released(c)]), Marked(PassthroughRecord(m)), WrittenHere(c));
      }
      PackerBound(p, m);
      assert d.r.waiting[0] == m;
      assert Here(d);
    }
  }

  lemma {:induction false} PackerBound(p: Packer, m: Captured)
    requires Complete(m) && PackerInv(p, m)
    ensures p.cnt <= 3
  {
  }

  lemma {:induction false} StepQuiet(c: Config, i: In)
    requires Inv(c) && GoodInput(i) && (c.r.st.IDLE? || c.r.st.HDR?)
    ensures Inv(Tick(c, i))
  {
    hide FifoEdge, Queue, Output, Marked, PassthroughRecord, FifoInv;
    Arrives(c, i);
    WrittenStep(c, i, None);
    var d := Tick(c, i);
    assert Released(d) == Released(c) && WrittenHere(d) == WrittenHere(c) == 0;
    assert Here(d);
  }

  lemma {:induction false} StepDone(c: Config, i: In)
    requires Inv(c) && GoodInput(i) && c.r.st.DONE?
    ensures Inv(Tick(c, i))
  {
    hide FifoEdge, Queue, Marked, PassthroughRecord, FifoInv, Complete, Output;
    var d, k := Tick(c, i), Released(c);
    Arrives(c, i);
    WrittenStep(c, i, None);
    OutputNext(d.all, k);
    assert d.all[k..][1..] == d.all[k + 1..];
    assert Here(d);
  }

  /** One cycle, any arrival, any ready line. */
  lemma {:induction false} InvStep(c: Config, i: In)
    requires Inv(c) && GoodInput(i)
    ensures Inv(Tick(c, i))
  {
    hide Edge, Here, FifoInv;
    match c.r.st
    case PASS => StepPass(c, i);
    case DONE => StepDone(c, i);
    case _ => StepQuiet(c, i);
  }

  // ---- runs ----

  predicate GoodInputs(ins: seq<In>) {
    forall i :: 0 <= i < |ins| ==> GoodInput(ins[i])
  }

  function Run(r0: Regs, ins: seq<In>): (c: Config)
    requires IsReset(r0) && GoodInputs(ins)
    ensures Inv(c)
    decreases |ins|
  {
    if ins == [] then
      Config(r0, [], [])
    else
      InvStep(Run(r0, ins[..|ins| - 1]), ins[|ins| - 1]);
      Tick(Run(r0, ins[..|ins| - 1]), ins[|ins| - 1])
  }

  lemma {:induction false} PrefixOf(base: seq<Slot>, record: seq<Slot>, n: nat, whole: seq<Slot>)
    requires n <= |record| && base + record <= whole
    ensures base + record[..n] <= whole
  {
    assert whole[..|base| + n] == base + record[..n];
  }

  lemma {:induction false} FirstOf(sent: seq<Slot>, q: seq<Slot>, whole: seq<Slot>)
    requires sent + q <= whole && q != []
    ensures sent + [q[0]] <= whole
  {
    assert whole[..|sent| + 1] == sent + [q[0]];
  }

  lemma {:induction false} WrittenIsBeginning(c: Config)
    requires Inv(c)
    ensures Written(c) <= Output(c.all)
    ensures c.r.waiting == [] ==> Written(c) == Output(c.all)
  {
    hide Queue, Marked, PassthroughRecord, Complete, Output, WrittenHere, PackerInv, FifoInv, Latched;
    var k := Released(c);
    assert c.all[..|c.all|] == c.all;
    if c.r.st.IDLE? {
      OutputGrows(c.all, k, |c.all|);
      assert Output(c.all[..k]) + [] == Output(c.all[..k]);
    } else {
      OutputGrows(c.all, k + 1, |c.all|);
      OutputNext(c.all, k);
      PrefixOf(Output(c.all[..k]), Marked(PassthroughRecord(c.r.waiting[0])), WrittenHere(c), Output(c.all));
    }
  }

  lemma {:induction false} OutputNext(ms: seq<Captured>, k: nat)
    requires AllComplete(ms) && k < |ms|
    ensures Output(ms[..k + 1]) == Output(ms[..k]) + Marked(PassthroughRecord(ms[k]))
  {
    assert ms[..k + 1][..k] == ms[..k];
  }

  /** In every run the output has carried a beginning of the reference records of the
      captured messages; what is missing is in the buffer or not yet packed; and the
      buffer never holds more than its depth. */
  lemma {:induction false} RecordsDelivered(r0: Regs, ins: seq<In>)
    requires IsReset(r0) && GoodInputs(ins)
    ensures
      var c := Run(r0, ins);
      && c.r.f.cnt <= DEPTH
      && c.sent + Queue(c.r.f) <= Output(c.all)
      && (c.r.f.valid ==> c.sent + [c.r.f.shown] <= Output(c.all))
      && (c.r.waiting == [] && c.r.f.cnt == 0 ==> c.sent == Output(c.all))
  {
    hide Queue, Output, Run, Here;
    var c := Run(r0, ins);
    WrittenIsBeginning(c);
    if c.r.f.valid {
      FirstOf(c.sent, Queue(c.r.f), Output(c.all));
    }
    if c.r.f.cnt == 0 {
      assert c.sent + Queue(c.r.f) == c.sent;
    }
  }

  lemma {:induction false} OutputGrows(ms: seq<Captured>, k: nat, n: nat)
    requires AllComplete(ms) && k <= n <= |ms|
    ensures Output(ms[..k]) <= Output(ms[..n])
    decreases n
  {
    if k < n {
      OutputGrows(ms, k, n - 1);
      assert ms[..n][..n - 1] == ms[..n - 1];
    }
  }

  // ---- progress ----

  /** Steps the packer still needs for the message in work. */
  function StepsHere(r: Regs, m: Captured): int {
    match r.st
    case IDLE => |m| + 6
    case HDR => |m| + 5
    case PASS => if r.p.n == 0 then |m| + 4 else if r.p.n == 1 then |m| + 3 else if r.p.n == 2 then |m| - r.p.off + 3
      else 2
    case DONE => 1
  }

  function StepsOf(ms: seq<Captured>): nat {
    if ms == [] then 0 else |ms[0]| + 6 + StepsOf(ms[1..])
  }

  /** What is left to do: packer steps, words to hand over, a word to show. */
  function Work(c: Config): int
    requires RegsShaped(c.r)
  {
    var r := c.r;
    4 * (if r.waiting == [] then 0 else StepsHere(r, r.waiting[0]) + StepsOf(r.waiting[1..]))
    + 2 * r.f.cnt + if r.f.valid then 0 else 1
  }

  predicate Drained(c: Config) {
    c.r.waiting == [] && c.r.f.cnt == 0
  }

  lemma {:induction false} BufferWork(f: Fifo, push: Option<Slot>)
    requires FifoInv(f) && (push.Some? ==> f.cnt < DEPTH)
    ensures
      var g := FifoEdge(f, push, true);
      2 * g.cnt + (if g.valid then 0 else 1)
      <= 2 * f.cnt + (if f.valid then 0 else 1) + (if push.Some? then 3 else if f.cnt > 0 then -1 else 0)
  {
    hide Queue;
    CountWraps(f.cnt, if push.Some? then 1 else 0, f.valid);
  }

  lemma {:induction false} WorkFalls(c: Config)
    requires Inv(c) && !Drained(c)
    ensures Work(Tick(c, In(None, true))) < Work(c)
  {
    hide FifoEdge, Queue, Output, Marked, PassthroughRecord, Here, FifoInv, PackedWord, Field;
    var r := c.r;
    if r.st.PASS? && r.f.cnt < DEPTH {
      BufferWork(r.f, PackEdge(r).0);
    } else {
      BufferWork(r.f, None);
    }
  }

  lemma {:induction false} WorkIsNatural(c: Config)
    requires Inv(c)
    ensures Work(c) >= 0
  {
    hide FifoEdge, Queue, Output, Marked, PassthroughRecord, Here;
  }

  /** The path left alone with a ready consumer. */
  function RunOut(c: Config, n: nat): (d: Config)
    requires Inv(c)
    ensures Inv(d) && d.all == c.all
    decreases n
  {
    if n == 0 then c
    else
      InvStep(c, In(None, true));
      RunOut(Tick(c, In(None, true)), n - 1)
  }

  /** From every reachable configuration, as many cycles of a ready consumer as there is
      work left deliver every word of every captured message. */
  lemma {:induction false} EverythingDelivered(c: Config) returns (n: nat)
    requires Inv(c)
    ensures n <= Work(c) && Drained(RunOut(c, n)) && RunOut(c, n).sent == Output(c.all)
    decreases Work(c)
  {
    hide Inv, Tick, Queue, Output, Work;
    WorkIsNatural(c);
    InvShape(c);
    if Drained(c) {
      n := 0;
      WrittenIsBeginning(c);
      assert c.sent + Queue(c.r.f) == c.sent;
    } else {
      InvStep(c, In(None, true));
      WorkFalls(c);
      var k := EverythingDelivered(Tick(c, In(None, true)));
      n := k + 1;
    }
  }

  lemma {:induction false} InvShape(c: Config)
    requires Inv(c)
    ensures RegsShaped(c.r) && c.r.p.cnt <= 3
  {
  }
}
