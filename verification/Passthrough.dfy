// Messages that are not decoded: packed byte by byte into words, queued in a
// circular buffer and shown on the output, one clock edge at a time.
module Passthrough {
  import opened Bytes
  import opened Itch
  import opened Prices

  const PREFIX := 10
  const DEPTH := 256
  const MAX_MESSAGE := 256

  type Captured = seq<byte>

  /** A captured message: its prefix holds its size, template, schema and version. */
  predicate Complete(m: Captured) {
    PREFIX <= |m| <= MAX_MESSAGE && Field(m, 0) == |m|
  }

  function Field(m: Captured, at: nat): (n: nat)
    requires at + 2 <= |m|
    ensures n < 0x1_0000
  {
    assert Pow256(2) == 0x1_0000;
    LittleEndian(m[at..at + 2])
  }

  // ---- the reference record ----

  function WordValues(ws: seq<seq<byte>>): (vs: seq<nat>)
    ensures |vs| == |ws|
  {
    seq(|ws|, i requires 0 <= i < |ws| => BigEndian(ws[i]))
  }

  /** Two words from the prefix, then the body in words, the last one padded. */
  function PassthroughRecord(m: Captured): (r: seq<nat>)
    requires Complete(m)
  {
    [Field(m, 4) * 0x1_0000 + Field(m, 0), Field(m, 6) * 0x1_0000 + Field(m, 8)] + WordValues(Words(m[PREFIX..], 4))
  }

  /** A word of the output with its end-of-record mark. */
  datatype Slot = Slot(word: nat, last: bool)

  function Marked(r: seq<nat>): (s: seq<Slot>)
    ensures |s| == |r|
  {
    seq(|r|, i requires 0 <= i < |r| => Slot(r[i], i == |r| - 1))
  }

  /** The output of the messages in order. */
  function Output(ms: seq<Captured>): seq<Slot>
    requires forall i :: 0 <= i < |ms| ==> Complete(ms[i])
  {
    if ms == [] then [] else Output(ms[..|ms| - 1]) + Marked(PassthroughRecord(ms[|ms| - 1]))
  }

  // ---- the registers ----

  datatype St = IDLE | HDR | PASS | DONE

  datatype Packer = Packer(n: nat, off: nat, word: nat, cnt: nat)

  /** The circular buffer and the output register in front of it. */
  datatype Fifo = Fifo(mem: seq<Slot>, head: nat, tail: nat, cnt: nat, valid: bool, shown: Slot)

  datatype Regs = Regs(st: St, waiting: seq<Captured>, tpl: nat, size: nat, sid: nat, ver: nat, p: Packer, f: Fifo)

  /** In one cycle: a message may become complete, and the consumer may be ready. */
  datatype In = In(captured: Option<Captured>, ready: bool)

  predicate FifoShaped(f: Fifo) {
    |f.mem| == DEPTH && f.head < DEPTH && f.tail < DEPTH
  }

  predicate RegsShaped(r: Regs) {
    && FifoShaped(r.f) && (forall i :: 0 <= i < |r.waiting| ==> Complete(r.waiting[i]))
    && (!r.st.IDLE? ==> r.waiting != []) && (r.st.PASS? ==> r.size == |r.waiting[0]|)
  }

  predicate GoodInput(i: In) {
    i.captured.Some? ==> Complete(i.captured.value)
  }

  // ---- one clock edge ----

  /** One edge of the buffer: the emitter looks at the state before the edge. */
  function FifoEdge(f: Fifo, push: Option<Slot>, ready: bool): (g: Fifo)
    requires FifoShaped(f)
    ensures FifoShaped(g)
  {
    var pop := f.valid && ready;
    var next := (f.head + if f.valid then 1 else 0) % DEPTH;
    Fifo(if push.Some? then f.mem[f.tail := push.value] else f.mem,
         if pop then (f.head + 1) % DEPTH else f.head,
         if push.Some? then (f.tail + 1) % DEPTH else f.tail,
         (f.cnt + (if push.Some? then 1 else 0) + if pop then 511 else 0) % 512,
         if !f.valid || ready then f.cnt > 1 || (f.cnt == 1 && !f.valid) else f.valid,
         if !f.valid || ready then f.mem[next] else f.shown)
  }

  /** The word under construction with one more byte, moved to the top. */
  function PackedWord(word: nat, cnt: nat, b: byte): nat
    requires cnt <= 3
  {
    (word * 256 % WORD32 + b as nat) * Pow256(3 - cnt) % WORD32
  }

  /** One edge of the packer with room in the buffer: what it pushes, and its new registers. */
  function PackEdge(r: Regs): (res: (Option<Slot>, Packer, St))
    requires RegsShaped(r) && r.st.PASS? && r.p.cnt <= 3
  {
    var p := r.p;
    match p.n
    case 0 => (Some(Slot(r.tpl * 0x1_0000 + r.size, false)), p.(n := 1), PASS)
    case 1 =>
      (Some(Slot(r.sid * 0x1_0000 + r.ver, r.size == PREFIX)),
       Packer(if r.size == PREFIX then 3 else 2, PREFIX, 0, 0), PASS)
    case 2 =>
      if p.off < r.size then
        var b := r.waiting[0][p.off];
        var full, end := p.cnt == 3, p.off + 1 == r.size;
        (if full || end then Some(Slot(PackedWord(p.word, p.cnt, b), end)) else None,
         Packer(if end then 3 else 2, p.off + 1,
                if full || end then 0 else p.word * 256 % WORD32 + b as nat,
                if full || end then 0 else p.cnt + 1),
         PASS)
      else (None, p, PASS)
    case _ => (None, p, DONE)
  }

  function Edge(r: Regs, i: In): (s: Regs)
    requires RegsShaped(r) && r.p.cnt <= 3 && GoodInput(i)
    ensures FifoShaped(s.f)
  {
    var arrived := if i.captured.Some? then r.waiting + [i.captured.value] else r.waiting;
    var quiet := r.(waiting := arrived, f := FifoEdge(r.f, None, i.ready));
    match r.st
    case IDLE => quiet.(st := if r.waiting != [] then HDR else IDLE)
    case HDR =>
      var m := r.waiting[0];
      quiet.(st := PASS, size := Field(m, 0), tpl := Field(m, 4), sid := Field(m, 6), ver := Field(m, 8),
             p := r.p.(n := 0))
    case PASS =>
      if r.f.cnt < DEPTH then
        var (push, p, st) := PackEdge(r);
        quiet.(st := st, p := p, f := FifoEdge(r.f, push, i.ready))
      else quiet
    case DONE => quiet.(st := IDLE, waiting := arrived[1..])
  }

  predicate IsReset(r: Regs) {
    r.st.IDLE? && r.waiting == [] && FifoShaped(r.f) && r.f.head == 0 && r.f.tail == 0 && r.f.cnt == 0 && !r.f.valid
    && r.p == Packer(0, 0, 0, 0)
  }

  // ---- the buffer as a queue ----

  /** The words in the buffer, the one on the output included. */
  function Queue(f: Fifo): (q: seq<Slot>)
    requires FifoShaped(f)
    ensures |q| == f.cnt
  {
    seq(f.cnt, k requires 0 <= k => f.mem[(f.head + k) % DEPTH])
  }

  predicate FifoInv(f: Fifo) {
    && FifoShaped(f) && f.cnt <= DEPTH && f.tail == (f.head + f.cnt) % DEPTH
    && (f.valid ==> f.cnt > 0 && f.shown == Queue(f)[0])
  }

  /** Pushing into the slot behind the last one. */
  lemma {:induction false} QueuePush(f: Fifo, x: Slot)
    requires FifoShaped(f) && f.cnt < DEPTH && f.tail == (f.head + f.cnt) % DEPTH
    ensures Queue(f.(mem := f.mem[f.tail := x], tail := (f.tail + 1) % DEPTH, cnt := f.cnt + 1)) == Queue(f) + [x]
    ensures (f.tail + 1) % DEPTH == (f.head + (f.cnt + 1)) % DEPTH
  {
    var g := f.(mem := f.mem[f.tail := x], tail := (f.tail + 1) % DEPTH, cnt := f.cnt + 1);
    forall k | 0 <= k < f.cnt
      ensures Queue(g)[k] == Queue(f)[k]
    {
      DistinctSlots(f.head, k, f.cnt);
      assert Queue(g)[k] == g.mem[(f.head + k) % DEPTH] == f.mem[(f.head + k) % DEPTH];
    }
    assert Queue(g)[f.cnt] == x;
  }

  lemma {:induction false} DistinctSlots(head: nat, j: nat, k: nat)
    requires head < DEPTH && j < k < DEPTH
    ensures (head + j) % DEPTH != (head + k) % DEPTH
  {
  }

  /** Popping moves the head on. */
  lemma {:induction false} QueuePop(f: Fifo)
    requires FifoShaped(f) && 0 < f.cnt <= DEPTH
    ensures Queue(f.(head := (f.head + 1) % DEPTH, cnt := f.cnt - 1)) == Queue(f)[1..]
    ensures ((f.head + 1) % DEPTH + (f.cnt - 1)) % DEPTH == (f.head + f.cnt) % DEPTH
  {
    var g := f.(head := (f.head + 1) % DEPTH, cnt := f.cnt - 1);
    forall k | 0 <= k < g.cnt
      ensures Queue(g)[k] == Queue(f)[k + 1]
    {
      assert ((f.head + 1) % DEPTH + k) % DEPTH == (f.head + (k + 1)) % DEPTH;
    }
  }

  predicate FifoLinked(f: Fifo) {
    FifoShaped(f) && f.cnt <= DEPTH && f.tail == (f.head + f.cnt) % DEPTH
  }

  /** The buffer after an edge, without its output register. */
  lemma {:induction false} BufferStep(f: Fifo, push: Option<Slot>, pop: bool)
    requires FifoLinked(f) && (push.Some? ==> f.cnt < DEPTH) && (pop ==> f.cnt > 0)
    ensures
      var g := FifoEdge(f.(valid := pop), push, true);
      && FifoLinked(g)
      && (if pop then [Queue(f)[0]] else []) + Queue(g) == Queue(f) + (if push.Some? then [push.value] else [])
  {
    hide Queue, FifoEdge, Pushed, Popped;
    var pushed := Pushed(f, push);
    PushedQueue(f, push);
    PoppedQueue(pushed, pop);
    var g := FifoEdge(f.(valid := pop), push, true);
    EdgeForm(f, push, pop);
    SameQueue(g, Popped(pushed, pop));
    FrontOf(Queue(f), push, pop);
  }

  function Pushed(f: Fifo, push: Option<Slot>): Fifo
    requires FifoShaped(f)
  {
    if push.Some? then f.(mem := f.mem[f.tail := push.value], tail := (f.tail + 1) % DEPTH, cnt := f.cnt + 1) else f
  }

  function Popped(f: Fifo, pop: bool): Fifo
    requires pop ==> f.cnt > 0
  {
    if pop then f.(head := (f.head + 1) % DEPTH, cnt := f.cnt - 1) else f
  }

  lemma {:induction false} PushedQueue(f: Fifo, push: Option<Slot>)
    requires FifoLinked(f) && (push.Some? ==> f.cnt < DEPTH)
    ensures FifoLinked(Pushed(f, push))
    ensures Queue(Pushed(f, push)) == Queue(f) + (if push.Some? then [push.value] else [])
    ensures Pushed(f, push).cnt == f.cnt + if push.Some? then 1 else 0
  {
    hide Queue;
    if push.Some? {
      QueuePush(f, push.value);
    } else {
      assert Queue(f) + [] == Queue(f);
    }
  }

  lemma {:induction false} PoppedQueue(f: Fifo, pop: bool)
    requires FifoLinked(f) && (pop ==> f.cnt > 0)
    ensures FifoLinked(Popped(f, pop))
    ensures Queue(Popped(f, pop)) == if pop then Queue(f)[1..] else Queue(f)
  {
    hide Queue;
    if pop {
      QueuePop(f);
    }
  }

  /** One edge of the buffer: a push, then a pop. */
  lemma {:induction false} EdgeForm(f: Fifo, push: Option<Slot>, pop: bool)
    requires FifoShaped(f) && f.cnt <= DEPTH && (push.Some? ==> f.cnt < DEPTH) && (pop ==> f.cnt > 0)
    ensures
      var g := FifoEdge(f.(valid := pop), push, true);
      g == Popped(Pushed(f, push), pop).(valid := g.valid, shown := g.shown)
  {
    CountWraps(f.cnt, if push.Some? then 1 else 0, pop);
  }

  lemma {:induction false} CountWraps(cnt: nat, more: nat, pop: bool)
    requires cnt <= DEPTH && more <= 1 && (pop ==> cnt > 0)
    ensures (cnt + more + if pop then 511 else 0) % 512 == cnt + more - if pop then 1 else 0
  {
  }

  lemma {:induction false} FrontOf(q: seq<Slot>, push: Option<Slot>, pop: bool)
    requires pop ==> |q| > 0
    ensures
      var all := q + (if push.Some? then [push.value] else []);
      (if pop then [q[0]] + all[1..] else [] + all) == all
  {
  }

  /** The word the output register takes is the front of what stays. */
  lemma {:induction false} FrontStays(f: Fifo, push: Option<Slot>, ready: bool)
    requires FifoInv(f) && (push.Some? ==> f.cnt < DEPTH)
    ensures
      var g := FifoEdge(f, push, ready);
      && (g.valid && (!f.valid || ready) ==>
            f.cnt > (if f.valid then 1 else 0) && g.shown == Queue(f)[if f.valid then 1 else 0])
      && (f.valid && !ready ==> g.valid && g.shown == f.shown)
  {
  }

  /** One edge: a queue that loses its front exactly on a handshake and gains what is
      pushed; the word on offer stays until it is taken. */
  lemma {:induction false} FifoStep(f: Fifo, push: Option<Slot>, ready: bool)
    requires FifoInv(f) && (push.Some? ==> f.cnt < DEPTH)
    ensures
      var g := FifoEdge(f, push, ready);
      && FifoInv(g)
      && (if f.valid && ready then [f.shown] else []) + Queue(g)
         == Queue(f) + (if push.Some? then [push.value] else [])
      && (f.valid && !ready ==> g.valid && g.shown == f.shown)
  {
    hide FifoEdge, Queue;
    var g, pop := FifoEdge(f, push, ready), f.valid && ready;
    var h := FifoEdge(f.(valid := pop), push, true);
    BufferStep(f, push, pop);
    FrontStays(f, push, ready);
    SameBuffer(f, push, ready);
    SameQueue(g, h);
    FrontIs(Queue(f), push, pop, Queue(h));
  }

  /** The output register does not matter to the buffer behind it. */
  lemma {:induction false} SameBuffer(f: Fifo, push: Option<Slot>, ready: bool)
    requires FifoShaped(f)
    ensures
      var g, h := FifoEdge(f, push, ready), FifoEdge(f.(valid := f.valid && ready), push, true);
      g == h.(valid := g.valid, shown := g.shown)
  {
  }

  lemma {:induction false} FrontIs(q: seq<Slot>, push: Option<Slot>, pop: bool, after: seq<Slot>)
    requires pop ==> |q| > 0
    requires (if pop then [q[0]] else []) + after == q + (if push.Some? then [push.value] else [])
    ensures forall k :: 0 <= k < |q| && (pop ==> k > 0) ==>
            |after| > k - (if pop then 1 else 0) && after[k - if pop then 1 else 0] == q[k]
  {
    var all := q + (if push.Some? then [push.value] else []);
    assert pop ==> after == all[1..];
    assert !pop ==> [] + after == after;
  }

  /** The output register is no part of the queue. */
  lemma {:induction false} SameQueue(f: Fifo, g: Fifo)
    requires FifoShaped(f) && f == g.(valid := f.valid, shown := f.shown)
    ensures FifoShaped(g) && Queue(f) == Queue(g)
  {
  }
}
