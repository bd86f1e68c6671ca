// The passthrough path as a device: the circular buffer an array written in
// place, the other registers fields.
module PassthroughDevice {
  import opened Itch
  import opened Passthrough
  import opened Prices

  /** What the prefix of the message in work said. */
  datatype Head = Head(tpl: nat, size: nat, sid: nat, ver: nat)

  class Device {
    const mem: array<Slot>
    var head: nat
    var tail: nat
    var cnt: nat
    var valid: bool
    var shown: Slot
    var st: St
    var waiting: seq<Captured>
    var h: Head
    var p: Packer

    function Buffer(): Fifo
      reads `head, `tail, `cnt, `valid, `shown, mem
    {
      Fifo(mem[..], head, tail, cnt, valid, shown)
    }

    function Registers(): Regs
      reads this, mem
    {
      Regs(st, waiting, h.tpl, h.size, h.sid, h.ver, p, Buffer())
    }

    constructor ()
      ensures IsReset(Registers()) && fresh(mem)
    {
      mem := new Slot[DEPTH](_ => Slot(0, false));
      head, tail, cnt, valid, shown := 0, 0, 0, false, Slot(0, false);
      st, waiting, h, p := IDLE, [], Head(0, 0, 0, 0), Packer(0, 0, 0, 0);
    }

    /** One edge of the buffer and of the output register in front of it. */
    method Move(push: Option<Slot>, ready: bool)
      requires FifoShaped(Buffer())
      modifies `head, `tail, `cnt, `valid, `shown, mem
      ensures Buffer() == FifoEdge(old(Buffer()), push, ready)
    {
      var pop, wasCnt, wasValid := valid && ready, cnt, valid;
      if !wasValid || ready {
        shown := mem[(head + if wasValid then 1 else 0) % DEPTH];
        valid := wasCnt > 1 || (wasCnt == 1 && !wasValid);
      }
      if pop {
        head := (head + 1) % DEPTH;
      }
      cnt := (wasCnt + (if push.Some? then 1 else 0) + if pop then 511 else 0) % 512;
      if push.Some? {
        mem[tail] := push.value;
        tail := (tail + 1) % DEPTH;
      }
    }

    /** One step of the packer: a head word, or one body byte. */
    method Pack() returns (push: Option<Slot>)
      requires RegsShaped(Registers()) && st.PASS? && p.cnt <= 3
      modifies `p, `st
      ensures (push, p, st) == PackEdge(old(Registers()))
    {
      hide PackedWord;
      push := None;
      if p.n == 0 {
        push := Some(Slot(h.tpl * 0x1_0000 + h.size, false));
        p := p.(n := 1);
      } else if p.n == 1 {
        push := Some(Slot(h.sid * 0x1_0000 + h.ver, h.size == PREFIX));
        p := Packer(if h.size == PREFIX then 3 else 2, PREFIX, 0, 0);
      } else if p.n == 2 {
        if p.off < h.size {
          var b := waiting[0][p.off];
          var end := p.off + 1 == h.size;
          if p.cnt == 3 || end {
            push := Some(Slot(PackedWord(p.word, p.cnt, b), end));
            p := Packer(if end then 3 else 2, p.off + 1, 0, 0);
          } else {
            p := Packer(2, p.off + 1, p.word * 256 % WORD32 + b as nat, p.cnt + 1);
          }
        }
      } else {
        st := DONE;
      }
    }

    /** One clock edge. */
    method Cycle(i: In)
      requires RegsShaped(Registers()) && p.cnt <= 3 && GoodInput(i)
      modifies this, mem
      ensures Registers() == Edge(old(Registers()), i)
    {
      hide FifoEdge, PackEdge, Field;
      var push: Option<Slot> := None;
      var done := st.DONE?;
      if st.IDLE? {
        st := if waiting != [] then HDR else IDLE;
      } else if st.HDR? {
        var m := waiting[0];
        h := Head(Field(m, 4), Field(m, 0), Field(m, 6), Field(m, 8));
        st, p := PASS, p.(n := 0);
      } else if st.PASS? {
        if cnt < DEPTH {
          push := Pack();
        }
      } else {
        st := IDLE;
      }
      if i.captured.Some? {
        waiting := waiting + [i.captured.value];
      }
      if done {
        waiting := waiting[1..];
      }
      Move(push, i.ready);
    }
  }
}
