// The order table: a fixed array of entries, hashed by order reference with
// linear probing bounded to a fixed path. A deleted entry leaves a hole that
// later walks step over. The table refines a finite map.
module OrderTable {
  import opened Bytes

  datatype Entry = Entry(valid: bool, ref: nat, ask: bool, price: nat, qty: nat)

  const BLANK := Entry(false, 0, false, 0, 0)

  /** What the table stores about a live order. */
  datatype Row = Row(ask: bool, price: nat, qty: nat)

  type Rows = map<nat, Row>

  function RowOf(e: Entry): Row {
    Row(e.ask, e.price, e.qty)
  }

  function EntryOf(ref: nat, row: Row): Entry {
    Entry(true, ref, row.ask, row.price, row.qty)
  }

  /** The low bits of the reference number select the first slot of its path. */
  function Hash(ref: nat, n: nat): (h: nat)
    requires n > 0
    ensures h < n
  {
    ref % n
  }

  /** Slot i of the path that starts at base; slot addresses wrap around the table. */
  function Slot(n: nat, base: nat, i: nat): (s: nat)
    requires base < n && i <= n
    ensures s < n
  {
    if base + i < n then base + i else base + i - n
  }

  /** Result registers of one run of the probe. */
  datatype Walked = Walked(found: bool, slot: nat, entry: Entry, empty: nat, full: bool)

  const FRESH := Walked(false, 0, BLANK, 0, false)

  predicate Walkable(mem: seq<Entry>, probe: nat, base: nat) {
    base < |mem| && 0 < probe <= |mem|
  }

  predicate Hit(mem: seq<Entry>, base: nat, i: nat, target: nat)
    requires base < |mem| && i <= |mem|
  {
    var e := mem[Slot(|mem|, base, i)];
    e.valid && e.ref == target
  }

  /** The evaluation of slot i: the new results, whether a hole is known, whether the run ends. */
  function Evaluate(mem: seq<Entry>, probe: nat, base: nat, target: nat, keep: bool, seek: bool, i: nat, hole: bool,
                    w: Walked)
    : (Walked, bool, bool)
    requires Walkable(mem, probe, base) && i < probe
  {
    var s := Slot(|mem|, base, i);
    EvaluateEntry(mem[s], s, probe, target, keep, seek, i, hole, w)
  }

  function EvaluateEntry(e: Entry, s: nat, probe: nat, target: nat, keep: bool, seek: bool, i: nat, hole: bool,
                         w: Walked)
    : (Walked, bool, bool)
  {
    if e.valid && e.ref == target then
      (if keep then w.(found := true, slot := s, entry := e) else w.(found := true), hole, true)
    else
      var first := !e.valid && seek && !hole;
      var w1 := if first then w.(empty := s) else w;
      if i + 1 == probe then
        (if seek && !hole && e.valid then w1.(full := true) else w1, hole || first, true)
      else (w1, hole || first, false)
  }

  /** Slot registers always address the table. */
  predicate Addresses(w: Walked, n: nat) {
    w.slot < n && w.empty < n
  }

  /** The rest of a run from slot i on. */
  function Walk(mem: seq<Entry>, probe: nat, base: nat, target: nat, keep: bool, seek: bool, i: nat, hole: bool,
                w: Walked): (r: Walked)
    requires Walkable(mem, probe, base) && i < probe
    ensures Addresses(w, |mem|) ==> Addresses(r, |mem|)
    decreases probe - i
  {
    var (w', hole', done) := Evaluate(mem, probe, base, target, keep, seek, i, hole, w);
    if done || i + 1 == probe then w' else Walk(mem, probe, base, target, keep, seek, i + 1, hole', w')
  }

  /** A whole run: the direct lookup of a reference in the table. */
  function Lookup(mem: seq<Entry>, probe: nat, ref: nat, keep: bool, seek: bool): (r: Walked)
    requires 0 < probe <= |mem|
    ensures Addresses(r, |mem|)
  {
    Walk(mem, probe, Hash(ref, |mem|), ref, keep, seek, 0, false, FRESH)
  }

  /** What a run from slot i finds. */
  lemma {:induction false} WalkFinds(mem: seq<Entry>, probe: nat, base: nat, target: nat, keep: bool, seek: bool,
                                     i: nat, hole: bool, w: Walked)
    requires Walkable(mem, probe, base) && i < probe && !w.found && !w.full
    ensures
      var r := Walk(mem, probe, base, target, keep, seek, i, hole, w);
      && (r.found <==> exists j :: i <= j < probe && Hit(mem, base, j, target))
      && (r.found && keep ==> exists j :: i <= j < probe && Hit(mem, base, j, target)
                                && r.slot == Slot(|mem|, base, j) && r.entry == mem[r.slot])
    decreases probe - i
  {
    if !Hit(mem, base, i, target) && i + 1 < probe {
      var (w', hole', _) := Evaluate(mem, probe, base, target, keep, seek, i, hole, w);
      WalkFinds(mem, probe, base, target, keep, seek, i + 1, hole', w');
    }
  }

  /** Where a run that finds nothing leaves the first hole of the path. */
  lemma {:induction false} WalkSeeks(mem: seq<Entry>, probe: nat, base: nat, target: nat, keep: bool, i: nat,
                                     hole: bool, w: Walked)
    requires Walkable(mem, probe, base) && i < probe && !w.found && !w.full
    requires forall j :: i <= j < probe ==> !Hit(mem, base, j, target)
    ensures
      var r := Walk(mem, probe, base, target, keep, true, i, hole, w);
      && (hole ==> !r.full && r.empty == w.empty)
      && (!hole ==>
            && (r.full <==> forall j :: i <= j < probe ==> mem[Slot(|mem|, base, j)].valid)
            && (!r.full ==> exists j :: i <= j < probe && r.empty == Slot(|mem|, base, j) && !mem[r.empty].valid))
    decreases probe - i
  {
    assert !Hit(mem, base, i, target);
    if i + 1 < probe {
      var (w', hole', _) := Evaluate(mem, probe, base, target, keep, true, i, hole, w);
      WalkSeeks(mem, probe, base, target, keep, i + 1, hole', w');
    }
  }

  /** Slot i of the path of a reference: its number modulo the table, and i slots on. */
  lemma {:induction false} PathIs(n: nat, ref: nat, i: nat)
    requires 0 < n && i < n
    ensures Slot(n, Hash(ref, n), i) == (ref + i) % n
  {
    var q := ref / n;
    assert ref == q * n + ref % n;
    if ref % n + i < n {
      RemainderIs(n, q, ref % n + i);
    } else {
      assert ref + i == (q + 1) * n + (ref % n + i - n);
      RemainderIs(n, q + 1, ref % n + i - n);
    }
  }

  lemma {:induction false} RemainderIs(n: nat, q: nat, r: nat)
    requires r < n
    ensures (q * n + r) % n == r
  {
    var x := q * n + r;
    QuotientIs(x, n, q, r);
    assert x == x / n * n + x % n;
  }

  // ---- refinement of a finite map ----

  predicate OnPath(n: nat, probe: nat, ref: nat, s: nat)
    requires 0 < probe <= n
  {
    exists i :: 0 <= i < probe && s == Slot(n, Hash(ref, n), i)
  }

  /** The table stores exactly these rows: each once, on the path of its reference. */
  ghost predicate Stores(mem: seq<Entry>, probe: nat, rows: Rows) {
    && 0 < probe <= |mem|
    && (forall s :: 0 <= s < |mem| && mem[s].valid ==>
          mem[s].ref in rows && rows[mem[s].ref] == RowOf(mem[s]) && OnPath(|mem|, probe, mem[s].ref, s))
    && (forall s, t ::
          0 <= s < |mem| && 0 <= t < |mem| && mem[s].valid && mem[t].valid && mem[s].ref == mem[t].ref ==> s == t)
    && (forall ref :: ref in rows ==> exists s :: 0 <= s < |mem| && mem[s].valid && mem[s].ref == ref)
  }

  /** A lookup decides membership and returns the stored row: holes hide nothing. */
  lemma {:induction false} LookupDecides(mem: seq<Entry>, probe: nat, rows: Rows, ref: nat, keep: bool, seek: bool)
    requires Stores(mem, probe, rows)
    ensures
      var r := Lookup(mem, probe, ref, keep, seek);
      && (r.found <==> ref in rows)
      && (r.found && keep ==> r.slot < |mem| && mem[r.slot] == r.entry == EntryOf(ref, rows[ref]))
  {
    WalkFinds(mem, probe, Hash(ref, |mem|), ref, keep, seek, 0, false, FRESH);
    if ref in rows {
      var s :| 0 <= s < |mem| && mem[s].valid && mem[s].ref == ref;
      var i :| 0 <= i < probe && s == Slot(|mem|, Hash(ref, |mem|), i);
      assert Hit(mem, Hash(ref, |mem|), i, ref);
    }
  }

  /** For an absent reference, a lookup that seeks room either reports the path
      full or points at a vacant slot of the path. */
  lemma {:induction false} LookupFindsRoom(mem: seq<Entry>, probe: nat, rows: Rows, ref: nat, keep: bool)
    requires Stores(mem, probe, rows) && ref !in rows
    ensures
      var r := Lookup(mem, probe, ref, keep, true);
      && (r.full <==> forall s :: 0 <= s < |mem| && OnPath(|mem|, probe, ref, s) ==> mem[s].valid)
      && (!r.full ==> r.empty < |mem| && !mem[r.empty].valid && OnPath(|mem|, probe, ref, r.empty))
  {
    var h := Hash(ref, |mem|);
    forall j | 0 <= j < probe
      ensures !Hit(mem, h, j, ref)
    {
    }
    WalkSeeks(mem, probe, h, ref, keep, 0, false, FRESH);
    var r := Lookup(mem, probe, ref, keep, true);
    if forall s :: 0 <= s < |mem| && OnPath(|mem|, probe, ref, s) ==> mem[s].valid {
      forall j | 0 <= j < probe
        ensures mem[Slot(|mem|, h, j)].valid
      {
        assert OnPath(|mem|, probe, ref, Slot(|mem|, h, j));
      }
    }
  }

  lemma {:induction false} StoreInsert(mem: seq<Entry>, probe: nat, rows: Rows, ref: nat, row: Row, s: nat)
    requires Stores(mem, probe, rows) && ref !in rows
    requires s < |mem| && !mem[s].valid && OnPath(|mem|, probe, ref, s)
    ensures Stores(mem[s := EntryOf(ref, row)], probe, rows[ref := row])
  {
    var mem' := mem[s := EntryOf(ref, row)];
    var rows' := rows[ref := row];
    forall q | q in rows'
      ensures exists t :: 0 <= t < |mem'| && mem'[t].valid && mem'[t].ref == q
    {
      if q == ref {
        assert mem'[s].ref == q;
      } else {
        var t :| 0 <= t < |mem| && mem[t].valid && mem[t].ref == q;
        assert mem'[t].ref == q;
      }
    }
  }

  lemma {:induction false} StoreDelete(mem: seq<Entry>, probe: nat, rows: Rows, s: nat)
    requires Stores(mem, probe, rows) && s < |mem| && mem[s].valid
    ensures Stores(mem[s := BLANK], probe, rows - {mem[s].ref})
  {
    var mem' := mem[s := BLANK];
    forall q | q in rows && q != mem[s].ref
      ensures exists t :: 0 <= t < |mem'| && mem'[t].valid && mem'[t].ref == q
    {
      var t :| 0 <= t < |mem| && mem[t].valid && mem[t].ref == q;
      assert mem'[t].ref == q;
    }
  }

  lemma {:induction false} StoreUpdate(mem: seq<Entry>, probe: nat, rows: Rows, s: nat, row: Row)
    requires Stores(mem, probe, rows) && s < |mem| && mem[s].valid
    ensures Stores(mem[s := EntryOf(mem[s].ref, row)], probe, rows[mem[s].ref := row])
  {
    var mem' := mem[s := EntryOf(mem[s].ref, row)];
    forall q | q in rows
      ensures exists t :: 0 <= t < |mem'| && mem'[t].valid && mem'[t].ref == q
    {
      var t :| 0 <= t < |mem| && mem[t].valid && mem[t].ref == q;
      assert mem'[t].ref == q;
    }
  }

  /** Replace: the slot found free before the delete is still free after it and is
      not the deleted slot; the two writes give orders minus orig plus new. */
  lemma {:induction false} StoreReplace(mem: seq<Entry>, probe: nat, rows: Rows, orig: nat, newRef: nat, row: Row)
    requires Stores(mem, probe, rows) && orig in rows && newRef !in rows
    requires !Lookup(mem, probe, newRef, false, true).full
    ensures
      var s := Lookup(mem, probe, orig, true, false).slot;
      var t := Lookup(mem, probe, newRef, false, true).empty;
      && s < |mem| && t < |mem| && s != t && !mem[s := BLANK][t].valid
      && Stores(mem[s := BLANK][t := EntryOf(newRef, row)], probe, (rows - {orig})[newRef := row])
  {
    LookupDecides(mem, probe, rows, orig, true, false);
    LookupFindsRoom(mem, probe, rows, newRef, false);
    var s := Lookup(mem, probe, orig, true, false).slot;
    StoreDelete(mem, probe, rows, s);
    StoreInsert(mem[s := BLANK], probe, rows - {orig}, newRef, row, Lookup(mem, probe, newRef, false, true).empty);
  }

  /** Where a row is stored: at most a path's length behind its reference modulo the table. */
  lemma {:induction false} StoredWhere(mem: seq<Entry>, probe: nat, rows: Rows, s: nat) returns (i: nat)
    requires Stores(mem, probe, rows) && s < |mem| && mem[s].valid
    ensures mem[s].ref in rows && mem[s] == EntryOf(mem[s].ref, rows[mem[s].ref])
    ensures i < probe && s == (mem[s].ref + i) % |mem|
  {
    i :| 0 <= i < probe && s == Slot(|mem|, Hash(mem[s].ref, |mem|), i);
    PathIs(|mem|, mem[s].ref, i);
  }
}
