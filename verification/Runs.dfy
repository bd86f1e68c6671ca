// Whole runs of the clocked book, from reset, under any input and ready
// schedule, against the reference book.
module Runs {
  import opened Prices
  import opened OrderTable
  import opened Records
  import opened Engine
  import opened Receiver
  import opened Clock
  import opened ProbeSafety
  import opened Overlap
  import opened ClockSafety
  import opened ClockRefinement
  import opened ShownLevels
  import opened BookRefinement
  import opened StepRefinement
  import Market

  // ---- from reset ----

  /** The registers right after reset; the table holds anything. */
  predicate IsReset(p: Params, r: Regs)
    requires Sound(p)
  {
    && RegsShaped(p, r)
    && r.st.INVAL? && r.inval == 0 && NextIdle(r.f.nx)
    && r.f.locs == RxReset(p).locs && r.f.cnt == 0
    && Quiet(r.pr)
    && r.t.core == Reset(p).(mem := r.t.core.mem)
    && !r.out.bboValid && !r.out.depthValid
  }

  predicate Wired(p: Params, ins: seq<In>) {
    forall i :: 0 <= i < |ins| ==> |ins[i].beat.data| == p.bytes
  }

  /** The machine after all cycles, with the history of its pins. */
  function Run(p: Params, r0: Regs, ins: seq<In>): (c: Config)
    requires Sound(p) && IsReset(p, r0) && Wired(p, ins)
    ensures ConfigShaped(p, c)
  {
    if ins == [] then Config(r0, RxReset(p), [], [])
    else Tick(p, Run(p, r0, ins[..|ins| - 1]), ins[|ins| - 1])
  }

  lemma {:induction false} ResetInv(p: Params, r0: Regs)
    requires Sound(p) && IsReset(p, r0)
    ensures Inv(p, Config(r0, RxReset(p), [], []))
  {
    hide Lookup, OnTrack, Process;
  }

  /** Every reachable configuration satisfies the invariant. */
  lemma {:induction false} RunInv(p: Params, r0: Regs, ins: seq<In>)
    requires Sound(p) && IsReset(p, r0) && Wired(p, ins)
    ensures Run(p, r0, ins).x.ok ==> Inv(p, Run(p, r0, ins))
  {
    if ins == [] {
      ResetInv(p, r0);
    } else {
      var init := ins[..|ins| - 1];
      RunInv(p, r0, init);
      if Run(p, r0, ins).x.ok {
        InvStep(p, Run(p, r0, init), ins[|ins| - 1]);
      }
    }
  }

  /** In every run the table is never written while a probe run is pending or
      active, and the apply state finds the direct lookups of the table as all
      earlier messages left it. */
  lemma {:induction false} HazardFreedom(p: Params, r0: Regs, ins: seq<In>)
    requires Sound(p) && IsReset(p, r0) && Wired(p, ins) && Run(p, r0, ins).x.ok
    ensures
      var c := Run(p, r0, ins);
      && (c.r.st.APPLY? || c.r.st.UADD? ==> Quiet(c.r.pr))
      && (c.r.st.APPLY? ==>
            && 0 <= Finished(c.r, c.x) < |c.x.done|
            && var rec := c.x.done[Finished(c.r, c.x)];
               var mem := History(p, c.x, Finished(c.r, c.x)).0.mem;
               var op := DecodeOp(p, rec.mtype, rec.words);
               && c.r.t.core.mem == mem
               && (ReadsTable(rec.mtype) ==> c.r.pr.wOld == LookupOld(p, mem, op))
               && (op.Replace? ==> c.r.pr.wNew == LookupNew(p, mem, op)))
  {
    hide Run, OnTrack, Process, RunRecords, LookupOld, LookupNew, JoinedRef, BodyByte;
    RunInv(p, r0, ins);
    var c := Run(p, r0, ins);
    if c.r.st.APPLY? {
      var rec := c.x.done[Finished(c.r, c.x)];
      FieldsArePrefix(p, rec.mtype, rec.words, c.r.m.acc);
      LatchedIsLookup(p, c.r);
    }
  }

  /** In every run each output channel has carried, or still offers, exactly the
      events of processing the finished records one by one, each once and in order;
      between messages the registers are those records' result. */
  lemma {:induction false} DeliversHistory(p: Params, r0: Regs, ins: seq<In>)
    requires Sound(p) && IsReset(p, r0) && Wired(p, ins) && Run(p, r0, ins).x.ok
    ensures
      var c := Run(p, r0, ins);
      var k := Finished(c.r, c.x);
      && 0 <= k <= |c.x.done|
      && var (core, es) := RunRecords(p, c.x.done[..k]);
         && es == c.bbos + Pending(c.r.out.bboValid, c.r.out.event)
         && es == c.depths + Pending(c.r.out.depthValid, c.r.out.event)
         && (!c.r.st.INVAL? && !InPipeline(c.r.st) ==> c.r.t.core == core)
  {
    RunInv(p, r0, ins);
  }

  // ---- symbols ----

  /** Registered locates are distinct and stay where they are; the rest of the
      table holds the marker. */
  predicate SymbolsInv(p: Params, x: Rx) {
    && |x.locs| == p.nsym && Distinct(x.locs, x.cnt)
    && (forall j :: x.cnt <= j < |x.locs| ==> x.locs[j] == UNREGISTERED)
    && (forall j :: 0 <= j < x.cnt ==> x.locs[j] != UNREGISTERED)
    && (forall i :: 0 <= i < |x.done| && x.done[i].locate != UNREGISTERED && !x.done[i].bad ==>
        Addressed(x.locs, x.cnt, x.done[i]))
    && (!x.part.Nothing? && x.part.rec.locate != UNREGISTERED && !x.part.rec.bad ==>
        Addressed(x.locs, x.cnt, x.part.rec))
  }

  lemma {:induction false} ResolveKeeps(p: Params, x: Rx, l: nat)
    requires Sound(p) && SymbolsInv(p, x)
    ensures
      var s := Resolve(p, x.locs, x.cnt, l);
      && x.cnt <= s.cnt && Distinct(s.locs, s.cnt)
      && (forall j :: 0 <= j < x.cnt ==> s.locs[j] == x.locs[j])
      && (forall j :: s.cnt <= j < |s.locs| ==> s.locs[j] == UNREGISTERED)
      && (forall j :: 0 <= j < s.cnt ==> s.locs[j] != UNREGISTERED)
      && (l != UNREGISTERED && !s.bad ==> s.index < s.cnt && s.locs[s.index] == l)
  {
    if l == UNREGISTERED && x.cnt < p.nsym {
      assert x.locs[x.cnt] == l;
    }
  }

  lemma {:induction false} SymbolsStep(p: Params, x: Rx, b: Beat)
    requires Sound(p) && RxShaped(p, x) && |b.data| == p.bytes && SymbolsInv(p, x)
    ensures SymbolsInv(p, RxStep(p, x, b))
  {
    hide BodyWords, GoodHead, Resolve, GoodRecords;
    var y := RxStep(p, x, b);
    if x.part.Nothing? {
      ResolveKeeps(p, x, HeadLocate(b.data));
    }
    forall i | 0 <= i < |y.done|
      ensures y.done[i].locate != UNREGISTERED && !y.done[i].bad ==> Addressed(y.locs, y.cnt, y.done[i])
    {
      assert i < |x.done| ==> y.done[i] == x.done[i];
    }
  }

  lemma {:induction false} RunSymbols(p: Params, r0: Regs, ins: seq<In>)
    requires Sound(p) && IsReset(p, r0) && Wired(p, ins)
    ensures SymbolsInv(p, Run(p, r0, ins).x)
  {
    hide Edge;
    if ins != [] {
      var c := Run(p, r0, ins[..|ins| - 1]);
      RunSymbols(p, r0, ins[..|ins| - 1]);
      SymbolsStep(p, c.x, ins[|ins| - 1].beat);
    }
  }

  // ---- against the reference ----

  function MessagesOf(p: Params, rs: seq<Record>): (ms: seq<Market.Message>)
    requires Sound(p) && GoodRecords(p, rs)
    ensures |ms| == |rs|
  {
    if rs == [] then []
    else
      assert GoodRecord(p, rs[|rs| - 1]);
      MessagesOf(p, rs[..|rs| - 1]) + [MessageOf(p, rs[|rs| - 1])]
  }

  /** Along the run every record fits the fixed sizes, none is for a symbol outside the
      subset, and none carries the marker as its locate. */
  ghost predicate FittingRun(p: Params, rs: seq<Record>)
    requires Sound(p) && GoodRecords(p, rs)
  {
    rs == [] ||
    var init, r := rs[..|rs| - 1], rs[|rs| - 1];
    && FittingRun(p, init)
    && r.locate != UNREGISTERED && !r.bad
    && Fitting(p, RunRecords(p, init).0, Market.Run(MessagesOf(p, init)).0, r)
  }

  lemma {:induction false} NothingSized()
    ensures Sized(map[])
  {
  }

  /** Orders of a fitting run have between one and 2^31 - 1 shares. */
  lemma {:induction false} FittingIsSized(p: Params, rs: seq<Record>)
    requires Sound(p) && GoodRecords(p, rs) && FittingRun(p, rs)
    ensures Sized(Market.Run(MessagesOf(p, rs)).0.orders)
    decreases |rs|
  {
    hide Process, GoodRecord, RunRecords, Fitting, Sized, Market.Step, MessageOf;
    if rs == [] {
      NothingSized();
    } else {
      var init, r := rs[..|rs| - 1], rs[|rs| - 1];
      assert GoodRecord(p, r);
      FittingIsSized(p, init);
      StaysSized(p, RunRecords(p, init).0, Market.Run(MessagesOf(p, init)).0, r);
      assert MessagesOf(p, rs)[..|rs| - 1] == MessagesOf(p, init);
    }
  }

  /** Along the run no list is upset: a strong one never loses a level while another is
      missing, a weak one never gets a level back at or behind a missing one. */
  ghost predicate KeptRun(p: Params, rs: seq<Record>, weak: set<nat>)
    requires Sound(p) && GoodRecords(p, rs) && FittingRun(p, rs)
  {
    rs == [] ||
    var init, r := rs[..|rs| - 1], rs[|rs| - 1];
    FittingIsSized(p, init);
    KeptRun(p, init, weak) && KeepsLists(p, RunRecords(p, init).0, Market.Run(MessagesOf(p, init)).0, r, weak)
  }

  /** The run fits, and every list shows the best levels throughout. */
  ghost predicate TameRun(p: Params, rs: seq<Record>)
    requires Sound(p) && GoodRecords(p, rs)
  {
    FittingRun(p, rs) && KeptRun(p, rs, {})
  }

  /** The events are the reference's, message by message, with the depth of the
      book after each. */
  ghost predicate TraceAgrees(p: Params, rs: seq<Record>, es: seq<Event>)
    requires Sound(p) && GoodRecords(p, rs)
    decreases |rs|
  {
    if rs == [] then es == []
    else
      assert GoodRecord(p, rs[|rs| - 1]);
      var init := rs[..|rs| - 1];
      var (s, out) := Market.Step(Market.Run(MessagesOf(p, init)).0, MessageOf(p, rs[|rs| - 1]));
      if out.Event? then
        es != [] && TraceAgrees(p, init, es[..|es| - 1]) && Agrees(p, Some(es[|es| - 1]), out, s.orders)
      else TraceAgrees(p, init, es)
  }

  lemma {:induction false} ResetMirrors(p: Params, locs: seq<nat>, cnt: nat)
    requires Sound(p) && |locs| == p.nsym && Distinct(locs, cnt)
    ensures Mirrors(p, locs, cnt, Reset(p), Market.Initial)
  {
    forall j, ask | 0 <= j < cnt
      ensures SideShows(Reset(p).sides[SideOf(j, ask)], Market.LevelsOf(map[], locs[j], ask), ask, true)
    {
      assert ListShows([], Reset(p).sides[SideOf(j, ask)], Market.LevelsOf(map[], locs[j], ask), ask, true);
    }
  }

  /** The trace grows by one record. */
  lemma {:induction false} TraceGrows(p: Params, rs: seq<Record>, es: seq<Event>, e: Option<Event>)
    requires Sound(p) && rs != [] && GoodRecords(p, rs) && GoodRecord(p, rs[|rs| - 1])
    requires TraceAgrees(p, rs[..|rs| - 1], es)
    requires
      var (s, out) := Market.Step(Market.Run(MessagesOf(p, rs[..|rs| - 1])).0, MessageOf(p, rs[|rs| - 1]));
      Agrees(p, e, out, s.orders)
    ensures TraceAgrees(p, rs, if e.Some? then es + [e.value] else es)
  {
    hide DepthShows, MessagesOf;
    if e.Some? {
      var longer := es + [e.value];
      assert longer[..|longer| - 1] == es && Some(longer[|longer| - 1]) == e;
    }
  }

  /** Record-by-record processing refines the reference over any tame run. */
  lemma {:induction false} RecordsRefine(p: Params, locs: seq<nat>, cnt: nat, rs: seq<Record>)
    requires Sound(p) && |locs| == p.nsym && Distinct(locs, cnt)
    requires GoodRecords(p, rs) && forall i :: 0 <= i < |rs| ==> Addressed(locs, cnt, rs[i])
    requires TameRun(p, rs)
    ensures Mirrors(p, locs, cnt, RunRecords(p, rs).0, Market.Run(MessagesOf(p, rs)).0)
    ensures TraceAgrees(p, rs, RunRecords(p, rs).1)
    decreases |rs|
  {
    hide Process, Market.Step, Mirrors, GoodRecord, Sound, Agrees, Fitting, KeepsLists, MessageOf, Engine.Shaped;
    if rs == [] {
      ResetMirrors(p, locs, cnt);
    } else {
      var init, r := rs[..|rs| - 1], rs[|rs| - 1];
      assert GoodRecord(p, r) && Addressed(locs, cnt, r);
      RecordsRefine(p, locs, cnt, init);
      var (c, es) := RunRecords(p, init);
      var s := Market.Run(MessagesOf(p, init)).0;
      ProcessRefines(p, locs, cnt, c, s, r);
      assert MessagesOf(p, rs)[..|rs| - 1] == MessagesOf(p, init);
      TraceGrows(p, rs, es, Process(p, c, r).1);
    }
  }

  /** The main theorem. For every input and ready schedule: as long as the stream is
      well formed and the finished records stay within the fixed sizes, the events
      delivered or on offer are exactly the reference book's, each once and in
      order, on both channels, and between messages every register mirrors the
      reference's state. */
  lemma {:induction false} ClockedBookRefinesReference(p: Params, r0: Regs, ins: seq<In>)
    requires Sound(p) && IsReset(p, r0) && Wired(p, ins) && Run(p, r0, ins).x.ok
    requires
      var c := Run(p, r0, ins);
      0 <= Finished(c.r, c.x) <= |c.x.done| ==> TameRun(p, c.x.done[..Finished(c.r, c.x)])
    ensures
      var c := Run(p, r0, ins);
      && 0 <= Finished(c.r, c.x) <= |c.x.done|
      && var rs := c.x.done[..Finished(c.r, c.x)];
         && TraceAgrees(p, rs, c.bbos + Pending(c.r.out.bboValid, c.r.out.event))
         && TraceAgrees(p, rs, c.depths + Pending(c.r.out.depthValid, c.r.out.event))
         && (!c.r.st.INVAL? && !InPipeline(c.r.st) ==>
               Mirrors(p, c.x.locs, c.x.cnt, c.r.t.core, Market.Run(MessagesOf(p, rs)).0))
  {
    hide Run, TraceAgrees, Mirrors, KeptRun, FittingRun, MessagesOf, RunRecords, PartShaped;
    var c := Run(p, r0, ins);
    DeliversHistory(p, r0, ins);
    RunSymbols(p, r0, ins);
    var rs := c.x.done[..Finished(c.r, c.x)];
    forall i | 0 <= i < |rs|
      ensures Addressed(c.x.locs, c.x.cnt, rs[i])
    {
      FittingIsAddressed(p, rs, i);
    }
    RecordsRefine(p, c.x.locs, c.x.cnt, rs);
  }

  lemma {:induction false} FittingIsAddressed(p: Params, rs: seq<Record>, i: nat)
    requires Sound(p) && i < |rs| && GoodRecords(p, rs) && FittingRun(p, rs)
    ensures rs[i].locate != UNREGISTERED && !rs[i].bad
    decreases |rs|
  {
    hide FittingRun, GoodRecord;
    FittingLast(p, rs);
    if i < |rs| - 1 {
      FittingIsAddressed(p, rs[..|rs| - 1], i);
    }
  }

  lemma {:induction false} FittingLast(p: Params, rs: seq<Record>)
    requires Sound(p) && GoodRecords(p, rs) && FittingRun(p, rs) && rs != []
    ensures FittingRun(p, rs[..|rs| - 1]) && rs[|rs| - 1].locate != UNREGISTERED && !rs[|rs| - 1].bad
  {
    hide Fitting, GoodRecord, RunRecords, Market.Run, MessagesOf;
  }
}
