// The probe engine against direct lookup: every run, however it is spread
// over the cycles, ends with the lookup of its reference in the table.
module ProbeSafety {
  import opened Bytes
  import opened OrderTable
  import opened Records
  import opened Clock

  predicate Quiet(pr: Probe) {
    !pr.pendOld && !pr.pendNew && !Active(pr)
  }

  /** What the runs of the message in flight are about. */
  datatype Goal = Goal(
    forOld: bool, forNew: bool, // run armed
    ref: nat, newRef: nat,       // reference looked up
    seek: bool, needed: nat)

  function Seek(t: byte): bool {
    t == TYPE_A || t == TYPE_F
  }

  /** The runs armed once n body words of a message are in. */
  function GoalOf(p: Params, t: byte, acc: seq<Word>, n: nat): (g: Goal)
    requires Sound(p) && n <= |acc| == 16
    ensures g.forNew ==> g.forOld
  {
    Goal(ReadsTable(t) && n >= RefWords(p), t == TYPE_U && n >= 2 * RefWords(p),
         JoinedRef(p, acc, 0), JoinedRef(p, acc, 1), Seek(t), RunsNeeded(t))
  }

  const NO_GOAL := Goal(false, false, 0, 0, false, 0)

  function Target(g: Goal, isOld: bool): nat {
    if isOld then g.ref else g.newRef
  }

  function Result(p: Params, mem: seq<Entry>, g: Goal, isOld: bool): Walked
    requires Sound(p) && |mem| == p.nslot
  {
    Lookup(mem, p.probe, Target(g, isOld), isOld, if isOld then g.seek else true)
  }

  /** The run in progress will end with the lookup of its reference. */
  ghost predicate OnTrack(p: Params, pr: Probe, mem: seq<Entry>, g: Goal)
    requires Sound(p) && |mem| == p.nslot && ProbeShaped(p, pr)
  {
    var w := if pr.isOld then pr.wOld else pr.wNew;
    && pr.base == Hash(Target(g, pr.isOld), p.nslot) && pr.target == Target(g, pr.isOld)
    && pr.seek == (if pr.isOld then g.seek else true)
    && (pr.phase.WARM? ==> pr.rdAddr == pr.base && pr.i == 0 && !pr.hole && w == FRESH)
    && (pr.phase.WALK? ==>
        pr.rdAddr == Slot(p.nslot, pr.base, pr.i + 1) && pr.rdData == mem[Slot(p.nslot, pr.base, pr.i)])
    && Walk(mem, p.probe, pr.base, pr.target, pr.isOld, pr.seek, pr.i, pr.hole, w) == Result(p, mem, g, pr.isOld)
  }

  /** How many of the armed runs have been started. */
  function Started(pr: Probe, g: Goal): nat {
    (if g.forOld && !pr.pendOld then 1 else 0) + (if g.forNew && !pr.pendNew then 1 else 0)
  }

  /** The engine works on exactly the armed runs, the named order's run first. */
  ghost predicate ProbeInv(p: Params, pr: Probe, mem: seq<Entry>, g: Goal)
    requires Sound(p) && |mem| == p.nslot && ProbeShaped(p, pr)
  {
    && (pr.pendOld ==>
        g.forOld && !Active(pr) && pr.oref == g.ref && pr.needEmpty == g.seek && (g.forNew ==> pr.pendNew))
    && (pr.pendNew ==> g.forNew && pr.newref == g.newRef && !(Active(pr) && !pr.isOld))
    && (Active(pr) ==> !pr.pause && OnTrack(p, pr, mem, g))
    && (Active(pr) && pr.isOld ==> g.forOld && (g.forNew ==> pr.pendNew))
    && (Active(pr) && !pr.isOld ==> g.forNew)
    && (g.forOld ==> pr.needed == g.needed && (pr.runs - pr.anchor) % 0x1_0000 == Started(pr, g))
    && (g.forOld && !pr.pendOld && !(Active(pr) && pr.isOld) ==> pr.wOld == Result(p, mem, g, true))
    && (g.forNew && !pr.pendNew && !Active(pr) ==> pr.wNew == Result(p, mem, g, false))
  }

  lemma {:induction false} OneMoreRun(runs: nat, anchor: nat, k: nat)
    requires (runs - anchor) % 0x1_0000 == k < 0xFFFF
    ensures ((runs + 1) % 0x1_0000 - anchor) % 0x1_0000 == k + 1
  {
  }

  /** A starting run is on track. */
  lemma {:induction false} StartOnTrack(p: Params, pr: Probe, mem: seq<Entry>, g: Goal)
    requires Sound(p) && |mem| == p.nslot && ProbeShaped(p, pr) && ProbeInv(p, pr, mem, g)
    requires !pr.pause && !Active(pr) && (pr.pendOld || pr.pendNew)
    ensures OnTrack(p, ProbeAdvance(p, pr, mem, false), mem, g)
  {
  }

  /** The first edge of a run only moves the read ahead. */
  lemma {:induction false} WarmOnTrack(p: Params, pr: Probe, mem: seq<Entry>, g: Goal)
    requires Sound(p) && |mem| == p.nslot && ProbeShaped(p, pr) && pr.phase.WARM? && !pr.pause && OnTrack(p, pr, mem, g)
    ensures OnTrack(p, ProbeAdvance(p, pr, mem, false), mem, g)
  {
  }

  /** One evaluated slot: the rest of the walk still has the run's result. */
  lemma {:induction false} WalkUnfolds(p: Params, pr: Probe, mem: seq<Entry>)
    requires Sound(p) && |mem| == p.nslot && ProbeShaped(p, pr)
    requires pr.rdData == mem[Slot(p.nslot, pr.base, pr.i)]
    ensures
      var w := if pr.isOld then pr.wOld else pr.wNew;
      var (w', hole', done) :=
        EvaluateEntry(pr.rdData, Slot(p.nslot, pr.base, pr.i), p.probe, pr.target, pr.isOld, pr.seek, pr.i, pr.hole, w);
      && (pr.i + 1 == p.probe ==> done)
      && Walk(mem, p.probe, pr.base, pr.target, pr.isOld, pr.seek, pr.i, pr.hole, w)
         == if done then w' else Walk(mem, p.probe, pr.base, pr.target, pr.isOld, pr.seek, pr.i + 1, hole', w')
  {
  }

  /** A walking run stays on track, or ends with its result. */
  lemma {:induction false} WalkOnTrack(p: Params, pr: Probe, mem: seq<Entry>, g: Goal)
    requires Sound(p) && |mem| == p.nslot && ProbeShaped(p, pr) && pr.phase.WALK? && !pr.pause && OnTrack(p, pr, mem, g)
    ensures
      var s := ProbeAdvance(p, pr, mem, false);
      if Active(s) then OnTrack(p, s, mem, g)
      else (if pr.isOld then s.wOld else s.wNew) == Result(p, mem, g, pr.isOld)
  {
    WalkUnfolds(p, pr, mem);
  }

  /** The registers of arming and counting. */
  predicate SameOrders(s: Probe, pr: Probe) {
    && s.pendOld == pr.pendOld && s.pendNew == pr.pendNew && s.oref == pr.oref && s.newref == pr.newref
    && s.needEmpty == pr.needEmpty && s.runs == pr.runs && s.anchor == pr.anchor && s.needed == pr.needed
  }

  /** An active run touches only its own registers. */
  lemma {:induction false} ActiveFrame(p: Params, pr: Probe, mem: seq<Entry>)
    requires Sound(p) && |mem| == p.nslot && ProbeShaped(p, pr) && Active(pr) && !pr.pause
    ensures
      var s := ProbeAdvance(p, pr, mem, false);
      && SameOrders(s, pr) && s.isOld == pr.isOld && !s.pause
      && (if pr.isOld then s.wNew == pr.wNew else s.wOld == pr.wOld)
  {
    hide ProbeWalk, Slot, Hash, Addresses, Sound;
  }

  /** One edge outside the table-writing states keeps the engine on its runs. */
  lemma {:induction false} ProbeStep(p: Params, pr: Probe, mem: seq<Entry>, g: Goal)
    requires Sound(p) && |mem| == p.nslot && ProbeShaped(p, pr) && ProbeInv(p, pr, mem, g)
    requires g.forNew ==> g.forOld
    ensures ProbeInv(p, ProbeAdvance(p, pr, mem, false), mem, g)
  {
    hide OnTrack, Lookup, EvaluateEntry, Hash, Slot;
    var s := ProbeAdvance(p, pr, mem, false);
    if !pr.pause && !Active(pr) && (pr.pendOld || pr.pendNew) {
      StartOnTrack(p, pr, mem, g);
      OneMoreRun(pr.runs, pr.anchor, Started(pr, g));
    } else if Active(pr) {
      ActiveFrame(p, pr, mem);
      if pr.phase.WARM? {
        WarmOnTrack(p, pr, mem, g);
      } else {
        WalkOnTrack(p, pr, mem, g);
      }
    }
  }

  /** A quiet engine stays quiet and keeps its results, whatever the table does. */
  lemma {:induction false} QuietStep(p: Params, pr: Probe, mem: seq<Entry>, hold: bool)
    requires Sound(p) && |mem| == p.nslot && ProbeShaped(p, pr) && Quiet(pr)
    ensures
      var s := ProbeAdvance(p, pr, mem, hold);
      && Quiet(s) && s.wOld == pr.wOld && s.wNew == pr.wNew
      && s.runs == pr.runs && s.anchor == pr.anchor && s.needed == pr.needed
  {
  }

  /** Once the wait condition holds, nothing is pending and both results are in. */
  lemma {:induction false} DoneMeansQuiet(p: Params, pr: Probe, mem: seq<Entry>, g: Goal)
    requires Sound(p) && |mem| == p.nslot && ProbeShaped(p, pr) && ProbeInv(p, pr, mem, g)
    requires g.forOld && g.needed == (if g.forNew then 2 else 1) && ProbeDone(pr)
    ensures Quiet(pr)
    ensures pr.wOld == Result(p, mem, g, true)
    ensures g.forNew ==> pr.wNew == Result(p, mem, g, false)
  {
  }

  // ---- arming ----

  /** Only the armed runs' references matter. */
  predicate SameGoal(g: Goal, h: Goal) {
    && g.forOld == h.forOld && g.forNew == h.forNew
    && (g.forOld ==> g.ref == h.ref && g.seek == h.seek && g.needed == h.needed)
    && (g.forNew ==> g.newRef == h.newRef)
  }

  lemma {:induction false} SameGoalSameInv(p: Params, pr: Probe, mem: seq<Entry>, g: Goal, h: Goal)
    requires Sound(p) && |mem| == p.nslot && ProbeShaped(p, pr) && ProbeInv(p, pr, mem, g) && SameGoal(g, h)
    ensures ProbeInv(p, pr, mem, h)
  {
  }

  /** Arming the first run of a message on a quiet engine. */
  lemma {:induction false} ArmOldKeeps(p: Params, pr: Probe, mem: seq<Entry>, t: byte, acc: seq<Word>, n: nat)
    requires Sound(p) && |mem| == p.nslot && ProbeShaped(p, pr) && Quiet(pr)
    requires RefWords(p) <= n <= |acc| == 16 && ReadsTable(t)
    ensures
      ProbeInv(p, ArmOld(p, pr, t, acc).(anchor := pr.runs, needed := RunsNeeded(t)), mem,
               GoalOf(p, t, acc, n).(forNew := false))
  {
  }

  /** Arming the second run while the first is pending, active or over. */
  lemma {:induction false} ArmNewKeeps(p: Params, pr: Probe, mem: seq<Entry>, acc: seq<Word>, g: Goal)
    requires Sound(p) && |mem| == p.nslot && ProbeShaped(p, pr) && ProbeInv(p, pr, mem, g)
    requires g.forOld && !g.forNew && |acc| == 16
    ensures ProbeInv(p, ArmNew(p, pr, acc), mem, g.(forNew := true, newRef := JoinedRef(p, acc, 1)))
  {
  }

  /** A word beyond a reference does not change it. */
  lemma {:induction false} LaterWords(p: Params, acc: seq<Word>, n: nat, w: Word)
    requires Sound(p) && n < |acc| == 16
    ensures n >= RefWords(p) ==> JoinedRef(p, acc[n := w], 0) == JoinedRef(p, acc, 0)
    ensures n >= 2 * RefWords(p) ==> JoinedRef(p, acc[n := w], 1) == JoinedRef(p, acc, 1)
  {
  }

  // ---- the measure of the wait ----

  /** Edges left until every pending and active run has ended. */
  function WaitLeft(p: Params, pr: Probe): nat
    requires Sound(p) && ProbeShaped(p, pr)
  {
    (if pr.pause then 1 else 0)
    + (if pr.pendOld then p.probe + 3 else 0)
    + (if pr.pendNew then p.probe + 3 else 0)
    + (match pr.phase case IDLE => 0 case WARM => p.probe + 2 case WALK => p.probe + 1 - pr.i)
  }

  /** Outside the table-writing states every edge of a busy engine brings the end closer. */
  lemma {:induction false} WaitFalls(p: Params, pr: Probe, mem: seq<Entry>)
    requires Sound(p) && |mem| == p.nslot && ProbeShaped(p, pr) && !Quiet(pr)
    ensures WaitLeft(p, ProbeAdvance(p, pr, mem, false)) < WaitLeft(p, pr)
  {
    hide ProbeWalk, Slot, Hash;
  }
}
