/**
 Any number of goroutines calling the volume manager at once. A call is four steps: start, try the
 lock, read LVM, act and release. The process may die between any two of them, and the
 disk scan runs pvresize without the lock (runners/devicecheck.go:310). Reading is one step: the
 one call that reads twice, RemoveDiskInVg, is made by the goroutine that runs pvresize.
 */
module Workers {
  import opened Units
  import Sums
  import opened Lvm
  import opened VolumeOps

  datatype Pc = Started(op: Op) | Holding(op: Op) | Looked(op: Op, seen: Lvm)

  datatype State = State(lvm: Lvm, holders: set<int>, workers: map<int, Pc>)

  datatype Event =
    | Start(w: int, op: Op)
    | TryLock(w: int)
    | Look(w: int)
    | Act(w: int, env: Env)
    | Die
    | PvResize(vg: string, disk: string, extra: nat)

  ghost predicate Step(s: State, e: Event, s': State) {
    match e
    case Start(w, op) => w !in s.workers && WholeOp(op) && s' == s.(workers := s.workers[w := Started(op)])
    case TryLock(w) =>
      && w in s.workers && s.workers[w].Started?
      && s' == if s.holders == {} then s.(holders := {w}, workers := s.workers[w := Holding(s.workers[w].op)])
               else s.(workers := s.workers - {w})
    case Look(w) =>
      && w in s.workers && s.workers[w].Holding?
      && s' == s.(workers := s.workers[w := Looked(s.workers[w].op, s.lvm)])
    case Act(w, env) =>
      && w in s.workers && s.workers[w].Looked?
      && s' == State(Apply(s.workers[w].seen, s.lvm, s.workers[w].op, env).0, s.holders - {w}, s.workers - {w})
    case Die => s' == State(s.lvm, {}, map[])
    case PvResize(vg, disk, extra) => s' == s.(lvm := PvGrow(s.lvm, vg, disk, extra))
  }

  /** Event i leads from state i to the next one. */
  ghost predicate StepAt(run: seq<State>, events: seq<Event>, i: nat)
    requires i < |events| && |run| == |events| + 1
  {
    Step(run[i], events[i], run[i + 1])
  }

  ghost predicate IsRun(run: seq<State>, events: seq<Event>) {
    |run| == |events| + 1 && forall i: nat | i < |events| :: StepAt(run, events, i)
  }

  ghost predicate Init(s: State) {
    Sound(s.lvm) && Reserved(s.lvm) && s.holders == {} && s.workers == map[]
  }

  /** One holder at most, and what the holder has read is what LVM holds, but for disks that grew. */
  ghost predicate Locked(s: State) {
    && Sound(s.lvm) && |s.holders| <= 1
    && (forall w :: w in s.workers ==> WholeOp(s.workers[w].op))
    && (forall w :: w in s.workers && !s.workers[w].Started? ==> s.holders == {w})
    && (forall w :: w in s.workers && s.workers[w].Looked? ==> Grown(s.workers[w].seen, s.lvm))
  }

  lemma StepKeepsLocked(s: State, e: Event, s': State)
    requires Locked(s) && Step(s, e, s')
    ensures Locked(s')
  {
    match e
    case Act(w, env) => ApplySound(s.workers[w].seen, s.lvm, s.workers[w].op, env);
    case PvResize(vg, disk, extra) =>
      PvGrowSound(s.lvm, vg, disk, extra);
      forall w | w in s.workers && s.workers[w].Looked? ensures Grown(s.workers[w].seen, s'.lvm) {
        PvGrowGrows(s.workers[w].seen, s.lvm, vg, disk, extra);
      }
    case _ =>
  }

  /** In every interleaving, with deaths anywhere and pvresize at any moment. */
  lemma {:induction false} LockedAlways(run: seq<State>, events: seq<Event>, k: nat)
    requires IsRun(run, events) && Init(run[0]) && k < |run|
    ensures Locked(run[k])
  {
    if k > 0 {
      LockedAlways(run, events, k - 1);
      assert StepAt(run, events, k - 1);
      StepKeepsLocked(run[k - 1], events[k - 1], run[k]);
    }
  }

  /** What a call read had the reserve. */
  ghost predicate ReadReserved(s: State) {
    Reserved(s.lvm) && forall w :: w in s.workers && s.workers[w].Looked? ==> Reserved(s.workers[w].seen)
  }

  /** The call that acts is within its needs. Without growth inside the call it always is. */
  ghost predicate ActsWithin(s: State, e: Event) {
    e.Act? && e.w in s.workers && s.workers[e.w].Looked? ==> Within(s.workers[e.w].seen, s.lvm, s.workers[e.w].op)
  }

  lemma StepKeepsReserve(s: State, e: Event, s': State)
    requires Locked(s) && ReadReserved(s) && Step(s, e, s') && ActsWithin(s, e)
    ensures ReadReserved(s')
  {
    match e
    case Act(w, env) => ApplyReserved(s.workers[w].seen, s.lvm, s.workers[w].op, env);
    case PvResize(vg, disk, extra) => PvGrowSound(s.lvm, vg, disk, extra);
    case _ =>
  }

  ghost predicate WithinAt(run: seq<State>, events: seq<Event>, i: nat)
    requires i < |events| && |run| == |events| + 1
  {
    ActsWithin(run[i], events[i])
  }

  /**
   In every interleaving, with deaths anywhere and pvresize at any moment: if every call that acts is
   within its needs, no group ever has less than 9 GiB free.
   */
  lemma {:induction false} ReserveAlwaysHolds(run: seq<State>, events: seq<Event>, k: nat)
    requires IsRun(run, events) && Init(run[0]) && k < |run| && forall i: nat | i < |events| :: WithinAt(run, events, i)
    ensures ReadReserved(run[k])
  {
    if k > 0 {
      ReserveAlwaysHolds(run, events, k - 1);
      LockedAlways(run, events, k - 1);
      assert StepAt(run, events, k - 1) && WithinAt(run, events, k - 1);
      StepKeepsReserve(run[k - 1], events[k - 1], run[k]);
    }
  }

  // Runs in which no disk grows inside a call.

  /** No call is between its reading and its acting when a disk grows. */
  ghost predicate Quiet(s: State, e: Event) {
    e.PvResize? ==> forall w :: w in s.workers ==> !s.workers[w].Looked?
  }

  ghost predicate QuietAt(run: seq<State>, events: seq<Event>, i: nat)
    requires i < |events| && |run| == |events| + 1
  {
    Quiet(run[i], events[i])
  }

  /** What was read is what LVM holds. */
  ghost predicate ReadCurrent(s: State) {
    forall w :: w in s.workers && s.workers[w].Looked? ==> s.workers[w].seen == s.lvm
  }

  lemma StepKeepsCurrent(s: State, e: Event, s': State)
    requires Locked(s) && ReadCurrent(s) && Step(s, e, s') && Quiet(s, e)
    ensures ReadCurrent(s')
  {}

  lemma {:induction false} CurrentAlways(run: seq<State>, events: seq<Event>, k: nat)
    requires IsRun(run, events) && Init(run[0]) && k < |run| && forall i: nat | i < |events| :: QuietAt(run, events, i)
    ensures ReadCurrent(run[k])
  {
    if k > 0 {
      CurrentAlways(run, events, k - 1);
      LockedAlways(run, events, k - 1);
      assert StepAt(run, events, k - 1) && QuietAt(run, events, k - 1);
      StepKeepsCurrent(run[k - 1], events[k - 1], run[k]);
    }
  }

  /** A call that acts on what it read is within its needs: what it asks for was there, or LVM refuses it. */
  lemma CurrentIsWithin(s: State, e: Event)
    requires ReadCurrent(s)
    ensures ActsWithin(s, e)
  {}

  /**
   However any number of creations, resizes, deletions and disk additions and removals interleave and
   die, and wherever disks grow outside a call: no group ever has less than 9 GiB free, and every
   call acts on what it read.
   */
  lemma QuietKeepsReserve(run: seq<State>, events: seq<Event>, k: nat)
    requires IsRun(run, events) && Init(run[0]) && k < |run| && forall i: nat | i < |events| :: QuietAt(run, events, i)
    ensures Reserved(run[k].lvm) && ReadCurrent(run[k])
  {
    forall i: nat | i < |events| ensures WithinAt(run, events, i) {
      CurrentAlways(run, events, i);
      CurrentIsWithin(run[i], events[i]);
    }
    ReserveAlwaysHolds(run, events, k);
    CurrentAlways(run, events, k);
  }

  /** In particular when no disk grows at all. */
  lemma CallsKeepReserve(run: seq<State>, events: seq<Event>, k: nat)
    requires IsRun(run, events) && Init(run[0]) && k < |run| && forall i | 0 <= i < |events| :: !events[i].PvResize?
    ensures Reserved(run[k].lvm)
  {
    forall i: nat | i < |events| ensures QuietAt(run, events, i) {}
    QuietKeepsReserve(run, events, k);
  }

  /** Growth inside a call is another matter: one that is not within its needs, and whose commands work, breaks the reserve. */
  lemma NotWithinBreaksReserve(s: State, w: int, s': State)
    requires Locked(s) && ReadReserved(s) && Step(s, Act(w, AllOk), s') && !ActsWithin(s, Act(w, AllOk))
    requires Modest(s.workers[w].op, s.workers[w].seen)
    ensures !Reserved(s'.lvm)
  {
    var seen, op := s.workers[w].seen, s.workers[w].op;
    match op
    case Create(lv, vg, size) =>
      assert GrownVg(seen.vgs[vg], s.lvm.vgs[vg]);
      GrowthInsideCreate(seen, s.lvm, lv, vg, size);
    case Resize(lv, vg, size) => GrowthInsideResize(seen, s.lvm, lv, vg, size);
  }

  /** A size an LVM volume can have, for a volume that is not there yet, or of one that is. */
  predicate Modest(op: Op, seen: Lvm) {
    match op
    case Create(lv, vg, size) =>
      0 < size < TWO64 - RESERVE && (vg in seen.vgs ==> VOLUME_PREFIX + lv !in seen.vgs[vg].lvs)
    case Resize(lv, vg, size) =>
      0 < size < TWO64 - RESERVE && vg in seen.vgs && VOLUME_PREFIX + lv in seen.vgs[vg].lvs
      && seen.vgs[vg].lvs[VOLUME_PREFIX + lv] < TWO64
    case _ => true
  }

  /** LVM moves only by whole operations of the one holder, which read LVM as it is but for disks that grew. */
  lemma ActIsAtomic(run: seq<State>, events: seq<Event>, i: nat)
    requires IsRun(run, events) && Init(run[0]) && i < |events|
    ensures run[i + 1].lvm == run[i].lvm || events[i].PvResize? || (events[i].Act? && events[i].w in run[i].workers)
    ensures events[i].Act? && events[i].w in run[i].workers && run[i].workers[events[i].w].Looked? ==>
              && Grown(run[i].workers[events[i].w].seen, run[i].lvm) && run[i].holders == {events[i].w}
              && run[i + 1].lvm == Apply(run[i].workers[events[i].w].seen, run[i].lvm, run[i].workers[events[i].w].op, events[i].env).0
  {
    LockedAlways(run, events, i);
    assert StepAt(run, events, i);
  }

  /** Over any run a PV belongs to one group at most and never goes from one straight to another. */
  lemma PvNeverJumps(run: seq<State>, events: seq<Event>, i: nat, disk: string, a: string, b: string)
    requires IsRun(run, events) && Init(run[0]) && i < |events|
    requires InVg(run[i].lvm, disk, a) && (InVg(run[i + 1].lvm, disk, b) || InVg(run[i].lvm, disk, b))
    ensures a == b
  {
    LockedAlways(run, events, i);
    assert StepAt(run, events, i);
    if !InVg(run[i].lvm, disk, b) {
      var w, env := events[i].w, events[i].env;
      NoDirectMove(run[i].workers[w].seen, run[i].lvm, run[i].workers[w].op, env, disk, a, b);
    }
  }

  /** One worker's call, with a pvresize between its reading and its acting. */
  lemma CallWithGrowth(l: Lvm, op: Op, vg: string, disk: string, extra: nat, env: Env)
    returns (run: seq<State>, events: seq<Event>)
    requires Sound(l) && Reserved(l) && WholeOp(op)
    ensures IsRun(run, events) && Init(run[0]) && run != []
    ensures run[|run| - 1].lvm == Apply(l, PvGrow(l, vg, disk, extra), op, env).0
  {
    var grown := PvGrow(l, vg, disk, extra);
    var s0 := State(l, {}, map[]);
    var s1 := State(l, {}, map[1 := Started(op)]);
    var s2 := State(l, {1}, map[1 := Holding(op)]);
    var s3 := State(l, {1}, map[1 := Looked(op, l)]);
    var s4 := State(grown, {1}, map[1 := Looked(op, l)]);
    var s5 := State(Apply(l, grown, op, env).0, {}, map[]);
    run := [s0, s1, s2, s3, s4, s5];
    events := [Start(1, op), TryLock(1), Look(1), PvResize(vg, disk, extra), Act(1, env)];
    assert Step(s0, events[0], s1);
    assert Step(s1, events[1], s2);
    assert Step(s2, events[2], s3);
    assert Step(s3, events[3], s4);
    assert Step(s4, events[4], s5);
  }

  /** A run in which the reserve goes: 12 GiB are asked while 10 are free and 3 more appear. */
  lemma UnlockedGrowthBreaksReserve() returns (run: seq<State>, events: seq<Event>)
    ensures IsRun(run, events) && Init(run[0]) && !Reserved(run[|run| - 1].lvm)
  {
    var l := TenGib();
    TenGibSound();
    var grown := PvGrow(l, "vg", "sdb", 3 * GIB);
    GrowthInsideCreate(l, grown, "pvc", "vg", 12 * GIB);
    run, events := CallWithGrowth(l, Create("pvc", "vg", 12 * GIB), "vg", "sdb", 3 * GIB, AllOk);
  }

  /** One group on one disk, with a volume of 5 GiB and 10 GiB free. */
  function FifteenGib(): Lvm {
    Lvm(map["vg" := Vg(map["sdb" := 15 * GIB], map[VOLUME_PREFIX + "pvc" := 5 * GIB], 10 * GIB)], map[], map[])
  }

  lemma FifteenGibSound()
    ensures Sound(FifteenGib()) && Reserved(FifteenGib())
  {
    Sums.SumSingle("sdb", 15 * GIB);
    Sums.SumSingle(VOLUME_PREFIX + "pvc", 5 * GIB);
    forall d, a, b | InVg(FifteenGib(), d, a) && InVg(FifteenGib(), d, b) ensures a == b {}
  }

  /** The same by a resize: from 5 to 17 GiB while 10 are free and 3 more appear. */
  lemma UnlockedGrowthBreaksResize() returns (run: seq<State>, events: seq<Event>)
    ensures IsRun(run, events) && Init(run[0]) && !Reserved(run[|run| - 1].lvm)
  {
    var l := FifteenGib();
    FifteenGibSound();
    var grown := PvGrow(l, "vg", "sdb", 3 * GIB);
    PvGrowGrows(l, l, "vg", "sdb", 3 * GIB);
    GrowthInsideResize(l, grown, "pvc", "vg", 17 * GIB);
    run, events := CallWithGrowth(l, Resize("pvc", "vg", 17 * GIB), "vg", "sdb", 3 * GIB, AllOk);
  }
}
