/** Orphan cleanup over whole runs. */
module LifecycleRuns {
  import opened Lifecycle
  import opened LifecycleStory
  import opened LifecycleBase

  ghost predicate StartsFresh(run: seq<State>, events: seq<Event>) {
    IsRun(run, events) && Init(run[0])
  }

  ghost predicate FairRun(run: seq<State>, events: seq<Event>) {
    StartsFresh(run, events) && forall i: nat | i < |events| :: FairAt(run, events, i)
  }

  ghost predicate FairAt(run: seq<State>, events: seq<Event>, i: nat)
    requires i < |events| && |run| == |events| + 1
  {
    Fair(run[i], events[i])
  }

  /** Some run gets there, or some fair run does. */
  ghost predicate Reach(s: State, fair: bool) {
    exists run, events :: StartsFresh(run, events) && (fair ==> FairRun(run, events)) && run[|run| - 1] == s
  }

  ghost predicate Reachable(s: State) {
    Reach(s, true)
  }

  lemma {:induction false} AlwaysAlways(run: seq<State>, events: seq<Event>, k: nat)
    requires StartsFresh(run, events) && k < |run|
    ensures Always(run[k])
  {
    if k > 0 {
      AlwaysAlways(run, events, k - 1);
      assert StepAt(run, events, k - 1);
      StepKeepsAlways(run[k - 1], events[k - 1]);
    }
  }

  lemma ReachAlways(s: State, fair: bool)
    requires Reach(s, fair)
    ensures Always(s)
  {
    var run, events :| StartsFresh(run, events) && (fair ==> FairRun(run, events)) && run[|run| - 1] == s;
    AlwaysAlways(run, events, |run| - 1);
  }

  lemma {:induction false} BaseAlways(run: seq<State>, events: seq<Event>, k: nat)
    requires FairRun(run, events) && k < |run|
    ensures Base(run[k])
  {
    if k == 0 {
      InitBase(run[0]);
    } else {
      BaseAlways(run, events, k - 1);
      assert StepAt(run, events, k - 1) && FairAt(run, events, k - 1);
      StepKeepsBase(run[k - 1], events[k - 1]);
    }
  }

  // One incarnation along a run.

  ghost predicate SameLife(s: State, s': State, name: Name) {
    name in s.born && name in s'.born && s'.born[name] == s.born[name]
  }

  /** A later incarnation has a later birth. */
  lemma StepBorn(s: State, e: Event, name: Name)
    requires Always(s) && Enabled(s, e) && name in s.born
    ensures name in Next(s, e).born && s.born[name] <= Next(s, e).born[name]
  {
    assert Has(s.hist, s.born[name], name) by { assert Grows(s.hist, s.born[name], name); }
    if ApiEvent(e) {
      if Births(s, e) { BirthMoves(s, e); } else { ApiMoves(s, e); }
    } else if ReconcileEvent(e) {
      ReconcileKeepsStory(s, e);
    } else {
      PassKeepsStory(s, e);
    }
  }

  lemma {:induction false} BornAlong(run: seq<State>, events: seq<Event>, k: nat, l: nat, name: Name)
    requires StartsFresh(run, events) && k <= l < |run| && name in run[k].born
    ensures name in run[l].born && run[k].born[name] <= run[l].born[name]
  {
    if k < l {
      BornAlong(run, events, k, l - 1, name);
      AlwaysAlways(run, events, l - 1);
      assert StepAt(run, events, l - 1);
      StepBorn(run[l - 1], events[l - 1], name);
    }
  }

  lemma StepExtends(s: State, e: Event)
    requires Always(s) && Enabled(s, e)
    ensures |s.hist| <= |Next(s, e).hist| && Next(s, e).hist[..|s.hist|] == s.hist
  {
    if ApiEvent(e) {
      if Births(s, e) {
        BirthMoves(s, e);
      } else {
        ApiMoves(s, e);
        if NextApi(s, e).hist != s.hist { var c :| NextApi(s, e).hist == s.hist + [c]; }
      }
    } else if ReconcileEvent(e) {
      ReconcileKeepsStory(s, e);
    } else {
      PassKeepsStory(s, e);
    }
  }

  lemma {:induction false} Extends(run: seq<State>, events: seq<Event>, k: nat, l: nat)
    requires StartsFresh(run, events) && k <= l < |run|
    ensures |run[k].hist| <= |run[l].hist| && run[l].hist[..|run[k].hist|] == run[k].hist
  {
    if k < l {
      Extends(run, events, k, l - 1);
      AlwaysAlways(run, events, l - 1);
      assert StepAt(run, events, l - 1);
      StepExtends(run[l - 1], events[l - 1]);
    }
  }

  // The volume cleanup.

  /** A live volume whose incarnation was there when the cluster was listed was listed. */
  lemma LiveWasListed(s: State, name: Name, at: nat, kind: Kind)
    requires Always(s) && at < |s.hist| && Live(s.node, Now(s), name, kind)
    ensures name in s.born && (s.born[name] <= at ==> Live(s.node, s.hist[at], name, kind))
  {
    assert Has(s.hist, |s.hist| - 1, name);
    assert Grows(s.hist, s.born[name], name);
    assert s.born[name] <= at ==> Has(s.hist, at, name);
  }

  /** No DropVolume that is possible now removes a live volume. */
  ghost predicate Harmless(s: State) {
    s.pass.Orphans? ==> forall n :: n in s.pass.names ==> !Live(s.node, Now(s), n, Lvm)
  }

  /**
   In every run whatsoever, with repairs, stripped finalizers, restarts and names used again: the
   volume cleanup can remove a live volume if and only if some volume on its list is live in an
   incarnation that is younger than the listing.
   */
  lemma VolumeCleanupExact(s: State)
    requires Reach(s, false) && s.pass.Orphans?
    ensures !Harmless(s) <==>
            exists n :: n in s.pass.names && Live(s.node, Now(s), n, Lvm) && n in s.born && s.pass.at < s.born[n]
  {
    ReachAlways(s, false);
    forall n | n in s.pass.names && Live(s.node, Now(s), n, Lvm) ensures n in s.born && s.pass.at < s.born[n] {
      LiveWasListed(s, n, s.pass.at, Lvm);
    }
  }

  /** No name on the list is there in a younger incarnation. */
  ghost predicate Spared(s: State) {
    s.pass.Orphans? ==> forall n :: n in s.pass.names && n in Now(s) ==> n in s.born && s.born[n] <= s.pass.at
  }

  lemma SparedIsHarmless(s: State)
    requires Always(s) && Spared(s)
    ensures Harmless(s)
  {
    if s.pass.Orphans? {
      forall n | n in s.pass.names && Live(s.node, Now(s), n, Lvm) ensures false {
        LiveWasListed(s, n, s.pass.at, Lvm);
      }
    }
  }

  lemma ApiStepSpared(s: State, e: Event)
    requires Always(s) && Spared(s) && Enabled(s, e) && Fair(s, e) && ApiEvent(e)
    ensures Spared(NextApi(s, e))
  {
    var s' := NextApi(s, e);
    ApiKeepsNode(s, e);
    if Births(s, e) {
      BirthMoves(s, e);
    } else {
      ApiMoves(s, e);
      if s'.hist != s.hist { var c :| s'.hist == s.hist + [c] && Successor(s.hist, c); }
    }
  }

  lemma StepKeepsSpared(s: State, e: Event)
    requires Always(s) && Spared(s) && Enabled(s, e) && Fair(s, e) && !e.ListCluster?
    ensures Spared(Next(s, e))
  {
    if ApiEvent(e) { ApiStepSpared(s, e); } else if ReconcileEvent(e) { ReconcileKeepsStory(s, e); }
  }

  /** The node has seen the present incarnation of every volume it has listed. */
  ghost predicate CaughtUp(s: State) {
    s.pass.Local? && forall n :: n in s.pass.names && n in Now(s) ==> n in s.born && s.born[n] <= s.cache
  }

  lemma ListingSpares(s: State)
    requires Enabled(s, ListCluster) && CaughtUp(s)
    ensures Spared(Next(s, ListCluster))
  {}

  lemma {:induction false} SparedAlong(run: seq<State>, events: seq<Event>, l: nat, k: nat)
    requires FairRun(run, events) && l < k < |run| && events[l] == ListCluster && CaughtUp(run[l])
    requires forall j | l < j <= k :: run[j].pass.Orphans?
    ensures Spared(run[k])
  {
    var s, e := run[k - 1], events[k - 1];
    assert StepAt(run, events, k - 1) && FairAt(run, events, k - 1);
    if k == l + 1 {
      ListingSpares(s);
    } else {
      SparedAlong(run, events, l, k - 1);
      AlwaysAlways(run, events, k - 1);
      assert s.pass.Orphans?;
      StepKeepsSpared(s, e);
    }
  }

  /**
   However the pass, its repairs, the reconciler, the controllers, stripped finalizers and restarts
   interleave in a fair run: if the node has caught up when it lists the cluster, that pass
   removes no live volume.
   */
  lemma CleanupSparesLiveVolumes(run: seq<State>, events: seq<Event>, l: nat, k: nat)
    requires FairRun(run, events) && l < k < |run| && events[l] == ListCluster && CaughtUp(run[l])
    requires forall j | l < j <= k :: run[j].pass.Orphans?
    ensures Harmless(run[k])
  {
    SparedAlong(run, events, l, k);
    AlwaysAlways(run, events, k);
    SparedIsHarmless(run[k]);
  }

  /** The node has seen the present incarnation of everything on its disks. */
  ghost predicate AllSeen(s: State) {
    forall n :: n in s.lvs || n in PassNames(s.pass) ==> n in s.born && s.born[n] <= s.cache
  }

  lemma ApiStepSeen(s: State, e: Event)
    requires Base(s) && AllSeen(s) && Enabled(s, e) && Fair(s, e) && ApiEvent(e) && !e.Repair?
    ensures AllSeen(NextApi(s, e))
  {
    ApiKeepsNode(s, e);
    if Births(s, e) { BirthMoves(s, e); } else { ApiMoves(s, e); }
  }

  lemma ReconcileStepSeen(s: State, e: Event)
    requires Base(s) && AllSeen(s) && Enabled(s, e) && ReconcileEvent(e)
    ensures AllSeen(NextReconcile(s, e))
  {
    ReconcileKeepsStory(s, e);
    ReconcileFrame(s, e);
    forall n | n in s.work ensures n in s.born && s.born[n] <= s.cache {
      assert WorkInv(s.hist, s.born, s.cache, s.node, n, s.work[n]);
    }
  }

  lemma StepKeepsSeen(s: State, e: Event)
    requires Base(s) && AllSeen(s) && Enabled(s, e) && Fair(s, e) && !e.Repair?
    ensures AllSeen(Next(s, e))
  {
    if ApiEvent(e) { ApiStepSeen(s, e); }
    else if ReconcileEvent(e) { ReconcileStepSeen(s, e); }
    else { PassKeepsStory(s, e); }
  }

  lemma SeenStep(s: State, e: Event)
    requires Base(s) && AllSeen(s) && Spared(s) && Enabled(s, e) && Fair(s, e) && !e.Repair?
    ensures AllSeen(Next(s, e)) && Spared(Next(s, e))
  {
    StepKeepsSeen(s, e);
    if e == ListCluster { ListingSpares(s); } else { StepKeepsSpared(s, e); }
  }

  lemma {:induction false} SeenAlways(run: seq<State>, events: seq<Event>, k: nat)
    requires FairRun(run, events) && k < |run| && forall i | 0 <= i < |events| :: !events[i].Repair?
    ensures AllSeen(run[k]) && Spared(run[k])
  {
    if k > 0 {
      SeenAlways(run, events, k - 1);
      BaseAlways(run, events, k - 1);
      assert StepAt(run, events, k - 1) && FairAt(run, events, k - 1);
      SeenStep(run[k - 1], events[k - 1]);
    }
  }

  /** Without repairs the node has always caught up, so no pass ever removes a live volume. */
  lemma NoRepairNoHarm(run: seq<State>, events: seq<Event>, k: nat)
    requires FairRun(run, events) && k < |run| && forall i | 0 <= i < |events| :: !events[i].Repair?
    ensures Harmless(run[k])
  {
    SeenAlways(run, events, k);
    AlwaysAlways(run, events, k);
    SparedIsHarmless(run[k]);
  }

  // The partition cleanup.

  /** Dropping the partition found as n deletes the partition of m, which is live. */
  ghost predicate Hits(s: State, n: Name, m: Name) {
    && Enabled(s, DropPartition(n, true))
    && m in s.parts && m !in AfterDropPartition(s, n, true).parts && Live(s.node, Now(s), m, Raw)
  }

  /**
   In every run: the partition cleanup, which lists the cluster, scans the disk and then deletes by
   number, can hit a live partition if and only if a number on its list belongs to an object that
   is younger than the listing, or to another object than at the scan.
   */
  lemma PartitionCleanupExact(s: State)
    requires Reach(s, false) && s.pass.Partitions?
    ensures (exists n, m :: Hits(s, n, m)) <==>
            (exists n, m :: n in s.pass.found && n !in s.pass.known && Renumbered(s, n, m))
  {
    ReachAlways(s, false);
    forall n, m | Hits(s, n, m) ensures Renumbered(s, n, m) { LiveWasListed(s, m, s.pass.at, Raw); }
    forall n, m | n in s.pass.found && n !in s.pass.known && Renumbered(s, n, m) ensures Hits(s, n, m) {}
  }

  /** The number found for n now belongs to the live object m, which is another one or a younger one. */
  ghost predicate Renumbered(s: State, n: Name, m: Name)
    requires s.pass.Partitions? && n in s.pass.found
  {
    && m in s.parts && s.parts[m] == s.pass.found[n] && Live(s.node, Now(s), m, Raw)
    && (m != n || (m in s.born && s.pass.at < s.born[m]))
  }
}
