/** Runs in which a pass hits a live volume or partition, put together from short stretches. */
module LifecycleWitness {
  import opened Wrappers
  import opened Lifecycle
  import opened LifecycleStory
  import opened LifecycleBase
  import opened LifecycleRuns

  lemma ReachInit(s: State)
    requires Init(s)
    ensures Reachable(s)
  {
    assert StartsFresh([s], []) && FairRun([s], []);
  }

  lemma ReachStep(s: State, e: Event)
    requires Reachable(s) && Enabled(s, e) && Fair(s, e)
    ensures Reachable(Next(s, e))
  {
    var run, events :| StartsFresh(run, events) && FairRun(run, events) && run[|run| - 1] == s;
    var run', events' := run + [Next(s, e)], events + [e];
    forall i: nat | i < |events'| ensures StepAt(run', events', i) && FairAt(run', events', i) {
      if i < |events| { assert StepAt(run, events, i) && FairAt(run, events, i); }
    }
    assert FairRun(run', events') && run'[|run'| - 1] == Next(s, e);
  }

  lemma ReachableReach(s: State)
    requires Reachable(s)
    ensures Reach(s, false)
  {
    var run, events :| StartsFresh(run, events) && FairRun(run, events) && run[|run| - 1] == s;
  }

  /** The node reads the newest entry. */
  predicate Synced(s: State) {
    |s.hist| > 0 && s.cache == |s.hist| - 1
  }

  function Synchronized(s: State): State
    requires |s.hist| > 0
  {
    s.(cache := |s.hist| - 1)
  }

  lemma ReachSync(s: State)
    requires Reachable(s) && |s.hist| > 0
    ensures Reachable(Synchronized(s))
  {
    ReachableReach(s);
    ReachAlways(s, false);
    ReachStep(s, Sync(|s.hist| - 1));
  }

  const Blank := Status(false, false, None, OK)

  function Asked(s: State, kind: Kind, size: nat): Obj {
    Fresh(s, s.node, kind, size, Blank)
  }

  /** A new object is created and seen by the node. */
  lemma ReachAsked(s: State, name: Name, kind: Kind, size: nat)
    requires Reachable(s) && Synced(s) && Settled(s, name)
    ensures Reachable(Synchronized(Born(s, name, Asked(s, kind, size))))
  {
    assert !Has(s.hist, s.cache, name);
    ReachStep(s, CsiCreate(name, s.node, kind, size, s.cache));
    ReachSync(Born(s, name, Asked(s, kind, size)));
  }

  /** A reconcile starts. */
  lemma ReachReconcile(s: State, name: Name, pc: Pc)
    requires Reachable(s) && Synced(s) && name !in s.work && name in Now(s) && Now(s)[name].node == s.node
    requires Dispatch(Now(s)[name]) == Some(pc)
    ensures Reachable(s.(work := s.work[name := Work(s.cache, pc)]))
  {
    ReachStep(s, Reconcile(name));
  }

  function Granted(o: Obj): Status {
    Status(true, true, Some(o.spec), OK)
  }

  /** The volume or partition is made, unless it is there, and its report is due. */
  function Made(s: State, name: Name, number: int): State
    requires Synced(s) && name in Now(s)
  {
    var o := Now(s)[name];
    s.(lvs := if o.kind == Lvm && name !in s.lvs then s.lvs[name := o.spec] else s.lvs,
       parts := if o.kind == Raw && name !in s.parts then s.parts[name := number] else s.parts,
       work := s.work[name := Work(s.cache, Reporting(Granted(o)))])
  }

  lemma ReachMade(s: State, name: Name, number: int)
    requires Reachable(s) && Synced(s) && name !in s.work && name in Now(s) && Now(s)[name].node == s.node
    requires Dispatch(Now(s)[name]) == Some(Creating)
    requires forall m | m in s.parts :: s.parts[m] != number
    ensures Reachable(Made(s, name, number))
  {
    ReachReconcile(s, name, Creating);
    var s1 := s.(work := s.work[name := Work(s.cache, Creating)]);
    MakingIt(s, s1, name, number);
    ReachStep(s1, DoCreate(name, true, OK, number));
  }

  lemma MakingIt(s: State, s1: State, name: Name, number: int)
    requires Synced(s) && name in Now(s) && s1 == s.(work := s.work[name := Work(s.cache, Creating)])
    requires forall m | m in s.parts :: s.parts[m] != number
    ensures Enabled(s1, DoCreate(name, true, OK, number)) && Next(s1, DoCreate(name, true, OK, number)) == Made(s, name, number)
  {
    assert AfterCreate(s1, name, true, OK, number).work == Made(s, name, number).work;
  }

  /** The pass is over the volumes and lists the cluster for the partitions. */
  lemma ReachPartitions(s: State)
    requires Reachable(s) && s.pass.Idle? && Always(s)
    ensures Reachable(s.(pass := Partitions(Listed(s.node, s.hist[s.cache], Raw), s.cache, map[])))
  {
    ReachStep(s, ListLocal);
    var s1 := s.(pass := Local(s.lvs.Keys));
    ReachStep(s1, ListCluster);
    var s2 := s.(pass := Orphans(s.lvs.Keys - Listed(s.node, s.hist[s.cache], Lvm), s.cache));
    ReachStep(s2, ListForPartitions);
  }

  function Deleting(s: State, name: Name): State
    requires |s.hist| > 0 && name in Now(s)
  {
    Synchronized(Put(s, name, Now(s)[name].(deleting := true)))
  }

  lemma ReachDeleting(s: State, name: Name)
    requires Reachable(s) && Synced(s) && name in Now(s) && !Now(s)[name].deleting && Now(s)[name].finalizer
    ensures Reachable(Deleting(s, name))
  {
    ReachStep(s, CsiDelete(name));
    ReachSync(Put(s, name, Now(s)[name].(deleting := true)));
  }

  /** The volume or partition is off the disk and the finalizer is due. */
  function Cleared(s: State, name: Name): State
    requires Synced(s) && name in Now(s)
  {
    s.(lvs := if Now(s)[name].kind == Lvm then s.lvs - {name} else s.lvs,
       parts := if Now(s)[name].kind == Raw then s.parts - {name} else s.parts,
       work := s.work[name := Work(s.cache, Patching)])
  }

  lemma ReachCleared(s: State, name: Name)
    requires Reachable(s) && Synced(s) && name !in s.work && name in Now(s) && Now(s)[name].node == s.node
    requires Now(s)[name].deleting && Now(s)[name].finalizer
    ensures Reachable(Cleared(s, name))
  {
    ReachReconcile(s, name, Removing);
    var s1 := s.(work := s.work[name := Work(s.cache, Removing)]);
    ClearingIt(s, s1, name);
    ReachStep(s1, DoRemove(name, true));
  }

  lemma ClearingIt(s: State, s1: State, name: Name)
    requires Synced(s) && name in Now(s) && s1 == s.(work := s.work[name := Work(s.cache, Removing)])
    ensures Enabled(s1, DoRemove(name, true)) && Next(s1, DoRemove(name, true)) == Cleared(s, name)
  {
    assert AfterRemove(s1, name, true).work == Cleared(s, name).work;
  }

  function Gone(s: State, name: Name): State
    requires |s.hist| > 0
  {
    Synchronized(Done(Write(s, Now(s) - {name}), name))
  }

  lemma ReachGone(s: State, name: Name)
    requires Reachable(s) && Synced(s) && name in s.work && s.work[name] == Work(s.cache, Patching)
    requires name in Now(s) && Now(s)[name].deleting
    ensures Reachable(Gone(s, name))
  {
    ReachStep(s, PatchFinalizer(name));
    ReachSync(Done(Write(s, Now(s) - {name}), name));
  }

  /** An empty node 1, from which all the runs start. */
  function Empty(): State {
    State(1, [map[]], map[], 0, map[], map[], map[], Idle)
  }

  // A partition made between the listing and the scan.

  function Listing1(): State {
    Empty().(pass := Partitions({}, 0, map[]))
  }

  function Asked1(): State {
    Synchronized(Born(Listing1(), 7, Asked(Listing1(), Raw, 5)))
  }

  lemma ReachAsked1()
    ensures Reachable(Asked1())
  {
    ReachInit(Empty());
    assert Listed(1, map[], Raw) == {};
    ReachPartitions(Empty());
    ReachAsked(Listing1(), 7, Raw, 5);
  }

  /** The object is live, never deleted, and its partition is on the list to be deleted. */
  lemma PartitionCleanupHitsLive() returns (s: State)
    ensures Reachable(s) && Hits(s, 7, 7) && !Now(s)[7].deleting
  {
    ReachAsked1();
    ReachMade(Asked1(), 7, 1);
    var s1 := Made(Asked1(), 7, 1);
    ReachStep(s1, ScanDisk);
    s := Next(s1, ScanDisk);
    assert s.pass.found == s.parts == map[7 := 1];
  }

  // A number used again between the scan and the deletion.

  /** The pass knows object 8, which has no partition yet; nothing is being done. */
  ghost predicate Waiting(s: State) {
    && Reachable(s) && Synced(s) && s.node == 1 && s.work == map[] && s.lvs == map[]
    && s.pass.Partitions? && 8 in s.pass.known && 7 !in s.pass.known && 8 !in s.parts
    && Live(1, Now(s), 8, Raw) && Dispatch(Now(s)[8]) == Some(Creating)
  }

  lemma ReachWaiting() returns (s: State)
    ensures Waiting(s) && s.parts == map[] && Settled(s, 7)
  {
    ReachInit(Empty());
    ReachAsked(Empty(), 8, Raw, 5);
    var s1 := Synchronized(Born(Empty(), 8, Asked(Empty(), Raw, 5)));
    ReachableReach(s1);
    ReachAlways(s1, false);
    ReachPartitions(s1);
    s := s1.(pass := Partitions(Listed(s1.node, s1.hist[s1.cache], Raw), s1.cache, map[]));
  }

  lemma ReachAsked2(s0: State) returns (s: State)
    requires Waiting(s0) && Settled(s0, 7)
    ensures Waiting(s) && s == s0.(hist := s.hist, born := s.born, cache := s.cache)
    ensures Live(1, Now(s), 7, Raw) && Now(s)[7].finalizer && !Now(s)[7].deleting && Dispatch(Now(s)[7]) == Some(Creating)
  {
    ReachAsked(s0, 7, Raw, 5);
    s := Synchronized(Born(s0, 7, Asked(s0, Raw, 5)));
  }

  /** Object 7 gets number 1, the disk is scanned, and the report is lost. */
  lemma ReachScanned2(s0: State) returns (s: State)
    requires Waiting(s0) && s0.parts == map[] && Live(1, Now(s0), 7, Raw) && Dispatch(Now(s0)[7]) == Some(Creating)
    ensures Waiting(s) && s == s0.(parts := s.parts, pass := s.pass)
    ensures s.parts == map[7 := 1] && s.pass.found == map[7 := 1] && s.pass.known == s0.pass.known
  {
    ReachMade(s0, 7, 1);
    var s1 := Made(s0, 7, 1);
    assert s1.parts == map[7 := 1];
    ReachStep(s1, ScanDisk);
    var s2 := s1.(pass := s1.pass.(found := s1.parts));
    ReachStep(s2, GiveUp(7));
    s := Done(s2, 7);
    assert s.work == map[];
  }

  /** Object 7 goes, and its number is free again. */
  lemma ReachFreed2(s0: State) returns (s: State)
    requires Waiting(s0) && s0.parts == map[7 := 1] && Live(1, Now(s0), 7, Raw) && Now(s0)[7].finalizer && !Now(s0)[7].deleting
    ensures Waiting(s) && s.parts == map[] && s.pass == s0.pass
  {
    ReachDeleting(s0, 7);
    var s1 := Deleting(s0, 7);
    ReachCleared(s1, 7);
    var s2 := Cleared(s1, 7);
    ReachGone(s2, 7);
    s := Gone(s2, 7);
    assert s.work == map[] && s.parts == map[];
  }

  /** Object 8, which the pass knows, is live and has the number that the pass is going to delete. */
  lemma RenumberedPartitionIsHit() returns (s: State)
    ensures Reachable(s) && Hits(s, 7, 8) && 8 in s.pass.known && !Now(s)[8].deleting
  {
    var s0 := ReachWaiting();
    var s1 := ReachAsked2(s0);
    var s2 := ReachScanned2(s1);
    var s3 := ReachFreed2(s2);
    ReachMade(s3, 8, 1);
    s := Made(s3, 8, 1);
    assert s.parts == map[8 := 1];
  }

  // A repaired object that the next pass has not seen.

  function Reported(s: State, name: Name): State
    requires |s.hist| > 0 && name in Now(s)
  {
    Synchronized(Done(Put(s, name, Now(s)[name].(status := Granted(Now(s)[name]))), name))
  }

  lemma ReachReported(s: State, name: Name)
    requires Reachable(s) && Synced(s) && name in Now(s)
    requires name in s.work && s.work[name] == Work(s.cache, Reporting(Granted(Now(s)[name])))
    ensures Reachable(Reported(s, name))
  {
    ReachStep(s, Report(name));
    ReachSync(Done(Put(s, name, Now(s)[name].(status := Granted(Now(s)[name]))), name));
  }

  /** Object 7 asks for `spec` GiB and is reported with 5, its volume has `size`, and all is quiet. */
  ghost predicate Volume7(s: State, spec: nat, size: nat) {
    && Reachable(s) && Synced(s) && s.node == 1 && s.lvs == map[7 := size] && s.parts == map[] && s.work == map[] && s.pass.Idle?
    && Live(1, Now(s), 7, Lvm) && Now(s)[7].finalizer && !Now(s)[7].deleting && Now(s)[7].spec == spec
    && Now(s)[7].status == Status(true, true, Some(5), OK)
  }

  lemma ReachVolume7() returns (s: State)
    ensures Volume7(s, 5, 5)
  {
    ReachInit(Empty());
    ReachAsked(Empty(), 7, Lvm, 5);
    var s1 := Synchronized(Born(Empty(), 7, Asked(Empty(), Lvm, 5)));
    ReachMade(s1, 7, 1);
    var s2 := Made(s1, 7, 1);
    ReachReported(s2, 7);
    s := Reported(s2, 7);
    assert s.work == map[] && s.lvs == map[7 := 5];
  }

  /** The volume is left without an object: its finalizer is stripped and the object deleted. */
  ghost predicate Left7(s: State, size: nat, seen: nat) {
    && Reachable(s) && Synced(s) && s.node == 1 && s.lvs == map[7 := size] && s.parts == map[] && s.work == map[]
    && s.pass.Idle? && 7 !in Now(s) && seen < |s.hist| && 7 in s.hist[seen]
    && s.hist[seen][7].status.current == Some(5) && s.hist[seen][7].node == 1
  }

  lemma ReachLeft7(s0: State, spec: nat, size: nat) returns (s: State, seen: nat)
    requires Volume7(s0, spec, size)
    ensures Left7(s, size, seen)
  {
    seen := s0.cache;
    ReachStep(s0, Strip(7, seen));
    var s1 := Write(s0, Unfinalized(s0, 7));
    assert !Now(s1)[7].finalizer;
    ReachStep(s1, CsiDelete(7));
    var s2 := Write(s1, Now(s1) - {7});
    ReachSync(s2);
    s := Synchronized(s2);
    assert s.hist[seen] == s0.hist[seen];
  }

  lemma ReachOrphans(s: State)
    requires Reachable(s) && s.pass.Idle? && Always(s)
    ensures Reachable(s.(pass := Orphans(s.lvs.Keys - Listed(s.node, s.hist[s.cache], Lvm), s.cache)))
  {
    ReachStep(s, ListLocal);
    ReachStep(s.(pass := Local(s.lvs.Keys)), ListCluster);
  }

  /** The pass lists volume 7 as an orphan. */
  function Orphan7(s: State): State
    requires s.cache < |s.hist|
  {
    s.(pass := Orphans(s.lvs.Keys - Listed(s.node, s.hist[s.cache], Lvm), s.cache))
  }

  lemma ReachOrphan7(s: State, size: nat, seen: nat)
    requires Left7(s, size, seen)
    ensures Reachable(Orphan7(s)) && Enabled(Orphan7(s), Repair(7, seen)) && Forgotten(Orphan7(s), 7)
  {
    ReachableReach(s);
    ReachAlways(s, false);
    ReachOrphans(s);
  }

  lemma ReachRepaired7(s0: State, size: nat, seen: nat) returns (s: State)
    requires Left7(s0, size, seen)
    ensures s == AfterRepair(Orphan7(s0), 7, seen) && Reachable(s) && Always(s)
    ensures Live(1, Now(s), 7, Lvm) && !Now(s)[7].deleting
    ensures 7 !in s.hist[s.cache] && 7 in s.born && s.cache < s.born[7]
  {
    ReachOrphan7(s0, size, seen);
    s := AfterRepair(Orphan7(s0), 7, seen);
    ReachStep(Orphan7(s0), Repair(7, seen));
    ReachableReach(s);
    ReachAlways(s, false);
  }

  /** The PersistentVolume goes in the meantime, and the next pass is about to remove the volume of the live object. */
  lemma RepairThenCleanupHitsLive() returns (s: State)
    ensures Reachable(s) && s.pass.Orphans? && 7 in s.pass.names && Live(s.node, Now(s), 7, Lvm) && !Now(s)[7].deleting
    ensures !Harmless(s)
  {
    var s0 := ReachVolume7();
    var s1, seen := ReachLeft7(s0, 5, 5);
    var s2 := ReachRepaired7(s1, 5, seen);
    ReachStep(s2, ListForPartitions);
    var s3 := s2.(pass := Partitions(Listed(s2.node, s2.hist[s2.cache], Raw), s2.cache, map[]));
    ReachStep(s3, EndPass);
    var s4 := s2.(pass := Idle);
    ReachOrphans(s4);
    s := s4.(pass := Orphans(s4.lvs.Keys - Listed(s4.node, s4.hist[s4.cache], Lvm), s4.cache));
  }
}
