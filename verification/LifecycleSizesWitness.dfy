/** Runs in which requested, real and reported sizes get out of order. */
module LifecycleSizesWitness {
  import opened Wrappers
  import opened Lifecycle
  import opened LifecycleRuns
  import opened LifecycleSizes
  import opened LifecycleWitness
  import opened LifecycleCsi

  /** The controller asks for more than the current 5 GiB. */
  lemma ReachExpanded(s0: State, spec: nat, size: nat, more: nat) returns (s: State)
    requires Volume7(s0, spec, size) && 5 < more
    ensures Volume7(s, more, size)
  {
    var e := CsiExpand(7, more, s0.cache, s0.cache);
    ReachStep(s0, e);
    var s1 := Put(s0, 7, Now(s0)[7].(spec := more));
    ReachSync(s1);
    s := Synchronized(s1);
  }

  /** The volume is resized, and a report is due. */
  lemma ReachResized(s0: State, spec: nat, size: nat, lookup: bool) returns (s: State)
    requires Volume7(s0, spec, size) && 5 < spec
    ensures Reachable(s)
    ensures s == s0.(lvs := if lookup then map[7 := spec] else s0.lvs,
                     work := map[7 := Work(s0.cache, Reporting(Status(true, true, Some(spec), OK)))])
  {
    ReachReconcile(s0, 7, Resizing);
    var s1 := s0.(work := s0.work[7 := Work(s0.cache, Resizing)]);
    ReachStep(s1, DoResize(7, true, lookup, OK));
    s := AfterResize(s1, 7, true, lookup, OK);
    assert s.work == map[7 := Work(s0.cache, Reporting(Status(true, true, Some(spec), OK)))];
    assert lookup ==> s.lvs == map[7 := spec];
  }

  /** 9 GiB are granted but the report is lost. */
  lemma ReachUnreported() returns (s: State)
    ensures Volume7(s, 9, 9)
  {
    var s0 := ReachVolume7();
    var s1 := ReachExpanded(s0, 5, 5, 9);
    var s2 := ReachResized(s1, 9, 5, true);
    ReachStep(s2, GiveUp(7));
    s := Done(s2, 7);
    assert s.work == map[];
  }

  /** Then 7 GiB are asked for, which is more than the 5 the controller reads, and Spec.Size is below the volume. */
  lemma SmallerRequestBreaksOrder() returns (s: State)
    ensures Reachable(s) && !Ordered(s, 7)
  {
    var s0 := ReachUnreported();
    s := ReachExpanded(s0, 9, 9, 7);
  }

  /** A lookup that fails is taken for success, and CurrentSize is reported above the size of the volume. */
  lemma FailedLookupBreaksOrder() returns (s: State)
    ensures Reachable(s) && !Ordered(s, 7)
  {
    var s0 := ReachVolume7();
    var s1 := ReachExpanded(s0, 5, 5, 9);
    var s2 := ReachResized(s1, 9, 5, false);
    ReachStep(s2, Report(7));
    s := AfterReport(s2, 7);
    assert Now(s)[7].status.current == Some(9) && s.lvs[7] == 5;
  }

  /** An object repaired with the size of its PersistentVolume is reported below a volume whose last resize was not reported. */
  lemma RepairBreaksOrder() returns (s: State)
    ensures Reachable(s) && !Ordered(s, 7)
  {
    var s0 := ReachUnreported();
    var s1, seen := ReachLeft7(s0, 9, 9);
    var s2 := ReachRepaired7(s1, 9, seen);
    ReachSync(s2);
    var s3 := Synchronized(s2);
    ReachMade(s3, 7, 0);
    ReachReported(Made(s3, 7, 0), 7);
    s := Reported(Made(s3, 7, 0), 7);
    assert s.lvs[7] == 9 && Now(s)[7].spec == 5 && Now(s)[7].status.current == Some(5);
  }

  /** Once 9 GiB are asked for, the creation of 5 GiB that made the object is refused when it is repeated. */
  lemma ExpandedIsRefused() returns (s: State)
    ensures Reachable(s) && Ordered(s, 7) && Live(s.node, Now(s), 7, Lvm) && s.hist != []
    ensures CsiReply(s, 7, 5, |s.hist| - 1) == AlreadyExists
  {
    var s0 := ReachVolume7();
    s := ReachExpanded(s0, 5, 5, 9);
  }

  /** The object is of node 1, a repeated call selects node 2, is accepted and answers with node 2. */
  lemma OtherNodeAnswered() returns (s: State, e: Event)
    ensures Reachable(s) && Enabled(s, e) && Next(s, e) == s && e == CsiCreate(7, 2, Lvm, 5, |s.hist| - 1)
    ensures CsiReply(s, 7, e.size, e.seen) == Compatible && 7 in Now(s) && Now(s)[7].node != AnsweredNode(e)
  {
    s := ReachVolume7();
    e := CsiCreate(7, 2, Lvm, 5, |s.hist| - 1);
  }
}
