/**
 Runs in which no finalizer is stripped: the finalizer keeps every object until its volume is gone,
 so nothing on disk is ever without an object.
 */
module LifecycleOwned {
  import opened Wrappers
  import opened Lifecycle
  import opened LifecycleStory
  import opened LifecycleBase
  import opened LifecycleRuns

  ghost predicate Finalized(c: Cluster) {
    forall n :: n in c ==> c[n].finalizer
  }

  ghost predicate Backed(node: Name, c: Cluster, lvs: map<Name, nat>, parts: map<Name, int>) {
    && (forall n :: n in lvs ==> Live(node, c, n, Lvm))
    && (forall n :: n in parts ==> Live(node, c, n, Raw))
  }

  /** An object is gone only after the node saw it being deleted. */
  ghost predicate GoneSeen(hist: seq<Cluster>, born: map<Name, nat>, cache: nat, c: Cluster) {
    forall n :: n in born && n !in c ==> born[n] <= cache && (Has(hist, cache, n) ==> hist[cache][n].deleting)
  }

  ghost predicate WorkOwned(c: Cluster, lvs: map<Name, nat>, parts: map<Name, int>, n: Name, pc: Pc) {
    && (!Leaves(pc) ==> n in c)
    && (pc.Patching? ==> n !in lvs && n !in parts)
  }

  ghost predicate AllWorkOwned(c: Cluster, lvs: map<Name, nat>, parts: map<Name, int>, work: map<Name, Work>) {
    forall n :: n in work ==> WorkOwned(c, lvs, parts, n, work[n].pc)
  }

  /** What the entry c has to do with the disk and the reconciles under way. */
  ghost predicate OwnedBy(node: Name, c: Cluster, lvs: map<Name, nat>, parts: map<Name, int>, work: map<Name, Work>) {
    Finalized(c) && Backed(node, c, lvs, parts) && AllWorkOwned(c, lvs, parts, work)
  }

  ghost predicate Owned(s: State) {
    OwnedBy(s.node, Now(s), s.lvs, s.parts, s.work) && GoneSeen(s.hist, s.born, s.cache, Now(s))
  }

  /** What a reconcile read is an earlier form of what the API server has now. */
  lemma ReadIsOlder(s: State, name: Name)
    requires Base(s) && name in s.work
    ensures InWork(s, name) && Read(s, name).node == s.node
    ensures Leaves(s.work[name].pc) <==> Read(s, name).deleting
    ensures name in s.born && s.born[name] <= s.cache
    ensures name in Now(s) ==> Older(Read(s, name), Now(s)[name])
    ensures Has(s.hist, s.cache, name) ==> Older(Read(s, name), s.hist[s.cache][name])
  {
    assert WorkInv(s.hist, s.born, s.cache, s.node, name, s.work[name]);
    assert Grows(s.hist, s.born[name], name);
    assert name in Now(s) ==> Has(s.hist, |s.hist| - 1, name);
  }

  /** Appending to the history does not change what the node reads. */
  lemma GoneSeenAppend(s: State, c: Cluster, except: set<Name>)
    requires s.cache < |s.hist| && GoneSeen(s.hist, s.born, s.cache, Now(s)) && Now(s).Keys <= c.Keys + except
    requires forall n :: n in except && n in s.born ==>
                           s.born[n] <= s.cache && (Has(s.hist, s.cache, n) ==> s.hist[s.cache][n].deleting)
    ensures GoneSeen(s.hist + [c], s.born, s.cache, c)
  {
    forall n | n in s.born && n !in c
      ensures s.born[n] <= s.cache && (Has(s.hist + [c], s.cache, n) ==> (s.hist + [c])[s.cache][n].deleting)
    {
      assert Has(s.hist + [c], s.cache, n) ==> Has(s.hist, s.cache, n);
      assert n in except || n !in Now(s);
    }
  }

  lemma OwnedByPut(node: Name, c: Cluster, lvs: map<Name, nat>, parts: map<Name, int>, work: map<Name, Work>, name: Name, o: Obj)
    requires OwnedBy(node, c, lvs, parts, work) && o.finalizer
    requires name in c ==> o.node == c[name].node && o.kind == c[name].kind
    ensures OwnedBy(node, c[name := o], lvs, parts, work)
  {
    forall n | n in work ensures WorkOwned(c[name := o], lvs, parts, n, work[n].pc) {
      assert WorkOwned(c, lvs, parts, n, work[n].pc);
    }
  }

  lemma PutOwned(s: State, name: Name, o: Obj)
    requires Base(s) && Owned(s) && name in Now(s)
    requires o.node == Now(s)[name].node && o.kind == Now(s)[name].kind && o.finalizer == Now(s)[name].finalizer
    ensures Owned(Put(s, name, o))
  {
    var o' := o.(version := |s.hist|);
    var c := Now(s)[name := o'];
    OwnedByPut(s.node, Now(s), s.lvs, s.parts, s.work, name, o');
    GoneSeenAppend(s, c, {});
    assert Now(Put(s, name, o)) == c;
  }

  lemma DoneOwned(s: State, name: Name)
    requires Owned(s)
    ensures Owned(Done(s, name))
  {
    assert Now(Done(s, name)) == Now(s);
  }

  lemma ReportOwned(s: State, name: Name)
    requires Base(s) && Owned(s) && InWork(s, name) && s.work[name].pc.Reporting?
    ensures Owned(AfterReport(s, name))
  {
    DoneOwned(s, name);
    if Newest(s, name, s.work[name].at) {
      var o := Now(s)[name].(status := s.work[name].pc.status);
      PutOwned(s, name, o);
      DoneOwned(Put(s, name, o), name);
    }
  }

  lemma CreateOwned(s: State, name: Name, o: Obj)
    requires Base(s) && Owned(s) && name !in Now(s) && o.finalizer
    ensures Owned(Born(s, name, o))
  {
    var c := Now(s)[name := o];
    OwnedByPut(s.node, Now(s), s.lvs, s.parts, s.work, name, o);
    GoneSeenAppend(s, c, {});
    assert Now(Born(s, name, o)) == c;
  }

  lemma RepairOwned(s: State, name: Name, seen: nat)
    requires Base(s) && Owned(s) && Enabled(s, Repair(name, seen))
    ensures Owned(AfterRepair(s, name, seen))
  {
    var size := s.hist[seen][name].status.current.value;
    var o := Fresh(s, s.hist[seen][name].node, Lvm, size, Status(false, false, None, OK));
    CreateOwned(s, name, o);
    assert Now(AfterRepair(s, name, seen)) == Now(Born(s, name, o));
  }

  lemma OwnedByRemove(node: Name, c: Cluster, lvs: map<Name, nat>, parts: map<Name, int>, work: map<Name, Work>, name: Name)
    requires OwnedBy(node, c, lvs, parts, work) && name !in lvs && name !in parts
    ensures OwnedBy(node, c - {name}, lvs, parts, work - {name})
  {
    forall n | n in work - {name} ensures WorkOwned(c - {name}, lvs, parts, n, work[n].pc) {
      assert WorkOwned(c, lvs, parts, n, work[n].pc);
    }
  }

  /** The finalizer is removed only from an object being deleted whose volume is gone. */
  lemma PatchOwned(s: State, name: Name)
    requires Base(s) && Owned(s) && name in s.work && s.work[name].pc.Patching?
    ensures Owned(AfterPatch(s, name))
    ensures name !in s.lvs && name !in s.parts
  {
    ReadIsOlder(s, name);
    assert WorkOwned(Now(s), s.lvs, s.parts, name, s.work[name].pc);
    DoneOwned(s, name);
    if name in Now(s) {
      var c := Now(s) - {name};
      OwnedByRemove(s.node, Now(s), s.lvs, s.parts, s.work, name);
      GoneSeenAppend(s, c, {name});
      PatchedGone(s, name);
    }
  }

  lemma PatchedGone(s: State, name: Name)
    requires name in Now(s) && Now(s)[name].deleting
    ensures var s' := AfterPatch(s, name);
            && Now(s') == Now(s) - {name} && s'.hist == s.hist + [Now(s) - {name}] && s'.work == s.work - {name}
            && s'.born == s.born && SameNode(s, s')
  {}

  lemma DeleteOwned(s: State, name: Name)
    requires Base(s) && Owned(s) && name in Now(s)
    ensures Owned(AfterCsiDelete(s, name)) && name in Now(AfterCsiDelete(s, name))
  {
    assert Now(s)[name].finalizer;
    PutOwned(s, name, Now(s)[name].(deleting := true));
  }

  lemma ApiStepOwned(s: State, e: Event)
    requires Base(s) && Owned(s) && Enabled(s, e) && ApiEvent(e) && !e.Strip?
    ensures Owned(NextApi(s, e))
  {
    match e
    case CsiCreate(name, node, kind, size, seen) =>
      if name !in s.hist[seen] && name !in Now(s) {
        CreateOwned(s, name, Fresh(s, node, kind, size, Status(false, false, None, OK)));
      }
    case CsiDelete(name) => DeleteOwned(s, name);
    case CsiExpand(name, size, _, _) => if name in Now(s) { PutOwned(s, name, Now(s)[name].(spec := size)); }
    case Report(name) => ReportOwned(s, name);
    case PatchFinalizer(name) => PatchOwned(s, name);
    case Repair(name, seen) => RepairOwned(s, name, seen);
  }

  /** One reconcile moves on and changes at most its own name on disk. */
  lemma ProgressOwned(s: State, s': State, name: Name)
    requires Owned(s) && SameApi(s, s') && SameOtherWork(s, s', name) && SameOtherDisk(s, s', name)
    requires name in s'.work ==> WorkOwned(Now(s), s'.lvs, s'.parts, name, s'.work[name].pc)
    requires name in s'.lvs ==> Live(s.node, Now(s), name, Lvm)
    requires name in s'.parts ==> Live(s.node, Now(s), name, Raw)
    ensures Owned(s')
  {
    assert Now(s') == Now(s);
    forall n | n in s'.work ensures WorkOwned(Now(s), s'.lvs, s'.parts, n, s'.work[n].pc) {
      if n != name { assert WorkOwned(Now(s), s.lvs, s.parts, n, s.work[n].pc); }
    }
  }

  /** A reconcile that read a live object finds it still there. */
  lemma ReconcileOwned(s: State, name: Name)
    requires Base(s) && Owned(s) && name !in s.work
    ensures Owned(AfterReconcile(s, name))
  {
    if name in s.hist[s.cache] && !s.hist[s.cache][name].deleting { assert Has(s.hist, s.cache, name); }
    ProgressOwned(s, AfterReconcile(s, name), name);
  }

  lemma CreatedOwned(s: State, name: Name, ok: bool, code: Code, number: int)
    requires Base(s) && Owned(s) && InWork(s, name) && s.work[name].pc.Creating?
    ensures Owned(AfterCreate(s, name, ok, code, number))
  {
    ReadIsOlder(s, name);
    assert WorkOwned(Now(s), s.lvs, s.parts, name, s.work[name].pc);
    ProgressOwned(s, AfterCreate(s, name, ok, code, number), name);
  }

  lemma ResizedOwned(s: State, name: Name, ok: bool, lookup: bool, code: Code)
    requires Base(s) && Owned(s) && InWork(s, name) && s.work[name].pc.Resizing?
    ensures Owned(AfterResize(s, name, ok, lookup, code))
  {
    assert WorkOwned(Now(s), s.lvs, s.parts, name, s.work[name].pc);
    ProgressOwned(s, AfterResize(s, name, ok, lookup, code), name);
  }

  lemma RemovedOwned(s: State, name: Name, ok: bool)
    requires Base(s) && Owned(s) && InWork(s, name) && s.work[name].pc.Removing?
    ensures Owned(AfterRemove(s, name, ok))
  {
    ReadIsOlder(s, name);
    ProgressOwned(s, AfterRemove(s, name, ok), name);
  }

  lemma SyncOwned(s: State, to: nat)
    requires Base(s) && Owned(s) && s.cache <= to < |s.hist|
    ensures GoneSeen(s.hist, s.born, to, Now(s))
  {
    forall n | n in s.born && n !in Now(s) && Has(s.hist, to, n) ensures s.hist[to][n].deleting {
      assert Grows(s.hist, s.born[n], n) && Has(s.hist, s.cache, n);
    }
  }

  lemma ReconcileStepOwned(s: State, e: Event)
    requires Base(s) && Owned(s) && Enabled(s, e) && ReconcileEvent(e)
    ensures Owned(NextReconcile(s, e))
  {
    match e
    case Reconcile(name) => ReconcileOwned(s, name);
    case DoCreate(name, ok, code, number) => CreatedOwned(s, name, ok, code, number);
    case DoResize(name, ok, lookup, code) => ResizedOwned(s, name, ok, lookup, code);
    case DoRemove(name, ok) => RemovedOwned(s, name, ok);
    case GiveUp(name) => DoneOwned(s, name);
    case Die => assert Now(NextReconcile(s, e)) == Now(s);
  }

  /** A pass only takes things off the disk. */
  lemma PassStepOwned(s: State, e: Event)
    requires Base(s) && Owned(s) && Enabled(s, e) && !ApiEvent(e) && !ReconcileEvent(e)
    ensures Owned(NextPass(s, e))
  {
    PassKeepsStory(s, e);
    assert Now(NextPass(s, e)) == Now(s);
    if e.Sync? { SyncOwned(s, e.to); }
  }

  lemma InitOwned(s: State)
    requires Init(s)
    ensures Owned(s)
  {}

  lemma StepKeepsOwned(s: State, e: Event)
    requires Base(s) && Owned(s) && Enabled(s, e) && Fair(s, e) && !e.Strip?
    ensures Owned(Next(s, e))
  {
    if ApiEvent(e) { ApiStepOwned(s, e); }
    else if ReconcileEvent(e) { ReconcileStepOwned(s, e); }
    else { PassStepOwned(s, e); }
  }

  lemma {:induction false} OwnedAlways(run: seq<State>, events: seq<Event>, k: nat)
    requires FairRun(run, events) && k < |run|
    requires forall i | 0 <= i < |events| :: !events[i].Strip?
    ensures Owned(run[k])
  {
    if k == 0 {
      InitOwned(run[0]);
    } else {
      BaseAlways(run, events, k - 1);
      OwnedAlways(run, events, k - 1);
      assert StepAt(run, events, k - 1) && FairAt(run, events, k - 1);
      StepKeepsOwned(run[k - 1], events[k - 1]);
    }
  }

  /** Without stripping there are no orphans: every volume and partition has its LogicVolume on this node. */
  lemma NoOrphansEver(run: seq<State>, events: seq<Event>, k: nat, name: Name)
    requires FairRun(run, events) && k < |run|
    requires forall i | 0 <= i < |events| :: !events[i].Strip?
    ensures name in run[k].lvs ==> Live(run[k].node, Now(run[k]), name, Lvm)
    ensures name in run[k].parts ==> Live(run[k].node, Now(run[k]), name, Raw)
  {
    OwnedAlways(run, events, k);
  }

  /** In particular an object vanishes only when its volume is already gone, and the volume stays gone. */
  lemma VanishesLast(run: seq<State>, events: seq<Event>, k: nat, name: Name)
    requires FairRun(run, events) && k < |events|
    requires forall i | 0 <= i < |events| :: !events[i].Strip?
    requires name in Now(run[k]) && name !in Now(run[k + 1])
    ensures name !in run[k].lvs && name !in run[k].parts && name !in run[k + 1].lvs && name !in run[k + 1].parts
  {
    BaseAlways(run, events, k);
    OwnedAlways(run, events, k);
    OwnedAlways(run, events, k + 1);
    assert StepAt(run, events, k);
    OnlyPatchRemoves(run[k], events[k], name);
  }

  /** Every write but the last patch keeps every object with a finalizer. */
  lemma ApiKeepsName(s: State, e: Event, name: Name)
    requires Enabled(s, e) && ApiEvent(e) && !e.Strip? && name in Now(s) && Now(s)[name].finalizer
    requires !(e.PatchFinalizer? && e.name == name)
    ensures name in Now(NextApi(s, e))
  {}

  lemma OnlyPatchRemoves(s: State, e: Event, name: Name)
    requires Base(s) && Owned(s) && Enabled(s, e) && !e.Strip? && name in Now(s) && name !in Now(Next(s, e))
    ensures name !in s.lvs && name !in s.parts
  {
    if ReconcileEvent(e) {
      ReconcileKeepsStory(s, e);
    } else if !ApiEvent(e) {
      PassKeepsStory(s, e);
    } else if e.PatchFinalizer? && e.name == name {
      PatchOwned(s, e.name);
    } else {
      ApiKeepsName(s, e, name);
    }
  }
}
