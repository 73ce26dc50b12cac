/**
 Sizes over whole runs: what the status says is there, is there, and no more than was asked for,
 although every reconcile may work from a stale object.
 */
module LifecycleSizes {
  import opened Wrappers
  import opened Lifecycle
  import opened LifecycleStory
  import opened LifecycleBase
  import opened LifecycleRuns
  import opened LifecycleOwned

  /** VolumeID and CurrentSize are set together, and CurrentSize is within Spec.Size. */
  predicate ObjOk(o: Obj) {
    && (o.status.volumeId <==> o.status.current.Some?)
    && (o.status.current.Some? ==> o.status.current.value <= o.spec)
  }

  predicate StatusLe(a: Status, b: Status) {
    && (a.volumeId ==> b.volumeId)
    && (a.current.Some? ==> b.current.Some? && a.current.value <= b.current.value)
  }

  /** Sizes only grow, and the requested size is fixed until there is a volume. */
  predicate SizeLe(a: Obj, b: Obj) {
    a.spec <= b.spec && StatusLe(a.status, b.status) && (!b.status.volumeId ==> a.spec == b.spec)
  }

  ghost predicate Swells(hist: seq<Cluster>, from: nat, name: Name) {
    forall i, j | from <= i <= j && Has(hist, i, name) && Has(hist, j, name) :: SizeLe(hist[i][name], hist[j][name])
  }

  ghost predicate HistSizes(hist: seq<Cluster>, born: map<Name, nat>) {
    && (forall n :: n in born ==> Swells(hist, born[n], n))
    && (forall i, n: Name | Has(hist, i, n) :: ObjOk(hist[i][n]))
    && (forall i, n: Name | Has(hist, i, n) && n in born && born[n] <= i :: born[n] <= hist[i][n].version)
  }

  /** A volume is at least what was first asked for and at most what the node now reads as asked for. */
  ghost predicate LvSizes(hist: seq<Cluster>, born: map<Name, nat>, cache: nat, lvs: map<Name, nat>) {
    forall n :: n in lvs ==>
      && n in born && Has(hist, born[n], n) && hist[born[n]][n].spec <= lvs[n]
      && (Has(hist, cache, n) ==> lvs[n] <= hist[cache][n].spec)
      && (cache < born[n] ==> lvs[n] <= hist[born[n]][n].spec)
  }

  /** The volume of a live object holds at least `size`. */
  predicate Holds(node: Name, c: Cluster, lvs: map<Name, nat>, n: Name, size: nat) {
    Live(node, c, n, Lvm) && !c[n].deleting ==> n in lvs && size <= lvs[n]
  }

  ghost predicate StatusTrue(node: Name, c: Cluster, lvs: map<Name, nat>) {
    forall n :: n in c && c[n].status.current.Some? ==> Holds(node, c, lvs, n, c[n].status.current.value)
  }

  ghost predicate WorkSizes(node: Name, c: Cluster, lvs: map<Name, nat>, n: Name, o: Obj, pc: Pc) {
    && (n in lvs ==> lvs[n] <= o.spec)
    && (pc.Creating? ==> !o.status.volumeId)
    && (pc.Resizing? ==> o.status.volumeId && o.kind == Lvm)
    && (pc.Reporting? ==>
          && ObjOk(o.(status := pc.status)) && StatusLe(o.status, pc.status)
          && (pc.status.current.Some? ==> Holds(node, c, lvs, n, pc.status.current.value)))
  }

  ghost predicate AllWorkSizes(hist: seq<Cluster>, node: Name, c: Cluster, lvs: map<Name, nat>, work: map<Name, Work>) {
    forall n :: n in work && Has(hist, work[n].at, n) ==> WorkSizes(node, c, lvs, n, hist[work[n].at][n], work[n].pc)
  }

  /** What the disk and the reports under way have to do with the entry c. */
  ghost predicate DiskSizes(hist: seq<Cluster>, born: map<Name, nat>, cache: nat, node: Name, c: Cluster,
                            lvs: map<Name, nat>, work: map<Name, Work>) {
    LvSizes(hist, born, cache, lvs) && StatusTrue(node, c, lvs) && AllWorkSizes(hist, node, c, lvs, work)
  }

  ghost predicate Sizes(s: State) {
    HistSizes(s.hist, s.born) && DiskSizes(s.hist, s.born, s.cache, s.node, Now(s), s.lvs, s.work)
  }

  /**
   Requests grow, the volume to resize is found, no pass removes a live volume, and a repaired object
   has the size of its volume.
   */
  predicate Orderly(s: State, e: Event) {
    && (e.CsiExpand? && e.name in Now(s) ==> Now(s)[e.name].spec <= e.size)
    && (e.DoResize? ==> e.lookup)
    && (e.DropVolume? ==> !Live(s.node, Now(s), e.name, Lvm))
    && (e.Repair? && Enabled(s, e) ==> Fits(s, e.name, s.hist[e.seen][e.name]))
  }

  /** The volume of this name is absent or has the reported size. */
  predicate Fits(s: State, name: Name, o: Obj)
    requires o.status.current.Some?
  {
    name in s.lvs ==> s.lvs[name] == o.status.current.value
  }

  lemma InitSizes(s: State)
    requires Init(s)
    ensures Sizes(s)
  {}

  lemma SizeLeTransitive(a: Obj, b: Obj, c: Obj)
    requires SizeLe(a, b) && SizeLe(b, c)
    ensures SizeLe(a, c)
  {}

  lemma SwellsAppend(hist: seq<Cluster>, from: nat, name: Name, c: Cluster)
    requires Grows(hist, from, name) && Swells(hist, from, name)
    requires name in c ==> name in hist[|hist| - 1] && SizeLe(hist[|hist| - 1][name], c[name])
    ensures Swells(hist + [c], from, name)
  {
    var h, last := hist + [c], |hist| - 1;
    assert Has(hist, from, name);
    forall i, j | from <= i <= j && Has(h, i, name) && Has(h, j, name) ensures SizeLe(h[i][name], h[j][name]) {
      if j < |hist| {
        assert Has(hist, j, name) && Has(hist, i, name);
      } else if i < j {
        assert Has(hist, last, name) && Has(hist, i, name);
        SizeLeTransitive(hist[i][name], hist[last][name], c[name]);
      }
    }
  }

  /** One object is replaced by a successor, or none. */
  lemma AppendSizes(hist: seq<Cluster>, born: map<Name, nat>, c: Cluster)
    requires Story(hist, born) && HistSizes(hist, born)
    requires forall n :: n in c ==> n in hist[|hist| - 1] && SizeLe(hist[|hist| - 1][n], c[n]) && ObjOk(c[n])
                                    && (c[n] == hist[|hist| - 1][n] || c[n].version == |hist|)
    ensures HistSizes(hist + [c], born)
  {
    var h, last := hist + [c], |hist| - 1;
    forall n | n in born ensures Swells(h, born[n], n) { SwellsAppend(hist, born[n], n, c); }
    forall i, n: Name | Has(h, i, n)
      ensures ObjOk(h[i][n]) && (n in born && born[n] <= i ==> born[n] <= h[i][n].version)
    {
      assert Has(hist, if i == |hist| then last else i, n);
    }
  }

  lemma CreateSwells(hist: seq<Cluster>, born: map<Name, nat>, name: Name, c: Cluster)
    requires Story(hist, born) && HistSizes(hist, born) && name !in hist[|hist| - 1]
    requires forall n :: n != name && n in c ==> n in hist[|hist| - 1] && c[n] == hist[|hist| - 1][n]
    ensures var born' := born[name := |hist|]; forall n :: n in born' ==> Swells(hist + [c], born'[n], n)
  {
    var born' := born[name := |hist|];
    forall n | n in born' ensures Swells(hist + [c], born'[n], n) {
      if n != name { SwellsAppend(hist, born[n], n, c); }
    }
  }

  lemma CreateSizesHist(hist: seq<Cluster>, born: map<Name, nat>, name: Name, o: Obj)
    requires Story(hist, born) && HistSizes(hist, born) && o.version == |hist| && ObjOk(o) && name !in hist[|hist| - 1]
    ensures HistSizes(hist + [hist[|hist| - 1][name := o]], born[name := |hist|])
  {
    var last := |hist| - 1;
    var c := hist[last][name := o];
    var h, born' := hist + [c], born[name := |hist|];
    CreateSwells(hist, born, name, c);
    forall i, n: Name | Has(h, i, n)
      ensures ObjOk(h[i][n]) && (n in born' && born'[n] <= i ==> born'[n] <= h[i][n].version)
    {
      if i < |hist| { assert Has(hist, i, n); } else if n != name { assert Has(hist, last, n); }
    }
  }

  lemma LvSizesAppend(hist: seq<Cluster>, born: map<Name, nat>, born': map<Name, nat>, cache: nat,
                      lvs: map<Name, nat>, c: Cluster)
    requires cache < |hist| && LvSizes(hist, born, cache, lvs)
    requires forall n :: n in lvs ==> n in born && n in born' && born'[n] == born[n]
    ensures LvSizes(hist + [c], born', cache, lvs)
  {
    forall n | n in lvs
      ensures Has(hist + [c], born[n], n) && (hist + [c])[born[n]][n].spec <= lvs[n]
              && (Has(hist + [c], cache, n) ==> lvs[n] <= (hist + [c])[cache][n].spec)
    {
      assert Has(hist, born[n], n) && (Has(hist + [c], cache, n) ==> Has(hist, cache, n));
    }
  }

  ghost predicate Follows(c: Cluster, c': Cluster) {
    forall n :: n in c' ==>
      n in c && c'[n].node == c[n].node && c'[n].kind == c[n].kind && (c[n].deleting ==> c'[n].deleting)
  }

  lemma WorkSizesAppend(s: State, c: Cluster)
    requires Base(s) && AllWorkSizes(s.hist, s.node, Now(s), s.lvs, s.work)
    requires forall n :: n in s.work && n in c ==>
               n in Now(s) && c[n].node == Now(s)[n].node && c[n].kind == Now(s)[n].kind && (Now(s)[n].deleting ==> c[n].deleting)
    ensures AllWorkSizes(s.hist + [c], s.node, c, s.lvs, s.work)
  {
    forall n | n in s.work ensures WorkSizes(s.node, c, s.lvs, n, (s.hist + [c])[s.work[n].at][n], s.work[n].pc) {
      assert WorkInv(s.hist, s.born, s.cache, s.node, n, s.work[n]) && Has(s.hist, s.work[n].at, n);
      assert WorkSizes(s.node, Now(s), s.lvs, n, s.hist[s.work[n].at][n], s.work[n].pc);
    }
  }

  /** Writing successors; the statuses that are new must be true. */
  lemma WriteSizes(s: State, c: Cluster)
    requires Base(s) && Sizes(s) && Follows(Now(s), c)
    requires forall n :: n in c ==> SizeLe(Now(s)[n], c[n]) && ObjOk(c[n]) && (c[n] == Now(s)[n] || c[n].version == |s.hist|)
    requires forall n :: n in c && c[n].status.current.Some? ==> Holds(s.node, Now(s), s.lvs, n, c[n].status.current.value)
    ensures Sizes(Write(s, c))
  {
    AppendSizes(s.hist, s.born, c);
    LvSizesAppend(s.hist, s.born, s.born, s.cache, s.lvs, c);
    WorkSizesAppend(s, c);
    assert Now(Write(s, c)) == c;
  }

  lemma PutSizes(s: State, name: Name, o: Obj)
    requires Base(s) && Sizes(s) && name in Now(s)
    requires o.node == Now(s)[name].node && o.kind == Now(s)[name].kind && (Now(s)[name].deleting ==> o.deleting)
    requires SizeLe(Now(s)[name], o) && ObjOk(o)
    requires o.status.current.Some? ==> Holds(s.node, Now(s), s.lvs, name, o.status.current.value)
    ensures Sizes(Put(s, name, o))
  {
    forall n | n in Now(s) ensures ObjOk(Now(s)[n]) { assert Has(s.hist, |s.hist| - 1, n); }
    WriteSizes(s, Now(s)[name := o.(version := |s.hist|)]);
  }

  lemma RemoveSizes(s: State, name: Name)
    requires Base(s) && Sizes(s)
    ensures Sizes(Write(s, Now(s) - {name}))
  {
    forall n | n in Now(s) ensures ObjOk(Now(s)[n]) { assert Has(s.hist, |s.hist| - 1, n); }
    WriteSizes(s, Now(s) - {name});
  }

  lemma DoneSizes(s: State, name: Name)
    requires Sizes(s)
    ensures Sizes(Done(s, name))
  {
    assert Now(Done(s, name)) == Now(s);
  }

  lemma CreateLvSizes(s: State, name: Name, o: Obj)
    requires Base(s) && LvSizes(s.hist, s.born, s.cache, s.lvs) && Forgotten(s, name)
    requires name in s.lvs ==> s.lvs[name] == o.spec
    ensures LvSizes(s.hist + [Now(s)[name := o]], s.born[name := |s.hist|], s.cache, s.lvs)
  {
    var h := s.hist + [Now(s)[name := o]];
    LvSizesAppend(s.hist, s.born, s.born, s.cache, s.lvs, Now(s)[name := o]);
    assert Has(h, |s.hist|, name) && !Has(s.hist, s.cache, name) && !Has(h, s.cache, name);
  }

  lemma CreateStatusTrue(node: Name, c: Cluster, lvs: map<Name, nat>, name: Name, o: Obj)
    requires StatusTrue(node, c, lvs)
    requires o.status.current.Some? && o.node == node ==> name in lvs && o.status.current.value <= lvs[name]
    ensures StatusTrue(node, c[name := o], lvs)
  {
    var d := c[name := o];
    forall n | n in d && d[n].status.current.Some? ensures Holds(node, d, lvs, n, d[n].status.current.value) {
      if n != name { assert Holds(node, c, lvs, n, c[n].status.current.value); }
    }
  }

  lemma CreateDiskSizes(s: State, name: Name, o: Obj)
    requires Base(s) && Sizes(s) && Forgotten(s, name)
    requires name in s.lvs ==> s.lvs[name] == o.spec
    requires o.status.current.Some? && o.node == s.node ==> name in s.lvs && o.status.current.value <= s.lvs[name]
    ensures var c := Now(s)[name := o];
            DiskSizes(s.hist + [c], s.born[name := |s.hist|], s.cache, s.node, c, s.lvs, s.work)
  {
    CreateLvSizes(s, name, o);
    CreateStatusTrue(s.node, Now(s), s.lvs, name, o);
    WorkSizesAppend(s, Now(s)[name := o]);
  }

  lemma CreateHist(s: State, name: Name, o: Obj)
    requires Story(s.hist, s.born) && HistSizes(s.hist, s.born) && o.version == |s.hist| && ObjOk(o) && name !in Now(s)
    ensures HistSizes(s.hist + [Now(s)[name := o]], s.born[name := |s.hist|])
  {
    CreateSizesHist(s.hist, s.born, name, o);
  }

  lemma BothSizes(s: State, name: Name, o: Obj)
    requires |s.hist| > 0
    requires var c := Now(s)[name := o];
             && HistSizes(s.hist + [c], s.born[name := |s.hist|])
             && DiskSizes(s.hist + [c], s.born[name := |s.hist|], s.cache, s.node, c, s.lvs, s.work)
    ensures Sizes(Born(s, name, o))
  {}

  lemma CreateSizes(s: State, name: Name, o: Obj)
    requires Base(s) && Sizes(s) && o.version == |s.hist| && ObjOk(o) && Forgotten(s, name) && name !in Now(s)
    requires name in s.lvs ==> s.lvs[name] == o.spec
    requires o.status.current.Some? && o.node == s.node ==> name in s.lvs && o.status.current.value <= s.lvs[name]
    ensures Sizes(Born(s, name, o))
  {
    CreateDiskSizes(s, name, o);
    CreateHist(s, name, o);
    BothSizes(s, name, o);
  }

  /** A status write that is not refused was computed from the newest object. */
  lemma NewestIsRead(s: State, name: Name, at: nat)
    requires Base(s) && HistSizes(s.hist, s.born) && at < |s.hist| && Newest(s, name, at)
    ensures Now(s)[name] == s.hist[at][name]
  {
    var last := |s.hist| - 1;
    assert Has(s.hist, last, name) && Has(s.hist, at, name) && Grows(s.hist, s.born[name], name);
    assert s.born[name] <= s.hist[last][name].version <= at;
  }

  lemma ReportSizes(s: State, name: Name)
    requires Base(s) && Sizes(s) && InWork(s, name) && s.work[name].pc.Reporting?
    ensures Sizes(AfterReport(s, name))
  {
    var st := s.work[name].pc.status;
    assert Has(s.hist, s.work[name].at, name) && WorkSizes(s.node, Now(s), s.lvs, name, Read(s, name), s.work[name].pc);
    if Newest(s, name, s.work[name].at) {
      NewestIsRead(s, name, s.work[name].at);
      PutSizes(s, name, Now(s)[name].(status := st));
      DoneSizes(Put(s, name, Now(s)[name].(status := st)), name);
    } else {
      DoneSizes(s, name);
    }
  }

  lemma ExpandSizes(s: State, name: Name, size: nat, seen: nat)
    requires Base(s) && Sizes(s) && seen < |s.hist| && name in s.hist[seen] && s.hist[seen][name].status.volumeId
    requires name in Now(s) ==> Now(s)[name].spec <= size
    ensures Sizes(AfterCsiExpand(s, name, size, seen))
  {
    if Newest(s, name, seen) {
      NewestIsRead(s, name, seen);
      assert Has(s.hist, |s.hist| - 1, name);
      PutSizes(s, name, Now(s)[name].(spec := size));
    }
  }

  lemma UnfinalizedSizes(s: State, name: Name)
    requires Base(s) && Sizes(s) && name in Now(s)
    ensures Sizes(Write(s, Unfinalized(s, name)))
  {
    assert Has(s.hist, |s.hist| - 1, name);
    if Now(s)[name].deleting { RemoveSizes(s, name); } else { PutSizes(s, name, Now(s)[name].(finalizer := false)); }
  }

  lemma PatchSizes(s: State, name: Name)
    requires Base(s) && Sizes(s)
    ensures Sizes(AfterPatch(s, name))
  {
    DoneSizes(s, name);
    if name in Now(s) {
      UnfinalizedSizes(s, name);
      DoneSizes(Write(s, Unfinalized(s, name)), name);
    }
  }

  lemma DeleteSizes(s: State, name: Name)
    requires Base(s) && Sizes(s) && name in Now(s)
    ensures Sizes(AfterCsiDelete(s, name))
  {
    assert Has(s.hist, |s.hist| - 1, name);
    PutSizes(s, name, Now(s)[name].(deleting := true));
    RemoveSizes(s, name);
  }

  lemma RepairSizes(s: State, name: Name, seen: nat)
    requires Base(s) && Sizes(s) && Enabled(s, Repair(name, seen)) && Forgotten(s, name) && Fits(s, name, s.hist[seen][name])
    ensures Sizes(AfterRepair(s, name, seen))
  {
    var size := s.hist[seen][name].status.current.value;
    CreateSizes(s, name, Fresh(s, s.hist[seen][name].node, Lvm, size, Status(false, false, None, OK)));
  }

  lemma ApiStepSizes(s: State, e: Event)
    requires Base(s) && Sizes(s) && Enabled(s, e) && Fair(s, e) && Orderly(s, e) && ApiEvent(e)
    ensures Sizes(NextApi(s, e))
  {
    match e
    case CsiCreate(name, node, kind, size, seen) =>
      if name !in s.hist[seen] && name !in Now(s) {
        CreateSizes(s, name, Fresh(s, node, kind, size, Status(false, false, None, OK)));
      }
    case CsiDelete(name) => DeleteSizes(s, name);
    case CsiExpand(name, size, _, seen) => ExpandSizes(s, name, size, seen);
    case Strip(name, _) => UnfinalizedSizes(s, name);
    case Report(name) => ReportSizes(s, name);
    case PatchFinalizer(name) => PatchSizes(s, name);
    case Repair(name, seen) => RepairSizes(s, name, seen);
  }

  lemma ReconcileSizes(s: State, name: Name)
    requires Base(s) && Sizes(s) && name !in s.work
    ensures Sizes(AfterReconcile(s, name))
  {
    var s' := AfterReconcile(s, name);
    assert Now(s') == Now(s);
    if s' != s {
      assert Has(s.hist, s.cache, name);
      WorkSizesSet(s.hist, s.node, Now(s), s.lvs, s.lvs, s.work, name, s'.work[name]);
    }
  }

  /** What is known of the object a reconcile works from. */
  lemma ReadSizes(s: State, name: Name)
    requires Base(s) && Sizes(s) && name in s.work
    ensures InWork(s, name) && WorkSizes(s.node, Now(s), s.lvs, name, Read(s, name), s.work[name].pc)
    ensures ObjOk(Read(s, name))
    ensures name in s.born && Has(s.hist, s.born[name], name) && SizeLe(s.hist[s.born[name]][name], Read(s, name))
    ensures Has(s.hist, s.cache, name) ==> SizeLe(Read(s, name), s.hist[s.cache][name])
    ensures name in Now(s) ==> SizeLe(Read(s, name), Now(s)[name])
  {
    assert WorkInv(s.hist, s.born, s.cache, s.node, name, s.work[name]);
    assert Grows(s.hist, s.born[name], name) && Swells(s.hist, s.born[name], name);
    assert Has(s.hist, s.work[name].at, name);
    assert name in Now(s) ==> Has(s.hist, |s.hist| - 1, name);
  }

  lemma LvSizesSet(hist: seq<Cluster>, born: map<Name, nat>, cache: nat, lvs: map<Name, nat>, name: Name, size: nat)
    requires LvSizes(hist, born, cache, lvs)
    requires name in born && Has(hist, born[name], name) && hist[born[name]][name].spec <= size
    requires born[name] <= cache && (Has(hist, cache, name) ==> size <= hist[cache][name].spec)
    ensures LvSizes(hist, born, cache, lvs[name := size])
  {}

  lemma StatusTrueSet(node: Name, c: Cluster, lvs: map<Name, nat>, name: Name, size: nat)
    requires StatusTrue(node, c, lvs) && (name in lvs ==> lvs[name] <= size)
    ensures StatusTrue(node, c, lvs[name := size])
  {
    forall n | n in c && c[n].status.current.Some? ensures Holds(node, c, lvs[name := size], n, c[n].status.current.value) {
      assert Holds(node, c, lvs, n, c[n].status.current.value);
    }
  }

  lemma WorkSizesSet(hist: seq<Cluster>, node: Name, c: Cluster, lvs: map<Name, nat>, lvs': map<Name, nat>,
                     work: map<Name, Work>, name: Name, w: Work)
    requires AllWorkSizes(hist, node, c, lvs, work)
    requires forall n :: n != name ==> (n in lvs' <==> n in lvs) && (n in lvs ==> lvs'[n] == lvs[n])
    requires Has(hist, w.at, name) ==> WorkSizes(node, c, lvs', name, hist[w.at][name], w.pc)
    ensures AllWorkSizes(hist, node, c, lvs', work[name := w])
  {
    forall n | n in work && n != name && Has(hist, work[n].at, n)
      ensures WorkSizes(node, c, lvs', n, hist[work[n].at][n], work[n].pc)
    {
      assert WorkSizes(node, c, lvs, n, hist[work[n].at][n], work[n].pc);
    }
  }

  /** The history is untouched, and the disk and the work fit to it. */
  lemma Refit(s: State, s': State)
    requires HistSizes(s.hist, s.born) && SameApi(s.(pass := s'.pass), s')
    requires DiskSizes(s.hist, s.born, s.cache, s.node, Now(s), s'.lvs, s'.work)
    ensures Sizes(s')
  {}

  /** Setting one volume to what its reconcile read, and moving on. */
  lemma SetSizes(s: State, s': State, name: Name, pc: Pc)
    requires Base(s) && Sizes(s) && name in s.work && InWork(s, name) && SameApi(s, s')
    requires s'.lvs == s.lvs || s'.lvs == s.lvs[name := Read(s, name).spec]
    requires s'.work == s.work[name := Work(s.work[name].at, pc)]
    requires WorkSizes(s.node, Now(s), s'.lvs, name, Read(s, name), pc)
    ensures Sizes(s')
  {
    if s'.lvs != s.lvs { SetLvSizes(s, name); }
    WorkSizesSet(s.hist, s.node, Now(s), s.lvs, s'.lvs, s.work, name, Work(s.work[name].at, pc));
    Refit(s, s');
  }

  lemma SetLvSizes(s: State, name: Name)
    requires Base(s) && Sizes(s) && name in s.work && InWork(s, name)
    ensures var lvs := s.lvs[name := Read(s, name).spec];
            LvSizes(s.hist, s.born, s.cache, lvs) && StatusTrue(s.node, Now(s), lvs)
  {
    ReadSizes(s, name);
    ReadIsOlder(s, name);
    LvSizesSet(s.hist, s.born, s.cache, s.lvs, name, Read(s, name).spec);
    StatusTrueSet(s.node, Now(s), s.lvs, name, Read(s, name).spec);
  }

  lemma CreatedIs(s: State, name: Name, ok: bool, code: Code, number: int)
    requires InWork(s, name) && s.work[name].pc.Creating?
    ensures var s', o := AfterCreate(s, name, ok, code, number), Read(s, name);
            && name in s'.work && s'.work[name].pc.Reporting?
            && s'.work == s.work[name := Work(s.work[name].at, s'.work[name].pc)]
            && (s'.lvs == s.lvs || s'.lvs == s.lvs[name := o.spec])
            && var st := s'.work[name].pc.status;
               if ok then st == Status(true, true, Some(o.spec), OK) && (o.kind == Lvm ==> name in s'.lvs)
                          && (name in s.lvs ==> s'.lvs == s.lvs)
               else st == o.status.(reported := true, code := code) && s'.lvs == s.lvs
  {}

  lemma CreatedSizes(s: State, name: Name, ok: bool, code: Code, number: int)
    requires Base(s) && Sizes(s) && InWork(s, name) && s.work[name].pc.Creating?
    ensures Sizes(AfterCreate(s, name, ok, code, number))
  {
    var s' := AfterCreate(s, name, ok, code, number);
    CreatedIs(s, name, ok, code, number);
    ReadSizes(s, name);
    ReadIsOlder(s, name);
    SetSizes(s, s', name, s'.work[name].pc);
  }

  lemma ResizedIs(s: State, name: Name, ok: bool, code: Code)
    requires InWork(s, name) && s.work[name].pc.Resizing?
    ensures var s', o := AfterResize(s, name, ok, true, code), Read(s, name);
            && name in s'.work && s'.work[name].pc.Reporting?
            && s'.work == s.work[name := Work(s.work[name].at, s'.work[name].pc)]
            && var st := s'.work[name].pc.status;
               if name !in s.lvs then st == Status(true, o.status.volumeId, Some(o.spec), OK) && s'.lvs == s.lvs
               else if ok then st == Status(true, o.status.volumeId, Some(o.spec), OK) && s'.lvs == s.lvs[name := o.spec]
               else st == o.status.(reported := true, code := code) && s'.lvs == s.lvs
  {}

  lemma ResizedSizes(s: State, name: Name, ok: bool, code: Code)
    requires Base(s) && Sizes(s) && InWork(s, name) && s.work[name].pc.Resizing?
    ensures Sizes(AfterResize(s, name, ok, true, code))
  {
    var s' := AfterResize(s, name, ok, true, code);
    ResizedIs(s, name, ok, code);
    ReadSizes(s, name);
    ReadIsOlder(s, name);
    SetSizes(s, s', name, s'.work[name].pc);
  }

  /** Dropping the volume of a name that is not live, or is being deleted. */
  lemma DropSizes(hist: seq<Cluster>, born: map<Name, nat>, cache: nat, node: Name, c: Cluster, lvs: map<Name, nat>,
                  work: map<Name, Work>, name: Name)
    requires DiskSizes(hist, born, cache, node, c, lvs, work)
    requires Live(node, c, name, Lvm) ==> c[name].deleting
    ensures DiskSizes(hist, born, cache, node, c, lvs - {name}, work)
  {
    forall n | n in work && Has(hist, work[n].at, n)
      ensures WorkSizes(node, c, lvs - {name}, n, hist[work[n].at][n], work[n].pc)
    {
      assert WorkSizes(node, c, lvs, n, hist[work[n].at][n], work[n].pc);
    }
  }

  lemma RemovedSizes(s: State, name: Name, ok: bool)
    requires Base(s) && Sizes(s) && InWork(s, name) && s.work[name].pc.Removing?
    ensures Sizes(AfterRemove(s, name, ok))
  {
    ReadIsOlder(s, name);
    ReadSizes(s, name);
    DoneSizes(s, name);
    RemovedIs(s, name, ok);
    if ok {
      var w := s.work[name := Work(s.work[name].at, Patching)];
      WorkSizesSet(s.hist, s.node, Now(s), s.lvs, s.lvs, s.work, name, w[name]);
      DropSizes(s.hist, s.born, s.cache, s.node, Now(s), s.lvs, w, name);
      Refit(s, AfterRemove(s, name, ok));
    }
  }

  lemma RemovedIs(s: State, name: Name, ok: bool)
    requires InWork(s, name)
    ensures var s' := AfterRemove(s, name, ok);
            if ok then s'.work == s.work[name := Work(s.work[name].at, Patching)] && (s'.lvs == s.lvs || s'.lvs == s.lvs - {name})
            else s' == Done(s, name)
  {}

  lemma SyncSizes(s: State, to: nat)
    requires Base(s) && Sizes(s) && s.cache <= to < |s.hist|
    ensures LvSizes(s.hist, s.born, to, s.lvs)
  {
    forall n | n in s.lvs && Has(s.hist, to, n) ensures s.lvs[n] <= s.hist[to][n].spec {
      assert Grows(s.hist, s.born[n], n) && Swells(s.hist, s.born[n], n);
      assert if s.born[n] <= s.cache then Has(s.hist, s.cache, n) else Has(s.hist, s.born[n], n);
    }
  }

  lemma ReconcileStepSizes(s: State, e: Event)
    requires Base(s) && Sizes(s) && Enabled(s, e) && Orderly(s, e) && ReconcileEvent(e)
    ensures Sizes(NextReconcile(s, e))
  {
    match e
    case Reconcile(name) => ReconcileSizes(s, name);
    case DoCreate(name, ok, code, number) => CreatedSizes(s, name, ok, code, number);
    case DoResize(name, ok, _, code) => ResizedSizes(s, name, ok, code);
    case DoRemove(name, ok) => RemovedSizes(s, name, ok);
    case GiveUp(name) => DoneSizes(s, name);
    case Die => assert Now(NextReconcile(s, e)) == Now(s);
  }

  lemma PassStepSizes(s: State, e: Event)
    requires Base(s) && Sizes(s) && Enabled(s, e) && Orderly(s, e) && !ApiEvent(e) && !ReconcileEvent(e)
    ensures Sizes(NextPass(s, e))
  {
    PassKeepsStory(s, e);
    assert Now(NextPass(s, e)) == Now(s);
    if e.Sync? { SyncSizes(s, e.to); }
    else if e.DropVolume? { DropSizes(s.hist, s.born, s.cache, s.node, Now(s), s.lvs, s.work, e.name); }
  }

  ghost predicate OrderlyAt(run: seq<State>, events: seq<Event>, i: nat)
    requires i < |events| && |run| == |events| + 1
  {
    Orderly(run[i], events[i])
  }

  ghost predicate OrderlyRun(run: seq<State>, events: seq<Event>) {
    |run| == |events| + 1 && forall i: nat | i < |events| :: OrderlyAt(run, events, i)
  }

  lemma {:induction false} SizesAlways(run: seq<State>, events: seq<Event>, k: nat)
    requires FairRun(run, events) && k < |run|
    requires OrderlyRun(run, events)
    ensures Sizes(run[k])
  {
    if k == 0 {
      InitSizes(run[0]);
    } else {
      SizesAlways(run, events, k - 1);
      OneStepSizes(run, events, k - 1);
    }
  }

  lemma OneStepSizes(run: seq<State>, events: seq<Event>, i: nat)
    requires FairRun(run, events) && OrderlyRun(run, events) && i < |events| && Sizes(run[i])
    ensures Sizes(run[i + 1])
  {
    BaseAlways(run, events, i);
    assert StepAt(run, events, i) && FairAt(run, events, i) && OrderlyAt(run, events, i);
    StepKeepsSizes(run[i], events[i]);
  }

  lemma StepKeepsSizes(s: State, e: Event)
    requires Base(s) && Sizes(s) && Enabled(s, e) && Fair(s, e) && Orderly(s, e)
    ensures Sizes(Next(s, e))
  {
    if ApiEvent(e) { ApiStepSizes(s, e); }
    else if ReconcileEvent(e) { ReconcileStepSizes(s, e); }
    else { PassStepSizes(s, e); }
  }

  /** CurrentSize <= size of the volume <= Spec.Size, in every reachable state. */
  predicate Ordered(s: State, name: Name) {
    Live(s.node, Now(s), name, Lvm) && !Now(s)[name].deleting && Now(s)[name].status.current.Some? ==>
      name in s.lvs && Now(s)[name].status.current.value <= s.lvs[name] <= Now(s)[name].spec
  }

  lemma SizesOrdered(s: State, name: Name)
    requires Base(s) && Sizes(s)
    ensures Ordered(s, name)
  {
    if Live(s.node, Now(s), name, Lvm) && name in s.lvs {
      assert Has(s.hist, |s.hist| - 1, name) && Grows(s.hist, s.born[name], name) && Swells(s.hist, s.born[name], name);
      assert if s.born[name] <= s.cache then Has(s.hist, s.cache, name) else Has(s.hist, s.born[name], name);
    }
  }

  lemma OrderedAlways(run: seq<State>, events: seq<Event>, k: nat, name: Name)
    requires FairRun(run, events) && k < |run|
    requires OrderlyRun(run, events)
    ensures Ordered(run[k], name)
  {
    BaseAlways(run, events, k);
    SizesAlways(run, events, k);
    SizesOrdered(run[k], name);
  }

  /** CurrentSize never decreases while the object lives: between any two entries of the history. */
  lemma CurrentNeverShrinks(run: seq<State>, events: seq<Event>, k: nat, name: Name, i: nat, j: nat)
    requires FairRun(run, events) && k < |run|
    requires OrderlyRun(run, events)
    requires name in run[k].born && run[k].born[name] <= i <= j && Has(run[k].hist, i, name) && Has(run[k].hist, j, name)
    ensures StatusLe(run[k].hist[i][name].status, run[k].hist[j][name].status)
    ensures run[k].hist[i][name].spec <= run[k].hist[j][name].spec
  {
    SizesAlways(run, events, k);
    assert Swells(run[k].hist, run[k].born[name], name);
  }

  /** A new requested size keeps the order exactly when it covers the volume there is. */
  lemma ExpandKeepsOrderIff(s: State, name: Name, size: nat, seen: nat)
    requires Base(s) && Sizes(s) && seen < |s.hist| && Newest(s, name, seen)
    requires Live(s.node, Now(s), name, Lvm) && !Now(s)[name].deleting && Now(s)[name].status.current.Some?
    ensures name in s.lvs
    ensures Ordered(AfterCsiExpand(s, name, size, seen), name) <==> s.lvs[name] <= size
  {
    SizesOrdered(s, name);
    var s' := AfterCsiExpand(s, name, size, seen);
    assert Now(s')[name] == Now(s)[name].(spec := size, version := |s.hist|);
  }

  /** A resize that is reported keeps the order exactly when the volume was looked up or had the size already. */
  lemma ResizeKeepsOrderIff(s: State, name: Name, lookup: bool)
    requires Base(s) && Sizes(s) && InWork(s, name) && s.work[name].pc.Resizing? && Newest(s, name, s.work[name].at)
    ensures name in s.lvs
    ensures var s1 := AfterResize(s, name, true, lookup, OK);
            Ordered(AfterReport(s1, name), name) <==> (lookup || s.lvs[name] == Read(s, name).spec)
  {
    ResizingIs(s, name);
    ResizeOrder(s, name, lookup);
  }

  lemma ResizingIs(s: State, name: Name)
    requires Base(s) && Sizes(s) && InWork(s, name) && s.work[name].pc.Resizing? && Newest(s, name, s.work[name].at)
    ensures Now(s)[name] == Read(s, name) && Live(s.node, Now(s), name, Lvm) && !Now(s)[name].deleting
    ensures name in s.lvs && s.lvs[name] <= Read(s, name).spec
  {
    ReadSizes(s, name);
    ReadIsOlder(s, name);
    SizesOrdered(s, name);
    NewestIsRead(s, name, s.work[name].at);
  }

  lemma ResizeOrder(s: State, name: Name, lookup: bool)
    requires InWork(s, name) && s.work[name].pc.Resizing? && Newest(s, name, s.work[name].at) && Now(s)[name] == Read(s, name)
    requires Live(s.node, Now(s), name, Lvm) && !Now(s)[name].deleting && name in s.lvs && s.lvs[name] <= Read(s, name).spec
    ensures var s1 := AfterResize(s, name, true, lookup, OK);
            Ordered(AfterReport(s1, name), name) <==> (lookup || s.lvs[name] == Read(s, name).spec)
  {
    ResizeReported(s, name, lookup);
  }

  lemma ResizeReported(s: State, name: Name, lookup: bool)
    requires InWork(s, name) && s.work[name].pc.Resizing? && Newest(s, name, s.work[name].at) && Now(s)[name] == Read(s, name)
    ensures var s1, o := AfterResize(s, name, true, lookup, OK), Now(s)[name];
            var s2 := AfterReport(s1, name);
            && name in Now(s2) && s2.node == s.node
            && Now(s2)[name] == o.(status := Status(true, o.status.volumeId, Some(o.spec), OK), version := |s.hist|)
            && s2.lvs == if lookup && name in s.lvs then s.lvs[name := o.spec] else s.lvs
  {
    var s1 := AfterResize(s, name, true, lookup, OK);
    assert s1.hist == s.hist && s1.work[name].at == s.work[name].at;
  }

  /** The object is repaired and seen by the node, and its reconcile starts over with the creation. */
  function Restarted(s: State, name: Name, seen: nat): (r: State)
    requires Enabled(s, Repair(name, seen)) && s.hist[seen][name].node == s.node
    ensures InWork(r, name) && r.work[name] == Work(|s.hist|, Creating) && r.lvs == s.lvs && r.node == s.node
    ensures Live(s.node, Now(r), name, Lvm) && Read(r, name) == Now(r)[name]
    ensures Now(r)[name].spec == s.hist[seen][name].status.current.value && !Now(r)[name].deleting
  {
    var s1 := AfterRepair(s, name, seen);
    AfterReconcile(s1.(cache := |s.hist|), name)
  }

  /**
   Right after a repair there is no current size. Once the volume is made, or found, and reported, the
   order holds exactly when it was absent or had the size of the PersistentVolume.
   */
  lemma RepairKeepsOrderIff(s: State, name: Name, seen: nat, number: int)
    requires Enabled(s, Repair(name, seen)) && s.hist[seen][name].node == s.node
    ensures Ordered(AfterRepair(s, name, seen), name)
    ensures var s' := AfterCreate(Restarted(s, name, seen), name, true, OK, number);
            Ordered(AfterReport(s', name), name) <==> Fits(s, name, s.hist[seen][name])
  {
    var r := Restarted(s, name, seen);
    var s' := AfterCreate(r, name, true, OK, number);
    var o := Now(r)[name];
    assert Now(AfterReport(s', name))[name] == o.(status := Status(true, true, Some(o.spec), OK), version := |r.hist|);
  }

  /** In runs without repairs growing requests and working lookups are enough. */
  lemma OrderedWithoutRepairs(run: seq<State>, events: seq<Event>, k: nat, name: Name)
    requires FairRun(run, events) && k < |run| && forall i | 0 <= i < |events| :: !events[i].Repair?
    requires forall i | 0 <= i < |events| ::
               && (events[i].CsiExpand? && events[i].name in Now(run[i]) ==> Now(run[i])[events[i].name].spec <= events[i].size)
               && (events[i].DoResize? ==> events[i].lookup)
    ensures Ordered(run[k], name)
  {
    forall i: nat | i < |events| ensures OrderlyAt(run, events, i) {
      if events[i].DropVolume? {
        NoRepairNoHarm(run, events, i);
        assert StepAt(run, events, i);
      }
    }
    OrderedAlways(run, events, k, name);
  }
}
