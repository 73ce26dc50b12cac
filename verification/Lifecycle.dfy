/**
 The life of LogicVolume objects on one node, as a state machine. The CSI controller writes objects,
 the node's reconciler turns them into logical volumes and raw partitions, a finalizer orders
 their removal, a failed node has its finalizers stripped, and a periodic pass removes
 what has no object. Between any two steps the node process may die.

 The API server is the list of all its past contents; the node reads the entry `cache`, which only
 moves forward. Sizes count gibibytes (`requestGb << 30`).
 */
module Lifecycle {
  import opened Wrappers

  /** Names of objects and nodes are only ever compared. */
  type Name = int

  datatype Kind = Lvm | Raw

  datatype Code = OK | Internal | Exhausted

  /** `reported` says that Status.Status is not empty. */
  datatype Status = Status(reported: bool, volumeId: bool, current: Option<nat>, code: Code)

  /** A LogicVolume; `version` is its resourceVersion. */
  datatype Obj = Obj(node: Name, kind: Kind, spec: nat, status: Status, deleting: bool, finalizer: bool,
                     version: nat)

  type Cluster = map<Name, Obj>

  /** Where a reconcile stands that read entry `at` of the history. */
  datatype Work = Work(at: nat, pc: Pc)
  datatype Pc = Creating | Resizing | Removing | Reporting(status: Status) | Patching

  /**
   The cleanup of runners/troubleshoot.go: first volumes, then partitions. `at` is the entry the
   cluster was listed from; `found` are the names and numbers of the last disk scan.
   */
  datatype Pass =
    | Idle
    | Local(names: set<Name>)
    | Orphans(names: set<Name>, at: nat)
    | Partitions(known: set<Name>, at: nat, found: map<Name, int>)

  /** `lvs` are the sizes of the volumes, `parts` the numbers of the partitions. */
  datatype State = State(
    node: Name, hist: seq<Cluster>, born: map<Name, nat>, cache: nat,
    lvs: map<Name, nat>, parts: map<Name, int>, work: map<Name, Work>, pass: Pass)

  datatype Event =
    | CsiCreate(name: Name, node: Name, kind: Kind, size: nat, seen: nat)
    | CsiDelete(name: Name)
    | CsiExpand(name: Name, size: nat, asked: nat, seen: nat)
    | Strip(name: Name, seen: nat)
    | Sync(to: nat)
    | Reconcile(name: Name)
    | DoCreate(name: Name, ok: bool, code: Code, number: int)
    | DoResize(name: Name, ok: bool, lookup: bool, code: Code)
    | DoRemove(name: Name, ok: bool)
    | Report(name: Name)
    | PatchFinalizer(name: Name)
    | GiveUp(name: Name)
    | Die
    | ListLocal
    | ListCluster
    | DropVolume(name: Name, ok: bool)
    | Repair(name: Name, seen: nat)
    | ListForPartitions
    | ScanDisk
    | DropPartition(name: Name, ok: bool)
    | EndPass

  /** The newest entry: what the API server holds. */
  function Now(s: State): Cluster {
    if |s.hist| == 0 then map[] else s.hist[|s.hist| - 1]
  }

  /** Every accepted write makes a new entry of the history. */
  function Write(s: State, c: Cluster): (r: State)
    ensures SameNode(s, r) && r.work == s.work && r.pass == s.pass
  {
    s.(hist := s.hist + [c])
  }

  function Fresh(s: State, node: Name, kind: Kind, size: nat, status: Status): Obj {
    Obj(node, kind, size, status, false, true, |s.hist|)
  }

  /** Removing the finalizer makes an object that is being deleted disappear. */
  function Unfinalized(s: State, name: Name): Cluster
    requires name in Now(s)
  {
    var o := Now(s)[name];
    if o.deleting then Now(s) - {name} else Now(s)[name := o.(finalizer := false, version := |s.hist|)]
  }

  /** An update carries the version it was computed from and is refused when that is not the newest. */
  predicate Newest(s: State, name: Name, at: nat)
    requires at < |s.hist|
  {
    name in s.hist[at] && name in Now(s) && Now(s)[name].version == s.hist[at][name].version
  }

  /** What the reconciler does with the object it read (logicvolume_controller.go:72-94). */
  function Dispatch(o: Obj): Option<Pc> {
    if !o.deleting then
      if !o.status.volumeId then if o.status.code != OK then None else Some(Creating)
      else if o.kind == Raw || o.status.current.None? || o.spec <= o.status.current.value then None
      else Some(Resizing)
    else if !o.finalizer then None
    else Some(Removing)
  }

  /** The object is present, of this node and of this kind. */
  predicate Live(node: Name, c: Cluster, name: Name, kind: Kind) {
    name in c && c[name].node == node && c[name].kind == kind
  }

  /** The names the node lists from the cluster as its own volumes of one kind. */
  function Listed(node: Name, c: Cluster, kind: Kind): set<Name> {
    set n | n in c && Live(node, c, n, kind)
  }

  /** The steps that write to the API server. */
  predicate ApiEvent(e: Event) {
    e.CsiCreate? || e.CsiDelete? || e.CsiExpand? || e.Strip? || e.Report? || e.PatchFinalizer? || e.Repair?
  }

  /** The steps of a reconcile on the node. */
  predicate ReconcileEvent(e: Event) {
    e.Reconcile? || e.DoCreate? || e.DoResize? || e.DoRemove? || e.GiveUp? || e.Die?
  }

  predicate Enabled(s: State, e: Event) {
    && |s.hist| > 0 && s.cache < |s.hist|
    && if ApiEvent(e) then EnabledApi(s, e) else if ReconcileEvent(e) then EnabledReconcile(s, e) else EnabledPass(s, e)
  }

  predicate EnabledApi(s: State, e: Event)
    requires |s.hist| > 0 && ApiEvent(e)
  {
    match e
    case CsiCreate(_, _, _, _, seen) => seen < |s.hist|
    case CsiDelete(name) => name in Now(s)
    case CsiExpand(name, size, asked, seen) =>
      && asked <= seen < |s.hist| && Exceeds(s.hist[asked], name, size)
      && name in s.hist[seen] && s.hist[seen][name].status.volumeId
    case Strip(name, seen) =>
      && name in Now(s) && Now(s)[name].finalizer
      && seen < |s.hist| && name in s.hist[seen] && s.hist[seen][name].status.reported
    case Report(name) => InWork(s, name) && s.work[name].pc.Reporting?
    case PatchFinalizer(name) => InWork(s, name) && s.work[name].pc.Patching?
    case Repair(name, seen) =>
      && s.pass.Orphans? && name in s.pass.names && name !in Now(s)
      && seen < |s.hist| && name in s.hist[seen] && s.hist[seen][name].status.current.Some?
  }

  predicate EnabledReconcile(s: State, e: Event)
    requires ReconcileEvent(e)
  {
    match e
    case Reconcile(name) => name !in s.work
    case DoCreate(name, _, _, number) =>
      InWork(s, name) && s.work[name].pc.Creating? && forall m | m in s.parts :: s.parts[m] != number
    case DoResize(name, _, _, _) => InWork(s, name) && s.work[name].pc.Resizing?
    case DoRemove(name, _) => InWork(s, name) && s.work[name].pc.Removing?
    case GiveUp(name) => name in s.work
    case Die => true
  }

  predicate EnabledPass(s: State, e: Event)
    requires !ApiEvent(e) && !ReconcileEvent(e)
  {
    match e
    case Sync(to) => s.cache <= to < |s.hist|
    case ListLocal => s.pass.Idle?
    case ListCluster => s.pass.Local?
    case DropVolume(name, _) => s.pass.Orphans? && name in s.pass.names
    case ListForPartitions => s.pass.Orphans?
    case ScanDisk => s.pass.Partitions?
    case DropPartition(name, _) => s.pass.Partitions? && name in s.pass.found && name !in s.pass.known
    case EndPass => s.pass.Partitions?
  }

  /** ControllerExpandVolume goes on only above the current size it reads (controller.go:375-383). */
  predicate Exceeds(c: Cluster, name: Name, size: nat) {
    name in c && c[name].status.current.Some? && c[name].status.current.value < size
  }

  predicate InWork(s: State, name: Name) {
    name in s.work && s.work[name].at < |s.hist| && name in s.hist[s.work[name].at]
  }

  /** The object a reconcile is working from. */
  function Read(s: State, name: Name): Obj
    requires InWork(s, name)
  {
    s.hist[s.work[name].at][name]
  }

  function At(s: State, name: Name, pc: Pc): State
    requires name in s.work
  {
    s.(work := s.work[name := Work(s.work[name].at, pc)])
  }

  function Done(s: State, name: Name): State {
    s.(work := s.work - {name})
  }

  /** The node, its disks and its cache are untouched. */
  predicate SameNode(s: State, r: State) {
    r.node == s.node && r.cache == s.cache && r.lvs == s.lvs && r.parts == s.parts
  }

  /** The API server and what the node has read of it are untouched. */
  predicate SameApi(s: State, r: State) {
    r.node == s.node && r.hist == s.hist && r.born == s.born && r.cache == s.cache && r.pass == s.pass
  }

  ghost predicate SameOtherWork(s: State, r: State, name: Name) {
    forall n :: n != name ==> (n in r.work <==> n in s.work) && (n in r.work ==> r.work[n] == s.work[n])
  }

  ghost predicate SameOtherDisk(s: State, r: State, name: Name) {
    && (forall n :: n != name ==> (n in r.lvs <==> n in s.lvs) && (n in r.lvs ==> r.lvs[n] == s.lvs[n]))
    && (forall n :: n != name ==> (n in r.parts <==> n in s.parts) && (n in r.parts ==> r.parts[n] == s.parts[n]))
  }

  function Next(s: State, e: Event): State
    requires Enabled(s, e)
  {
    if ApiEvent(e) then NextApi(s, e) else if ReconcileEvent(e) then NextReconcile(s, e) else NextPass(s, e)
  }

  function NextApi(s: State, e: Event): State
    requires Enabled(s, e) && ApiEvent(e)
  {
    match e
    case CsiCreate(name, node, kind, size, seen) => AfterCsiCreate(s, name, node, kind, size, seen)
    case CsiDelete(name) => AfterCsiDelete(s, name)
    case CsiExpand(name, size, _, seen) => AfterCsiExpand(s, name, size, seen)
    case Strip(name, _) => Write(s, Unfinalized(s, name))
    case Report(name) => AfterReport(s, name)
    case PatchFinalizer(name) => AfterPatch(s, name)
    case Repair(name, seen) => AfterRepair(s, name, seen)
  }

  function NextReconcile(s: State, e: Event): State
    requires Enabled(s, e) && ReconcileEvent(e)
  {
    match e
    case Reconcile(name) => AfterReconcile(s, name)
    case DoCreate(name, ok, code, number) => AfterCreate(s, name, ok, code, number)
    case DoResize(name, ok, lookup, code) => AfterResize(s, name, ok, lookup, code)
    case DoRemove(name, ok) => AfterRemove(s, name, ok)
    case GiveUp(name) => Done(s, name)
    case Die => s.(work := map[], pass := Idle)
  }

  function NextPass(s: State, e: Event): State
    requires Enabled(s, e) && !ApiEvent(e) && !ReconcileEvent(e)
  {
    match e
    case Sync(to) => s.(cache := to)
    case ListLocal => s.(pass := Local(s.lvs.Keys))
    case ListCluster => s.(pass := Orphans(s.pass.names - Listed(s.node, s.hist[s.cache], Lvm), s.cache))
    case DropVolume(name, ok) =>
      s.(lvs := if ok then s.lvs - {name} else s.lvs, pass := s.pass.(names := s.pass.names - {name}))
    case ListForPartitions => s.(pass := Partitions(Listed(s.node, s.hist[s.cache], Raw), s.cache, map[]))
    case ScanDisk => s.(pass := s.pass.(found := s.parts))
    case DropPartition(name, ok) => AfterDropPartition(s, name, ok)
    case EndPass => s.(pass := Idle)
  }

  /** LogicVolumeService.CreateVolume: an object found, in the controller's cache or at the server, is left alone. */
  function AfterCsiCreate(s: State, name: Name, node: Name, kind: Kind, size: nat, seen: nat): (r: State)
    requires seen < |s.hist|
    ensures SameNode(s, r) && r.work == s.work && r.pass == s.pass
  {
    if name in s.hist[seen] || name in Now(s) then s
    else Born(s, name, Fresh(s, node, kind, size, Status(false, false, None, OK)))
  }

  /** A new incarnation of a name. */
  function Born(s: State, name: Name, o: Obj): (r: State)
    ensures SameNode(s, r) && r.work == s.work && r.pass == s.pass
  {
    Write(s, Now(s)[name := o]).(born := s.born[name := |s.hist|])
  }

  /** A deleted object waits for its finalizer. */
  function AfterCsiDelete(s: State, name: Name): (r: State)
    requires name in Now(s)
    ensures SameNode(s, r) && r.work == s.work && r.pass == s.pass
  {
    var o := Now(s)[name];
    if o.deleting then s
    else if o.finalizer then Put(s, name, o.(deleting := true))
    else Write(s, Now(s) - {name})
  }

  function Put(s: State, name: Name, o: Obj): (r: State)
    ensures SameNode(s, r) && r.work == s.work && r.pass == s.pass
  {
    Write(s, Now(s)[name := o.(version := |s.hist|)])
  }

  /** UpdateLogicVolumeSpecSize. */
  function AfterCsiExpand(s: State, name: Name, size: nat, seen: nat): (r: State)
    requires seen < |s.hist|
    ensures SameNode(s, r) && r.work == s.work && r.pass == s.pass
  {
    if Newest(s, name, seen) then Put(s, name, Now(s)[name].(spec := size)) else s
  }

  function AfterReconcile(s: State, name: Name): (r: State)
    requires s.cache < |s.hist|
    ensures SameApi(s, r) && SameOtherWork(s, r, name) && SameOtherDisk(s, r, name)
  {
    var c := s.hist[s.cache];
    if name in c && c[name].node == s.node && Dispatch(c[name]).Some? then
      s.(work := s.work[name := Work(s.cache, Dispatch(c[name]).value)])
    else s
  }

  /** createLV once the node has answered; an existing volume or partition is left as it is. */
  function AfterCreate(s: State, name: Name, ok: bool, code: Code, number: int): (r: State)
    requires InWork(s, name)
    ensures SameApi(s, r) && SameOtherWork(s, r, name) && SameOtherDisk(s, r, name)
  {
    var o := Read(s, name);
    if !ok then At(s, name, Reporting(o.status.(reported := true, code := code)))
    else
      var s' := At(s, name, Reporting(Status(true, true, Some(o.spec), OK)));
      if o.kind == Raw then s'.(parts := if name in s.parts then s.parts else s.parts[name := number])
      else s'.(lvs := if name in s.lvs then s.lvs else s.lvs[name := o.spec])
  }

  /** expandLV once the volume manager has answered; a volume not looked up counts as resized. */
  function AfterResize(s: State, name: Name, ok: bool, lookup: bool, code: Code): (r: State)
    requires InWork(s, name)
    ensures SameApi(s, r) && SameOtherWork(s, r, name) && SameOtherDisk(s, r, name)
  {
    var o := Read(s, name);
    var success := At(s, name, Reporting(Status(true, o.status.volumeId, Some(o.spec), OK)));
    if !lookup || name !in s.lvs then success
    else if ok then success.(lvs := s.lvs[name := o.spec])
    else At(s, name, Reporting(o.status.(reported := true, code := code)))
  }

  /** removeLVIfExists up to the finalizer; a volume already gone is removed. */
  function AfterRemove(s: State, name: Name, ok: bool): (r: State)
    requires InWork(s, name)
    ensures SameApi(s, r) && SameOtherWork(s, r, name) && SameOtherDisk(s, r, name)
  {
    if !ok then Done(s, name)
    else if Read(s, name).kind == Lvm then At(s, name, Patching).(lvs := s.lvs - {name})
    else At(s, name, Patching).(parts := s.parts - {name})
  }

  /** Status().Update: refused when the object has moved on. */
  function AfterReport(s: State, name: Name): (r: State)
    requires InWork(s, name) && s.work[name].pc.Reporting?
    ensures SameNode(s, r) && r.work == s.work - {name} && r.pass == s.pass
  {
    if Newest(s, name, s.work[name].at) then
      Done(Put(s, name, Now(s)[name].(status := s.work[name].pc.status)), name)
    else Done(s, name)
  }

  /** The finalizer goes by a merge patch, which carries no version. */
  function AfterPatch(s: State, name: Name): (r: State)
    ensures SameNode(s, r) && r.work == s.work - {name} && r.pass == s.pass
  {
    if name in Now(s) then Done(Write(s, Unfinalized(s, name)), name) else Done(s, name)
  }

  /**
   An orphan with a PersistentVolume gets its object back. A PersistentVolume exists only for a
   volume that was reported, and carries the node and a size that were reported. The status it
   is created with is dropped: the API server takes the status of a LogicVolume only from a status update.
   */
  function AfterRepair(s: State, name: Name, seen: nat): (r: State)
    requires s.pass.Orphans? && seen < |s.hist| && name in s.hist[seen] && s.hist[seen][name].status.current.Some?
    ensures SameNode(s, r) && r.work == s.work && r.pass == s.pass.(names := s.pass.names - {name})
  {
    var size := s.hist[seen][name].status.current.value;
    Born(s, name, Fresh(s, s.hist[seen][name].node, Lvm, size, Status(false, false, None, OK)))
      .(pass := s.pass.(names := s.pass.names - {name}))
  }

  /** The partition is deleted by the number the scan showed, whatever has that number now. */
  function AfterDropPartition(s: State, name: Name, ok: bool): State
    requires s.pass.Partitions? && name in s.pass.found
  {
    var number := s.pass.found[name];
    s.(parts := if ok then map m | m in s.parts && s.parts[m] != number :: s.parts[m] else s.parts,
       pass := s.pass.(found := s.pass.found - {name}))
  }

  /** Event i leads from state i to the next one. */
  ghost predicate StepAt(run: seq<State>, events: seq<Event>, i: nat)
    requires i < |events| && |run| == |events| + 1
  {
    Enabled(run[i], events[i]) && run[i + 1] == Next(run[i], events[i])
  }

  ghost predicate IsRun(run: seq<State>, events: seq<Event>) {
    |run| == |events| + 1 && forall i: nat | i < |events| :: StepAt(run, events, i)
  }
}
