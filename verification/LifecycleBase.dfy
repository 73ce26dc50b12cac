/**
 What fair runs keep besides: the node works on the living incarnation of every name. A run is fair
 when a name is created again only after the node has forgotten it, and an object is
 repaired only after the node has seen the old one go.
 */
module LifecycleBase {
  import opened Lifecycle
  import opened LifecycleStory

  /** No entry the node may still read shows an earlier incarnation. */
  ghost predicate Current(hist: seq<Cluster>, born: map<Name, nat>, cache: nat) {
    forall i, n: Name | Has(hist, i, n) && cache <= i :: n in born && born[n] <= i
  }

  /** A reconcile works from an object of the living incarnation, and is where that object sends it. */
  ghost predicate WorkInv(hist: seq<Cluster>, born: map<Name, nat>, cache: nat, node: Name, name: Name, w: Work) {
    && name in born && born[name] <= w.at <= cache < |hist|
    && Has(hist, w.at, name) && hist[w.at][name].node == node
    && (Leaves(w.pc) <==> hist[w.at][name].deleting)
  }

  /** The reconcile is one that takes the volume away. */
  predicate Leaves(pc: Pc) {
    pc.Removing? || pc.Patching?
  }

  ghost predicate AllWork(hist: seq<Cluster>, born: map<Name, nat>, cache: nat, node: Name, work: map<Name, Work>) {
    forall n :: n in work ==> WorkInv(hist, born, cache, node, n, work[n])
  }

  function PassNames(p: Pass): set<Name> {
    if p.Local? || p.Orphans? then p.names else {}
  }

  /** What is on disk or in the pass once had an object; what has a partition, one that the node has seen. */
  ghost predicate Traced(born: map<Name, nat>, cache: nat, lvs: map<Name, nat>, parts: map<Name, int>, p: Pass) {
    && (forall n :: n in lvs || n in PassNames(p) ==> n in born)
    && (forall n :: n in parts ==> n in born && born[n] <= cache)
  }

  ghost predicate Base(s: State) {
    && Always(s)
    && Current(s.hist, s.born, s.cache)
    && Traced(s.born, s.cache, s.lvs, s.parts, s.pass)
    && AllWork(s.hist, s.born, s.cache, s.node, s.work)
  }

  /** The node reads the name nowhere and does nothing for it. */
  ghost predicate Forgotten(s: State, name: Name) {
    name !in s.work && name !in s.parts && forall i | s.cache <= i :: !Has(s.hist, i, name)
  }

  /** A name may be used again once nothing is left of it on the node. */
  ghost predicate Settled(s: State, name: Name) {
    Forgotten(s, name) && name !in s.lvs && name !in PassNames(s.pass)
  }

  ghost predicate Fair(s: State, e: Event) {
    Enabled(s, e) && ApiEvent(e) && Births(s, e) ==> if e.Repair? then Forgotten(s, e.name) else Settled(s, e.name)
  }

  lemma InitBase(s: State)
    requires Init(s)
    ensures Base(s)
  {}

  lemma AppendBase(s: State, c: Cluster)
    requires Base(s) && Successor(s.hist, c)
    ensures Current(s.hist + [c], s.born, s.cache) && AllWork(s.hist + [c], s.born, s.cache, s.node, s.work)
  {
    var h := s.hist + [c];
    forall i, n: Name | Has(h, i, n) && s.cache <= i ensures n in s.born && s.born[n] <= i {
      assert Has(s.hist, if i == |s.hist| then |s.hist| - 1 else i, n);
    }
    forall n | n in s.work ensures WorkInv(h, s.born, s.cache, s.node, n, s.work[n]) {
      assert WorkInv(s.hist, s.born, s.cache, s.node, n, s.work[n]);
    }
  }

  lemma BirthBase(s: State, name: Name, c: Cluster)
    requires Base(s) && Forgotten(s, name) && c.Keys == Now(s).Keys + {name}
    ensures var h, born := s.hist + [c], s.born[name := |s.hist|];
            Current(h, born, s.cache) && AllWork(h, born, s.cache, s.node, s.work)
  {
    var h, born := s.hist + [c], s.born[name := |s.hist|];
    forall i, n: Name | Has(h, i, n) && s.cache <= i ensures n in born && born[n] <= i {
      assert !Has(s.hist, i, name);
      if n != name { assert Has(s.hist, if i == |s.hist| then |s.hist| - 1 else i, n); }
    }
    forall n | n in s.work ensures WorkInv(h, born, s.cache, s.node, n, s.work[n]) {
      assert WorkInv(s.hist, s.born, s.cache, s.node, n, s.work[n]);
    }
  }

  lemma ApiStepBase(s: State, e: Event)
    requires Base(s) && Enabled(s, e) && Fair(s, e) && ApiEvent(e)
    ensures Base(NextApi(s, e))
  {
    var s' := NextApi(s, e);
    ApiStepAlways(s, e);
    ApiKeepsNode(s, e);
    if Births(s, e) {
      BirthMoves(s, e);
      BirthBase(s, e.name, Now(s'));
    } else {
      ApiMoves(s, e);
      if s'.hist != s.hist {
        var c :| s'.hist == s.hist + [c] && Successor(s.hist, c);
        AppendBase(s, c);
      }
    }
  }

  /** Starting from the entry the node reads. */
  lemma ReconcileWork(s: State, name: Name)
    requires Base(s) && name !in s.work
    ensures AllWork(s.hist, s.born, s.cache, s.node, AfterReconcile(s, name).work)
  {
    var s' := AfterReconcile(s, name);
    assert name in s.hist[s.cache] ==> Has(s.hist, s.cache, name);
    forall n | n in s'.work ensures WorkInv(s.hist, s.born, s.cache, s.node, n, s'.work[n]) {
      if n in s.work { assert WorkInv(s.hist, s.born, s.cache, s.node, n, s.work[n]); }
    }
  }

  /** Moving on within the same reconcile, or ending it. */
  lemma ProgressWork(s: State, name: Name, work: map<Name, Work>)
    requires Base(s) && InWork(s, name)
    requires forall n :: n in work && n != name ==> n in s.work && work[n] == s.work[n]
    requires name in work ==> work[name].at == s.work[name].at && Leaves(work[name].pc) == Leaves(s.work[name].pc)
    ensures AllWork(s.hist, s.born, s.cache, s.node, work)
  {
    forall n | n in work ensures WorkInv(s.hist, s.born, s.cache, s.node, n, work[n]) {
      assert WorkInv(s.hist, s.born, s.cache, s.node, n, s.work[n]);
    }
  }

  /** The work is in order, and what is new on disk belongs to it. */
  ghost predicate Framed(s: State, s': State) {
    && AllWork(s.hist, s.born, s.cache, s.node, s'.work)
    && (forall n :: n in s'.lvs && n !in s.lvs ==> n in s.work)
    && (forall n :: n in s'.parts && n !in s.parts ==> n in s.work)
  }

  lemma StartFrame(s: State, name: Name)
    requires Base(s) && name !in s.work
    ensures Framed(s, AfterReconcile(s, name))
  {
    ReconcileWork(s, name);
  }

  /** A reconcile goes on from the same entry and in the same direction, or ends. */
  ghost predicate MovesOn(s: State, s': State, name: Name)
    requires name in s.work
  {
    && SameOtherWork(s, s', name) && SameOtherDisk(s, s', name)
    && (name in s'.work ==> s'.work[name].at == s.work[name].at && Leaves(s'.work[name].pc) == Leaves(s.work[name].pc))
  }

  lemma CreateMovesOn(s: State, name: Name, ok: bool, code: Code, number: int)
    requires InWork(s, name) && s.work[name].pc.Creating?
    ensures MovesOn(s, AfterCreate(s, name, ok, code, number), name)
  {}

  lemma ResizeMovesOn(s: State, name: Name, ok: bool, lookup: bool, code: Code)
    requires InWork(s, name) && s.work[name].pc.Resizing?
    ensures MovesOn(s, AfterResize(s, name, ok, lookup, code), name)
  {}

  lemma RemoveMovesOn(s: State, name: Name, ok: bool)
    requires InWork(s, name) && s.work[name].pc.Removing?
    ensures MovesOn(s, AfterRemove(s, name, ok), name)
  {}

  lemma ProgressFrame(s: State, s': State, name: Name)
    requires Base(s) && InWork(s, name) && MovesOn(s, s', name)
    ensures Framed(s, s')
  {
    ProgressWork(s, name, s'.work);
  }

  lemma EndFrame(s: State, s': State)
    requires Base(s) && s'.lvs == s.lvs && s'.parts == s.parts
    requires forall n :: n in s'.work ==> n in s.work && s'.work[n] == s.work[n]
    ensures Framed(s, s')
  {}

  /** What a reconcile may do: start from the entry the node reads, move on, and change its own name on disk. */
  lemma ReconcileFrame(s: State, e: Event)
    requires Base(s) && Enabled(s, e) && ReconcileEvent(e)
    ensures Framed(s, NextReconcile(s, e))
  {
    match e
    case Reconcile(name) => StartFrame(s, name);
    case DoCreate(name, ok, code, number) =>
      CreateMovesOn(s, name, ok, code, number);
      ProgressFrame(s, AfterCreate(s, name, ok, code, number), name);
    case DoResize(name, ok, lookup, code) =>
      ResizeMovesOn(s, name, ok, lookup, code);
      ProgressFrame(s, AfterResize(s, name, ok, lookup, code), name);
    case DoRemove(name, ok) =>
      RemoveMovesOn(s, name, ok);
      ProgressFrame(s, AfterRemove(s, name, ok), name);
    case GiveUp(name) => EndFrame(s, Done(s, name));
    case Die => EndFrame(s, s.(work := map[], pass := Idle));
  }

  lemma ReconcileStepBase(s: State, e: Event)
    requires Base(s) && Enabled(s, e) && ReconcileEvent(e)
    ensures Base(NextReconcile(s, e))
  {
    ReconcileStepAlways(s, e);
    ReconcileKeepsStory(s, e);
    ReconcileFrame(s, e);
    forall n | n in s.work ensures n in s.born && s.born[n] <= s.cache {
      assert WorkInv(s.hist, s.born, s.cache, s.node, n, s.work[n]);
    }
  }

  lemma PassStepBase(s: State, e: Event)
    requires Base(s) && Enabled(s, e) && !ApiEvent(e) && !ReconcileEvent(e)
    ensures Base(NextPass(s, e))
  {
    PassStepAlways(s, e);
    PassKeepsStory(s, e);
    forall n | n in s.work ensures WorkInv(s.hist, s.born, NextPass(s, e).cache, s.node, n, s.work[n]) {
      assert WorkInv(s.hist, s.born, s.cache, s.node, n, s.work[n]);
    }
  }

  lemma StepKeepsBase(s: State, e: Event)
    requires Base(s) && Enabled(s, e) && Fair(s, e)
    ensures Base(Next(s, e))
  {
    if ApiEvent(e) { ApiStepBase(s, e); }
    else if ReconcileEvent(e) { ReconcileStepBase(s, e); }
    else { PassStepBase(s, e); }
  }
}
