/**
 Removing a volume is several steps (logicvolume_controller.go:108-151): delete the volume, then take
 the finalizer off. Whatever else happens, whatever is repeated and wherever it is cut off, it
 ends the same way.
 */
module LifecycleRemoval {
  import opened Lifecycle
  import opened LifecycleStory
  import opened LifecycleBase
  import opened LifecycleRuns
  import opened LifecycleOwned

  /** Nothing of the name is on disk, and nothing the node reads or does brings it back. */
  ghost predicate Clear(s: State, name: Name) {
    && name !in s.lvs && name !in s.parts
    && name in s.born && s.born[name] <= s.cache
    && (Has(s.hist, s.cache, name) ==> s.hist[s.cache][name].deleting)
    && (name in s.work ==> Leaves(s.work[name].pc))
  }

  lemma ApiStepClear(s: State, e: Event, name: Name)
    requires Base(s) && Clear(s, name) && Enabled(s, e) && ApiEvent(e) && SameLife(s, NextApi(s, e), name)
    ensures Clear(NextApi(s, e), name)
  {
    ApiKeepsNode(s, e);
    if Births(s, e) {
      BirthMoves(s, e);
    } else {
      ApiMoves(s, e);
      if NextApi(s, e).hist != s.hist { var c :| NextApi(s, e).hist == s.hist + [c]; }
    }
  }

  lemma ReconcileStepClear(s: State, e: Event, name: Name)
    requires Clear(s, name) && Enabled(s, e) && ReconcileEvent(e)
    ensures Clear(NextReconcile(s, e), name)
  {
    ReconcileKeepsStory(s, e);
    assert name in s.hist[s.cache] ==> Has(s.hist, s.cache, name);
  }

  lemma PassStepClear(s: State, e: Event, name: Name)
    requires Base(s) && Clear(s, name) && Enabled(s, e) && !ApiEvent(e) && !ReconcileEvent(e)
    ensures Clear(NextPass(s, e), name)
  {
    PassKeepsStory(s, e);
    assert Grows(s.hist, s.born[name], name);
    var to := NextPass(s, e).cache;
    assert Has(s.hist, to, name) ==> Has(s.hist, s.cache, name);
  }

  lemma StepKeepsClear(s: State, e: Event, name: Name)
    requires Base(s) && Clear(s, name) && Enabled(s, e) && SameLife(s, Next(s, e), name)
    ensures Clear(Next(s, e), name)
  {
    if ApiEvent(e) { ApiStepClear(s, e, name); }
    else if ReconcileEvent(e) { ReconcileStepClear(s, e, name); }
    else { PassStepClear(s, e, name); }
  }

  lemma OneStepClear(run: seq<State>, events: seq<Event>, l: nat, name: Name)
    requires FairRun(run, events) && l < |events| && Clear(run[l], name) && SameLife(run[l], run[l + 1], name)
    ensures Clear(run[l + 1], name)
  {
    BaseAlways(run, events, l);
    assert StepAt(run, events, l);
    StepKeepsClear(run[l], events[l], name);
  }

  /** What was cleared stays cleared for the rest of that incarnation, in every fair run, stripping and repairs included. */
  lemma {:induction false} StaysClear(run: seq<State>, events: seq<Event>, k: nat, l: nat, name: Name)
    requires FairRun(run, events) && k <= l < |run| && Clear(run[k], name) && SameLife(run[k], run[l], name)
    ensures Clear(run[l], name)
  {
    if k < l {
      BornAlong(run, events, k, l - 1, name);
      BornAlong(run, events, l - 1, l, name);
      StaysClear(run, events, k, l - 1, name);
      OneStepClear(run, events, l - 1, name);
    }
  }

  // The end of a removal.

  /** An object that is being deleted stays so for the rest of its incarnation. */
  lemma StillDeleting(s: State, s': State, name: Name)
    requires Always(s) && Always(s') && |s.hist| <= |s'.hist| && s'.hist[..|s.hist|] == s.hist && SameLife(s, s', name)
    requires name in Now(s) && Now(s)[name].deleting && name in Now(s')
    ensures Now(s')[name].deleting
  {
    assert Has(s.hist, |s.hist| - 1, name) && Has(s'.hist, |s'.hist| - 1, name) && Has(s'.hist, |s.hist| - 1, name);
    assert Grows(s.hist, s.born[name], name) && Grows(s'.hist, s.born[name], name);
  }

  lemma GoneIsClear(s: State, name: Name)
    requires Base(s) && Owned(s) && name in s.born && name !in Now(s)
    ensures Clear(s, name)
  {
    if name in s.work { assert WorkOwned(Now(s), s.lvs, s.parts, name, s.work[name].pc); }
  }

  /**
   In every fair run without stripping, whatever interleaves with the removal and however often it is
   cut off and repeated: from the deletion on, the object is there with its finalizer, or it is
   gone and everything of it is off the disk, for good.
   */
  lemma RemovalConverges(run: seq<State>, events: seq<Event>, k: nat, l: nat, name: Name)
    requires FairRun(run, events) && k <= l < |run| && forall i | 0 <= i < |events| :: !events[i].Strip?
    requires name in Now(run[k]) && Now(run[k])[name].deleting && SameLife(run[k], run[l], name)
    ensures if name in Now(run[l]) then Now(run[l])[name].deleting && Now(run[l])[name].finalizer else Clear(run[l], name)
  {
    BaseAlways(run, events, k);
    BaseAlways(run, events, l);
    OwnedAlways(run, events, l);
    if name in Now(run[l]) {
      Extends(run, events, k, l);
      StillDeleting(run[k], run[l], name);
    } else {
      GoneIsClear(run[l], name);
    }
  }

  /** The steps of one name's reconcile leave every other name alone. */
  lemma OthersUntouched(s: State, e: Event, name: Name, other: Name)
    requires Enabled(s, e) && other != name
    requires e in {Reconcile(name), DoRemove(name, true), DoRemove(name, false), PatchFinalizer(name), GiveUp(name)}
    ensures var s' := Next(s, e);
            && (other in Now(s') <==> other in Now(s)) && (other in Now(s) ==> Now(s')[other] == Now(s)[other])
            && (other in s'.work <==> other in s.work) && (other in s.work ==> s'.work[other] == s.work[other])
            && SameOtherDisk(s, s', name)
  {}

  /** The object and what it stood for are gone, and nothing else has changed. */
  function Finished(s: State, name: Name): State
    requires |s.hist| > 0 && name in Now(s)
  {
    s.(hist := s.hist + [Now(s) - {name}], cache := |s.hist| - 1, work := s.work - {name},
       lvs := if Now(s)[name].kind == Lvm then s.lvs - {name} else s.lvs,
       parts := if Now(s)[name].kind == Raw then s.parts - {name} else s.parts)
  }

  /** A fair run without stripping, from anywhere. */
  ghost predicate FairOn(run: seq<State>, events: seq<Event>) {
    IsRun(run, events) && forall i: nat | i < |events| :: FairAt(run, events, i) && !events[i].Strip?
  }

  lemma OneMore(s: State, e: Event, run: seq<State>, events: seq<Event>)
    requires FairOn(run, events) && Enabled(s, e) && Fair(s, e) && !e.Strip? && run[0] == Next(s, e)
    ensures FairOn([s] + run, [e] + events)
  {
    forall i: nat | i < |events| + 1
      ensures StepAt([s] + run, [e] + events, i) && FairAt([s] + run, [e] + events, i) && !([e] + events)[i].Strip?
    {
      if i > 0 { assert StepAt(run, events, i - 1) && FairAt(run, events, i - 1); }
    }
  }

  lemma RemovalRuns(s: State, name: Name) returns (run: seq<State>, events: seq<Event>)
    requires Base(s) && name !in s.work && s.cache == |s.hist| - 1
    requires name in Now(s) && Now(s)[name].node == s.node && Now(s)[name].deleting && Now(s)[name].finalizer
    ensures FairOn(run, events) && run[0] == s && run[|run| - 1] == Finished(s, name)
  {
    var s1 := s.(work := s.work[name := Work(s.cache, Removing)]);
    var s2 := RemovalSteps(s, s1, name);
    PatchFinishes(s, s2, name);
    run, events := [Finished(s, name)], [];
    OneMore(s2, PatchFinalizer(name), run, events);
    run, events := [s2] + run, [PatchFinalizer(name)] + events;
    OneMore(s1, DoRemove(name, true), run, events);
    run, events := [s1] + run, [DoRemove(name, true)] + events;
    OneMore(s, Reconcile(name), run, events);
    run, events := [s] + run, [Reconcile(name)] + events;
  }

  lemma RemovalSteps(s: State, s1: State, name: Name) returns (s2: State)
    requires |s.hist| > 0 && s.cache == |s.hist| - 1 && name !in s.work
    requires name in Now(s) && Now(s)[name].node == s.node && Now(s)[name].deleting && Now(s)[name].finalizer
    requires s1 == s.(work := s.work[name := Work(s.cache, Removing)])
    ensures Enabled(s, Reconcile(name)) && Next(s, Reconcile(name)) == s1
    ensures Enabled(s1, DoRemove(name, true)) && Next(s1, DoRemove(name, true)) == s2
    ensures s2 == s.(lvs := s2.lvs, parts := s2.parts, work := s.work[name := Work(s.cache, Patching)])
    ensures s2.lvs == Finished(s, name).lvs && s2.parts == Finished(s, name).parts
  {
    s2 := AfterRemove(s1, name, true);
    assert s2.work == s.work[name := Work(s.cache, Patching)];
  }

  lemma PatchFinishes(s: State, s2: State, name: Name)
    requires |s.hist| > 0 && name in Now(s) && Now(s)[name].deleting && s.cache == |s.hist| - 1
    requires s2 == s.(lvs := s2.lvs, parts := s2.parts, work := s.work[name := Work(s.cache, Patching)])
    requires s2.lvs == Finished(s, name).lvs && s2.parts == Finished(s, name).parts
    ensures Enabled(s2, PatchFinalizer(name)) && Next(s2, PatchFinalizer(name)) == Finished(s, name)
  {
    assert AfterPatch(s2, name).work == s.work - {name};
  }

  lemma GivingUp(s: State, name: Name)
    requires name in s.work && |s.hist| > 0 && s.cache < |s.hist| && name in Now(s)
    ensures Enabled(s, GiveUp(name)) && Fair(s, GiveUp(name)) && Next(s, GiveUp(name)) == Done(s, name)
    ensures Now(Done(s, name)) == Now(s) && Finished(Done(s, name), name) == Finished(s, name)
  {
    assert Done(s, name).work - {name} == s.work - {name};
  }

  lemma CatchingUp(s: State, s1: State, name: Name)
    requires |s.hist| > 0 && s.cache < |s.hist| && name in Now(s) && s1 == s.(cache := |s.hist| - 1)
    ensures var e := Sync(|s.hist| - 1); Enabled(s, e) && Fair(s, e) && Next(s, e) == s1 == NextPass(s, e)
    ensures Now(s1) == Now(s) && Finished(s1, name) == Finished(s, name)
  {}

  /** A reconcile under way is given up first. */
  lemma RemovalRestarts(s: State, name: Name) returns (run: seq<State>, events: seq<Event>)
    requires Base(s) && name in s.work && s.cache == |s.hist| - 1
    requires name in Now(s) && Now(s)[name].node == s.node && Now(s)[name].deleting && Now(s)[name].finalizer
    ensures FairOn(run, events) && run[0] == s && run[|run| - 1] == Finished(s, name)
  {
    var s1 := Done(s, name);
    ReconcileStepBase(s, GiveUp(name));
    GivingUp(s, name);
    run, events := RemovalRuns(s1, name);
    OneMore(s, GiveUp(name), run, events);
    run, events := [s] + run, [GiveUp(name)] + events;
  }

  /** From every state of every fair run, a removal that works ends with just the object and what it stood for gone. */
  lemma RemovalFinishes(s: State, name: Name) returns (run: seq<State>, events: seq<Event>)
    requires Base(s) && name in Now(s) && Now(s)[name].node == s.node && Now(s)[name].deleting && Now(s)[name].finalizer
    ensures FairOn(run, events) && run[0] == s && run[|run| - 1] == Finished(s, name)
  {
    var e := Sync(|s.hist| - 1);
    var s1 := s.(cache := |s.hist| - 1);
    CatchingUp(s, s1, name);
    PassStepBase(s, e);
    if name !in s.work {
      run, events := RemovalRuns(s1, name);
    } else {
      run, events := RemovalRestarts(s1, name);
    }
    OneMore(s, e, run, events);
    run, events := [s] + run, [e] + events;
  }
}
