/** When the partition cleanup, which lists the cluster, scans the disk and deletes by number, hits nothing live. */
module LifecyclePartitions {
  import opened Lifecycle
  import opened LifecycleStory
  import opened LifecycleBase
  import opened LifecycleRuns

  type Numbers = map<Name, int>

  predicate Used(numbers: Numbers, number: int) {
    exists n | n in numbers :: numbers[n] == number
  }

  /** m is what it was at the scan, and no younger than the listing, or its number was free then. */
  ghost predicate SameHand(scan: Numbers, at: nat, c: Cluster, born: map<Name, nat>, parts: Numbers, m: Name)
    requires m in parts
  {
    || (m in scan && scan[m] == parts[m] && (m in c ==> m in born && born[m] <= at))
    || !Used(scan, parts[m])
  }

  ghost predicate SameHands(scan: Numbers, at: nat, c: Cluster, born: map<Name, nat>, parts: Numbers) {
    forall m :: m in parts ==> SameHand(scan, at, c, born, parts, m)
  }

  /** What is left to be deleted was on the disk at the scan. */
  ghost predicate FoundThen(scan: Numbers, found: Numbers) {
    forall n :: n in found ==> n in scan && found[n] == scan[n]
  }

  ghost predicate Steady(s: State, scan: Numbers) {
    && s.pass.Partitions? && Distinct(scan) && FoundThen(scan, s.pass.found)
    && SameHands(scan, s.pass.at, Now(s), s.born, s.parts)
  }

  /** Nothing on the disk is younger than the listing. */
  ghost predicate NoneYounger(s: State) {
    s.pass.Partitions? && forall n :: n in s.parts && n in Now(s) ==> n in s.born && s.born[n] <= s.pass.at
  }

  lemma ScanIsSteady(s: State)
    requires Always(s) && Enabled(s, ScanDisk) && NoneYounger(s)
    ensures Steady(Next(s, ScanDisk), s.parts)
  {}

  /** A write takes no number, and no name with a partition is born again. */
  lemma ApiStepSteady(s: State, e: Event, scan: Numbers)
    requires Always(s) && Steady(s, scan) && Enabled(s, e) && Fair(s, e) && ApiEvent(e)
    ensures Steady(NextApi(s, e), scan)
  {
    var s' := NextApi(s, e);
    ApiKeepsNode(s, e);
    if Births(s, e) {
      BirthMoves(s, e);
    } else {
      ApiMoves(s, e);
      if s'.hist != s.hist { var c :| s'.hist == s.hist + [c] && Successor(s.hist, c); }
    }
    forall m | m in s'.parts ensures SameHand(scan, s.pass.at, Now(s'), s'.born, s'.parts, m) {
      assert SameHand(scan, s.pass.at, Now(s), s.born, s.parts, m);
    }
  }

  /** A reconcile takes a number that was free at the scan. */
  lemma ReconcileStepSteady(s: State, e: Event, scan: Numbers)
    requires Always(s) && Steady(s, scan) && Enabled(s, e) && ReconcileEvent(e) && !e.Die?
    requires e.DoCreate? ==> !Used(scan, e.number)
    ensures Steady(NextReconcile(s, e), scan)
  {
    var s' := NextReconcile(s, e);
    ReconcileKeepsStory(s, e);
    forall m | m in s'.parts ensures SameHand(scan, s.pass.at, Now(s), s.born, s'.parts, m) {
      if m in s.parts { assert SameHand(scan, s.pass.at, Now(s), s.born, s.parts, m); }
    }
  }

  lemma PassStepSteady(s: State, e: Event, scan: Numbers)
    requires Always(s) && Steady(s, scan) && Enabled(s, e) && !ApiEvent(e) && !ReconcileEvent(e)
    requires !e.ScanDisk? && NextPass(s, e).pass.Partitions?
    ensures Steady(NextPass(s, e), scan)
  {
    var s' := NextPass(s, e);
    PassKeepsStory(s, e);
    forall m | m in s'.parts ensures SameHand(scan, s.pass.at, Now(s), s.born, s'.parts, m) {
      assert SameHand(scan, s.pass.at, Now(s), s.born, s.parts, m);
    }
  }

  /** The step leaves the pass where it is, scans nothing and gives no number of the scan away. */
  predicate Gentle(s: State, e: Event, scan: Numbers)
    requires Enabled(s, e)
  {
    Next(s, e).pass.Partitions? && !e.ScanDisk? && (e.DoCreate? ==> !Used(scan, e.number))
  }

  lemma StepKeepsSteady(s: State, e: Event, scan: Numbers)
    requires Always(s) && Steady(s, scan) && Enabled(s, e) && Fair(s, e) && Gentle(s, e, scan)
    ensures Steady(Next(s, e), scan)
  {
    if ApiEvent(e) { ApiStepSteady(s, e, scan); }
    else if ReconcileEvent(e) { ReconcileStepSteady(s, e, scan); }
    else { PassStepSteady(s, e, scan); }
  }

  /** A steady state hits nothing: what has a number found is what had it, and was listed if it is live. */
  lemma SteadyHitsNothing(s: State, scan: Numbers, n: Name, m: Name)
    requires Always(s) && Steady(s, scan)
    ensures !Hits(s, n, m)
  {
    if n in s.pass.found && m in s.parts && s.parts[m] == s.pass.found[n] && Live(s.node, Now(s), m, Raw) {
      assert Used(scan, s.parts[m]) by { assert scan[n] == s.parts[m]; }
      assert SameHand(scan, s.pass.at, Now(s), s.born, s.parts, m);
      assert m == n;
      LiveWasListed(s, m, s.pass.at, Raw);
    }
  }

  ghost predicate GentleAt(run: seq<State>, events: seq<Event>, scan: Numbers, i: nat)
    requires i < |events| && |run| == |events| + 1
  {
    Enabled(run[i], events[i]) && Gentle(run[i], events[i], scan)
  }

  lemma {:induction false} SteadyAlong(run: seq<State>, events: seq<Event>, c: nat, k: nat)
    requires FairRun(run, events) && c < k < |run| && events[c] == ScanDisk && NoneYounger(run[c])
    requires forall i: nat | c < i < k :: GentleAt(run, events, run[c].parts, i)
    ensures Steady(run[k], run[c].parts)
  {
    AlwaysAlways(run, events, k - 1);
    assert StepAt(run, events, k - 1) && FairAt(run, events, k - 1);
    if k == c + 1 {
      ScanIsSteady(run[c]);
    } else {
      SteadyAlong(run, events, c, k - 1);
      assert GentleAt(run, events, run[c].parts, k - 1);
      StepKeepsSteady(run[k - 1], events[k - 1], run[c].parts);
    }
  }

  /**
   However reconciles, controllers, stripped finalizers and deletions of the pass interleave in a fair
   run: if nothing on the disk was younger than the listing when it was scanned, and no number of the
   scan is given to another partition since, the pass hits no live partition.
   */
  lemma CleanupSparesLivePartitions(run: seq<State>, events: seq<Event>, c: nat, k: nat, n: Name, m: Name)
    requires FairRun(run, events) && c < k < |run| && events[c] == ScanDisk && NoneYounger(run[c])
    requires forall i: nat | c < i < k :: GentleAt(run, events, run[c].parts, i)
    ensures !Hits(run[k], n, m)
  {
    SteadyAlong(run, events, c, k);
    AlwaysAlways(run, events, k);
    SteadyHitsNothing(run[k], run[c].parts, n, m);
  }
}
