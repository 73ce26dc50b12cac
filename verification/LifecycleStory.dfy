/**
 What every step of the protocol keeps, in every run: objects only move forward within one
 incarnation, the lists of the cleanup pass are true of the entry they were read from, and partition
 numbers are distinct.
 */
module LifecycleStory {
  import opened Lifecycle

  /** b may replace a: an incarnation keeps its node and kind and never un-deletes. */
  ghost predicate Older(a: Obj, b: Obj) {
    && a.node == b.node && a.kind == b.kind
    && (a.deleting ==> b.deleting)
    && (b.finalizer ==> a.finalizer)
    && a.version <= b.version
    && (a.version == b.version ==> a == b)
  }

  predicate Has(hist: seq<Cluster>, i: int, name: Name) {
    0 <= i < |hist| && name in hist[i]
  }

  /** From its birth on, an incarnation is there without gaps until it is gone. */
  ghost predicate Grows(hist: seq<Cluster>, from: nat, name: Name) {
    && Has(hist, from, name)
    && forall i, j | from <= i <= j && Has(hist, j, name) :: Has(hist, i, name) && Older(hist[i][name], hist[j][name])
  }

  ghost predicate Story(hist: seq<Cluster>, born: map<Name, nat>) {
    && |hist| > 0
    && (forall n :: n in born ==> Grows(hist, born[n], n))
    && (forall i, n: Name | Has(hist, i, n) :: n in born && hist[i][n].version <= i)
  }

  /** None of these names was a volume of the node at that entry. */
  ghost predicate Unlisted(hist: seq<Cluster>, node: Name, names: set<Name>, at: nat) {
    at < |hist| && forall n :: n in names ==> !Live(node, hist[at], n, Lvm)
  }

  predicate ListedAt(hist: seq<Cluster>, node: Name, known: set<Name>, at: nat) {
    at < |hist| && known == Listed(node, hist[at], Raw)
  }

  ghost predicate PassTrue(hist: seq<Cluster>, node: Name, p: Pass) {
    && (p.Orphans? ==> Unlisted(hist, node, p.names, p.at))
    && (p.Partitions? ==> ListedAt(hist, node, p.known, p.at))
  }

  ghost predicate Distinct(parts: map<Name, int>) {
    forall m, n | m in parts && n in parts && m != n :: parts[m] != parts[n]
  }

  ghost predicate Always(s: State) {
    Story(s.hist, s.born) && s.cache < |s.hist| && PassTrue(s.hist, s.node, s.pass) && Distinct(s.parts)
  }

  ghost predicate Init(s: State) {
    s.hist == [map[]] && s.born == map[] && s.cache == 0 && s.lvs == map[] && s.parts == map[] && s.work == map[]
    && s.pass == Idle
  }

  lemma OlderTransitive(a: Obj, b: Obj, c: Obj)
    requires Older(a, b) && Older(b, c)
    ensures Older(a, c)
  {}

  lemma GrowsAppend(hist: seq<Cluster>, from: nat, name: Name, c: Cluster)
    requires Grows(hist, from, name)
    requires name in c ==> name in hist[|hist| - 1] && Older(hist[|hist| - 1][name], c[name])
    ensures Grows(hist + [c], from, name)
  {
    var h, last := hist + [c], |hist| - 1;
    assert Has(hist, from, name);
    forall i, j | from <= i <= j && Has(h, j, name) ensures Has(h, i, name) && Older(h[i][name], h[j][name]) {
      if j < |hist| {
        assert Has(hist, j, name) && Has(hist, i, name);
      } else if i < j {
        assert Has(hist, last, name) && Has(hist, i, name);
        OlderTransitive(hist[i][name], hist[last][name], c[name]);
      }
    }
  }

  /** c replaces some objects by successors and drops others. */
  ghost predicate Successor(hist: seq<Cluster>, c: Cluster)
    requires |hist| > 0
  {
    forall n :: n in c ==> n in hist[|hist| - 1] && Older(hist[|hist| - 1][n], c[n]) && c[n].version <= |hist|
  }

  lemma AppendStory(hist: seq<Cluster>, born: map<Name, nat>, c: Cluster)
    requires Story(hist, born) && Successor(hist, c)
    ensures Story(hist + [c], born)
  {
    var h, last := hist + [c], |hist| - 1;
    forall n | n in born ensures Grows(h, born[n], n) { GrowsAppend(hist, born[n], n, c); }
    forall i, n: Name | Has(h, i, n) ensures n in born && h[i][n].version <= i {
      assert Has(hist, if i == |hist| then last else i, n);
    }
  }

  /** A name that is not there now starts a new incarnation. */
  lemma BirthStory(hist: seq<Cluster>, born: map<Name, nat>, name: Name, o: Obj)
    requires Story(hist, born) && o.version == |hist| && name !in hist[|hist| - 1]
    ensures Story(hist + [hist[|hist| - 1][name := o]], born[name := |hist|])
  {
    var last := |hist| - 1;
    var c := hist[last][name := o];
    var h, born' := hist + [c], born[name := |hist|];
    forall n | n in born' ensures Grows(h, born'[n], n) {
      if n != name { GrowsAppend(hist, born[n], n, c); }
    }
    forall i, n: Name | Has(h, i, n) ensures n in born' && h[i][n].version <= i {
      if i < |hist| { assert Has(hist, i, n); } else if n != name { assert Has(hist, last, n); }
    }
  }

  /** One object gets a new version, or goes. */
  lemma TouchSuccessor(hist: seq<Cluster>, born: map<Name, nat>, name: Name, o: Obj)
    requires Story(hist, born) && name in hist[|hist| - 1]
    requires var p := hist[|hist| - 1][name];
             o.version == |hist| && o.node == p.node && o.kind == p.kind && (p.deleting ==> o.deleting)
             && (o.finalizer ==> p.finalizer)
    ensures Successor(hist, hist[|hist| - 1][name := o]) && Successor(hist, hist[|hist| - 1] - {name})
  {
    var c := hist[|hist| - 1];
    forall n | n in c ensures c[n].version < |hist| { assert Has(hist, |hist| - 1, n); }
  }

  lemma PassTrueAppend(hist: seq<Cluster>, node: Name, p: Pass, c: Cluster)
    requires PassTrue(hist, node, p)
    ensures PassTrue(hist + [c], node, p)
  {}

  predicate Births(s: State, e: Event)
    requires Enabled(s, e)
  {
    (e.CsiCreate? && e.name !in s.hist[e.seen] && e.name !in Now(s)) || e.Repair?
  }

  /** How a step changes the API server: not at all, by successors, or by a birth. */
  ghost predicate Moves(s: State, s': State)
    requires |s.hist| > 0
  {
    || (s'.hist == s.hist && s'.born == s.born)
    || (exists c :: s'.hist == s.hist + [c] && s'.born == s.born && Successor(s.hist, c))
  }

  lemma PutMoves(s: State, name: Name, o: Obj)
    requires Story(s.hist, s.born) && name in Now(s)
    requires var p := Now(s)[name];
             o.node == p.node && o.kind == p.kind && (p.deleting ==> o.deleting) && (o.finalizer ==> p.finalizer)
    ensures Moves(s, Put(s, name, o)) && Moves(s, Write(s, Now(s) - {name}))
  {
    TouchSuccessor(s.hist, s.born, name, o.(version := |s.hist|));
  }

  lemma UnfinalizedMoves(s: State, name: Name)
    requires Story(s.hist, s.born) && name in Now(s)
    ensures Moves(s, Write(s, Unfinalized(s, name)))
  {
    PutMoves(s, name, Now(s)[name].(finalizer := false));
  }

  lemma ReportMoves(s: State, name: Name)
    requires Story(s.hist, s.born) && InWork(s, name) && s.work[name].pc.Reporting?
    ensures Moves(s, AfterReport(s, name))
  {
    if name in Now(s) { PutMoves(s, name, Now(s)[name].(status := s.work[name].pc.status)); }
  }

  lemma PatchMoves(s: State, name: Name)
    requires Story(s.hist, s.born)
    ensures Moves(s, AfterPatch(s, name))
  {
    if name in Now(s) { UnfinalizedMoves(s, name); }
  }

  lemma ExpandMoves(s: State, name: Name, size: nat, seen: nat)
    requires Story(s.hist, s.born) && seen < |s.hist|
    ensures Moves(s, AfterCsiExpand(s, name, size, seen))
  {
    if name in Now(s) { PutMoves(s, name, Now(s)[name].(spec := size)); }
  }

  lemma DeleteMoves(s: State, name: Name)
    requires Story(s.hist, s.born) && name in Now(s)
    ensures Moves(s, AfterCsiDelete(s, name))
  {
    PutMoves(s, name, Now(s)[name].(deleting := true));
  }

  lemma ApiMoves(s: State, e: Event)
    requires Story(s.hist, s.born) && Enabled(s, e) && ApiEvent(e) && !Births(s, e)
    ensures Moves(s, NextApi(s, e))
  {
    match e
    case CsiCreate(_, _, _, _, _) =>
    case CsiDelete(name) => DeleteMoves(s, name);
    case CsiExpand(name, size, _, seen) => ExpandMoves(s, name, size, seen);
    case Strip(name, _) => UnfinalizedMoves(s, name);
    case Report(name) => ReportMoves(s, name);
    case PatchFinalizer(name) => PatchMoves(s, name);
  }

  /** A birth adds one object, of this version, under a name that was not there. */
  lemma BirthMoves(s: State, e: Event)
    requires Enabled(s, e) && Births(s, e)
    ensures e.CsiCreate? || e.Repair?
    ensures var s' := NextApi(s, e);
            && e.name !in Now(s) && s'.born == s.born[e.name := |s.hist|]
            && |s'.hist| == |s.hist| + 1 && e.name in Now(s') && Now(s')[e.name].version == |s.hist|
            && s'.hist == s.hist + [Now(s)[e.name := Now(s')[e.name]]]
  {}

  /** The node itself is not touched, except that a reconcile may end and a repaired name leaves the pass. */
  lemma ApiKeepsNode(s: State, e: Event)
    requires Enabled(s, e) && ApiEvent(e)
    ensures var s' := NextApi(s, e);
            && SameNode(s, s')
            && (s'.pass == s.pass || (e.Repair? && s'.pass == s.pass.(names := s.pass.names - {e.name})))
            && (s'.work == s.work || ((e.Report? || e.PatchFinalizer?) && s'.work == s.work - {e.name}))
  {
    match e
    case CsiCreate(_, _, _, _, _) =>
    case CsiDelete(_) =>
    case CsiExpand(_, _, _, _) =>
    case Strip(_, _) =>
    case Report(_) =>
    case PatchFinalizer(_) =>
    case Repair(_, _) =>
  }

  lemma AppendAlways(s: State, hist: seq<Cluster>, born: map<Name, nat>, pass: Pass, c: Cluster)
    requires Always(s) && hist == s.hist + [c] && Story(hist, born)
    requires pass == s.pass || (s.pass.Orphans? && exists x :: pass == s.pass.(names := s.pass.names - {x}))
    ensures PassTrue(hist, s.node, pass)
  {
    PassTrueAppend(s.hist, s.node, s.pass, c);
  }

  lemma ApiStepAlways(s: State, e: Event)
    requires Always(s) && Enabled(s, e) && ApiEvent(e)
    ensures Always(NextApi(s, e))
  {
    var s' := NextApi(s, e);
    ApiKeepsNode(s, e);
    if Births(s, e) {
      BirthMoves(s, e);
      BirthStory(s.hist, s.born, e.name, Now(s')[e.name]);
      AppendAlways(s, s'.hist, s'.born, s'.pass, Now(s'));
    } else {
      ApiMoves(s, e);
      if s'.hist != s.hist {
        var c :| s'.hist == s.hist + [c] && Successor(s.hist, c);
        AppendStory(s.hist, s.born, c);
        AppendAlways(s, s'.hist, s'.born, s'.pass, c);
      }
    }
  }

  lemma ReconcileKeepsStory(s: State, e: Event)
    requires Enabled(s, e) && ReconcileEvent(e)
    ensures var s' := NextReconcile(s, e);
            SameApi(s.(pass := s'.pass), s') && (s'.pass == s.pass || e.Die?)
  {}

  lemma ReconcileStepAlways(s: State, e: Event)
    requires Always(s) && Enabled(s, e) && ReconcileEvent(e)
    ensures Always(NextReconcile(s, e))
  {
    ReconcileKeepsStory(s, e);
    assert Distinct(NextReconcile(s, e).parts);
  }

  lemma PassKeepsStory(s: State, e: Event)
    requires Enabled(s, e) && !ApiEvent(e) && !ReconcileEvent(e)
    ensures var s' := NextPass(s, e);
            && s'.node == s.node && s'.hist == s.hist && s'.born == s.born && s.cache <= s'.cache < |s.hist|
            && s'.work == s.work
  {}

  lemma PassStepAlways(s: State, e: Event)
    requires Always(s) && Enabled(s, e) && !ApiEvent(e) && !ReconcileEvent(e)
    ensures Always(NextPass(s, e))
  {
    PassKeepsStory(s, e);
  }

  lemma StepKeepsAlways(s: State, e: Event)
    requires Always(s) && Enabled(s, e)
    ensures Always(Next(s, e))
  {
    if ApiEvent(e) { ApiStepAlways(s, e); }
    else if ReconcileEvent(e) { ReconcileStepAlways(s, e); }
    else { PassStepAlways(s, e); }
  }
}
