/** Repeated CSI creation calls (pkg/csidriver/driver/k8s/logicvolume_service.go). */
module LifecycleCsi {
  import opened Lifecycle
  import opened LifecycleStory
  import opened LifecycleRuns
  import opened LifecycleSizes

  datatype Reply = Created | Compatible | AlreadyExists

  /** The object found, in the controller's cache or else at the server, is compared by size. */
  function CsiReply(s: State, name: Name, size: nat, seen: nat): Reply
    requires seen < |s.hist|
  {
    if name in s.hist[seen] then if s.hist[seen][name].spec == size then Compatible else AlreadyExists
    else if name in Now(s) then if Now(s)[name].spec == size then Compatible else AlreadyExists
    else Created
  }

  /** The entry the call finds the object in: the controller's cache, or else the server. */
  function FoundAt(s: State, name: Name, seen: nat): nat
    requires seen < |s.hist|
  {
    if name in s.hist[seen] then seen else |s.hist| - 1
  }

  /** The object is made by event i. */
  ghost predicate Creates(run: seq<State>, events: seq<Event>, i: nat)
    requires i < |events| && |run| == |events| + 1
  {
    StepAt(run, events, i) && events[i].CsiCreate? && Births(run[i], events[i])
  }

  /** Some entry from the birth to this one shows a size above the original one. */
  ghost predicate Expanded(hist: seq<Cluster>, name: Name, birth: nat, seen: nat, size: nat) {
    exists k | birth <= k <= seen :: Has(hist, k, name) && size < hist[k][name].spec
  }

  /** The entry of the birth is there ever after, with the original size and node. */
  lemma BirthEntry(run: seq<State>, events: seq<Event>, i: nat, j: nat)
    requires StartsFresh(run, events) && i < j < |run| && Creates(run, events, i)
    ensures var birth, name := |run[i].hist|, events[i].name;
            && Has(run[j].hist, birth, name) && run[j].hist[birth][name].spec == events[i].size
            && run[j].hist[birth][name].node == events[i].node
  {
    BirthMoves(run[i], events[i]);
    Extends(run, events, i + 1, j);
    assert run[j].hist[|run[i].hist|] == Now(run[i + 1]);
  }

  /** Sizes visible for one incarnation only grow from the original one. */
  lemma VisibleSize(run: seq<State>, events: seq<Event>, i: nat, j: nat, seen: nat)
    requires FairRun(run, events) && OrderlyRun(run, events) && i < j < |run| && Creates(run, events, i)
    requires var name := events[i].name;
             && name in run[j].born && run[j].born[name] == |run[i].hist| <= seen && Has(run[j].hist, seen, name)
    ensures var hist, name, size := run[j].hist, events[i].name, events[i].size;
            && size <= hist[seen][name].spec
            && (hist[seen][name].spec == size <==> !Expanded(hist, name, |run[i].hist|, seen, size))
  {
    var hist, name, birth := run[j].hist, events[i].name, |run[i].hist|;
    SizesAlways(run, events, j);
    BirthEntry(run, events, i, j);
    assert Swells(hist, birth, name);
    assert SizeLe(hist[birth][name], hist[seen][name]);
    forall k | birth <= k <= seen && Has(hist, k, name) ensures hist[k][name].spec <= hist[seen][name].spec {
      assert SizeLe(hist[k][name], hist[seen][name]);
    }
  }

  /**
   In every orderly run, at every later point of the incarnation and whatever entry the call finds it
   in: a repeated creation changes nothing, the original size is accepted exactly while no larger
   one is visible, another size is refused unless it is that larger one, and the volume has at
   least the original size.
   */
  lemma CreateIsIdempotent(run: seq<State>, events: seq<Event>, i: nat, j: nat)
    requires FairRun(run, events) && OrderlyRun(run, events) && i < j < |events| && Creates(run, events, i)
    requires events[j].CsiCreate? && events[j].name == events[i].name && events[j].seen < |run[j].hist|
    requires var s, name, found := run[j], events[i].name, FoundAt(run[j], events[i].name, events[j].seen);
             name in s.born && s.born[name] == |run[i].hist| <= found && Has(s.hist, found, name)
    ensures var s, name, size, again := run[j], events[i].name, events[i].size, events[j].size;
            var reply := CsiReply(s, name, again, events[j].seen);
            var larger := Expanded(s.hist, name, |run[i].hist|, FoundAt(s, name, events[j].seen), size);
            && run[j + 1] == s && reply != Created
            && (again == size ==> (reply == Compatible <==> !larger))
            && (again != size && reply == Compatible ==> size < again && larger)
            && (name in s.lvs ==> size <= s.lvs[name])
  {
    VisibleSize(run, events, i, j, FoundAt(run[j], events[i].name, events[j].seen));
    BirthEntry(run, events, i, j);
    SizesAlways(run, events, j);
    assert StepAt(run, events, j);
  }

  /** The node a call that succeeds answers with: the one it selected itself, whatever object it found. */
  function AnsweredNode(e: Event): Name
    requires e.CsiCreate?
  {
    e.node
  }

  /**
   Objects are compared by name and size, not by node. In every run, whatever entry a later call finds
   the object in, the object is of the node of the first call, so the answer names the object's
   node if and only if the later call selects that node again.
   */
  lemma AnswerNamesNodeIff(run: seq<State>, events: seq<Event>, i: nat, j: nat)
    requires StartsFresh(run, events) && i < j < |events| && Creates(run, events, i)
    requires events[j].CsiCreate? && events[j].name == events[i].name && events[j].seen < |run[j].hist|
    requires var s, name, found := run[j], events[i].name, FoundAt(run[j], events[i].name, events[j].seen);
             name in s.born && s.born[name] == |run[i].hist| <= found && Has(s.hist, found, name)
    ensures var o := run[j].hist[FoundAt(run[j], events[i].name, events[j].seen)][events[i].name];
            o.node == AnsweredNode(events[i]) && (AnsweredNode(events[j]) == o.node <==> events[j].node == events[i].node)
  {
    var s, name := run[j], events[i].name;
    AlwaysAlways(run, events, j);
    BirthEntry(run, events, i, j);
    assert Grows(s.hist, s.born[name], name);
    assert Older(s.hist[s.born[name]][name], s.hist[FoundAt(s, name, events[j].seen)][name]);
  }

  /** Only a resize changes the size of a volume; making it again does not. */
  lemma StepKeepsVolume(s: State, e: Event, name: Name)
    requires Enabled(s, e) && name in s.lvs && name in Next(s, e).lvs && !(e.DoResize? && e.name == name)
    ensures Next(s, e).lvs[name] == s.lvs[name]
  {
    if ApiEvent(e) { ApiKeepsNode(s, e); }
  }

  /** Between two points without a resize, with any number of creations in between, the volume is the same. */
  lemma {:induction false} VolumeStays(run: seq<State>, events: seq<Event>, k: nat, l: nat, name: Name)
    requires StartsFresh(run, events) && k <= l < |run| && forall j | k <= j <= l :: name in run[j].lvs
    requires forall j | k <= j < l :: !(events[j].DoResize? && events[j].name == name)
    ensures run[l].lvs[name] == run[k].lvs[name]
  {
    if k < l {
      VolumeStays(run, events, k, l - 1, name);
      assert StepAt(run, events, l - 1);
      StepKeepsVolume(run[l - 1], events[l - 1], name);
    }
  }
}
