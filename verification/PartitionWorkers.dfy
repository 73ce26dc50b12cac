/**
 Any number of goroutines calling the partition manager at once. A creation looks for its name on the
 disk and in the cache before it takes the lock, and not again (pkg/devicemanager/partition/partition.go:141-155).
 What is done under the lock is one step; a lock that is taken ends the call.
 */
module PartitionWorkers {
  import opened PartitionOps
  import opened PartitionNames

  /** A call that has begun, one that has not found its name on the disk, and one that has not found it cached either. */
  datatype Pc = Begun(op: Op) | Unseen(op: Op) | Uncached(op: Op)

  datatype State = State(node: Node, workers: map<int, Pc>)

  datatype Event =
    | Begin(w: int, op: Op)
    | TestDisk(w: int, scan: bool)
    | TestCache(w: int)
    | Refuse(w: int)
    | Act(w: int, env: Env)
    | Die

  predicate MayLock(pc: Pc) {
    pc.Uncached? || (pc.Begun? && !pc.op.Create?)
  }

  function Locked(n: Node, op: Op, env: Env): Node {
    if op.Create? then CreateLocked(n, op.name, op.path, op.size, env).0 else Apply(n, op, env).0
  }

  ghost predicate Step(s: State, e: Event, s': State) {
    match e
    case Begin(w, op) => w !in s.workers && s' == s.(workers := s.workers[w := Begun(op)])
    case TestDisk(w, scan) =>
      && w in s.workers && s.workers[w].Begun? && s.workers[w].op.Create?
      && var op := s.workers[w].op;
         s' == s.(workers := if (scan && OnDisk(s.node, op.path, op.name)) || op.name == "" then s.workers - {w}
                             else s.workers[w := Unseen(op)])
    case TestCache(w) =>
      && w in s.workers && s.workers[w].Unseen? && s.workers[w].op.Create?
      && var op := s.workers[w].op;
         s' == s.(workers := if op.name in s.node.cache then s.workers - {w} else s.workers[w := Uncached(op)])
    case Refuse(w) => w in s.workers && MayLock(s.workers[w]) && s' == s.(workers := s.workers - {w})
    case Act(w, env) =>
      && w in s.workers && MayLock(s.workers[w])
      && s' == State(Locked(s.node, s.workers[w].op, env), s.workers - {w})
    case Die => s' == State(s.node.(cache := map[]), map[])
  }

  ghost predicate StepAt(run: seq<State>, events: seq<Event>, i: nat)
    requires i < |events| && |run| == |events| + 1
  {
    Step(run[i], events[i], run[i + 1])
  }

  ghost predicate IsRun(run: seq<State>, events: seq<Event>) {
    |run| == |events| + 1 && forall i: nat | i < |events| :: StepAt(run, events, i)
  }

  ghost predicate Init(s: State, home: map<string, string>) {
    AllWellFormed(s.node.disks) && AtHome(s.node.disks, home) && s.node.cache == map[] && s.workers == map[]
  }

  // Tables and cache.

  /** A creation is asked on its own disk, and a deletion leaves no dead number in the cache. */
  ghost predicate ProperAct(s: State, e: Event, home: map<string, string>) {
    e.Act? && e.w in s.workers ==>
      var op := s.workers[e.w].op;
      && (op.Create? ==> op.name in home && home[op.name] == op.path)
      && (op.Delete? ==> !Orphans(s.node, home, op.name, op.path, op.order, e.env))
  }

  lemma StepKeepsInv(s: State, e: Event, s': State, home: map<string, string>)
    requires Inv(s.node, home) && Step(s, e, s') && ProperAct(s, e, home)
    ensures Inv(s'.node, home)
  {
    if e.Act? {
      match s.workers[e.w].op
      case Create(name, path, size) => CreateLockedKeepsInv(s.node, home, name, path, size, e.env);
      case Delete(name, path, order) => DeleteKeepsInvIff(s.node, home, name, path, order, e.env);
      case DeleteByNumber(path, number) => DeleteByNumberKeepsInv(s.node, home, path, number, e.env);
    }
  }

  ghost predicate ProperAt(run: seq<State>, events: seq<Event>, home: map<string, string>, i: nat)
    requires i < |events| && |run| == |events| + 1
  {
    ProperAct(run[i], events[i], home)
  }

  /** In every interleaving, with deaths anywhere, tables stay disjoint and inside the disk and the cache stays live. */
  lemma {:induction false} InterleavedInv(run: seq<State>, events: seq<Event>, home: map<string, string>, k: nat)
    requires IsRun(run, events) && Init(run[0], home) && k < |run|
    requires forall i: nat | i < |events| :: ProperAt(run, events, home, i)
    ensures Inv(run[k].node, home)
  {
    if k > 0 {
      InterleavedInv(run, events, home, k - 1);
      assert StepAt(run, events, k - 1) && ProperAt(run, events, home, k - 1);
      StepKeepsInv(run[k - 1], events[k - 1], run[k], home);
    }
  }

  // Names made twice.

  /** No deletion brings a name. */
  lemma DeleteBringsNone(n: Node, op: Op, env: Env, path: string, name: string)
    requires !op.Create? && OnDisk(Apply(n, op, env).0, path, name)
    ensures OnDisk(n, path, name)
  {
    var m := Apply(n, op, env).0;
    var k :| k in m.disks[path].parts && m.disks[path].parts[k].name == name;
    assert k in n.disks[path].parts && n.disks[path].parts[k].name == name;
  }

  /** The step makes the name on the disk. */
  ghost predicate MakesName(s: State, e: Event, name: string, path: string) {
    && e.Act? && e.w in s.workers
    && var op := s.workers[e.w].op;
       op.Create? && op.name == name && op.path == path && Makes(s.node, name, path, op.size, e.env)
  }

  lemma OnlyCreationBrings(s: State, e: Event, s': State, name: string, path: string)
    requires AllWellFormed(s.node.disks) && Step(s, e, s') && !OnDisk(s.node, path, name)
    ensures OnDisk(s'.node, path, name) <==> MakesName(s, e, name, path)
  {
    if e.Act? {
      var op := s.workers[e.w].op;
      if op.Create? { LockedOnDisk(s.node, op.name, op.path, op.size, e.env, path, name); }
      else if OnDisk(s'.node, path, name) { DeleteBringsNone(s.node, op, e.env, path, name); }
    }
  }

  ghost predicate MakesAt(run: seq<State>, events: seq<Event>, name: string, path: string, i: nat)
    requires i < |events| && |run| == |events| + 1
  {
    MakesName(run[i], events[i], name, path)
  }

  lemma {:induction false} StillAbsent(run: seq<State>, events: seq<Event>, home: map<string, string>, t: nat, k: nat,
                                       name: string, path: string)
    requires IsRun(run, events) && Init(run[0], home) && t <= k < |run| && !OnDisk(run[t].node, path, name)
    requires forall i: nat | i < |events| :: ProperAt(run, events, home, i)
    requires forall i: nat | t <= i < k :: !MakesAt(run, events, name, path, i)
    ensures !OnDisk(run[k].node, path, name)
  {
    if t < k {
      StillAbsent(run, events, home, t, k - 1, name, path);
      InterleavedInv(run, events, home, k - 1);
      assert StepAt(run, events, k - 1) && !MakesAt(run, events, name, path, k - 1);
      OnlyCreationBrings(run[k - 1], events[k - 1], run[k], name, path);
    }
  }

  /**
   A name that a scan did not find and that is on the disk later was made by a call in between. A
   creation that scanned before that call makes the name a second time.
   */
  lemma TwinWasMade(run: seq<State>, events: seq<Event>, home: map<string, string>, t: nat, k: nat, name: string, path: string)
    requires IsRun(run, events) && Init(run[0], home) && t <= k < |run|
    requires forall i: nat | i < |events| :: ProperAt(run, events, home, i)
    requires !OnDisk(run[t].node, path, name) && OnDisk(run[k].node, path, name)
    ensures exists i: nat :: t <= i < k && MakesAt(run, events, name, path, i)
  {
    if forall i: nat | t <= i < k :: !MakesAt(run, events, name, path, i) {
      StillAbsent(run, events, home, t, k, name, path);
    }
  }

  /** No two creations of one name are under way, and what has passed the scan is not on its disk. */
  ghost predicate Apart(s: State) {
    && AllSingle(s.node.disks)
    && (forall v, w | v in s.workers && w in s.workers && v != w :: !SameName(s.workers[v].op, s.workers[w].op))
    && (forall w | w in s.workers && s.workers[w].op.Create? && !s.workers[w].Begun? ::
          !OnDisk(s.node, s.workers[w].op.path, s.workers[w].op.name))
  }

  predicate SameName(a: Op, b: Op) {
    a.Create? && b.Create? && a.name == b.name
  }

  /** First scans work, and a creation begins only when no other of that name is under way. */
  ghost predicate Alone(s: State, e: Event) {
    && (e.TestDisk? ==> e.scan)
    && (e.Begin? ==> forall w | w in s.workers :: !SameName(s.workers[w].op, e.op))
  }

  lemma ActKeepsApart(s: State, e: Event, s': State, home: map<string, string>)
    requires Apart(s) && Inv(s.node, home) && Step(s, e, s') && e.Act?
    ensures Apart(s')
  {
    var op := s.workers[e.w].op;
    match op {
      case Create(name, path, size) => CreateLockedKeepsSingleIff(s.node, name, path, size, e.env);
      case Delete(name, path, order) => DeleteKeepsSingle(s.node, home, name, path, order, e.env);
      case DeleteByNumber(path, number) => DeleteByNumberKeepsInv(s.node, home, path, number, e.env);
    }
    forall w | w in s'.workers && s'.workers[w].op.Create? && !s'.workers[w].Begun?
      ensures !OnDisk(s'.node, s'.workers[w].op.path, s'.workers[w].op.name)
    {
      var o := s.workers[w].op;
      OnlyCreationBrings(s, e, s', o.name, o.path);
      assert !SameName(o, op);
    }
  }

  lemma StepKeepsApart(s: State, e: Event, s': State, home: map<string, string>)
    requires Apart(s) && Inv(s.node, home) && Step(s, e, s') && Alone(s, e)
    ensures Apart(s')
  {
    if e.Act? { ActKeepsApart(s, e, s', home); }
  }

  ghost predicate AloneAt(run: seq<State>, events: seq<Event>, i: nat)
    requires i < |events| && |run| == |events| + 1
  {
    Alone(run[i], events[i])
  }

  /** In every interleaving in which no two creations of one name are under way together, no disk ever holds a name twice. */
  lemma {:induction false} InterleavedSingle(run: seq<State>, events: seq<Event>, home: map<string, string>, k: nat)
    requires IsRun(run, events) && Init(run[0], home) && AllSingle(run[0].node.disks) && k < |run|
    requires forall i: nat | i < |events| :: ProperAt(run, events, home, i) && AloneAt(run, events, i)
    ensures Apart(run[k])
  {
    if k > 0 {
      InterleavedSingle(run, events, home, k - 1);
      InterleavedInv(run, events, home, k - 1);
      assert StepAt(run, events, k - 1) && AloneAt(run, events, k - 1);
      StepKeepsApart(run[k - 1], events[k - 1], run[k], home);
    }
  }

  // Two objects that share what follows the last dash.

  /** Two creations of one name, both past their tests. */
  lemma BothPassed(n: Node, name: string, path: string, size: nat) returns (run: seq<State>, events: seq<Event>)
    requires name != "" && name !in n.cache && !OnDisk(n, path, name)
    ensures IsRun(run, events) && run[0] == State(n, map[])
    ensures var op := Create(name, path, size); run[|run| - 1] == State(n, map[1 := Uncached(op), 2 := Uncached(op)])
  {
    var op := Create(name, path, size);
    run := [State(n, map[]), State(n, map[1 := Begun(op)]), State(n, map[1 := Begun(op), 2 := Begun(op)]),
            State(n, map[1 := Unseen(op), 2 := Begun(op)]), State(n, map[1 := Unseen(op), 2 := Unseen(op)]),
            State(n, map[1 := Uncached(op), 2 := Unseen(op)]), State(n, map[1 := Uncached(op), 2 := Uncached(op)])];
    events := [Begin(1, op), Begin(2, op), TestDisk(1, true), TestDisk(2, true), TestCache(1), TestCache(2)];
    assert Step(run[0], events[0], run[1]) && Step(run[1], events[1], run[2]);
    assert Step(run[2], events[2], run[3]) && Step(run[3], events[3], run[4]);
    assert Step(run[4], events[4], run[5]) && Step(run[5], events[5], run[6]);
  }

  lemma OneMore(run: seq<State>, events: seq<Event>, e: Event, s: State)
    requires IsRun(run, events) && Step(run[|run| - 1], e, s)
    ensures IsRun(run + [s], events + [e])
  {
    forall i: nat | i < |events + [e]| ensures StepAt(run + [s], events + [e], i) {
      if i < |events| { assert StepAt(run, events, i); }
    }
  }

  /**
   Objects a and b share their partition name. If the disk has room for both, there is a run, every
   scan working, after which the disk holds the name twice.
   */
  lemma SharedNameMadeTwice(n: Node, a: string, b: string, path: string, size: nat, env: Env)
    returns (run: seq<State>, events: seq<Event>)
    requires LastSegment(a) == LastSegment(b) && AllWellFormed(n.disks)
    requires PartitionName(a) !in n.cache && !OnDisk(n, path, PartitionName(a)) && Makes(n, PartitionName(a), path, size, env)
    requires Makes(CreateLocked(n, PartitionName(a), path, size, env).0, PartitionName(b), path, size, env)
    ensures IsRun(run, events) && run[0] == State(n, map[]) && !AllSingle(run[|run| - 1].node.disks)
  {
    run, events := MadeTwice(n, PartitionName(a), path, size, env);
  }

  lemma MadeTwice(n: Node, name: string, path: string, size: nat, env: Env) returns (run: seq<State>, events: seq<Event>)
    requires name != "" && AllWellFormed(n.disks) && name !in n.cache && !OnDisk(n, path, name) && Makes(n, name, path, size, env)
    requires Makes(CreateLocked(n, name, path, size, env).0, name, path, size, env)
    ensures IsRun(run, events) && run[0] == State(n, map[]) && !AllSingle(run[|run| - 1].node.disks)
  {
    var n1 := CreateLocked(n, name, path, size, env).0;
    var n2 := CreateLocked(n1, name, path, size, env).0;
    var s1, s2 := State(n1, map[2 := Uncached(Create(name, path, size))]), State(n2, map[]);
    run, events := BothPassed(n, name, path, size);
    BothAct(n, n1, n2, Create(name, path, size), env);
    OneMore(run, events, Act(1, env), s1);
    run, events := run + [s1], events + [Act(1, env)];
    OneMore(run, events, Act(2, env), s2);
    run, events := run + [s2], events + [Act(2, env)];
    SecondIsTwin(n, n1, name, path, size, env);
  }

  lemma BothAct(n: Node, n1: Node, n2: Node, op: Op, env: Env)
    requires op.Create? && n1 == CreateLocked(n, op.name, op.path, op.size, env).0
    requires n2 == CreateLocked(n1, op.name, op.path, op.size, env).0
    ensures Step(State(n, map[1 := Uncached(op), 2 := Uncached(op)]), Act(1, env), State(n1, map[2 := Uncached(op)]))
    ensures Step(State(n1, map[2 := Uncached(op)]), Act(2, env), State(n2, map[]))
  {
    assert map[1 := Uncached(op), 2 := Uncached(op)] - {1} == map[2 := Uncached(op)];
    assert map[2 := Uncached(op)] - {2} == map[];
  }

  /** The second creation finds the name of the first on the disk. */
  lemma SecondIsTwin(n: Node, n1: Node, name: string, path: string, size: nat, env: Env)
    requires AllWellFormed(n.disks) && Makes(n, name, path, size, env) && n1 == CreateLocked(n, name, path, size, env).0
    requires Makes(n1, name, path, size, env)
    ensures !AllSingle(CreateLocked(n1, name, path, size, env).0.disks)
  {
    var d, d1 := n.disks[path], n1.disks[path];
    CreateOnMakes(d, name, size, env.cmd);
    CreateOnMakes(d1, name, size, env.cmd);
    var k, l := CreateOn(d, name, size, env.cmd).1, CreateOn(d1, name, size, env.cmd).1;
    var d2 := CreateLocked(n1, name, path, size, env).0.disks[path];
    assert k in d2.parts && l in d2.parts && k != l && d2.parts[k].name == d2.parts[l].name;
  }
}
