/** Creating and deleting partitions (pkg/devicemanager/partition/partition.go), on values. */
module PartitionOps {
  import opened Disks

  /** The disks by path and CacheParttionNum. */
  datatype Node = Node(disks: map<string, Disk>, cache: map<string, int>)

  /** Panicked is the nil error dereferenced when no free space suffices. */
  datatype Outcome =
    | Success | Busy | ScanFailed | NoNumber | NoSpace | Shared | CommandFailed | ProbeFailed | Panicked

  datatype Found = Absent | At(number: int, part: Part)

  predicate Present(d: Disk, name: string) {
    exists k | k in d.parts :: d.parts[k].name == name
  }

  predicate OnDisk(n: Node, path: string, name: string) {
    path in n.disks && Present(n.disks[path], name)
  }

  const MAX_NUMBER := 127

  /** The lowest free number from k on, or 0. */
  function LowestFree(d: Disk, k: int): (r: int)
    requires 1 <= k
    ensures r == 0 || (k <= r <= MAX_NUMBER && r !in d.parts)
    ensures forall j | k <= j <= MAX_NUMBER :: j !in d.parts ==> k <= r <= j
    decreases MAX_NUMBER - k
  {
    if MAX_NUMBER < k then 0 else if k !in d.parts then k else LowestFree(d, k + 1)
  }

  /** Where the new partition ends: the whole gap when at most one byte would be left over. */
  function LastOf(g: Gap, size: nat): int {
    if g.last - g.start > size then g.start + size - 1 else g.last
  }

  /** CreatePartition on the scanned disk; the tool refuses an empty range. */
  function CreateOn(d: Disk, name: string, size: nat, cmd: bool): (Disk, int, Outcome) {
    var fs := FreeSpacesWithMin(d, size);
    var number := LowestFree(d, 1);
    if fs == [] then (d, 0, Panicked)
    else if number == 0 then (d, 0, NoNumber)
    else
      var last := LastOf(fs[0], size);
      if last < fs[0].start || !cmd then (d, 0, CommandFailed)
      else (d.(parts := d.parts[number := Part(name, fs[0].start, last)]), number, Success)
  }

  /**
   Which of the calls out of the process work: the two scans, the table command, partprobe; `broken`
   are the numbers whose partition cannot be deleted.
   */
  datatype Env = Env(firstScan: bool, scan: bool, cmd: bool, probe: bool, broken: set<int>)

  function Probed(env: Env): Outcome {
    if env.probe then Success else ProbeFailed
  }

  function CreatePartition(n: Node, name: string, path: string, size: nat, env: Env): (Node, Outcome) {
    if (env.firstScan && OnDisk(n, path, name)) || name == "" then (n, Success)
    else if name in n.cache then (n, Success)
    else CreateLocked(n, name, path, size, env)
  }

  /** The part of it that is done under the lock, which does not look for the name again. */
  function CreateLocked(n: Node, name: string, path: string, size: nat, env: Env): (Node, Outcome) {
    if !env.scan || path !in n.disks then (n, ScanFailed)
    else
      var (d, number, out) := CreateOn(n.disks[path], name, size, env.cmd);
      if out.Success? then (Node(n.disks[path := d], n.cache[name := number]), Probed(env)) else (n, out)
  }

  function WithoutName(d: Disk, name: string): Disk {
    d.(parts := map k | k in d.parts && d.parts[k].name != name :: d.parts[k])
  }

  /** The numbers deleted by a walk in some order, which stops at the first partition of the name that cannot be deleted. */
  function Walked(d: Disk, name: string, order: seq<int>, broken: set<int>): (set<int>, bool) {
    if order == [] then ({}, true)
    else if order[0] !in d.parts || d.parts[order[0]].name != name then Walked(d, name, order[1..], broken)
    else if order[0] in broken then ({}, false)
    else
      var rest := Walked(d, name, order[1..], broken);
      ({order[0]} + rest.0, rest.1)
  }

  function Less(d: Disk, gone: set<int>): Disk {
    d.(parts := d.parts - gone)
  }

  function DeletePartition(n: Node, name: string, path: string, order: seq<int>, env: Env): (Node, Outcome) {
    if !env.scan || path !in n.disks then (n, ScanFailed)
    else
      var (gone, ok) := Walked(n.disks[path], name, order, env.broken);
      var disks := n.disks[path := Less(n.disks[path], gone)];
      if ok then (Node(disks, n.cache - {name}), Probed(env)) else (n.(disks := disks), CommandFailed)
  }

  function DeletePartitionByPartNumber(n: Node, path: string, number: int, env: Env): (Node, Outcome) {
    if path !in n.disks || number !in n.disks[path].parts || !env.cmd then (n, CommandFailed)
    else
      var d := n.disks[path];
      (Node(n.disks[path := d.(parts := d.parts - {number})],
            map k | k in n.cache && n.cache[k] != number :: n.cache[k]), Probed(env))
  }

  /** UpdatePartition as far as the cache goes: an absent name is cached with number 0. */
  ghost function UpdatePartition(n: Node, name: string, path: string, size: nat, env: Env): (Node, Outcome) {
    var found := if env.firstScan && path in n.disks then Named(n.disks[path], name) else Absent;
    var length := if found.At? then found.part.last - found.part.start else 0;
    if size <= length then (n, Success)
    else if !env.scan || path !in n.disks then (n, ScanFailed)
    else if FreeSpacesWithMin(n.disks[path], size - (length + 1)) == [] then (n, NoSpace)
    else if 1 < |n.disks[path].parts| then (n, Shared)
    else if Present(n.disks[path], name) && !env.cmd then (n, CommandFailed)
    else
      var now := Named(n.disks[path], name);
      (n.(cache := n.cache[name := if now.At? then now.number else 0]), Probed(env))
  }

  /** GetPartition. */
  ghost function Named(d: Disk, name: string): Found {
    if k :| k in d.parts && d.parts[k].name == name then At(k, d.parts[k]) else Absent
  }

  // What one creation does.

  /** The free space chosen is the first one that is large enough. */
  lemma FirstSpace(d: Disk, size: int)
    ensures var fs := FreeSpacesWithMin(d, size);
            fs != [] ==> IsGap(d, fs[0]) && size <= Size(fs[0])
    ensures FreeSpacesWithMin(d, size) != [] <==> HasGap(d, size)
  {
    var fs := FreeSpacesWithMin(d, size);
    forall g ensures g in fs <==> IsGap(d, g) && size <= Size(g) { FreeSpacesExact(d, size, g); }
    if fs != [] { assert fs[0] in fs; }
  }

  /**
   A created partition has a number in 1..127 that was free, lies in free space, is `size` or
   `size + 1` bytes long, and everything else on the disk is as before.
   */
  lemma CreateOnMakes(d: Disk, name: string, size: nat, cmd: bool)
    requires WellFormed(d) && CreateOn(d, name, size, cmd).2.Success?
    ensures var (e, number, _) := CreateOn(d, name, size, cmd);
            && WellFormed(e) && 1 <= number <= MAX_NUMBER && number !in d.parts && number in e.parts
            && e == d.(parts := d.parts[number := e.parts[number]])
            && e.parts[number].name == name
            && size <= e.parts[number].last - e.parts[number].start + 1 <= size + 1
  {
    var fs := FreeSpacesWithMin(d, size);
    FirstSpace(d, size);
    var (e, number, _) := CreateOn(d, name, size, cmd);
    var p := e.parts[number];
    forall k | k in d.parts ensures Apart(d.parts[k], p) {
      assert Covers(d.parts[k], d.parts[k].start) && Used(d, d.parts[k].start);
      assert !Used(d, p.start) && !Covers(d.parts[k], p.start);
    }
  }

  // What a walk does.

  ghost predicate Covering(order: seq<int>, d: Disk) {
    forall k | k in d.parts :: k in order
  }

  /** Only partitions of the name are deleted, and only those that can be. */
  lemma {:induction false} WalkedAre(d: Disk, name: string, order: seq<int>, broken: set<int>, k: int)
    requires k in Walked(d, name, order, broken).0
    ensures k in d.parts && d.parts[k].name == name && k !in broken
  {
    if order[0] !in d.parts || d.parts[order[0]].name != name || k != order[0] {
      WalkedAre(d, name, order[1..], broken, k);
    }
  }

  /** A walk that ends has deleted all of the name it met. */
  lemma {:induction false} WalkedAll(d: Disk, name: string, order: seq<int>, broken: set<int>, k: int)
    requires Walked(d, name, order, broken).1 && k in order && k in d.parts && d.parts[k].name == name
    ensures k in Walked(d, name, order, broken).0
  {
    if k != order[0] { WalkedAll(d, name, order[1..], broken, k); }
  }

  /** A walk that stops has met one that cannot be deleted. */
  lemma {:induction false} StoppedAt(d: Disk, name: string, order: seq<int>, broken: set<int>) returns (k: int)
    requires !Walked(d, name, order, broken).1
    ensures k in d.parts && d.parts[k].name == name && k in broken
  {
    if order[0] in d.parts && d.parts[order[0]].name == name && order[0] in broken {
      k := order[0];
    } else {
      k := StoppedAt(d, name, order[1..], broken);
    }
  }

  /** A walk of the whole table that ends removes exactly the partitions of the name, in whatever order. */
  lemma WalkRemoves(d: Disk, name: string, order: seq<int>, broken: set<int>)
    requires Covering(order, d) && Walked(d, name, order, broken).1
    ensures Less(d, Walked(d, name, order, broken).0) == WithoutName(d, name)
  {
    var gone, w := Walked(d, name, order, broken).0, WithoutName(d, name);
    forall k ensures k in w.parts <==> k in d.parts && k !in gone {
      if k in gone { WalkedAre(d, name, order, broken, k); }
      if k in d.parts && d.parts[k].name == name { WalkedAll(d, name, order, broken, k); }
    }
    assert w.parts == d.parts - gone;
  }

  /** The walk stops after it has deleted something. */
  predicate Halfway(d: Disk, name: string, order: seq<int>, broken: set<int>) {
    var (gone, ok) := Walked(d, name, order, broken);
    !ok && gone != {}
  }

  /** That needs two partitions of one name. */
  lemma HalfwayNeedsTwo(d: Disk, name: string, order: seq<int>, broken: set<int>)
    requires SingleNames(d)
    ensures !Halfway(d, name, order, broken)
  {
    var (gone, ok) := Walked(d, name, order, broken);
    if !ok {
      var k := StoppedAt(d, name, order, broken);
      forall j ensures j !in gone {
        if j in gone { WalkedAre(d, name, order, broken, j); }
      }
    }
  }

  // What every operation keeps.

  /** Each name belongs to one disk. */
  ghost predicate AtHome(disks: map<string, Disk>, home: map<string, string>) {
    forall path, k | path in disks && k in disks[path].parts ::
      disks[path].parts[k].name in home && home[disks[path].parts[k].name] == path
  }

  ghost predicate SingleNames(d: Disk) {
    forall j, k | j in d.parts && k in d.parts && j != k :: d.parts[j].name != d.parts[k].name
  }

  /** No disk holds a name twice. */
  ghost predicate AllSingle(disks: map<string, Disk>) {
    forall path | path in disks :: SingleNames(disks[path])
  }

  /** A cached name is the name of a partition that has the cached number. */
  ghost predicate CacheLive(n: Node, home: map<string, string>) {
    forall name | name in n.cache ::
      && name in home && home[name] in n.disks
      && n.cache[name] in n.disks[home[name]].parts
      && n.disks[home[name]].parts[n.cache[name]].name == name
  }

  ghost predicate AllWellFormed(disks: map<string, Disk>) {
    forall path | path in disks :: WellFormed(disks[path])
  }

  ghost predicate Inv(n: Node, home: map<string, string>) {
    AllWellFormed(n.disks) && AtHome(n.disks, home) && CacheLive(n, home)
  }

  function With(d: Disk, number: int, p: Part): Disk {
    d.(parts := d.parts[number := p])
  }

  lemma AddAtHome(disks: map<string, Disk>, home: map<string, string>, path: string, number: int, p: Part)
    requires AtHome(disks, home) && path in disks && p.name in home && home[p.name] == path
    ensures AtHome(disks[path := With(disks[path], number, p)], home)
  {}

  lemma AddCacheLive(n: Node, home: map<string, string>, path: string, number: int, p: Part)
    requires CacheLive(n, home) && path in n.disks && number !in n.disks[path].parts
    requires p.name in home && home[p.name] == path
    ensures CacheLive(Node(n.disks[path := With(n.disks[path], number, p)], n.cache[p.name := number]), home)
  {}

  /** Every creation, its first scan working or not, keeps the tables disjoint, the names at home and the cache live. */
  lemma CreateKeepsInv(n: Node, home: map<string, string>, name: string, path: string, size: nat, env: Env)
    requires Inv(n, home) && name in home && home[name] == path
    ensures Inv(CreatePartition(n, name, path, size, env).0, home)
  {
    CreateLockedKeepsInv(n, home, name, path, size, env);
  }

  lemma CreateLockedKeepsInv(n: Node, home: map<string, string>, name: string, path: string, size: nat, env: Env)
    requires Inv(n, home) && name in home && home[name] == path
    ensures Inv(CreateLocked(n, name, path, size, env).0, home)
  {
    var (m, _) := CreateLocked(n, name, path, size, env);
    if m != n {
      var d := n.disks[path];
      CreateOnMakes(d, name, size, env.cmd);
      var (e, number, _) := CreateOn(d, name, size, env.cmd);
      AddAtHome(n.disks, home, path, number, e.parts[number]);
      AddCacheLive(n, home, path, number, e.parts[number]);
    }
  }

  /** The error of the first scan is dropped, and then the name is made a second time. */
  ghost predicate Duplicates(n: Node, name: string, path: string, size: nat, env: Env) {
    && name != "" && name !in n.cache && OnDisk(n, path, name)
    && !env.firstScan && env.scan && CreateOn(n.disks[path], name, size, env.cmd).2.Success?
  }

  lemma AddSingle(d: Disk, number: int, p: Part)
    requires SingleNames(d) && number !in d.parts
    ensures SingleNames(With(d, number, p)) <==> !Present(d, p.name)
  {
    var e := With(d, number, p);
    if k :| k in d.parts && d.parts[k].name == p.name {
      assert k in e.parts && number in e.parts && k != number;
    }
  }

  /** Only that no disk holds a name twice depends on the first scan. */
  lemma CreateKeepsSingleIff(n: Node, name: string, path: string, size: nat, env: Env)
    requires AllWellFormed(n.disks) && AllSingle(n.disks)
    ensures AllSingle(CreatePartition(n, name, path, size, env).0.disks) <==> !Duplicates(n, name, path, size, env)
  {
    CreateLockedKeepsSingleIff(n, name, path, size, env);
  }

  /** Under the lock the name is made, whether the disk has it or not. */
  ghost predicate Makes(n: Node, name: string, path: string, size: nat, env: Env) {
    env.scan && path in n.disks && CreateOn(n.disks[path], name, size, env.cmd).2.Success?
  }

  lemma CreateLockedKeepsSingleIff(n: Node, name: string, path: string, size: nat, env: Env)
    requires AllWellFormed(n.disks) && AllSingle(n.disks)
    ensures AllSingle(CreateLocked(n, name, path, size, env).0.disks) <==>
              !(Makes(n, name, path, size, env) && OnDisk(n, path, name))
  {
    var (m, _) := CreateLocked(n, name, path, size, env);
    if Makes(n, name, path, size, env) {
      var d := n.disks[path];
      CreateOnMakes(d, name, size, env.cmd);
      var (e, number, _) := CreateOn(d, name, size, env.cmd);
      AddSingle(d, number, e.parts[number]);
      assert path in m.disks && m.disks[path] == e;
    }
  }

  /** Just the name comes to the disk. */
  lemma LockedOnDisk(n: Node, name: string, path: string, size: nat, env: Env, p: string, x: string)
    requires AllWellFormed(n.disks)
    ensures OnDisk(CreateLocked(n, name, path, size, env).0, p, x) <==>
              OnDisk(n, p, x) || (p == path && x == name && Makes(n, name, path, size, env))
  {
    if Makes(n, name, path, size, env) {
      var d := n.disks[path];
      CreateOnMakes(d, name, size, env.cmd);
      var (e, number, _) := CreateOn(d, name, size, env.cmd);
      PresentWith(d, number, e.parts[number], x);
    }
  }

  lemma PresentWith(d: Disk, number: int, p: Part, x: string)
    requires number !in d.parts
    ensures Present(With(d, number, p), x) <==> Present(d, x) || x == p.name
  {
    var e := With(d, number, p);
    if k :| k in d.parts && d.parts[k].name == x { assert k in e.parts && e.parts[k].name == x; }
    assert number in e.parts && e.parts[number].name == p.name;
  }

  lemma LessKeeps(d: Disk, gone: set<int>)
    ensures WellFormed(d) ==> WellFormed(Less(d, gone))
    ensures SingleNames(d) ==> SingleNames(Less(d, gone))
  {}

  /** Taking partitions of one name off its disk, and that name out of the cache or not. */
  lemma LessKeepsInv(n: Node, home: map<string, string>, name: string, path: string, gone: set<int>)
    requires Inv(n, home) && path in n.disks
    requires forall k | k in gone :: k in n.disks[path].parts && n.disks[path].parts[k].name == name
    ensures var disks := n.disks[path := Less(n.disks[path], gone)];
            && Inv(Node(disks, n.cache - {name}), home)
            && (Inv(Node(disks, n.cache), home) <==> (name in n.cache && home[name] == path ==> n.cache[name] !in gone))
  {
    var d, disks := n.disks[path], n.disks[path := Less(n.disks[path], gone)];
    LessKeeps(d, gone);
    assert AllWellFormed(disks) && AtHome(disks, home);
    forall m | m in n.cache && m != name
      ensures n.cache[m] in disks[home[m]].parts && disks[home[m]].parts[n.cache[m]].name == m
    {
      var k := n.cache[m];
      assert n.disks[home[m]].parts[k].name == m;
      assert home[m] == path ==> k !in gone;
    }
  }

  /**
   A deletion, in whatever order, keeps them all if and only if it does not stop after it has deleted
   the number that is cached for the name.
   */
  lemma DeleteKeepsInvIff(n: Node, home: map<string, string>, name: string, path: string, order: seq<int>, env: Env)
    requires Inv(n, home)
    ensures Inv(DeletePartition(n, name, path, order, env).0, home) <==> !Orphans(n, home, name, path, order, env)
  {
    if env.scan && path in n.disks {
      var gone := Walked(n.disks[path], name, order, env.broken).0;
      forall k | k in gone ensures k in n.disks[path].parts && n.disks[path].parts[k].name == name {
        WalkedAre(n.disks[path], name, order, env.broken, k);
      }
      LessKeepsInv(n, home, name, path, gone);
    }
  }

  /** The deletion stops after it has deleted the number that is cached for the name. */
  predicate Orphans(n: Node, home: map<string, string>, name: string, path: string, order: seq<int>, env: Env) {
    && env.scan && path in n.disks && name in n.cache && name in home && home[name] == path
    && !Walked(n.disks[path], name, order, env.broken).1
    && n.cache[name] in Walked(n.disks[path], name, order, env.broken).0
  }

  lemma DeleteKeepsSingle(n: Node, home: map<string, string>, name: string, path: string, order: seq<int>, env: Env)
    requires AllSingle(n.disks)
    ensures AllSingle(DeletePartition(n, name, path, order, env).0.disks) && !Orphans(n, home, name, path, order, env)
  {
    if path in n.disks {
      LessKeeps(n.disks[path], Walked(n.disks[path], name, order, env.broken).0);
      HalfwayNeedsTwo(n.disks[path], name, order, env.broken);
    }
  }

  lemma DeleteByNumberKeepsInv(n: Node, home: map<string, string>, path: string, number: int, env: Env)
    requires Inv(n, home)
    ensures Inv(DeletePartitionByPartNumber(n, path, number, env).0, home)
    ensures AllSingle(n.disks) ==> AllSingle(DeletePartitionByPartNumber(n, path, number, env).0.disks)
  {}

  // Whole runs.

  datatype Op =
    | Create(name: string, path: string, size: nat)
    | Delete(name: string, path: string, order: seq<int>)
    | DeleteByNumber(path: string, number: int)

  function Apply(n: Node, op: Op, env: Env): (Node, Outcome) {
    match op
    case Create(name, path, size) => CreatePartition(n, name, path, size, env)
    case Delete(name, path, order) => DeletePartition(n, name, path, order, env)
    case DeleteByNumber(path, number) => DeletePartitionByPartNumber(n, path, number, env)
  }

  /** Partitions are asked for on their own disk, and no deletion leaves a dead number in the cache. */
  predicate Proper(n: Node, op: Op, env: Env, home: map<string, string>) {
    && (op.Create? ==> op.name in home && home[op.name] == op.path)
    && (op.Delete? ==> !Orphans(n, home, op.name, op.path, op.order, env))
  }

  /** Partitions are asked for on their own disk, and the first scan works. */
  predicate Scanned(op: Op, env: Env, home: map<string, string>) {
    op.Create? ==> op.name in home && home[op.name] == op.path && env.firstScan
  }

  ghost predicate IsRun(run: seq<Node>, ops: seq<Op>, envs: seq<Env>) {
    && |run| == |ops| + 1 == |envs| + 1
    && forall i | 0 <= i < |ops| :: run[i + 1] == Apply(run[i], ops[i], envs[i]).0
  }

  lemma ApplyKeepsInv(n: Node, home: map<string, string>, op: Op, env: Env)
    requires Inv(n, home) && Proper(n, op, env, home)
    ensures Inv(Apply(n, op, env).0, home)
  {
    match op
    case Create(name, path, size) => CreateKeepsInv(n, home, name, path, size, env);
    case Delete(name, path, order) => DeleteKeepsInvIff(n, home, name, path, order, env);
    case DeleteByNumber(path, number) => DeleteByNumberKeepsInv(n, home, path, number, env);
  }

  /** From an empty cache, tables stay disjoint and inside the disk and the cache stays live, whatever scans fail. */
  lemma {:induction false} InvAlways(run: seq<Node>, ops: seq<Op>, envs: seq<Env>, home: map<string, string>, i: nat)
    requires IsRun(run, ops, envs) && i < |run|
    requires forall j | 0 <= j < |ops| :: Proper(run[j], ops[j], envs[j], home)
    requires AllWellFormed(run[0].disks) && AtHome(run[0].disks, home) && run[0].cache == map[]
    ensures Inv(run[i], home)
  {
    if i > 0 {
      InvAlways(run, ops, envs, home, i - 1);
      ApplyKeepsInv(run[i - 1], home, ops[i - 1], envs[i - 1]);
    }
  }

  lemma ApplyKeepsSingle(n: Node, home: map<string, string>, op: Op, env: Env)
    requires Inv(n, home) && AllSingle(n.disks) && Scanned(op, env, home)
    ensures Proper(n, op, env, home) && AllSingle(Apply(n, op, env).0.disks)
  {
    match op
    case Create(name, path, size) => CreateKeepsSingleIff(n, name, path, size, env);
    case Delete(name, path, order) => DeleteKeepsSingle(n, home, name, path, order, env);
    case DeleteByNumber(path, number) => DeleteByNumberKeepsInv(n, home, path, number, env);
  }

  /** When the first scans work, no disk ever holds a name twice, and then no deletion stops halfway either. */
  lemma {:induction false} SingleAlways(run: seq<Node>, ops: seq<Op>, envs: seq<Env>, home: map<string, string>, i: nat)
    requires IsRun(run, ops, envs) && i < |run| && forall j | 0 <= j < |ops| :: Scanned(ops[j], envs[j], home)
    requires AllWellFormed(run[0].disks) && AtHome(run[0].disks, home) && AllSingle(run[0].disks) && run[0].cache == map[]
    ensures Inv(run[i], home) && AllSingle(run[i].disks)
  {
    if i > 0 {
      SingleAlways(run, ops, envs, home, i - 1);
      ApplyKeepsSingle(run[i - 1], home, ops[i - 1], envs[i - 1]);
      ApplyKeepsInv(run[i - 1], home, ops[i - 1], envs[i - 1]);
    }
  }

  /** A creation that reports success leaves the partition on its disk, at any point of any run. */
  lemma SuccessIsReal(run: seq<Node>, ops: seq<Op>, envs: seq<Env>, home: map<string, string>, i: nat)
    requires IsRun(run, ops, envs) && i < |ops| && ops[i].Create? && ops[i].name != ""
    requires forall j | 0 <= j < |ops| :: Proper(run[j], ops[j], envs[j], home)
    requires AllWellFormed(run[0].disks) && AtHome(run[0].disks, home) && run[0].cache == map[]
    requires Apply(run[i], ops[i], envs[i]).1.Success?
    ensures OnDisk(run[i + 1], ops[i].path, ops[i].name)
  {
    InvAlways(run, ops, envs, home, i);
    assert Proper(run[i], ops[i], envs[i], home);
    var n, name, path := run[i], ops[i].name, ops[i].path;
    if name in n.cache {
      var d, k := n.disks[path], n.cache[name];
      assert k in d.parts && d.parts[k].name == name;
    }
    CreateSuccess(run[i], ops[i].name, ops[i].path, ops[i].size, envs[i]);
  }

  /**
   In any state: success leaves the partition on the disk if and only if the name was there, or
   was neither empty nor cached.
   */
  lemma CreateSuccess(n: Node, name: string, path: string, size: nat, env: Env)
    requires CreatePartition(n, name, path, size, env).1.Success?
    ensures OnDisk(CreatePartition(n, name, path, size, env).0, path, name)
            <==> OnDisk(n, path, name) || (name != "" && name !in n.cache)
  {
    var (m, _) := CreatePartition(n, name, path, size, env);
    if m != n {
      var (e, number, _) := CreateOn(n.disks[path], name, size, env.cmd);
      assert number in m.disks[path].parts && m.disks[path].parts[number].name == name;
    }
  }

  lemma WithoutWith(d: Disk, number: int, p: Part)
    requires number !in d.parts && !Present(d, p.name)
    ensures WithoutName(With(d, number, p), p.name) == d
  {
    var e := With(d, number, p);
    forall k ensures k in d.parts <==> k in e.parts && e.parts[k].name != p.name {
      assert k in d.parts ==> d.parts[k].name != p.name;
    }
    assert WithoutName(e, p.name).parts == d.parts;
  }

  /** Creating and then deleting a new name restores the table and the cache, in whatever order the table is walked. */
  lemma DeleteUndoesCreate(n: Node, name: string, path: string, size: nat, env: Env, order: seq<int>, env2: Env)
    requires name != "" && name !in n.cache && !OnDisk(n, path, name)
    requires CreatePartition(n, name, path, size, env).1 in {Success, ProbeFailed}
    requires Covering(order, CreatePartition(n, name, path, size, env).0.disks[path]) && env2.scan && env2.broken == {}
    ensures DeletePartition(CreatePartition(n, name, path, size, env).0, name, path, order, env2).0 == n
  {
    var d := n.disks[path];
    var (m, _) := CreatePartition(n, name, path, size, env);
    var (e, number, _) := CreateOn(d, name, size, env.cmd);
    WithoutWith(d, number, e.parts[number]);
    WalkEnds(e, name, order);
    WalkRemoves(e, name, order, {});
    assert m.disks[path := d] == n.disks;
    assert m.cache - {name} == n.cache;
  }

  lemma {:induction false} WalkEnds(d: Disk, name: string, order: seq<int>)
    ensures Walked(d, name, order, {}).1
  {
    if order != [] { WalkEnds(d, name, order[1..]); }
  }

  /** An update keeps the cache live exactly when the name it caches is on the disk. */
  lemma UpdateKeepsCacheIff(n: Node, home: map<string, string>, name: string, path: string, size: nat, env: Env)
    requires Inv(n, home) && name in home && home[name] == path
    requires UpdatePartition(n, name, path, size, env).0 != n
    ensures Inv(UpdatePartition(n, name, path, size, env).0, home) <==> OnDisk(n, path, name)
  {
    var (m, _) := UpdatePartition(n, name, path, size, env);
    assert name in m.cache && m.disks == n.disks;
  }
}
