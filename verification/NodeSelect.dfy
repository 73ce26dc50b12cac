/** The choice of a node and a device group (pkg/csidriver/driver/k8s/node_service.go). */
module NodeSelect {
  import opened Sorting
  import opened Wrappers
  import opened Text

  datatype VolumeType = LvmVolume | RawVolume | OtherVolume
  datatype Policy = Binpack | Spreadout | Unsupported

  /** A published group, `group/disk` for raw disks; `group` is the part before the slash. */
  datatype Group = Group(name: string, group: string, raw: bool, ours: bool, allocatable: int)

  datatype Disk = Disk(name: string, partitions: nat)

  /** What the controller sees of a node; a failed lookup is None. */
  datatype Node = Node(name: string, ready: bool, inTopology: bool, groups: Option<seq<Group>>, disks: seq<Disk>)

  datatype LogicVolume = LogicVolume(node: string, group: string, exclusive: bool)

  /** The LogicVolume objects as the controller's cache and the server have them; a failed list is None. */
  datatype View = View(cached: Option<seq<LogicVolume>>, server: Option<seq<LogicVolume>>)

  // The disks that exclusive volumes have.

  function ByNode(objects: seq<LogicVolume>, node: string): seq<LogicVolume> {
    if objects == [] then []
    else (if objects[0].node == node then [objects[0]] else []) + ByNode(objects[1..], node)
  }

  lemma {:induction false} ByNodeExact(objects: seq<LogicVolume>, node: string, o: LogicVolume)
    ensures o in ByNode(objects, node) <==> o in objects && o.node == node
  {
    if objects != [] { ByNodeExact(objects[1..], node, o); }
  }

  /** GetByNodeName: the server is asked only when the cache has no object of the node. */
  function ReadByNode(v: View, node: string): Option<seq<LogicVolume>> {
    if v.cached.None? then None
    else if ByNode(v.cached.value, node) != [] then Some(ByNode(v.cached.value, node))
    else if v.server.None? then None
    else Some(ByNode(v.server.value, node))
  }

  /** An exclusive volume of the node, among the objects read, has the disk. */
  ghost predicate Held(v: View, node: string, group: string) {
    ReadByNode(v, node).Some? &&
      exists o :: o in ReadByNode(v, node).value && o.node == node && o.exclusive && o.group == group
  }

  /** getLvExclusivityDisks. */
  method GetLvExclusivityDisks(v: View, node: string) returns (disks: Option<set<string>>)
    ensures disks.Some? <==> ReadByNode(v, node).Some?
    ensures disks.Some? ==> forall g :: g in disks.value <==> Held(v, node, g)
  {
    var read := ReadByNode(v, node);
    if read.None? { return None; }
    var r: set<string> := {};
    for i := 0 to |read.value|
      invariant forall g :: g in r <==> exists k | 0 <= k < i :: read.value[k].exclusive && read.value[k].group == g
    {
      if read.value[i].exclusive { r := r + {read.value[i].group}; }
    }
    forall g ensures g in r <==> Held(v, node, g) { HeldExact(v, node, g); }
    return Some(r);
  }

  lemma HeldExact(v: View, node: string, g: string)
    requires ReadByNode(v, node).Some?
    ensures var read := ReadByNode(v, node).value;
            Held(v, node, g) <==> exists k | 0 <= k < |read| :: read[k].exclusive && read[k].group == g
  {
    var read := ReadByNode(v, node).value;
    forall o | o in read ensures o.node == node {
      ByNodeExact(v.cached.value, node, o);
      if v.server.Some? { ByNodeExact(v.server.value, node, o); }
    }
    forall k | 0 <= k < |read| ensures read[k] in read {}
  }

  datatype Request = Request(gb: int, kind: VolumeType, group: string, exclusive: bool)

  datatype Pair = Pair(node: string, group: string, allocatable: int)

  datatype Choice = Chosen(node: string, group: string) | NotFound | BadPolicy

  /** The node's disk of that group shows more than one partition. */
  predicate Crowded(disks: seq<Disk>, g: Group) {
    exists i | 0 <= i < |disks| :: Contains(g.name, disks[i].name) && disks[i].partitions > 1
  }

  predicate Usable(v: View, n: Node, q: Request) {
    n.ready && n.inTopology && n.groups.Some? && (q.kind.RawVolume? ==> ReadByNode(v, n.name).Some?)
  }

  predicate Suits(n: Node, g: Group, q: Request) {
    && q.gb <= g.allocatable && g.ours && (q.group == "" || q.group == g.group)
    && match q.kind
       case RawVolume => g.raw && !(q.exclusive && Crowded(n.disks, g))
       case LvmVolume => !g.raw
       case OtherVolume => false
  }

  ghost predicate Fits(v: View, n: Node, g: Group, q: Request) {
    Suits(n, g, q) && (q.kind.RawVolume? ==> !Held(v, n.name, g.name))
  }

  /** Passing every filter. */
  ghost predicate Candidate(v: View, nodes: seq<Node>, q: Request, p: Pair) {
    exists i, j :: Stands(v, nodes, q, i, j, p)
  }

  ghost predicate Stands(v: View, nodes: seq<Node>, q: Request, i: int, j: int, p: Pair) {
    && 0 <= i < |nodes| && Usable(v, nodes[i], q) && 0 <= j < |nodes[i].groups.value|
    && var g := nodes[i].groups.value[j];
       Fits(v, nodes[i], g, q) && p == Pair(nodes[i].name, g.name, g.allocatable)
  }

  method Preselect(v: View, nodes: seq<Node>, q: Request) returns (pairs: seq<Pair>)
    ensures forall p :: p in pairs <==> Candidate(v, nodes, q, p)
  {
    pairs := [];
    for i := 0 to |nodes|
      invariant forall p :: p in pairs <==> Candidate(v, nodes[..i], q, p)
    {
      ghost var before := pairs;
      var n := nodes[i];
      if n.ready && n.inTopology && n.groups.Some? {
        var disks: Option<set<string>> := Some({});
        if q.kind.RawVolume? {
          disks := GetLvExclusivityDisks(v, n.name);
        }
        if disks.Some? {
          for j := 0 to |n.groups.value|
            invariant forall p :: p in pairs <==> p in before || exists k :: 0 <= k < j && Stands(v, nodes, q, i, k, p)
          {
            var g := n.groups.value[j];
            if Suits(n, g, q) && g.name !in disks.value {
              assert Stands(v, nodes, q, i, j, Pair(n.name, g.name, g.allocatable));
              pairs := pairs + [Pair(n.name, g.name, g.allocatable)];
            }
          }
        }
      }
      assert forall p :: p in pairs <==> p in before || exists k :: Stands(v, nodes, q, i, k, p);
      ghost var seen := nodes[..i + 1];
      forall p ensures p in pairs <==> Candidate(v, seen, q, p) {
        CandidateStep(v, nodes, q, i, p);
      }
    }
    assert nodes[..|nodes|] == nodes;
  }

  lemma CandidateStep(v: View, nodes: seq<Node>, q: Request, i: nat, p: Pair)
    requires i < |nodes|
    ensures Candidate(v, nodes[..i + 1], q, p) <==> Candidate(v, nodes[..i], q, p) || exists k :: Stands(v, nodes, q, i, k, p)
  {
    var next, now := nodes[..i + 1], nodes[..i];
    if a, k :| Stands(v, next, q, a, k, p) {
      assert if a < i then Stands(v, now, q, a, k, p) else Stands(v, nodes, q, i, k, p);
    }
    if a, k :| Stands(v, now, q, a, k, p) { assert Stands(v, next, q, a, k, p); }
    if k :| Stands(v, nodes, q, i, k, p) { assert Stands(v, next, q, i, k, p); }
  }

  /** For any order of nodes and groups: what is chosen, and when nothing is. */
  ghost predicate GoodChoice(v: View, nodes: seq<Node>, q: Request, policy: Policy, c: Choice) {
    match c
    case NotFound => forall p :: !Candidate(v, nodes, q, p)
    case BadPolicy => policy.Unsupported? && exists p :: Candidate(v, nodes, q, p)
    case Chosen(node, group) => exists p: Pair :: p.node == node && p.group == group && Best(v, nodes, q, policy, p)
  }

  ghost predicate Best(v: View, nodes: seq<Node>, q: Request, policy: Policy, p: Pair) {
    && Candidate(v, nodes, q, p)
    && forall o | Candidate(v, nodes, q, o) ::
         match policy
         case Binpack => p.allocatable <= o.allocatable
         case Spreadout => o.allocatable <= p.allocatable
         case Unsupported => o == p
  }

  method SelectNode(v: View, nodes: seq<Node>, q: Request, policy: Policy) returns (c: Choice)
    ensures GoodChoice(v, nodes, q, policy, c)
  {
    var pairs := Preselect(v, nodes, q);
    if |pairs| < 1 { return NotFound; }
    assert pairs[0] in pairs;
    if |pairs| == 1 {
      assert Best(v, nodes, q, policy, pairs[0]);
      return Chosen(pairs[0].node, pairs[0].group);
    }
    var a := new Pair[|pairs|](i requires 0 <= i < |pairs| => pairs[i]);
    assert a[..] == pairs;
    SortBy(a, (p: Pair) => p.allocatable);
    SameMembers(a[..], pairs);
    if policy.Unsupported? { return BadPolicy; }
    var pick := if policy.Binpack? then a[0] else a[a.Length - 1];
    assert pick in a[..];
    forall o | Candidate(v, nodes, q, o)
      ensures if policy.Binpack? then pick.allocatable <= o.allocatable else o.allocatable <= pick.allocatable
    {
      assert o in a[..];
    }
    assert Best(v, nodes, q, policy, pick);
    return Chosen(pick.node, pick.group);
  }

  datatype DeviceChoice = Device(group: string) | NoDevice | UnknownPolicy | LookupFailed

  /** What is chosen among the groups of one node, and when nothing is. */
  ghost predicate GoodDevice(v: View, n: Node, q: Request, policy: Policy, c: DeviceChoice) {
    match c
    case LookupFailed => n.groups.None? || (q.kind.RawVolume? && ReadByNode(v, n.name).None?)
    case Device(group) => GoodChoice(v, [Ready(n)], q, policy, Chosen(n.name, group))
    case NoDevice => GoodChoice(v, [Ready(n)], q, policy, NotFound)
    case UnknownPolicy => GoodChoice(v, [Ready(n)], q, policy, BadPolicy)
  }

  /** Readiness and topology are not asked of a node that is already selected. */
  function Ready(n: Node): Node {
    n.(ready := true, inTopology := true)
  }

  /** SelectDeviceGroup: an LVM claim with a group keeps it, any other gets a group of the node by policy. */
  method SelectDeviceGroup(v: View, n: Node, q: Request, policy: Policy) returns (c: DeviceChoice)
    ensures q.kind.LvmVolume? && q.group != "" ==> c == Device(q.group)
    ensures !(q.kind.LvmVolume? && q.group != "") ==> GoodDevice(v, n, q, policy, c)
  {
    if q.kind.LvmVolume? && q.group != "" { return Device(q.group); }
    if n.groups.None? || (q.kind.RawVolume? && ReadByNode(v, n.name).None?) { return LookupFailed; }
    var choice := SelectNode(v, [Ready(n)], q, policy);
    match choice
    case Chosen(node, group) =>
      c := Device(group);
      assert node == n.name;
    case NotFound => c := NoDevice;
    case BadPolicy => c := UnknownPolicy;
  }

  lemma SameMembers(s: seq<Pair>, t: seq<Pair>)
    requires multiset(s) == multiset(t)
    ensures forall p :: p in s <==> p in t
  {
    forall p ensures p in s <==> p in t {
      assert p in multiset(s) <==> p in multiset(t);
    }
  }

  /** A raw choice is never a disk that an exclusive LogicVolume of that node, among the objects read, already has. */
  lemma NeverExclusiveTwice(v: View, nodes: seq<Node>, q: Request, policy: Policy, c: Choice, o: LogicVolume)
    requires GoodChoice(v, nodes, q, policy, c) && c.Chosen? && q.kind.RawVolume?
    requires o.exclusive && o.node == c.node && o.group == c.group
    ensures v.cached.Some? && o !in v.cached.value
    ensures ByNode(v.cached.value, c.node) == [] ==> v.server.Some? && o !in v.server.value
  {
    var p: Pair :| p.node == c.node && p.group == c.group && Best(v, nodes, q, policy, p);
    var i, j :| Stands(v, nodes, q, i, j, p);
    ByNodeExact(v.cached.value, c.node, o);
    if v.server.Some? { ByNodeExact(v.server.value, c.node, o); }
    assert !Held(v, nodes[i].name, p.group);
  }

  /** So a disk that an exclusive volume has at the server is chosen exactly when the cache has other volumes of the node. */
  lemma ExclusiveMissedIff(v: View, n: Node, g: Group, q: Request, o: LogicVolume)
    requires Usable(v, n, q) && Suits(n, g, q) && q.kind.RawVolume? && v.server.Some?
    requires o in v.server.value && o.exclusive && o.node == n.name && o.group == g.name
    ensures Fits(v, n, g, q) <==>
              ByNode(v.cached.value, n.name) != []
              && forall c | c in v.cached.value && c.node == n.name :: !(c.exclusive && c.group == g.name)
  {
    ByNodeExact(v.server.value, n.name, o);
    forall c ensures c in ByNode(v.cached.value, n.name) <==> c in v.cached.value && c.node == n.name {
      ByNodeExact(v.cached.value, n.name, c);
    }
  }

  // A second choice for the same request, after the first one was granted.

  /** Group j of node i has so much less to allocate. */
  function Granted(nodes: seq<Node>, i: nat, j: nat, gb: int): seq<Node>
    requires i < |nodes| && nodes[i].groups.Some? && j < |nodes[i].groups.value|
  {
    var gs := nodes[i].groups.value;
    nodes[i := nodes[i].(groups := Some(gs[j := gs[j].(allocatable := gs[j].allocatable - gb)]))]
  }

  /** No other group of the nodes has these names. */
  ghost predicate OnlyOne(nodes: seq<Node>, i: nat, j: nat)
    requires i < |nodes| && nodes[i].groups.Some? && j < |nodes[i].groups.value|
  {
    forall k: nat, l: nat | k < |nodes| && nodes[k].groups.Some? && l < |nodes[k].groups.value| && (k, l) != (i, j) ::
      nodes[k].name != nodes[i].name || nodes[k].groups.value[l].name != nodes[i].groups.value[j].name
  }

  lemma OthersStand(v: View, nodes: seq<Node>, q: Request, i: nat, j: nat, k: int, l: int, p: Pair)
    requires i < |nodes| && nodes[i].groups.Some? && j < |nodes[i].groups.value| && q.kind.LvmVolume? && (k, l) != (i, j)
    ensures Stands(v, Granted(nodes, i, j, q.gb), q, k, l, p) <==> Stands(v, nodes, q, k, l, p)
  {}

  lemma LeftStands(v: View, nodes: seq<Node>, q: Request, i: nat, j: nat, p: Pair)
    requires q.kind.LvmVolume? && Stands(v, nodes, q, i, j, p)
    ensures forall o :: Stands(v, Granted(nodes, i, j, q.gb), q, i, j, o) <==>
              q.gb <= p.allocatable - q.gb && o == p.(allocatable := p.allocatable - q.gb)
  {}

  /**
   Binpack chooses the same group again if and only if what is left of it still suffices; so a
   creation that is repeated without a selected node may be answered with another node.
   */
  lemma BinpackAgainIff(v: View, nodes: seq<Node>, q: Request, i: nat, j: nat, p: Pair, c: Choice)
    requires q.kind.LvmVolume? && 0 < q.gb && Stands(v, nodes, q, i, j, p) && OnlyOne(nodes, i, j)
    requires Best(v, nodes, q, Binpack, p) && GoodChoice(v, Granted(nodes, i, j, q.gb), q, Binpack, c)
    ensures c == Chosen(p.node, p.group) <==> 2 * q.gb <= p.allocatable
  {
    var nodes', left := Granted(nodes, i, j, q.gb), p.(allocatable := p.allocatable - q.gb);
    LeftStands(v, nodes, q, i, j, p);
    if 2 * q.gb <= p.allocatable {
      assert Stands(v, nodes', q, i, j, left);
      assert Candidate(v, nodes', q, left);
      var o: Pair :| c == Chosen(o.node, o.group) && Best(v, nodes', q, Binpack, o);
      var k, l :| Stands(v, nodes', q, k, l, o);
      if (k, l) != (i, j) {
        OthersStand(v, nodes, q, i, j, k, l, o);
        assert Candidate(v, nodes, q, o);
      }
    } else if c.Chosen? {
      var o: Pair :| c == Chosen(o.node, o.group) && Best(v, nodes', q, Binpack, o);
      var k, l :| Stands(v, nodes', q, k, l, o);
      OthersStand(v, nodes, q, i, j, k, l, o);
      assert 0 <= k < |nodes| && nodes[k].groups.Some? && 0 <= l < |nodes[k].groups.value|;
    }
  }

  /** Spreadout leaves it as soon as another candidate has more than what is left. */
  lemma SpreadoutMovesOn(v: View, nodes: seq<Node>, q: Request, i: nat, j: nat, p: Pair, o: Pair, c: Choice)
    requires q.kind.LvmVolume? && Stands(v, nodes, q, i, j, p) && OnlyOne(nodes, i, j)
    requires Candidate(v, nodes, q, o) && p.allocatable - q.gb < o.allocatable && o != p
    requires GoodChoice(v, Granted(nodes, i, j, q.gb), q, Spreadout, c)
    ensures c.Chosen? && c != Chosen(p.node, p.group)
  {
    var nodes' := Granted(nodes, i, j, q.gb);
    LeftStands(v, nodes, q, i, j, p);
    var k, l :| Stands(v, nodes, q, k, l, o);
    assert (k, l) != (i, j);
    OthersStand(v, nodes, q, i, j, k, l, o);
    assert Candidate(v, nodes', q, o);
    var b: Pair :| c == Chosen(b.node, b.group) && Best(v, nodes', q, Spreadout, b);
    assert o.allocatable <= b.allocatable;
    var m, n :| Stands(v, nodes', q, m, n, b);
    assert (m, n) != (i, j);
    OthersStand(v, nodes, q, i, j, m, n, b);
    assert 0 <= m < |nodes| && nodes[m].groups.Some? && 0 <= n < |nodes[m].groups.value|;
  }

  ghost predicate InUse(disks: seq<Disk>, g: Group) {
    exists i | 0 <= i < |disks| :: Contains(g.name, disks[i].name) && disks[i].partitions > 0
  }

  /** The disks of the group have at most one partition, and some disk has one. */
  ghost predicate OnePartition(disks: seq<Disk>, g: Group) {
    && (forall i | 0 <= i < |disks| && Contains(g.name, disks[i].name) :: disks[i].partitions <= 1)
    && (exists i | 0 <= i < |disks| && Contains(g.name, disks[i].name) :: disks[i].partitions == 1)
  }

  /** The test is `> 1`: an exclusive request gets a disk in use exactly when the disk has one partition. */
  lemma ExclusiveOnUsedDiskIff(v: View, n: Node, g: Group, q: Request)
    requires q.kind.RawVolume? && q.exclusive && !Held(v, n.name, g.name)
    requires q.gb <= g.allocatable && g.ours && g.raw && (q.group == "" || q.group == g.group)
    ensures Fits(v, n, g, q) && InUse(n.disks, g) <==> OnePartition(n.disks, g)
  {
    if Fits(v, n, g, q) && InUse(n.disks, g) {
      var i :| 0 <= i < |n.disks| && Contains(g.name, n.disks[i].name) && n.disks[i].partitions > 0;
      assert n.disks[i].partitions == 1;
    }
  }
}
