/**
 The disks the controller chooses for the raw claims of a pod, one claim after the other
 (SelectDeviceGroup of pkg/csidriver/driver/k8s/node_service.go), against the disks the
 scheduler's filter had in mind.
 */
module DiskChoice {
  import opened Wrappers
  import opened RawFilter
  import opened Units
  import NodeSelect
  import Partition = Disks
  import PartitionOps
  import PartitionPlan

  /** A raw disk of the group as published: what is free, its partitions, and whether an exclusive volume has it. */
  datatype Slot = Slot(free: int, partitions: nat, held: bool)

  /** A disk with more than one partition is not given to an exclusive claim. */
  predicate Choosable(d: Slot, r: PvcRequest) {
    !d.held && Need(r) <= d.free && !(r.exclusive && d.partitions > 1)
  }

  predicate Before(policy: NodeSelect.Policy, a: Slot, b: Slot) {
    if policy.Binpack? then a.free <= b.free else b.free <= a.free
  }

  /** Disk i may be the one chosen: the sort leaves the order of equal disks open. */
  ghost predicate Picks(disks: seq<Slot>, r: PvcRequest, policy: NodeSelect.Policy, i: nat) {
    && i < |disks| && Choosable(disks[i], r)
    && forall j | 0 <= j < |disks| && Choosable(disks[j], r) :: Before(policy, disks[i], disks[j])
  }

  /** The claim's partition is made and the new numbers are published. */
  function Given(disks: seq<Slot>, r: PvcRequest, i: nat): seq<Slot>
    requires i < |disks|
  {
    disks[i := Slot(disks[i].free - Need(r), disks[i].partitions + 1, r.exclusive)]
  }

  /** Every claim gets a disk, whatever choices are made. */
  ghost predicate Builds(disks: seq<Slot>, claims: seq<PvcRequest>, policy: NodeSelect.Policy)
    decreases |claims|
  {
    claims == [] ||
      ((exists i :: Picks(disks, claims[0], policy, i)) &&
        forall i: nat | Picks(disks, claims[0], policy, i) :: Builds(Given(disks, claims[0], i), claims[1..], policy))
  }

  // The choice is the one of SelectDeviceGroup.

  /** The slots are the groups of the node as the controller sees them. */
  ghost predicate Shows(v: NodeSelect.View, n: NodeSelect.Node, group: string, disks: seq<Slot>) {
    && n.groups.Some? && |n.groups.value| == |disks| && NodeSelect.ReadByNode(v, n.name).Some?
    && forall i | 0 <= i < |disks| :: ShowsDisk(v, n, group, n.groups.value[i], disks[i])
  }

  ghost predicate ShowsDisk(v: NodeSelect.View, n: NodeSelect.Node, group: string, g: NodeSelect.Group, d: Slot) {
    && g.ours && g.raw && g.group == group && g.allocatable == d.free
    && (NodeSelect.Held(v, n.name, g.name) <==> d.held)
    && (NodeSelect.Crowded(n.disks, g) <==> d.partitions > 1)
  }

  function Asking(r: PvcRequest, group: string): NodeSelect.Request {
    NodeSelect.Request(Need(r), NodeSelect.RawVolume, group, r.exclusive)
  }

  lemma FitsIffChoosable(v: NodeSelect.View, n: NodeSelect.Node, group: string, disks: seq<Slot>, r: PvcRequest, i: nat)
    requires Shows(v, n, group, disks) && i < |disks|
    ensures NodeSelect.Fits(v, NodeSelect.Ready(n), n.groups.value[i], Asking(r, group)) <==> Choosable(disks[i], r)
  {
    assert ShowsDisk(v, n, group, n.groups.value[i], disks[i]);
  }

  /** What SelectDeviceGroup chooses is a disk picked by the policy, and it finds none exactly when none can be picked. */
  lemma ChoiceIsPick(v: NodeSelect.View, n: NodeSelect.Node, group: string, disks: seq<Slot>, r: PvcRequest,
                     policy: NodeSelect.Policy, c: NodeSelect.DeviceChoice)
    requires Shows(v, n, group, disks) && !policy.Unsupported?
    requires NodeSelect.GoodDevice(v, n, Asking(r, group), policy, c)
    ensures c.Device? ==> exists i: nat :: Picks(disks, r, policy, i) && n.groups.value[i].name == c.group
    ensures !c.Device? ==> forall i: nat | i < |disks| :: !Choosable(disks[i], r)
  {
    var q, nodes := Asking(r, group), [NodeSelect.Ready(n)];
    forall i: nat | i < |disks|
      ensures Choosable(disks[i], r) <==> NodeSelect.Stands(v, nodes, q, 0, i, PairOf(n, i))
      ensures Choosable(disks[i], r) ==> NodeSelect.Candidate(v, nodes, q, PairOf(n, i))
    {
      FitsIffChoosable(v, n, group, disks, r, i);
    }
    if c.Device? {
      var p: NodeSelect.Pair :| p.group == c.group && NodeSelect.Best(v, nodes, q, policy, p);
      assert NodeSelect.Best(v, nodes, q, policy, p);
      assert NodeSelect.Candidate(v, nodes, q, p);
      var k, j :| NodeSelect.Stands(v, nodes, q, k, j, p);
      assert k == 0 && 0 <= j < |disks|;
      var i: nat := j;
      assert Choosable(disks[i], r);
      forall j | 0 <= j < |disks| && Choosable(disks[j], r) ensures Before(policy, disks[i], disks[j]) {
        assert ShowsDisk(v, n, group, n.groups.value[j], disks[j]) && ShowsDisk(v, n, group, n.groups.value[i], disks[i]);
      }
      assert Picks(disks, r, policy, i);
    }
  }

  function PairOf(n: NodeSelect.Node, i: nat): NodeSelect.Pair
    requires n.groups.Some? && i < |n.groups.value|
  {
    var g := n.groups.value[i];
    NodeSelect.Pair(n.name, g.name, g.allocatable)
  }

  // Binpack against the filter.

  /** What the filter counts of a disk. */
  function Value(d: Slot): int {
    if d.held then 0 else d.free
  }

  function Values(disks: seq<Slot>): (s: seq<int>)
    ensures |s| == |disks| && forall i | 0 <= i < |s| :: s[i] == Value(disks[i])
  {
    seq(|disks|, i requires 0 <= i < |disks| => Value(disks[i]))
  }

  predicate ExclusivesFirst(claims: seq<PvcRequest>) {
    forall i, j | 0 <= i < j < |claims| :: claims[j].exclusive ==> claims[i].exclusive
  }

  /** No disk that is still to be had has more than one partition, if some claim is exclusive. */
  predicate Roomy(disks: seq<Slot>, claims: seq<PvcRequest>) {
    claims != [] && claims[0].exclusive ==> forall i | 0 <= i < |disks| :: disks[i].held || disks[i].partitions <= 1
  }

  lemma {:induction false} LeastOf(disks: seq<Slot>, r: PvcRequest, k: nat) returns (i: nat)
    requires k < |disks| && Choosable(disks[k], r)
    ensures Picks(disks, r, NodeSelect.Binpack, i)
    decreases disks[k].free - Need(r)
  {
    if j :| 0 <= j < |disks| && Choosable(disks[j], r) && disks[j].free < disks[k].free {
      i := LeastOf(disks, r, j);
    } else {
      i := k;
    }
  }

  lemma ChoosableIffEnough(disks: seq<Slot>, claims: seq<PvcRequest>, i: nat)
    requires claims != [] && 0 < claims[0].request && Roomy(disks, claims) && i < |disks|
    ensures Choosable(disks[i], claims[0]) <==> Need(claims[0]) <= Values(disks)[i]
  {
    assert 0 < Need(claims[0]);
  }

  lemma PickIsBest(disks: seq<Slot>, claims: seq<PvcRequest>, i: nat)
    requires claims != [] && 0 < claims[0].request && Roomy(disks, claims) && Picks(disks, claims[0], NodeSelect.Binpack, i)
    ensures After(multiset(Values(disks)), claims[0]) == Some(multiset(Values(Given(disks, claims[0], i))))
  {
    var s, r := Values(disks), claims[0];
    PickIsLeast(disks, claims, i);
    BestIs(multiset(s), Need(r), s[i]);
    Replaced(s, i, Residual(r, s[i]));
    GivenValues(disks, r, i);
  }

  lemma PickIsLeast(disks: seq<Slot>, claims: seq<PvcRequest>, i: nat)
    requires claims != [] && 0 < claims[0].request && Roomy(disks, claims) && Picks(disks, claims[0], NodeSelect.Binpack, i)
    ensures IsBest(multiset(Values(disks)), Need(claims[0]), Values(disks)[i]) && !disks[i].held
  {
    var s, need := Values(disks), Need(claims[0]);
    ChoosableIffEnough(disks, claims, i);
    forall w | w in multiset(s) && need <= w ensures s[i] <= w {
      var j :| 0 <= j < |s| && s[j] == w;
      ChoosableIffEnough(disks, claims, j);
    }
  }

  lemma GivenValues(disks: seq<Slot>, r: PvcRequest, i: nat)
    requires i < |disks| && !disks[i].held
    ensures Values(Given(disks, r, i)) == Values(disks)[i := Residual(r, Values(disks)[i])]
  {}

  lemma RestOf(disks: seq<Slot>, claims: seq<PvcRequest>, i: nat)
    requires claims != [] && ExclusivesFirst(claims) && Roomy(disks, claims) && i < |disks|
    ensures ExclusivesFirst(claims[1..]) && Roomy(Given(disks, claims[0], i), claims[1..])
  {
    forall j, k | 0 <= j < k < |claims[1..]| && claims[1..][k].exclusive ensures claims[1..][j].exclusive {
      assert claims[k + 1].exclusive ==> claims[j + 1].exclusive;
    }
    assert |claims| > 1 && claims[1].exclusive ==> claims[0].exclusive;
  }

  lemma NoneToPick(disks: seq<Slot>, claims: seq<PvcRequest>)
    requires claims != [] && 0 < claims[0].request && Roomy(disks, claims)
    requires forall i: nat :: !Picks(disks, claims[0], NodeSelect.Binpack, i)
    ensures After(multiset(Values(disks)), claims[0]).None?
  {
    forall k: nat | k < |disks| ensures Values(disks)[k] < Need(claims[0]) {
      ChoosableIffEnough(disks, claims, k);
      if Choosable(disks[k], claims[0]) { var i := LeastOf(disks, claims[0], k); }
    }
    NoneIsTaken(Values(disks), Values(disks), claims[0]);
  }

  /**
   Claims that come in the filter's order, the exclusive ones first, with numbers published anew after
   each: under binpack the controller finds a disk for every claim if and only if the filter accepts.
   */
  lemma {:induction false} BinpackBuildsIff(disks: seq<Slot>, claims: seq<PvcRequest>)
    requires (forall i | 0 <= i < |claims| :: 0 < claims[i].request) && ExclusivesFirst(claims) && Roomy(disks, claims)
    ensures Builds(disks, claims, NodeSelect.Binpack) <==> Accepts(multiset(Values(disks)), claims)
    decreases |claims|
  {
    if claims != [] {
      if i: nat :| Picks(disks, claims[0], NodeSelect.Binpack, i) {
        forall k: nat | Picks(disks, claims[0], NodeSelect.Binpack, k)
          ensures Builds(Given(disks, claims[0], k), claims[1..], NodeSelect.Binpack) <==> Accepts(multiset(Values(disks)), claims)
        {
          PickIsBest(disks, claims, k);
          RestOf(disks, claims, k);
          BinpackBuildsIff(Given(disks, claims[0], k), claims[1..]);
        }
      } else {
        NoneToPick(disks, claims);
      }
    }
  }

  // The same with real disks, whose numbers are published anew after each creation.

  type Disks = seq<Partition.Disk>

  function Shown(disks: Disks, held: seq<bool>): (s: seq<Slot>)
    requires |held| == |disks|
    ensures |s| == |disks|
    ensures forall i | 0 <= i < |s| :: s[i] == Slot(Partition.Published(disks[i]), |disks[i].parts|, held[i])
  {
    seq(|disks|, i requires 0 <= i < |disks| => Slot(Partition.Published(disks[i]), |disks[i].parts|, held[i]))
  }

  function Partitioned(d: Partition.Disk, r: PvcRequest, name: string): (Partition.Disk, bool) {
    var made := PartitionOps.CreateOn(d, name, Need(r) * GIB, true);
    (made.0, made.2.Success?)
  }

  /** Every claim gets a disk and its partition, whatever choices are made. */
  ghost predicate Provisioned(disks: Disks, held: seq<bool>, claims: seq<PvcRequest>, names: seq<string>,
                              policy: NodeSelect.Policy)
    requires |held| == |disks| && |names| == |claims|
    decreases |claims|
  {
    claims == [] ||
      ((exists i :: Picks(Shown(disks, held), claims[0], policy, i)) &&
        forall i: nat | Picks(Shown(disks, held), claims[0], policy, i) ::
          var (d, ok) := Partitioned(disks[i], claims[0], names[0]);
          ok && Provisioned(disks[i := d], held[i := claims[0].exclusive], claims[1..], names[1..], policy))
  }

  /** Free space in one piece, and numbers enough for so many partitions more. */
  ghost predicate Ample(disks: Disks, n: nat) {
    forall i | 0 <= i < |disks| :: PartitionPlan.OnePiece(disks[i]) && |disks[i].parts| + n <= PartitionOps.MAX_NUMBER
  }

  lemma OneProvisioned(disks: Disks, held: seq<bool>, r: PvcRequest, name: string, i: nat, n: nat)
    requires |held| == |disks| && i < |disks| && Ample(disks, n + 1) && 0 < r.request
    requires Need(r) <= Partition.Published(disks[i])
    ensures var (d, ok) := Partitioned(disks[i], r, name);
            ok && Ample(disks[i := d], n) && Shown(disks[i := d], held[i := r.exclusive]) == Given(Shown(disks, held), r, i)
  {
    var d := disks[i];
    PartitionPlan.RoomMeansSuccess(d, name, Need(r));
    PartitionPlan.OnePieceExact(d, name, Need(r), true);
    var (e, number, _) := PartitionOps.CreateOn(d, name, Need(r) * GIB, true);
    assert e.parts.Keys == d.parts.Keys + {number};
  }

  lemma {:induction false} BuildsIsProvisioned(disks: Disks, held: seq<bool>, claims: seq<PvcRequest>, names: seq<string>,
                                               policy: NodeSelect.Policy)
    requires |held| == |disks| && |names| == |claims| && Ample(disks, |claims|)
    requires (forall i | 0 <= i < |claims| :: 0 < claims[i].request) && Builds(Shown(disks, held), claims, policy)
    ensures Provisioned(disks, held, claims, names, policy)
    decreases |claims|
  {
    if claims != [] {
      forall i: nat | Picks(Shown(disks, held), claims[0], policy, i)
        ensures var (d, ok) := Partitioned(disks[i], claims[0], names[0]);
                ok && Provisioned(disks[i := d], held[i := claims[0].exclusive], claims[1..], names[1..], policy)
      {
        OneProvisioned(disks, held, claims[0], names[0], i, |claims| - 1);
        var d := Partitioned(disks[i], claims[0], names[0]).0;
        BuildsIsProvisioned(disks[i := d], held[i := claims[0].exclusive], claims[1..], names[1..], policy);
      }
    }
  }

  /**
   What the filter accepts the controller provisions under binpack, if the claims come in the filter's
   order with the exclusive ones first and the free space of each disk is in one piece.
   */
  lemma AcceptedIsProvisioned(disks: Disks, held: seq<bool>, claims: seq<PvcRequest>, names: seq<string>)
    requires |held| == |disks| && |names| == |claims| && Ample(disks, |claims|)
    requires (forall i | 0 <= i < |claims| :: 0 < claims[i].request) && ExclusivesFirst(claims)
    requires Roomy(Shown(disks, held), claims) && Accepts(multiset(Values(Shown(disks, held))), claims)
    ensures Provisioned(disks, held, claims, names, NodeSelect.Binpack)
  {
    BinpackBuildsIff(Shown(disks, held), claims);
    BuildsIsProvisioned(disks, held, claims, names, NodeSelect.Binpack);
  }

  // What goes wrong otherwise.

  /** Nothing can be picked on a concrete list of disks. */
  lemma Stuck(disks: seq<Slot>, r: PvcRequest, rest: seq<PvcRequest>, policy: NodeSelect.Policy)
    requires forall i | 0 <= i < |disks| :: !Choosable(disks[i], r)
    ensures !Builds(disks, [r] + rest, policy)
  {
    forall i: nat ensures !Picks(disks, r, policy, i) {}
    assert ([r] + rest)[0] == r;
  }

  /** One step that is possible: it decides. */
  lemma StepsTo(disks: seq<Slot>, r: PvcRequest, rest: seq<PvcRequest>, policy: NodeSelect.Policy, i: nat)
    requires Picks(disks, r, policy, i) && !Builds(Given(disks, r, i), rest, policy)
    ensures !Builds(disks, [r] + rest, policy)
  {
    assert ([r] + rest)[0] == r && ([r] + rest)[1..] == rest;
  }

  lemma SixAndFour(a: PvcRequest, b: PvcRequest)
    requires !a.exclusive && !b.exclusive && Need(a) == 4 && Need(b) == 3
    ensures Accepts(multiset([6, 4]), [a] + ([b] + [b]))
  {
    assert [b] + [] == [b] && [6, 4][1 := 0] == [6, 0] && [6, 0][0 := 3] == [3, 0];
    PlacesOn([3, 0], b, 0, []);
    PlacesOn([6, 0], b, 0, [b]);
    PlacesOn([6, 4], a, 1, [b] + [b]);
  }

  lemma ThreeOnNine(a: PvcRequest, b: PvcRequest)
    requires a.exclusive && !b.exclusive && Need(a) == 3 && Need(b) == 3
    ensures Accepts(multiset([9]), [b] + ([b] + [a]))
  {
    assert [a] + [] == [a] && [9][0 := 6] == [6] && [6][0 := 3] == [3];
    PlacesOn([3], a, 0, []);
    PlacesOn([6], b, 0, [a]);
    PlacesOn([9], b, 0, [b] + [a]);
  }

  /** Spreadout, in the filter's own order: 4, 3 and 3 GiB pass for disks of 6 and 4, and the last claim finds no disk. */
  lemma SpreadoutFails(a: PvcRequest, b: PvcRequest)
    requires !a.exclusive && !b.exclusive && Need(a) == 4 && Need(b) == 3
    ensures Accepts(multiset([6, 4]), [a] + ([b] + [b]))
    ensures !Builds([Slot(6, 0, false), Slot(4, 0, false)], [a] + ([b] + [b]), NodeSelect.Spreadout)
  {
    SixAndFour(a, b);
    var d0, d1, d2 := [Slot(6, 0, false), Slot(4, 0, false)], [Slot(2, 1, false), Slot(4, 0, false)], [Slot(2, 1, false), Slot(1, 1, false)];
    assert Given(d0, a, 0) == d1 && Given(d1, b, 1) == d2;
    assert [b] + [] == [b];
    Stuck(d2, b, [], NodeSelect.Spreadout);
    StepsTo(d1, b, [b], NodeSelect.Spreadout, 1);
    StepsTo(d0, a, [b] + [b], NodeSelect.Spreadout, 0);
  }

  /** Binpack, in another order: the same claims come as 3, 3 and 4, and the last one finds no disk. */
  lemma OtherOrderFails(a: PvcRequest, b: PvcRequest)
    requires !a.exclusive && !b.exclusive && Need(a) == 4 && Need(b) == 3
    ensures !Builds([Slot(6, 0, false), Slot(4, 0, false)], [b] + ([b] + [a]), NodeSelect.Binpack)
  {
    var d0, d1, d2 := [Slot(6, 0, false), Slot(4, 0, false)], [Slot(6, 0, false), Slot(1, 1, false)], [Slot(3, 1, false), Slot(1, 1, false)];
    assert Given(d0, b, 1) == d1 && Given(d1, b, 0) == d2;
    Stuck(d2, a, [], NodeSelect.Binpack);
    assert [a] + [] == [a];
    StepsTo(d1, b, [a], NodeSelect.Binpack, 0);
    StepsTo(d0, b, [b] + [a], NodeSelect.Binpack, 1);
  }

  /** An exclusive claim after two plain ones on one disk: the filter accepts, the controller sees two partitions. */
  lemma CrowdedFails(a: PvcRequest, b: PvcRequest)
    requires a.exclusive && !b.exclusive && Need(a) == 3 && Need(b) == 3
    ensures Accepts(multiset([9]), [b] + ([b] + [a]))
    ensures !Builds([Slot(9, 0, false)], [b] + ([b] + [a]), NodeSelect.Binpack)
  {
    ThreeOnNine(a, b);
    assert [a] + [] == [a];
    var d0, d1, d2 := [Slot(9, 0, false)], [Slot(6, 1, false)], [Slot(3, 2, false)];
    assert Given(d0, b, 0) == d1 && Given(d1, b, 0) == d2;
    Stuck(d2, a, [], NodeSelect.Binpack);
    StepsTo(d1, b, [a], NodeSelect.Binpack, 0);
    StepsTo(d0, b, [b] + [a], NodeSelect.Binpack, 0);
  }
}
