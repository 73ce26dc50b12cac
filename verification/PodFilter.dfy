/** The scheduler plugin's Filter for a whole pod, and what its verdict is worth on the node. */
module PodFilter {
  import opened Units
  import opened Sums
  import opened Sorting
  import opened RawFilter
  import opened PvcRequests
  import opened SchedulerFilter
  import opened Text
  import opened Wrappers
  import Capacity
  import Partition = Disks
  import Lvm
  import PartitionOps
  import PartitionPlan
  import DiskChoice
  import NodeSelect

  datatype Verdict = Error | Unschedulable | Success

  /** What a node shows the scheduler: its name, the published entries and the disks taken exclusively; a failed lookup is None. */
  datatype Node = Node(name: string, published: Option<seq<Entry>>, exclusive: Option<set<string>>)

  /** The largest request first. */
  function Rank(r: PvcRequest): int {
    0 - r.request
  }

  /** An order sort.Slice may leave the list in. */
  ghost predicate IsSorted(list: seq<PvcRequest>, order: seq<PvcRequest>) {
    multiset(order) == multiset(list) && Ascending(order, Rank)
  }

  method Sort(list: seq<PvcRequest>) returns (order: seq<PvcRequest>)
    ensures IsSorted(list, order)
  {
    var a := new PvcRequest[|list|](i requires 0 <= i < |list| => list[i]);
    assert a[..] == list;
    SortBy(a, Rank);
    order := a[..];
  }

  ghost function OffersOf(vols: seq<PodVolume>, n: Node, isRaw: string -> bool): seq<Entry> {
    Offering(n.published, isRaw, UsesRaw(vols), n.exclusive)
  }

  /** Some pending volume of the pod is of the group. */
  ghost predicate Asked(vols: seq<PodVolume>, g: string) {
    exists i | 0 <= i < |vols| :: InGroup(vols[i], g)
  }

  type Orders = map<string, seq<PvcRequest>>

  /** The group's list was sorted to orders[g], and `ok` is the verdict on it. */
  ghost predicate Judged(offers: seq<Entry>, isRaw: string -> bool, list: seq<PvcRequest>, orders: Orders, g: string, ok: bool) {
    && g in orders && IsSorted(list, orders[g])
    && Passes(offers, GroupRequests(g, isRaw(g), orders[g])) == ok
  }

  ghost predicate Elsewhere(vols: seq<PodVolume>, n: Node) {
    NodeOf(vols) != "" && NodeOf(vols) != n.name
  }

  ghost predicate Admitted(vols: seq<PodVolume>, n: Node, isRaw: string -> bool, orders: Orders) {
    && Fine(vols) && !Elsewhere(vols, n)
    && forall g | Asked(vols, g) ::
         OffersOf(vols, n, isRaw) != [] && Judged(OffersOf(vols, n, isRaw), isRaw, Recorded(vols, g), orders, g, true)
  }

  ghost predicate Refused(vols: seq<PodVolume>, n: Node, isRaw: string -> bool, orders: Orders) {
    && Fine(vols)
    && (Elsewhere(vols, n) || exists g | Asked(vols, g) ::
          OffersOf(vols, n, isRaw) == [] || Judged(OffersOf(vols, n, isRaw), isRaw, Recorded(vols, g), orders, g, false))
  }

  lemma ListedIffAsked(vols: seq<PodVolume>, byGroup: map<string, seq<PvcRequest>>, groups: seq<string>, g: string)
    requires Holds(vols, byGroup, groups)
    ensures g in groups <==> Asked(vols, g)
    ensures g in groups ==> g in byGroup && byGroup[g] == Recorded(vols, g)
  {
    RecordedOfNone(vols, g);
    assert Recorded(vols, g) == Get(byGroup, g);
  }

  method CheckGroups(offers: seq<Entry>, isRaw: string -> bool, byGroup: map<string, seq<PvcRequest>>, groups: seq<string>)
    returns (ok: bool, ghost orders: Orders)
    requires forall g | g in groups :: g in byGroup
    ensures ok ==> forall g | g in groups :: Judged(offers, isRaw, byGroup[g], orders, g, true)
    ensures !ok ==> exists g | g in groups :: Judged(offers, isRaw, byGroup[g], orders, g, false)
  {
    orders := map[];
    for i := 0 to |groups|
      invariant forall k | 0 <= k < i :: Judged(offers, isRaw, byGroup[groups[k]], orders, groups[k], true)
    {
      var g := groups[i];
      var order := Sort(byGroup[g]);
      ok := CheckGroup(offers, GroupRequests(g, isRaw(g), order));
      orders := orders[g := order];
      assert Judged(offers, isRaw, byGroup[g], orders, g, ok);
      if !ok { return; }
    }
    ok := true;
  }

  /** Filter, from the pod's volumes to the verdict; `orders` is how the lists were sorted. */
  method Filter(vols: seq<PodVolume>, n: Node, isRaw: string -> bool) returns (v: Verdict, ghost orders: Orders)
    ensures v.Error? <==> !Fine(vols)
    ensures v.Success? ==> Admitted(vols, n, isRaw, orders)
    ensures v.Unschedulable? ==> Refused(vols, n, isRaw, orders)
  {
    orders := map[];
    var a := GetPvcRequestMap(vols);
    if a.Failed? { return Error, orders; }
    if a.node != "" && a.node != n.name { return Unschedulable, orders; }
    forall g ensures g in a.groups <==> Asked(vols, g) { ListedIffAsked(vols, a.byGroup, a.groups, g); }
    if |a.groups| == 0 { return Success, orders; }
    var offers, _ := GetAllocatableMap(n.published, isRaw, a.useRaw, n.exclusive);
    if offers.None? {
      assert Asked(vols, a.groups[0]);
      return Unschedulable, orders;
    }
    var ok;
    ok, orders := CheckGroups(offers.value, isRaw, a.byGroup, a.groups);
    forall g | g in a.groups ensures a.byGroup[g] == Recorded(vols, g) { ListedIffAsked(vols, a.byGroup, a.groups, g); }
    v := if ok then Success else Unschedulable;
  }

  // The verdict does not depend on how the sort breaks ties, unless a tie is mixed.

  ghost predicate MixedTie(list: seq<PvcRequest>) {
    exists a, b | a in list && b in list :: a.request == b.request && a.exclusive && !b.exclusive
  }

  lemma SameElements<T>(a: seq<T>, b: seq<T>)
    requires multiset(a) == multiset(b)
    ensures |a| == |b| && forall x :: x in a <==> x in b
  {
    assert |multiset(a)| == |a| && |multiset(b)| == |b|;
    assert forall x :: x in a <==> x in multiset(a);
    assert forall x :: x in b <==> x in multiset(b);
  }

  lemma TailBag<T>(a: seq<T>)
    requires a != []
    ensures multiset(a[1..]) == multiset(a) - multiset{a[0]}
  {
    assert a == [a[0]] + a[1..];
  }

  lemma SortedHead(a: seq<PvcRequest>, x: PvcRequest)
    requires a != [] && Ascending(a, Rank) && x in a
    ensures x.request <= a[0].request
  {
    var i :| 0 <= i < |a| && a[i] == x;
    assert Rank(a[0]) <= Rank(a[i]);
  }

  lemma SortedTail(a: seq<PvcRequest>)
    requires a != [] && Ascending(a, Rank)
    ensures Ascending(a[1..], Rank)
  {
    forall i, j | 0 <= i < j < |a[1..]| ensures Rank(a[1..][i]) <= Rank(a[1..][j]) {
      assert Rank(a[i + 1]) <= Rank(a[j + 1]);
    }
  }

  lemma {:induction false} SortsAgree(a: seq<PvcRequest>, b: seq<PvcRequest>)
    requires multiset(a) == multiset(b) && Ascending(a, Rank) && Ascending(b, Rank) && !MixedTie(a)
    ensures a == b
  {
    SameElements(a, b);
    if a != [] {
      assert a[0] == b[0] by {
        SortedHead(a, b[0]);
        SortedHead(b, a[0]);
      }
      TailBag(a);
      TailBag(b);
      SortedTail(a);
      SortedTail(b);
      assert !MixedTie(a[1..]) by { assert forall x | x in a[1..] :: x in a; }
      SortsAgree(a[1..], b[1..]);
      assert a == [a[0]] + a[1..] && b == [b[0]] + b[1..];
    }
  }

  function Sum(list: seq<PvcRequest>): nat {
    Total(Bytes(list))
  }

  lemma SumHead(list: seq<PvcRequest>)
    requires list != []
    ensures Sum(list) == list[0].request + Sum(list[1..])
  {
    assert Bytes(list)[1..] == Bytes(list[1..]);
  }

  lemma {:induction false} SumPlus(a: seq<PvcRequest>, b: seq<PvcRequest>)
    ensures Sum(a + b) == Sum(a) + Sum(b)
  {
    if a == [] {
      assert a + b == b;
    } else {
      assert (a + b)[1..] == a[1..] + b;
      SumPlus(a[1..], b);
      SumHead(a);
      SumHead(a + b);
    }
  }

  /** The list without its k-th request. */
  lemma Without(b: seq<PvcRequest>, k: nat)
    requires k < |b|
    ensures multiset(b[..k] + b[k + 1..]) == multiset(b) - multiset{b[k]}
    ensures Sum(b) == b[k].request + Sum(b[..k] + b[k + 1..])
  {
    assert b == b[..k] + ([b[k]] + b[k + 1..]);
    SumPlus(b[..k], [b[k]] + b[k + 1..]);
    SumPlus(b[..k], b[k + 1..]);
    SumHead([b[k]] + b[k + 1..]);
  }

  /** A volume group is judged by the sum, which no order changes. */
  lemma {:induction false} SameSum(a: seq<PvcRequest>, b: seq<PvcRequest>)
    requires multiset(a) == multiset(b)
    ensures Sum(a) == Sum(b)
  {
    SameElements(a, b);
    if a != [] {
      assert a[0] in b;
      var k :| 0 <= k < |b| && b[k] == a[0];
      TailBag(a);
      SumHead(a);
      Without(b, k);
      SameSum(a[1..], b[..k] + b[k + 1..]);
    }
  }

  lemma OrderIrrelevant(offers: seq<Entry>, isRaw: string -> bool, list: seq<PvcRequest>, o1: Orders, o2: Orders, g: string)
    requires isRaw(g) ==> !MixedTie(list)
    ensures !(Judged(offers, isRaw, list, o1, g, true) && Judged(offers, isRaw, list, o2, g, false))
  {
    if g in o1 && g in o2 && IsSorted(list, o1[g]) && IsSorted(list, o2[g]) {
      SameSum(o1[g], o2[g]);
      SameElements(list, o1[g]);
      if isRaw(g) { SortsAgree(o1[g], o2[g]); }
    }
  }

  /** No pod is both admitted and refused, however the lists are sorted, unless a raw group has a mixed tie. */
  lemma VerdictDetermined(vols: seq<PodVolume>, n: Node, isRaw: string -> bool, o1: Orders, o2: Orders)
    requires forall g | isRaw(g) :: !MixedTie(Recorded(vols, g))
    ensures !(Admitted(vols, n, isRaw, o1) && Refused(vols, n, isRaw, o2))
  {
    forall g ensures !(Judged(OffersOf(vols, n, isRaw), isRaw, Recorded(vols, g), o1, g, true)
                       && Judged(OffersOf(vols, n, isRaw), isRaw, Recorded(vols, g), o2, g, false))
    {
      OrderIrrelevant(OffersOf(vols, n, isRaw), isRaw, Recorded(vols, g), o1, o2, g);
    }
  }

  // What acceptance means on a raw group.

  ghost predicate Positive(list: seq<PvcRequest>) {
    forall i | 0 <= i < |list| :: 0 < list[i].request
  }

  /** The list is what has to be built on the group if no claim is forgotten or tainted and caches are at home. */
  lemma RecordedIsNeeded(vols: seq<PodVolume>, g: string)
    requires Fine(vols) && Faithful(vols, g) && CachesAtHome(vols, g)
    ensures Recorded(vols, g) == Needed(vols, g)
  {
    RecordedExact(vols, g);
    WantedIsNeeded(vols, g);
  }

  /**
   An admitted pod can be built on the node's raw disks: when the list is faithful, nothing foreign
   is counted and the published numbers are those of the disks, every claim of the group and every
   cache gets a disk, and on each disk all the partitions are created.
   */
  lemma AdmittedIsBuildable(vols: seq<PodVolume>, n: Node, isRaw: string -> bool, orders: Orders, g: string,
                            disks: seq<Partition.Disk>) returns (f: seq<nat>)
    requires Admitted(vols, n, isRaw, orders) && Asked(vols, g) && isRaw(g)
    requires Faithful(vols, g) && CachesAtHome(vols, g) && Positive(Needed(vols, g))
    requires NoForeign(OffersOf(vols, n, isRaw), g)
    requires OwnDisks(OffersOf(vols, n, isRaw), g) == PartitionPlan.PublishedAll(disks)
    requires forall p | 0 <= p < |disks| :: |disks[p].parts| + |Needed(vols, g)| <= PartitionOps.MAX_NUMBER
    ensures g in orders && multiset(orders[g]) == multiset(Needed(vols, g))
    ensures Placement(orders[g], PartitionPlan.PublishedAll(disks), f)
    ensures forall p: nat, names: seq<string> | p < |disks| && |names| == |PartitionPlan.Chosen(orders[g], f, p)| ::
              PartitionPlan.AllCreated(disks[p], names, PartitionPlan.Chosen(orders[g], f, p))
  {
    var offers := OffersOf(vols, n, isRaw);
    RecordedIsNeeded(vols, g);
    assert Judged(offers, isRaw, Recorded(vols, g), orders, g, true);
    SameElements(orders[g], Needed(vols, g));
    forall i | 0 <= i < |orders[g]| ensures 0 < orders[g][i].request {
      assert orders[g][i] in Needed(vols, g);
    }
    OwnDisksIff(offers, g);
    f := PartitionPlan.AcceptedIsBuildable(disks, orders[g]);
  }

  lemma {:induction false} NothingBound(vols: seq<PodVolume>)
    requires forall i | 0 <= i < |vols| :: vols[i].Pending? && Usable(vols[i])
    ensures Fine(vols) && NodeOf(vols) == ""
  {
    if vols != [] { NothingBound(vols[..|vols| - 1]); }
  }

  /**
   And the controller does build it so under binpack, if it takes the claims in the filter's order, the
   exclusive ones first, and the free space of each disk is in one piece.
   */
  lemma AdmittedIsProvisioned(vols: seq<PodVolume>, n: Node, isRaw: string -> bool, orders: Orders, g: string,
                              disks: seq<Partition.Disk>, held: seq<bool>, names: seq<string>)
    requires Admitted(vols, n, isRaw, orders) && Asked(vols, g) && isRaw(g)
    requires Faithful(vols, g) && CachesAtHome(vols, g) && Positive(Needed(vols, g))
    requires NoForeign(OffersOf(vols, n, isRaw), g)
    requires |held| == |disks| && OwnDisks(OffersOf(vols, n, isRaw), g) == DiskChoice.Values(DiskChoice.Shown(disks, held))
    requires |names| == |Needed(vols, g)| && DiskChoice.Ample(disks, |Needed(vols, g)|)
    requires g in orders && DiskChoice.ExclusivesFirst(orders[g]) && DiskChoice.Roomy(DiskChoice.Shown(disks, held), orders[g])
    ensures |names| == |orders[g]| && multiset(orders[g]) == multiset(Needed(vols, g))
    ensures DiskChoice.Provisioned(disks, held, orders[g], names, NodeSelect.Binpack)
  {
    var offers := OffersOf(vols, n, isRaw);
    RecordedIsNeeded(vols, g);
    assert Judged(offers, isRaw, Recorded(vols, g), orders, g, true);
    SameElements(orders[g], Needed(vols, g));
    forall i | 0 <= i < |orders[g]| ensures 0 < orders[g][i].request {
      assert orders[g][i] in Needed(vols, g);
    }
    OwnDisksIff(offers, g);
    DiskChoice.AcceptedIsProvisioned(disks, held, orders[g], names);
  }

  /**
   Two exclusive claims of one raw group: the list forgets the first, so a node with a single disk,
   large enough for the second, admits the pod, and the two cannot both have a disk.
   */
  lemma TwoExclusiveAdmitted(g: string, a: nat, b: nat, e: Entry, n: Node, isRaw: string -> bool)
    requires g != "" && isRaw(g) && 0 < a && 0 < b && Contains(e.name, g) && Need(PvcRequest(true, b)) <= e.value
    requires OffersOf([Exclusive(g, a)] + [Exclusive(g, b)], n, isRaw) == [e]
    ensures var vols, rb := [Exclusive(g, a)] + [Exclusive(g, b)], PvcRequest(true, b);
            && Admitted(vols, n, isRaw, map[g := [rb]])
            && forall f :: !InjectiveFit(Needed(vols, g), [e.value], f)
  {
    var vols, rb := [Exclusive(g, a)] + [Exclusive(g, b)], PvcRequest(true, b);
    TwoExclusiveClaims(g, a, b, e.value);
    WantedIsNeeded(vols, g);
    PassesOn(e, g, rb);
    OneGroupAdmitted(vols, n, isRaw, g, [rb]);
  }

  lemma PassesOn(e: Entry, g: string, r: PvcRequest)
    requires Contains(e.name, g) && Accepts(multiset([e.value]), [r])
    ensures Passes([e], GroupRequests(g, true, [r]))
  {
    assert Disks([e], g) == [e.value] by { assert [e][1..] == []; }
  }

  lemma OneGroupAdmitted(vols: seq<PodVolume>, n: Node, isRaw: string -> bool, g: string, order: seq<PvcRequest>)
    requires forall i | 0 <= i < |vols| :: InGroup(vols[i], g) && Usable(vols[i])
    requires OffersOf(vols, n, isRaw) != [] && IsSorted(Recorded(vols, g), order)
    requires Passes(OffersOf(vols, n, isRaw), GroupRequests(g, isRaw(g), order))
    ensures Admitted(vols, n, isRaw, map[g := order])
  {
    NothingBound(vols);
    assert forall h | Asked(vols, h) :: h == g;
    assert Judged(OffersOf(vols, n, isRaw), isRaw, Recorded(vols, g), map[g := order], g, true);
  }

  // What acceptance means on a volume group.

  ghost predicate NoneForgotten(vols: seq<PodVolume>, g: string) {
    forall i: nat, j: nat :: !Forgets(vols, g, i, j)
  }

  ghost predicate WholeAndPositive(list: seq<PvcRequest>) {
    forall i | 0 <= i < |list| :: 0 < list[i].request && WholeGib(list[i].request)
  }

  lemma ForgottenStep(vols: seq<PodVolume>, g: string)
    requires vols != []
    ensures var n := |vols| - 1; var init, v := vols[..n], vols[n];
            NoneForgotten(vols, g) <==>
              NoneForgotten(init, g) && (InGroup(v, g) && v.cache.NoCache? ==> Wanted(init, g) == [])
  {
    var n := |vols| - 1;
    var init, v := vols[..n], vols[n];
    RecordedAtMost(init, g);
    assert forall i | 0 <= i < n :: init[i] == vols[i];
    forall i: nat, j: nat | j < n ensures Forgets(vols, g, i, j) == Forgets(init, g, i, j) {}
    forall i: nat | i < n && InGroup(vols[i], g) && InGroup(v, g) && v.cache.NoCache? ensures Forgets(vols, g, i, n) {}
  }

  lemma AsksSum(v: PodVolume, x: bool, y: bool)
    requires v.Pending?
    ensures Bytes(Asks(v, x)) == Bytes(Asks(v, y)) && Sum(Asks(v, x)) == Sum(Asks(v, y))
  {
    assert Bytes(Asks(v, x)) == Bytes(Asks(v, y));
  }

  lemma SumPositive(list: seq<PvcRequest>)
    requires WholeAndPositive(list)
    ensures Sum(list) > 0 <==> list != []
  {
    if list != [] { SumHead(list); }
  }

  lemma WholePlus(a: seq<PvcRequest>, b: seq<PvcRequest>)
    ensures WholeAndPositive(a + b) <==> WholeAndPositive(a) && WholeAndPositive(b)
  {
    forall i | 0 <= i < |a| ensures a[i] == (a + b)[i] {}
    forall i | 0 <= i < |b| ensures b[i] == (a + b)[|a| + i] {}
  }

  lemma WholeAsks(v: PodVolume, x: bool, y: bool)
    requires v.Pending? && WholeAndPositive(Asks(v, x))
    ensures WholeAndPositive(Asks(v, y))
  {
    forall i | 0 <= i < |Asks(v, y)| ensures Asks(v, y)[i].request == Asks(v, x)[i].request {}
  }

  /** The recorded sum is the wanted one exactly when no claim is forgotten, and smaller otherwise. */
  lemma {:induction false} RecordedSum(vols: seq<PodVolume>, g: string)
    requires WholeAndPositive(Wanted(vols, g))
    ensures WholeAndPositive(Recorded(vols, g))
    ensures Sum(Recorded(vols, g)) <= Sum(Wanted(vols, g))
    ensures Sum(Recorded(vols, g)) == Sum(Wanted(vols, g)) <==> NoneForgotten(vols, g)
  {
    if vols != [] {
      var n := |vols| - 1;
      var init, v := vols[..n], vols[n];
      ForgottenStep(vols, g);
      if InGroup(v, g) {
        var kept, all, asks := Recorded(init, g), Wanted(init, g), Asks(v, Sticky(vols));
        WholePlus(all, Asks(v, v.exclusive));
        RecordedSum(init, g);
        AsksSum(v, v.exclusive, Sticky(vols));
        WholeAsks(v, v.exclusive, Sticky(vols));
        SumPlus(all, Asks(v, v.exclusive));
        SumPlus(kept, asks);
        WholePlus(kept, asks);
        SumPositive(all);
        assert [] + asks == asks;
      } else {
        RecordedSum(init, g);
      }
    }
  }

  /** The requests of the group and the names are such that the node could create the volumes. */
  ghost predicate Creatable(list: seq<PvcRequest>, names: seq<string>, lvm: Lvm.Lvm, g: string) {
    && WholeAndPositive(list) && (forall i | 0 <= i < |list| :: list[i].request < TWO64)
    && |names| == |list| && g in lvm.vgs && lvm.vgs[g].free < TWO64 && Capacity.NewNames(names, lvm.vgs[g])
  }

  lemma CeilsWhole(list: seq<PvcRequest>)
    requires WholeAndPositive(list)
    ensures forall i | 0 <= i < |list| ::
              0 < Capacity.Ceils(Bytes(list))[i] && Capacity.Ceils(Bytes(list))[i] * GIB == list[i].request
    ensures Total(Capacity.Ceils(Bytes(list))) * GIB == Sum(list) && WholeGib(Sum(list))
  {
    forall i | 0 <= i < |list| ensures CeilGib(list[i].request) * GIB == list[i].request {
      Capacity.CeilWhole(list[i].request);
    }
    Capacity.NoGapWhenWhole(Bytes(list));
    Capacity.CeilWhole(Sum(list));
  }

  /** The volumes the group needs are created one after the other. */
  ghost predicate Made(list: seq<PvcRequest>, names: seq<string>, lvm: Lvm.Lvm, g: string)
    requires Creatable(list, names, lvm, g)
  {
    CeilsWhole(list);
    Capacity.AllMade(lvm, g, names, Capacity.Ceils(Bytes(list)))
  }

  lemma MadeIffSum(list: seq<PvcRequest>, names: seq<string>, lvm: Lvm.Lvm, g: string)
    requires Creatable(list, names, lvm, g)
    ensures Made(list, names, lvm, g) <==> list == [] || Sum(list) + RESERVE <= lvm.vgs[g].free
  {
    CeilsWhole(list);
    Capacity.AllMadeIff(lvm, g, names, Capacity.Ceils(Bytes(list)));
  }

  lemma PublishedSuffices(total: nat, free: nat)
    requires 0 < total && WholeGib(total)
    ensures CeilGib(total) <= Capacity.PublishedGb(free) <==> total + RESERVE <= free && free != RESERVED
  {
    Capacity.CeilWhole(total);
  }

  /**
   On a volume group whose published number is current, the verdict is right if no claim is
   forgotten: exactly what can be created passes, except when just the reserved 10 GiB are free.
   */
  lemma LvmVerdictRight(vols: seq<PodVolume>, g: string, order: seq<PvcRequest>, offers: seq<Entry>,
                        lvm: Lvm.Lvm, names: seq<string>)
    requires Fine(vols) && Asked(vols, g) && CachesAtHome(vols, g) && NoneForgotten(vols, g)
    requires Creatable(Needed(vols, g), names, lvm, g) && IsSorted(Recorded(vols, g), order)
    requires Lookup(offers, g) == Capacity.PublishedGb(lvm.vgs[g].free)
    ensures Passes(offers, GroupRequests(g, false, order)) <==>
              Made(Needed(vols, g), names, lvm, g) && lvm.vgs[g].free != RESERVED
  {
    var needed := Needed(vols, g);
    WantedIsNeeded(vols, g);
    RecordedSum(vols, g);
    SameSum(order, Recorded(vols, g));
    MadeIffSum(needed, names, lvm, g);
    CeilsWhole(needed);
    RecordedAtMost(vols, g);
    SumPositive(needed);
    PublishedSuffices(Sum(needed), lvm.vgs[g].free);
  }

  /** A pod that is admitted gets all its volumes of a volume group. */
  lemma AdmittedIsMade(vols: seq<PodVolume>, n: Node, isRaw: string -> bool, orders: Orders, g: string,
                       lvm: Lvm.Lvm, names: seq<string>)
    requires Admitted(vols, n, isRaw, orders) && Asked(vols, g) && !isRaw(g)
    requires CachesAtHome(vols, g) && NoneForgotten(vols, g) && Creatable(Needed(vols, g), names, lvm, g)
    requires Lookup(OffersOf(vols, n, isRaw), g) == Capacity.PublishedGb(lvm.vgs[g].free)
    ensures Made(Needed(vols, g), names, lvm, g)
  {
    assert Judged(OffersOf(vols, n, isRaw), isRaw, Recorded(vols, g), orders, g, true);
    LvmVerdictRight(vols, g, orders[g], OffersOf(vols, n, isRaw), lvm, names);
  }

  /** Whenever a claim is forgotten, a node with room for the recorded ones alone passes, and some volume fails. */
  lemma ForgottenOverbooks(vols: seq<PodVolume>, g: string, order: seq<PvcRequest>, offers: seq<Entry>,
                           lvm: Lvm.Lvm, names: seq<string>)
    requires Fine(vols) && CachesAtHome(vols, g) && !NoneForgotten(vols, g)
    requires Creatable(Needed(vols, g), names, lvm, g) && IsSorted(Recorded(vols, g), order)
    requires lvm.vgs[g].free == Sum(Recorded(vols, g)) + RESERVE
    requires lvm.vgs[g].free != RESERVED && Lookup(offers, g) == Capacity.PublishedGb(lvm.vgs[g].free)
    ensures Passes(offers, GroupRequests(g, false, order)) && !Made(Needed(vols, g), names, lvm, g)
  {
    var recorded := Recorded(vols, g);
    WantedIsNeeded(vols, g);
    RecordedSum(vols, g);
    SameSum(order, recorded);
    MadeIffSum(Needed(vols, g), names, lvm, g);
    CeilsWhole(recorded);
    ForgottenRest(vols, g);
    PublishedSuffices(Sum(recorded), lvm.vgs[g].free);
  }

  lemma ForgottenRest(vols: seq<PodVolume>, g: string)
    requires WholeAndPositive(Wanted(vols, g)) && !NoneForgotten(vols, g)
    ensures Sum(Recorded(vols, g)) > 0
  {
    RecordedSum(vols, g);
    RecordedOfNone(vols, g);
    SumPositive(Recorded(vols, g));
    var i: nat, j: nat :| Forgets(vols, g, i, j);
    assert InGroup(vols[j], g);
  }
}
