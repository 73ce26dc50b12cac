/** What the node offers a pod, and the test for one device group. */
module SchedulerFilter {
  import opened Units
  import opened Sums
  import opened Text
  import opened Wrappers
  import opened RawFilter
  import Capacity

  /** An entry of the node's published allocatable map. */
  datatype Entry = Entry(name: string, ours: bool, value: int)

  /** What a pod asks of one device group, as the sort leaves it. */
  datatype GroupRequests = GroupRequests(group: string, raw: bool, requests: seq<PvcRequest>)

  /** The group of an entry: what stands before the first slash. */
  function GroupOf(e: Entry): string {
    Split(e.name, '/')[0]
  }

  predicate Offered(e: Entry, isRaw: string -> bool, useRaw: bool, exclusive: set<string>) {
    e.ours && !(useRaw && isRaw(GroupOf(e)) && e.name in exclusive)
  }

  /** `at` are the positions of the entries in r, in order: exactly those of the offered entries. */
  ghost predicate Picked(published: seq<Entry>, isRaw: string -> bool, useRaw: bool, exclusive: set<string>,
                         r: seq<Entry>, at: seq<nat>) {
    && |at| == |r|
    && (forall i | 0 <= i < |r| :: at[i] < |published| && r[i] == published[at[i]])
    && (forall i, j | 0 <= i < j < |at| :: at[i] < at[j])
    && (forall k: nat | k < |published| :: k in at <==> Offered(published[k], isRaw, useRaw, exclusive))
  }

  ghost function Offers(published: seq<Entry>, isRaw: string -> bool, useRaw: bool, exclusive: set<string>): seq<Entry> {
    if published == [] then []
    else
      var n := |published| - 1;
      Offers(published[..n], isRaw, useRaw, exclusive)
      + if Offered(published[n], isRaw, useRaw, exclusive) then [published[n]] else []
  }

  lemma OfferNext(published: seq<Entry>, n: nat, isRaw: string -> bool, useRaw: bool, exclusive: set<string>)
    requires n < |published|
    ensures Offers(published[..n + 1], isRaw, useRaw, exclusive) ==
            Offers(published[..n], isRaw, useRaw, exclusive)
            + if Offered(published[n], isRaw, useRaw, exclusive) then [published[n]] else []
  {
    assert published[..n + 1][..n] == published[..n];
  }

  /** The loop: the entries of ours in their order, without the raw disks an exclusive volume has. */
  method PickOffers(published: seq<Entry>, isRaw: string -> bool, useRaw: bool, exclusive: set<string>)
    returns (r: seq<Entry>, ghost at: seq<nat>)
    ensures Picked(published, isRaw, useRaw, exclusive, r, at)
    ensures r == Offers(published, isRaw, useRaw, exclusive)
  {
    r, at := [], [];
    for i := 0 to |published|
      invariant Picked(published[..i], isRaw, useRaw, exclusive, r, at)
      invariant r == Offers(published[..i], isRaw, useRaw, exclusive)
    {
      OfferNext(published, i, isRaw, useRaw, exclusive);
      PickedNext(published, i, isRaw, useRaw, exclusive, r, at);
      if published[i].ours {
        if !(useRaw && isRaw(GroupOf(published[i])) && published[i].name in exclusive) {
          r, at := r + [published[i]], at + [i];
        }
      }
    }
    assert published[..|published|] == published;
  }

  /** The node's resources can be read, and the exclusive volumes when a raw group is asked for. */
  predicate Readable(published: Option<seq<Entry>>, useRaw: bool, exclusive: Option<set<string>>) {
    published.Some? && (useRaw ==> exclusive.Some?)
  }

  /** What a node offers; nothing when it cannot be read. */
  ghost function Offering(published: Option<seq<Entry>>, isRaw: string -> bool, useRaw: bool,
                          exclusive: Option<set<string>>): seq<Entry> {
    if Readable(published, useRaw, exclusive)
    then Offers(published.value, isRaw, useRaw, if useRaw then exclusive.value else {})
    else []
  }

  /** getAllocatableMap: an error when something cannot be read or nothing is offered. */
  method GetAllocatableMap(published: Option<seq<Entry>>, isRaw: string -> bool, useRaw: bool, exclusive: Option<set<string>>)
    returns (r: Option<seq<Entry>>, ghost at: seq<nat>)
    ensures r.Some? <==> Offering(published, isRaw, useRaw, exclusive) != []
    ensures r.Some? ==>
              && Readable(published, useRaw, exclusive) && r.value == Offering(published, isRaw, useRaw, exclusive)
              && Picked(published.value, isRaw, useRaw, if useRaw then exclusive.value else {}, r.value, at)
  {
    var taken := {};
    if useRaw {
      if exclusive.None? { return None, []; }
      taken := exclusive.value;
    }
    if published.None? { return None, []; }
    var entries, positions := PickOffers(published.value, isRaw, useRaw, taken);
    if |entries| == 0 { return None, []; }
    return Some(entries), positions;
  }

  lemma PickedNext(published: seq<Entry>, n: nat, isRaw: string -> bool, useRaw: bool, exclusive: set<string>,
                   r: seq<Entry>, at: seq<nat>)
    requires n < |published| && Picked(published[..n], isRaw, useRaw, exclusive, r, at)
    ensures if Offered(published[n], isRaw, useRaw, exclusive)
            then Picked(published[..n + 1], isRaw, useRaw, exclusive, r + [published[n]], at + [n])
            else Picked(published[..n + 1], isRaw, useRaw, exclusive, r, at)
  {
    forall i | 0 <= i < |at| ensures at[i] < n {}
    forall k: nat | k < n ensures k in at + [n] <==> Offered(published[k], isRaw, useRaw, exclusive) {
      assert published[..n][k] == published[k];
      assert k in at + [n] <==> k in at;
    }
    assert n !in at && n in at + [n];
  }

  /** The capacities of the entries whose name contains the group's name. */
  ghost function Disks(offers: seq<Entry>, group: string): seq<int> {
    if offers == [] then []
    else (if Contains(offers[0].name, group) then [offers[0].value] else []) + Disks(offers[1..], group)
  }

  /** The map entry of the group, 0 when there is none. */
  function Lookup(offers: seq<Entry>, group: string): int {
    if offers == [] then 0 else if offers[0].name == group then offers[0].value else Lookup(offers[1..], group)
  }

  function Bytes(requests: seq<PvcRequest>): (r: seq<nat>)
    ensures |r| == |requests| && forall i | 0 <= i < |r| :: r[i] == requests[i].request
  {
    if requests == [] then [] else [requests[0].request] + Bytes(requests[1..])
  }

  /** The group's share of the verdict. */
  ghost predicate Passes(offers: seq<Entry>, g: GroupRequests) {
    if g.raw then Accepts(multiset(Disks(offers, g.group)), g.requests)
    else CeilGib(Total(Bytes(g.requests))) <= Lookup(offers, g.group)
  }

  lemma {:induction false} DisksPlus(offers: seq<Entry>, e: Entry, group: string)
    ensures Disks(offers + [e], group) == Disks(offers, group) + if Contains(e.name, group) then [e.value] else []
  {
    if offers == [] {
      assert offers + [e] == [e] && [e][1..] == [];
    } else {
      DisksPlus(offers[1..], e, group);
      assert (offers + [e])[1..] == offers[1..] + [e];
    }
  }

  lemma DisksTo(offers: seq<Entry>, i: nat, group: string)
    requires i < |offers|
    ensures Disks(offers[..i + 1], group) ==
            Disks(offers[..i], group) + if Contains(offers[i].name, group) then [offers[i].value] else []
  {
    assert offers[..i + 1] == offers[..i] + [offers[i]];
    DisksPlus(offers[..i], offers[i], group);
  }

  method DiskList(offers: seq<Entry>, group: string) returns (list: seq<int>)
    ensures list == Disks(offers, group)
  {
    list := [];
    for i := 0 to |offers|
      invariant list == Disks(offers[..i], group)
    {
      DisksTo(offers, i, group);
      if Contains(offers[i].name, group) {
        list := list + [offers[i].value];
      }
    }
    assert offers[..|offers|] == offers;
  }

  /** One turn of the loop over the groups. */
  method CheckGroup(offers: seq<Entry>, g: GroupRequests) returns (ok: bool)
    ensures ok <==> Passes(offers, g)
  {
    if g.raw {
      var list := DiskList(offers, g.group);
      var disks := new int[|list|](i requires 0 <= i < |list| => list[i]);
      assert disks[..] == list;
      ok := FilterRawGroup(disks, g.requests);
    } else {
      ok := Capacity.FilterLvmGroup(Bytes(g.requests), Lookup(offers, g.group));
    }
  }

  // Whose disks are counted.

  ghost function OwnDisks(offers: seq<Entry>, group: string): seq<int> {
    if offers == [] then []
    else (if GroupOf(offers[0]) == group then [offers[0].value] else []) + OwnDisks(offers[1..], group)
  }

  lemma {:induction false} SplitHead(s: string, c: char)
    ensures Split(s, c)[0] <= s
  {
    if s != [] && s[0] != c { SplitHead(s[1..], c); }
  }

  lemma OwnIsContained(e: Entry)
    ensures Contains(e.name, GroupOf(e))
  {
    SplitHead(e.name, '/');
    assert e.name[0..] == e.name;
  }

  /** An entry of another group, raw or not, whose name contains the group's name. */
  ghost predicate Foreign(e: Entry, group: string) {
    Contains(e.name, group) && GroupOf(e) != group
  }

  ghost predicate NoForeign(offers: seq<Entry>, group: string) {
    forall e | e in offers :: !Foreign(e, group)
  }

  lemma {:induction false} OwnAtMost(offers: seq<Entry>, group: string)
    ensures |OwnDisks(offers, group)| <= |Disks(offers, group)|
  {
    if offers != [] {
      OwnAtMost(offers[1..], group);
      OwnIsContained(offers[0]);
    }
  }

  /** Entries are picked by substring: the disks counted are the group's own if and only if no entry is foreign. */
  lemma {:induction false} OwnDisksIff(offers: seq<Entry>, group: string)
    ensures Disks(offers, group) == OwnDisks(offers, group) <==> NoForeign(offers, group)
  {
    if offers != [] {
      OwnDisksIff(offers[1..], group);
      OwnAtMost(offers[1..], group);
      OwnIsContained(offers[0]);
      assert forall e :: e in offers <==> e == offers[0] || e in offers[1..];
      assert NoForeign(offers, group) <==> !Foreign(offers[0], group) && NoForeign(offers[1..], group);
      var e, d, o := offers[0], Disks(offers[1..], group), OwnDisks(offers[1..], group);
      assert [] + d == d && [] + o == o;
      assert [e.value] + d == [e.value] + o ==> d == ([e.value] + d)[1..] == ([e.value] + o)[1..] == o;
    }
  }

  /** A claim that is accepted only because of a foreign entry. */
  lemma ForeignDiskAccepts(e: Entry, group: string, r: PvcRequest)
    requires Foreign(e, group) && 0 < r.request && Need(r) <= e.value
    ensures Passes([e], GroupRequests(group, true, [r]))
    ensures OwnDisks([e], group) == [] && !Accepts(multiset(OwnDisks([e], group)), [r])
  {
    assert [e][1..] == [] && Disks([], group) == [] && OwnDisks([], group) == [];
    assert Disks([e], group) == [e.value];
    assert OwnDisks([e], group) == [];
    assert [r] + [] == [r];
    PlacesOn([e.value], r, 0, []);
    Rejects([], r, []);
  }

  /** So a node without any disk of the raw group ssd passes if its volume group carina-vg-ssd is large enough. */
  lemma ForeignExample(value: int, r: PvcRequest)
    requires 0 < r.request && Need(r) <= value
    ensures var e := Entry("carina-vg-ssd", true, value);
            Passes([e], GroupRequests("ssd", true, [r])) && OwnDisks([e], "ssd") == []
  {
    var name := "carina-vg-ssd";
    assert name[10..] == "ssd";
    SplitPlain(name, '/');
    ForeignDiskAccepts(Entry(name, true, value), "ssd", r);
  }
}
