/** Which empty disks go to which volume group (runners/devicecheck.go). */
module DeviceCheck {
  import opened Wrappers

  /** An entry of the selector configuration; `matches` are the disk names its regular expression accepts. */
  datatype Selector = Selector(name: string, raw: bool, compiles: bool, matches: set<string>)

  /** `empty` is false as well when the usage cannot be read. */
  datatype LocalDisk = LocalDisk(name: string, havePartitions: bool, isCache: bool, supportedType: bool, empty: bool)

  type Groups = map<string, seq<string>>

  predicate Eligible(d: LocalDisk) {
    !d.havePartitions && !d.isCache && d.supportedType && d.empty
  }

  /** The selector takes the disk named x. */
  ghost predicate Wants(s: Selector, disks: seq<LocalDisk>, x: string) {
    !s.raw && s.compiles && x in s.matches && exists d | d in disks :: d.name == x && Eligible(d)
  }

  /** Selector i is the first to want x. */
  ghost predicate First(selectors: seq<Selector>, disks: seq<LocalDisk>, i: int, x: string) {
    0 <= i < |selectors| && Wants(selectors[i], disks, x) && forall j | 0 <= j < i :: !Wants(selectors[j], disks, x)
  }

  ghost predicate Taken(selectors: seq<Selector>, disks: seq<LocalDisk>, x: string) {
    exists i | 0 <= i < |selectors| :: Wants(selectors[i], disks, x)
  }

  predicate InGroup(groups: Groups, g: string, x: string) {
    g in groups && x in groups[g]
  }

  predicate DistinctNames(selectors: seq<Selector>) {
    forall i, j | 0 <= i < j < |selectors| :: selectors[i].name != selectors[j].name
  }

  /** Exactly the wanted disks are in groups, each in the group of the first selector that wants it. */
  ghost predicate FirstCome(selectors: seq<Selector>, disks: seq<LocalDisk>, groups: Groups) {
    forall g, x :: InGroup(groups, g, x) <==> exists i :: First(selectors, disks, i, x) && selectors[i].name == g
  }

  ghost predicate NoRepeats(groups: Groups) {
    forall g, i, j | g in groups && 0 <= i < j < |groups[g]| :: groups[g][i] != groups[g][j]
  }

  function Get(groups: Groups, g: string): seq<string> {
    if g in groups then groups[g] else []
  }

  /** The groups after one selector has taken what it wants of the first k disks. */
  ghost predicate TakenBy(s: Selector, disks: seq<LocalDisk>, groups0: Groups, matched0: set<string>, groups: Groups) {
    forall g, x :: InGroup(groups, g, x) <==>
      InGroup(groups0, g, x) || (g == s.name && Wants(s, disks, x) && x !in matched0)
  }

  ghost predicate MatchedBy(s: Selector, disks: seq<LocalDisk>, matched0: set<string>, matched: set<string>) {
    forall x :: x in matched <==> x in matched0 || Wants(s, disks, x)
  }

  /** The inner loop: one selector over all disks. */
  method OneSelector(s: Selector, disks: seq<LocalDisk>, groups0: Groups, matched0: set<string>)
    returns (groups: Groups, matched: set<string>)
    requires s.compiles && !s.raw && s.name !in groups0 && NoRepeats(groups0)
    ensures NoRepeats(groups) && groups.Keys <= groups0.Keys + {s.name}
    ensures MatchedBy(s, disks, matched0, matched) && TakenBy(s, disks, groups0, matched0, groups)
  {
    groups, matched := groups0, matched0;
    for k := 0 to |disks|
      invariant NoRepeats(groups) && groups.Keys <= groups0.Keys + {s.name}
      invariant MatchedBy(s, disks[..k], matched0, matched) && TakenBy(s, disks[..k], groups0, matched0, groups)
    {
      var d := disks[k];
      assert d.name in Get(groups, s.name) ==> InGroup(groups, s.name, d.name) && d.name in matched;
      OneDisk(s, disks, k, groups0, matched0, groups, matched);
      if Eligible(d) && d.name in s.matches && d.name !in Get(groups, s.name) && d.name !in matched {
        groups := groups[s.name := Get(groups, s.name) + [d.name]];
        matched := matched + {d.name};
      }
    }
    assert disks[..|disks|] == disks;
  }

  /** One disk: it is wanted and new, and joins the group, or nothing changes. */
  lemma OneDisk(s: Selector, disks: seq<LocalDisk>, k: nat, groups0: Groups, matched0: set<string>, groups: Groups,
                matched: set<string>)
    requires k < |disks| && s.compiles && !s.raw
    requires MatchedBy(s, disks[..k], matched0, matched) && TakenBy(s, disks[..k], groups0, matched0, groups)
    ensures var d := disks[k];
            if Eligible(d) && d.name in s.matches && d.name !in matched
            then
              && MatchedBy(s, disks[..k + 1], matched0, matched + {d.name})
              && TakenBy(s, disks[..k + 1], groups0, matched0, groups[s.name := Get(groups, s.name) + [d.name]])
            else
              MatchedBy(s, disks[..k + 1], matched0, matched) && TakenBy(s, disks[..k + 1], groups0, matched0, groups)
  {
    var d, next := disks[k], disks[..k + 1];
    var after := groups[s.name := Get(groups, s.name) + [d.name]];
    forall x ensures Wants(s, next, x) <==>
        Wants(s, disks[..k], x) || (x == d.name && Eligible(d) && x in s.matches)
    {
      WantsNext(s, disks, k, x);
    }
    if Eligible(d) && d.name in s.matches && d.name !in matched {
      forall g, x ensures InGroup(after, g, x) <==>
          InGroup(groups0, g, x) || (g == s.name && Wants(s, next, x) && x !in matched0)
      {
        Appended(groups, s.name, d.name, g, x);
      }
    }
  }

  lemma Appended(groups: Groups, name: string, x: string, g: string, y: string)
    ensures InGroup(groups[name := Get(groups, name) + [x]], g, y) <==> InGroup(groups, g, y) || (g == name && y == x)
  {
    assert y in Get(groups, name) + [x] <==> y in Get(groups, name) || y == x;
  }

  lemma WantsNext(s: Selector, disks: seq<LocalDisk>, k: nat, x: string)
    requires k < |disks| && s.compiles && !s.raw
    ensures Wants(s, disks[..k + 1], x) <==>
              Wants(s, disks[..k], x) || (x == disks[k].name && Eligible(disks[k]) && x in s.matches)
  {
    assert disks[..k + 1] == disks[..k] + [disks[k]];
    assert disks[k] in disks[..k + 1];
    if d :| d in disks[..k] && d.name == x && Eligible(d) { assert d in disks[..k + 1]; }
  }

  /** discoverDisk, for any order in which the selectors come. */
  method DiscoverDisk(selectors: seq<Selector>, disks: seq<LocalDisk>) returns (groups: Groups)
    requires DistinctNames(selectors)
    ensures FirstCome(selectors, disks, groups) && NoRepeats(groups)
  {
    groups := map[];
    var matched: set<string> := {};
    for n := 0 to |selectors|
      invariant NoRepeats(groups) && FirstCome(selectors[..n], disks, groups)
      invariant forall g | g in groups :: exists i | 0 <= i < n :: selectors[i].name == g
      invariant forall x :: x in matched <==> Taken(selectors[..n], disks, x)
    {
      var s := selectors[n];
      ghost var before := groups;
      ghost var known := matched;
      if !s.raw && s.compiles {
        groups, matched := OneSelector(s, disks, groups, matched);
        assert TakenBy(s, disks, before, known, groups) && MatchedBy(s, disks, known, matched);
      }
      NextSelector(selectors[..n], s, disks, before, groups, known);
      assert selectors[..n + 1] == selectors[..n] + [s];
    }
    assert selectors[..|selectors|] == selectors;
  }

  lemma NextSelector(done: seq<Selector>, s: Selector, disks: seq<LocalDisk>, before: Groups, after: Groups,
                     known: set<string>)
    requires FirstCome(done, disks, before) && (forall x :: x in known <==> Taken(done, disks, x))
    requires forall g, x :: InGroup(after, g, x) <==>
               InGroup(before, g, x) || (g == s.name && Wants(s, disks, x) && x !in known)
    ensures FirstCome(done + [s], disks, after)
    ensures forall x :: Taken(done + [s], disks, x) <==> x in known || Wants(s, disks, x)
  {
    var all := done + [s];
    forall x ensures Taken(all, disks, x) <==> Taken(done, disks, x) || Wants(s, disks, x) {
      if Wants(s, disks, x) { assert all[|done|] == s; }
      if i :| 0 <= i < |done| && Wants(done[i], disks, x) { assert all[i] == done[i]; }
    }
    forall x, i ensures First(all, disks, i, x) <==>
        First(done, disks, i, x) || (i == |done| && Wants(s, disks, x) && !Taken(done, disks, x))
    {
      assert forall j | 0 <= j < |done| :: all[j] == done[j];
      assert all[|done|] == s;
    }
    forall g, x ensures InGroup(after, g, x) <==> exists i :: First(all, disks, i, x) && all[i].name == g {
      if i :| First(done, disks, i, x) && done[i].name == g { assert First(all, disks, i, x) && all[i].name == g; }
      if g == s.name && Wants(s, disks, x) && !Taken(done, disks, x) {
        assert First(all, disks, |done|, x) && all[|done|].name == g;
      }
    }
  }

  /** No disk is in two groups, and every disk some selector wants is in one. */
  lemma GroupsDisjoint(selectors: seq<Selector>, disks: seq<LocalDisk>, groups: Groups, x: string, g: string, h: string)
    requires FirstCome(selectors, disks, groups)
    ensures InGroup(groups, g, x) && InGroup(groups, h, x) ==> g == h
    ensures (exists f :: InGroup(groups, f, x)) <==> Taken(selectors, disks, x)
  {
    if Taken(selectors, disks, x) {
      var i := FirstTaker(selectors, disks, x, 0);
      assert InGroup(groups, selectors[i].name, x);
    }
  }

  lemma {:induction false} FirstTaker(selectors: seq<Selector>, disks: seq<LocalDisk>, x: string, k: nat) returns (i: int)
    requires Taken(selectors, disks, x) && k <= |selectors|
    requires forall j | 0 <= j < k :: !Wants(selectors[j], disks, x)
    ensures First(selectors, disks, i, x)
    decreases |selectors| - k
  {
    if Wants(selectors[k], disks, x) {
      i := k;
    } else {
      i := FirstTaker(selectors, disks, x, k + 1);
    }
  }

  // Loose PVs.

  /** Selector i takes the loose PV x. */
  ghost predicate Claims(selectors: seq<Selector>, loose: seq<string>, i: int, x: string) {
    0 <= i < |selectors| && !selectors[i].raw && x in selectors[i].matches && x in loose
  }

  ghost predicate EveryClaim(selectors: seq<Selector>, loose: seq<string>, groups: Groups) {
    forall g, x :: InGroup(groups, g, x) <==> exists i :: Claims(selectors, loose, i, x) && selectors[i].name == g
  }

  ghost predicate Compile(selectors: seq<Selector>) {
    forall i | 0 <= i < |selectors| :: selectors[i].raw || selectors[i].compiles
  }

  /** The PVs one selector takes. */
  method OneSelectorPvs(s: Selector, loose: seq<string>) returns (r: seq<string>)
    ensures forall x :: x in r <==> x in loose && x in s.matches
  {
    r := [];
    for k := 0 to |loose|
      invariant forall x :: x in r <==> x in loose[..k] && x in s.matches
    {
      assert loose[..k + 1] == loose[..k] + [loose[k]];
      if loose[k] in s.matches && loose[k] !in r { r := r + [loose[k]]; }
    }
    assert loose[..|loose|] == loose;
  }

  /** discoverPv: a loose PV goes to every group whose selector matches; a bad expression ends the scan. */
  method DiscoverPv(selectors: seq<Selector>, loose: seq<string>) returns (r: Option<Groups>)
    requires DistinctNames(selectors)
    ensures r.Some? <==> Compile(selectors)
    ensures r.Some? ==> EveryClaim(selectors, loose, r.value)
  {
    var groups: Groups := map[];
    for n := 0 to |selectors|
      invariant Compile(selectors[..n]) && EveryClaim(selectors[..n], loose, groups)
    {
      var s := selectors[n];
      ghost var before := groups;
      assert selectors[..n + 1] == selectors[..n] + [s];
      if !s.raw {
        if !s.compiles {
          assert !Compile(selectors);
          return None;
        }
        var taken := OneSelectorPvs(s, loose);
        groups := groups[s.name := taken];
        assert forall x :: !InGroup(before, s.name, x);
      }
      NextClaims(selectors[..n], s, loose, before, groups);
    }
    assert selectors[..|selectors|] == selectors;
    return Some(groups);
  }

  lemma NextClaims(done: seq<Selector>, s: Selector, loose: seq<string>, before: Groups, after: Groups)
    requires EveryClaim(done, loose, before)
    requires forall g, x :: InGroup(after, g, x) <==>
               InGroup(before, g, x) || (g == s.name && !s.raw && x in loose && x in s.matches)
    ensures EveryClaim(done + [s], loose, after)
  {
    var all := done + [s];
    forall g, x ensures InGroup(after, g, x) <==> exists i :: Claims(all, loose, i, x) && all[i].name == g {
      if i :| Claims(done, loose, i, x) && done[i].name == g { assert Claims(all, loose, i, x) && all[i].name == g; }
      if i :| Claims(all, loose, i, x) && all[i].name == g {
        assert i == |done| || (Claims(done, loose, i, x) && done[i].name == g);
      }
      if g == s.name && !s.raw && x in loose && x in s.matches { assert Claims(all, loose, |done|, x); }
    }
  }

  /** The new disks and the loose PVs, group by group. */
  function Merge(a: Groups, b: Groups): Groups {
    map g | g in a.Keys + b.Keys :: Get(a, g) + Get(b, g)
  }

  ghost predicate Disjoint(groups: Groups) {
    forall g, h, x :: InGroup(groups, g, x) && InGroup(groups, h, x) ==> g == h
  }

  lemma MergeExact(a: Groups, b: Groups, g: string, x: string)
    ensures InGroup(Merge(a, b), g, x) <==> InGroup(a, g, x) || InGroup(b, g, x)
  {}

  /** No loose PV is claimed twice, or by another selector than the first to want it as a disk. */
  ghost predicate OneClaim(selectors: seq<Selector>, disks: seq<LocalDisk>, loose: seq<string>) {
    && (forall i, j, x :: Claims(selectors, loose, i, x) && Claims(selectors, loose, j, x) ==> i == j)
    && (forall i, j, x :: First(selectors, disks, i, x) && Claims(selectors, loose, j, x) ==> i == j)
  }

  /** What is handed to AddNewDiskToVg is disjoint if and only if no loose PV is claimed by two selectors. */
  lemma MergedDisjointIff(selectors: seq<Selector>, disks: seq<LocalDisk>, loose: seq<string>, a: Groups, b: Groups)
    requires DistinctNames(selectors) && FirstCome(selectors, disks, a) && EveryClaim(selectors, loose, b)
    ensures Disjoint(Merge(a, b)) <==> OneClaim(selectors, disks, loose)
  {
    var m := Merge(a, b);
    forall g, x ensures InGroup(m, g, x) <==> InGroup(a, g, x) || InGroup(b, g, x) { MergeExact(a, b, g, x); }
    if Disjoint(m) {
      forall i, j, x | Claims(selectors, loose, i, x) && Claims(selectors, loose, j, x) ensures i == j {
        assert InGroup(b, selectors[i].name, x) && InGroup(b, selectors[j].name, x);
        assert InGroup(m, selectors[i].name, x) && InGroup(m, selectors[j].name, x);
      }
      forall i, j, x | First(selectors, disks, i, x) && Claims(selectors, loose, j, x) ensures i == j {
        assert InGroup(a, selectors[i].name, x) && InGroup(b, selectors[j].name, x);
        assert InGroup(m, selectors[i].name, x) && InGroup(m, selectors[j].name, x);
      }
    }
    if OneClaim(selectors, disks, loose) {
      forall g, h, x | InGroup(m, g, x) && InGroup(m, h, x) ensures g == h {
        assert InGroup(a, g, x) || InGroup(b, g, x);
        assert InGroup(a, h, x) || InGroup(b, h, x);
      }
    }
  }
}
