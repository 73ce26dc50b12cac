/** The raw-disk part of the scheduler's filter (scheduler/schedulerplugin/localstorage/storage-plugins.go). */
module RawFilter {
  import opened Units
  import opened Sorting
  import opened Wrappers

  datatype PvcRequest = PvcRequest(exclusive: bool, request: nat)

  /** requestGb. */
  function Need(r: PvcRequest): nat {
    CeilGib(r.request)
  }

  /** What is left of a disk of v gibibytes after the request. */
  function Residual(r: PvcRequest, v: int): int {
    if r.exclusive then 0 else v - Need(r)
  }

  function Value(v: int): int {
    v
  }

  /** v is a smallest value that suffices. */
  predicate IsBest(m: multiset<int>, need: int, v: int) {
    v in m && need <= v && forall w | w in m :: need <= w ==> v <= w
  }

  ghost function BestOf(m: multiset<int>, need: int): Option<int> {
    if exists v :: IsBest(m, need, v) then Some(var v :| IsBest(m, need, v); v) else None
  }

  /** The capacities after one request, or None when no disk suffices. */
  ghost function After(m: multiset<int>, r: PvcRequest): Option<multiset<int>> {
    match BestOf(m, Need(r))
    case None => None
    case Some(v) => Some(m - multiset{v} + multiset{Residual(r, v)})
  }

  /** The requests are placed one after the other. */
  ghost predicate Accepts(m: multiset<int>, rs: seq<PvcRequest>)
    decreases |rs|
  {
    rs == [] || (After(m, rs[0]).Some? && Accepts(After(m, rs[0]).value, rs[1..]))
  }

  lemma Replaced(s: seq<int>, p: nat, x: int)
    requires p < |s|
    ensures multiset(s[p := x]) == multiset(s) - multiset{s[p]} + multiset{x}
  {
    assert s == s[..p] + [s[p]] + s[p + 1..];
    assert s[p := x] == s[..p] + [x] + s[p + 1..];
  }

  /** The smallest sufficient value is unique. */
  lemma BestIs(m: multiset<int>, need: int, v: int)
    requires IsBest(m, need, v)
    ensures BestOf(m, need) == Some(v)
  {
  }

  /** What minimumValueMinus promises, whatever order the capacities were in. */
  ghost predicate Takes(before: seq<int>, r: PvcRequest, index: int, after: seq<int>) {
    && After(multiset(before), r) == (if index < 0 then None else Some(multiset(after)))
    && (index < 0 ==> multiset(after) == multiset(before))
  }

  lemma FirstIsTaken(before: seq<int>, s: seq<int>, r: PvcRequest, p: nat)
    requires multiset(before) == multiset(s)
    requires Ascending(s, Value) && p < |s| && Need(r) <= s[p] && forall k | 0 <= k < p :: s[k] < Need(r)
    ensures Takes(before, r, p, s[p := Residual(r, s[p])])
  {
    forall w | w in multiset(s) && Need(r) <= w ensures s[p] <= w {
      var k :| 0 <= k < |s| && s[k] == w;
    }
    BestIs(multiset(s), Need(r), s[p]);
    Replaced(s, p, Residual(r, s[p]));
  }

  lemma NoneIsTaken(before: seq<int>, s: seq<int>, r: PvcRequest)
    requires multiset(before) == multiset(s)
    requires forall k | 0 <= k < |s| :: s[k] < Need(r)
    ensures Takes(before, r, -1, s)
  {
    assert forall w | w in multiset(s) :: w in s;
  }

  method FirstSufficient(a: array<int>, need: int) returns (index: nat)
    ensures index <= a.Length && forall k | 0 <= k < index :: a[k] < need
    ensures index < a.Length ==> need <= a[index]
  {
    index := 0;
    while index < a.Length && a[index] < need
      invariant index <= a.Length && forall k | 0 <= k < index :: a[k] < need
    {
      index := index + 1;
    }
  }

  /** minimumValueMinus: sort, take the first value that suffices, and lower or zero it. */
  method MinimumValueMinus(a: array<int>, r: PvcRequest) returns (index: int)
    modifies a
    ensures index < a.Length && Takes(old(a[..]), r, index, a[..])
  {
    ghost var before := a[..];
    SortBy(a, Value);
    ghost var s := a[..];
    index := FirstSufficient(a, Need(r));
    assert forall k | 0 <= k < index :: s[k] == a[k] < Need(r);
    if index == a.Length {
      NoneIsTaken(before, s, r);
      return -1;
    }
    FirstIsTaken(before, s, r, index);
    a[index] := Residual(r, a[index]);
    assert a[..] == s[index := Residual(r, s[index])];
  }

  /** The loop over the requests of one device group; `false` is "node storage resource insufficient". */
  method FilterRawGroup(allocatable: array<int>, requests: seq<PvcRequest>) returns (ok: bool)
    modifies allocatable
    ensures ok <==> Accepts(multiset(old(allocatable[..])), requests)
  {
    ghost var m := multiset(allocatable[..]);
    for i := 0 to |requests|
      invariant Accepts(m, requests) <==> Accepts(multiset(allocatable[..]), requests[i..])
    {
      var index := MinimumValueMinus(allocatable, requests[i]);
      assert requests[i..][0] == requests[i] && requests[i..][1..] == requests[i + 1..];
      if index < 0 { return false; }
    }
    return true;
  }

  /** Placing a request takes some disk to its residual. */
  lemma TakeDisk(avail: seq<int>, r: PvcRequest) returns (p: nat)
    requires After(multiset(avail), r).Some?
    ensures p < |avail| && IsBest(multiset(avail), Need(r), avail[p])
    ensures After(multiset(avail), r) == Some(multiset(avail[p := Residual(r, avail[p])]))
  {
    var v :| IsBest(multiset(avail), Need(r), v) && BestOf(multiset(avail), Need(r)) == Some(v);
    p :| 0 <= p < |avail| && avail[p] == v;
    Replaced(avail, p, Residual(r, v));
  }

  /** Every claim gets a disk of its own that is large enough. */
  ghost predicate InjectiveFit(claims: seq<PvcRequest>, disks: seq<int>, f: seq<nat>) {
    && |f| == |claims|
    && (forall i | 0 <= i < |f| :: f[i] < |disks| && Need(claims[i]) <= disks[f[i]])
    && (forall i, j | 0 <= i < j < |f| :: f[i] != f[j])
  }

  lemma OneDiskOneClaim(claims: seq<PvcRequest>, disk: int, f: seq<nat>)
    requires |claims| >= 2
    ensures !InjectiveFit(claims, [disk], f)
  {
    assert |f| >= 2 && f[0] < 1 && f[1] < 1 ==> f[0] == f[1];
  }

  predicate AllExclusive(claims: seq<PvcRequest>) {
    forall i | 0 <= i < |claims| :: claims[i].exclusive && 0 < claims[i].request
  }

  /**
   The exchange step: whoever has the smallest sufficient disk in some fit can take the first
   claim's disk instead.
   */
  lemma Exchange(claims: seq<PvcRequest>, disks: seq<int>, f: seq<nat>, p: nat) returns (g: seq<nat>)
    requires claims != [] && AllExclusive(claims) && InjectiveFit(claims, disks, f)
    requires p < |disks| && IsBest(multiset(disks), Need(claims[0]), disks[p])
    ensures InjectiveFit(claims[1..], disks[p := 0], g)
  {
    assert disks[f[0]] in multiset(disks);
    if j :| 1 <= j < |f| && f[j] == p {
      g := f[1..][j - 1 := f[0]];
    } else {
      g := f[1..];
    }
  }

  /** The converse: a fit of the rest leaves the zeroed disk free for the first claim. */
  lemma ExtendsFit(claims: seq<PvcRequest>, disks: seq<int>, p: nat, g: seq<nat>)
    requires claims != [] && AllExclusive(claims)
    requires p < |disks| && Need(claims[0]) <= disks[p] && InjectiveFit(claims[1..], disks[p := 0], g)
    ensures InjectiveFit(claims, disks, [p] + g)
  {
    forall i | 0 <= i < |g| ensures g[i] != p {
      assert Need(claims[1..][i]) <= disks[p := 0][g[i]];
    }
  }

  /**
   For exclusive claims the filter is exact, in whatever order the claims come: it accepts
   if and only if the claims can be given different, large enough disks.
   */
  lemma {:induction false} ExclusiveExact(disks: seq<int>, claims: seq<PvcRequest>)
    requires AllExclusive(claims)
    ensures Accepts(multiset(disks), claims) <==> exists f :: InjectiveFit(claims, disks, f)
    decreases |claims|
  {
    if claims == [] {
      assert InjectiveFit(claims, disks, []);
    } else if After(multiset(disks), claims[0]).None? {
      forall f | InjectiveFit(claims, disks, f) ensures false {
        NoneSuffices(disks, Need(claims[0]), f[0]);
      }
    } else {
      var p := TakeDisk(disks, claims[0]);
      var left, rest := disks[p := 0], claims[1..];
      ExclusiveExact(left, rest);
      if f :| InjectiveFit(claims, disks, f) {
        var g := Exchange(claims, disks, f, p);
      }
      if g :| InjectiveFit(rest, left, g) {
        ExtendsFit(claims, disks, p, g);
      }
    }
  }

  lemma NoneSuffices(disks: seq<int>, need: int, k: nat)
    requires BestOf(multiset(disks), need).None? && k < |disks|
    ensures disks[k] < need
    decreases if need <= disks[k] then disks[k] - need else -1
  {
    if need <= disks[k] {
      assert disks[k] in multiset(disks);
      if w :| w in multiset(disks) && need <= w < disks[k] {
        var q :| 0 <= q < |disks| && disks[q] == w;
        NoneSuffices(disks, need, q);
      } else {
        assert IsBest(multiset(disks), need, disks[k]);
      }
    }
  }

  /** The gibibytes the claims put on disk d. */
  function Load(claims: seq<PvcRequest>, f: seq<nat>, d: nat): nat
    requires |f| == |claims|
  {
    if claims == [] then 0
    else (if f[0] == d then Need(claims[0]) else 0) + Load(claims[1..], f[1..], d)
  }

  ghost predicate Placement(claims: seq<PvcRequest>, disks: seq<int>, f: seq<nat>) {
    && |f| == |claims|
    && (forall i | 0 <= i < |f| :: f[i] < |disks|)
    && (forall d | 0 <= d < |disks| :: Load(claims, f, d) <= disks[d])
    && (forall i, j | 0 <= i < j < |f| :: f[i] == f[j] && claims[i].exclusive ==> Need(claims[j]) == 0)
  }

  lemma {:induction false} LoadCovers(claims: seq<PvcRequest>, f: seq<nat>, i: nat)
    requires |f| == |claims| && i < |f|
    ensures Need(claims[i]) <= Load(claims, f, f[i])
  {
    if i > 0 { LoadCovers(claims[1..], f[1..], i - 1); }
  }

  lemma ExtendsPlacement(disks: seq<int>, claims: seq<PvcRequest>, p: nat, g: seq<nat>)
    requires claims != [] && p < |disks| && Need(claims[0]) <= disks[p]
    requires Placement(claims[1..], disks[p := Residual(claims[0], disks[p])], g)
    ensures Placement(claims, disks, [p] + g)
  {
    var f, rest := [p] + g, disks[p := Residual(claims[0], disks[p])];
    assert f[1..] == g;
    forall j | 1 <= j < |f| && f[j] == p && claims[0].exclusive ensures Need(claims[j]) == 0 {
      LoadCovers(claims[1..], g, j - 1);
      assert Load(claims[1..], g, p) <= rest[p] == 0;
    }
    forall d | 0 <= d < |disks| ensures Load(claims, f, d) <= disks[d] {
      assert Load(claims[1..], g, d) <= rest[d];
    }
  }

  /**
   Whatever mix is accepted can be laid out: no disk is promised more than it has, and nothing of
   positive size follows an exclusive claim onto its disk.
   */
  lemma {:induction false} AcceptedPlacement(disks: seq<int>, claims: seq<PvcRequest>) returns (f: seq<nat>)
    requires Accepts(multiset(disks), claims) && forall d | 0 <= d < |disks| :: 0 <= disks[d]
    ensures Placement(claims, disks, f)
    decreases |claims|
  {
    if claims == [] {
      f := [];
    } else {
      var r := claims[0];
      var p := TakeDisk(disks, r);
      var rest := disks[p := Residual(r, disks[p])];
      var g := AcceptedPlacement(rest, claims[1..]);
      f := [p] + g;
      ExtendsPlacement(disks, claims, p, g);
    }
  }

  /** When the exclusive claims come first, each of them keeps its disk to itself. */
  lemma ExclusiveAlone(disks: seq<int>, claims: seq<PvcRequest>, f: seq<nat>, i: nat, j: nat)
    requires Placement(claims, disks, f) && i < |claims| && j < |claims| && i != j
    requires claims[i].exclusive && 0 < claims[i].request && 0 < claims[j].request
    requires j < i ==> claims[j].exclusive
    ensures f[i] != f[j]
  {
    assert 0 < Need(claims[i]) && 0 < Need(claims[j]);
  }

  /** One step on a concrete list of disks. */
  lemma PlacesOn(disks: seq<int>, r: PvcRequest, p: nat, rest: seq<PvcRequest>)
    requires p < |disks| && Need(r) <= disks[p]
    requires forall k | 0 <= k < |disks| :: Need(r) <= disks[k] ==> disks[p] <= disks[k]
    ensures Accepts(multiset(disks), [r] + rest) == Accepts(multiset(disks[p := Residual(r, disks[p])]), rest)
  {
    forall w | w in multiset(disks) && Need(r) <= w ensures disks[p] <= w {
      var k :| 0 <= k < |disks| && disks[k] == w;
    }
    BestIs(multiset(disks), Need(r), disks[p]);
    Replaced(disks, p, Residual(r, disks[p]));
    assert ([r] + rest)[1..] == rest;
  }

  lemma Rejects(disks: seq<int>, r: PvcRequest, rest: seq<PvcRequest>)
    requires forall k | 0 <= k < |disks| :: disks[k] < Need(r)
    ensures !Accepts(multiset(disks), [r] + rest)
  {
    NoneIsTaken(disks, disks, r);
  }

  /**
   An exclusive and a non-exclusive claim on one disk that holds both: the order the sort leaves
   them in decides the verdict, and the accepted order gives the exclusive claim a disk in use.
   */
  lemma TieOrderDecides(disk: int, a: PvcRequest, b: PvcRequest)
    requires a.exclusive && !b.exclusive && 0 < b.request && Need(a) + Need(b) <= disk
    ensures Accepts(multiset([disk]), [b] + [a]) && !Accepts(multiset([disk]), [a] + [b])
  {
    PlacesOn([disk], b, 0, [a]);
    PlacesOn([disk - Need(b)], a, 0, []);
    PlacesOn([disk], a, 0, [b]);
    Rejects([0], b, []);
    assert [a] + [] == [a] && [b] + [] == [b];
    assert [disk][0 := disk - Need(b)] == [disk - Need(b)] && [disk][0 := 0] == [0];
  }

  lemma FourLoads(a: PvcRequest, b: PvcRequest, c: PvcRequest, d: PvcRequest)
    ensures Load([a, b, c, d], [0, 0, 1, 1], 0) == Need(a) + Need(b)
    ensures Load([a, b, c, d], [0, 0, 1, 1], 1) == Need(c) + Need(d)
  {
    assert [a, b, c, d][1..] == [b, c, d] && [b, c, d][1..] == [c, d] && [c, d][1..] == [d];
    assert [0, 0, 1, 1][1..] == [0, 1, 1] && [0, 1, 1][1..] == [1, 1] && [1, 1][1..] == [1];
    assert [d][1..] == [] && [1][1..] == [];
    assert Load([d], [1], 0) == 0 && Load([d], [1], 1) == Need(d);
    assert Load([c, d], [1, 1], 0) == 0 && Load([c, d], [1, 1], 1) == Need(c) + Need(d);
  }

  lemma LastTwoRejected(b: PvcRequest)
    requires !b.exclusive && Need(b) == 3
    ensures !Accepts(multiset([4, 2]), [b] + [b])
  {
    PlacesOn([4, 2], b, 0, [b]);
    Rejects([1, 2], b, []);
    assert [b] + [] == [b];
    assert [4, 2][0 := 1] == [1, 2];
  }

  lemma LastThreeRejected(b: PvcRequest)
    requires !b.exclusive && Need(b) == 3
    ensures !Accepts(multiset([7, 2]), [b] + ([b] + [b]))
  {
    PlacesOn([7, 2], b, 0, [b] + [b]);
    LastTwoRejected(b);
    assert [7, 2][0 := 4] == [4, 2];
  }

  /** Claims 4, 3, 3, 3 fit on disks of 7 and 6 (4 + 3 and 3 + 3), and the filter rejects them. */
  lemma MixedIncomplete(a: PvcRequest, b: PvcRequest)
    requires !a.exclusive && !b.exclusive && Need(a) == 4 && Need(b) == 3
    ensures Placement([a, b, b, b], [7, 6], [0, 0, 1, 1])
    ensures !Accepts(multiset([7, 6]), [a, b, b, b])
  {
    FourLoads(a, b, b, b);
    assert !Accepts(multiset([7, 6]), [a, b, b, b]) by {
      PlacesOn([7, 6], a, 1, [b] + ([b] + [b]));
      LastThreeRejected(b);
      assert [7, 6][1 := 2] == [7, 2];
      assert [a] + ([b] + ([b] + [b])) == [a, b, b, b];
    }
  }
}

/** The storage requests of a pod, by device group (getPvcRequestMap). */
module PvcRequests {
  import opened RawFilter

  /** `group` is where the controller puts the cache. */
  datatype Cache = NoCache | BadRatio | Ratio(percent: nat, group: string)

  /**
   What the listers say about one volume of the pod. Skipped is a volume without a claim, without
   a storage class, of another provisioner or of a host directory; Missing is a failed lookup. The
   group is the resolved one, "" when the class names none; a ratio that is negative or no number
   is BadRatio. `rawClass` says that the class names a raw group.
   */
  datatype PodVolume =
    | Skipped
    | Missing
    | Bound(node: string)
    | Pending(group: string, rawClass: bool, cache: Cache, exclusive: bool, request: nat)

  /** `groups` lists the keys of the map. */
  datatype Answer =
    Failed | Requests(byGroup: map<string, seq<PvcRequest>>, groups: seq<string>, node: string, useRaw: bool)

  predicate Usable(v: PodVolume) {
    && !v.Missing?
    && (v.Pending? ==> v.group != "" && !v.cache.BadRatio? && (v.cache.Ratio? ==> 1 <= v.cache.percent < 100))
  }

  ghost predicate Clash(vols: seq<PodVolume>, i: nat, j: nat) {
    i < j < |vols| && vols[i].Bound? && vols[j].Bound? && vols[i].node != "" && vols[j].node != vols[i].node
  }

  predicate InGroup(v: PodVolume, g: string) {
    v.Pending? && v.group == g
  }

  /** The flag is never cleared once some class has set it. */
  ghost predicate Sticky(vols: seq<PodVolume>) {
    exists i | 0 <= i < |vols| :: vols[i].Pending? && vols[i].exclusive
  }

  function CacheRequest(v: PodVolume): PvcRequest
    requires v.Pending? && v.cache.Ratio?
  {
    PvcRequest(false, v.request * v.cache.percent / 100)
  }

  /** The requests of a pending volume, the cache's first. */
  function Asks(v: PodVolume, exclusive: bool): seq<PvcRequest>
    requires v.Pending?
  {
    (if v.cache.Ratio? then [CacheRequest(v)] else []) + [PvcRequest(exclusive, v.request)]
  }

  /** The claims of the group, each with its own class's flag, and their caches. */
  ghost function Wanted(vols: seq<PodVolume>, g: string): seq<PvcRequest> {
    if vols == [] then []
    else
      var v, rest := vols[|vols| - 1], Wanted(vols[..|vols| - 1], g);
      if InGroup(v, g) then rest + Asks(v, v.exclusive) else rest
  }

  /** What is recorded: the flag sticks, and a claim without a cache starts the group's list over. */
  ghost function Recorded(vols: seq<PodVolume>, g: string): seq<PvcRequest> {
    if vols == [] then []
    else
      var v, rest := vols[|vols| - 1], Recorded(vols[..|vols| - 1], g);
      if InGroup(v, g) then (if v.cache.NoCache? then [] else rest) + Asks(v, Sticky(vols)) else rest
  }

  /** i asks for the group, and j, later and without a cache, makes the list forget it. */
  ghost predicate Forgets(vols: seq<PodVolume>, g: string, i: nat, j: nat) {
    i < j < |vols| && InGroup(vols[i], g) && InGroup(vols[j], g) && vols[j].cache.NoCache?
  }

  /** i, of any group, is exclusive, and j, later and in the group, is not. */
  ghost predicate Taints(vols: seq<PodVolume>, g: string, i: nat, j: nat) {
    i < j < |vols| && vols[i].Pending? && vols[i].exclusive && InGroup(vols[j], g) && !vols[j].exclusive
  }

  ghost predicate Faithful(vols: seq<PodVolume>, g: string) {
    (forall i: nat, j: nat :: !Forgets(vols, g, i, j)) && (forall i: nat, j: nat :: !Taints(vols, g, i, j))
  }

  lemma {:induction false} RecordedAtMost(vols: seq<PodVolume>, g: string)
    ensures |Recorded(vols, g)| <= |Wanted(vols, g)|
    ensures Wanted(vols, g) != [] <==> exists i | 0 <= i < |vols| :: InGroup(vols[i], g)
  {
    if vols != [] {
      var n := |vols| - 1;
      RecordedAtMost(vols[..n], g);
      assert forall i | 0 <= i < n :: vols[..n][i] == vols[i];
    }
  }

  lemma FaithfulStep(vols: seq<PodVolume>, g: string)
    requires vols != []
    ensures var n := |vols| - 1; var init, v := vols[..n], vols[n];
            Faithful(vols, g) <==> Faithful(init, g) && (InGroup(v, g) ==>
              && (v.cache.NoCache? ==> Wanted(init, g) == [])
              && Sticky(vols) == v.exclusive)
  {
    var n := |vols| - 1;
    var init, v := vols[..n], vols[n];
    RecordedAtMost(init, g);
    StickyStep(vols);
    assert forall i | 0 <= i < n :: init[i] == vols[i];
    forall i: nat, j: nat | j < n ensures Forgets(vols, g, i, j) == Forgets(init, g, i, j) { }
    forall i: nat, j: nat | j < n ensures Taints(vols, g, i, j) == Taints(init, g, i, j) { }
    if InGroup(v, g) {
      forall i | 0 <= i < n && InGroup(vols[i], g) && v.cache.NoCache? ensures Forgets(vols, g, i, n) { }
      if Sticky(init) && !v.exclusive {
        var i :| 0 <= i < n && init[i].Pending? && init[i].exclusive;
        assert Taints(vols, g, i, n);
      }
    }
  }

  /**
   The list recorded for a group is what the pod asks of it if and only if no claim without a
   cache follows another claim of the group and no plain claim of the group follows an exclusive one.
   */
  lemma {:induction false} RecordedExact(vols: seq<PodVolume>, g: string)
    ensures Recorded(vols, g) == Wanted(vols, g) <==> Faithful(vols, g)
  {
    if vols != [] {
      var n := |vols| - 1;
      var init, v := vols[..n], vols[n];
      RecordedExact(init, g);
      RecordedAtMost(init, g);
      FaithfulStep(vols, g);
      if InGroup(v, g) {
        var kept := if v.cache.NoCache? then [] else Recorded(init, g);
        assert forall x :: Asks(v, x)[|Asks(v, x)| - 1].exclusive == x;
        SuffixesEqual(kept, Asks(v, Sticky(vols)), Wanted(init, g), Asks(v, v.exclusive));
      }
    }
  }

  lemma SuffixesEqual(a: seq<PvcRequest>, b: seq<PvcRequest>, c: seq<PvcRequest>, d: seq<PvcRequest>)
    requires |b| == |d|
    ensures a + b == c + d <==> a == c && b == d
  {
    if a + b == c + d {
      assert a == (a + b)[..|a|] && b == (a + b)[|a|..];
      assert c == (c + d)[..|c|] && d == (c + d)[|c|..];
    }
  }

  /** nodeName after the volumes: the first non-empty one. */
  ghost function NodeOf(vols: seq<PodVolume>): string {
    if vols == [] then ""
    else
      var before, v := NodeOf(vols[..|vols| - 1]), vols[|vols| - 1];
      if before == "" && v.Bound? then v.node else before
  }

  lemma {:induction false} NodeOfFirst(vols: seq<PodVolume>)
    requires NodeOf(vols) != ""
    ensures exists i | 0 <= i < |vols| :: vols[i].Bound? && vols[i].node == NodeOf(vols)
  {
    var n := |vols| - 1;
    if NodeOf(vols[..n]) != "" {
      NodeOfFirst(vols[..n]);
      var i :| 0 <= i < n && vols[..n][i].Bound? && vols[..n][i].node == NodeOf(vols[..n]);
      assert vols[i].Bound?;
    }
  }

  lemma {:induction false} NoNodeYet(vols: seq<PodVolume>, i: nat)
    requires NodeOf(vols) == "" && i < |vols| && vols[i].Bound?
    ensures vols[i].node == ""
  {
    if i < |vols| - 1 { NoNodeYet(vols[..|vols| - 1], i); }
  }

  ghost predicate Fine(vols: seq<PodVolume>) {
    && (forall i | 0 <= i < |vols| :: Usable(vols[i]))
    && !exists i, j :: Clash(vols, i, j)
  }

  /** One more volume keeps the pod fine exactly when it is usable and bound to the same node. */
  lemma FineStep(vols: seq<PodVolume>)
    requires vols != [] && Fine(vols[..|vols| - 1])
    ensures var before, v := NodeOf(vols[..|vols| - 1]), vols[|vols| - 1];
            Fine(vols) <==> Usable(v) && (v.Bound? && before != "" ==> v.node == before)
  {
    var n := |vols| - 1;
    var init, v := vols[..n], vols[n];
    assert forall i | 0 <= i < n :: init[i] == vols[i];
    forall i: nat, j: nat | Clash(vols, i, j) && j < n ensures Clash(init, i, j) { }
    if NodeOf(init) != "" {
      NodeOfFirst(init);
      var i :| 0 <= i < n && init[i].Bound? && init[i].node == NodeOf(init);
      assert v.Bound? && v.node != NodeOf(init) ==> Clash(vols, i, n);
      forall k: nat | Clash(vols, k, n) ensures v.node != NodeOf(init) {
        assert k < i ==> !Clash(init, k, i);
        assert i < k ==> !Clash(init, i, k);
      }
    } else {
      forall k: nat | Clash(vols, k, n) ensures false { NoNodeYet(init, k); }
    }
  }

  lemma FineShrinks(vols: seq<PodVolume>, n: nat)
    requires n <= |vols| && Fine(vols)
    ensures Fine(vols[..n])
  {
    assert forall i | 0 <= i < n :: vols[..n][i] == vols[i];
    forall i: nat, j: nat | Clash(vols[..n], i, j) ensures Clash(vols, i, j) { }
  }

  /** The two appends; without a cache the second one extends the list of group "", which is empty. */
  method AddRequests(byGroup: map<string, seq<PvcRequest>>, v: PodVolume, exclusive: bool)
    returns (r: map<string, seq<PvcRequest>>)
    requires v.Pending? && Usable(v) && "" !in byGroup
    ensures r == byGroup[v.group := (if v.cache.NoCache? then [] else Get(byGroup, v.group)) + Asks(v, exclusive)]
  {
    var cacheGroup := "";
    r := byGroup;
    if v.cache.Ratio? {
      cacheGroup := v.group;
      r := r[cacheGroup := Get(r, cacheGroup) + [CacheRequest(v)]];
    }
    r := r[v.group := Get(r, cacheGroup) + [PvcRequest(exclusive, v.request)]];
    if v.cache.Ratio? {
      assert r[v.group] == Get(byGroup, v.group) + Asks(v, exclusive);
    } else {
      assert r[v.group] == [] + Asks(v, exclusive);
    }
  }

  ghost predicate UsesRaw(vols: seq<PodVolume>) {
    exists i | 0 <= i < |vols| :: vols[i].Pending? && vols[i].rawClass
  }

  /** The map holds what is recorded, and its keys are listed. */
  ghost predicate Holds(vols: seq<PodVolume>, byGroup: map<string, seq<PvcRequest>>, groups: seq<string>) {
    && "" !in byGroup
    && (forall g :: Recorded(vols, g) == Get(byGroup, g))
    && (forall g :: g in groups <==> g in byGroup)
    && (forall g | g in byGroup :: byGroup[g] != [])
  }

  /** A volume that is not pending changes no list. */
  lemma HoldsSame(vols: seq<PodVolume>, byGroup: map<string, seq<PvcRequest>>, groups: seq<string>)
    requires vols != [] && !vols[|vols| - 1].Pending? && Holds(vols[..|vols| - 1], byGroup, groups)
    ensures Holds(vols, byGroup, groups)
  {}

  lemma HoldsNext(vols: seq<PodVolume>, before: map<string, seq<PvcRequest>>, after: map<string, seq<PvcRequest>>,
                  groups: seq<string>)
    requires vols != [] && vols[|vols| - 1].Pending? && Usable(vols[|vols| - 1]) && Holds(vols[..|vols| - 1], before, groups)
    requires var v := vols[|vols| - 1];
             after == before[v.group := (if v.cache.NoCache? then [] else Get(before, v.group)) + Asks(v, Sticky(vols))]
    ensures var v := vols[|vols| - 1]; Holds(vols, after, if v.group in groups then groups else groups + [v.group])
  {
    var v := vols[|vols| - 1];
    var groups' := if v.group in groups then groups else groups + [v.group];
    forall g ensures g in groups' <==> g in after {
      assert g in groups + [v.group] <==> g in groups || g == v.group;
    }
    forall g ensures Recorded(vols, g) == Get(after, g) {
      assert Recorded(vols[..|vols| - 1], g) == Get(before, g);
    }
  }

  lemma FlagsStep(vols: seq<PodVolume>)
    requires vols != []
    ensures var n := |vols| - 1; UsesRaw(vols) <==> UsesRaw(vols[..n]) || (vols[n].Pending? && vols[n].rawClass)
  {
    var n := |vols| - 1;
    assert forall i | 0 <= i < n :: vols[..n][i] == vols[i];
  }

  /** The loop's variables after the volumes. */
  ghost predicate SoFar(vols: seq<PodVolume>, a: Answer, exclusive: bool) {
    && a.Requests? && Fine(vols) && a.node == NodeOf(vols) && a.useRaw == UsesRaw(vols) && exclusive == Sticky(vols)
    && Holds(vols, a.byGroup, a.groups)
  }

  /** One turn of the loop. */
  method OneVolume(ghost vols: seq<PodVolume>, v: PodVolume, a: Answer, exclusive: bool) returns (r: Answer, flag: bool)
    requires vols != [] && vols[|vols| - 1] == v && SoFar(vols[..|vols| - 1], a, exclusive)
    ensures r.Requests? <==> Fine(vols)
    ensures r.Requests? ==> SoFar(vols, r, flag)
  {
    FineStep(vols);
    FlagsStep(vols);
    StickyStep(vols);
    match v
    case Skipped =>
      HoldsSame(vols, a.byGroup, a.groups);
      return a, exclusive;
    case Missing =>
      return Failed, exclusive;
    case Bound(at) =>
      HoldsSame(vols, a.byGroup, a.groups);
      if a.node == "" { return a.(node := at), exclusive; }
      if a.node != at { return Failed, exclusive; }
      return a, exclusive;
    case Pending(group, rawClass, cache, wantsAlone, request) =>
      if cache.BadRatio? || (cache.Ratio? && !(1 <= cache.percent < 100)) || group == "" {
        return Failed, exclusive;
      }
      flag := exclusive || wantsAlone;
      var byGroup := AddRequests(a.byGroup, v, flag);
      HoldsNext(vols, a.byGroup, byGroup, a.groups);
      r := Requests(byGroup, if group in a.groups then a.groups else a.groups + [group], a.node, a.useRaw || rawClass);
  }

  /** getPvcRequestMap. */
  method GetPvcRequestMap(vols: seq<PodVolume>) returns (r: Answer)
    ensures r.Requests? <==> Fine(vols)
    ensures r.Requests? ==> r.node == NodeOf(vols) && r.useRaw == UsesRaw(vols) && Holds(vols, r.byGroup, r.groups)
  {
    r := Requests(map[], [], "", false);
    var exclusive := false;
    for n := 0 to |vols|
      invariant SoFar(vols[..n], r, exclusive)
    {
      ghost var vs := vols[..n + 1];
      assert vs[..n] == vols[..n];
      if Fine(vols) { FineShrinks(vols, n + 1); }
      r, exclusive := OneVolume(vs, vols[n], r, exclusive);
      if r.Failed? { return; }
    }
    assert vols[..|vols|] == vols;
  }

  function Get(m: map<string, seq<PvcRequest>>, g: string): seq<PvcRequest> {
    if g in m then m[g] else []
  }

  lemma StickyStep(vols: seq<PodVolume>)
    requires vols != []
    ensures var n := |vols| - 1; Sticky(vols) <==> Sticky(vols[..n]) || (vols[n].Pending? && vols[n].exclusive)
  {
    var n := |vols| - 1;
    assert forall i | 0 <= i < n :: vols[..n][i] == vols[i];
  }

  /** A group is listed exactly when some pending volume is of it. */
  lemma {:induction false} RecordedOfNone(vols: seq<PodVolume>, g: string)
    ensures Recorded(vols, g) != [] <==> exists i | 0 <= i < |vols| :: InGroup(vols[i], g)
  {
    if vols != [] {
      var n := |vols| - 1;
      RecordedOfNone(vols[..n], g);
      assert forall i | 0 <= i < n :: vols[..n][i] == vols[i];
    }
  }

  // What has to be built on a group: a cache goes to the group its class names for it.

  function Parts(v: PodVolume, g: string): seq<PvcRequest> {
    if !v.Pending? then []
    else (if v.cache.Ratio? && v.cache.group == g then [CacheRequest(v)] else [])
         + (if v.group == g then [PvcRequest(v.exclusive, v.request)] else [])
  }

  ghost function Needed(vols: seq<PodVolume>, g: string): seq<PvcRequest> {
    if vols == [] then [] else Needed(vols[..|vols| - 1], g) + Parts(vols[|vols| - 1], g)
  }

  /** A cache is on the group exactly when its volume is. */
  predicate AtHome(v: PodVolume, g: string) {
    v.Pending? && v.cache.Ratio? ==> (v.group == g <==> v.cache.group == g)
  }

  ghost predicate CachesAtHome(vols: seq<PodVolume>, g: string) {
    forall i | 0 <= i < |vols| :: AtHome(vols[i], g)
  }

  lemma {:induction false} WantedIsNeeded(vols: seq<PodVolume>, g: string)
    requires CachesAtHome(vols, g) && forall i | 0 <= i < |vols| :: Usable(vols[i])
    ensures Wanted(vols, g) == Needed(vols, g)
  {
    if vols != [] {
      var n := |vols| - 1;
      assert forall i | 0 <= i < n :: vols[..n][i] == vols[i];
      WantedIsNeeded(vols[..n], g);
      assert AtHome(vols[n], g);
    }
  }

  /** The cache of a volume is counted on the volume's own group, not on the one it is built on. */
  lemma CacheCountedElsewhere(v: PodVolume)
    requires v.Pending? && v.cache.Ratio? && v.cache.group != v.group
    ensures Recorded([v], v.cache.group) == [] && Needed([v], v.cache.group) == [CacheRequest(v)]
    ensures Recorded([v], v.group) == [CacheRequest(v)] + Needed([v], v.group)
  {
    assert [v][..0] == [];
    assert Sticky([v]) == v.exclusive by { assert [v][0] == v; }
  }

  // What the lists can look like.

  /**
   A list that asks for nothing but exclusive disks has one request at most: a claim without a cache
   replaces the list, and one with a cache adds a request that is not exclusive.
   */
  lemma {:induction false} ExclusiveListIsShort(vols: seq<PodVolume>, g: string)
    requires forall i | 0 <= i < |vols| :: Usable(vols[i])
    ensures AllExclusive(Recorded(vols, g)) ==> |Recorded(vols, g)| <= 1
  {
    if vols != [] {
      var n := |vols| - 1;
      var v, rest, all := vols[n], Recorded(vols[..n], g), Recorded(vols, g);
      assert forall i | 0 <= i < n :: vols[..n][i] == vols[i];
      ExclusiveListIsShort(vols[..n], g);
      if InGroup(v, g) && v.cache.Ratio? {
        assert all == rest + Asks(v, Sticky(vols));
        assert all[|rest|] == Asks(v, Sticky(vols))[0] && !all[|rest|].exclusive;
      }
    }
  }

  function Exclusive(g: string, request: nat): PodVolume {
    Pending(g, true, NoCache, true, request)
  }

  /** One more exclusive claim of the group. */
  lemma OneMoreExclusive(vols: seq<PodVolume>, g: string, request: nat)
    ensures var all, r := vols + [Exclusive(g, request)], PvcRequest(true, request);
            Recorded(all, g) == [r] && Wanted(all, g) == Wanted(vols, g) + [r]
  {
    var v := Exclusive(g, request);
    var all := vols + [v];
    assert all[|vols|] == v && all[..|all| - 1] == vols;
    assert Sticky(all);
    assert Asks(v, true) == [PvcRequest(true, request)];
    assert [] + Asks(v, true) == Asks(v, true);
  }

  /** Two exclusive claims of one group: only the second is recorded, and any disk for it is enough. */
  lemma TwoExclusiveClaims(g: string, a: nat, b: nat, disk: int)
    requires 0 < a && 0 < b && Need(PvcRequest(true, b)) <= disk
    ensures var vols, ra, rb := [Exclusive(g, a)] + [Exclusive(g, b)], PvcRequest(true, a), PvcRequest(true, b);
            && Recorded(vols, g) == [rb] && Wanted(vols, g) == [ra, rb]
            && Accepts(multiset([disk]), [rb]) && forall f :: !InjectiveFit([ra, rb], [disk], f)
  {
    var ra, rb := PvcRequest(true, a), PvcRequest(true, b);
    OneMoreExclusive([], g, a);
    OneMoreExclusive([Exclusive(g, a)], g, b);
    assert [] + [Exclusive(g, a)] == [Exclusive(g, a)] && [] + [ra] == [ra] && [ra] + [rb] == [ra, rb];
    assert Accepts(multiset([disk]), [rb]) by {
      PlacesOn([disk], rb, 0, []);
      assert [rb] + [] == [rb];
    }
    forall f ensures !InjectiveFit([ra, rb], [disk], f) { OneDiskOneClaim([ra, rb], disk, f); }
  }
}
