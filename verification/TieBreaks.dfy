/** Whenever an exclusive and a plain claim of one size meet, some node's verdict depends on how the sort leaves them. */
module TieBreaks {
  import opened Units
  import opened Sorting
  import opened Text
  import opened Wrappers
  import opened RawFilter
  import opened SchedulerFilter
  import opened PodFilter
  import Capacity

  // Sorted orders.

  lemma {:induction false} Inserted(r: PvcRequest, o: seq<PvcRequest>) returns (o': seq<PvcRequest>)
    requires Ascending(o, Rank)
    ensures Ascending(o', Rank) && multiset(o') == multiset([r] + o)
    ensures forall x | x in o' :: x == r || x in o
  {
    if o == [] || Rank(r) <= Rank(o[0]) {
      o' := [r] + o;
    } else {
      SortedTail(o);
      var rest := Inserted(r, o[1..]);
      o' := [o[0]] + rest;
      assert o == [o[0]] + o[1..];
      Behind(r, o[0], o[1..], rest);
      forall x | x in rest ensures Rank(o[0]) <= Rank(x) {
        if x != r { SortedHead(o, x); }
      }
      HeadFirst(o[0], rest);
    }
  }

  lemma Behind(r: PvcRequest, head: PvcRequest, tail: seq<PvcRequest>, rest: seq<PvcRequest>)
    requires multiset(rest) == multiset([r] + tail)
    ensures multiset([head] + rest) == multiset([r] + ([head] + tail))
  {}

  lemma HeadFirst(r: PvcRequest, o: seq<PvcRequest>)
    requires Ascending(o, Rank) && forall x | x in o :: Rank(r) <= Rank(x)
    ensures Ascending([r] + o, Rank)
  {}

  lemma {:induction false} SortOf(list: seq<PvcRequest>) returns (o: seq<PvcRequest>)
    ensures IsSorted(list, o)
  {
    if list == [] {
      o := [];
    } else {
      var rest := SortOf(list[1..]);
      o := Inserted(list[0], rest);
      assert list == [list[0]] + list[1..];
    }
  }

  /** Where the requests fall below r. */
  lemma {:induction false} CutAt(o: seq<PvcRequest>, r: nat) returns (k: nat)
    requires Ascending(o, Rank)
    ensures k <= |o| && (forall i | 0 <= i < k :: r <= o[i].request) && (forall i | k <= i < |o| :: o[i].request < r)
  {
    if o == [] || o[0].request < r {
      k := 0;
      forall i | 0 <= i < |o| ensures o[i].request < r { assert Rank(o[0]) <= Rank(o[i]); }
    } else {
      SortedTail(o);
      var rest := CutAt(o[1..], r);
      k := rest + 1;
    }
  }

  /** Two requests of the size at the cut fit in there, in either order. */
  lemma Between(p: seq<PvcRequest>, s: seq<PvcRequest>, a: PvcRequest, b: PvcRequest)
    requires Ascending(p + s, Rank) && a.request == b.request
    requires (forall i | 0 <= i < |p| :: a.request <= p[i].request) && (forall i | 0 <= i < |s| :: s[i].request < a.request)
    ensures Ascending(p + ([a, b] + s), Rank)
  {
    var o, q := p + ([a, b] + s), p + s;
    forall i, j | 0 <= i < j < |o| ensures Rank(o[i]) <= Rank(o[j]) {
      if j < |p| {
        assert Rank(q[i]) <= Rank(q[j]);
      } else if i >= |p| + 2 {
        assert Rank(q[i - 2]) <= Rank(q[j - 2]);
      }
    }
  }

  // Disks that fit exactly.

  function Needs(list: seq<PvcRequest>): (s: seq<int>)
    ensures |s| == |list| && forall i | 0 <= i < |s| :: s[i] == Need(list[i])
  {
    seq(|list|, i requires 0 <= i < |list| => Need(list[i]))
  }

  function Zeros(n: nat): multiset<int> {
    multiset{}[0 := n]
  }

  /** A claim takes a disk of just its size. */
  lemma ExactFit(m: multiset<int>, r: PvcRequest)
    requires Need(r) in m
    ensures After(m, r) == Some(m - multiset{Need(r)} + multiset{0})
  {
    BestIs(m, Need(r), Need(r));
  }

  lemma Peel(v: int, m: multiset<int>, x: multiset<int>)
    ensures multiset{v} + m + x - multiset{v} + multiset{0} == m + (x + multiset{0})
  {}

  lemma OneZero(x: multiset<int>, n: nat)
    ensures x + multiset{0} + Zeros(n) == x + Zeros(n + 1)
  {}

  lemma AcceptStep(m: multiset<int>, r: PvcRequest, m': multiset<int>, rest: seq<PvcRequest>)
    requires After(m, r) == Some(m')
    ensures Accepts(m, [r] + rest) == Accepts(m', rest)
  {
    assert ([r] + rest)[0] == r && ([r] + rest)[1..] == rest;
  }

  lemma ExactStep(r: PvcRequest, m: multiset<int>, x: multiset<int>, rest: seq<PvcRequest>)
    ensures Accepts(multiset{Need(r)} + m + x, [r] + rest) == Accepts(m + (x + multiset{0}), rest)
  {
    var all := multiset{Need(r)} + m + x;
    ExactFit(all, r);
    Peel(Need(r), m, x);
    AcceptStep(all, r, m + (x + multiset{0}), rest);
  }

  lemma NeedsHead(list: seq<PvcRequest>)
    requires list != []
    ensures multiset(Needs(list)) == multiset{Need(list[0])} + multiset(Needs(list[1..]))
  {
    assert Needs(list) == [Need(list[0])] + Needs(list[1..]);
  }

  /** Claims that find disks of just their sizes take them all, whatever other disks there are. */
  lemma {:induction false} ExactDisks(list: seq<PvcRequest>, x: multiset<int>, rest: seq<PvcRequest>)
    ensures Accepts(multiset(Needs(list)) + x, list + rest) == Accepts(x + Zeros(|list|), rest)
    decreases |list|
  {
    if list == [] {
      assert list + rest == rest && multiset(Needs(list)) + x == x + Zeros(0);
    } else {
      ExactHead(list, x, rest);
      ExactDisks(list[1..], x + multiset{0}, rest);
      OneZero(x, |list| - 1);
    }
  }

  lemma ExactHead(list: seq<PvcRequest>, x: multiset<int>, rest: seq<PvcRequest>)
    requires list != []
    ensures Accepts(multiset(Needs(list)) + x, list + rest) ==
            Accepts(multiset(Needs(list[1..])) + (x + multiset{0}), list[1..] + rest)
  {
    NeedsHead(list);
    assert list + rest == [list[0]] + (list[1..] + rest);
    ExactStep(list[0], multiset(Needs(list[1..])), x, list[1..] + rest);
  }

  /** Nothing but one disk suffices. */
  ghost predicate AllBelow(m: multiset<int>, d: int) {
    forall w | w in m :: w < d
  }

  lemma OnlyDisk(m: multiset<int>, v: int, r: PvcRequest)
    requires AllBelow(m, Need(r)) && Need(r) <= v
    ensures After(m + multiset{v}, r) == Some(m + multiset{Residual(r, v)})
  {
    BestIs(m + multiset{v}, Need(r), v);
    assert m + multiset{v} - multiset{v} == m;
  }

  lemma NoDisk(m: multiset<int>, r: PvcRequest)
    requires AllBelow(m, Need(r))
    ensures After(m, r).None?
  {}

  /** The exclusive claim first: the other finds nothing. */
  lemma ExclusiveFirst(m: multiset<int>, a: PvcRequest, b: PvcRequest, rest: seq<PvcRequest>)
    requires a.exclusive && !b.exclusive && Need(a) == Need(b) > 0 && AllBelow(m, Need(a))
    ensures !Accepts(m + multiset{2 * Need(a)}, [a, b] + rest)
  {
    OnlyDisk(m, 2 * Need(a), a);
    AcceptStep(m + multiset{2 * Need(a)}, a, m + multiset{0}, [b] + rest);
    NoDisk(m + multiset{0}, b);
    assert [a, b] + rest == [a] + ([b] + rest) && ([b] + rest)[0] == b;
  }

  /** The plain claim first: both fit. */
  lemma PlainFirst(m: multiset<int>, a: PvcRequest, b: PvcRequest, rest: seq<PvcRequest>)
    requires a.exclusive && !b.exclusive && Need(a) == Need(b) > 0 && AllBelow(m, Need(a))
    ensures Accepts(m + multiset{2 * Need(a)}, [b, a] + rest) == Accepts(m + multiset{0}, rest)
  {
    OnlyDisk(m, 2 * Need(a), b);
    AcceptStep(m + multiset{2 * Need(a)}, b, m + multiset{Need(a)}, [a] + rest);
    OnlyDisk(m, Need(a), a);
    AcceptStep(m + multiset{Need(a)}, a, m + multiset{0}, rest);
    assert [b, a] + rest == [b] + ([a] + rest);
  }

  // The node.

  function Marks(k: nat): string {
    if k == 0 then "" else Marks(k - 1) + "x"
  }

  /** Disks g/, g/x, g/xx and so on with these numbers. */
  function Published(g: string, values: seq<int>, k: nat): (r: seq<Entry>)
    ensures |r| == |values|
  {
    if values == [] then [] else [Entry(g + ['/'] + Marks(k), true, values[0])] + Published(g, values[1..], k + 1)
  }

  lemma {:induction false} PublishedDisks(g: string, values: seq<int>, k: nat)
    requires '/' !in g
    ensures Disks(Published(g, values, k), g) == values
    ensures forall e | e in Published(g, values, k) :: e.ours && GroupOf(e) == g
  {
    if values != [] {
      var e, rest := Entry(g + ['/'] + Marks(k), true, values[0]), Published(g, values[1..], k + 1);
      PublishedDisks(g, values[1..], k + 1);
      SplitAfter(g, '/', Marks(k));
      OwnIsContained(e);
      assert ([e] + rest)[1..] == rest;
      assert [values[0]] + values[1..] == values;
    }
  }

  lemma Taken(list: seq<PvcRequest>, a: PvcRequest, b: PvcRequest) returns (rest: seq<PvcRequest>)
    requires a in list && b in list && a != b
    ensures multiset(rest) + multiset{a} + multiset{b} == multiset(list) && forall x | x in rest :: x in list
  {
    var less := TakenOne(list, a);
    assert b in multiset(less) by { assert b in multiset(list); }
    rest := TakenOne(less, b);
  }

  lemma TakenOne(list: seq<PvcRequest>, a: PvcRequest) returns (rest: seq<PvcRequest>)
    requires a in list
    ensures multiset(list) == multiset(rest) + multiset{a} && forall x | x in rest :: x in list
  {
    var i :| 0 <= i < |list| && list[i] == a;
    rest := list[..i] + list[i + 1..];
    assert list == list[..i] + [a] + list[i + 1..];
  }

  lemma WholeNeeds(s: seq<PvcRequest>, a: PvcRequest)
    requires WholeGib(a.request) && 0 < a.request
    requires forall i | 0 <= i < |s| :: WholeGib(s[i].request) && s[i].request < a.request
    ensures Need(a) > 0 && forall n: nat :: AllBelow(multiset(Needs(s)) + Zeros(n), Need(a))
  {
    Capacity.CeilWhole(a.request);
    forall i | 0 <= i < |s| ensures Needs(s)[i] < Need(a) { Capacity.CeilWhole(s[i].request); }
    forall w | w in multiset(Needs(s)) ensures w < Need(a) { assert w in Needs(s); }
    forall n: nat ensures AllBelow(multiset(Needs(s)) + Zeros(n), Need(a)) { BelowPlus(multiset(Needs(s)), n, Need(a)); }
  }

  lemma BelowPlus(m: multiset<int>, n: nat, d: int)
    requires AllBelow(m, d) && 0 < d
    ensures AllBelow(m + Zeros(n), d)
  {}

  /** The claims of the larger or the same size, and those of smaller sizes; the two go in between in either order. */
  lemma TwoOrders(list: seq<PvcRequest>, a: PvcRequest, b: PvcRequest) returns (p: seq<PvcRequest>, s: seq<PvcRequest>)
    requires WholeAndPositive(list) && a in list && b in list && a != b && a.request == b.request
    ensures IsSorted(list, p + ([b, a] + s)) && IsSorted(list, p + ([a, b] + s))
    ensures 0 < a.request && WholeGib(a.request)
    ensures forall i | 0 <= i < |s| :: WholeGib(s[i].request) && s[i].request < a.request
  {
    var rest := Taken(list, a, b);
    var o := SortOf(rest);
    SameElements(o, rest);
    var k := CutAt(o, a.request);
    p, s := o[..k], o[k..];
    assert o == p + s;
    Between(p, s, b, a);
    Between(p, s, a, b);
    SmallRest(list, o, k, a);
    Bags(p, s, a, b);
  }

  lemma OnDisks(offers: seq<Entry>, values: seq<int>, isRaw: string -> bool, g: string, list: seq<PvcRequest>,
                order: seq<PvcRequest>)
    requires isRaw(g) && IsSorted(list, order) && Disks(offers, g) == values
    ensures Judged(offers, isRaw, list, map[g := order], g, Accepts(multiset(values), order))
  {}

  /**
   For every list of whole gibibytes with a mixed tie there are disks of the group for which one order
   the sort may leave passes and another does not.
   */
  lemma MixedTieMatters(list: seq<PvcRequest>, g: string, isRaw: string -> bool)
    returns (offers: seq<Entry>, o1: Orders, o2: Orders)
    requires WholeAndPositive(list) && MixedTie(list) && '/' !in g && isRaw(g)
    ensures forall e | e in offers :: e.ours && GroupOf(e) == g
    ensures Judged(offers, isRaw, list, o1, g, true) && Judged(offers, isRaw, list, o2, g, false)
  {
    var a, b :| a in list && b in list && a.request == b.request && a.exclusive && !b.exclusive;
    var p, s := TwoOrders(list, a, b);
    var values := Needs(p) + ([2 * Need(a)] + Needs(s));
    offers := Published(g, values, 0);
    PublishedDisks(g, values, 0);
    assert multiset(values) == multiset(Needs(p)) + (multiset(Needs(s)) + multiset{2 * Need(a)});
    Verdicts(p, s, a, b);
    OnDisks(offers, values, isRaw, g, list, p + ([b, a] + s));
    OnDisks(offers, values, isRaw, g, list, p + ([a, b] + s));
    o1, o2 := map[g := p + ([b, a] + s)], map[g := p + ([a, b] + s)];
  }

  lemma Bags(p: seq<PvcRequest>, s: seq<PvcRequest>, a: PvcRequest, b: PvcRequest)
    ensures multiset(p + ([b, a] + s)) == multiset(p + s) + multiset{a} + multiset{b} == multiset(p + ([a, b] + s))
  {}

  lemma SmallRest(list: seq<PvcRequest>, o: seq<PvcRequest>, k: nat, a: PvcRequest)
    requires WholeAndPositive(list) && (forall x | x in o :: x in list) && a in list && k <= |o|
    requires forall i | k <= i < |o| :: o[i].request < a.request
    ensures 0 < a.request && WholeGib(a.request)
    ensures forall i | 0 <= i < |o[k..]| :: WholeGib(o[k..][i].request) && o[k..][i].request < a.request
  {
    forall i | 0 <= i < |o[k..]| ensures WholeGib(o[k..][i].request) { assert o[k + i] in list; }
  }

  lemma Verdicts(p: seq<PvcRequest>, s: seq<PvcRequest>, a: PvcRequest, b: PvcRequest)
    requires a.exclusive && !b.exclusive && a.request == b.request > 0 && WholeGib(a.request)
    requires forall i | 0 <= i < |s| :: WholeGib(s[i].request) && s[i].request < a.request
    ensures var m := multiset(Needs(p)) + (multiset(Needs(s)) + multiset{2 * Need(a)});
            Accepts(m, p + ([b, a] + s)) && !Accepts(m, p + ([a, b] + s))
  {
    var n := multiset(Needs(s));
    var x, z := n + multiset{2 * Need(a)}, n + Zeros(|p|);
    WholeNeeds(s, a);
    ExactDisks(p, x, [b, a] + s);
    ExactDisks(p, x, [a, b] + s);
    Regroup(n, multiset{2 * Need(a)}, Zeros(|p|));
    PlainFirst(z, a, b, s);
    ExclusiveFirst(z, a, b, s);
    ExactDisks(s, Zeros(|p|) + multiset{0}, []);
    assert s + [] == s;
    Regroup(n, Zeros(|p|), multiset{0});
  }

  lemma Regroup(a: multiset<int>, b: multiset<int>, c: multiset<int>)
    ensures a + b + c == a + c + b == a + (b + c)
  {}
}
