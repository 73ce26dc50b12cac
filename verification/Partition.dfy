/** Disks, their partition tables and their free spaces. */
module Disks {
  import opened Units

  /** The range start..last, both ends included, in bytes. */
  datatype Part = Part(name: string, start: nat, last: nat)

  /** The usable area is lo..hi; the table maps numbers to partitions. */
  datatype Disk = Disk(lo: nat, hi: nat, parts: map<int, Part>)

  datatype Gap = Gap(start: nat, last: nat)

  function Size(g: Gap): int {
    g.last - g.start + 1
  }

  predicate Covers(p: Part, x: int) {
    p.start <= x <= p.last
  }

  predicate Used(d: Disk, x: int) {
    exists k | k in d.parts :: Covers(d.parts[k], x)
  }

  predicate Apart(p: Part, q: Part) {
    p.last < q.start || q.last < p.start
  }

  /** Partitions lie in the usable area and do not overlap. */
  ghost predicate WellFormed(d: Disk) {
    && (forall k | k in d.parts :: d.lo <= d.parts[k].start <= d.parts[k].last <= d.hi)
    && (forall j, k | j in d.parts && k in d.parts && j != k :: Apart(d.parts[j], d.parts[k]))
  }

  /** A maximal stretch of unused bytes. */
  ghost predicate IsGap(d: Disk, g: Gap) {
    && d.lo <= g.start <= g.last <= d.hi
    && (forall x | g.start <= x <= g.last :: !Used(d, x))
    && (g.start == d.lo || Used(d, g.start - 1))
    && (g.last == d.hi || Used(d, g.last + 1))
  }

  function FreeEnd(d: Disk, x: nat): (e: nat)
    requires x <= d.hi && !Used(d, x)
    ensures x <= e <= d.hi && (e == d.hi || Used(d, e + 1)) && forall y | x <= y <= e :: !Used(d, y)
    decreases d.hi - x
  {
    if x == d.hi || Used(d, x + 1) then x else FreeEnd(d, x + 1)
  }

  /** The gaps from x on, in ascending order. */
  function Gaps(d: Disk, x: nat): seq<Gap>
    decreases d.hi + 2 - x
  {
    if d.hi < x then []
    else if Used(d, x) then Gaps(d, x + 1)
    else
      var e := FreeEnd(d, x);
      [Gap(x, e)] + Gaps(d, e + 2)
  }

  function AtLeast(gaps: seq<Gap>, min: int): seq<Gap> {
    if gaps == [] then []
    else (if min <= Size(gaps[0]) then [gaps[0]] else []) + AtLeast(gaps[1..], min)
  }

  /** FreeSpacesWithMin; FreeSpaces is the case min == 0. */
  function FreeSpacesWithMin(d: Disk, min: int): seq<Gap> {
    AtLeast(Gaps(d, d.lo), min)
  }

  /** Two gaps that share a byte are one. */
  lemma GapsApart(d: Disk, g: Gap, h: Gap)
    requires IsGap(d, g) && IsGap(d, h)
    ensures g == h || g.last < h.start || h.last < g.start
  {
    assert h.start != d.lo ==> Used(d, h.start - 1);
    assert g.start != d.lo ==> Used(d, g.start - 1);
    assert h.last != d.hi ==> Used(d, h.last + 1);
    assert g.last != d.hi ==> Used(d, g.last + 1);
  }

  /** The gap does not start before x. */
  ghost predicate From(d: Disk, g: Gap, x: nat) {
    IsGap(d, g) && x <= g.start
  }

  /** A gap may start at x, or none starts there or later. */
  ghost predicate Edge(d: Disk, x: nat) {
    d.lo <= x && (x == d.lo || Used(d, x - 1) || d.hi < x)
  }

  lemma SkipUsed(d: Disk, x: nat, g: Gap)
    requires d.lo <= x <= d.hi && Used(d, x)
    ensures From(d, g, x) <==> From(d, g, x + 1)
    ensures Edge(d, x + 1) && Gaps(d, x) == Gaps(d, x + 1)
  {
    assert IsGap(d, g) ==> !Used(d, g.start);
  }

  lemma NextGap(d: Disk, x: nat, g: Gap)
    requires x <= d.hi && Edge(d, x) && !Used(d, x)
    ensures var e := FreeEnd(d, x); Edge(d, e + 2) && (From(d, g, x) <==> g == Gap(x, e) || From(d, g, e + 2))
  {
    var e := FreeEnd(d, x);
    assert IsGap(d, Gap(x, e));
    if IsGap(d, g) {
      GapsApart(d, g, Gap(x, e));
      assert !Used(d, g.start);
    }
  }

  lemma GapsFirst(d: Disk, x: nat, g: Gap)
    requires x <= d.hi && !Used(d, x)
    ensures var e := FreeEnd(d, x); g in Gaps(d, x) <==> g == Gap(x, e) || g in Gaps(d, e + 2)
  {
    var e := FreeEnd(d, x);
    assert Gaps(d, x) == [Gap(x, e)] + Gaps(d, e + 2);
  }

  lemma GapsExactFree(d: Disk, x: nat, g: Gap)
    requires x <= d.hi && Edge(d, x) && !Used(d, x)
    requires var e := FreeEnd(d, x); g in Gaps(d, e + 2) <==> From(d, g, e + 2)
    ensures g in Gaps(d, x) <==> From(d, g, x)
  {
    NextGap(d, x, g);
    GapsFirst(d, x, g);
  }

  lemma {:induction false} GapsExact(d: Disk, x: nat, g: Gap)
    requires Edge(d, x)
    ensures g in Gaps(d, x) <==> From(d, g, x)
    decreases d.hi + 2 - x
  {
    if d.hi < x {
      assert Gaps(d, x) == [];
    } else if Used(d, x) {
      SkipUsed(d, x, g);
      GapsExact(d, x + 1, g);
    } else {
      var next := FreeEnd(d, x) + 2;
      NextGap(d, x, g);
      GapsExact(d, next, g);
      GapsExactFree(d, x, g);
    }
  }

  lemma {:induction false} AtLeastExact(gaps: seq<Gap>, min: int, g: Gap)
    ensures g in AtLeast(gaps, min) <==> g in gaps && min <= Size(g)
  {
    if gaps != [] { AtLeastExact(gaps[1..], min, g); }
  }

  /** The free spaces are exactly the maximal gaps of at least the given size. */
  lemma FreeSpacesExact(d: Disk, min: int, g: Gap)
    ensures g in FreeSpacesWithMin(d, min) <==> IsGap(d, g) && min <= Size(g)
  {
    GapsExact(d, d.lo, g);
    AtLeastExact(Gaps(d, d.lo), min, g);
  }

  /** The largest free space, as generateDiskStatus finds it; 0 when there is none. */
  function Largest(gaps: seq<Gap>): (n: int)
    ensures 0 <= n
  {
    if gaps == [] then 0
    else
      var rest := Largest(gaps[1..]);
      if rest < Size(gaps[0]) then Size(gaps[0]) else rest
  }

  lemma {:induction false} LargestExact(gaps: seq<Gap>, n: int)
    requires 0 < n
    ensures n <= Largest(gaps) <==> exists g :: g in gaps && n <= Size(g)
  {
    if gaps != [] {
      LargestExact(gaps[1..], n);
      assert gaps[0] in gaps;
      forall g | g in gaps ensures g == gaps[0] || g in gaps[1..] { }
      forall g | g in gaps[1..] ensures g in gaps { }
    }
  }

  /** The published allocatable number of gibibytes of a raw disk. */
  function Published(d: Disk): (n: nat) {
    Largest(FreeSpacesWithMin(d, 0)) / GIB
  }

  ghost predicate HasGap(d: Disk, size: int) {
    exists g :: IsGap(d, g) && size <= Size(g)
  }

  /** The published number counts the gibibytes that one partition can still get. */
  lemma PublishedExact(d: Disk, n: nat)
    requires 0 < n
    ensures n <= Published(d) <==> HasGap(d, n * GIB)
  {
    var fs := FreeSpacesWithMin(d, 0);
    LargestExact(fs, n * GIB);
    forall g ensures g in fs <==> IsGap(d, g) { FreeSpacesExact(d, 0, g); }
    assert n <= Published(d) <==> n * GIB <= Largest(fs);
  }
}
