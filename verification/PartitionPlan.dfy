/** What the scheduler's filter promises about raw disks holds when the partitions are really made. */
module PartitionPlan {
  import opened Units
  import opened Sums
  import opened Disks
  import opened PartitionOps
  import RawFilter

  /** The creation that panics is exactly the one no free space is large enough for. */
  lemma PanicsIff(d: Disk, name: string, size: nat, cmd: bool)
    ensures CreateOn(d, name, size, cmd).2.Panicked? <==> !HasGap(d, size)
  {
    FirstSpace(d, size);
  }

  /** A gap other than the one built in is still a gap. */
  lemma OtherGapStays(d: Disk, number: int, p: Part, g: Gap, h: Gap)
    requires number !in d.parts && IsGap(d, g) && IsGap(d, h) && g != h
    requires g.start <= p.start <= p.last <= g.last
    ensures IsGap(With(d, number, p), h)
  {
    var e := With(d, number, p);
    GapsApart(d, g, h);
    UsedWith(d, number, p);
  }

  lemma UsedWith(d: Disk, number: int, p: Part)
    requires number !in d.parts
    ensures forall x :: Used(With(d, number, p), x) <==> Used(d, x) || Covers(p, x)
  {
    var e := With(d, number, p);
    forall x ensures Used(e, x) <==> Used(d, x) || Covers(p, x) {
      if Used(d, x) {
        var k :| k in d.parts && Covers(d.parts[k], x);
        assert k in e.parts && Covers(e.parts[k], x);
      }
      if Covers(p, x) { assert number in e.parts && Covers(e.parts[number], x); }
    }
  }

  /** What is left over of the gap built in is a gap. */
  lemma RestIsGap(d: Disk, number: int, p: Part, g: Gap)
    requires number !in d.parts && IsGap(d, g)
    requires g.start == p.start <= p.last < g.last
    ensures IsGap(With(d, number, p), Gap(p.last + 1, g.last))
  {
    UsedWith(d, number, p);
    assert Covers(p, p.last);
    assert g.last != d.hi ==> Used(d, g.last + 1);
  }

  /** After n whole gibibytes are taken, what remains of a is still there in one piece. */
  lemma CreateLeavesRoom(d: Disk, name: string, n: nat, a: nat, cmd: bool)
    requires CreateOn(d, name, n * GIB, cmd).2.Success? && n < a && HasGap(d, a * GIB)
    ensures HasGap(CreateOn(d, name, n * GIB, cmd).0, (a - n) * GIB)
  {
    var fs := FreeSpacesWithMin(d, n * GIB);
    FirstSpace(d, n * GIB);
    var (e, number, _) := CreateOn(d, name, n * GIB, cmd);
    var p := e.parts[number];
    var h :| IsGap(d, h) && a * GIB <= Size(h);
    if h == fs[0] {
      RestIsGap(d, number, p, h);
      assert Size(Gap(p.last + 1, h.last)) >= (a - n) * GIB;
    } else {
      OtherGapStays(d, number, p, fs[0], h);
    }
  }

  /** The filter's residual stays a lower bound of the number the node publishes. */
  lemma ResidualIsLowerBound(d: Disk, name: string, n: nat, cmd: bool)
    requires CreateOn(d, name, n * GIB, cmd).2.Success? && n <= Published(d)
    ensures Published(d) - n <= Published(CreateOn(d, name, n * GIB, cmd).0)
  {
    var a, e := Published(d), CreateOn(d, name, n * GIB, cmd).0;
    if n < a {
      PublishedExact(d, a);
      CreateLeavesRoom(d, name, n, a, cmd);
      PublishedExact(e, a - n);
    }
  }

  /** The free space of the disk is in one piece. */
  ghost predicate OnePiece(d: Disk) {
    forall g, h | IsGap(d, g) && IsGap(d, h) :: g == h
  }

  /** A byte that is unused and follows a used one, or is the first, starts a gap. */
  lemma StartsGap(d: Disk, x: nat)
    requires d.lo <= x <= d.hi && !Used(d, x) && (x == d.lo || Used(d, x - 1))
    ensures IsGap(d, Gap(x, FreeEnd(d, x)))
  {}

  /** What is left of the one gap is the only gap. */
  lemma OnlyRestIsGap(d: Disk, number: int, p: Part, g: Gap, h: Gap)
    requires OnePiece(d) && number !in d.parts && IsGap(d, g) && g.start == p.start <= p.last <= g.last
    requires IsGap(With(d, number, p), h)
    ensures h == Gap(p.last + 1, g.last)
  {
    UsedWith(d, number, p);
    assert Covers(p, p.start) && !Used(d, h.start);
    if h.start == d.lo || Used(d, h.start - 1) {
      StartsGap(d, h.start);
    }
    assert h.start == p.last + 1;
    assert !Used(d, h.last) && (h.last == d.hi || Used(With(d, number, p), h.last + 1));
    assert g.last == d.hi || Used(d, g.last + 1);
  }

  /** On such a disk the number published after a creation is just what the filter is left with. */
  lemma OnePieceExact(d: Disk, name: string, n: nat, cmd: bool)
    requires OnePiece(d) && 0 < n && CreateOn(d, name, n * GIB, cmd).2.Success?
    ensures var e := CreateOn(d, name, n * GIB, cmd).0; OnePiece(e) && Published(e) == Published(d) - n
  {
    var fs := FreeSpacesWithMin(d, n * GIB);
    FirstSpace(d, n * GIB);
    var (e, number, _) := CreateOn(d, name, n * GIB, cmd);
    var p, k := e.parts[number], Published(e);
    forall h | IsGap(e, h) ensures h == Gap(p.last + 1, fs[0].last) { OnlyRestIsGap(d, number, p, fs[0], h); }
    PublishedExact(d, n);
    ResidualIsLowerBound(d, name, n, cmd);
    if k > 0 {
      PublishedExact(e, k);
      assert (k + n) * GIB <= Size(fs[0]);
      PublishedExact(d, k + n);
    }
  }

  lemma {:induction false} CountsUp(numbers: set<int>, k: nat)
    requires forall i | 1 <= i <= k :: i in numbers
    ensures k <= |numbers|
  {
    if k > 0 { CountsUp(numbers - {k}, k - 1); }
  }

  /** Fewer than 127 partitions leave a number. */
  lemma NumberLeft(d: Disk)
    requires |d.parts| < MAX_NUMBER
    ensures LowestFree(d, 1) != 0
  {
    if forall i | 1 <= i <= MAX_NUMBER :: i in d.parts.Keys {
      CountsUp(d.parts.Keys, MAX_NUMBER);
    }
  }

  lemma RoomMeansSuccess(d: Disk, name: string, n: nat)
    requires 0 < n <= Published(d) && |d.parts| < MAX_NUMBER
    ensures CreateOn(d, name, n * GIB, true).2.Success?
  {
    PublishedExact(d, n);
    FirstSpace(d, n * GIB);
    NumberLeft(d);
  }

  /** Partitions of the given sizes are made one after the other; some creation fails if the result is false. */
  ghost predicate AllCreated(d: Disk, names: seq<string>, gbs: seq<nat>)
    requires |names| == |gbs|
    decreases |gbs|
  {
    gbs == [] ||
      var (e, _, out) := CreateOn(d, names[0], gbs[0] * GIB, true);
      out.Success? && AllCreated(e, names[1..], gbs[1..])
  }

  /** Whatever sums up to at most the published number can be created, in any order. */
  lemma {:induction false} WithinPublished(d: Disk, names: seq<string>, gbs: seq<nat>)
    requires |names| == |gbs| && (forall i | 0 <= i < |gbs| :: 0 < gbs[i])
    requires Total(gbs) <= Published(d) && |d.parts| + |gbs| <= MAX_NUMBER
    ensures AllCreated(d, names, gbs)
    decreases |gbs|
  {
    if gbs != [] {
      RoomMeansSuccess(d, names[0], gbs[0]);
      ResidualIsLowerBound(d, names[0], gbs[0], true);
      var (e, number, _) := CreateOn(d, names[0], gbs[0] * GIB, true);
      assert e.parts.Keys == d.parts.Keys + {number};
      WithinPublished(e, names[1..], gbs[1..]);
    }
  }

  /** The claims laid on disk p. */
  ghost function Chosen(claims: seq<RawFilter.PvcRequest>, f: seq<nat>, p: nat): seq<nat>
    requires |f| == |claims|
  {
    if claims == [] then []
    else (if f[0] == p then [RawFilter.Need(claims[0])] else []) + Chosen(claims[1..], f[1..], p)
  }

  lemma {:induction false} ChosenLoad(claims: seq<RawFilter.PvcRequest>, f: seq<nat>, p: nat)
    requires |f| == |claims| && forall i | 0 <= i < |claims| :: 0 < claims[i].request
    ensures Total(Chosen(claims, f, p)) == RawFilter.Load(claims, f, p)
    ensures |Chosen(claims, f, p)| <= |claims|
    ensures forall i | 0 <= i < |Chosen(claims, f, p)| :: 0 < Chosen(claims, f, p)[i]
  {
    if claims != [] {
      ChosenLoad(claims[1..], f[1..], p);
      var rest := Chosen(claims[1..], f[1..], p);
      assert ([RawFilter.Need(claims[0])] + rest)[1..] == rest && [] + rest == rest;
    }
  }

  function PublishedAll(disks: seq<Disk>): (s: seq<int>)
    ensures |s| == |disks| && forall i | 0 <= i < |s| :: s[i] == Published(disks[i])
  {
    if disks == [] then [] else [Published(disks[0])] + PublishedAll(disks[1..])
  }

  /**
   What the filter accepts against the published numbers can be built: each claim gets a disk,
   and on every disk all its partitions are created, without running out of space.
   */
  lemma AcceptedIsBuildable(disks: seq<Disk>, claims: seq<RawFilter.PvcRequest>) returns (f: seq<nat>)
    requires RawFilter.Accepts(multiset(PublishedAll(disks)), claims)
    requires forall i | 0 <= i < |claims| :: 0 < claims[i].request
    requires forall p | 0 <= p < |disks| :: |disks[p].parts| + |claims| <= MAX_NUMBER
    ensures RawFilter.Placement(claims, PublishedAll(disks), f)
    ensures forall p: nat, names: seq<string> | p < |disks| && |names| == |Chosen(claims, f, p)| ::
              AllCreated(disks[p], names, Chosen(claims, f, p))
  {
    f := RawFilter.AcceptedPlacement(PublishedAll(disks), claims);
    forall p: nat, names: seq<string> | p < |disks| && |names| == |Chosen(claims, f, p)|
      ensures AllCreated(disks[p], names, Chosen(claims, f, p))
    {
      ChosenLoad(claims, f, p);
      WithinPublished(disks[p], names, Chosen(claims, f, p));
    }
  }
}
