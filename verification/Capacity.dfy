/**
 One reserve, three places: what the node publishes (runners/nodestorageresource.go), what the
 scheduler and the controller compare with it, and what the node's own guard lets through.
 */
module Capacity {
  import opened Units
  import opened Sums
  import opened Lvm
  import opened VolumeOps

  const MIN_REQUEST_GB := 1

  /** freeGb of generateLvmStatus. */
  function PublishedGb(free: nat): nat {
    if free > RESERVED then (free - RESERVED) / GIB + 1 else 0
  }

  /**
   For every number of gibibytes and every amount free, what is published suffices exactly when
   the bytes are there and the guard lets them through, except when exactly 10 GiB are free.
   */
  lemma PublishedAgreesIff(free: u64, n: nat)
    requires 0 < n && n * GIB < TWO64
    ensures n <= PublishedGb(free) <==> n * GIB <= free && !TooFull(free, n * GIB) && free != RESERVED
  {
  }

  /** The controller's check before an expansion agrees with the guard in ResizeVolume in the same way. */
  lemma ExpandAgreesIff(free: u64, currentGb: nat, requestGb: nat)
    requires currentGb < requestGb && requestGb * GIB < TWO64
    ensures requestGb - currentGb <= PublishedGb(free) <==>
              && (requestGb - currentGb) * GIB <= free && free != RESERVED
              && !GrowthTooFull(free, requestGb * GIB, currentGb * GIB)
  {
    PublishedAgreesIff(free, requestGb - currentGb);
  }

  // Requests.

  datatype Converted = Gb(gb: nat) | NegativeRequest | NegativeLimit | OverLimit

  function ConvertRequestCapacity(requestBytes: int, limitBytes: int): Converted {
    if requestBytes < 0 then NegativeRequest
    else if limitBytes < 0 then NegativeLimit
    else if limitBytes != 0 && requestBytes > limitBytes then OverLimit
    else if requestBytes == 0 then Gb(MIN_REQUEST_GB)
    else Gb(CeilGib(requestBytes))
  }

  /**
   An answer is the least positive number of gibibytes that holds the request, and it respects
   the limit if and only if the limit rounded down to gibibytes does.
   */
  lemma ConvertedIsLeast(requestBytes: int, limitBytes: int, n: nat)
    requires ConvertRequestCapacity(requestBytes, limitBytes).Gb?
    ensures var gb := ConvertRequestCapacity(requestBytes, limitBytes).gb;
            && (0 < n && requestBytes <= n * GIB <==> gb <= n)
            && (limitBytes != 0 ==> (gb * GIB <= limitBytes <==> GIB <= limitBytes && requestBytes <= FloorGib(limitBytes)))
  {
  }

  // Several claims of one pod on one volume group.

  function Ceils(s: seq<nat>): (r: seq<nat>)
    ensures |r| == |s| && forall i | 0 <= i < |s| :: r[i] == CeilGib(s[i])
  {
    if s == [] then [] else [CeilGib(s[0])] + Ceils(s[1..])
  }

  /** The scheduler's test for a volume group: the claims' bytes are added up and then rounded. */
  method FilterLvmGroup(requests: seq<nat>, allocatable: int) returns (ok: bool)
    ensures ok <==> CeilGib(Total(requests)) <= allocatable
  {
    var total := 0;
    for i := 0 to |requests|
      invariant total + Total(requests[i..]) == Total(requests)
    {
      total := total + requests[i];
    }
    ok := CeilGib(total) <= allocatable;
  }

  /** Rounding a sum of two up, compared with the sum of the two rounded up. */
  lemma CeilPlus(a: nat, b: nat)
    ensures CeilGib(a + b) <= CeilGib(a) + CeilGib(b) <= CeilGib(a + b) + 1
    ensures WholeGib(a) && WholeGib(b) ==> CeilGib(a + b) == CeilGib(a) + CeilGib(b) && WholeGib(a + b)
  {
  }

  lemma CeilWhole(a: nat)
    ensures WholeGib(a) ==> CeilGib(a) * GIB == a
  {
  }

  /** Rounding the sum loses less than one gibibyte for each claim after the first. */
  lemma {:induction false} RoundingGap(s: seq<nat>)
    ensures CeilGib(Total(s)) <= Total(Ceils(s))
    ensures s != [] ==> Total(Ceils(s)) <= CeilGib(Total(s)) + |s| - 1
  {
    if s != [] {
      RoundingGap(s[1..]);
      assert Ceils(s)[1..] == Ceils(s[1..]);
      CeilPlus(s[0], Total(s[1..]));
    }
  }

  /** It loses nothing when every claim is a whole number of gibibytes. */
  lemma {:induction false} NoGapWhenWhole(s: seq<nat>)
    requires forall i | 0 <= i < |s| :: WholeGib(s[i])
    ensures Total(Ceils(s)) == CeilGib(Total(s)) && WholeGib(Total(s))
  {
    if s != [] {
      NoGapWhenWhole(s[1..]);
      assert Ceils(s)[1..] == Ceils(s[1..]);
      CeilPlus(s[0], Total(s[1..]));
    }
  }

  function Ones(n: nat): (s: seq<nat>)
    ensures |s| == n
  {
    if n == 0 then [] else [1] + Ones(n - 1)
  }

  lemma {:induction false} OnesTotal(n: nat)
    ensures Total(Ones(n)) == n && Total(Ceils(Ones(n))) == n
  {
    if n > 0 {
      OnesTotal(n - 1);
      assert Ones(n)[1..] == Ones(n - 1) && Ceils(Ones(n))[1..] == Ceils(Ones(n - 1));
      assert CeilGib(1) == 1;
    }
  }

  /** The bound is reached: claims of one byte each. */
  lemma RoundingGapReached(n: nat)
    requires 1 <= n <= GIB
    ensures Total(Ceils(Ones(n))) == CeilGib(Total(Ones(n))) + n - 1
  {
    OnesTotal(n);
  }

  /** The volumes are created one after the other on a quiet node; false when some creation fails. */
  ghost predicate AllMade(lvm: Lvm, vg: string, lvs: seq<string>, gbs: seq<nat>)
    requires |lvs| == |gbs| && forall i | 0 <= i < |gbs| :: gbs[i] * GIB < TWO64
    decreases |gbs|
  {
    gbs == [] ||
      var r := CreateVolume(lvm, lvm, lvs[0], vg, gbs[0] * GIB, AllOk);
      r.1.Ok? && AllMade(r.0, vg, lvs[1..], gbs[1..])
  }

  /** The names are new to the group and differ from each other. */
  ghost predicate NewNames(lvs: seq<string>, g: Vg) {
    && (forall i | 0 <= i < |lvs| :: VOLUME_PREFIX + lvs[i] !in g.lvs)
    && (forall i, j | 0 <= i < j < |lvs| :: lvs[i] != lvs[j])
  }

  lemma PrefixInjective(a: string, b: string)
    ensures VOLUME_PREFIX + a == VOLUME_PREFIX + b <==> a == b
  {
    assert (VOLUME_PREFIX + a)[|VOLUME_PREFIX|..] == a && (VOLUME_PREFIX + b)[|VOLUME_PREFIX|..] == b;
  }

  /** One creation of n gibibytes succeeds exactly when it leaves the reserve, and takes just them. */
  lemma OneMade(lvm: Lvm, vg: string, lv: string, n: nat)
    requires vg in lvm.vgs && lvm.vgs[vg].free < TWO64 && VOLUME_PREFIX + lv !in lvm.vgs[vg].lvs
    requires 0 < n && n * GIB < TWO64
    ensures var r := CreateVolume(lvm, lvm, lv, vg, n * GIB, AllOk);
            && (r.1.Ok? <==> n * GIB + RESERVE <= lvm.vgs[vg].free)
            && (r.1.Ok? ==> vg in r.0.vgs && r.0.vgs[vg].free == lvm.vgs[vg].free - n * GIB
                            && r.0.vgs[vg].lvs == lvm.vgs[vg].lvs[VOLUME_PREFIX + lv := n * GIB])
  {
    assert Gibs(n * GIB) == n;
  }

  lemma NewNamesRest(lvs: seq<string>, g: Vg, h: Vg, size: nat)
    requires lvs != [] && NewNames(lvs, g) && h.lvs == g.lvs[VOLUME_PREFIX + lvs[0] := size]
    ensures NewNames(lvs[1..], h)
  {
    forall i | 0 <= i < |lvs[1..]| ensures VOLUME_PREFIX + lvs[1..][i] !in h.lvs {
      PrefixInjective(lvs[0], lvs[1..][i]);
    }
  }

  /**
   Volumes of whole gibibytes are all created if and only if their sum leaves the reserve; so the
   order does not matter.
   */
  lemma {:induction false} AllMadeIff(lvm: Lvm, vg: string, lvs: seq<string>, gbs: seq<nat>)
    requires |lvs| == |gbs| && (forall i | 0 <= i < |gbs| :: 0 < gbs[i] && gbs[i] * GIB < TWO64)
    requires vg in lvm.vgs && lvm.vgs[vg].free < TWO64 && NewNames(lvs, lvm.vgs[vg])
    ensures AllMade(lvm, vg, lvs, gbs) <==> gbs == [] || Total(gbs) * GIB + RESERVE <= lvm.vgs[vg].free
    decreases |gbs|
  {
    if gbs != [] {
      OneMade(lvm, vg, lvs[0], gbs[0]);
      var r := CreateVolume(lvm, lvm, lvs[0], vg, gbs[0] * GIB, AllOk);
      if r.1.Ok? {
        NewNamesRest(lvs, lvm.vgs[vg], r.0.vgs[vg], gbs[0] * GIB);
        AllMadeIff(r.0, vg, lvs[1..], gbs[1..]);
      }
    }
  }

  /** A pod's claims are all created if and only if their rounded sizes add up to what is published. */
  lemma MadeIffRoundedFit(lvm: Lvm, vg: string, lvs: seq<string>, requests: seq<nat>)
    requires |lvs| == |requests| && requests != []
    requires forall i | 0 <= i < |requests| :: 0 < requests[i] && Ceils(requests)[i] * GIB < TWO64
    requires vg in lvm.vgs && RESERVED < lvm.vgs[vg].free < TWO64 && NewNames(lvs, lvm.vgs[vg])
    ensures AllMade(lvm, vg, lvs, Ceils(requests)) <==> Total(Ceils(requests)) <= PublishedGb(lvm.vgs[vg].free)
  {
    AllMadeIff(lvm, vg, lvs, Ceils(requests));
  }

  /** Two claims of one byte pass against a published 1, and only one of their volumes fits. */
  lemma FractionsOverbook(lvm: Lvm, vg: string, lvs: seq<string>)
    requires |lvs| == 2 && vg in lvm.vgs && NewNames(lvs, lvm.vgs[vg])
    requires RESERVED < lvm.vgs[vg].free < RESERVED + GIB
    ensures CeilGib(Total([1, 1])) <= PublishedGb(lvm.vgs[vg].free)
    ensures forall i | 0 <= i < 2 :: Ceils([1, 1])[i] * GIB < TWO64
    ensures !AllMade(lvm, vg, lvs, Ceils([1, 1]))
  {
    assert [1, 1][1..] == [1] && Total([1, 1]) == 2 && CeilGib(1) == 1;
    assert Ceils([1, 1]) == [1, 1];
    MadeIffRoundedFit(lvm, vg, lvs, [1, 1]);
  }

  /**
   Claims of whole gibibytes that pass the scheduler's test against the published number are all
   created on the node, in whatever order they arrive.
   */
  lemma AcceptedIsMade(lvm: Lvm, vg: string, lvs: seq<string>, requests: seq<nat>)
    requires |lvs| == |requests| && (forall i | 0 <= i < |requests| :: 0 < requests[i] && WholeGib(requests[i]))
    requires forall i | 0 <= i < |requests| :: Ceils(requests)[i] * GIB < TWO64
    requires vg in lvm.vgs && lvm.vgs[vg].free < TWO64 && NewNames(lvs, lvm.vgs[vg])
    requires CeilGib(Total(requests)) <= PublishedGb(lvm.vgs[vg].free)
    ensures AllMade(lvm, vg, lvs, Ceils(requests))
  {
    NoGapWhenWhole(requests);
    AllMadeIff(lvm, vg, lvs, Ceils(requests));
  }
}
