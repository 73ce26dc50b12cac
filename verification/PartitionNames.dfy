/** The partition name of an object (utils/utils.go). */
module PartitionNames {
  import opened Text

  const CARINA_PREFIX := "carina.io"

  function LastSegment(name: string): string {
    var parts := Split(name, '-');
    parts[|parts| - 1]
  }

  /** PartitionName keeps the part after the last dash. */
  function PartitionName(name: string): string {
    CARINA_PREFIX + "/" + LastSegment(name)
  }

  lemma {:induction false} SplitLast(p: string, s: string)
    requires '-' !in s
    ensures LastSegment(p + "-" + s) == s
  {
    if p == [] {
      SplitAfter([], '-', s);
      SplitPlain(s, '-');
      assert [] + "-" + s == [] + ['-'] + s;
    } else {
      SplitLast(p[1..], s);
      var t := p + "-" + s;
      assert t[1..] == p[1..] + "-" + s;
      var r := Split(t[1..], '-');
      if |r| == 1 { DashSplits(p[1..], s); }
    }
  }

  lemma DashSplits(p: string, s: string)
    ensures |Split(p + "-" + s, '-')| >= 2
  {
    var t := p + "-" + s;
    assert t[|p|] == '-';
    SplitsAt(t, |p|);
  }

  lemma {:induction false} SplitsAt(t: string, k: nat)
    requires k < |t| && t[k] == '-'
    ensures |Split(t, '-')| >= 2
  {
    if k > 0 { SplitsAt(t[1..], k - 1); }
  }

  /** Two objects share a partition name if and only if they share what follows the last dash. */
  lemma SameNameIff(a: string, b: string)
    ensures PartitionName(a) == PartitionName(b) <==> LastSegment(a) == LastSegment(b)
  {
    var p := CARINA_PREFIX + "/";
    assert PartitionName(a)[|p|..] == LastSegment(a) && PartitionName(b)[|p|..] == LastSegment(b);
  }

  /** So objects that differ only before it share one. */
  lemma NamesCollide(p: string, q: string, s: string)
    requires '-' !in s
    ensures PartitionName(p + "-" + s) == PartitionName(q + "-" + s)
  {
    SplitLast(p, s);
    SplitLast(q, s);
  }
}
