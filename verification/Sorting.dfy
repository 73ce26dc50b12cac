/** sort.Slice with a less function that compares a number of the elements. */
module Sorting {
  predicate Ascending<T>(s: seq<T>, key: T -> int) {
    forall i, j | 0 <= i < j < |s| :: key(s[i]) <= key(s[j])
  }

  method Swap<T>(a: array<T>, i: nat, j: nat)
    requires i < a.Length && j < a.Length
    modifies a
    ensures a[..] == old(a[..])[i := old(a[j])][j := old(a[i])]
    ensures multiset(a[..]) == multiset(old(a[..]))
  {
    a[i], a[j] := a[j], a[i];
  }

  method SortBy<T>(a: array<T>, key: T -> int)
    modifies a
    ensures Ascending(a[..], key) && multiset(a[..]) == multiset(old(a[..]))
  {
    for n := 0 to a.Length
      invariant Ascending(a[..n], key)
      invariant forall i, j | 0 <= i < n <= j < a.Length :: key(a[i]) <= key(a[j])
      invariant multiset(a[..]) == multiset(old(a[..]))
    {
      var least := n;
      for k := n + 1 to a.Length
        invariant n <= least < a.Length
        invariant forall j | n <= j < k :: key(a[least]) <= key(a[j])
      {
        if key(a[k]) < key(a[least]) { least := k; }
      }
      Swap(a, n, least);
    }
    assert a[..] == a[..a.Length];
  }
}
