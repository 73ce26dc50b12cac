/** Sizes, the reserve constants of constants.go and Go's wrapping uint64 arithmetic. */
module Units {
  const GIB: nat := 0x4000_0000
  const TWO64: nat := 0x1_0000_0000_0000_0000

  /** DefaultReservedSpace, DefaultEdgeSpace and what the guards leave untouched. */
  const RESERVED: nat := 10 * GIB
  const EDGE: nat := GIB
  const RESERVE: nat := RESERVED - EDGE

  type u64 = x: nat | x < TWO64

  /** a - b in uint64: wraps below zero. */
  function Sub64(a: int, b: int): (r: int)
    ensures r == a - b || r == a - b + TWO64
    ensures 0 <= a < TWO64 && 0 <= b < TWO64 ==> 0 <= r < TWO64
  {
    if a >= b then a - b else a - b + TWO64
  }

  /** a + b in uint64: wraps at 2^64. */
  function Add64(a: int, b: int): (r: int)
    ensures r == a + b || r == a + b - TWO64
    ensures 0 <= a < TWO64 && 0 <= b < TWO64 ==> 0 <= r < TWO64
  {
    if a + b < TWO64 then a + b else a + b - TWO64
  }

  /** size >> 30. */
  function Gibs(size: nat): nat {
    size / GIB
  }

  /** The bytes an LVM command given `size >> 30` gibibytes works with. */
  function FloorGib(size: nat): (r: nat)
    ensures r <= size < r + GIB
    ensures r == size <==> WholeGib(size)
  {
    Gibs(size) * GIB
  }

  predicate WholeGib(size: nat) {
    size % GIB == 0
  }

  /** (bytes - 1) >> 30 + 1, on Go's int64 where >> rounds down. */
  function CeilGib(bytes: nat): (r: nat)
    ensures bytes <= r * GIB < bytes + GIB
  {
    (bytes - 1) / GIB + 1
  }
}

module Wrappers {
  datatype Option<T> = None | Some(value: T)
}

/** Sums over the values of a finite map, and of a list. */
module Sums {
  function Total(s: seq<nat>): nat {
    if s == [] then 0 else s[0] + Total(s[1..])
  }

  ghost function Sum(m: map<string, nat>): nat {
    if m == map[] then 0 else var k :| k in m; m[k] + Sum(m - {k})
  }

  lemma {:induction false} SumRemove(m: map<string, nat>, k: string)
    requires k in m
    ensures Sum(m) == m[k] + Sum(m - {k})
  {
    var k0 :| k0 in m && Sum(m) == m[k0] + Sum(m - {k0});
    if k0 != k {
      SumRemove(m - {k0}, k);
      SumRemove(m - {k}, k0);
      assert m - {k0} - {k} == m - {k} - {k0};
    }
  }

  lemma SumInsert(m: map<string, nat>, k: string, v: nat)
    requires k !in m
    ensures Sum(m[k := v]) == Sum(m) + v
  {
    SumRemove(m[k := v], k);
    assert m[k := v] - {k} == m;
  }

  lemma SumUpdate(m: map<string, nat>, k: string, v: nat)
    requires k in m
    ensures Sum(m[k := v]) == Sum(m) - m[k] + v
  {
    SumRemove(m, k);
    SumRemove(m[k := v], k);
    assert m[k := v] - {k} == m - {k};
  }

  lemma SumSingle(k: string, v: nat)
    ensures Sum(map[k := v]) == v
  {
    SumInsert(map[], k, v);
    assert map[][k := v] == map[k := v];
  }
}
