/** The object of pkg/devicemanager/partition/partition.go. */
module PartitionManager {
  import opened Disks
  import opened Locks
  import opened PartitionOps

  const DISK_MUTEX := "DiskMutex"

  /** The lowest number from 1 to 127 without a partition, or 0. */
  method FreeNumber(d: Disk) returns (number: int)
    ensures number == LowestFree(d, 1)
  {
    var i := 1;
    while i < 128
      invariant 1 <= i <= 128 && LowestFree(d, 1) == LowestFree(d, i)
    {
      if i !in d.parts { return i; }
      i := i + 1;
    }
    return 0;
  }

  /** The part of CreatePartition after the scan. */
  method CreateOnDisk(d: Disk, name: string, size: nat, cmd: bool) returns (e: Disk, number: int, out: Outcome)
    ensures (e, number, out) == CreateOn(d, name, size, cmd)
  {
    var fs := FreeSpacesWithMin(d, size);
    if |fs| < 1 { return d, 0, Panicked; }
    number := FreeNumber(d);
    if number == 0 { return d, 0, NoNumber; }
    var last: int := fs[0].last;
    if last - fs[0].start > size {
      last := fs[0].start + size - 1;
    }
    if last < fs[0].start || !cmd { return d, 0, CommandFailed; }
    return d.(parts := d.parts[number := Part(name, fs[0].start, last)]), number, Success;
  }

  /** The partition of that number has the name. */
  predicate HasName(d: Disk, name: string, number: int) {
    number in d.parts && d.parts[number].name == name
  }

  /** What is deleted up to where the loop stops: all of the name before it, where it stands on one that cannot be deleted. */
  ghost predicate StopsAt(d: Disk, name: string, order: seq<int>, broken: set<int>, gone: set<int>, stop: nat) {
    && stop <= |order|
    && (forall k :: k in gone <==> k in order[..stop] && HasName(d, name, k))
    && (forall k | k in gone :: k !in broken)
    && (stop < |order| ==> HasName(d, name, order[stop]) && order[stop] in broken)
  }

  /** The loop over the table, in the order in which it is walked: what is deleted, and whether the loop ends. */
  method Walk(d: Disk, name: string, order: seq<int>, broken: set<int>)
    returns (gone: set<int>, ok: bool, ghost stop: nat)
    ensures StopsAt(d, name, order, broken, gone, stop) && (ok <==> stop == |order|)
    ensures (gone, ok) == Walked(d, name, order, broken)
  {
    gone := {};
    ghost var all := Walked(d, name, order, broken);
    assert order[0..] == order;
    for i := 0 to |order|
      invariant all.0 == gone + Walked(d, name, order[i..], broken).0
      invariant all.1 == Walked(d, name, order[i..], broken).1
      invariant forall k :: k in gone <==> k in order[..i] && HasName(d, name, k)
      invariant forall k | k in gone :: k !in broken
    {
      var number := order[i];
      assert order[i..][0] == number && order[i..][1..] == order[i + 1..];
      assert order[..i + 1] == order[..i] + [number];
      if number in d.parts && d.parts[number].name == name {
        if number in broken { return gone, false, i; }
        gone := gone + {number};
      }
    }
    return gone, true, |order|;
  }

  /** Creation returns before it tries the lock. */
  predicate Known(n: Node, name: string, path: string, env: Env) {
    (env.firstScan && OnDisk(n, path, name)) || name == "" || name in n.cache
  }

  class LocalPartition {
    var disks: map<string, Disk>
    var cachePartitionNum: map<string, int>
    const mutex: GlobalLocks

    constructor (disks: map<string, Disk>, mutex: GlobalLocks)
      ensures this.disks == disks && cachePartitionNum == map[] && this.mutex == mutex
    {
      this.disks := disks;
      cachePartitionNum := map[];
      this.mutex := mutex;
    }

    ghost function State(): Node
      reads this
    {
      Node(disks, cachePartitionNum)
    }

    /** A call under the lock: nothing when the lock is taken, else the whole operation. */
    twostate predicate Did(op: Op, env: Env, out: Outcome)
      reads this, mutex
    {
      && mutex.locks == old(mutex.locks)
      && (State(), out) == if DISK_MUTEX in old(mutex.locks) then (old(State()), Busy) else Apply(old(State()), op, env)
    }

    method CreatePartition(name: string, path: string, size: nat, env: Env) returns (out: Outcome)
      modifies this`disks, this`cachePartitionNum, mutex
      ensures if old(Known(State(), name, path, env))
              then out == Success && State() == old(State()) && mutex.locks == old(mutex.locks)
              else Did(Create(name, path, size), env, out)
    {
      if (env.firstScan && path in disks && Present(disks[path], name)) || name == "" {
        return Success;
      }
      if name in cachePartitionNum { return Success; }
      var acquired := mutex.TryAcquire(DISK_MUTEX);
      if !acquired { return Busy; }
      if !env.scan || path !in disks {
        out := ScanFailed;
      } else {
        var disk, number, made := CreateOnDisk(disks[path], name, size, env.cmd);
        out := made;
        if made.Success? {
          disks := disks[path := disk];
          cachePartitionNum := cachePartitionNum[name := number];
          out := Probed(env);
        }
      }
      mutex.Release(DISK_MUTEX);
    }

    /** `order` is the order in which the table is walked. */
    method DeletePartition(name: string, path: string, order: seq<int>, env: Env) returns (out: Outcome)
      modifies this`disks, this`cachePartitionNum, mutex
      ensures Did(Delete(name, path, order), env, out)
    {
      var acquired := mutex.TryAcquire(DISK_MUTEX);
      if !acquired { return Busy; }
      if !env.scan || path !in disks {
        mutex.Release(DISK_MUTEX);
        return ScanFailed;
      }
      var gone, ok, _ := Walk(disks[path], name, order, env.broken);
      disks := disks[path := Less(disks[path], gone)];
      if ok {
        cachePartitionNum := cachePartitionNum - {name};
        out := Probed(env);
      } else {
        out := CommandFailed;
      }
      mutex.Release(DISK_MUTEX);
    }

    method DeletePartitionByPartNumber(path: string, number: int, env: Env) returns (out: Outcome)
      modifies this`disks, this`cachePartitionNum, mutex
      ensures Did(DeleteByNumber(path, number), env, out)
    {
      var acquired := mutex.TryAcquire(DISK_MUTEX);
      if !acquired { return Busy; }
      if path !in disks || number !in disks[path].parts || !env.cmd {
        out := CommandFailed;
      } else {
        disks := disks[path := disks[path].(parts := disks[path].parts - {number})];
        cachePartitionNum :=
          map k | k in cachePartitionNum && cachePartitionNum[k] != number :: cachePartitionNum[k];
        out := Probed(env);
      }
      mutex.Release(DISK_MUTEX);
    }
  }
}
