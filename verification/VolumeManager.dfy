/** The try-lock of utils/mutx/idlocker.go. */
module Locks {
  class GlobalLocks {
    var locks: set<string>

    constructor ()
      ensures locks == {}
    {
      locks := {};
    }

    method TryAcquire(id: string) returns (ok: bool)
      modifies this
      ensures ok <==> id !in old(locks)
      ensures locks == old(locks) + {id}
    {
      if id in locks {
        assert locks == locks + {id};
        return false;
      }
      locks := locks + {id};
      return true;
    }

    method Release(id: string)
      modifies this
      ensures locks == old(locks) - {id}
    {
      locks := locks - {id};
    }
  }
}

/**
 The operations of pkg/devicemanager/volume/volume.go on volume groups, as functions of the
 LVM state. Every operation first reads (`seen`) and then issues commands (`now`); the two
 are the same state when nothing changes LVM in between.
 */
module VolumeOps {
  import opened Units
  import opened Lvm

  const VOLUME_PREFIX := "volume-"

  datatype Op =
    | Create(lv: string, vg: string, size: u64)
    | Resize(lv: string, vg: string, size: u64)
    | Delete(lv: string, vg: string)
    | AddDisk(disk: string, vg: string)
    | RemoveDisk(disk: string, vg: string)

  datatype Error = LockBusy | LvmError | NotFound | Exhausted | LvMissing | PvBound | WrongVg | HasLvs

  datatype Outcome = Ok | Fail(error: Error)

  /** Which of the commands an operation issues fail for reasons outside this model. */
  datatype Env = Env(pvReads: bool, vgReads: bool, lvReads: bool, cmd1: bool, cmd2: bool)

  function FromBool(ok: bool): Outcome {
    if ok then Ok else Fail(LvmError)
  }

  function Lower(s: string): string {
    seq(|s|, i requires 0 <= i < |s| => if 'A' <= s[i] <= 'Z' then s[i] - 'A' + 'a' else s[i])
  }

  /** The reserve guard: `free - need < DefaultReservedSpace - DefaultEdgeSpace` in uint64. */
  predicate TooFull(free: nat, need: int) {
    Sub64(free, need) < RESERVE
  }

  function CreateVolume(seen: Lvm, now: Lvm, lv: string, vg: string, size: u64, env: Env): (r: (Lvm, Outcome)) {
    if !env.vgReads then (now, Fail(LvmError))
    else if vg !in seen.vgs then (now, Fail(NotFound))
    else if TooFull(seen.vgs[vg].free, size) then (now, Fail(Exhausted))
    else if env.lvReads && VOLUME_PREFIX + lv in seen.vgs[vg].lvs then (now, Ok)
    else
      var r := LvCreate(now, vg, VOLUME_PREFIX + lv, Gibs(size), env.cmd1);
      (r.0, FromBool(r.1))
  }

  function ResizeVolume(seen: Lvm, now: Lvm, lv: string, vg: string, size: u64, env: Env): (r: (Lvm, Outcome)) {
    if !env.vgReads then (now, Fail(LvmError))
    else if vg !in seen.vgs then (now, Fail(NotFound))
    else
      var name := VOLUME_PREFIX + lv;
      // A failed lookup, and a missing volume is one, is reported as success.
      if !env.lvReads || name !in seen.vgs[vg].lvs then (now, Ok)
      else if seen.vgs[vg].lvs[name] == size then (now, Ok)
      else if GrowthTooFull(seen.vgs[vg].free, size, seen.vgs[vg].lvs[name]) then (now, Fail(Exhausted))
      else
        var r := LvResize(now, vg, name, Gibs(size), env.cmd1);
        (r.0, FromBool(r.1))
  }

  /** `free - (size - lvSize) < DefaultReservedSpace - DefaultEdgeSpace` in uint64. */
  predicate GrowthTooFull(free: nat, size: u64, lvSize: nat) {
    TooFull(free, Sub64(size, lvSize))
  }

  function DeleteVolume(seen: Lvm, now: Lvm, lv: string, vg: string, env: Env): (r: (Lvm, Outcome)) {
    var name := if VOLUME_PREFIX <= lv then lv else VOLUME_PREFIX + lv;
    if !env.lvReads then (now, Fail(LvmError))
    else if vg !in seen.vgs || name !in seen.vgs[vg].lvs then (now, Ok)
    else
      var r := LvRemove(now, vg, name, env.cmd1);
      (r.0, FromBool(r.1))
  }

  function AddNewDiskToVg(seen: Lvm, now: Lvm, disk: string, vgName: string, env: Env): (r: (Lvm, Outcome)) {
    var vg := Lower(vgName);
    if !env.pvReads then (now, Fail(LvmError))
    else if IsPv(seen, disk) && disk !in seen.loose then (now, Fail(PvBound))
    else
      var p := if IsPv(seen, disk) then (now, true) else PvCreate(now, disk, env.cmd1);
      if !p.1 then (p.0, Fail(LvmError))
      else if !env.vgReads then (p.0, Fail(LvmError))
      else
        var r := if vg in seen.vgs then VgExtend(p.0, vg, disk, env.cmd2) else VgCreate(p.0, vg, disk, env.cmd2);
        (r.0, FromBool(r.1))
  }

  function RemoveDiskInVg(seen: Lvm, now: Lvm, disk: string, vg: string, env: Env): (r: (Lvm, Outcome)) {
    if !env.pvReads then (now, Fail(LvmError))
    else if !IsPv(seen, disk) then (now, Fail(NotFound))
    else if vg == "" && disk in seen.loose then
      var r := PvRemove(now, disk, env.cmd1);
      (r.0, FromBool(r.1))
    else if !InVg(seen, disk, vg) then (now, Fail(WrongVg))
    else if !env.vgReads then (now, Fail(LvmError))
    else if |seen.vgs[vg].pvs| == 1 then
      if |seen.vgs[vg].lvs| > 0 then (now, Fail(HasLvs))
      else
        var r := VgRemove(now, vg, env.cmd1);
        if !r.1 then (r.0, Fail(LvmError))
        else
          var p := PvRemove(r.0, disk, env.cmd2);
          (p.0, FromBool(p.1))
    else if RemovalTooFull(seen.vgs[vg].free, seen.vgs[vg].pvs[disk]) then (now, Fail(Exhausted))
    else
      var r := VgReduce(now, vg, disk, env.cmd1);
      if !r.1 then (r.0, Fail(LvmError))
      else
        var p := PvRemove(r.0, disk, env.cmd2);
        (p.0, FromBool(p.1))
  }

  /** `free - DefaultReservedSpace + DefaultEdgeSpace < pvSize` in uint64. */
  predicate RemovalTooFull(free: nat, pvSize: nat) {
    Add64(Sub64(free, RESERVED), EDGE) < pvSize
  }

  const AllOk := Env(true, true, true, true, true)

  function Apply(seen: Lvm, now: Lvm, op: Op, env: Env): (r: (Lvm, Outcome)) {
    match op
    case Create(lv, vg, size) => CreateVolume(seen, now, lv, vg, size, env)
    case Resize(lv, vg, size) => ResizeVolume(seen, now, lv, vg, size, env)
    case Delete(lv, vg) => DeleteVolume(seen, now, lv, vg, env)
    case AddDisk(disk, vg) => AddNewDiskToVg(seen, now, disk, vg, env)
    case RemoveDisk(disk, vg) => RemoveDiskInVg(seen, now, disk, vg, env)
  }

  /** LogicVolume sizes are `requestGb << 30`. */
  predicate WholeOp(op: Op) {
    match op
    case Create(_, _, size) => WholeGib(size)
    case Resize(_, _, size) => WholeGib(size)
    case _ => true
  }

  lemma AddDiskSound(seen: Lvm, now: Lvm, disk: string, vg: string, env: Env)
    requires Sound(now)
    ensures Sound(AddNewDiskToVg(seen, now, disk, vg, env).0)
  {
    PvCreateSound(now, disk, env.cmd1);
    var p := if IsPv(seen, disk) then (now, true) else PvCreate(now, disk, env.cmd1);
    if Lower(vg) in seen.vgs {
      VgExtendSound(p.0, Lower(vg), disk, env.cmd2);
    } else {
      VgCreateSound(p.0, Lower(vg), disk, env.cmd2);
    }
  }

  lemma AddDiskReserved(seen: Lvm, now: Lvm, disk: string, vg: string, env: Env)
    requires Big(now.loose) && Big(now.devices) && Reserved(now)
    ensures Reserved(AddNewDiskToVg(seen, now, disk, vg, env).0)
  {}

  /** Without that assumption on sizes: a new group on a loose PV keeps the reserve exactly when the PV is that large. */
  lemma NewGroupReservedIff(l: Lvm, disk: string, vg: string)
    requires Reserved(l) && disk in l.loose && Lower(vg) !in l.vgs
    ensures Reserved(AddNewDiskToVg(l, l, disk, vg, AllOk).0) <==> RESERVE <= l.loose[disk]
  {
    var r := AddNewDiskToVg(l, l, disk, vg, AllOk).0;
    assert Lower(vg) in r.vgs && r.vgs[Lower(vg)].free == l.loose[disk];
  }

  lemma RemoveDiskSound(seen: Lvm, now: Lvm, disk: string, vg: string, env: Env)
    requires Sound(now)
    ensures Sound(RemoveDiskInVg(seen, now, disk, vg, env).0)
  {
    if vg == "" && disk in seen.loose {
      PvRemoveSound(now, disk, env.cmd1);
    } else if InVg(seen, disk, vg) && |seen.vgs[vg].pvs| == 1 {
      VgRemoveSound(now, vg, env.cmd1);
      PvRemoveSound(VgRemove(now, vg, env.cmd1).0, disk, env.cmd2);
    } else {
      VgReduceSound(now, vg, disk, env.cmd1);
      PvRemoveSound(VgReduce(now, vg, disk, env.cmd1).0, disk, env.cmd2);
    }
  }

  /** Any operation, whatever it read before and whatever fails on the way, keeps LVM sound: no byte lost, no PV shared. */
  lemma ApplySound(seen: Lvm, now: Lvm, op: Op, env: Env)
    requires Sound(now)
    ensures Sound(Apply(seen, now, op, env).0)
  {
    match op
    case Create(lv, vg, size) => LvCreateSound(now, vg, VOLUME_PREFIX + lv, Gibs(size), env.cmd1);
    case Resize(lv, vg, size) => LvResizeSound(now, vg, VOLUME_PREFIX + lv, Gibs(size), env.cmd1);
    case Delete(lv, vg) =>
      LvRemoveSound(now, vg, if VOLUME_PREFIX <= lv then lv else VOLUME_PREFIX + lv, env.cmd1);
    case AddDisk(disk, vg) => AddDiskSound(seen, now, disk, vg, env);
    case RemoveDisk(disk, vg) => RemoveDiskSound(seen, now, disk, vg, env);
  }

  /** The need was not above what was read, or LVM refuses it now, or the reserve is left now anyway. */
  predicate Covered(seen: nat, now: nat, need: int) {
    need <= seen || now < need || need + RESERVE <= now
  }

  /** What a call needs when disks may have grown since it read LVM. It always holds when none has. */
  predicate Within(seen: Lvm, now: Lvm, op: Op) {
    match op
    case Create(_, vg, size) =>
      vg in seen.vgs && vg in now.vgs ==> Covered(seen.vgs[vg].free, now.vgs[vg].free, size)
    case Resize(lv, vg, size) =>
      vg in seen.vgs && vg in now.vgs && VOLUME_PREFIX + lv in seen.vgs[vg].lvs ==>
        Covered(seen.vgs[vg].free, now.vgs[vg].free, size - seen.vgs[vg].lvs[VOLUME_PREFIX + lv])
    case _ => true
  }

  lemma CreateReserved(seen: Lvm, now: Lvm, lv: string, vg: string, size: u64, env: Env)
    requires Reserved(now) && WholeGib(size) && Grown(seen, now) && Within(seen, now, Create(lv, vg, size))
    ensures Reserved(CreateVolume(seen, now, lv, vg, size, env).0)
  {
    if vg in seen.vgs { assert GrownVg(seen.vgs[vg], now.vgs[vg]); }
  }

  lemma ResizeReserved(seen: Lvm, now: Lvm, lv: string, vg: string, size: u64, env: Env)
    requires Reserved(now) && WholeGib(size) && Grown(seen, now) && Within(seen, now, Resize(lv, vg, size))
    ensures Reserved(ResizeVolume(seen, now, lv, vg, size, env).0)
  {
    if vg in seen.vgs { assert GrownVg(seen.vgs[vg], now.vgs[vg]); }
  }

  lemma ReduceReserved(seen: Lvm, now: Lvm, disk: string, vg: string, ok: bool)
    requires Reserved(seen) && Reserved(now) && Grown(seen, now) && InVg(seen, disk, vg)
    requires !RemovalTooFull(seen.vgs[vg].free, seen.vgs[vg].pvs[disk])
    ensures Reserved(VgReduce(now, vg, disk, ok).0)
  {
    assert GrownVg(seen.vgs[vg], now.vgs[vg]) && RESERVE <= seen.vgs[vg].free;
    assert seen.vgs[vg].free - seen.vgs[vg].pvs[disk] >= RESERVE;
  }

  lemma RemoveDiskReserved(seen: Lvm, now: Lvm, disk: string, vg: string, env: Env)
    requires Reserved(seen) && Reserved(now) && Grown(seen, now)
    ensures Reserved(RemoveDiskInVg(seen, now, disk, vg, env).0)
  {
    if InVg(seen, disk, vg) && |seen.vgs[vg].pvs| != 1 && !RemovalTooFull(seen.vgs[vg].free, seen.vgs[vg].pvs[disk]) {
      ReduceReserved(seen, now, disk, vg, env.cmd1);
    }
  }

  /** While the reserve holds, the wrapping removal guard is the guard that was meant. */
  lemma RemovalGuardExact(free: nat, pvSize: nat)
    requires RESERVE <= free < TWO64
    ensures RemovalTooFull(free, pvSize) <==> free - pvSize < RESERVE
  {}

  /** With whole-GiB sizes no operation within its needs, wrapping guards included, takes a group below the reserve. */
  lemma ApplyReserved(seen: Lvm, now: Lvm, op: Op, env: Env)
    requires Sound(now) && Reserved(seen) && Reserved(now) && WholeOp(op) && Grown(seen, now) && Within(seen, now, op)
    ensures Reserved(Apply(seen, now, op, env).0)
  {
    match op
    case Create(lv, vg, size) => CreateReserved(seen, now, lv, vg, size, env);
    case Resize(lv, vg, size) => ResizeReserved(seen, now, lv, vg, size, env);
    case Delete(lv, vg) =>
    case AddDisk(disk, vg) => AddDiskReserved(seen, now, disk, vg, env);
    case RemoveDisk(disk, vg) => RemoveDiskReserved(seen, now, disk, vg, env);
  }

  /** Both invariants at once, as implications. */
  lemma ApplyKeeps(l: Lvm, op: Op, env: Env)
    ensures Sound(l) ==> Sound(Apply(l, l, op, env).0)
    ensures Sound(l) && Reserved(l) && WholeOp(op) ==> Reserved(Apply(l, l, op, env).0)
  {
    if Sound(l) {
      ApplySound(l, l, op, env);
      if Reserved(l) && WholeOp(op) { ApplyReserved(l, l, op, env); }
    }
  }

  /**
   Without the whole-GiB assumption the create guard fails for one family of sizes. They are larger
   than the free space, so the subtraction wraps and the guard passes, but `size >> 30`
   gibibytes still fit, so LVM creates the volume.
   */
  lemma CreateKeepsReserveIff(l: Lvm, lv: string, vg: string, size: u64)
    requires Reserved(l) && vg in l.vgs && l.vgs[vg].free < TWO64
    requires VOLUME_PREFIX + lv !in l.vgs[vg].lvs
    ensures Reserved(CreateVolume(l, l, lv, vg, size, AllOk).0)
            <==> (size <= l.vgs[vg].free || l.vgs[vg].free < FloorGib(size))
  {
    var r := CreateVolume(l, l, lv, vg, size, AllOk).0;
    if l.vgs[vg].free < size && FloorGib(size) <= l.vgs[vg].free {
      assert !TooFull(l.vgs[vg].free, size);
      assert vg in r.vgs && r.vgs[vg].free < GIB;
    }
  }

  /** The same for resizing a volume of `was` bytes: the growth is above the free space and its whole part fits. */
  lemma ResizeKeepsReserveIff(l: Lvm, lv: string, vg: string, size: u64)
    requires Reserved(l) && vg in l.vgs && l.vgs[vg].free < TWO64
    requires VOLUME_PREFIX + lv in l.vgs[vg].lvs && l.vgs[vg].lvs[VOLUME_PREFIX + lv] < TWO64
    ensures var free, was := l.vgs[vg].free, l.vgs[vg].lvs[VOLUME_PREFIX + lv];
            Reserved(ResizeVolume(l, l, lv, vg, size, AllOk).0)
            <==> (size <= was + free || was + free < FloorGib(size))
  {
    var free, was := l.vgs[vg].free, l.vgs[vg].lvs[VOLUME_PREFIX + lv];
    var r := ResizeVolume(l, l, lv, vg, size, AllOk).0;
    if was + free < size && FloorGib(size) <= was + free {
      assert !GrowthTooFull(free, size, was);
      assert vg in r.vgs && r.vgs[vg].free < GIB;
    }
  }

  /**
   With a disk that grows between the reading and the command, the reserve survives a creation of a
   whole size exactly when its need is covered.
   */
  lemma GrowthInsideCreate(seen: Lvm, now: Lvm, lv: string, vg: string, size: u64)
    requires Reserved(seen) && Reserved(now) && WholeGib(size) && 0 < size < TWO64 - RESERVE
    requires vg in seen.vgs && vg in now.vgs && seen.vgs[vg].free <= now.vgs[vg].free
    requires VOLUME_PREFIX + lv !in seen.vgs[vg].lvs && VOLUME_PREFIX + lv !in now.vgs[vg].lvs
    ensures Reserved(CreateVolume(seen, now, lv, vg, size, AllOk).0) <==> Within(seen, now, Create(lv, vg, size))
  {
    var r := CreateVolume(seen, now, lv, vg, size, AllOk).0;
    assert vg in r.vgs;
  }

  lemma GrowthInsideResize(seen: Lvm, now: Lvm, lv: string, vg: string, size: u64)
    requires Reserved(seen) && Reserved(now) && Grown(seen, now) && WholeGib(size) && 0 < size < TWO64 - RESERVE
    requires vg in seen.vgs && VOLUME_PREFIX + lv in seen.vgs[vg].lvs && seen.vgs[vg].lvs[VOLUME_PREFIX + lv] < TWO64
    ensures Reserved(ResizeVolume(seen, now, lv, vg, size, AllOk).0) <==> Within(seen, now, Resize(lv, vg, size))
  {
    assert GrownVg(seen.vgs[vg], now.vgs[vg]);
    var r := ResizeVolume(seen, now, lv, vg, size, AllOk).0;
    assert vg in r.vgs;
  }

  /** One group on one disk, 10 GiB free. */
  function TenGib(): Lvm {
    Lvm(map["vg" := Vg(map["sdb" := 10 * GIB], map[], 10 * GIB)], map[], map[])
  }

  lemma TenGibSound()
    ensures Sound(TenGib()) && Reserved(TenGib())
  {
    Sums.SumSingle("sdb", 10 * GIB);
    forall d, a, b | InVg(TenGib(), d, a) && InVg(TenGib(), d, b) ensures a == b {}
  }

  /** A witness of that family: 10.5 GiB asked of a group with 10 GiB free leaves nothing. */
  lemma WrapBreaksReserve()
    ensures Sound(TenGib()) && Reserved(TenGib())
    ensures !Reserved(CreateVolume(TenGib(), TenGib(), "pvc", "vg", 10 * GIB + GIB / 2, AllOk).0)
  {
    TenGibSound();
    CreateKeepsReserveIff(TenGib(), "pvc", "vg", 10 * GIB + GIB / 2);
  }

  /** A create repeated by name makes no second volume and changes no size, whatever size is asked. */
  lemma CreateAgainChangesNothing(l: Lvm, lv: string, vg: string, size: u64, env: Env)
    requires vg in l.vgs && VOLUME_PREFIX + lv in l.vgs[vg].lvs
    ensures CreateVolume(l, l, lv, vg, size, env).0 == l
    // Space is checked before existence, and by a subtraction that wraps.
    ensures env == AllOk && RESERVE <= l.vgs[vg].free < TWO64 ==>
              (CreateVolume(l, l, lv, vg, size, env).1 == Ok <==>
                size + RESERVE <= l.vgs[vg].free || l.vgs[vg].free < size)
  {}

  /** Resizing reports success without having resized exactly when the volume could not be looked up. */
  lemma ResizeSuccessIsReal(l: Lvm, lv: string, vg: string, size: u64, env: Env)
    requires Sound(l) && WholeGib(size)
    requires ResizeVolume(l, l, lv, vg, size, env).1 == Ok
    ensures vg in l.vgs
    ensures var name, after := VOLUME_PREFIX + lv, ResizeVolume(l, l, lv, vg, size, env).0.vgs[vg].lvs;
            (name in after && after[name] == size)
            <==> (name in l.vgs[vg].lvs && (env.lvReads || l.vgs[vg].lvs[name] == size))
  {}

  /**
   Deleting what was just created gives back the state before if and only if the name does not
   itself begin with the prefix: creation always adds the prefix, deletion only when it is missing.
   */
  lemma DeleteUndoesCreate(l: Lvm, lv: string, vg: string, size: u64)
    requires vg in l.vgs && VOLUME_PREFIX + lv !in l.vgs[vg].lvs
    requires CreateVolume(l, l, lv, vg, size, AllOk).1 == Ok
    ensures var l' := CreateVolume(l, l, lv, vg, size, AllOk).0;
            l' != l && (DeleteVolume(l', l', lv, vg, AllOk) == (l, Ok) <==> !(VOLUME_PREFIX <= lv))
  {
    var l' := CreateVolume(l, l, lv, vg, size, AllOk).0;
    var name := VOLUME_PREFIX + lv;
    assert name in l'.vgs[vg].lvs;
    if VOLUME_PREFIX <= lv {
      PrefixedStays(l', lv, vg);
    } else {
      var l'' := DeleteVolume(l', l', lv, vg, AllOk).0;
      assert l''.vgs[vg].lvs == l.vgs[vg].lvs;
      assert l''.vgs == l.vgs;
    }
  }

  /**
   For a name with the prefix, as "volume-x", deletion reports success, leaves that volume and removes
   the one named without the second prefix.
   */
  lemma PrefixedStays(l: Lvm, lv: string, vg: string)
    requires vg in l.vgs && VOLUME_PREFIX + lv in l.vgs[vg].lvs && VOLUME_PREFIX <= lv
    ensures var r := DeleteVolume(l, l, lv, vg, AllOk);
            r.1 == Ok && vg in r.0.vgs && VOLUME_PREFIX + lv in r.0.vgs[vg].lvs && lv !in r.0.vgs[vg].lvs
  {
    assert |VOLUME_PREFIX + lv| > |lv|;
  }

  /**
   Taking a disk out of the group it was just added to gives back the state before if and only if
   the group's name is in lower case, which only adding makes it.
   */
  lemma RemoveUndoesAdd(l: Lvm, disk: string, vg: string)
    requires Sound(l) && Reserved(l) && !IsPv(l, disk) && disk in l.devices && vg != ""
    requires Lower(vg) in l.vgs ==> l.vgs[Lower(vg)].pvs != map[] && l.vgs[Lower(vg)].free + l.devices[disk] < TWO64
    ensures var l' := AddNewDiskToVg(l, l, disk, vg, AllOk).0;
            InVg(l', disk, Lower(vg)) && (RemoveDiskInVg(l', l', disk, vg, AllOk) == (l, Ok) <==> vg == Lower(vg))
  {
    if vg == Lower(vg) {
      if vg in l.vgs { RemoveUndoesExtend(l, disk, vg); } else { RemoveUndoesCreate(l, disk, vg); }
    } else {
      var l' := AddNewDiskToVg(l, l, disk, vg, AllOk).0;
      assert InVg(l', disk, Lower(vg)) && IsPv(l', disk);
      AddDiskSound(l, l, disk, vg, AllOk);
      assert !InVg(l', disk, vg);
    }
  }

  lemma RemoveUndoesExtend(l: Lvm, disk: string, vg: string)
    requires !IsPv(l, disk) && disk in l.devices && vg == Lower(vg) && vg != "" && vg in l.vgs
    requires RESERVE <= l.vgs[vg].free && l.vgs[vg].pvs != map[] && l.vgs[vg].free + l.devices[disk] < TWO64
    ensures var l' := AddNewDiskToVg(l, l, disk, vg, AllOk).0;
            InVg(l', disk, vg) && RemoveDiskInVg(l', l', disk, vg, AllOk) == (l, Ok)
  {
    var g, size := l.vgs[vg], l.devices[disk];
    var g' := g.(pvs := g.pvs[disk := size], free := g.free + size);
    var l' := l.(vgs := l.vgs[vg := g']);
    assert AddNewDiskToVg(l, l, disk, vg, AllOk).0 == l' by {
      assert l.loose[disk := size] - {disk} == l.loose;
    }
    assert g'.pvs.Keys == g.pvs.Keys + {disk};
    assert |g'.pvs| == |g.pvs| + 1;
    assert g'.pvs - {disk} == g.pvs;
    assert l'.vgs[vg := g] == l.vgs;
    assert l.loose[disk := size] - {disk} == l.loose;
    RemovalGuardExact(g'.free, size);
  }

  lemma RemoveUndoesCreate(l: Lvm, disk: string, vg: string)
    requires !IsPv(l, disk) && disk in l.devices && vg == Lower(vg) && vg != "" && vg !in l.vgs
    ensures var l' := AddNewDiskToVg(l, l, disk, vg, AllOk).0;
            InVg(l', disk, vg) && RemoveDiskInVg(l', l', disk, vg, AllOk) == (l, Ok)
  {
    var size := l.devices[disk];
    assert l.loose[disk := size] - {disk} == l.loose;
    RemoveOnlyDisk(l, disk, vg, size);
  }

  lemma RemoveOnlyDisk(l: Lvm, disk: string, vg: string, size: nat)
    requires disk !in l.loose && vg != "" && vg !in l.vgs
    ensures var l' := l.(vgs := l.vgs[vg := Vg(map[disk := size], map[], size)]);
            RemoveDiskInVg(l', l', disk, vg, AllOk) == (l, Ok)
  {
    var g := Vg(map[disk := size], map[], size);
    var l' := l.(vgs := l.vgs[vg := g]);
    assert l'.vgs[vg] == g && |g.pvs| == 1 && |g.lvs| == 0;
    UndoVgCreate(l, disk, vg, g);
  }

  lemma UndoVgCreate(l: Lvm, disk: string, vg: string, g: Vg)
    requires vg !in l.vgs && disk !in l.loose && g.pvs.Keys == {disk}
    ensures var r := VgRemove(l.(vgs := l.vgs[vg := g]), vg, true);
            r.1 && PvRemove(r.0, disk, true) == (l, true)
  {
    assert l.vgs[vg := g] - {vg} == l.vgs;
    assert l.loose + g.pvs - {disk} == l.loose;
  }

  /** No operation, whatever it read before, takes a PV from one group straight into another. */
  lemma NoDirectMove(seen: Lvm, now: Lvm, op: Op, env: Env, disk: string, a: string, b: string)
    requires PvUnique(now) && InVg(now, disk, a) && InVg(Apply(seen, now, op, env).0, disk, b)
    ensures a == b
  {
    match op
    case AddDisk(d, vg) => AddDiskKeepsBoundPv(seen, now, d, vg, env, disk, a, b);
    case RemoveDisk(d, vg) => RemoveDiskAddsNoPv(seen, now, d, vg, env, disk, b);
    case _ => assert InVg(now, disk, b);
  }

  lemma AddDiskKeepsBoundPv(seen: Lvm, now: Lvm, d: string, vg: string, env: Env, disk: string, a: string, b: string)
    requires PvUnique(now) && InVg(now, disk, a) && InVg(AddNewDiskToVg(seen, now, d, vg, env).0, disk, b)
    ensures InVg(now, disk, b)
  {
    assert disk !in now.loose && IsPv(now, disk);
  }

  lemma RemoveDiskAddsNoPv(seen: Lvm, now: Lvm, d: string, vg: string, env: Env, disk: string, b: string)
    requires InVg(RemoveDiskInVg(seen, now, d, vg, env).0, disk, b)
    ensures InVg(now, disk, b)
  {}
}

/** LocalVolumeImplement of volume.go: each method takes the lock, reads LVM, checks and acts. */
module VolumeManager {
  import opened Units
  import opened Lvm
  import opened Locks
  import opened VolumeOps

  const VOLUME_MUTEX := "VolumeMutex"

  class LocalVolume {
    var lvm: Lvm
    const mutex: GlobalLocks

    constructor (lvm: Lvm, mutex: GlobalLocks)
      ensures this.lvm == lvm && this.mutex == mutex
    {
      this.lvm := lvm;
      this.mutex := mutex;
    }

    /** What a call under the lock does: nothing when the lock is taken, else the whole operation. */
    twostate predicate Did(op: Op, env: Env, out: Outcome)
      reads this, mutex
    {
      && mutex.locks == old(mutex.locks)
      && (lvm, out) == if VOLUME_MUTEX in old(mutex.locks) then (old(lvm), Fail(LockBusy))
                       else Apply(old(lvm), old(lvm), op, env)
    }

    /** Soundness survives every call; so does the reserve when the size is whole. */
    twostate predicate Kept(op: Op)
      reads this
    {
      && (old(Sound(lvm)) ==> Sound(lvm))
      && (old(Sound(lvm) && Reserved(lvm)) && WholeOp(op) ==> Reserved(lvm))
    }

    method CreateVolume(lv: string, vg: string, size: u64, env: Env) returns (out: Outcome)
      modifies this`lvm, mutex
      ensures Did(Create(lv, vg, size), env, out)
      ensures Kept(Create(lv, vg, size))
    {
      var acquired := mutex.TryAcquire(VOLUME_MUTEX);
      if !acquired { return Fail(LockBusy); }
      if !env.vgReads {
        out := Fail(LvmError);
      } else if vg !in lvm.vgs {
        out := Fail(NotFound);
      } else if TooFull(lvm.vgs[vg].free, size) {
        out := Fail(Exhausted);
      } else {
        var name := VOLUME_PREFIX + lv;
        if env.lvReads && name in lvm.vgs[vg].lvs {
          out := Ok;
        } else {
          var r := LvCreate(lvm, vg, name, Gibs(size), env.cmd1);
          lvm, out := r.0, FromBool(r.1);
        }
      }
      mutex.Release(VOLUME_MUTEX);
      ApplyKeeps(old(lvm), Op.Create(lv, vg, size), env);
    }

    method ResizeVolume(lv: string, vg: string, size: u64, env: Env) returns (out: Outcome)
      modifies this`lvm, mutex
      ensures Did(Resize(lv, vg, size), env, out)
      ensures Kept(Resize(lv, vg, size))
    {
      var acquired := mutex.TryAcquire(VOLUME_MUTEX);
      if !acquired { return Fail(LockBusy); }
      if !env.vgReads {
        out := Fail(LvmError);
      } else if vg !in lvm.vgs {
        out := Fail(NotFound);
      } else {
        var name := VOLUME_PREFIX + lv;
        if !env.lvReads || name !in lvm.vgs[vg].lvs {
          out := Ok;
        } else if lvm.vgs[vg].lvs[name] == size {
          out := Ok;
        } else if GrowthTooFull(lvm.vgs[vg].free, size, lvm.vgs[vg].lvs[name]) {
          out := Fail(Exhausted);
        } else {
          var r := LvResize(lvm, vg, name, Gibs(size), env.cmd1);
          lvm, out := r.0, FromBool(r.1);
        }
      }
      mutex.Release(VOLUME_MUTEX);
      ApplyKeeps(old(lvm), Op.Resize(lv, vg, size), env);
    }

    method DeleteVolume(lv: string, vg: string, env: Env) returns (out: Outcome)
      modifies this`lvm, mutex
      ensures Did(Delete(lv, vg), env, out)
      ensures Kept(Delete(lv, vg))
    {
      var acquired := mutex.TryAcquire(VOLUME_MUTEX);
      if !acquired { return Fail(LockBusy); }
      var name := lv;
      if !(VOLUME_PREFIX <= lv) {
        name := VOLUME_PREFIX + lv;
      }
      if !env.lvReads {
        out := Fail(LvmError);
      } else if vg !in lvm.vgs || name !in lvm.vgs[vg].lvs {
        out := Ok;
      } else {
        var r := LvRemove(lvm, vg, name, env.cmd1);
        lvm, out := r.0, FromBool(r.1);
      }
      mutex.Release(VOLUME_MUTEX);
      ApplyKeeps(old(lvm), Op.Delete(lv, vg), env);
    }

    method AddNewDiskToVg(disk: string, vgName: string, env: Env) returns (out: Outcome)
      modifies this`lvm, mutex
      ensures Did(AddDisk(disk, vgName), env, out)
      ensures Kept(AddDisk(disk, vgName))
    {
      var vg := Lower(vgName);
      var acquired := mutex.TryAcquire(VOLUME_MUTEX);
      if !acquired { return Fail(LockBusy); }
      if !env.pvReads {
        out := Fail(LvmError);
      } else if IsPv(lvm, disk) && disk !in lvm.loose {
        out := Fail(PvBound);
      } else {
        var vgExists, ready := vg in lvm.vgs, true;
        if !IsPv(lvm, disk) {
          var p := PvCreate(lvm, disk, env.cmd1);
          lvm, ready := p.0, p.1;
        }
        if !ready || !env.vgReads {
          out := Fail(LvmError);
        } else {
          var r := if vgExists then VgExtend(lvm, vg, disk, env.cmd2) else VgCreate(lvm, vg, disk, env.cmd2);
          lvm, out := r.0, FromBool(r.1);
        }
      }
      mutex.Release(VOLUME_MUTEX);
      ApplyKeeps(old(lvm), Op.AddDisk(disk, vgName), env);
    }

    method RemoveDiskInVg(disk: string, vg: string, env: Env) returns (out: Outcome)
      modifies this`lvm, mutex
      ensures Did(RemoveDisk(disk, vg), env, out)
      ensures Kept(RemoveDisk(disk, vg))
    {
      var acquired := mutex.TryAcquire(VOLUME_MUTEX);
      if !acquired { return Fail(LockBusy); }
      if !env.pvReads {
        out := Fail(LvmError);
      } else if !IsPv(lvm, disk) {
        out := Fail(NotFound);
      } else if vg == "" && disk in lvm.loose {
        var r := PvRemove(lvm, disk, env.cmd1);
        lvm, out := r.0, FromBool(r.1);
      } else if !InVg(lvm, disk, vg) {
        out := Fail(WrongVg);
      } else if !env.vgReads {
        out := Fail(LvmError);
      } else if |lvm.vgs[vg].pvs| == 1 && |lvm.vgs[vg].lvs| > 0 {
        out := Fail(HasLvs);
      } else if |lvm.vgs[vg].pvs| != 1 && RemovalTooFull(lvm.vgs[vg].free, lvm.vgs[vg].pvs[disk]) {
        out := Fail(Exhausted);
      } else {
        var r := if |lvm.vgs[vg].pvs| == 1 then VgRemove(lvm, vg, env.cmd1) else VgReduce(lvm, vg, disk, env.cmd1);
        lvm, out := r.0, FromBool(r.1);
        if r.1 {
          var p := PvRemove(lvm, disk, env.cmd2);
          lvm, out := p.0, FromBool(p.1);
        }
      }
      mutex.Release(VOLUME_MUTEX);
      ApplyKeeps(old(lvm), Op.RemoveDisk(disk, vg), env);
    }
  }
}
