/**
 What the node's volume manager needs of LVM (pkg/devicemanager/lvmd/lvm.go):
 which commands LVM refuses and how each accepted command moves space around.
 */
module Lvm {
  import opened Units
  import opened Sums

  /** A volume group: its physical volumes, its logical volumes and VGFree. */
  datatype Vg = Vg(pvs: map<string, nat>, lvs: map<string, nat>, free: nat)

  /** All of LVM on one node; `loose` are PVs outside any group, `devices` the
      usable bytes a block device would offer as a PV. */
  datatype Lvm = Lvm(vgs: map<string, Vg>, loose: map<string, nat>, devices: map<string, nat>)

  predicate InVg(l: Lvm, disk: string, vg: string) {
    vg in l.vgs && disk in l.vgs[vg].pvs
  }

  predicate IsPv(l: Lvm, disk: string) {
    disk in l.loose || exists vg | vg in l.vgs :: disk in l.vgs[vg].pvs
  }

  lemma WholeMultiple(gibs: nat)
    ensures WholeGib(gibs * GIB)
  {}

  /** lvcreate -n name -L <gibs>g vg */
  function LvCreate(l: Lvm, vg: string, name: string, gibs: nat, ok: bool): (r: (Lvm, bool)) {
    if ok && vg in l.vgs && name !in l.vgs[vg].lvs && 0 < gibs && gibs * GIB <= l.vgs[vg].free then
      var g := l.vgs[vg];
      (l.(vgs := l.vgs[vg := g.(lvs := g.lvs[name := gibs * GIB], free := g.free - gibs * GIB)]), true)
    else
      (l, false)
  }

  /** lvresize -L <gibs>g vg/name */
  function LvResize(l: Lvm, vg: string, name: string, gibs: nat, ok: bool): (r: (Lvm, bool)) {
    if ok && vg in l.vgs && name in l.vgs[vg].lvs && 0 < gibs
       && gibs * GIB <= l.vgs[vg].free + l.vgs[vg].lvs[name] then
      var g := l.vgs[vg];
      (l.(vgs := l.vgs[vg := g.(lvs := g.lvs[name := gibs * GIB],
                                free := g.free + g.lvs[name] - gibs * GIB)]), true)
    else
      (l, false)
  }

  /** lvremove -f vg/name */
  function LvRemove(l: Lvm, vg: string, name: string, ok: bool): (r: (Lvm, bool)) {
    if ok && vg in l.vgs && name in l.vgs[vg].lvs then
      var g := l.vgs[vg];
      (l.(vgs := l.vgs[vg := g.(lvs := g.lvs - {name}, free := g.free + g.lvs[name])]), true)
    else
      (l, false)
  }

  /** pvcreate disk */
  function PvCreate(l: Lvm, disk: string, ok: bool): (r: (Lvm, bool)) {
    if ok && disk in l.devices && !IsPv(l, disk) then
      (l.(loose := l.loose[disk := l.devices[disk]]), true)
    else
      (l, false)
  }

  /** pvremove disk: only for a PV outside every group. */
  function PvRemove(l: Lvm, disk: string, ok: bool): (r: (Lvm, bool)) {
    if ok && disk in l.loose then (l.(loose := l.loose - {disk}), true) else (l, false)
  }

  /** vgcreate vg disk */
  function VgCreate(l: Lvm, vg: string, disk: string, ok: bool): (r: (Lvm, bool)) {
    if ok && vg !in l.vgs && disk in l.loose then
      (l.(vgs := l.vgs[vg := Vg(map[disk := l.loose[disk]], map[], l.loose[disk])],
          loose := l.loose - {disk}), true)
    else
      (l, false)
  }

  /** vgextend vg disk */
  function VgExtend(l: Lvm, vg: string, disk: string, ok: bool): (r: (Lvm, bool)) {
    if ok && vg in l.vgs && disk in l.loose then
      var g := l.vgs[vg];
      (l.(vgs := l.vgs[vg := g.(pvs := g.pvs[disk := l.loose[disk]], free := g.free + l.loose[disk])],
          loose := l.loose - {disk}), true)
    else
      (l, false)
  }

  /** vgremove -f vg, of a group with no logical volumes. */
  function VgRemove(l: Lvm, vg: string, ok: bool): (r: (Lvm, bool)) {
    if ok && vg in l.vgs then
      (l.(vgs := l.vgs - {vg}, loose := l.loose + l.vgs[vg].pvs), true)
    else
      (l, false)
  }

  /** pvmove disk && vgreduce vg disk: the data on the PV fits on the others
      exactly when the group's free space covers the PV. */
  function VgReduce(l: Lvm, vg: string, disk: string, ok: bool): (r: (Lvm, bool)) {
    if ok && InVg(l, disk, vg) && 2 <= |l.vgs[vg].pvs| && l.vgs[vg].pvs[disk] <= l.vgs[vg].free then
      var g := l.vgs[vg];
      (l.(vgs := l.vgs[vg := g.(pvs := g.pvs - {disk}, free := g.free - g.pvs[disk])],
          loose := l.loose[disk := g.pvs[disk]]), true)
    else
      (l, false)
  }

  /** pvresize disk, after the device grew by `extra` bytes. */
  function PvGrow(l: Lvm, vg: string, disk: string, extra: nat): (r: Lvm) {
    if InVg(l, disk, vg) then
      var g := l.vgs[vg];
      l.(vgs := l.vgs[vg := g.(pvs := g.pvs[disk := g.pvs[disk] + extra], free := g.free + extra)])
    else
      l
  }

  /** No byte is lost: a group's PVs are exactly its LVs and its free space. */
  ghost predicate Conserved(g: Vg) {
    Sum(g.lvs) + g.free == Sum(g.pvs)
  }

  /** A conserved group of disks no smaller than the reserve and whole-GiB volumes. */
  ghost predicate SoundVg(g: Vg) {
    && Conserved(g)
    && Big(g.pvs)
    && (forall n :: n in g.lvs ==> WholeGib(g.lvs[n]))
  }

  /**
   Disks are no smaller than the reserve. This is assumed of the node: ListDevicesDetail leaves out
   smaller disks, but a loose PV of any size is taken into a group (devicecheck.go:322).
   */
  ghost predicate Big(disks: map<string, nat>) {
    forall d :: d in disks ==> disks[d] >= RESERVE
  }

  /** A disk is a PV of one group, or a loose PV, or neither. */
  ghost predicate PvUnique(l: Lvm) {
    && (forall d, a, b :: InVg(l, d, a) && InVg(l, d, b) ==> a == b)
    && (forall d, a :: InVg(l, d, a) ==> d !in l.loose)
  }

  /** The invariant of LVM itself; every command keeps it. */
  ghost predicate Sound(l: Lvm) {
    && (forall a :: a in l.vgs ==> SoundVg(l.vgs[a]))
    && PvUnique(l)
    && Big(l.loose)
    && Big(l.devices)
  }

  /** What the guards of volume.go are there for. */
  ghost predicate Reserved(l: Lvm) {
    forall a :: a in l.vgs ==> l.vgs[a].free >= RESERVE
  }

  /** Replacing one group by another on the same disks. */
  lemma SameDisks(l: Lvm, vg: string, g: Vg)
    requires Sound(l) && vg in l.vgs && SoundVg(g) && g.pvs.Keys == l.vgs[vg].pvs.Keys
    ensures Sound(l.(vgs := l.vgs[vg := g]))
  {
    var l' := l.(vgs := l.vgs[vg := g]);
    forall d, a ensures InVg(l', d, a) <==> InVg(l, d, a) {}
  }

  lemma LvCreateSound(l: Lvm, vg: string, name: string, gibs: nat, ok: bool)
    requires Sound(l)
    ensures Sound(LvCreate(l, vg, name, gibs, ok).0)
  {
    if LvCreate(l, vg, name, gibs, ok).1 {
      SumInsert(l.vgs[vg].lvs, name, gibs * GIB);
      WholeMultiple(gibs);
      SameDisks(l, vg, LvCreate(l, vg, name, gibs, ok).0.vgs[vg]);
    }
  }

  lemma LvResizeSound(l: Lvm, vg: string, name: string, gibs: nat, ok: bool)
    requires Sound(l)
    ensures Sound(LvResize(l, vg, name, gibs, ok).0)
  {
    if LvResize(l, vg, name, gibs, ok).1 {
      SumUpdate(l.vgs[vg].lvs, name, gibs * GIB);
      WholeMultiple(gibs);
      SameDisks(l, vg, LvResize(l, vg, name, gibs, ok).0.vgs[vg]);
    }
  }

  lemma LvRemoveSound(l: Lvm, vg: string, name: string, ok: bool)
    requires Sound(l)
    ensures Sound(LvRemove(l, vg, name, ok).0)
  {
    if LvRemove(l, vg, name, ok).1 {
      SumRemove(l.vgs[vg].lvs, name);
      SameDisks(l, vg, LvRemove(l, vg, name, ok).0.vgs[vg]);
    }
  }

  lemma PvGrowSound(l: Lvm, vg: string, disk: string, extra: nat)
    requires Sound(l)
    ensures Sound(PvGrow(l, vg, disk, extra))
    ensures Reserved(l) ==> Reserved(PvGrow(l, vg, disk, extra))
  {
    if InVg(l, disk, vg) {
      SumUpdate(l.vgs[vg].pvs, disk, l.vgs[vg].pvs[disk] + extra);
      SameDisks(l, vg, PvGrow(l, vg, disk, extra).vgs[vg]);
    }
  }

  lemma PvCreateSound(l: Lvm, disk: string, ok: bool)
    requires Sound(l)
    ensures Sound(PvCreate(l, disk, ok).0)
  {
    var l' := PvCreate(l, disk, ok).0;
    forall d, a ensures InVg(l', d, a) <==> InVg(l, d, a) {}
  }

  lemma PvRemoveSound(l: Lvm, disk: string, ok: bool)
    requires Sound(l)
    ensures Sound(PvRemove(l, disk, ok).0)
  {
    var l' := PvRemove(l, disk, ok).0;
    forall d, a ensures InVg(l', d, a) <==> InVg(l, d, a) {}
  }

  lemma VgCreateSound(l: Lvm, vg: string, disk: string, ok: bool)
    requires Sound(l)
    ensures Sound(VgCreate(l, vg, disk, ok).0)
  {
    var r := VgCreate(l, vg, disk, ok);
    if r.1 {
      SumSingle(disk, l.loose[disk]);
      forall d, a ensures InVg(r.0, d, a) <==> InVg(l, d, a) || (d == disk && a == vg) {}
    }
  }

  lemma VgExtendSound(l: Lvm, vg: string, disk: string, ok: bool)
    requires Sound(l)
    ensures Sound(VgExtend(l, vg, disk, ok).0)
  {
    var r := VgExtend(l, vg, disk, ok);
    if r.1 {
      assert !InVg(l, disk, vg);
      SumInsert(l.vgs[vg].pvs, disk, l.loose[disk]);
      assert SoundVg(r.0.vgs[vg]);
      forall d, a ensures InVg(r.0, d, a) <==> InVg(l, d, a) || (d == disk && a == vg) {}
    }
  }

  lemma VgRemoveSound(l: Lvm, vg: string, ok: bool)
    requires Sound(l)
    ensures Sound(VgRemove(l, vg, ok).0)
  {
    var r := VgRemove(l, vg, ok);
    if r.1 {
      forall d, a ensures InVg(r.0, d, a) <==> InVg(l, d, a) && a != vg {}
      forall d ensures d in l.vgs[vg].pvs <==> InVg(l, d, vg) {}
    }
  }

  lemma VgReduceSound(l: Lvm, vg: string, disk: string, ok: bool)
    requires Sound(l)
    ensures Sound(VgReduce(l, vg, disk, ok).0)
  {
    var r := VgReduce(l, vg, disk, ok);
    if r.1 {
      SumRemove(l.vgs[vg].pvs, disk);
      assert SoundVg(r.0.vgs[vg]);
      forall d, a ensures InVg(r.0, d, a) <==> InVg(l, d, a) && !(d == disk && a == vg) {}
    }
  }

  // Disks that grow.

  /** h is g after some of its disks grew. */
  ghost predicate GrownVg(g: Vg, h: Vg) {
    && h.lvs == g.lvs && h.pvs.Keys == g.pvs.Keys && g.free <= h.free
    && forall d :: d in g.pvs ==> g.pvs[d] <= h.pvs[d] && g.free - g.pvs[d] <= h.free - h.pvs[d]
  }

  ghost predicate Grown(l: Lvm, m: Lvm) {
    && m.loose == l.loose && m.devices == l.devices && m.vgs.Keys == l.vgs.Keys
    && forall a :: a in l.vgs ==> GrownVg(l.vgs[a], m.vgs[a])
  }

  lemma PvGrowGrows(l: Lvm, m: Lvm, vg: string, disk: string, extra: nat)
    requires Grown(l, m)
    ensures Grown(l, PvGrow(m, vg, disk, extra))
  {
    var r := PvGrow(m, vg, disk, extra);
    forall a | a in l.vgs ensures GrownVg(l.vgs[a], r.vgs[a]) {
      assert GrownVg(l.vgs[a], m.vgs[a]);
    }
  }
}
