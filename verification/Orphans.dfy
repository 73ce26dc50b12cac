/** The periodic pass that removes local volumes the cluster does not know (runners/troubleshoot.go). */
module Orphans {
  import opened Lvm
  import opened VolumeOps
  import opened VolumeManager

  /** A LogicVolume object of this node; raw ones are partitions. */
  datatype LogicVolume = LogicVolume(name: string, raw: bool)

  /** An LVM volume as VolumeList reports it. */
  datatype LvInfo = LvInfo(vg: string, lv: string)

  ghost predicate Exists(l: Lvm, v: LvInfo) {
    v.vg in l.vgs && v.lv in l.vgs[v.vg].lvs
  }

  /** Some non-raw object of the cluster owns the volume. */
  ghost predicate Owned(objects: seq<LogicVolume>, lv: string) {
    exists i | 0 <= i < |objects| :: !objects[i].raw && lv == VOLUME_PREFIX + objects[i].name
  }

  ghost predicate Orphan(objects: seq<LogicVolume>, pvs: set<string>, lv: string) {
    VOLUME_PREFIX <= lv && !Owned(objects, lv) && lv[|VOLUME_PREFIX|..] !in pvs
  }

  /** The first n listed volumes are done, and v was among them and went. */
  ghost predicate Removed(volumes: seq<LvInfo>, objects: seq<LogicVolume>, pvs: set<string>, envs: seq<Env>,
                          n: nat, v: LvInfo)
    requires |envs| == |volumes| && n <= |volumes|
  {
    exists i | 0 <= i < n :: volumes[i] == v && Orphan(objects, pvs, v.lv) && envs[i].lvReads && envs[i].cmd1
  }

  /** mapLvList. */
  method OwnedNames(objects: seq<LogicVolume>) returns (names: set<string>)
    ensures forall lv :: lv in names <==> Owned(objects, lv)
  {
    names := {};
    for i := 0 to |objects|
      invariant forall lv :: lv in names <==>
                  exists k | 0 <= k < i :: !objects[k].raw && lv == VOLUME_PREFIX + objects[k].name
    {
      if !objects[i].raw {
        names := names + {VOLUME_PREFIX + objects[i].name};
      }
    }
  }

  /** v is gone if it is removed, and otherwise as before. */
  ghost predicate Left(before: Lvm, after: Lvm, v: LvInfo, removed: bool) {
    && (Exists(after, v) <==> Exists(before, v) && !removed)
    && (Exists(after, v) ==> after.vgs[v.vg].lvs[v.lv] == before.vgs[v.vg].lvs[v.lv])
  }

  ghost predicate Hits(v: LvInfo, delete: bool, env: Env, w: LvInfo) {
    w == v && delete && env.lvReads && env.cmd1
  }

  lemma DeleteLeaves(l: Lvm, v: LvInfo, env: Env, w: LvInfo)
    requires VOLUME_PREFIX <= v.lv
    ensures Left(l, DeleteVolume(l, l, v.lv, v.vg, env).0, w, Hits(v, true, env, w))
  {
  }

  /** One volume of the listing. */
  method Consider(node: LocalVolume, v: LvInfo, ghost objects: seq<LogicVolume>, names: set<string>,
                  pvs: set<string>, env: Env) returns (repair: bool)
    requires VOLUME_MUTEX !in node.mutex.locks && forall lv :: lv in names <==> Owned(objects, lv)
    modifies node`lvm, node.mutex
    ensures node.mutex.locks == old(node.mutex.locks) && (old(Sound(node.lvm)) ==> Sound(node.lvm))
    ensures forall w :: Left(old(node.lvm), node.lvm, w, Hits(v, Orphan(objects, pvs, v.lv), env, w))
    ensures repair <==> Repairs(objects, pvs, v.lv)
  {
    repair := false;
    if v.lv !in names && VOLUME_PREFIX <= v.lv {
      repair := v.lv[|VOLUME_PREFIX|..] in pvs;
      if !repair {
        var out := node.DeleteVolume(v.lv, v.vg, env);
        forall w ensures Left(old(node.lvm), node.lvm, w, Hits(v, true, env, w)) {
          DeleteLeaves(old(node.lvm), v, env, w);
        }
      }
    }
  }

  /** The volume has no object but a persistent volume, so an object is made for it. */
  ghost predicate Repairs(objects: seq<LogicVolume>, pvs: set<string>, lv: string) {
    VOLUME_PREFIX <= lv && !Owned(objects, lv) && lv[|VOLUME_PREFIX|..] in pvs
  }

  /**
   The pass over the listed volumes, on a node where nothing else runs. `repaired` are the positions
   for which a LogicVolume object is asked for.
   */
  method CleanupOrphanVolume(node: LocalVolume, volumes: seq<LvInfo>, objects: seq<LogicVolume>, pvs: set<string>,
                             envs: seq<Env>) returns (repaired: seq<bool>)
    requires |envs| == |volumes| && VOLUME_MUTEX !in node.mutex.locks
    modifies node`lvm, node.mutex
    ensures forall v :: Left(old(node.lvm), node.lvm, v, Removed(volumes, objects, pvs, envs, |volumes|, v))
    ensures old(Sound(node.lvm)) ==> Sound(node.lvm)
    ensures |repaired| == |volumes|
    ensures forall i | 0 <= i < |volumes| :: repaired[i] <==> Repairs(objects, pvs, volumes[i].lv)
  {
    var names := OwnedNames(objects);
    repaired := [];
    for i := 0 to |volumes|
      invariant node.mutex.locks == old(node.mutex.locks)
      invariant forall v :: Left(old(node.lvm), node.lvm, v, Removed(volumes, objects, pvs, envs, i, v))
      invariant old(Sound(node.lvm)) ==> Sound(node.lvm)
      invariant |repaired| == i && forall k | 0 <= k < i :: repaired[k] <==> Repairs(objects, pvs, volumes[k].lv)
    {
      ghost var before := node.lvm;
      var repair := Consider(node, volumes[i], objects, names, pvs, envs[i]);
      repaired := repaired + [repair];
      ghost var next := i + 1;
      forall v ensures Left(old(node.lvm), node.lvm, v, Removed(volumes, objects, pvs, envs, next, v)) {
        ghost var hit := Hits(volumes[i], Orphan(objects, pvs, volumes[i].lv), envs[i], v);
        assert Left(old(node.lvm), before, v, Removed(volumes, objects, pvs, envs, i, v));
        assert Left(before, node.lvm, v, hit);
        assert Removed(volumes, objects, pvs, envs, next, v) <==> Removed(volumes, objects, pvs, envs, i, v) || hit;
      }
    }
  }

  /**
   When every volume is listed and every command works, what is left of the volume- volumes is
   what has a LogicVolume object on the node or a persistent volume.
   */
  lemma LeftIsOwned(before: Lvm, after: Lvm, volumes: seq<LvInfo>, objects: seq<LogicVolume>, pvs: set<string>,
                    envs: seq<Env>, v: LvInfo)
    requires |envs| == |volumes| && forall i | 0 <= i < |envs| :: envs[i].lvReads && envs[i].cmd1
    requires Exists(before, v) ==> v in volumes
    requires Left(before, after, v, Removed(volumes, objects, pvs, envs, |volumes|, v))
    ensures Exists(after, v) <==>
              Exists(before, v) && (VOLUME_PREFIX <= v.lv ==> Owned(objects, v.lv) || v.lv[|VOLUME_PREFIX|..] in pvs)
  {
    if Exists(before, v) && Orphan(objects, pvs, v.lv) {
      var i :| 0 <= i < |volumes| && volumes[i] == v;
      assert envs[i].lvReads && envs[i].cmd1;
    }
  }
}
