/** The records of vgs, pvs and lvs. */
module LvmRecords {
  import opened Text
  import opened Wrappers
  import opened LvmOutput
  import VolumeOps

  const MAX64: nat := 0xFFFF_FFFF_FFFF_FFFF
  const MAX32: nat := 0xFFFF_FFFF
  const THIN_PREFIX := "thin-"

  // Rows in pieces of three fields.

  function Three<R>(acc: R, a: Field, b: Field, c: Field, set1: (R, string, string) -> R): R {
    set1(set1(set1(acc, a.0, a.1), b.0, b.1), c.0, c.1)
  }

  lemma AppliedThree<R>(acc: R, a: Field, b: Field, c: Field, rest: seq<Field>, set1: (R, string, string) -> R)
    ensures Applied(acc, [a, b, c] + rest, set1) == Applied(Three(acc, a, b, c, set1), rest, set1)
  {
    var one := set1(acc, a.0, a.1);
    assert ([a, b, c] + rest)[1..] == [b, c] + rest;
    assert Applied(acc, [a, b, c] + rest, set1) == Applied(one, [b, c] + rest, set1);
    assert ([b, c] + rest)[1..] == [c] + rest;
    assert ([c] + rest)[1..] == rest;
  }

  lemma CleanThree(a: Field, b: Field, c: Field, rest: seq<Field>)
    requires Clean(a.0) && Clean(a.1) && Clean(b.0) && Clean(b.1) && Clean(c.0) && Clean(c.1)
    requires rest == [] || CleanRow(rest)
    ensures CleanRow([a, b, c] + rest)
  {
  }

  lemma DigitsClean(n: nat)
    ensures Clean(Digits(n))
  {
  }

  lemma {:induction false} FilterAll<R(!new)>(rs: seq<R>, keep: R -> bool)
    requires forall r :: keep(r)
    ensures Filter(rs, keep) == rs
  {
    if rs != [] { FilterAll(rs[1..], keep); }
  }

  // Volume groups.

  datatype VgGroup = VgGroup(name: string, pvCount: nat, lvCount: nat, attr: string, size: nat, free: nat)

  const BlankVg := VgGroup("", 0, 0, "", 0, 0)

  function SetVg(r: VgGroup, key: string, value: string): VgGroup {
    if key == "LVM2_VG_NAME" then r.(name := value)
    else if key == "LVM2_PV_COUNT" then r.(pvCount := ParseUint(value, MAX64))
    else if key == "LVM2_LV_COUNT" then r.(lvCount := ParseUint(value, MAX64))
    else if key == "LVM2_VG_ATTR" then r.(attr := value)
    else if key == "LVM2_VG_SIZE" then r.(size := ParseUint(value, MAX64))
    else if key == "LVM2_VG_FREE" then r.(free := ParseUint(value, MAX64))
    else r
  }

  predicate AnyVg(r: VgGroup) {
    true
  }

  function ParsedVgs(text: string): Option<seq<VgGroup>> {
    Parsed(text, BlankVg, SetVg, AnyVg)
  }

  function VgLast(r: VgGroup): seq<Field> {
    [("LVM2_VG_ATTR", r.attr), ("LVM2_VG_SIZE", Digits(r.size)), ("LVM2_VG_FREE", Digits(r.free))]
  }

  function VgRow(r: VgGroup): seq<Field> {
    [("LVM2_VG_NAME", r.name), ("LVM2_PV_COUNT", Digits(r.pvCount)), ("LVM2_LV_COUNT", Digits(r.lvCount))] + VgLast(r)
  }

  predicate GoodVg(r: VgGroup) {
    Clean(r.name) && Clean(r.attr) && r.pvCount <= MAX64 && r.lvCount <= MAX64 && r.size <= MAX64 && r.free <= MAX64
  }

  lemma VgKeys()
    ensures Clean("LVM2_VG_NAME") && Clean("LVM2_PV_COUNT") && Clean("LVM2_LV_COUNT")
    ensures Clean("LVM2_VG_ATTR") && Clean("LVM2_VG_SIZE") && Clean("LVM2_VG_FREE")
  {
  }

  lemma VgSets(acc: VgGroup, v: string, w: string, x: string)
    ensures Three(acc, ("LVM2_VG_NAME", v), ("LVM2_PV_COUNT", w), ("LVM2_LV_COUNT", x), SetVg)
            == acc.(name := v, pvCount := ParseUint(w, MAX64), lvCount := ParseUint(x, MAX64))
    ensures Three(acc, ("LVM2_VG_ATTR", v), ("LVM2_VG_SIZE", w), ("LVM2_VG_FREE", x), SetVg)
            == acc.(attr := v, size := ParseUint(w, MAX64), free := ParseUint(x, MAX64))
  {
  }

  lemma VgApplied(r: VgGroup)
    requires GoodVg(r)
    ensures Applied(BlankVg, VgRow(r), SetVg) == r
  {
    ParseDigits(r.pvCount, MAX64);
    ParseDigits(r.lvCount, MAX64);
    ParseDigits(r.size, MAX64);
    ParseDigits(r.free, MAX64);
    var row, last := VgRow(r), VgLast(r);
    var half := BlankVg.(name := r.name, pvCount := r.pvCount, lvCount := r.lvCount);
    VgSets(BlankVg, r.name, Digits(r.pvCount), Digits(r.lvCount));
    VgSets(half, r.attr, Digits(r.size), Digits(r.free));
    AppliedThree(BlankVg, row[0], row[1], row[2], last, SetVg);
    AppliedThree(half, last[0], last[1], last[2], [], SetVg);
    assert last + [] == last;
  }

  lemma VgClean(r: VgGroup)
    requires GoodVg(r)
    ensures CleanRow(VgRow(r))
  {
    DigitsClean(r.pvCount);
    DigitsClean(r.lvCount);
    DigitsClean(r.size);
    DigitsClean(r.free);
    VgKeys();
  }

  /** parseVgs gives back the volume groups that were printed. */
  lemma VgsRoundTrip(rs: seq<VgGroup>)
    requires forall i | 0 <= i < |rs| :: GoodVg(rs[i])
    ensures CleanRows(Rows(rs, VgRow))
    ensures ParsedVgs(Print(Rows(rs, VgRow))) == Some(rs)
  {
    forall i | 0 <= i < |rs| ensures Faithful(VgRow, BlankVg, SetVg, rs[i]) {
      VgClean(rs[i]);
      VgApplied(rs[i]);
    }
    RoundTrip(rs, VgRow, BlankVg, SetVg, AnyVg);
    FilterAll(rs, AnyVg);
  }

  // Physical volumes.

  datatype PvInfo = PvInfo(name: string, vg: string, fmt: string, attr: string, size: nat, free: nat)

  const BlankPv := PvInfo("", "", "", "", 0, 0)

  function SetPv(r: PvInfo, key: string, value: string): PvInfo {
    if key == "LVM2_PV_NAME" then r.(name := value)
    else if key == "LVM2_VG_NAME" then r.(vg := value)
    else if key == "LVM2_PV_FMT" then r.(fmt := value)
    else if key == "LVM2_PV_ATTR" then r.(attr := value)
    else if key == "LVM2_PV_SIZE" then r.(size := ParseUint(value, MAX64))
    else if key == "LVM2_PV_FREE" then r.(free := ParseUint(value, MAX64))
    else r
  }

  predicate AnyPv(r: PvInfo) {
    true
  }

  function ParsedPvs(text: string): Option<seq<PvInfo>> {
    Parsed(text, BlankPv, SetPv, AnyPv)
  }

  function PvLast(r: PvInfo): seq<Field> {
    [("LVM2_PV_ATTR", r.attr), ("LVM2_PV_SIZE", Digits(r.size)), ("LVM2_PV_FREE", Digits(r.free))]
  }

  function PvRow(r: PvInfo): seq<Field> {
    [("LVM2_PV_NAME", r.name), ("LVM2_VG_NAME", r.vg), ("LVM2_PV_FMT", r.fmt)] + PvLast(r)
  }

  predicate GoodPv(r: PvInfo) {
    Clean(r.name) && Clean(r.vg) && Clean(r.fmt) && Clean(r.attr) && r.size <= MAX64 && r.free <= MAX64
  }

  lemma PvKeys()
    ensures Clean("LVM2_PV_NAME") && Clean("LVM2_VG_NAME") && Clean("LVM2_PV_FMT")
    ensures Clean("LVM2_PV_ATTR") && Clean("LVM2_PV_SIZE") && Clean("LVM2_PV_FREE")
  {
  }

  lemma PvSets(acc: PvInfo, v: string, w: string, x: string)
    ensures Three(acc, ("LVM2_PV_NAME", v), ("LVM2_VG_NAME", w), ("LVM2_PV_FMT", x), SetPv)
            == acc.(name := v, vg := w, fmt := x)
    ensures Three(acc, ("LVM2_PV_ATTR", v), ("LVM2_PV_SIZE", w), ("LVM2_PV_FREE", x), SetPv)
            == acc.(attr := v, size := ParseUint(w, MAX64), free := ParseUint(x, MAX64))
  {
  }

  lemma PvApplied(r: PvInfo)
    requires GoodPv(r)
    ensures Applied(BlankPv, PvRow(r), SetPv) == r
  {
    ParseDigits(r.size, MAX64);
    ParseDigits(r.free, MAX64);
    var row, last := PvRow(r), PvLast(r);
    var half := BlankPv.(name := r.name, vg := r.vg, fmt := r.fmt);
    PvSets(BlankPv, r.name, r.vg, r.fmt);
    PvSets(half, r.attr, Digits(r.size), Digits(r.free));
    AppliedThree(BlankPv, row[0], row[1], row[2], last, SetPv);
    AppliedThree(half, last[0], last[1], last[2], [], SetPv);
    assert last + [] == last;
  }

  lemma PvClean(r: PvInfo)
    requires GoodPv(r)
    ensures CleanRow(PvRow(r))
  {
    DigitsClean(r.size);
    DigitsClean(r.free);
    PvKeys();
  }

  /** parsePvs gives back the physical volumes that were printed. */
  lemma PvsRoundTrip(rs: seq<PvInfo>)
    requires forall i | 0 <= i < |rs| :: GoodPv(rs[i])
    ensures CleanRows(Rows(rs, PvRow))
    ensures ParsedPvs(Print(Rows(rs, PvRow))) == Some(rs)
  {
    forall i | 0 <= i < |rs| ensures Faithful(PvRow, BlankPv, SetPv, rs[i]) {
      PvClean(rs[i]);
      PvApplied(rs[i]);
    }
    RoundTrip(rs, PvRow, BlankPv, SetPv, AnyPv);
    FilterAll(rs, AnyPv);
  }

  // Logical volumes.

  /** data_percent stays text here. */
  datatype LvInfo = LvInfo(
    name: string, vg: string, path: string, size: nat, dataPercent: string, attr: string, major: nat, minor: nat,
    origin: string, originSize: nat, pool: string, thinCount: nat, tags: string, active: string)

  const BlankLv := LvInfo("", "", "", 0, "", "", 0, 0, "", 0, "", 0, "", "")

  function SetLv(r: LvInfo, key: string, value: string): LvInfo {
    if key == "LVM2_LV_NAME" then r.(name := value)
    else if key == "LVM2_VG_NAME" then r.(vg := value)
    else if key == "LVM2_LV_PATH" then r.(path := value)
    else if key == "LVM2_LV_SIZE" then r.(size := ParseUint(value, MAX64))
    else if key == "LVM2_LV_KERNEL_MAJOR" then r.(major := ParseUint(value, MAX32))
    else if key == "LVM2_LV_KERNEL_MINOR" then r.(minor := ParseUint(value, MAX32))
    else if key == "LVM2_ORIGIN" then r.(origin := value)
    else if key == "LVM2_ORIGIN_SIZE" then r.(originSize := ParseUint(value, MAX64))
    else if key == "LVM2_POOL_LV" then r.(pool := value)
    else if key == "LVM2_THIN_COUNT" then r.(thinCount := ParseUint(value, MAX64))
    else if key == "LVM2_LV_TAGS" then r.(tags := value)
    else if key == "LVM2_DATA_PERCENT" then r.(dataPercent := value)
    else if key == "LVM2_LV_ATTR" then r.(attr := value)
    else if key == "LVM2_LV_ACTIVE" then r.(active := value)
    else r
  }

  /** Only volumes named volume- or thin- are reported. */
  predicate OurLv(r: LvInfo) {
    VolumeOps.VOLUME_PREFIX <= r.name || THIN_PREFIX <= r.name
  }

  function ParsedLvs(text: string): Option<seq<LvInfo>> {
    Parsed(text, BlankLv, SetLv, OurLv)
  }

  function LvRow5(r: LvInfo): seq<Field> {
    [("LVM2_LV_TAGS", r.tags), ("LVM2_LV_ACTIVE", r.active)]
  }

  function LvRow4(r: LvInfo): seq<Field> {
    [("LVM2_ORIGIN_SIZE", Digits(r.originSize)), ("LVM2_POOL_LV", r.pool), ("LVM2_THIN_COUNT", Digits(r.thinCount))]
    + LvRow5(r)
  }

  function LvRow3(r: LvInfo): seq<Field> {
    [("LVM2_LV_KERNEL_MAJOR", Digits(r.major)), ("LVM2_LV_KERNEL_MINOR", Digits(r.minor)), ("LVM2_ORIGIN", r.origin)]
    + LvRow4(r)
  }

  function LvRow2(r: LvInfo): seq<Field> {
    [("LVM2_LV_SIZE", Digits(r.size)), ("LVM2_DATA_PERCENT", r.dataPercent), ("LVM2_LV_ATTR", r.attr)] + LvRow3(r)
  }

  function LvRow(r: LvInfo): seq<Field> {
    [("LVM2_LV_NAME", r.name), ("LVM2_VG_NAME", r.vg), ("LVM2_LV_PATH", r.path)] + LvRow2(r)
  }

  predicate GoodLv(r: LvInfo) {
    && Clean(r.name) && Clean(r.vg) && Clean(r.path) && Clean(r.dataPercent) && Clean(r.attr) && Clean(r.origin)
    && Clean(r.pool) && Clean(r.tags) && Clean(r.active)
    && r.size <= MAX64 && r.major <= MAX32 && r.minor <= MAX32 && r.originSize <= MAX64 && r.thinCount <= MAX64
  }

  lemma LvSets1(acc: LvInfo, v: string, w: string, x: string)
    ensures Three(acc, ("LVM2_LV_NAME", v), ("LVM2_VG_NAME", w), ("LVM2_LV_PATH", x), SetLv)
            == acc.(name := v, vg := w, path := x)
    ensures Three(acc, ("LVM2_LV_SIZE", v), ("LVM2_DATA_PERCENT", w), ("LVM2_LV_ATTR", x), SetLv)
            == acc.(size := ParseUint(v, MAX64), dataPercent := w, attr := x)
  {
  }

  lemma LvSets2(acc: LvInfo, v: string, w: string, x: string)
    ensures Three(acc, ("LVM2_LV_KERNEL_MAJOR", v), ("LVM2_LV_KERNEL_MINOR", w), ("LVM2_ORIGIN", x), SetLv)
            == acc.(major := ParseUint(v, MAX32), minor := ParseUint(w, MAX32), origin := x)
    ensures Three(acc, ("LVM2_ORIGIN_SIZE", v), ("LVM2_POOL_LV", w), ("LVM2_THIN_COUNT", x), SetLv)
            == acc.(originSize := ParseUint(v, MAX64), pool := w, thinCount := ParseUint(x, MAX64))
  {
  }

  lemma LvSets3(acc: LvInfo, v: string, w: string)
    ensures SetLv(SetLv(acc, "LVM2_LV_TAGS", v), "LVM2_LV_ACTIVE", w) == acc.(tags := v, active := w)
  {
  }

  lemma AppliedTwo<R>(acc: R, a: Field, b: Field, set1: (R, string, string) -> R)
    ensures Applied(acc, [a, b], set1) == set1(set1(acc, a.0, a.1), b.0, b.1)
  {
    var one := set1(acc, a.0, a.1);
    assert [a, b][1..] == [b] && [b][1..] == [];
    assert Applied(one, [b], set1) == set1(one, b.0, b.1);
  }

  lemma LvApplied(r: LvInfo)
    requires GoodLv(r)
    ensures Applied(BlankLv, LvRow(r), SetLv) == r
  {
    ParseDigits(r.size, MAX64);
    ParseDigits(r.major, MAX32);
    ParseDigits(r.minor, MAX32);
    ParseDigits(r.originSize, MAX64);
    ParseDigits(r.thinCount, MAX64);
    var r1, r2, r3, r4, r5 := LvRow(r), LvRow2(r), LvRow3(r), LvRow4(r), LvRow5(r);
    var a1 := BlankLv.(name := r.name, vg := r.vg, path := r.path);
    var a2 := a1.(size := r.size, dataPercent := r.dataPercent, attr := r.attr);
    var a3 := a2.(major := r.major, minor := r.minor, origin := r.origin);
    var a4 := a3.(originSize := r.originSize, pool := r.pool, thinCount := r.thinCount);
    LvSets1(BlankLv, r.name, r.vg, r.path);
    LvSets1(a1, Digits(r.size), r.dataPercent, r.attr);
    LvSets2(a2, Digits(r.major), Digits(r.minor), r.origin);
    LvSets2(a3, Digits(r.originSize), r.pool, Digits(r.thinCount));
    LvSets3(a4, r.tags, r.active);
    AppliedThree(BlankLv, r1[0], r1[1], r1[2], r2, SetLv);
    AppliedThree(a1, r2[0], r2[1], r2[2], r3, SetLv);
    AppliedThree(a2, r3[0], r3[1], r3[2], r4, SetLv);
    AppliedThree(a3, r4[0], r4[1], r4[2], r5, SetLv);
    AppliedTwo(a4, r5[0], r5[1], SetLv);
  }

  lemma LvKeys()
    ensures Clean("LVM2_LV_NAME") && Clean("LVM2_VG_NAME") && Clean("LVM2_LV_PATH")
    ensures Clean("LVM2_LV_SIZE") && Clean("LVM2_DATA_PERCENT") && Clean("LVM2_LV_ATTR")
  {
  }

  lemma MoreLvKeys()
    ensures Clean("LVM2_LV_KERNEL_MAJOR") && Clean("LVM2_LV_KERNEL_MINOR") && Clean("LVM2_ORIGIN")
    ensures Clean("LVM2_ORIGIN_SIZE") && Clean("LVM2_POOL_LV") && Clean("LVM2_THIN_COUNT")
    ensures Clean("LVM2_LV_TAGS") && Clean("LVM2_LV_ACTIVE")
  {
  }

  lemma LvClean(r: LvInfo)
    requires GoodLv(r)
    ensures CleanRow(LvRow(r))
  {
    DigitsClean(r.size);
    DigitsClean(r.major);
    DigitsClean(r.minor);
    DigitsClean(r.originSize);
    DigitsClean(r.thinCount);
    LvKeys();
    MoreLvKeys();
    var r1, r2, r3, r4, r5 := LvRow(r), LvRow2(r), LvRow3(r), LvRow4(r), LvRow5(r);
    CleanThree(r4[0], r4[1], r4[2], r5);
    CleanThree(r3[0], r3[1], r3[2], r4);
    CleanThree(r2[0], r2[1], r2[2], r3);
    CleanThree(r1[0], r1[1], r1[2], r2);
  }

  /** parseLvs gives back exactly the printed volumes that are named volume- or thin-. */
  lemma LvsRoundTrip(rs: seq<LvInfo>)
    requires forall i | 0 <= i < |rs| :: GoodLv(rs[i])
    ensures CleanRows(Rows(rs, LvRow))
    ensures ParsedLvs(Print(Rows(rs, LvRow))) == Some(Filter(rs, OurLv))
  {
    forall i | 0 <= i < |rs| ensures Faithful(LvRow, BlankLv, SetLv, rs[i]) {
      LvClean(rs[i]);
      LvApplied(rs[i]);
    }
    RoundTrip(rs, LvRow, BlankLv, SetLv, OurLv);
  }
}
