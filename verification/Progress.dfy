/** An install plan never gets in its own way: at every point the next command can succeed. */
module Progress {
  import opened Wrappers
  import opened Slots
  import opened Uki
  import opened Groups
  import opened Runtime
  import opened Plan
  import opened Disk
  import opened Inventory
  import opened Frame
  import opened Install
  import opened CrashSafety
  import opened Commit
  import opened Dashes
  import opened Outcome

  /** The file can be read, or breaks off unnoticed, and gives no more than the manifest says. */
  predicate Fitting(src: Sources, file: File, source: string) {
    var r := Read(src, FullName(source, file.name), IsCompressed(file.name));
    (r.Whole? || IsCompressed(file.name)) && file.unpackedSize.Some? && |r.bytes| <= file.unpackedSize.value
  }

  /** What the downloaded files and the version have to be like. */
  predicate Feasible(src: Sources, m: Manifest, source: string)
    requires |m.rootVerityHash| >= 16
  {
    && Fitting(src, m.store, source) && Fitting(src, m.verity, source)
    && Read(src, FullName(source, m.kernel.name), false).Whole?
    && '/' !in m.ToVersion().revision && '/' !in m.ToVersion().hash.value
  }

  /** Every empty slot is listed with its size. */
  ghost predicate SizesListed(gs: seq<SlotGroup>) {
    forall n | EmptyName(n) :: SizeKnown(gs, n)
  }

  /** The command can succeed on `d`. */
  ghost predicate CanSucceed(src: Sources, d: Disk, c: Pipeline) {
    exists d' :: Done(src, d, c, d')
  }

  // ---------------------------------------------------------------- single commands

  lemma WriteCan(src: Sources, d: Disk, input: string, packed: bool, of: string, n: string)
    requires Target(d, of) == Some(n) && (Read(src, input, packed).Whole? || packed)
    requires |Read(src, input, packed).bytes| <= |d.lvs[n].data|
    ensures CanSucceed(src, d, WriteImage(input, packed, of))
  {
    var d' := d.(lvs := d.lvs[n := Lv(Overwrite(d.lvs[n].data, Read(src, input, packed).bytes), false)]);
    assert Done(src, d, WriteImage(input, packed, of), d');
  }

  lemma FlushCan(src: Sources, d: Disk, of: string, n: string)
    requires Target(d, of) == Some(n)
    ensures CanSucceed(src, d, FlushBufs(of))
  {
    var d' := d.(lvs := d.lvs[n := d.lvs[n].(flushed := true)]);
    assert Done(src, d, FlushBufs(of), d');
  }

  lemma RenameCan(src: Sources, d: Disk, from: string, to: string)
    requires '/' !in to && from in d.lvs && to !in d.lvs
    ensures CanSucceed(src, d, Lvrename(d.vg, from, to))
  {
    var d' := d.(lvs := (d.lvs - {from})[to := d.lvs[from]]);
    assert Done(src, d, Lvrename(d.vg, from, to), d');
  }

  lemma InstallFileCan(src: Sources, d: Disk, input: string, dest: string)
    requires Read(src, input, false).Whole?
    ensures CanSucceed(src, d, InstallFile(input, dest))
  {
    var d' := match EspName(dest)
      case None => d
      case Some(n) => d.(esp := d.esp[n := BootFile(Read(src, input, false).bytes, false)]);
    assert Done(src, d, InstallFile(input, dest), d');
  }

  function Zeros(n: nat): seq<Byte> {
    seq(n, _ => 0)
  }

  lemma ResizeCan(src: Sources, d: Disk, n: string, size: nat)
    requires n in d.lvs
    ensures CanSucceed(src, d, Lvresize(d.vg, n, size))
  {
    var data := d.lvs[n].data;
    var data' := if |data| < size then data + Zeros(size - |data|) else data;
    var d' := d.(lvs := d.lvs[n := d.lvs[n].(data := data')]);
    assert d'.lvs[n] == Lv(data', d.lvs[n].flushed);
    assert Done(src, d, Lvresize(d.vg, n, size), d');
  }

  lemma CreateCan(src: Sources, d: Disk, n: string, size: nat)
    requires n !in d.lvs && '/' !in n
    ensures CanSucceed(src, d, Lvcreate(d.vg, n, size))
  {
    var d' := d.(lvs := d.lvs[n := Lv(Zeros(size), true)]);
    assert Done(src, d, Lvcreate(d.vg, n, size), d');
  }

  // ---------------------------------------------------------------- the parts of a plan

  lemma NewNameNoSlash(d: Disk, j: Job, k: Kind, pre: seq<Pipeline>, r: nat, v: nat)
    requires Creates(d, j, pre, r, v)
    ensures '/' !in j.From(k)
  {
    var p := KindName(k) + "_empty_";
    assert j.From(k) == p + j.st.emptyId.id;
    assert '/' !in p;
  }

  lemma GrowCan(src: Sources, d: Disk, j: Job, pre: seq<Pipeline>, r: Slot, v: Slot, ds: seq<Disk>)
    requires Grows(d, j, pre, r, v) && d.vg == j.vg && Trace(src, pre, ds) && ds[0] == d && |ds| <= |pre|
    ensures CanSucceed(src, ds[|ds| - 1], pre[|ds| - 1])
  {
    hide DecodeStatus, SlotName, CanSucceed;
    var i := |ds| - 1;
    if i == 1 {
      assert Done(src, ds[0], pre[0], ds[1]);
    }
    var c := pre[i];
    ResizeCan(src, ds[i], c.name, c.size);
  }

  lemma CreatesCan(src: Sources, d: Disk, j: Job, pre: seq<Pipeline>, r: nat, v: nat, ds: seq<Disk>)
    requires j.Valid() && Creates(d, j, pre, r, v)
    requires d.vg == j.vg && Trace(src, pre, ds) && ds[0] == d && |ds| <= |pre|
    ensures CanSucceed(src, ds[|ds| - 1], pre[|ds| - 1])
  {
    hide DecodeStatus, SlotName, CanSucceed;
    var i := |ds| - 1;
    NewNameNoSlash(d, j, Root, pre, r, v);
    NewNameNoSlash(d, j, Verity, pre, r, v);
    FromIsEmpty(j, Root);
    FromIsEmpty(j, Verity);
    Differ(j.From(Root), j.From(Verity));
    if i == 1 {
      assert Done(src, ds[0], pre[0], ds[1]);
    }
    CreateCan(src, ds[i], pre[i].name, pre[i].size);
  }

  /** The volume of kind `k` takes its image. */
  lemma ImageFits(src: Sources, d: Disk, j: Job, gs: seq<SlotGroup>, k: Kind, r: Route)
    requires Fitting(src, j.FileOf(k), j.source) && SizesListed(gs) && j.Valid()
    requires r == RouteOf(src, j, k, r.before) && Enough(d, j, gs, k, |r.before|)
    ensures (j.Image(src, k).Whole? || r.packed) && |j.Image(src, k).bytes| <= |r.before|
  {
    FromIsEmpty(j, k);
    assert SizeKnown(gs, j.From(k));
  }

  lemma ToNoSlash(j: Job, k: Kind)
    requires j.Valid() && '/' !in j.m.ToVersion().revision && '/' !in j.m.ToVersion().hash.value
    ensures '/' !in j.To(k)
  {
    var t := j.m.ToVersion();
    assert j.To(k) == KindName(k) + "_" + t.revision + "_" + t.hash.value;
  }

  lemma WriteKindCan(src: Sources, d0: Disk, j: Job, gs: seq<SlotGroup>, d: Disk, k: Kind, r: Route)
    requires j.Valid() && Straight(j) && d.vg == j.vg && Fitting(src, j.FileOf(k), j.source) && SizesListed(gs)
    requires r == RouteOf(src, j, k, r.before) && Enough(d0, j, gs, k, |r.before|)
    requires j.From(k) in d.lvs && |d.lvs[j.From(k)].data| >= |r.before|
    ensures CanSucceed(src, d, j.Write(k))
  {
    hide DecodeStatus, SlotName, ParseUki, UkiName, CanSucceed, Enough, Fitting, SizesListed, Straight;
    StraightTarget(j, d, k);
    ImageFits(src, d0, j, gs, k, r);
    var input, packed := FullName(j.source, j.FileOf(k).name), IsCompressed(j.FileOf(k).name);
    WriteCan(src, d, input, packed, DeviceFile(j.vg, j.From(k)), j.From(k));
  }

  lemma FlushKindCan(src: Sources, j: Job, d: Disk, k: Kind)
    requires j.Valid() && Straight(j) && d.vg == j.vg && j.From(k) in d.lvs
    ensures CanSucceed(src, d, FlushBufs(DeviceFile(j.vg, j.From(k))))
  {
    hide DecodeStatus, SlotName, CanSucceed, Straight;
    StraightTarget(j, d, k);
    FlushCan(src, d, DeviceFile(j.vg, j.From(k)), j.From(k));
  }

  lemma RenameKindCan(src: Sources, j: Job, d: Disk, k: Kind)
    requires j.Valid() && d.vg == j.vg && j.From(k) in d.lvs && j.To(k) !in d.lvs
    requires '/' !in j.m.ToVersion().revision && '/' !in j.m.ToVersion().hash.value
    ensures CanSucceed(src, d, Lvrename(j.vg, j.From(k), j.To(k)))
  {
    hide DecodeStatus, SlotName, CanSucceed;
    ToNoSlash(j, k);
    RenameCan(src, d, j.From(k), j.To(k));
  }

  lemma CoreCan(src: Sources, d0: Disk, j: Job, gs: seq<SlotGroup>, d: Disk, n: nat, root: Route, verity: Route)
    requires j.Valid() && Straight(j) && d.vg == j.vg && n < 7 && Feasible(src, j.m, j.source) && SizesListed(gs)
    requires root == RouteOf(src, j, Root, root.before) && verity == RouteOf(src, j, Verity, verity.before)
    requires Enough(d0, j, gs, Root, |root.before|) && Enough(d0, j, gs, Verity, |verity.before|)
    requires Phase(d, root, verity, if n < 6 then n else 6)
    ensures CanSucceed(src, d, j.Core()[n])
  {
    hide DecodeStatus, SlotName, ParseUki, UkiName, CanSucceed, EspName, Enough, Fitting, SizesListed, Straight;
    match n
    case 0 => WriteKindCan(src, d0, j, gs, d, Root, root);
    case 1 => WriteKindCan(src, d0, j, gs, d, Verity, verity);
    case 2 => FlushKindCan(src, j, d, Root);
    case 3 => FlushKindCan(src, j, d, Verity);
    case 4 => RenameKindCan(src, j, d, Root);
    case 5 => RenameKindCan(src, j, d, Verity);
    case _ => InstallFileCan(src, d, FullName(j.source, j.m.kernel.name), j.Core()[6].dest);
  }

  lemma MigrateCan(src: Sources, d: Disk, c: Pipeline)
    requires c.EditLoaderConf? || c.RemoveFile? || c.BootctlSetDefault?
    ensures CanSucceed(src, d, c)
  {
    assert Done(src, d, c, d);
  }

  // ---------------------------------------------------------------- the whole plan

  lemma PreCan(src: Sources, d: Disk, j: Job, pre: seq<Pipeline>, gs: seq<SlotGroup>, ds: seq<Disk>)
    requires j.Valid() && Prepares(d, j, pre, gs) && d.vg == j.vg && Trace(src, pre, ds) && ds[0] == d && |ds| <= |pre|
    ensures CanSucceed(src, ds[|ds| - 1], pre[|ds| - 1])
  {
    hide DecodeStatus, SlotName, CanSucceed, Done;
    if r, v :| GrowsKnown(d, j, pre, gs, r, v) {
      GrowCan(src, d, j, pre, r, v, ds);
    } else {
      var r, v :| Creates(d, j, pre, r, v);
      CreatesCan(src, d, j, pre, r, v, ds);
    }
  }

  lemma PlanCan(src: Sources, d: Disk, j: Job, pre: seq<Pipeline>, gs: seq<SlotGroup>, tail: seq<Pipeline>,
                ds: seq<Disk>)
    requires j.Valid() && Straight(j) && Prepares(d, j, pre, gs) && Migrates(tail) && d.vg == j.vg
    requires !HasLv(d, Root, Used(j.m.ToVersion())) && !HasLv(d, Verity, Used(j.m.ToVersion()))
    requires Feasible(src, j.m, j.source) && SizesListed(gs)
    requires Trace(src, pre + (j.Core() + tail), ds) && ds[0] == d && |ds| <= |pre + (j.Core() + tail)|
    ensures CanSucceed(src, ds[|ds| - 1], (pre + (j.Core() + tail))[|ds| - 1])
  {
    hide DecodeStatus, SlotName, ParseUki, UkiName, CanSucceed, Done, Feasible, SizesListed, Straight, Prepares,
      Migrates;
    if |ds| - 1 < |pre| {
      PreTrace(src, pre, j.Core() + tail, ds);
      PreCan(src, d, j, pre, gs, ds);
    } else {
      RestCan(src, d, j, pre, gs, tail, ds);
    }
  }

  /** The part of a plan after the preparation. */
  lemma RestCan(src: Sources, d: Disk, j: Job, pre: seq<Pipeline>, gs: seq<SlotGroup>, tail: seq<Pipeline>,
                ds: seq<Disk>)
    requires j.Valid() && Straight(j) && Prepares(d, j, pre, gs) && Migrates(tail) && d.vg == j.vg
    requires !HasLv(d, Root, Used(j.m.ToVersion())) && !HasLv(d, Verity, Used(j.m.ToVersion()))
    requires Feasible(src, j.m, j.source) && SizesListed(gs)
    requires Trace(src, pre + (j.Core() + tail), ds) && ds[0] == d && |pre| < |ds| <= |pre + (j.Core() + tail)|
    ensures CanSucceed(src, ds[|ds| - 1], (pre + (j.Core() + tail))[|ds| - 1])
  {
    hide DecodeStatus, SlotName, ParseUki, UkiName, CanSucceed, Done, Feasible, SizesListed, Straight, Phase, Enough,
      Prepares, HasLv, Trace;
    var plan, i := pre + (j.Core() + tail), |ds| - 1;
    var root, verity := CorePart(src, d, j, pre, gs, tail, ds);
    var n := i - |pre|;
    assert plan[i] == (j.Core() + tail)[n] && ds[|pre|..][n] == ds[i];
    CoreTrace(src, j, j.Core() + tail, ds[|pre|..], root, verity, n);
    if n < 7 {
      CoreCan(src, d, j, gs, ds[i], n, root, verity);
    } else {
      assert plan[i] in tail;
      MigrateCan(src, ds[i], plan[i]);
    }
  }

  /** Neither volume of the version is there yet. */
  predicate NoVolumes(d: Disk, t: Version) {
    !HasLv(d, Root, Used(t)) && !HasLv(d, Verity, Used(t))
  }

  lemma NoVolumesSelects(d: Disk, rt: Runtime, m: Manifest)
    requires Scanned(d, rt.slotgroups) && WellFormed(m) && NoVolumes(d, m.ToVersion())
    ensures SelectUpdateSlot(rt, m) != Ok(AlreadyInstalled)
  {
    hide DecodeStatus, SlotName, ParseUki, UkiName;
    var t := m.ToVersion();
    forall g | g in rt.slotgroups && g.IsComplete()
      ensures g.GroupVersion() != Some(t)
    {
      assert Fits(d, g);
    }
  }

  /**
   * Progress. After any number of successful commands of an install of a version without volumes, the next
   * one can succeed, however the ones before it turned out: no name collides, every path leads to its
   * volume, and every image fits, given readable files no larger than declared, sizes listed for the
   * volumes, and no dash in the names of the selected slot.
   */
  lemma NextCanSucceed(src: Sources, d: Disk, kernel: Kernel, rt: Runtime, m: Manifest, source: string, ds: seq<Disk>)
    requires Sees(d, kernel, rt) && WellFormed(m) && NoVolumes(d, m.ToVersion()) && InstallPlan(rt, m, source).Ok?
    requires Feasible(src, m, source) && SizesListed(rt.slotgroups) && StraightSelection(d, rt)
    requires Trace(src, InstallPlan(rt, m, source).value, ds)
    requires ds[0] == d && |ds| <= |InstallPlan(rt, m, source).value|
    ensures CanSucceed(src, ds[|ds| - 1], InstallPlan(rt, m, source).value[|ds| - 1])
  {
    hide DecodeStatus, SlotName, ParseUki, UkiName, CanSucceed, Done, Feasible, SizesListed, InstallPlan, Straight,
      SelectUpdateSlot, StraightSelection;
    SeesFacts(d, kernel, rt);
    NoVolumesSelects(d, rt, m);
    var j, pre, tail := SelectedPlanShape(d, kernel, rt, m, source);
    StraightIff(d, rt, j);
    PlanCan(src, d, j, pre, rt.slotgroups, tail, ds);
  }

  /**
   * So every prefix can be continued to a full run, of which `InstallCorrect` says what it leaves. With a
   * dash in the names of the selected slot and no twin there is none (`DashedNeverCompletes`).
   */
  lemma {:induction false} InstallCanComplete(src: Sources, d: Disk, kernel: Kernel, rt: Runtime, m: Manifest,
                                              source: string, ds: seq<Disk>)
    returns (full: seq<Disk>)
    requires Sees(d, kernel, rt) && WellFormed(m) && NoVolumes(d, m.ToVersion()) && InstallPlan(rt, m, source).Ok?
    requires Feasible(src, m, source) && SizesListed(rt.slotgroups) && StraightSelection(d, rt)
    requires Trace(src, InstallPlan(rt, m, source).value, ds) && ds[0] == d
    ensures ds <= full && Trace(src, InstallPlan(rt, m, source).value, full)
    ensures |full| == |InstallPlan(rt, m, source).value| + 1
    decreases |InstallPlan(rt, m, source).value| + 1 - |ds|
  {
    hide Done, Feasible, SizesListed, StraightSelection, InstallPlan, NoVolumes, Sees;
    var plan := InstallPlan(rt, m, source).value;
    if |ds| == |plan| + 1 {
      full := ds;
    } else {
      NextCanSucceed(src, d, kernel, rt, m, source, ds);
      var d' :| Done(src, ds[|ds| - 1], plan[|ds| - 1], d');
      full := InstallCanComplete(src, d, kernel, rt, m, source, ds + [d']);
    }
  }
}
