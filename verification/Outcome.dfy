/** What an install leaves behind: the commit point, the result, the second run, and where it falls short. */
module Outcome {
  import opened Wrappers
  import opened Slots
  import opened Uki
  import opened Groups
  import opened Runtime
  import opened Plan
  import opened Disk
  import opened Inventory
  import opened Frame
  import opened Install
  import opened CrashSafety
  import opened Commit
  import opened Dashes

  /**
   * The volume of the new version is there, flushed, and starts with the bytes read from its file. A
   * compressed file may have broken off: the exit status of a pipeline does not tell.
   */
  predicate VolumeInstalled(src: Sources, d: Disk, m: Manifest, source: string, k: Kind)
    requires |m.rootVerityHash| >= 16
  {
    var n, file := SlotName(k, Used(m.ToVersion())), ImageFile(m, k);
    var r := Read(src, FullName(source, file.name), IsCompressed(file.name));
    n in d.lvs && d.lvs[n].flushed && r.bytes <= d.lvs[n].data && (r.Whole? || IsCompressed(file.name))
  }

  lemma CommittedInstalled(src: Sources, d: Disk, j: Job, root: Route, verity: Route)
    requires j.Valid() && Committed(d, root, verity)
    requires root == RouteOf(src, j, Root, root.before) && verity == RouteOf(src, j, Verity, verity.before)
    ensures VolumeInstalled(src, d, j.m, j.source, Root) && VolumeInstalled(src, d, j.m, j.source, Verity)
  {
  }

  /** The part of a run after the preparation, with the volumes in place. */
  lemma CorePart(src: Sources, d: Disk, j: Job, pre: seq<Pipeline>, gs: seq<SlotGroup>, tail: seq<Pipeline>,
                 ds: seq<Disk>)
    returns (root: Route, verity: Route)
    requires j.Valid() && Prepares(d, j, pre, gs) && Migrates(tail) && j.vg == d.vg
    requires !HasLv(d, Root, Used(j.m.ToVersion())) && !HasLv(d, Verity, Used(j.m.ToVersion()))
    requires Trace(src, pre + (j.Core() + tail), ds) && ds[0] == d && |ds| > |pre|
    ensures root == RouteOf(src, j, Root, root.before) && verity == RouteOf(src, j, Verity, verity.before)
    ensures Enough(d, j, gs, Root, |root.before|) && Enough(d, j, gs, Verity, |verity.before|)
    ensures Phase(ds[|pre|], root, verity, 0) && ds[|pre|].vg == j.vg
    ensures Trace(src, j.Core() + tail, ds[|pre|..])
    ensures j.Core() <= j.Core() + tail && Migrates((j.Core() + tail)[7..])
  {
    SplitTrace(src, pre, j.Core() + tail, ds);
    root, verity := Prepared(src, d, j, pre, gs, ds[..|pre| + 1]);
    assert (j.Core() + tail)[7..] == tail;
  }

  lemma StopsLater(src: Sources, a: seq<Pipeline>, b: seq<Pipeline>, ds: seq<Disk>, x: Disk)
    requires StopsIn(src, a + b, ds, x) && |ds| > |a| && Trace(src, b, ds[|a|..])
    ensures StopsIn(src, b, ds[|a|..], x)
  {
    var back := ds[|a|..];
    assert back[|back| - 1] == ds[|ds| - 1];
    if |ds| <= |a + b| {
      assert (a + b)[|ds| - 1] == b[|back| - 1];
    }
  }

  /**
   * Commit ordering. Wherever an install stops, a kernel image of the new version is on the boot
   * partition only if both volumes are already written, flushed and renamed to it, and it stays so
   * through a power loss. It takes that the selected slot has no twin, without which `MisledInstall` breaks it.
   */
  lemma CommitOrdering(src: Sources, d: Disk, kernel: Kernel, rt: Runtime, m: Manifest, source: string,
                       ds: seq<Disk>, x: Disk, d': Disk, id: string)
    requires Sees(d, kernel, rt) && WellFormed(m) && Fresh(rt, m.ToVersion()) && InstallPlan(rt, m, source).Ok?
    requires StopsIn(src, InstallPlan(rt, m, source).value, ds, x) && ds[0] == d && (d' == x || PowerLoss(x, d'))
    requires !SelectedTwin(d, rt) && HasUki(d', id, m.ToVersion())
    ensures VolumeInstalled(src, d', m, source, Root) && VolumeInstalled(src, d', m, source, Verity)
  {
    var t := m.ToVersion();
    var j, pre, tail := PlanShape(d, kernel, rt, m, source);
    SeesFacts(d, kernel, rt);
    FreshDisk(d, rt.slotgroups, t);
    if !Straight(j) {
      DashedStops(src, d, rt, j, pre, tail, ds);
    }
    if |ds| - 1 < |pre| + 6 {
      UkiAbsent(src, d, j, pre, rt.slotgroups, tail, ds, x);
      FewerUkis(x, d', t);
    } else {
      var root, verity := CorePart(src, d, j, pre, rt.slotgroups, tail, ds);
      StopsLater(src, pre, j.Core() + tail, ds, x);
      CommittedAfter(src, j, j.Core() + tail, ds[|pre|..], x, root, verity);
      LossKeepsCommitted(x, d', root, verity);
      CommittedInstalled(src, d', j, root, verity);
    }
  }

  lemma UkiAbsent(src: Sources, d: Disk, j: Job, pre: seq<Pipeline>, gs: seq<SlotGroup>, tail: seq<Pipeline>,
                  ds: seq<Disk>, x: Disk)
    requires j.Valid() && Prepares(d, j, pre, gs)
    requires StopsIn(src, pre + (j.Core() + tail), ds, x) && |ds| - 1 < |pre| + 6
    requires ds[0] == d && NoUki(d, j.m.ToVersion())
    ensures NoUki(x, j.m.ToVersion())
  {
    hide DecodeStatus, SlotName, ParseUki, UkiName;
    var t, plan, n := j.m.ToVersion(), pre + (j.Core() + tail), |ds| - 1;
    forall i | 0 <= i < |pre| + 6
      ensures i < |plan| && !plan[i].InstallFile?
    {
      NoInstallBefore(d, j, pre, gs, tail, i);
    }
    EspTrace(src, plan, ds, n);
    if x != ds[n] {
      EspStep(src, ds[n], plan[n], x);
    }
    FewerUkis(d, x, t);
  }

  // ---------------------------------------------------------------- the result

  /** The one group of version `t` in a scan: complete, used, with the image the updater installs. */
  ghost predicate OneInstalled(gs: seq<SlotGroup>, t: Version, i: nat) {
    && i < |gs| && gs[i].IsComplete() && gs[i].IsUsed() && gs[i].GroupVersion() == Some(t)
    && gs[i].boot == Some(BootEntry(UkiName(UkiEntry(t, None)), Managed(UkiEntry(t, None))))
    && forall k | 0 <= k < |gs| && gs[k].GroupVersion() == Some(t) :: k == i
  }

  lemma InstalledGroup(d: Disk, gs: seq<SlotGroup>, t: Version) returns (i: nat)
    requires Scanned(d, gs) && HasLv(d, Root, Used(t)) && HasLv(d, Verity, Used(t)) && OwnUki(d, t)
    requires Readable(UkiEntry(t, None)) && UkiName(UkiEntry(t, None)) in d.esp
    ensures OneInstalled(gs, t, i)
  {
    var name := UkiName(UkiEntry(t, None));
    PrintThenParse(UkiEntry(t, None));
    assert HasUki(d, name, t);
    i := GroupOfStatus(d, gs, Root, Used(t));
    assert Fits(d, gs[i]);
    forall k | 0 <= k < |gs| && gs[k].GroupVersion() == Some(t)
      ensures k == i
    {
      assert Fits(d, gs[k]);
      assert KeyOf(gs[k]) == ByStatus(Used(t));
      SameKeySameIndex(d, gs, i, k);
    }
  }

  /** Every scan finds the one group of the version, and installing it again plans nothing. */
  ghost predicate Settles(d': Disk, kernel: Kernel, m: Manifest)
    requires WellFormed(m)
  {
    forall vols, items | Listing(d', vols, items) ::
      var s := Scan(vols, kernel, items);
      && s.Ok? && (exists i :: OneInstalled(s.value.slotgroups, m.ToVersion(), i))
      && forall source' :: InstallPlan(s.value, m, source') == Ok([])
  }

  /** After a full run: contents, sizes, and what every later scan and install see. */
  ghost predicate Installed(src: Sources, d: Disk, rt: Runtime, m: Manifest, source: string, j: Job, d': Disk)
    requires WellFormed(m) && j.Valid() && j.m == m
  {
    && VolumeInstalled(src, d', m, source, Root)
    && VolumeInstalled(src, d', m, source, Verity) && UkiInstalled(src, d', m, source)
    && Enough(d, j, rt.slotgroups, Root, |d'.lvs[j.To(Root)].data|)
    && Enough(d, j, rt.slotgroups, Verity, |d'.lvs[j.To(Verity)].data|)
    && Settles(d', rt.kernel, m)
  }

  /**
   * A full run of an install plan for a fresh version: both volumes hold what was read, in volumes never
   * shrunk and large enough where the sizes are known, the kernel image is whole, everything else is
   * unchanged, every new scan finds exactly one complete group of the version with its image, and
   * installing again plans nothing.
   */
  lemma InstallCorrect(src: Sources, d: Disk, kernel: Kernel, rt: Runtime, m: Manifest, source: string, ds: seq<Disk>)
    returns (j: Job)
    requires Sees(d, kernel, rt) && WellFormed(m) && Fresh(rt, m.ToVersion()) && InstallPlan(rt, m, source).Ok?
    requires var plan := InstallPlan(rt, m, source).value; Trace(src, plan, ds) && |ds| == |plan| + 1 && ds[0] == d
    requires !SelectedTwin(d, rt)
    ensures j.Valid() && j.m == m && j.source == source && j.vg == d.vg && SelectsFor(d, rt, m, j)
    ensures Installed(src, d, rt, m, source, j, ds[|ds| - 1]) && Preserves(d, ds[|ds| - 1], m.ToVersion())
  {
    var t, d' := m.ToVersion(), ds[|ds| - 1];
    var pre, tail;
    j, pre, tail := PlanShape(d, kernel, rt, m, source);
    SeesFacts(d, kernel, rt);
    FreshDisk(d, rt.slotgroups, t);
    if !Straight(j) {
      DashedStops(src, d, rt, j, pre, tail, ds);
    }
    InstallPlanSafe(d, kernel, rt, m, source);
    SafeTrace(src, InstallPlan(rt, m, source).value, ds, t);
    FullRun(src, d, j, pre, rt.slotgroups, tail, ds);
    FrameThenLoss(d, d', d', t);
    StillNoDouble(d, d', t);
    Rescan(d', rt.kernel, m);
  }

  /** A scan of a disk with a complete version and its image; installing it again plans nothing. */
  lemma Rescan(d': Disk, kernel: Kernel, m: Manifest)
    requires WellFormed(m) && !DoubleUki(d') && OwnUki(d', m.ToVersion())
    requires HasLv(d', Root, Used(m.ToVersion())) && HasLv(d', Verity, Used(m.ToVersion()))
    requires UkiName(UkiEntry(m.ToVersion(), None)) in d'.esp
    ensures Settles(d', kernel, m)
  {
    forall vols, items | Listing(d', vols, items)
      ensures var s := Scan(vols, kernel, items);
              && s.Ok? && (exists i :: OneInstalled(s.value.slotgroups, m.ToVersion(), i))
              && forall source' :: InstallPlan(s.value, m, source') == Ok([])
    {
      ScanExact(d', vols, kernel, items);
      var rt' := Scan(vols, kernel, items).value;
      var i := InstalledGroup(d', rt'.slotgroups, m.ToVersion());
      assert rt'.slotgroups[i] in rt'.slotgroups;
    }
  }

  lemma FullRun(src: Sources, d: Disk, j: Job, pre: seq<Pipeline>, gs: seq<SlotGroup>, tail: seq<Pipeline>,
                ds: seq<Disk>)
    requires j.Valid() && Prepares(d, j, pre, gs) && Migrates(tail) && j.vg == d.vg && Straight(j)
    requires !HasLv(d, Root, Used(j.m.ToVersion())) && !HasLv(d, Verity, Used(j.m.ToVersion()))
    requires var plan := pre + (j.Core() + tail); Trace(src, plan, ds) && |ds| == |plan| + 1 && ds[0] == d
    ensures var d', t := ds[|ds| - 1], j.m.ToVersion();
            && VolumeInstalled(src, d', j.m, j.source, Root) && VolumeInstalled(src, d', j.m, j.source, Verity)
            && UkiInstalled(src, d', j.m, j.source)
            && HasLv(d', Root, Used(t)) && HasLv(d', Verity, Used(t))
            && Enough(d, j, gs, Root, |d'.lvs[j.To(Root)].data|)
            && Enough(d, j, gs, Verity, |d'.lvs[j.To(Verity)].data|)
  {
    var root, verity := CorePart(src, d, j, pre, gs, tail, ds);
    var back := ds[|pre|..];
    CoreTrace(src, j, j.Core() + tail, back, root, verity, |back| - 1);
    CommittedInstalled(src, ds[|ds| - 1], j, root, verity);
  }
}
