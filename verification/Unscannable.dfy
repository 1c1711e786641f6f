/** An image under another name than the updater gives: an install that ends every scan. */
module Unscannable {
  import opened Wrappers
  import opened Slots
  import opened Uki
  import opened Groups
  import opened Runtime
  import opened Plan
  import opened Disk
  import opened Inventory
  import opened Frame
  import opened Install
  import opened Dashes
  import opened Progress
  import opened Retry
  import opened Backing
  import opened Runs
  import opened Updating

  /** No scan of the disk succeeds any more. */
  ghost predicate NoScan(d: Disk, kernel: Kernel) {
    forall vols, items | Listing(d, vols, items) :: Scan(vols, kernel, items).Err?
  }

  /**
   * Wherever a version without volumes has an image under another name, its install can complete, and no
   * scan succeeds after.
   */
  lemma InstallEndsScans(src: Sources, d: Disk, kernel: Kernel, rt: Runtime, m: Manifest, source: string)
    returns (ds: seq<Disk>)
    requires Sees(d, kernel, rt) && WellFormed(m) && NoVolumes(d, m.ToVersion()) && InstallPlan(rt, m, source).Ok?
    requires Feasible(src, m, source) && SizesListed(rt.slotgroups) && StraightSelection(d, rt)
    requires !OwnUki(d, m.ToVersion())
    ensures var plan := InstallPlan(rt, m, source).value; Trace(src, plan, ds) && |ds| == |plan| + 1 && ds[0] == d
    ensures NoScan(ds[|ds| - 1], kernel)
  {
    hide InstallPlan, SelectUpdateSlot, Feasible, SizesListed, StraightSelection, OwnUki, Scan, Done, Listing;
    SeesFacts(d, kernel, rt);
    NoVolumesSelects(d, rt, m);
    ds := InstallCanComplete(src, d, kernel, rt, m, source, [d]);
    forall vols, items | Listing(ds[|ds| - 1], vols, items)
      ensures Scan(vols, kernel, items).Err?
    {
      RescanIff(src, d, kernel, rt, m, source, ds, vols, items);
    }
  }

  /** A disk with the booted version `v`, and an image of version `t` with a boot counter but without volumes. */
  function Counted(vg: string, id: string, v: Version, t: Version, c: BootCounter): Disk {
    Disk(vg, map[SlotName(Root, Used(v)) := Lv([], true), SlotName(Verity, Used(v)) := Lv([], true)],
         map[id := BootFile([], true), UkiName(UkiEntry(t, Some(c))) := BootFile([], true)], {})
  }

  lemma CountedFacts(vg: string, id: string, v: Version, t: Version, c: BootCounter)
    requires Printable(Used(v)) && IsUki(id, v) && t != v && Readable(UkiEntry(t, None)) && '-' !in vg
    ensures var d := Counted(vg, id, v, t, c);
            && FlushedLv(d, Root, v) && FlushedLv(d, Verity, v) && AllFlushed(d)
            && !DoubleUki(d) && NoVolumes(d, t) && !OwnUki(d, t)
            && (forall n | n in d.lvs :: !EmptyName(n))
  {
    hide DecodeStatus, SlotName, ParseUki, UkiName;
    var d, counted := Counted(vg, id, v, t, c), UkiEntry(t, Some(c));
    PrintThenDecode(Root, Used(v));
    PrintThenDecode(Verity, Used(v));
    PrintThenDecode(Root, Used(t));
    PrintThenDecode(Verity, Used(t));
    PrintThenParse(counted);
    PrintThenParse(UkiEntry(t, None));
    assert HasUki(d, UkiName(counted), t);
  }

  lemma NoEmptySelection(d: Disk, rt: Runtime)
    requires Scanned(d, rt.slotgroups) && '-' !in d.vg && forall n | n in d.lvs :: !EmptyName(n)
    ensures StraightSelection(d, rt) && SizesListed(rt.slotgroups)
  {
    hide DecodeStatus, SlotName, ParseUki;
    forall g | g in rt.slotgroups
      ensures !Usable(g, rt.kernel)
      ensures g.root.Some? ==> !EmptyName(g.root.value.volume.lvName)
      ensures g.verity.Some? ==> !EmptyName(g.verity.value.volume.lvName)
    {
      assert Fits(d, g);
    }
  }

  /**
   * So it does happen: on a machine that is up, an image of the version with a boot counter and no volumes,
   * and an install of that version that succeeds. After it no command can scan the disk.
   */
  lemma CountedImageEndsScans(src: Sources, kernel: Kernel, vg: string, id: string, m: Manifest, source: string,
                              c: BootCounter)
    returns (d: Disk, rt: Runtime, ds: seq<Disk>)
    requires KernelVersion(kernel).Some? && Printable(Used(KernelVersion(kernel).value))
    requires IsUki(id, KernelVersion(kernel).value)
    requires WellFormed(m) && m.ToVersion() != KernelVersion(kernel).value && Feasible(src, m, source) && '-' !in vg
    ensures Sees(d, kernel, rt) && Up(d, rt) && HasUki(d, UkiName(UkiEntry(m.ToVersion(), Some(c))), m.ToVersion())
    ensures InstallPlan(rt, m, source).Ok?
    ensures var plan := InstallPlan(rt, m, source).value; Trace(src, plan, ds) && |ds| == |plan| + 1 && ds[0] == d
    ensures NoScan(ds[|ds| - 1], kernel)
  {
    hide DecodeStatus, SlotName, ParseUki, UkiName, Counted, InstallPlan, Feasible, Scan, Up, Listing, FlushedLv,
      AllFlushed, DoubleUki, OwnUki, StraightSelection, SizesListed, NoScan, Scans, HasUki, NoVolumes;
    var v, t := KernelVersion(kernel).value, m.ToVersion();
    d := Counted(vg, id, v, t, c);
    CountedFacts(vg, id, v, t, c);
    CountedImage(vg, id, v, t, c);
    StartedScans(Machine(d, kernel), v);
    var vols, items := Listable(d);
    rt := ScanAt(Machine(d, kernel), vols, items);
    SeesFacts(d, kernel, rt);
    NoEmptySelection(d, rt);
    FewGroups(d, rt.slotgroups, vg, id, v, t, c);
    var n := FreshIdentifier(rt.slotgroups);
    PlanExists(src, d, kernel, rt, m, source);
    ds := InstallEndsScans(src, d, kernel, rt, m, source);
  }

  lemma CountedImage(vg: string, id: string, v: Version, t: Version, c: BootCounter)
    requires Readable(UkiEntry(t, None))
    ensures HasUki(Counted(vg, id, v, t, c), UkiName(UkiEntry(t, Some(c))), t) && Counted(vg, id, v, t, c).vg == vg
  {
    hide ParseUki, UkiName, SlotName;
    PrintThenParse(UkiEntry(t, Some(c)));
  }

  lemma ScanAt(m: Machine, vols: seq<Volume>, items: seq<BootctlItem>) returns (rt: Runtime)
    requires Scans(m) && Listing(m.disk, vols, items)
    ensures Scan(vols, m.kernel, items) == Ok(rt) && Sees(m.disk, m.kernel, rt) && Up(m.disk, rt)
  {
    hide Scan, Up, Listing;
    rt := Scan(vols, m.kernel, items).value;
  }

  /** Two groups at most: that of the booted version and that of the image. */
  lemma FewGroups(d: Disk, gs: seq<SlotGroup>, vg: string, id: string, v: Version, t: Version, c: BootCounter)
    requires d == Counted(vg, id, v, t, c) && Scanned(d, gs)
    requires Printable(Used(v)) && IsUki(id, v) && Readable(UkiEntry(t, None))
    ensures |gs| < ID_SPACE
  {
    hide ParseUki, UkiName, SlotName, DecodeStatus;
    PrintThenDecode(Root, Used(v));
    PrintThenDecode(Verity, Used(v));
    var keys := {ByStatus(Used(v)), ByEntry(id), ByEntry(UkiName(UkiEntry(t, Some(c))))};
    forall i | 0 <= i < |gs|
      ensures KeyOf(gs[i]) in keys
    {
      assert Fits(d, gs[i]);
      if gs[i].root.Some? {
        DecodeThenPrint(gs[i].root.value.volume.lvName);
      } else if gs[i].verity.Some? {
        DecodeThenPrint(gs[i].verity.value.volume.lvName);
      }
    }
    DistinctKeys(gs, |gs|, keys);
  }

  lemma {:induction false} DistinctKeys(gs: seq<SlotGroup>, n: nat, keys: set<Key>)
    requires n <= |gs| && forall i | 0 <= i < n :: (HasVolume(gs[i]) || gs[i].boot.Some?) && KeyOf(gs[i]) in keys
    requires forall i, j | 0 <= i < j < n :: KeyOf(gs[i]) != KeyOf(gs[j])
    ensures n <= |keys|
  {
    if n > 0 {
      DistinctKeys(gs, n - 1, keys - {KeyOf(gs[n - 1])});
    }
  }
}
