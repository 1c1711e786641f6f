/** Compressed images that break off: when a volume holds the whole image, and that nothing tells if it does not. */
module Truncated {
  import opened Wrappers
  import opened Slots
  import opened Uki
  import opened Groups
  import opened Runtime
  import opened Plan
  import opened Disk
  import opened Frame
  import opened Install
  import opened Commit
  import opened Dashes
  import opened Outcome
  import opened Progress

  /** The volume starts with all of the image. */
  predicate HoldsImage(d: Disk, n: string, r: Reading) {
    n in d.lvs && r.Image() <= d.lvs[n].data
  }

  lemma OverwrittenHolds(before: seq<Byte>, r: Reading)
    requires |r.bytes| <= |before|
    ensures r.Image() <= Overwrite(before, r.bytes) <==> r.Unread() <= before[|r.bytes|..]
  {
    var data := Overwrite(before, r.bytes);
    assert data[|r.bytes|..] == before[|r.bytes|..];
    assert data == r.bytes + data[|r.bytes|..];
    if r.Image() <= data {
      assert r.Image()[|r.bytes|..] == r.Unread();
    }
  }

  lemma FullRunData(src: Sources, d: Disk, j: Job, pre: seq<Pipeline>, gs: seq<SlotGroup>, tail: seq<Pipeline>,
                    ds: seq<Disk>, k: Kind)
    requires j.Valid() && Prepares(d, j, pre, gs) && Migrates(tail)
    requires j.vg == d.vg && Straight(j) && NoVolumes(d, j.m.ToVersion())
    requires var plan := pre + (j.Core() + tail); Trace(src, plan, ds) && |ds| == |plan| + 1 && ds[0] == d
    ensures var r, d' := j.Image(src, k), ds[|ds| - 1];
            && j.From(k) in ds[|pre|].lvs && j.To(k) in d'.lvs && |r.bytes| <= |ds[|pre|].lvs[j.From(k)].data|
            && d'.lvs[j.To(k)] == Lv(Overwrite(ds[|pre|].lvs[j.From(k)].data, r.bytes), true)
  {
    hide DecodeStatus, SlotName, ParseUki, UkiName, Straight;
    var root, verity := CorePart(src, d, j, pre, gs, tail, ds);
    var back := ds[|pre|..];
    CoreTrace(src, j, j.Core() + tail, back, root, verity, |back| - 1);
    assert back[0] == ds[|pre|] && back[|back| - 1] == ds[|ds| - 1];
  }

  /**
   * After a full install the volume of each kind holds its whole image if and only if what was not read already
   * stood at that place in the volume, when the first `n` commands had prepared it and nothing was written yet.
   */
  lemma WholeImageIff(src: Sources, d: Disk, kernel: Kernel, rt: Runtime, m: Manifest, source: string, ds: seq<Disk>,
                      k: Kind)
    returns (j: Job, n: nat)
    requires Sees(d, kernel, rt) && WellFormed(m) && NoVolumes(d, m.ToVersion()) && InstallPlan(rt, m, source).Ok?
    requires !SelectedTwin(d, rt)
    requires var plan := InstallPlan(rt, m, source).value; Trace(src, plan, ds) && |ds| == |plan| + 1 && ds[0] == d
    ensures j.Valid() && j.m == m && j.source == source && SelectsFor(d, rt, m, j)
    ensures PreparedAt(InstallPlan(rt, m, source).value, n) && j.From(k) in ds[n].lvs
    ensures var r, before := j.Image(src, k), ds[n].lvs[j.From(k)].data;
            && |r.bytes| <= |before|
            && (HoldsImage(ds[|ds| - 1], j.To(k), r) <==> r.Unread() <= before[|r.bytes|..])
  {
    hide DecodeStatus, SlotName, ParseUki, UkiName, Straight, SelectedTwin, InstallPlan, SelectUpdateSlot, Done;
    SeesFacts(d, kernel, rt);
    NoVolumesSelects(d, rt, m);
    var pre, tail;
    j, pre, tail := SelectedPlanShape(d, kernel, rt, m, source);
    if !Straight(j) {
      DashedStops(src, d, rt, j, pre, tail, ds);
    }
    n := |pre|;
    PreparedThere(d, j, pre, rt.slotgroups, tail);
    FullRunData(src, d, j, pre, rt.slotgroups, tail, ds, k);
    OverwrittenHolds(ds[n].lvs[j.From(k)].data, j.Image(src, k));
  }

  // ---------------------------------------------------------------- nothing tells

  /** The same files, but `path` breaks off where it ended, with `rest` to come. */
  function BreakingOff(src: Sources, path: string, rest: seq<Byte>): Sources {
    src.(unpacked := src.unpacked[path := Broken(Read(src, path, true).bytes, rest)])
  }

  lemma SameStep(src: Sources, path: string, rest: seq<Byte>, d: Disk, c: Pipeline, d': Disk)
    requires Done(src, d, c, d')
    ensures Done(BreakingOff(src, path, rest), d, c, d')
  {
  }

  /** No command behaves differently, so no exit status and no disk differs. */
  lemma SameTrace(src: Sources, path: string, rest: seq<Byte>, plan: seq<Pipeline>, ds: seq<Disk>)
    requires Trace(src, plan, ds)
    ensures Trace(BreakingOff(src, path, rest), plan, ds)
  {
    hide Done, BreakingOff;
    forall i | 0 <= i < |ds| - 1
      ensures Done(BreakingOff(src, path, rest), ds[i], plan[i], ds[i + 1])
    {
      SameStep(src, path, rest, ds[i], plan[i], ds[i + 1]);
    }
  }

  lemma MissingByte(data: seq<Byte>, bytes: seq<Byte>) returns (x: Byte)
    ensures !(bytes + [x] <= data)
  {
    x := if |bytes| < |data| && data[|bytes|] == 0 then 1 else 0;
    assert (bytes + [x])[|bytes|] == x;
  }

  /**
   * Breaking off goes unnoticed. Every full install of a version with a compressed image, of either kind, is
   * also one in which that image broke off with more to come: the same commands succeed with the same disks, the
   * kernel image is installed, and the volume does not hold the image.
   */
  lemma BreakOffUnnoticed(src: Sources, d: Disk, kernel: Kernel, rt: Runtime, m: Manifest, source: string,
                          ds: seq<Disk>, k: Kind)
    returns (src': Sources)
    requires Sees(d, kernel, rt) && WellFormed(m) && Fresh(rt, m.ToVersion())
    requires InstallPlan(rt, m, source).Ok? && !SelectedTwin(d, rt)
    requires var plan := InstallPlan(rt, m, source).value; Trace(src, plan, ds) && |ds| == |plan| + 1 && ds[0] == d
    requires IsCompressed(ImageFile(m, k).name)
    ensures Trace(src', InstallPlan(rt, m, source).value, ds)
    ensures var d', path := ds[|ds| - 1], FullName(source, ImageFile(m, k).name);
            var r := Read(src', path, true);
            && r.Broken? && |r.rest| == 1 && src' == BreakingOff(src, path, r.rest)
            && r.bytes == Read(src, path, true).bytes
            && VolumeInstalled(src', d', m, source, k) && UkiInstalled(src', d', m, source)
            && !HoldsImage(d', SlotName(k, Used(m.ToVersion())), r)
  {
    hide DecodeStatus, SlotName, ParseUki, UkiName, SelectedTwin, InstallPlan, Done, Fresh, Settles, Enough, Preserves,
      IsCompressed, FullName, ImageFile;
    var path, d' := FullName(source, ImageFile(m, k).name), ds[|ds| - 1];
    var j := InstallCorrect(src, d, kernel, rt, m, source, ds);
    assert VolumeInstalled(src, d', m, source, k);
    var x := MissingByte(d'.lvs[SlotName(k, Used(m.ToVersion()))].data, Read(src, path, true).bytes);
    src' := BreakingOff(src, path, [x]);
    SameTrace(src, path, [x], InstallPlan(rt, m, source).value, ds);
  }

  /**
   * And there are such installs: wherever an install of the version can complete, one with its image broken
   * off can.
   */
  lemma TruncatedInstall(src: Sources, d: Disk, kernel: Kernel, rt: Runtime, m: Manifest, source: string, k: Kind)
    returns (src': Sources, ds: seq<Disk>)
    requires Sees(d, kernel, rt) && WellFormed(m) && Fresh(rt, m.ToVersion()) && InstallPlan(rt, m, source).Ok?
    requires Feasible(src, m, source) && SizesListed(rt.slotgroups)
    requires StraightSelection(d, rt) && IsCompressed(ImageFile(m, k).name)
    ensures var plan := InstallPlan(rt, m, source).value; Trace(src', plan, ds) && |ds| == |plan| + 1 && ds[0] == d
    ensures var d', path := ds[|ds| - 1], FullName(source, ImageFile(m, k).name);
            var r := Read(src', path, true);
            && r.Broken? && r.rest != [] && src' == BreakingOff(src, path, r.rest) && UkiInstalled(src', d', m, source)
            && !HoldsImage(d', SlotName(k, Used(m.ToVersion())), r)
  {
    hide DecodeStatus, SlotName, ParseUki, UkiName, SelectedTwin, InstallPlan, Done, Feasible, SizesListed,
      StraightSelection, IsCompressed, FullName, UkiInstalled, HoldsImage, ImageFile;
    SeesFacts(d, kernel, rt);
    FreshDisk(d, rt.slotgroups, m.ToVersion());
    if SelectedTwin(d, rt) {
      TwinNotStraight(d, rt);
    }
    ds := InstallCanComplete(src, d, kernel, rt, m, source, [d]);
    src' := BreakOffUnnoticed(src, d, kernel, rt, m, source, ds, k);
  }
}
