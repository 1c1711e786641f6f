/** From any healthy machine to the next version: planned, installed, started. */
module Updating {
  import opened Wrappers
  import opened Text
  import opened Slots
  import opened Uki
  import opened Groups
  import opened Runtime
  import opened Plan
  import opened Disk
  import opened Inventory
  import opened Frame
  import opened Install
  import opened Commit
  import opened Dashes
  import opened Outcome
  import opened Progress
  import opened Backing
  import opened Runs

  lemma NewVolumeMade(spec: VolumeSpec, k: Kind, vg: string, id: string)
    requires spec.prefix == KindName(k) && '_' !in id
    ensures NewVolume(spec, vg, id).Ok? <==> spec.wanted.Some? || spec.fallback.Some?
  {
    hide DecodeStatus;
    PrintThenDecode(k, Empty(Known(id)));
    assert SlotName(k, Empty(Known(id))) == spec.prefix + "_empty_" + id;
  }

  /** The manifest or the volume of the active slot tells how large a new volume is to be. */
  predicate SizeGiven(file: File, slot: Option<Slot>) {
    file.unpackedSize.Some? || (slot.Some? && slot.value.volume.lvSizeBytes.Some?)
  }

  /** A new pair of empty volumes can be named and sized. */
  predicate RoomForNew(rt: Runtime, m: Manifest) {
    && FreeIdentifier(rt.slotgroups).Ok? && ActiveSlot(rt).Ok?
    && SizeGiven(m.store, ActiveSlot(rt).value.root) && SizeGiven(m.verity, ActiveSlot(rt).value.verity)
  }

  lemma NewSlotMade(rt: Runtime, m: Manifest)
    requires ActiveSlot(rt).Ok? && ActiveSlot(rt).value.IsComplete()
    ensures NewEmptySlot(rt, m).Ok? <==> RoomForNew(rt, m)
  {
    hide DecodeStatus, ActiveSlot, FreeIdentifier, PrintNat, NewVolume, LeastId, HasId;
    var n := FreshIdentifier(rt.slotgroups);
    DigitsPlain(n);
    var id, active := PrintNat(n), ActiveSlot(rt).value;
    var root, verity := active.root.value.volume, active.verity.value.volume;
    NewVolumeMade(VolumeSpec("root", m.store.unpackedSize, root.lvSizeBytes), Root, root.vgName, id);
    NewVolumeMade(VolumeSpec("verity", m.verity.unpackedSize, verity.lvSizeBytes), Verity, root.vgName, id);
  }

  /** A complete group of the version is there, in use. */
  ghost predicate InstalledIn(gs: seq<SlotGroup>, t: Version) {
    exists g :: g in gs && g.IsUsed() && g.IsComplete() && g.GroupVersion() == Some(t)
  }

  lemma SlotFound(d: Disk, rt: Runtime, m: Manifest)
    requires Scanned(d, rt.slotgroups) && WellFormed(m) && Up(d, rt)
    ensures SelectUpdateSlot(rt, m).Ok? <==>
            || InstalledIn(rt.slotgroups, m.ToVersion())
            || FirstEmpty(rt.slotgroups, rt.kernel).Some? || RoomForNew(rt, m)
  {
    hide DecodeStatus, SlotName, ParseUki, UkiName, ActiveSlot, NewEmptySlot, ResizeSteps, FreeIdentifier, RoomForNew;
    AttachCannotFail(d, rt, m, UkiEntry(m.ToVersion(), None));
    NewSlotMade(rt, m);
  }

  lemma StepsMade(rt: Runtime, slot: SlotGroup, j: Job)
    requires j.Valid() && SlotOf(slot, j.vg, j.st) && ActiveSlot(rt).Ok?
    requires var uki := UkiEntry(j.m.ToVersion(), None); slot.boot == Some(BootEntry(UkiName(uki), Managed(uki)))
    ensures InstallSteps(rt, j.m, slot, j.source).Ok?
  {
    hide ActiveSlot, SlotName, UkiName;
  }

  /**
   * On a machine that is up, there is a plan exactly if the version is installed, or an empty pair is found, or a
   * new one can be made: an identifier is free and the sizes are known from the manifest or the active slot.
   */
  lemma PlanIff(d: Disk, kernel: Kernel, rt: Runtime, m: Manifest, source: string)
    requires Sees(d, kernel, rt) && WellFormed(m) && Up(d, rt)
    ensures InstallPlan(rt, m, source).Ok? <==>
            || InstalledIn(rt.slotgroups, m.ToVersion())
            || FirstEmpty(rt.slotgroups, rt.kernel).Some? || RoomForNew(rt, m)
  {
    hide DecodeStatus, SlotName, ParseUki, UkiName, ActiveSlot, SelectUpdateSlot, InstallSteps, FirstEmpty, RoomForNew;
    SeesFacts(d, kernel, rt);
    SlotFound(d, rt, m);
    if SelectUpdateSlot(rt, m).Ok? && SelectUpdateSlot(rt, m).value.Selected? {
      var j := SelectShape(d, rt, m, source);
      StepsMade(rt, SelectUpdateSlot(rt, m).value.slot, j);
    }
  }

  /** An empty pair is there, or an identifier for a new one. */
  predicate SlotLeft(rt: Runtime) {
    FirstEmpty(rt.slotgroups, rt.kernel).Some? || FreeIdentifier(rt.slotgroups).Ok?
  }

  lemma PlanExists(src: Sources, d: Disk, kernel: Kernel, rt: Runtime, m: Manifest, source: string)
    requires Sees(d, kernel, rt) && WellFormed(m) && Up(d, rt) && SlotLeft(rt) && Feasible(src, m, source)
    ensures InstallPlan(rt, m, source).Ok?
  {
    hide InstallPlan, ActiveSlot, FirstEmpty, FreeIdentifier, Sees, SelectUpdateSlot;
    PlanIff(d, kernel, rt, m, source);
  }

  /** An orderly shutdown: everything pending reaches stable storage. */
  function Synced(d: Disk): Disk {
    d.(lvs := map n | n in d.lvs :: d.lvs[n].(flushed := true),
       esp := map id | id in d.esp :: d.esp[id].(synced := true))
  }

  lemma SyncedIsLoss(d: Disk)
    ensures PowerLoss(d, Synced(d))
  {
  }

  /** The kernel of a manifest, with its own hash if that is one. */
  lemma KernelFor(m: Manifest) returns (kernel: Kernel)
    requires |m.rootVerityHash| >= 16
    ensures KernelVersion(kernel) == Some(m.ToVersion())
    ensures |m.rootVerityHash| == 64 ==> kernel == KernelParams(Some(m.rootVerityHash), Some(m.version))
  {
    var h := if |m.rootVerityHash| == 64 then m.rootVerityHash else m.rootVerityHash[..16] + seq(48, _ => '0');
    assert h[..16] == m.rootVerityHash[..16];
    kernel := KernelParams(Some(h), Some(m.version));
  }

  /**
   * Updating works. On every healthy machine, for every fresh version whose files are as declared, there is
   * a run that installs it in full and starts it: two steps, after which the machine is healthy and runs it.
   * It takes that the paths of the slot to install to lead there, without which no install completes.
   */
  lemma CanUpdate(src: Sources, m: Machine, rt: Runtime, manifest: Manifest, source: string)
    returns (install: Event, middle: Machine, after: Machine)
    requires Healthy(m) && Sees(m.disk, m.kernel, rt) && SizesListed(rt.slotgroups)
    requires SlotLeft(rt) && StraightSelection(m.disk, rt)
    requires WellFormed(manifest) && Fresh(rt, manifest.ToVersion()) && Feasible(src, manifest, source)
    ensures install.Installs? && install == Installs(src, rt, manifest, source, install.ds)
    ensures InstallPlan(rt, manifest, source).Ok?
    ensures FullTrace(src, InstallPlan(rt, manifest, source).value, m.disk, install.ds)
    ensures middle == Machine(install.ds[|install.ds| - 1], m.kernel)
    ensures Run([m, middle, after], [install, PowerCycle])
    ensures Healthy(after) && KernelVersion(after.kernel) == Some(manifest.ToVersion())
    ensures var h := manifest.rootVerityHash;
            |h| == 64 ==> after.kernel == KernelParams(Some(h), Some(manifest.version))
  {
    hide DecodeStatus, SlotName, ParseUki, UkiName, SizesListed, Feasible, Scans, EntriesApart, Backed, Unaliased,
      StraightSelection, Done, InstallPlan, Fresh, Up, Installed, PowerLoss, Preserves, Scan, Listing, Trace, Sees,
      SlotLeft;
    var t := manifest.ToVersion();
    SeesUp(m, rt);
    PlanExists(src, m.disk, m.kernel, rt, manifest, source);
    var ds := FullInstall(src, m, rt, manifest, source);
    var d := ds[|ds| - 1];
    install := Installs(src, rt, manifest, source, ds);
    middle := Machine(d, m.kernel);
    var kernel := KernelFor(manifest);
    after := Machine(Synced(d), kernel);
    SyncedIsLoss(d);
    assert Cycled(d, Synced(d));
    SyncedUki(d, t);
    assert HasUki(Synced(d), UkiName(UkiEntry(t, None)), t);
    StepHealthy(m, install, middle);
    StepHealthy(middle, PowerCycle, after);
  }

  lemma SyncedUki(d: Disk, t: Version)
    requires Readable(UkiEntry(t, None)) && UkiName(UkiEntry(t, None)) in d.esp
    ensures HasUki(Synced(d), UkiName(UkiEntry(t, None)), t)
  {
    hide ParseUki, UkiName;
    PrintThenParse(UkiEntry(t, None));
  }

  lemma FullInstall(src: Sources, m: Machine, rt: Runtime, manifest: Manifest, source: string) returns (ds: seq<Disk>)
    requires Sees(m.disk, m.kernel, rt)
    requires StraightSelection(m.disk, rt) && SizesListed(rt.slotgroups)
    requires WellFormed(manifest) && Fresh(rt, manifest.ToVersion())
    requires Feasible(src, manifest, source) && InstallPlan(rt, manifest, source).Ok?
    ensures FullTrace(src, InstallPlan(rt, manifest, source).value, m.disk, ds)
    ensures StopsIn(src, InstallPlan(rt, manifest, source).value, ds, ds[|ds| - 1])
    ensures UkiName(UkiEntry(manifest.ToVersion(), None)) in ds[|ds| - 1].esp
  {
    hide DecodeStatus, SlotName, ParseUki, UkiName, SizesListed, Feasible, StraightSelection, SelectedTwin, Done,
      InstallPlan, Sees, VolumeInstalled, Settles, Enough;
    SeesFacts(m.disk, m.kernel, rt);
    if SelectedTwin(m.disk, rt) {
      TwinNotStraight(m.disk, rt);
    }
    FreshDisk(m.disk, rt.slotgroups, manifest.ToVersion());
    ds := InstallCanComplete(src, m.disk, m.kernel, rt, manifest, source, [m.disk]);
    var j := InstallCorrect(src, m.disk, m.kernel, rt, manifest, source, ds);
  }
}
