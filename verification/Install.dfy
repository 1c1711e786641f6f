/** What an install plan consists of, on the disk it was made for. */
module Install {
  import opened Wrappers
  import opened Text
  import opened Slots
  import opened Uki
  import opened Groups
  import opened Runtime
  import opened Plan
  import opened Disk
  import opened Inventory
  import opened Frame

  /** `rt` is what the updater may see of `d`. */
  ghost predicate Sees(d: Disk, kernel: Kernel, rt: Runtime) {
    exists vols, items :: Listing(d, vols, items) && Scan(vols, kernel, items) == Ok(rt)
  }

  lemma SeesFacts(d: Disk, kernel: Kernel, rt: Runtime)
    requires Sees(d, kernel, rt)
    ensures Scanned(d, rt.slotgroups) && !DoubleUki(d) && rt.kernel == kernel && rt.boot == "/boot"
    ensures forall e | e in rt.bootEntries && e.kind.LegacyEntry? :: e.id in d.type1
  {
    var vols, items :| Listing(d, vols, items) && Scan(vols, kernel, items) == Ok(rt);
    ScanExact(d, vols, kernel, items);
    forall e | e in rt.bootEntries && e.kind.LegacyEntry?
      ensures e.id in d.type1
    {
      UnmanagedExact(items, e);
      var x := BootctlItem("type1", e.id);
      assert x in items;
    }
  }

  predicate WellFormed(m: Manifest) {
    |m.rootVerityHash| >= 16 && Printable(Used(m.ToVersion())) && Readable(UkiEntry(m.ToVersion(), None))
  }

  /** No group carries the version. */
  ghost predicate FreshIn(gs: seq<SlotGroup>, t: Version) {
    forall g | g in gs :: g.GroupVersion() != Some(t)
  }

  ghost predicate Fresh(rt: Runtime, t: Version) {
    FreshIn(rt.slotgroups, t)
  }

  lemma GroupOfStatus(d: Disk, gs: seq<SlotGroup>, k: Kind, st: Status) returns (i: nat)
    requires Scanned(d, gs) && HasLv(d, k, st)
    ensures i < |gs| && HasVolume(gs[i]) && StatusOf(gs[i]) == st
    ensures gs[i].GroupVersion() == (if st.Used? then Some(st.version) else None)
    ensures gs[i].EmptyIdText() == (if st.Empty? && st.emptyId.Known? then Some(st.emptyId.id) else None)
  {
    i :| 0 <= i < |gs| && KeyOf(gs[i]) == ByStatus(st);
    assert Fits(d, gs[i]);
  }

  lemma GroupOfUki(d: Disk, gs: seq<SlotGroup>, id: string, v: Version) returns (i: nat)
    requires Scanned(d, gs) && HasUki(d, id, v)
    ensures i < |gs| && gs[i].boot.Some? && gs[i].boot.value.id == id && gs[i].GroupVersion() == Some(v)
  {
    i :| 0 <= i < |gs| && gs[i].boot.Some? && gs[i].boot.value.id == id;
    assert Fits(d, gs[i]);
  }

  lemma FreshDisk(d: Disk, gs: seq<SlotGroup>, t: Version)
    requires Scanned(d, gs) && FreshIn(gs, t)
    ensures forall k :: !HasLv(d, k, Used(t))
    ensures forall id :: !HasUki(d, id, t)
  {
    forall k | HasLv(d, k, Used(t))
      ensures false
    {
      var i := GroupOfStatus(d, gs, k, Used(t));
    }
    forall id | HasUki(d, id, t)
      ensures false
    {
      var i := GroupOfUki(d, gs, id, t);
    }
  }

  // ---------------------------------------------------------------- the shape of a plan

  /** The image of a volume of kind `k`. */
  function ImageFile(m: Manifest, k: Kind): File {
    match k case Root => m.store case Verity => m.verity
  }

  /** An install: the empty status it writes to and what it is to write. */
  datatype Job = Job(vg: string, st: Status, m: Manifest, source: string) {
    function From(k: Kind): string {
      SlotName(k, st)
    }

    function To(k: Kind): string
      requires |m.rootVerityHash| >= 16
    {
      SlotName(k, Used(m.ToVersion()))
    }

    function FileOf(k: Kind): File {
      ImageFile(m, k)
    }

    function Image(src: Sources, k: Kind): Reading {
      Read(src, FullName(source, FileOf(k).name), IsCompressed(FileOf(k).name))
    }

    predicate Valid() {
      WellFormed(m) && st.Empty? && Printable(st)
    }

    function Write(k: Kind): Pipeline {
      WriteImage(FullName(source, FileOf(k).name), IsCompressed(FileOf(k).name), DeviceFile(vg, From(k)))
    }

    /** The seven steps every install has. */
    function Core(): seq<Pipeline>
      requires |m.rootVerityHash| >= 16
    {
      [Write(Root), Write(Verity),
       FlushBufs(DeviceFile(vg, From(Root))), FlushBufs(DeviceFile(vg, From(Verity))),
       Lvrename(vg, From(Root), To(Root)), Lvrename(vg, From(Verity), To(Verity)),
       InstallFile(FullName(source, m.kernel.name), UkiPath("/boot", UkiName(UkiEntry(m.ToVersion(), None))))]
    }
  }

  /** The volumes exist, and those known to be too small are grown. */
  predicate Grows(d: Disk, j: Job, pre: seq<Pipeline>, root: Slot, verity: Slot) {
    && SlotOn(d, root) && SlotOn(d, verity) && root.kind == Root && verity.kind == Verity
    && root.status == j.st && verity.status == j.st
    && pre == ResizeStep(Some(root), j.m.store.unpackedSize) + ResizeStep(Some(verity), j.m.verity.unpackedSize)
  }

  /** Neither volume exists, and both are created. */
  predicate Creates(d: Disk, j: Job, pre: seq<Pipeline>, rootSize: nat, veritySize: nat) {
    && pre == [Lvcreate(j.vg, j.From(Root), rootSize), Lvcreate(j.vg, j.From(Verity), veritySize)]
    && !HasLv(d, Root, j.st) && !HasLv(d, Verity, j.st)
    && j.st.Empty? && j.st.emptyId.Known? && '-' !in j.st.emptyId.id && '/' !in j.st.emptyId.id
    && (j.m.store.unpackedSize.Some? ==> rootSize == j.m.store.unpackedSize.value)
    && (j.m.verity.unpackedSize.Some? ==> veritySize == j.m.verity.unpackedSize.value)
  }

  /** The size of the volume was reported, if the volume is in a group at all. */
  ghost predicate SizeKnown(gs: seq<SlotGroup>, n: string) {
    forall g | g in gs ::
      && (g.root.Some? && g.root.value.volume.lvName == n ==> g.root.value.volume.lvSizeBytes.Some?)
      && (g.verity.Some? && g.verity.value.volume.lvName == n ==> g.verity.value.volume.lvSizeBytes.Some?)
  }

  ghost predicate GrowsKnown(d: Disk, j: Job, pre: seq<Pipeline>, gs: seq<SlotGroup>, root: Slot, verity: Slot) {
    && Grows(d, j, pre, root, verity)
    && (SizeKnown(gs, j.From(Root)) ==> root.volume.lvSizeBytes.Some?)
    && (SizeKnown(gs, j.From(Verity)) ==> verity.volume.lvSizeBytes.Some?)
  }

  ghost predicate Prepares(d: Disk, j: Job, pre: seq<Pipeline>, gs: seq<SlotGroup>) {
    (exists root, verity :: GrowsKnown(d, j, pre, gs, root, verity)) || (exists r, v :: Creates(d, j, pre, r, v))
  }

  /** The first `n` commands prepare the slot, and then the first image is written. */
  predicate PreparedAt(plan: seq<Pipeline>, n: nat) {
    n < |plan| && plan[n].WriteImage? && forall i | 0 <= i < n :: plan[i].Lvresize? || plan[i].Lvcreate?
  }

  lemma PreparedThere(d: Disk, j: Job, pre: seq<Pipeline>, gs: seq<SlotGroup>, tail: seq<Pipeline>)
    requires |j.m.rootVerityHash| >= 16 && Prepares(d, j, pre, gs)
    ensures PreparedAt(pre + (j.Core() + tail), |pre|)
  {
    hide DecodeStatus, SlotName, UkiName, Prepares;
    var plan := pre + (j.Core() + tail);
    assert plan[|pre|] == j.Write(Root);
    forall i | 0 <= i < |pre|
      ensures plan[i].Lvresize? || plan[i].Lvcreate?
    {
      PreparingCommand(d, j, pre, gs, i);
    }
  }

  lemma PreparingCommand(d: Disk, j: Job, pre: seq<Pipeline>, gs: seq<SlotGroup>, i: nat)
    requires Prepares(d, j, pre, gs) && i < |pre|
    ensures pre[i].Lvresize? || pre[i].Lvcreate?
  {
    hide DecodeStatus, SlotName;
  }

  ghost predicate Migrates(tail: seq<Pipeline>) {
    forall c | c in tail :: c.EditLoaderConf? || c.RemoveFile? || c.BootctlSetDefault?
  }

  /** The group consists of the root and verity volumes of status `st`. */
  predicate SlotOf(slot: SlotGroup, vg: string, st: Status) {
    && slot.root.Some? && slot.verity.Some?
    && slot.root.value == Slot(Root, st, slot.root.value.volume)
    && slot.verity.value == Slot(Verity, st, slot.verity.value.volume)
    && slot.root.value.volume.lvName == SlotName(Root, st) && slot.root.value.volume.vgName == vg
    && slot.verity.value.volume.lvName == SlotName(Verity, st) && slot.verity.value.volume.vgName == vg
  }

  lemma NewVolumeShape(spec: VolumeSpec, k: Kind, vg: string, id: string)
    requires spec.prefix == KindName(k) && '_' !in id && NewVolume(spec, vg, id).Ok?
    ensures var st := Empty(Known(id)); var (s, c) := NewVolume(spec, vg, id).value;
            && Printable(st) && c.Lvcreate?
            && s == Slot(k, st, Volume(SlotName(k, st), vg, Some(c.size))) && c == Lvcreate(vg, SlotName(k, st), c.size)
            && (spec.wanted.Some? ==> c.size == spec.wanted.value)
  {
    PrintThenDecode(k, Empty(Known(id)));
  }

  lemma ActiveVg(d: Disk, rt: Runtime)
    requires Scanned(d, rt.slotgroups) && ActiveSlot(rt).Ok? && ActiveSlot(rt).value.root.Some?
    ensures ActiveSlot(rt).value.root.value.volume.vgName == d.vg
  {
    var i := ActiveIndex(rt);
    assert Fits(d, rt.slotgroups[i]);
  }

  lemma EmptyNameNoDash(k: Kind, id: string)
    ensures '-' in SlotName(k, Empty(Known(id))) <==> '-' in id
  {
    var p := KindName(k) + "_empty_";
    assert SlotName(k, Empty(Known(id))) == p + id;
    assert '-' !in p;
  }

  lemma DigitsPlain(n: nat)
    ensures '_' !in PrintNat(n) && '-' !in PrintNat(n) && '/' !in PrintNat(n)
  {
    assert AllDigits(PrintNat(n));
  }

  lemma NewSlotShape(d: Disk, rt: Runtime, m: Manifest, source: string) returns (j: Job)
    requires Scanned(d, rt.slotgroups) && NewEmptySlot(rt, m).Ok?
    ensures j.m == m && j.source == source && j.vg == d.vg && Printable(j.st) && j.st.Empty?
    ensures j.st.emptyId.Known? && '-' !in j.st.emptyId.id && NewEmptySlot(rt, m).value.0.boot.None?
    ensures SlotOf(NewEmptySlot(rt, m).value.0, d.vg, j.st)
    ensures Prepares(d, j, NewEmptySlot(rt, m).value.1, rt.slotgroups)
  {
    hide DecodeStatus, SlotName, ParseUki, UkiName, LeastId, HasId, PrintNat, FreeIdentifier;
    var n := FreshIdentifier(rt.slotgroups);
    var id := PrintNat(n);
    DigitsPlain(n);
    j := Job(d.vg, Empty(Known(id)), m, source);
    FreeIdAbsent(d, rt.slotgroups, id);
    ActiveVg(d, rt);
    NewSlotParts(d, rt, j, id);
  }

  lemma NewSlotParts(d: Disk, rt: Runtime, j: Job, id: string)
    requires NewEmptySlot(rt, j.m).Ok? && FreeIdentifier(rt.slotgroups) == Ok(id)
    requires '_' !in id && '-' !in id && '/' !in id
    requires j.st == Empty(Known(id)) && j.vg == d.vg && ActiveSlot(rt).value.root.value.volume.vgName == d.vg
    requires forall k :: !HasLv(d, k, j.st)
    ensures Printable(j.st) && NewEmptySlot(rt, j.m).value.0.boot.None?
    ensures SlotOf(NewEmptySlot(rt, j.m).value.0, d.vg, j.st)
    ensures Prepares(d, j, NewEmptySlot(rt, j.m).value.1, rt.slotgroups)
  {
    var m, active := j.m, ActiveSlot(rt).value;
    var root, verity := active.root.value.volume, active.verity.value.volume;
    var rs := VolumeSpec("root", m.store.unpackedSize, root.lvSizeBytes);
    var vs := VolumeSpec("verity", m.verity.unpackedSize, verity.lvSizeBytes);
    assert NewVolume(rs, d.vg, id).Ok? && NewVolume(vs, d.vg, id).Ok?;
    NewVolumeShape(rs, Root, d.vg, id);
    NewVolumeShape(vs, Verity, d.vg, id);
    var r, v := NewVolume(rs, d.vg, id).value.1, NewVolume(vs, d.vg, id).value.1;
    assert Creates(d, j, NewEmptySlot(rt, m).value.1, r.size, v.size);
  }

  /** A fresh identifier names no volume of the disk, managed or not: any such name would parse to its group. */
  lemma FreeIdAbsent(d: Disk, gs: seq<SlotGroup>, id: string)
    requires Scanned(d, gs) && forall g | g in gs :: g.EmptyIdText() != Some(id)
    ensures forall k :: !HasLv(d, k, Empty(Known(id)))
  {
    forall k | HasLv(d, k, Empty(Known(id)))
      ensures false
    {
      var i := GroupOfStatus(d, gs, k, Empty(Known(id)));
    }
  }

  lemma FoundSlotShape(d: Disk, gs: seq<SlotGroup>, g: SlotGroup, m: Manifest, source: string) returns (j: Job)
    requires g in gs && Fits(d, g) && g.IsEmpty() && g.IsComplete()
    ensures j.m == m && j.source == source && j.vg == d.vg && Printable(j.st) && j.st.Empty?
    ensures SlotOf(g, d.vg, j.st) && Prepares(d, j, ResizeSteps(g, m), gs) && g.boot.None?
  {
    hide DecodeStatus, SlotName;
    DecodeThenPrint(g.root.value.volume.lvName);
    DecodeThenPrint(g.verity.value.volume.lvName);
    j := Job(d.vg, StatusOf(g), m, source);
    var root, verity := g.root.value, g.verity.value;
    assert GrowsKnown(d, j, ResizeSteps(g, m), gs, root, verity);
  }

  /** An empty group never carries an image. */
  lemma EmptyHasNoImage(d: Disk, g: SlotGroup)
    requires Fits(d, g) && g.IsEmpty()
    ensures g.boot.None?
  {
  }

  /**
   * So attaching the new image cannot fail, neither to a slot that was found nor to one that was made, and a
   * selection fails only where no slot is found and none can be made.
   */
  lemma AttachCannotFail(d: Disk, rt: Runtime, m: Manifest, uki: UkiEntry)
    requires Scanned(d, rt.slotgroups) && |m.rootVerityHash| >= 16
    ensures forall g | g in rt.slotgroups && g.IsEmpty() :: g.AttachUki(uki).Ok?
    ensures NewEmptySlot(rt, m).Ok? ==> NewEmptySlot(rt, m).value.0.AttachUki(uki).Ok?
    ensures FirstEmpty(rt.slotgroups, rt.kernel).Some? ==> SelectUpdateSlot(rt, m).Ok?
    ensures SelectUpdateSlot(rt, m).Err? <==>
            && (forall g | g in rt.slotgroups && g.IsUsed() && g.IsComplete() ::
                  g.GroupVersion() != Some(m.ToVersion()))
            && FirstEmpty(rt.slotgroups, rt.kernel).None? && NewEmptySlot(rt, m).Err?
  {
    hide DecodeStatus, SlotName, ParseUki, UkiName, FirstEmpty, ActiveSlot, FreeIdentifier, ResizeSteps;
    forall g | g in rt.slotgroups && g.IsEmpty()
      ensures g.boot.None?
    {
      EmptyHasNoImage(d, g);
    }
  }

  /** What a selected slot is and how it is prepared. */
  lemma SelectShape(d: Disk, rt: Runtime, m: Manifest, source: string) returns (j: Job)
    requires Scanned(d, rt.slotgroups) && WellFormed(m)
    requires SelectUpdateSlot(rt, m).Ok? && SelectUpdateSlot(rt, m).value.Selected?
    ensures j.m == m && j.source == source && j.vg == d.vg && j.Valid()
    ensures var slot := SelectUpdateSlot(rt, m).value.slot; var uki := UkiEntry(m.ToVersion(), None);
            SlotOf(slot, d.vg, j.st) && slot.boot == Some(BootEntry(UkiName(uki), Managed(uki)))
    ensures Prepares(d, j, SelectUpdateSlot(rt, m).value.preSteps, rt.slotgroups)
  {
    hide DecodeStatus, SlotName, ParseUki, UkiName;
    match FirstEmpty(rt.slotgroups, rt.kernel)
    case Some(g) =>
      assert Fits(d, g);
      j := FoundSlotShape(d, rt.slotgroups, g, m, source);
    case None =>
      j := NewSlotShape(d, rt, m, source);
  }

  lemma CoreShape(rt: Runtime, slot: SlotGroup, j: Job)
    requires j.Valid() && SlotOf(slot, j.vg, j.st) && rt.boot == "/boot"
    requires var uki := UkiEntry(j.m.ToVersion(), None); slot.boot == Some(BootEntry(UkiName(uki), Managed(uki)))
    requires InstallSteps(rt, j.m, slot, j.source).Ok?
    ensures ActiveSlot(rt).Ok?
    ensures InstallSteps(rt, j.m, slot, j.source).value == j.Core() + MigrationSteps(ActiveSlot(rt).value, rt.boot)
  {
    var root, verity := slot.root.value, slot.verity.value;
    var t := j.m.ToVersion();
    var uki := UkiEntry(t, None);
    assert Rename(root.(status := Used(t))) == Lvrename(j.vg, j.From(Root), j.To(Root));
    assert Rename(verity.(status := Used(t))) == Lvrename(j.vg, j.From(Verity), j.To(Verity));
    assert InstallUki(slot, j.m.kernel, rt.boot, j.source) == Ok(j.Core()[6]);
    assert j.Core() == VolumeSteps(root.volume, verity.volume, j.m, j.source) + j.Core()[4..];
  }

  lemma Selects(rt: Runtime, m: Manifest, source: string)
    requires WellFormed(m) && InstallPlan(rt, m, source).Ok? && SelectUpdateSlot(rt, m) != Ok(AlreadyInstalled)
    ensures SelectUpdateSlot(rt, m).Ok? && SelectUpdateSlot(rt, m).value.Selected?
    ensures var s := SelectUpdateSlot(rt, m).value;
            && InstallSteps(rt, m, s.slot, source).Ok?
            && InstallPlan(rt, m, source).value == s.preSteps + InstallSteps(rt, m, s.slot, source).value
  {
  }

  /** `j` is the install of the slot that was selected. */
  ghost predicate SelectsFor(d: Disk, rt: Runtime, m: Manifest, j: Job)
    requires |m.rootVerityHash| >= 16
  {
    var s := SelectUpdateSlot(rt, m);
    s.Ok? && s.value.Selected? && SlotOf(s.value.slot, d.vg, j.st)
  }

  /** What a legacy system gets in the end: loader settings that leave the choice to the boot loader. */
  function Migration(legacy: bool): seq<Pipeline> {
    if legacy then
      [EditLoaderConf("/boot/loader/loader.conf"), RemoveFile("/boot/loader/entries.srel"), BootctlSetDefault]
    else []
  }

  lemma LoaderPaths()
    ensures "/boot" + "/loader/loader.conf" == "/boot/loader/loader.conf"
    ensures "/boot" + "/loader/entries.srel" == "/boot/loader/entries.srel"
  {
  }

  lemma MigrationIsHarmless(active: SlotGroup, boot: string)
    ensures Migrates(MigrationSteps(active, boot))
    ensures boot == "/boot" ==> MigrationSteps(active, boot) == Migration(active.IsLegacy())
  {
    LoaderPaths();
  }

  /** Every plan that is not empty: preparation, the seven steps, migration of a system whose active slot is legacy. */
  lemma SelectedPlanShape(d: Disk, kernel: Kernel, rt: Runtime, m: Manifest, source: string)
    returns (j: Job, pre: seq<Pipeline>, tail: seq<Pipeline>)
    requires Sees(d, kernel, rt) && WellFormed(m) && InstallPlan(rt, m, source).Ok?
    requires SelectUpdateSlot(rt, m) != Ok(AlreadyInstalled)
    ensures j.Valid() && j.m == m && j.source == source && j.vg == d.vg && ActiveSlot(rt).Ok?
    ensures InstallPlan(rt, m, source).value == pre + (j.Core() + tail)
    ensures Prepares(d, j, pre, rt.slotgroups) && Migrates(tail) && SelectsFor(d, rt, m, j)
    ensures tail == Migration(ActiveSlot(rt).value.IsLegacy())
  {
    hide DecodeStatus, SlotName, ParseUki, UkiName, MigrationSteps, Migration, InstallSteps, ActiveSlot;
    SeesFacts(d, kernel, rt);
    Selects(rt, m, source);
    j := SelectShape(d, rt, m, source);
    pre := SelectUpdateSlot(rt, m).value.preSteps;
    CoreShape(rt, SelectUpdateSlot(rt, m).value.slot, j);
    tail := MigrationSteps(ActiveSlot(rt).value, rt.boot);
    MigrationIsHarmless(ActiveSlot(rt).value, rt.boot);
  }

  lemma FreshNotInstalled(rt: Runtime, m: Manifest)
    requires WellFormed(m) && Fresh(rt, m.ToVersion())
    ensures SelectUpdateSlot(rt, m) != Ok(AlreadyInstalled)
  {
  }

  lemma PlanShape(d: Disk, kernel: Kernel, rt: Runtime, m: Manifest, source: string)
    returns (j: Job, pre: seq<Pipeline>, tail: seq<Pipeline>)
    requires Sees(d, kernel, rt) && WellFormed(m) && Fresh(rt, m.ToVersion()) && InstallPlan(rt, m, source).Ok?
    ensures j.Valid() && j.m == m && j.source == source && j.vg == d.vg && ActiveSlot(rt).Ok?
    ensures InstallPlan(rt, m, source).value == pre + (j.Core() + tail)
    ensures Prepares(d, j, pre, rt.slotgroups) && Migrates(tail) && SelectsFor(d, rt, m, j)
  {
    FreshNotInstalled(rt, m);
    j, pre, tail := SelectedPlanShape(d, kernel, rt, m, source);
  }
}
