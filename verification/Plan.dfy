/** Install and remove plans (`image/plan.rs`, with `image/lvm.rs` and `image/manifest.rs`). */
module Plan {
  import opened Wrappers
  import opened Text
  import opened Slots
  import opened Uki
  import opened Groups
  import opened Runtime

  /** Volume group and volume joined by a dash, nothing escaped. */
  function DeviceFile(vg: string, lv: string): string {
    "/dev/mapper/" + vg + "-" + lv
  }

  /** `Path::join`. */
  function FullName(source: string, name: string): string {
    if "/" <= name || source == "" then name
    else if source[|source| - 1] == '/' then source + name
    else source + "/" + name
  }

  /** The extension of the last path component is `zst`, in any case. */
  predicate IsCompressed(name: string) {
    var base := match RSplitOnce(name, '/') case Some((_, b)) => b case None => name;
    match RSplitOnce(base, '.')
    case Some((stem, ext)) => stem != "" && LowerAll(ext) == "zst"
    case None => false
  }

  /** Joined with one slash between, unless the name is absolute or there is no directory. */
  lemma FullNameJoins(source: string, name: string)
    ensures "/" <= name ==> FullName(source, name) == name
    ensures FullName("", name) == name
    ensures !("/" <= name) && source != "" && source[|source| - 1] != '/' ==>
              FullName(source, name) == source + "/" + name == FullName(source + "/", name)
  {
  }

  /** Different relative names are different files of a directory. */
  lemma FullNameInjective(source: string, a: string, b: string)
    requires !("/" <= a) && !("/" <= b) && FullName(source, a) == FullName(source, b)
    ensures a == b
  {
    var n := FullName(source, a);
    assert n[|n| - |a|..] == a && n[|n| - |b|..] == b;
  }

  /** The last path component of a name, which is all of it or what follows the last slash. */
  lemma BaseName(name: string) returns (base: string)
    ensures base == match RSplitOnce(name, '/') case Some((_, b)) => b case None => name
    ensures '/' !in base && |base| <= |name| && name[|name| - |base|..] == base
    ensures |base| < |name| ==> name[|name| - |base| - 1] == '/'
  {
    base := match RSplitOnce(name, '/') case Some((_, b)) => b case None => name;
  }

  /** `.zst`, in any case. */
  predicate IsZst(s: string) {
    && |s| == 4 && s[0] == '.' && (s[1] == 'z' || s[1] == 'Z')
    && (s[2] == 's' || s[2] == 'S') && (s[3] == 't' || s[3] == 'T')
  }

  lemma ZstLetters(ext: string)
    ensures LowerAll(ext) == "zst" <==> IsZst("." + ext)
  {
    var s := "." + ext;
    if |ext| == 3 {
      assert LowerAll(ext) == [Lower(ext[0]), Lower(ext[1]), Lower(ext[2])];
      assert s[1] == ext[0] && s[2] == ext[1] && s[3] == ext[2];
    }
  }

  /** The extension is `zst`, and something comes before its dot. */
  predicate ZstExtension(base: string) {
    match RSplitOnce(base, '.')
    case Some((stem, ext)) => stem != "" && LowerAll(ext) == "zst"
    case None => false
  }

  lemma ZstEnds(stem: string, ext: string)
    ensures var base := stem + ['.'] + ext;
            stem != "" && LowerAll(ext) == "zst" ==> |base| >= 5 && IsZst(base[|base| - 4..])
  {
    hide LowerAll;
    var base := stem + ['.'] + ext;
    ZstLetters(ext);
    if |ext| == 3 {
      assert base[|base| - 4..] == "." + ext;
    }
  }

  lemma EndsZst(base: string)
    requires |base| >= 5 && IsZst(base[|base| - 4..])
    ensures ZstExtension(base)
  {
    hide LowerAll, RSplitOnce;
    var stem, ext := base[..|base| - 4], base[|base| - 3..];
    assert base[|base| - 4..] == "." + ext;
    assert base == stem + ['.'] + ext && ext == [ext[0], ext[1], ext[2]];
    RSplitOnceAt(stem, '.', ext);
    ZstLetters(ext);
  }

  lemma ExtensionIff(base: string)
    ensures ZstExtension(base) <==> |base| >= 5 && IsZst(base[|base| - 4..])
  {
    hide LowerAll, IsZst;
    if ZstExtension(base) {
      var (stem, ext) := RSplitOnce(base, '.').value;
      ZstEnds(stem, ext);
    }
    if |base| >= 5 && IsZst(base[|base| - 4..]) {
      EndsZst(base);
    }
  }

  /** The images that are unpacked: at least one character of the last path component, then `.zst` in any case. */
  lemma IsCompressedIff(name: string)
    ensures IsCompressed(name) <==> |name| >= 5 && IsZst(name[|name| - 4..]) && name[|name| - 5] != '/'
  {
    hide RSplitOnce, LowerAll, IsZst;
    var base := BaseName(name);
    ExtensionIff(base);
    if |base| >= 4 {
      assert base[|base| - 4..] == name[|name| - 4..];
    }
    if |base| >= 5 {
      assert base[|base| - 5] == name[|name| - 5] && base[|base| - 5] in base;
    } else if |name| >= 5 {
      ShortBase(name, base);
    }
  }

  lemma ShortBase(name: string, base: string)
    requires |base| <= 4 && |name| >= 5 && name[|name| - |base| - 1] == '/'
    ensures !IsZst(name[|name| - 4..]) || name[|name| - 5] == '/'
  {
    if |base| < 4 {
      assert name[|name| - 4..][3 - |base|] == '/';
    }
  }

  function InstallVolume(vol: Volume, file: File, source: string): Pipeline {
    WriteImage(FullName(source, file.name), IsCompressed(file.name), DeviceFile(vol.vgName, vol.lvName))
  }

  function FinalizeFlush(vol: Volume): Pipeline {
    FlushBufs(DeviceFile(vol.vgName, vol.lvName))
  }

  function IntoVersion(s: Slot, v: Version): Result<Slot> {
    if s.status.Used? then Err("Can't assign version to already used slot") else Ok(s.(status := Used(v)))
  }

  function Rename(s: Slot): Pipeline {
    Lvrename(s.volume.vgName, s.volume.lvName, SlotName(s.kind, s.status))
  }

  function UkiPath(boot: string, name: string): string {
    boot + "/EFI/Linux/" + name
  }

  function InstallUki(slot: SlotGroup, file: File, boot: string, source: string): Result<Pipeline> {
    match slot.boot
    case Some(BootEntry(_, Managed(uki))) =>
      Ok(InstallFile(FullName(source, file.name), UkiPath(boot, UkiName(uki))))
    case _ => Err("cannot determine UKI name for slot")
  }

  function LegacyMigration(boot: string): seq<Pipeline> {
    [EditLoaderConf(boot + "/loader/loader.conf"), RemoveFile(boot + "/loader/entries.srel"), BootctlSetDefault]
  }

  /** Write both volumes, flush both, rename both, then install the kernel image. */
  function VolumeSteps(root: Volume, verity: Volume, m: Manifest, source: string): seq<Pipeline> {
    [InstallVolume(root, m.store, source), InstallVolume(verity, m.verity, source),
     FinalizeFlush(root), FinalizeFlush(verity)]
  }

  function MigrationSteps(active: SlotGroup, boot: string): seq<Pipeline> {
    if active.IsLegacy() then LegacyMigration(boot) else []
  }

  function InstallSteps(rt: Runtime, m: Manifest, slot: SlotGroup, source: string): Result<seq<Pipeline>>
    requires |m.rootVerityHash| >= 16
  {
    if slot.root.None? then Err("slot has no root volume")
    else if slot.verity.None? then Err("slot has no verity volume")
    else
      var root, verity := slot.root.value, slot.verity.value;
      var root' :- IntoVersion(root, m.ToVersion());
      var verity' :- IntoVersion(verity, m.ToVersion());
      var uki :- InstallUki(slot, m.kernel, rt.boot, source);
      var active :- ActiveSlot(rt);
      Ok(VolumeSteps(root.volume, verity.volume, m, source)
         + [Rename(root'), Rename(verity'), uki] + MigrationSteps(active, rt.boot))
  }

  /** Exactly when there are steps for a slot: both volumes, both empty, an image to name, and an active slot. */
  lemma InstallStepsIff(rt: Runtime, m: Manifest, slot: SlotGroup, source: string)
    requires |m.rootVerityHash| >= 16
    ensures InstallSteps(rt, m, slot, source).Ok? <==>
            && slot.IsComplete() && slot.IsEmpty() && ActiveSlot(rt).Ok?
            && slot.boot.Some? && slot.boot.value.kind.Managed?
  {
    hide ActiveSlot;
  }

  method InstallIntoSlot(rt: Runtime, m: Manifest, slot: SlotGroup, source: string) returns (r: Result<seq<Pipeline>>)
    requires |m.rootVerityHash| >= 16
    ensures r == InstallSteps(rt, m, slot, source)
  {
    if slot.root.None? { return Err("slot has no root volume"); }
    if slot.verity.None? { return Err("slot has no verity volume"); }
    var root, verity := slot.root.value, slot.verity.value;
    var steps := [InstallVolume(root.volume, m.store, source)];
    steps := steps + [InstallVolume(verity.volume, m.verity, source)];
    steps := steps + [FinalizeFlush(root.volume)];
    steps := steps + [FinalizeFlush(verity.volume)];
    ghost var written := steps;
    assert written == VolumeSteps(root.volume, verity.volume, m, source);
    var root' := IntoVersion(root, m.ToVersion());
    if root'.Err? { return Err(root'.reason); }
    steps := steps + [Rename(root'.value)];
    var verity' := IntoVersion(verity, m.ToVersion());
    if verity'.Err? { return Err(verity'.reason); }
    steps := steps + [Rename(verity'.value)];
    var uki := InstallUki(slot, m.kernel, rt.boot, source);
    if uki.Err? { return Err(uki.reason); }
    steps := steps + [uki.value];
    assert steps == written + [Rename(root'.value), Rename(verity'.value), uki.value];
    var active := ActiveSlot(rt);
    if active.Err? { return Err(active.reason); }
    steps := steps + MigrationSteps(active.value, rt.boot);
    r := Ok(steps);
  }

  function InstallPlan(rt: Runtime, m: Manifest, source: string): Result<seq<Pipeline>>
    requires |m.rootVerityHash| >= 16
  {
    var selection :- SelectUpdateSlot(rt, m);
    match selection
    case AlreadyInstalled => Ok([])
    case Selected(slot, preSteps) =>
      var steps :- InstallSteps(rt, m, slot, source);
      Ok(preSteps + steps)
  }

  method Install(rt: Runtime, m: Manifest, source: string) returns (r: Result<seq<Pipeline>>)
    requires |m.rootVerityHash| >= 16
    ensures r == InstallPlan(rt, m, source)
  {
    var selection := SelectUpdateSlot(rt, m);
    if selection.Err? { return Err(selection.reason); }
    match selection.value
    case AlreadyInstalled => r := Ok([]);
    case Selected(slot, preSteps) =>
      var steps := InstallIntoSlot(rt, m, slot, source);
      if steps.Err? { return Err(steps.reason); }
      r := Ok(preSteps + steps.value);
  }

  // ---------------------------------------------------------------- remove

  predicate HasEmptyWithHash(rt: Runtime, id: string) {
    exists g :: g in rt.slotgroups && g.EmptyIdText() == Some(id)
  }

  function LegacyUnlinks(entries: seq<BootEntry>): (r: seq<Pipeline>)
    ensures forall c | c in r :: exists e :: e in entries && e.kind.LegacyEntry? && c == BootctlUnlink(e.id)
    ensures forall e | e in entries && e.kind.LegacyEntry? :: BootctlUnlink(e.id) in r
  {
    if entries == [] then []
    else
      var r := LegacyUnlinks(entries[..|entries| - 1]);
      var e := entries[|entries| - 1];
      if e.kind.LegacyEntry? then r + [BootctlUnlink(e.id)] else r
  }

  function RenameToEmpty(slot: Option<Slot>, prefix: string, id: string): seq<Pipeline> {
    match slot
    case Some(s) => [Lvrename(s.volume.vgName, s.volume.lvName, prefix + "_empty_" + id)]
    case None => []
  }

  function RemoveSteps(rt: Runtime, slot: SlotGroup, id: string): seq<Pipeline> {
    (match slot.boot case Some(b) => [BootctlUnlink(b.id)] case None => [])
    + (if slot.IsLegacy() then LegacyUnlinks(rt.bootEntries) else [])
    + RenameToEmpty(slot.root, "root", id)
    + RenameToEmpty(slot.verity, "verity", id)
  }

  /** The identifier a removed group gets: its own, if it has one and nobody uses it, or a fresh one. */
  function RemovalId(rt: Runtime, slot: SlotGroup): Result<string> {
    match slot.EmptyIdText()
    case Some(h) => if !HasEmptyWithHash(rt, h) then Ok(h) else FreeIdentifier(rt.slotgroups)
    case None => FreeIdentifier(rt.slotgroups)
  }

  function RemovePlan(rt: Runtime, version: Version): Result<seq<Pipeline>> {
    var slot :- FindSlotGroup(rt, version);
    if slot.IsActive(rt.kernel) then Err("cannot remove active slot")
    else
      var id :- RemovalId(rt, slot);
      Ok(RemoveSteps(rt, slot, id))
  }

  method RenameSlotToEmpty(slot: SlotGroup, id: string) returns (steps: seq<Pipeline>)
    ensures steps == RenameToEmpty(slot.root, "root", id) + RenameToEmpty(slot.verity, "verity", id)
  {
    steps := [];
    if slot.root.Some? {
      var root := slot.root.value.volume;
      steps := steps + [Lvrename(root.vgName, root.lvName, "root_empty_" + id)];
    }
    if slot.verity.Some? {
      var verity := slot.verity.value.volume;
      steps := steps + [Lvrename(verity.vgName, verity.lvName, "verity_empty_" + id)];
    }
    assert "root_empty_" + id == "root" + "_empty_" + id;
    assert "verity_empty_" + id == "verity" + "_empty_" + id;
  }

  method RemoveBootEntries(rt: Runtime, slot: SlotGroup) returns (steps: seq<Pipeline>)
    ensures steps == (match slot.boot case Some(b) => [BootctlUnlink(b.id)] case None => [])
                     + (if slot.IsLegacy() then LegacyUnlinks(rt.bootEntries) else [])
  {
    steps := [];
    if slot.boot.Some? {
      steps := steps + [BootctlUnlink(slot.boot.value.id)];
    }
    if slot.IsLegacy() {
      ghost var before := steps;
      for i := 0 to |rt.bootEntries|
        invariant steps == before + LegacyUnlinks(rt.bootEntries[..i])
      {
        assert rt.bootEntries[..i + 1][..i] == rt.bootEntries[..i];
        if rt.bootEntries[i].kind.LegacyEntry? {
          steps := steps + [BootctlUnlink(rt.bootEntries[i].id)];
        }
      }
      assert rt.bootEntries[..|rt.bootEntries|] == rt.bootEntries;
    }
  }

  method Remove(rt: Runtime, version: Version) returns (r: Result<seq<Pipeline>>)
    ensures r == RemovePlan(rt, version)
  {
    var found := FindSlotGroup(rt, version);
    if found.Err? { return Err(found.reason); }
    var slot := found.value;
    if slot.IsActive(rt.kernel) { return Err("cannot remove active slot"); }
    var id := RemovalId(rt, slot);
    if id.Err? { return Err(id.reason); }
    var steps := RemoveBootEntries(rt, slot);
    var renames := RenameSlotToEmpty(slot, id.value);
    assert steps + renames == RemoveSteps(rt, slot, id.value);
    r := Ok(steps + renames);
  }
}
