/** What one scan of a disk finds: `Runtime::new` related to the disk it looks at. */
module Inventory {
  import opened Wrappers
  import opened Slots
  import opened Uki
  import opened Groups
  import opened Runtime
  import opened Disk

  /** What `lvs` and `bootctl list` may report: every volume and image once, in any order, sizes optional. */
  ghost predicate Listing(d: Disk, vols: seq<Volume>, items: seq<BootctlItem>) {
    && (forall v | v in vols :: VolumeOn(d, v))
    && (forall i, j | 0 <= i < j < |vols| :: vols[i].lvName != vols[j].lvName)
    && (forall n | n in d.lvs :: exists i :: 0 <= i < |vols| && vols[i].lvName == n)
    && (forall x | x in items && x.itemType == "type2" :: x.id in d.esp)
    && (forall x | x in items && x.itemType == "type1" :: x.id in d.type1)
    && DistinctType2(items)
    && (forall id | id in d.esp :: BootctlItem("type2", id) in items)
  }

  ghost predicate DistinctType2(items: seq<BootctlItem>) {
    forall i, j | 0 <= i < j < |items| :: !(items[i].itemType == "type2" && items[i] == items[j])
  }

  predicate VolumeOn(d: Disk, v: Volume) {
    && v.lvName in d.lvs && v.vgName == d.vg
    && (v.lvSizeBytes.Some? ==> v.lvSizeBytes.value == |d.lvs[v.lvName].data|)
  }

  // ---------------------------------------------------------------- the two phases on a listing

  /** Distinct names never clash, so the slot phase cannot fail on a real disk. */
  lemma {:induction false} DistinctNamesNoClash(vols: seq<Volume>)
    requires forall i, j | 0 <= i < j < |vols| :: vols[i].lvName != vols[j].lvName
    ensures NoClash(ParsedSlots(vols))
  {
    if vols != [] {
      var init, v := vols[..|vols| - 1], vols[|vols| - 1];
      DistinctNamesNoClash(init);
      var slots := ParsedSlots(init);
      if DecodeStatus(v.lvName).Ok? {
        var (k, st) := DecodeStatus(v.lvName).value;
        forall i | 0 <= i < |slots|
          ensures !(slots[i].kind == k && slots[i].status == st)
        {
          ParsedSlotsExact(init, slots[i]);
          var j :| 0 <= j < |init| && init[j] == slots[i].volume;
          assert vols[j].lvName != v.lvName;
          if slots[i].kind == k && slots[i].status == st {
            NameInjective(slots[i].volume.lvName, v.lvName);
          }
        }
      }
    }
  }

  function ManagedEntries(items: seq<BootctlItem>): seq<BootEntry> {
    Partition(FromBootctl(items), true)
  }

  /** An entry as the scan builds it from the id of an image. */
  predicate EntryFor(e: BootEntry) {
    ParseUki(e.id).Ok? && e.kind == Managed(ParseUki(e.id).value)
  }

  lemma PartitionSnoc(entries: seq<BootEntry>, e: BootEntry, managed: bool)
    ensures Partition(entries + [e], managed) ==
            Partition(entries, managed) + (if e.kind.Managed? == managed then [e] else [])
  {
    assert (entries + [e])[..|entries|] == entries;
  }

  /** The managed entries of all items but the last, and then that of the last. */
  lemma ManagedStep(items: seq<BootctlItem>)
    requires items != []
    ensures var init, x := items[..|items| - 1], items[|items| - 1];
            ManagedEntries(items) == ManagedEntries(init) +
            if x.itemType == "type2" && ParseUki(x.id).Ok? then [BootEntry(x.id, Managed(ParseUki(x.id).value))] else []
  {
    var init, x := items[..|items| - 1], items[|items| - 1];
    match EntryOf(x)
    case Some(e) => PartitionSnoc(FromBootctl(init), e, true);
    case None =>
  }

  lemma {:induction false} ManagedExact(items: seq<BootctlItem>, e: BootEntry)
    ensures e in ManagedEntries(items) <==> EntryFor(e) && BootctlItem("type2", e.id) in items
  {
    hide ParseUki;
    if items != [] {
      ManagedStep(items);
      ManagedExact(items[..|items| - 1], e);
      assert items == items[..|items| - 1] + [items[|items| - 1]];
    }
  }

  lemma UnmanagedStep(items: seq<BootctlItem>)
    requires items != []
    ensures var init, x := items[..|items| - 1], items[|items| - 1];
            Partition(FromBootctl(items), false) == Partition(FromBootctl(init), false) +
            if x.itemType == "type1" then [BootEntry(x.id, LegacyEntry)]
            else if x.itemType == "type2" && ParseUki(x.id).Err? then [BootEntry(x.id, Unmanaged)] else []
  {
    hide ParseUki;
    var init, x := items[..|items| - 1], items[|items| - 1];
    match EntryOf(x)
    case Some(e) => PartitionSnoc(FromBootctl(init), e, false);
    case None =>
  }

  /** The entries kept apart are exactly the type 1 entries and the images whose names do not parse. */
  lemma {:induction false} UnmanagedExact(items: seq<BootctlItem>, e: BootEntry)
    ensures e in Partition(FromBootctl(items), false) <==>
            || (e.kind.LegacyEntry? && BootctlItem("type1", e.id) in items)
            || (e.kind.Unmanaged? && BootctlItem("type2", e.id) in items && ParseUki(e.id).Err?)
  {
    hide ParseUki;
    if items != [] {
      UnmanagedStep(items);
      UnmanagedExact(items[..|items| - 1], e);
      assert items == items[..|items| - 1] + [items[|items| - 1]];
    }
  }

  /** What a scan keeps besides its groups. */
  lemma ScanRest(vols: seq<Volume>, kernel: Kernel, items: seq<BootctlItem>, e: BootEntry)
    requires Scan(vols, kernel, items).Ok?
    ensures var rt := Scan(vols, kernel, items).value;
            && rt.kernel == kernel && rt.boot == "/boot" && rt.volumes == UnparsedVolumes(vols)
            && (e in rt.bootEntries <==>
                  || (e.kind.LegacyEntry? && BootctlItem("type1", e.id) in items)
                  || (e.kind.Unmanaged? && BootctlItem("type2", e.id) in items && ParseUki(e.id).Err?))
  {
    hide ParseUki, GroupAll;
    UnmanagedExact(items, e);
  }

  ghost predicate DistinctIds(boots: seq<BootEntry>) {
    forall i, j | 0 <= i < j < |boots| :: boots[i].id != boots[j].id
  }

  lemma {:induction false} ManagedDistinct(items: seq<BootctlItem>)
    requires DistinctType2(items)
    ensures DistinctIds(ManagedEntries(items))
  {
    if items != [] {
      var init, x := items[..|items| - 1], items[|items| - 1];
      ManagedStep(items);
      ManagedDistinct(init);
      var before := ManagedEntries(init);
      forall i | 0 <= i < |before| && x.itemType == "type2"
        ensures before[i].id != x.id
      {
        ManagedExact(init, before[i]);
        var j :| 0 <= j < |init| && init[j] == BootctlItem("type2", before[i].id);
        assert items[j] == init[j];
      }
    }
  }

  // ---------------------------------------------------------------- the boot phase

  /** `gs` is `gs0` with the entries of `boots` attached, or in groups of their own. */
  ghost predicate BootPhase(gs0: seq<SlotGroup>, boots: seq<BootEntry>, gs: seq<SlotGroup>) {
    && |gs0| <= |gs|
    && (forall i | 0 <= i < |gs0| :: Attached(gs0[i], boots, gs[i]))
    && (forall i | |gs0| <= i < |gs| :: Orphan(gs0, boots, gs[i]))
    && (forall b | b in boots :: exists i :: 0 <= i < |gs| && gs[i].boot == Some(b))
    && (forall i, j | 0 <= i < j < |gs| && gs[i].boot.Some? :: gs[i].boot != gs[j].boot)
  }

  ghost predicate Attached(g0: SlotGroup, boots: seq<BootEntry>, g: SlotGroup) {
    && g == g0.(boot := g.boot)
    && (g.boot.Some? ==> g.boot.value in boots && g0.MatchesBoot(g.boot.value))
    && (g.boot.None? ==> forall b | b in boots :: !g0.MatchesBoot(b))
  }

  ghost predicate Orphan(gs0: seq<SlotGroup>, boots: seq<BootEntry>, g: SlotGroup) {
    && g.root.None? && g.verity.None? && g.boot.Some? && g.boot.value in boots
    && forall j | 0 <= j < |gs0| :: !gs0[j].MatchesBoot(g.boot.value)
  }

  /** An entry matches at most one of the groups. */
  ghost predicate OneMatch(gs0: seq<SlotGroup>, b: BootEntry) {
    forall i, j | 0 <= i < |gs0| && 0 <= j < |gs0| && gs0[i].MatchesBoot(b) && gs0[j].MatchesBoot(b) :: i == j
  }

  lemma AddBootStep(gs0: seq<SlotGroup>, boots: seq<BootEntry>, gs: seq<SlotGroup>, b: BootEntry)
    requires BootPhase(gs0, boots, gs) && OneMatch(gs0, b) && b !in boots
    ensures AddBoot(gs, b).Err? <==>
            exists i :: 0 <= i < |gs0| && gs0[i].MatchesBoot(b) && gs[i].boot.Some?
    ensures AddBoot(gs, b).Ok? ==> BootPhase(gs0, boots + [b], AddBoot(gs, b).value)
  {
    var k := FindForBoot(gs, b);
    forall i | 0 <= i < |gs0|
      ensures gs[i].MatchesBoot(b) == gs0[i].MatchesBoot(b)
    {
      assert Attached(gs0[i], boots, gs[i]);
    }
    forall i | |gs0| <= i < |gs|
      ensures !gs[i].MatchesBoot(b)
    {
      assert Orphan(gs0, boots, gs[i]);
    }
    if k < |gs| {
      assert k < |gs0| && gs0[k].MatchesBoot(b);
    }
    if AddBoot(gs, b).Ok? {
      AddBootKeeps(gs0, boots, gs, b, k);
    }
  }

  lemma AddBootKeeps(gs0: seq<SlotGroup>, boots: seq<BootEntry>, gs: seq<SlotGroup>, b: BootEntry, k: nat)
    requires BootPhase(gs0, boots, gs) && OneMatch(gs0, b) && b !in boots && AddBoot(gs, b).Ok?
    requires k == FindForBoot(gs, b) && (k < |gs0| || k == |gs|)
    requires forall i | 0 <= i < |gs0| :: gs[i].MatchesBoot(b) == gs0[i].MatchesBoot(b)
    ensures BootPhase(gs0, boots + [b], AddBoot(gs, b).value)
  {
    var gs', boots' := AddBoot(gs, b).value, boots + [b];
    forall i | 0 <= i < |gs0|
      ensures Attached(gs0[i], boots', gs'[i])
    {
      assert Attached(gs0[i], boots, gs[i]);
    }
    forall i | |gs0| <= i < |gs'|
      ensures Orphan(gs0, boots', gs'[i])
    {
      if i < |gs| {
        assert Orphan(gs0, boots, gs[i]);
      }
    }
    forall x | x in boots'
      ensures exists i :: 0 <= i < |gs'| && gs'[i].boot == Some(x)
    {
      if x == b {
        assert gs'[k].boot == Some(b);
      } else {
        var i :| 0 <= i < |gs| && gs[i].boot == Some(x);
        assert gs'[i].boot == Some(x);
      }
    }
    forall i, j | 0 <= i < j < |gs'| && gs'[i].boot.Some?
      ensures gs'[i].boot != gs'[j].boot
    {
      BootsFrom(gs0, boots, gs);
    }
  }

  lemma BootsFrom(gs0: seq<SlotGroup>, boots: seq<BootEntry>, gs: seq<SlotGroup>)
    requires BootPhase(gs0, boots, gs)
    ensures forall i | 0 <= i < |gs| && gs[i].boot.Some? :: gs[i].boot.value in boots
  {
    forall i | 0 <= i < |gs| && gs[i].boot.Some?
      ensures gs[i].boot.value in boots
    {
      if i < |gs0| {
        assert Attached(gs0[i], boots, gs[i]);
      } else {
        assert Orphan(gs0, boots, gs[i]);
      }
    }
  }

  /** Two entries compete for one group. */
  ghost predicate Compete(gs0: seq<SlotGroup>, a: BootEntry, b: BootEntry) {
    a != b && exists i :: 0 <= i < |gs0| && gs0[i].MatchesBoot(a) && gs0[i].MatchesBoot(b)
  }

  /** The boot phase succeeds iff no two entries compete for one group. */
  lemma {:induction false} BootPhaseExact(gs0: seq<SlotGroup>, boots: seq<BootEntry>)
    requires forall g | g in gs0 :: g.boot.None?
    requires DistinctIds(boots) && forall b | b in boots :: OneMatch(gs0, b)
    ensures AttachBoots(gs0, boots).Err? <==> exists a, b :: a in boots && b in boots && Compete(gs0, a, b)
    ensures AttachBoots(gs0, boots).Ok? ==> BootPhase(gs0, boots, AttachBoots(gs0, boots).value)
  {
    if boots != [] {
      var init, b := boots[..|boots| - 1], boots[|boots| - 1];
      assert boots == init + [b];
      BootPhaseExact(gs0, init);
      assert b !in init;
      if AttachBoots(gs0, init).Ok? {
        var gs := AttachBoots(gs0, init).value;
        AddBootStep(gs0, init, gs, b);
        forall i | 0 <= i < |gs0| && gs0[i].MatchesBoot(b)
          ensures gs[i].boot.Some? <==> exists a :: a in init && gs0[i].MatchesBoot(a)
        {
          assert Attached(gs0[i], init, gs[i]);
        }
        if AddBoot(gs, b).Err? {
          var i :| 0 <= i < |gs0| && gs0[i].MatchesBoot(b) && gs[i].boot.Some?;
          var a :| a in init && gs0[i].MatchesBoot(a);
          assert Compete(gs0, a, b);
        }
      }
    } else {
      forall i | 0 <= i < |gs0|
        ensures Attached(gs0[i], [], gs0[i])
      {
        assert gs0[i] in gs0;
      }
    }
  }

  // ---------------------------------------------------------------- what a scan finds

  /** The volume of a kind and status is there. */
  predicate HasLv(d: Disk, k: Kind, st: Status) {
    Printable(st) && SlotName(k, st) in d.lvs
  }

  /** `id` is an image of version `v`. */
  predicate IsUki(id: string, v: Version) {
    ParseUki(id).Ok? && ParseUki(id).value.version == v
  }

  predicate HasUki(d: Disk, id: string, v: Version) {
    id in d.esp && IsUki(id, v)
  }

  predicate SlotOn(d: Disk, s: Slot) {
    VolumeOn(d, s.volume) && DecodeStatus(s.volume.lvName) == Ok((s.kind, s.status))
  }

  datatype Key = ByStatus(st: Status) | ByEntry(id: string)

  predicate HasVolume(g: SlotGroup) {
    g.root.Some? || g.verity.Some?
  }

  function KeyOf(g: SlotGroup): Key
    requires HasVolume(g) || g.boot.Some?
  {
    if HasVolume(g) then ByStatus(StatusOf(g)) else ByEntry(g.boot.value.id)
  }

  /** A group with volumes: exactly those of its status, and the image of its version if the root is there. */
  ghost predicate VolumesFit(d: Disk, g: SlotGroup) {
    && VolumeGroup(g)
    && (g.root.Some? <==> HasLv(d, Root, StatusOf(g))) && (g.root.Some? ==> SlotOn(d, g.root.value))
    && (g.verity.Some? <==> HasLv(d, Verity, StatusOf(g))) && (g.verity.Some? ==> SlotOn(d, g.verity.value))
    && (g.boot.Some? ==>
          && g.root.Some? && StatusOf(g).Used? && EntryFor(g.boot.value)
          && HasUki(d, g.boot.value.id, StatusOf(g).version))
    && (g.boot.None? && g.root.Some? && StatusOf(g).Used? ==> forall id :: !HasUki(d, id, StatusOf(g).version))
  }

  /** A group of an image alone: no root volume of its version exists. */
  predicate OrphanFits(d: Disk, g: SlotGroup) {
    && g.root.None? && g.verity.None? && g.boot.Some? && EntryFor(g.boot.value) && g.boot.value.id in d.esp
    && !HasLv(d, Root, Used(g.boot.value.kind.uki.version))
  }

  ghost predicate Fits(d: Disk, g: SlotGroup) {
    if HasVolume(g) then VolumesFit(d, g) else OrphanFits(d, g)
  }

  /** `gs` are the slot groups of `d`: one per status with volumes, one per image without a root volume. */
  ghost predicate Scanned(d: Disk, gs: seq<SlotGroup>) {
    && (forall i | 0 <= i < |gs| :: Fits(d, gs[i]))
    && (forall i, j | 0 <= i < j < |gs| :: KeyOf(gs[i]) != KeyOf(gs[j]))
    && (forall k, st | HasLv(d, k, st) :: exists i :: 0 <= i < |gs| && KeyOf(gs[i]) == ByStatus(st))
    && (forall id | id in d.esp && ParseUki(id).Ok? ::
          exists i :: 0 <= i < |gs| && gs[i].boot.Some? && gs[i].boot.value.id == id)
  }

  /** Two images of one version whose root volume exists: the state a scan refuses. */
  ghost predicate DoubleUki(d: Disk) {
    exists a, b, v :: HasUki(d, a, v) && HasUki(d, b, v) && a != b && HasLv(d, Root, Used(v))
  }

  // ---------------------------------------------------------------- a scan finds exactly that

  /** The slot phase on a listing: each volume group holds exactly the volumes of its status. */
  ghost predicate SlotsFit(d: Disk, gs0: seq<SlotGroup>) {
    && (forall i | 0 <= i < |gs0| ::
          && VolumeGroup(gs0[i]) && gs0[i].boot.None?
          && (gs0[i].root.Some? <==> HasLv(d, Root, StatusOf(gs0[i])))
          && (gs0[i].root.Some? ==> SlotOn(d, gs0[i].root.value))
          && (gs0[i].verity.Some? <==> HasLv(d, Verity, StatusOf(gs0[i])))
          && (gs0[i].verity.Some? ==> SlotOn(d, gs0[i].verity.value)))
    && (forall i, j | 0 <= i < j < |gs0| :: StatusOf(gs0[i]) != StatusOf(gs0[j]))
    && (forall k, st | HasLv(d, k, st) :: exists i :: 0 <= i < |gs0| && StatusOf(gs0[i]) == st)
  }

  lemma ListedSlot(d: Disk, vols: seq<Volume>, items: seq<BootctlItem>, k: Kind, st: Status) returns (s: Slot)
    requires Listing(d, vols, items) && HasLv(d, k, st)
    ensures s in ParsedSlots(vols) && s.kind == k && s.status == st
  {
    var i :| 0 <= i < |vols| && vols[i].lvName == SlotName(k, st);
    PrintThenDecode(k, st);
    s := Slot(k, st, vols[i]);
    ParsedSlotsExact(vols, s);
  }

  lemma SlotIsOn(d: Disk, vols: seq<Volume>, items: seq<BootctlItem>, s: Slot)
    requires Listing(d, vols, items) && s in ParsedSlots(vols)
    ensures SlotOn(d, s) && HasLv(d, s.kind, s.status)
  {
    ParsedSlotsExact(vols, s);
    DecodeThenPrint(s.volume.lvName);
  }

  lemma SlotPhase(d: Disk, vols: seq<Volume>, items: seq<BootctlItem>)
    requires Listing(d, vols, items)
    ensures GroupSlots(ParsedSlots(vols)).Ok? && SlotsFit(d, GroupSlots(ParsedSlots(vols)).value)
  {
    hide DecodeStatus, SlotName, ParseUki, UkiName, GroupSlots, ParsedSlots, NoClash, HasLv, SlotOn;
    var slots := ParsedSlots(vols);
    DistinctNamesNoClash(vols);
    GroupSlotsPartition(slots);
    var gs0 := GroupSlots(slots).value;
    forall i | 0 <= i < |gs0|
      ensures gs0[i].root.Some? <==> HasLv(d, Root, StatusOf(gs0[i]))
      ensures gs0[i].root.Some? ==> SlotOn(d, gs0[i].root.value)
      ensures gs0[i].verity.Some? <==> HasLv(d, Verity, StatusOf(gs0[i]))
      ensures gs0[i].verity.Some? ==> SlotOn(d, gs0[i].verity.value)
    {
      SlotPhaseGroup(d, vols, items, gs0, i);
    }
    forall k, st | HasLv(d, k, st)
      ensures exists i :: 0 <= i < |gs0| && StatusOf(gs0[i]) == st
    {
      SlotPlaced(d, vols, items, gs0, k, st);
    }
  }

  lemma SlotPlaced(d: Disk, vols: seq<Volume>, items: seq<BootctlItem>, gs0: seq<SlotGroup>, k: Kind, st: Status)
    requires Listing(d, vols, items) && IsPartition(ParsedSlots(vols), gs0) && HasLv(d, k, st)
    ensures exists i :: 0 <= i < |gs0| && StatusOf(gs0[i]) == st
  {
    hide DecodeStatus, SlotName, ParseUki, Listing;
    var s := ListedSlot(d, vols, items, k, st);
    var i :| 0 <= i < |gs0| && Holds(gs0[i], s);
    assert VolumeGroup(gs0[i]) && StatusOf(gs0[i]) == st;
  }

  lemma SlotPhaseGroup(d: Disk, vols: seq<Volume>, items: seq<BootctlItem>, gs0: seq<SlotGroup>, i: nat)
    requires Listing(d, vols, items) && IsPartition(ParsedSlots(vols), gs0) && i < |gs0|
    ensures gs0[i].root.Some? <==> HasLv(d, Root, StatusOf(gs0[i]))
    ensures gs0[i].root.Some? ==> SlotOn(d, gs0[i].root.value)
    ensures gs0[i].verity.Some? <==> HasLv(d, Verity, StatusOf(gs0[i]))
    ensures gs0[i].verity.Some? ==> SlotOn(d, gs0[i].verity.value)
  {
    var g := gs0[i];
    if g.root.Some? {
      assert Holds(g, g.root.value);
      SlotIsOn(d, vols, items, g.root.value);
    } else if HasLv(d, Root, StatusOf(g)) {
      var s := ListedSlot(d, vols, items, Root, StatusOf(g));
      SlotLandsIn(ParsedSlots(vols), gs0, i, s);
    }
    if g.verity.Some? {
      assert Holds(g, g.verity.value);
      SlotIsOn(d, vols, items, g.verity.value);
    } else if HasLv(d, Verity, StatusOf(g)) {
      var s := ListedSlot(d, vols, items, Verity, StatusOf(g));
      SlotLandsIn(ParsedSlots(vols), gs0, i, s);
    }
  }

  lemma SlotLandsIn(slots: seq<Slot>, gs0: seq<SlotGroup>, i: nat, s: Slot)
    requires IsPartition(slots, gs0) && i < |gs0| && s in slots && s.status == StatusOf(gs0[i])
    ensures Holds(gs0[i], s)
  {
    var j :| 0 <= j < |gs0| && Holds(gs0[j], s);
    var t := if gs0[i].root.Some? then gs0[i].root.value else gs0[i].verity.value;
    assert Holds(gs0[i], t);
    TogetherIffEqualStatus(slots, gs0, s, t, j, i);
  }

  /** On the groups of a disk an entry matches the group of its version, if that has a root. */
  lemma MatchesByVersion(d: Disk, gs0: seq<SlotGroup>, i: nat, b: BootEntry)
    requires SlotsFit(d, gs0) && i < |gs0| && b.kind.Managed?
    ensures gs0[i].MatchesBoot(b) <==> gs0[i].root.Some? && StatusOf(gs0[i]) == Used(b.kind.uki.version)
  {
  }

  lemma ManagedOneMatch(d: Disk, gs0: seq<SlotGroup>, b: BootEntry)
    requires SlotsFit(d, gs0) && b.kind.Managed?
    ensures OneMatch(gs0, b)
  {
    forall i, j | 0 <= i < |gs0| && 0 <= j < |gs0| && gs0[i].MatchesBoot(b) && gs0[j].MatchesBoot(b)
      ensures i == j
    {
      MatchesByVersion(d, gs0, i, b);
      MatchesByVersion(d, gs0, j, b);
    }
  }

  /** The entries of a listing are exactly the images that parse. */
  lemma ListedEntry(d: Disk, vols: seq<Volume>, items: seq<BootctlItem>, e: BootEntry)
    requires Listing(d, vols, items)
    ensures e in ManagedEntries(items) <==> EntryFor(e) && e.id in d.esp
  {
    ManagedExact(items, e);
    if e in ManagedEntries(items) {
      var x := BootctlItem("type2", e.id);
      assert x in items;
    }
  }

  lemma AttachedFits(d: Disk, vols: seq<Volume>, items: seq<BootctlItem>, gs0: seq<SlotGroup>, i: nat, g: SlotGroup)
    requires Listing(d, vols, items) && SlotsFit(d, gs0) && i < |gs0| && Attached(gs0[i], ManagedEntries(items), g)
    ensures VolumesFit(d, g)
  {
    if g.boot.Some? {
      ListedEntry(d, vols, items, g.boot.value);
      MatchesByVersion(d, gs0, i, g.boot.value);
    } else if g.root.Some? && StatusOf(g).Used? {
      forall id
        ensures !HasUki(d, id, StatusOf(g).version)
      {
        if HasUki(d, id, StatusOf(g).version) {
          var e := BootEntry(id, Managed(ParseUki(id).value));
          ListedEntry(d, vols, items, e);
          MatchesByVersion(d, gs0, i, e);
        }
      }
    }
  }

  lemma OrphanFitsDisk(d: Disk, vols: seq<Volume>, items: seq<BootctlItem>, gs0: seq<SlotGroup>, g: SlotGroup)
    requires Listing(d, vols, items) && SlotsFit(d, gs0) && Orphan(gs0, ManagedEntries(items), g)
    ensures OrphanFits(d, g)
  {
    var b := g.boot.value;
    ListedEntry(d, vols, items, b);
  }

  lemma BootPhaseScanned(d: Disk, vols: seq<Volume>, items: seq<BootctlItem>, gs0: seq<SlotGroup>, gs: seq<SlotGroup>)
    requires Listing(d, vols, items) && SlotsFit(d, gs0) && BootPhase(gs0, ManagedEntries(items), gs)
    ensures Scanned(d, gs)
  {
    var boots := ManagedEntries(items);
    forall i | 0 <= i < |gs|
      ensures Fits(d, gs[i])
      ensures i < |gs0| ==> HasVolume(gs[i]) && StatusOf(gs[i]) == StatusOf(gs0[i])
      ensures i >= |gs0| ==> !HasVolume(gs[i])
    {
      if i < |gs0| {
        assert Attached(gs0[i], boots, gs[i]);
        AttachedFits(d, vols, items, gs0, i, gs[i]);
      } else {
        OrphanFitsDisk(d, vols, items, gs0, gs[i]);
      }
    }
    forall i, j | 0 <= i < j < |gs|
      ensures KeyOf(gs[i]) != KeyOf(gs[j])
    {
      if i >= |gs0| {
        assert gs[i].boot != gs[j].boot;
      }
    }
    forall k, st | HasLv(d, k, st)
      ensures exists i :: 0 <= i < |gs| && KeyOf(gs[i]) == ByStatus(st)
    {
      var i :| 0 <= i < |gs0| && StatusOf(gs0[i]) == st;
      assert KeyOf(gs[i]) == ByStatus(st);
    }
    forall id | id in d.esp && ParseUki(id).Ok?
      ensures exists i :: 0 <= i < |gs| && gs[i].boot.Some? && gs[i].boot.value.id == id
    {
      var e := BootEntry(id, Managed(ParseUki(id).value));
      ListedEntry(d, vols, items, e);
      var i :| 0 <= i < |gs| && gs[i].boot == Some(e);
    }
  }

  lemma CompetingIsDouble(d: Disk, vols: seq<Volume>, items: seq<BootctlItem>, gs0: seq<SlotGroup>, a: BootEntry,
                          b: BootEntry)
    requires Listing(d, vols, items) && SlotsFit(d, gs0)
    requires a in ManagedEntries(items) && b in ManagedEntries(items) && Compete(gs0, a, b)
    ensures DoubleUki(d)
  {
    ListedEntry(d, vols, items, a);
    ListedEntry(d, vols, items, b);
    var i :| 0 <= i < |gs0| && gs0[i].MatchesBoot(a) && gs0[i].MatchesBoot(b);
    MatchesByVersion(d, gs0, i, a);
    MatchesByVersion(d, gs0, i, b);
    var v := a.kind.uki.version;
    assert HasUki(d, a.id, v) && HasUki(d, b.id, v) && a.id != b.id && HasLv(d, Root, Used(v));
  }

  lemma DoubleCompetes(d: Disk, vols: seq<Volume>, items: seq<BootctlItem>, gs0: seq<SlotGroup>)
    returns (x: BootEntry, y: BootEntry)
    requires Listing(d, vols, items) && SlotsFit(d, gs0) && DoubleUki(d)
    ensures x in ManagedEntries(items) && y in ManagedEntries(items) && Compete(gs0, x, y)
  {
    hide DecodeStatus, SlotName, ParseUki, UkiName;
    var a, b, v :| HasUki(d, a, v) && HasUki(d, b, v) && a != b && HasLv(d, Root, Used(v));
    x, y := BootEntry(a, Managed(ParseUki(a).value)), BootEntry(b, Managed(ParseUki(b).value));
    ListedEntry(d, vols, items, x);
    ListedEntry(d, vols, items, y);
    var i :| 0 <= i < |gs0| && StatusOf(gs0[i]) == Used(v);
    MatchesByVersion(d, gs0, i, x);
    MatchesByVersion(d, gs0, i, y);
  }

  /**
   * A scan of a disk, in whatever order it is listed, succeeds iff no two images share a version whose
   * root volume exists, and then finds exactly the groups of the disk.
   */
  lemma ScanExact(d: Disk, vols: seq<Volume>, kernel: Kernel, items: seq<BootctlItem>)
    requires Listing(d, vols, items)
    ensures Scan(vols, kernel, items).Ok? <==> !DoubleUki(d)
    ensures Scan(vols, kernel, items).Ok? ==> Scanned(d, Scan(vols, kernel, items).value.slotgroups)
  {
    var boots := ManagedEntries(items);
    SlotPhase(d, vols, items);
    var gs0 := GroupSlots(ParsedSlots(vols)).value;
    ManagedDistinct(items);
    forall b | b in boots
      ensures OneMatch(gs0, b)
    {
      ListedEntry(d, vols, items, b);
      ManagedOneMatch(d, gs0, b);
    }
    BootPhaseExact(gs0, boots);
    if a, b :| a in boots && b in boots && Compete(gs0, a, b) {
      CompetingIsDouble(d, vols, items, gs0, a, b);
    }
    if DoubleUki(d) {
      var x, y := DoubleCompetes(d, vols, items, gs0);
    }
    if AttachBoots(gs0, boots).Ok? {
      BootPhaseScanned(d, vols, items, gs0, AttachBoots(gs0, boots).value);
    }
  }
}
