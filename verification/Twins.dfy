/** Twins in practice: which slot is selected is up to the listing order, so any pair may be, and a machine with one. */
module Twins {
  import opened Wrappers
  import opened Slots
  import opened Uki
  import opened Groups
  import opened Runtime
  import opened Plan
  import opened Disk
  import opened Inventory
  import opened Frame
  import opened Install
  import opened Dashes
  import opened Misled
  import opened Progress
  import opened Backing
  import opened Runs
  import opened Updating

  // ---------------------------------------------------------------- the volume listed first

  lemma {:induction false} FirstParsed(vols: seq<Volume>, k: Kind, st: Status)
    requires vols != [] && DecodeStatus(vols[0].lvName) == Ok((k, st))
    ensures ParsedSlots(vols) != [] && ParsedSlots(vols)[0] == Slot(k, st, vols[0])
  {
    hide DecodeStatus;
    var init := vols[..|vols| - 1];
    if init != [] {
      FirstParsed(init, k, st);
    } else {
      assert ParsedSlots(init) == [];
    }
  }

  lemma AddSlotFirst(gs: seq<SlotGroup>, s: Slot)
    requires AddSlot(gs, s).Ok? && (gs != [] ==> VolumeGroup(gs[0]))
    ensures var gs' := AddSlot(gs, s).value;
            gs' != [] && VolumeGroup(gs'[0]) && StatusOf(gs'[0]) == if gs == [] then s.status else StatusOf(gs[0])
  {
  }

  /** The group of the first slot comes first. */
  lemma {:induction false} FirstGroup(slots: seq<Slot>)
    requires slots != [] && GroupSlots(slots).Ok?
    ensures var gs := GroupSlots(slots).value;
            gs != [] && VolumeGroup(gs[0]) && StatusOf(gs[0]) == slots[0].status
  {
    hide AddSlot, VolumeGroup;
    var init := slots[..|slots| - 1];
    if init != [] {
      FirstGroup(init);
    } else {
      assert GroupSlots(init) == Ok([]);
    }
    AddSlotFirst(GroupSlots(init).value, slots[|slots| - 1]);
  }

  lemma {:induction false} AttachKeepsFirst(gs: seq<SlotGroup>, boots: seq<BootEntry>)
    requires gs != [] && AttachBoots(gs, boots).Ok?
    ensures var gs' := AttachBoots(gs, boots).value; gs' != [] && gs'[0] == gs[0].(boot := gs'[0].boot)
  {
    if boots != [] {
      AttachKeepsFirst(gs, boots[..|boots| - 1]);
    }
  }

  /** A scan of a listing that starts with a slot finds the group of that slot first. */
  lemma ScanFirst(vols: seq<Volume>, kernel: Kernel, items: seq<BootctlItem>, k: Kind, st: Status)
    requires vols != [] && DecodeStatus(vols[0].lvName) == Ok((k, st)) && Scan(vols, kernel, items).Ok?
    ensures var gs := Scan(vols, kernel, items).value.slotgroups;
            gs != [] && HasVolume(gs[0]) && StatusOf(gs[0]) == st
  {
    hide DecodeStatus, GroupSlots, AttachBoots, ParsedSlots;
    FirstParsed(vols, k, st);
    FirstGroup(ParsedSlots(vols));
    AttachKeepsFirst(GroupSlots(ParsedSlots(vols)).value, ManagedEntries(items));
  }

  /** Every disk can be listed from any of its volumes on. */
  lemma ListableFrom(d: Disk, n: string) returns (vols: seq<Volume>, items: seq<BootctlItem>)
    requires n in d.lvs
    ensures Listing(d, vols, items) && vols != [] && vols[0].lvName == n
  {
    var d' := d.(lvs := d.lvs - {n});
    var rest;
    rest, items := Listable(d');
    vols := [Volume(n, d.vg, None)] + rest;
    forall x | x in d.lvs
      ensures exists i :: 0 <= i < |vols| && vols[i].lvName == x
    {
      if x == n {
        assert vols[0].lvName == x;
      } else {
        assert x in d'.lvs;
        var i :| 0 <= i < |rest| && rest[i].lvName == x;
        assert vols[i + 1].lvName == x;
      }
    }
    forall v | v in vols
      ensures VolumeOn(d, v)
    {
      assert v == vols[0] || v in rest;
    }
    forall i, j | 0 <= i < j < |vols|
      ensures vols[i].lvName != vols[j].lvName
    {
      assert vols[j] == rest[j - 1] && rest[j - 1] in rest && VolumeOn(d', rest[j - 1]);
      if i > 0 {
        assert vols[i] == rest[i - 1];
      }
    }
  }

  /** The first group of the scan is a complete empty pair: it is the one selected. */
  lemma FirstIsSelected(d: Disk, rt: Runtime, st: Status)
    requires Scanned(d, rt.slotgroups) && rt.slotgroups != [] && HasVolume(rt.slotgroups[0])
    requires StatusOf(rt.slotgroups[0]) == st && st.Empty? && HasLv(d, Root, st) && HasLv(d, Verity, st)
    ensures FirstEmpty(rt.slotgroups, rt.kernel) == Some(rt.slotgroups[0])
  {
    hide DecodeStatus, SlotName, ParseUki;
    assert Fits(d, rt.slotgroups[0]) && rt.slotgroups[0] in rt.slotgroups;
    assert Usable(rt.slotgroups[0], rt.kernel);
  }

  /** Any complete empty pair of a disk may be the one that an install selects. */
  lemma AnyPairSelected(d: Disk, kernel: Kernel, st: Status) returns (rt: Runtime)
    requires !DoubleUki(d) && st.Empty? && HasLv(d, Root, st) && HasLv(d, Verity, st)
    ensures Sees(d, kernel, rt) && FirstEmpty(rt.slotgroups, rt.kernel).Some?
    ensures var g := FirstEmpty(rt.slotgroups, rt.kernel).value; HasVolume(g) && StatusOf(g) == st
  {
    hide DecodeStatus, SlotName, ParseUki, Scan, Listing, FirstEmpty, DoubleUki;
    var vols, items := ListableFrom(d, SlotName(Root, st));
    PrintThenDecode(Root, st);
    ScanExact(d, vols, kernel, items);
    ScanFirst(vols, kernel, items, Root, st);
    rt := Scan(vols, kernel, items).value;
    FirstIsSelected(d, rt, st);
  }

  lemma TwinMayBeSelected(d: Disk, kernel: Kernel, id: string) returns (rt: Runtime)
    requires !DoubleUki(d) && '-' !in d.vg && '-' in id && Twinned(d, id)
    ensures Sees(d, kernel, rt) && TwinOf(d, rt, id)
  {
    hide DecodeStatus, SlotName, ParseUki, DoubleUki, FirstEmpty, Escaped, Sees;
    EscapedMember(id, '_');
    rt := AnyPairSelected(d, kernel, Empty(Known(Escaped(id))));
    SeesFacts(d, kernel, rt);
    IdTextOf(d, rt, Escaped(id));
  }

  lemma IdTextOf(d: Disk, rt: Runtime, id: string)
    requires Scanned(d, rt.slotgroups) && FirstEmpty(rt.slotgroups, rt.kernel).Some?
    requires var g := FirstEmpty(rt.slotgroups, rt.kernel).value; HasVolume(g) && StatusOf(g) == Empty(Known(id))
    ensures FirstEmpty(rt.slotgroups, rt.kernel).value.EmptyIdText() == Some(id)
  {
  }

  /** That no pair has a twin is exactly that no scan, in whatever order, selects one that has. */
  lemma UnaliasedIff(d: Disk, kernel: Kernel)
    requires !DoubleUki(d)
    ensures Unaliased(d) <==> forall rt | Sees(d, kernel, rt) :: !SelectedTwin(d, rt)
  {
    hide DoubleUki, TwinOf, Sees, Twinned;
    if !Unaliased(d) {
      var id :| '-' in id && Twinned(d, id);
      var rt := TwinMayBeSelected(d, kernel, id);
      assert SelectedTwin(d, rt);
    } else {
      forall rt | Sees(d, kernel, rt)
        ensures !SelectedTwin(d, rt)
      {
        UnaliasedSelection(d, rt);
      }
    }
  }

  // ---------------------------------------------------------------- a machine with twins

  /** The booted version with its image, an empty pair with a dash, large enough for `m`, and its twin. */
  function TwinDisk(vg: string, v: Version, image: string, id: string, m: Manifest): Disk
    requires m.store.unpackedSize.Some? && m.verity.unpackedSize.Some?
  {
    Disk(vg,
         map[SlotName(Root, Used(v)) := Lv([], true), SlotName(Verity, Used(v)) := Lv([], true),
             EmptyVolume(Root, Escaped(id)) := Lv([], true), EmptyVolume(Verity, Escaped(id)) := Lv([], true),
             EmptyVolume(Root, id) := Lv(Zeros(m.store.unpackedSize.value), true),
             EmptyVolume(Verity, id) := Lv(Zeros(m.verity.unpackedSize.value), true)],
         map[image := BootFile([], true)], {})
  }

  lemma TwinDiskNames(v: Version, id: string, t: Version)
    requires Printable(Used(v)) && Printable(Empty(Known(id))) && '-' in id && Printable(Used(t)) && t != v
    ensures forall k :: DecodeStatus(SlotName(k, Used(v))) == Ok((k, Used(v)))
    ensures forall k :: DecodeStatus(SlotName(k, Used(t))) == Ok((k, Used(t)))
    ensures forall k :: DecodeStatus(EmptyVolume(k, id)) == Ok((k, Empty(Known(id))))
    ensures forall k :: DecodeStatus(EmptyVolume(k, Escaped(id))) == Ok((k, Empty(Known(Escaped(id)))))
    ensures Escaped(id) != id
  {
    hide DecodeStatus, SlotName, Escaped;
    EscapedNoDash(id);
    EscapedMember(id, '_');
    forall k: Kind
      ensures DecodeStatus(SlotName(k, Used(v))) == Ok((k, Used(v)))
      ensures DecodeStatus(SlotName(k, Used(t))) == Ok((k, Used(t)))
      ensures DecodeStatus(EmptyVolume(k, id)) == Ok((k, Empty(Known(id))))
      ensures DecodeStatus(EmptyVolume(k, Escaped(id))) == Ok((k, Empty(Known(Escaped(id)))))
    {
      PrintThenDecode(k, Used(v));
      PrintThenDecode(k, Used(t));
      PrintThenDecode(k, Empty(Known(id)));
      PrintThenDecode(k, Empty(Known(Escaped(id))));
    }
  }

  lemma DeclaredSizes(src: Sources, m: Manifest, source: string)
    requires |m.rootVerityHash| >= 16 && Feasible(src, m, source)
    ensures m.store.unpackedSize.Some? && m.verity.unpackedSize.Some?
  {
  }

  lemma TwinDiskFacts(src: Sources, vg: string, v: Version, image: string, id: string, m: Manifest, source: string)
    requires Printable(Used(v)) && IsUki(image, v) && Printable(Empty(Known(id))) && '-' in id
    requires WellFormed(m) && m.ToVersion() != v && Feasible(src, m, source)
    ensures var d := TwinDisk(vg, v, image, id, m);
            && FlushedLv(d, Root, v) && FlushedLv(d, Verity, v) && AllFlushed(d) && HasUki(d, image, v)
            && !DoubleUki(d) && NoVolumes(d, m.ToVersion()) && Twinned(d, id) && TwinsFit(src, d, m, source, id)
  {
    hide DecodeStatus, SlotName, Escaped, ParseUki, Feasible, Fitting;
    DeclaredSizes(src, m, source);
    TwinDiskNames(v, id, m.ToVersion());
    FitsZeros(src, TwinDisk(vg, v, image, id, m), m, source, id);
  }

  lemma FitsZeros(src: Sources, d: Disk, m: Manifest, source: string, id: string)
    requires WellFormed(m) && Feasible(src, m, source) && Twinned(d, id)
    requires m.store.unpackedSize.Some? && |d.lvs[EmptyVolume(Root, id)].data| == m.store.unpackedSize.value
    requires m.verity.unpackedSize.Some? && |d.lvs[EmptyVolume(Verity, id)].data| == m.verity.unpackedSize.value
    ensures TwinsFit(src, d, m, source, id)
  {
    hide DecodeStatus, SlotName, Escaped, Twinned;
    TwinPrintable(d, id);
  }

  /**
   * So it does happen: on a machine that is up, for every version whose files are as declared, an install that
   * succeeds and leaves a kernel image whose volumes were never written.
   */
  lemma MisledMachine(src: Sources, kernel: Kernel, vg: string, image: string, id: string, m: Manifest, source: string)
    returns (d: Disk, rt: Runtime, ds: seq<Disk>, n: nat)
    requires KernelVersion(kernel).Some? && Printable(Used(KernelVersion(kernel).value))
    requires IsUki(image, KernelVersion(kernel).value)
    requires '-' !in vg && '-' in id && Printable(Empty(Known(id)))
    requires WellFormed(m) && m.ToVersion() != KernelVersion(kernel).value && Feasible(src, m, source)
    ensures Sees(d, kernel, rt) && Up(d, rt) && TwinOf(d, rt, id) && InstallPlan(rt, m, source).Ok?
    ensures FullTrace(src, InstallPlan(rt, m, source).value, d, ds) && PreparedAt(InstallPlan(rt, m, source).value, n)
    ensures forall i | 0 <= i < n :: InstallPlan(rt, m, source).value[i].Lvresize?
    ensures HasUki(ds[|ds| - 1], UkiName(UkiEntry(m.ToVersion(), None)), m.ToVersion())
    ensures Unwritten(ds[n], EmptyVolume(Root, Escaped(id)), ds[|ds| - 1], SlotName(Root, Used(m.ToVersion())))
    ensures Unwritten(ds[n], EmptyVolume(Verity, Escaped(id)), ds[|ds| - 1], SlotName(Verity, Used(m.ToVersion())))
  {
    hide DecodeStatus, SlotName, ParseUki, UkiName, Escaped, InstallPlan, Feasible, Scan, Up, Listing, FlushedLv,
      AllFlushed, DoubleUki, NoVolumes, HasUki, Twinned, TwinsFit, Unwritten, FirstEmpty, Done, Scans, Sees;
    var v := KernelVersion(kernel).value;
    DeclaredSizes(src, m, source);
    d := TwinDisk(vg, v, image, id, m);
    TwinDiskFacts(src, vg, v, image, id, m, source);
    StartedScans(Machine(d, kernel), v);
    rt := TwinMayBeSelected(d, kernel, id);
    SeesUp(Machine(d, kernel), rt);
    PlanExists(src, d, kernel, rt, m, source);
    ds := MisledCanComplete(src, d, kernel, rt, m, source, id, [d]);
    n := MisledInstall(src, d, kernel, rt, m, source, id, ds);
  }
}
