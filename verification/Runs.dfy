/** Whole runs of a machine: installs, removals and power cycles in any order, each stopping anywhere. */
module Runs {
  import opened Wrappers
  import opened Slots
  import opened Uki
  import opened Groups
  import opened Runtime
  import opened Plan
  import opened Disk
  import opened Inventory
  import opened Frame
  import opened Install
  import opened CrashSafety
  import opened Dashes
  import opened Retry
  import opened Remove
  import opened Backing

  datatype Machine = Machine(disk: Disk, kernel: Kernel)

  /** One scan: exactly one active group, with both volumes, on stable storage. */
  ghost predicate Up(d: Disk, rt: Runtime) {
    ActiveSlot(rt).Ok? && Settled(d, ActiveSlot(rt).value) && ActiveSlot(rt).value.IsComplete()
  }

  /** Every scan succeeds and finds the machine up. */
  ghost predicate Scans(m: Machine) {
    forall vols, items | Listing(m.disk, vols, items) ::
      Scan(vols, m.kernel, items).Ok? && Up(m.disk, Scan(vols, m.kernel, items).value)
  }

  ghost predicate Healthy(m: Machine) {
    EntriesApart(m.disk) && Unaliased(m.disk) && Backed(m.disk) && Scans(m)
  }

  datatype Event =
    | Installs(src: Sources, rt: Runtime, manifest: Manifest, source: string, ds: seq<Disk>)
    | Uninstalls(src: Sources, rt: Runtime, version: Version, ds: seq<Disk>)
    | PowerCycle

  /** The firmware starts any image on the boot partition, a type 1 entry with its system, or what ran before. */
  ghost predicate Starts(before: Kernel, d: Disk, kernel: Kernel) {
    || kernel == before
    || (KernelVersion(kernel).Some? && exists id :: HasUki(d, id, KernelVersion(kernel).value))
    || (KernelVersion(kernel).None? && d.type1 != {} && exists v :: LegacySystem(d, v))
  }

  /** Boot counting: an image may get another name that tells of the same version; its contents stay. */
  ghost predicate Recounts(d: Disk, d': Disk, id: string, id': string) {
    && id in d.esp && id' !in d.esp && ParseUki(id).Ok? && ParseUki(id').Ok?
    && ParseUki(id').value.version == ParseUki(id).value.version
    && d' == d.(esp := (d.esp - {id})[id' := d.esp[id]])
  }

  ghost predicate Recounted(d: Disk, d': Disk) {
    d' == d || exists id, id' :: Recounts(d, d', id, id')
  }

  /** Power goes and comes back. */
  ghost predicate Cycled(d: Disk, d': Disk) {
    exists x :: PowerLoss(d, x) && Recounted(x, d')
  }

  ghost predicate Step(m: Machine, e: Event, m': Machine) {
    match e
    case Installs(src, rt, manifest, source, ds) =>
      && m'.kernel == m.kernel && Sees(m.disk, m.kernel, rt)
      && WellFormed(manifest) && InstallPlan(rt, manifest, source).Ok?
      && StopsIn(src, InstallPlan(rt, manifest, source).value, ds, m'.disk) && ds[0] == m.disk
    case Uninstalls(src, rt, version, ds) =>
      && m'.kernel == m.kernel && Sees(m.disk, m.kernel, rt) && RemovePlan(rt, version).Ok?
      && StopsIn(src, RemovePlan(rt, version).value, ds, m'.disk) && ds[0] == m.disk
    case PowerCycle => Cycled(m.disk, m'.disk) && Starts(m.kernel, m'.disk, m'.kernel)
  }

  // ---------------------------------------------------------------- scans exist

  lemma {:induction false} Enumerate(s: set<string>) returns (q: seq<string>)
    ensures (forall x :: x in q <==> x in s) && forall i, j | 0 <= i < j < |q| :: q[i] != q[j]
  {
    if s == {} {
      q := [];
    } else {
      var x :| x in s;
      var rest := Enumerate(s - {x});
      q := rest + [x];
    }
  }

  /** Every disk can be listed, so statements about all scans are about at least one. */
  lemma Listable(d: Disk) returns (vols: seq<Volume>, items: seq<BootctlItem>)
    ensures Listing(d, vols, items)
  {
    var names := Enumerate(d.lvs.Keys);
    var ids := Enumerate(d.esp.Keys);
    vols := seq(|names|, i requires 0 <= i < |names| => Volume(names[i], d.vg, None));
    items := seq(|ids|, i requires 0 <= i < |ids| => BootctlItem("type2", ids[i]));
    forall n | n in d.lvs
      ensures exists i :: 0 <= i < |vols| && vols[i].lvName == n
    {
      assert n in names;
      var i :| 0 <= i < |names| && names[i] == n;
      assert vols[i].lvName == n;
    }
    forall id | id in d.esp
      ensures BootctlItem("type2", id) in items
    {
      assert id in ids;
      var i :| 0 <= i < |ids| && ids[i] == id;
      assert items[i] == BootctlItem("type2", id);
    }
  }

  lemma SeesUp(m: Machine, rt: Runtime)
    requires Scans(m) && Sees(m.disk, m.kernel, rt)
    ensures Up(m.disk, rt)
  {
    var vols, items :| Listing(m.disk, vols, items) && Scan(vols, m.kernel, items) == Ok(rt);
  }

  // ---------------------------------------------------------------- installs

  lemma InstallApart(src: Sources, d: Disk, plan: seq<Pipeline>, ds: seq<Disk>, x: Disk, t: Version)
    requires EntriesApart(d) && StopsIn(src, plan, ds, x) && ds[0] == d && AllSafe(plan, d.vg, t, {})
    requires Readable(UkiEntry(t, None)) && forall c | c in plan :: !c.BootctlUnlink?
    ensures EntriesApart(x)
  {
    hide ParseUki, UkiName, SafeFor, Done, Interrupted;
    PrintThenParse(UkiEntry(t, None));
    ImagesAdded(src, plan, ds, x, t);
  }

  lemma ImageStep(src: Sources, d: Disk, c: Pipeline, d': Disk, t: Version)
    requires SafeFor(c, d.vg, t, {}) && !c.BootctlUnlink? && (Done(src, d, c, d') || Interrupted(src, d, c, d'))
    ensures d'.esp.Keys <= d.esp.Keys + {UkiName(UkiEntry(t, None))} && d'.type1 == d.type1 && d'.vg == d.vg
  {
    hide ParseUki, UkiName, DecodeStatus, EspName;
    EspStep(src, d, c, d');
  }

  lemma {:induction false} ImagesAdded(src: Sources, plan: seq<Pipeline>, ds: seq<Disk>, x: Disk, t: Version)
    requires StopsIn(src, plan, ds, x) && AllSafe(plan, ds[0].vg, t, {}) && forall c | c in plan :: !c.BootctlUnlink?
    ensures x.esp.Keys <= ds[0].esp.Keys + {UkiName(UkiEntry(t, None))} && x.type1 == ds[0].type1 && x.vg == ds[0].vg
    decreases |ds|
  {
    hide UkiName, SafeFor, Done, Interrupted;
    var last := ds[|ds| - 1];
    if |ds| > 1 {
      var before, k := ds[..|ds| - 1], |ds| - 2;
      assert Done(src, ds[k], plan[k], ds[k + 1]) && plan[k] in plan;
      assert StopsIn(src, plan, before, ds[k]);
      ImagesAdded(src, plan, before, ds[k], t);
      ImageStep(src, ds[k], plan[k], ds[k + 1], t);
    }
    if x != last {
      assert plan[|ds| - 1] in plan;
      ImageStep(src, last, plan[|ds| - 1], x, t);
    }
  }

  lemma InstallNoUnlink(d: Disk, kernel: Kernel, rt: Runtime, m: Manifest, source: string)
    requires Sees(d, kernel, rt) && WellFormed(m) && InstallPlan(rt, m, source).Ok?
    ensures forall c | c in InstallPlan(rt, m, source).value :: !c.BootctlUnlink?
  {
    hide InstallPlan, SelectUpdateSlot;
    if SelectUpdateSlot(rt, m) == Ok(AlreadyInstalled) {
      NoPlan(rt, m, source);
    } else {
      var j, pre, tail := SelectedPlanShape(d, kernel, rt, m, source);
      PlanNoUnlink(d, j, pre, rt.slotgroups, tail);
    }
  }

  lemma InstallDisk(src: Sources, d: Disk, kernel: Kernel, rt: Runtime, m: Manifest, source: string, ds: seq<Disk>,
                    x: Disk)
    requires EntriesApart(d) && Unaliased(d) && Backed(d)
    requires Sees(d, kernel, rt) && WellFormed(m) && InstallPlan(rt, m, source).Ok?
    requires StopsIn(src, InstallPlan(rt, m, source).value, ds, x) && ds[0] == d
    ensures EntriesApart(x) && Unaliased(x) && Backed(x)
  {
    hide InstallPlan, ParseUki, UkiName, SlotName, DecodeStatus, EntriesApart, Unaliased, Backed, Done, Interrupted,
      SafeFor, FlushedLv, SelectUpdateSlot, SelectedTwin;
    var t, plan := m.ToVersion(), InstallPlan(rt, m, source).value;
    if SelectUpdateSlot(rt, m) == Ok(AlreadyInstalled) {
      NothingPlanned(src, rt, m, source, ds, x);
    } else {
      InstallPlanSafe(d, kernel, rt, m, source);
      InstallNoUnlink(d, kernel, rt, m, source);
      InstallApart(src, d, plan, ds, x, t);
      InstallDashless(d, kernel, rt, m, source);
      DashlessStop(src, plan, ds, x);
      NoImageYet(d, kernel, rt, m);
      SafeStop(src, plan, ds, x, t);
      UnaliasedSelection(d, rt);
      forall id | HasUki(x, id, t)
        ensures FlushedLv(x, Root, t) && FlushedLv(x, Verity, t)
      {
        InstallBacks(src, d, kernel, rt, m, source, ds, x, id);
      }
      BackedOthers(d, x, t);
    }
  }

  /** An install that plans anything finds no image of its version, under whatever name. */
  lemma OwnOrInstalled(d: Disk, kernel: Kernel, rt: Runtime, m: Manifest)
    requires Sees(d, kernel, rt) && WellFormed(m) && Backed(d)
    ensures OwnUki(d, m.ToVersion()) || SelectUpdateSlot(rt, m) == Ok(AlreadyInstalled)
  {
    hide SelectUpdateSlot, Backed, ParseUki, UkiName;
    if SelectUpdateSlot(rt, m) != Ok(AlreadyInstalled) {
      NoImageYet(d, kernel, rt, m);
    }
  }

  // ---------------------------------------------------------------- removals

  lemma {:induction false} Type1Shrinks(src: Sources, plan: seq<Pipeline>, ds: seq<Disk>, x: Disk)
    requires StopsIn(src, plan, ds, x) && forall c | c in plan :: RemoveCommand(c)
    ensures x.type1 <= ds[0].type1
    decreases |ds|
  {
    var last := ds[|ds| - 1];
    if |ds| > 1 {
      var before, k := ds[..|ds| - 1], |ds| - 2;
      assert Done(src, ds[k], plan[k], ds[k + 1]) && plan[k] in plan;
      assert StopsIn(src, plan, before, ds[k]);
      Type1Shrinks(src, plan, before, ds[k]);
    }
    if x != last {
      assert plan[|ds| - 1] in plan;
    }
  }

  lemma RemoveDisk(src: Sources, d: Disk, kernel: Kernel, rt: Runtime, version: Version, ds: seq<Disk>, x: Disk)
    requires EntriesApart(d) && Unaliased(d) && Backed(d)
    requires Sees(d, kernel, rt) && RemovePlan(rt, version).Ok?
    requires StopsIn(src, RemovePlan(rt, version).value, ds, x) && ds[0] == d
    ensures EntriesApart(x) && Unaliased(x) && Backed(x)
  {
    hide RemovePlan, ParseUki, UkiName, SlotName, DecodeStatus, Unaliased, Backed, Done, Interrupted, SafeFor,
      FlushedLv, RemoveCommand, Unlinks, Renames;
    var r := RemoveShape(d, kernel, rt, version);
    var plan := RemovePlan(rt, version).value;
    SeesFacts(d, kernel, rt);
    RemovePlanSafe(d, kernel, rt, r);
    RemoveStops(src, plan, ds, x, r.v, d.type1);
    Type1Shrinks(src, plan, ds, x);
    RemoveDashless(rt, r, d.vg);
    DashlessStop(src, plan, ds, x);
    if id :| HasUki(x, id, r.v) {
      RemoveBacks(src, d, rt, r, ds, x, id);
    } else {
      BackedOthers(d, x, r.v);
    }
  }

  // ---------------------------------------------------------------- boot counting

  lemma RecountBacked(d: Disk, d': Disk, id: string, id': string)
    requires Backed(d) && EntriesApart(d) && Recounts(d, d', id, id')
    ensures Backed(d') && EntriesApart(d')
  {
    hide SlotName, ParseUki;
    forall a, v | HasUki(d', a, v)
      ensures FlushedLv(d', Root, v) && FlushedLv(d', Verity, v)
    {
      assert HasUki(d, if a == id' then id else a, v);
    }
  }

  /** The image of a version under its name before and after. */
  function Renamed(id: string, id': string, a: string): string {
    if a == id' then id else a
  }

  lemma RecountNoDouble(d: Disk, d': Disk, id: string, id': string)
    requires Recounts(d, d', id, id') && DoubleUki(d')
    ensures DoubleUki(d)
  {
    hide SlotName, ParseUki;
    var a, b, v :| HasUki(d', a, v) && HasUki(d', b, v) && a != b && HasLv(d', Root, Used(v));
    assert HasUki(d, Renamed(id, id', a), v) && HasUki(d, Renamed(id, id', b), v) && HasLv(d, Root, Used(v));
  }

  /** The same volumes, with the same contents, and an image of the same version with the same contents. */
  ghost predicate SameSystem(d: Disk, g: SlotGroup, d': Disk, g': SlotGroup) {
    && SameSlot(g.root, g'.root) && SameSlot(g.verity, g'.verity)
    && SameLv(d, g.root, d') && SameLv(d, g.verity, d')
    && (g.boot.Some? <==> g'.boot.Some?)
    && (g.boot.Some? ==>
          var a, b := g.boot.value, g'.boot.value;
          a.EntryVersion() == b.EntryVersion() && a.id in d.esp && b.id in d'.esp && d'.esp[b.id] == d.esp[a.id])
  }

  /** Every scan of `d'` succeeds and finds the system that was active on `d`. */
  ghost predicate StillRunning(d: Disk, rt: Runtime, d': Disk)
    requires ActiveSlot(rt).Ok?
  {
    forall vols, items | Listing(d', vols, items) ::
      var s := Scan(vols, rt.kernel, items);
      s.Ok? && ActiveSlot(s.value).Ok? && SameSystem(d, ActiveSlot(rt).value, d', ActiveSlot(s.value).value)
  }

  lemma ActiveRunning(d: Disk, rt: Runtime, d': Disk)
    requires ActiveSlot(rt).Ok? && StillActive(d, rt, d')
    ensures StillRunning(d, rt, d')
  {
    hide ActiveSlot, Scan, Listing;
  }

  lemma ImageBefore(d: Disk, d': Disk, id: string, id': string, b: string, v: Version)
    requires Recounts(d, d', id, id') && HasUki(d', b, v)
    ensures HasUki(d, Renamed(id, id', b), v)
  {
    hide ParseUki;
  }

  lemma RecountedImage(d: Disk, a: SlotGroup, d': Disk, g: SlotGroup, id: string, id': string, v: Version)
    requires VolumesFit(d, a) && VolumesFit(d', g) && a.root.Some?
    requires g.root.Some? && StatusOf(a) == Used(v) && StatusOf(g) == Used(v)
    requires Recounts(d, d', id, id') && !DoubleUki(d')
    ensures a.boot.Some? <==> g.boot.Some?
    ensures a.boot.Some? ==> a.boot.value.EntryVersion() == g.boot.value.EntryVersion() && a.boot.value.id in d.esp
                             && g.boot.value.id in d'.esp && d'.esp[g.boot.value.id] == d.esp[a.boot.value.id]
  {
    hide SlotName, ParseUki, DecodeStatus;
    if g.boot.Some? {
      ImageBefore(d, d', id, id', g.boot.value.id, v);
    }
    if a.boot.Some? {
      var b := a.boot.value.id;
      var b' := if b == id then id' else b;
      assert HasUki(d', b', v);
      assert g.boot.Some?;
      assert HasUki(d', g.boot.value.id, v);
      assert g.boot.value.id == b';
    }
  }

  lemma RecountedGroup(d: Disk, gs: seq<SlotGroup>, d': Disk, gs': seq<SlotGroup>, id: string, id': string, i: nat)
    returns (j: nat)
    requires Scanned(d, gs) && Scanned(d', gs') && Recounts(d, d', id, id') && i < |gs| && gs[i].root.Some?
    requires gs[i].GroupVersion().Some?
    ensures j < |gs'| && KeyOf(gs'[j]) == KeyOf(gs[i]) && SameSystem(d, gs[i], d', gs'[j])
  {
    hide SlotName, ParseUki, DecodeStatus;
    var a, v := gs[i], gs[i].GroupVersion().value;
    assert Fits(d, a) && HasLv(d', Root, Used(v));
    j := GroupOfStatus(d', gs', Root, Used(v));
    var g := gs'[j];
    assert Fits(d', g);
    ScannedNoDouble(d', gs');
    assert HasLv(d, Verity, Used(v)) <==> HasLv(d', Verity, Used(v));
    SlotNames(d, d', a.root.value, g.root.value);
    if a.verity.Some? {
      SlotNames(d, d', a.verity.value, g.verity.value);
    }
    RecountedImage(d, a, d', g, id, id', v);
  }

  lemma SameSystemActive(d: Disk, g: SlotGroup, d': Disk, g': SlotGroup, kernel: Kernel)
    requires SameSystem(d, g, d', g') && g.root.Some?
    ensures g.IsActive(kernel) <==> g'.IsActive(kernel)
  {
  }

  /** Whatever is active after an image got its new name was active before. */
  lemma RecountedWas(d: Disk, rt: Runtime, d': Disk, rt': Runtime, id: string, id': string, i: nat, k: nat)
    requires Scanned(d, rt.slotgroups) && Scanned(d', rt'.slotgroups)
    requires Recounts(d, d', id, id') && rt'.kernel == rt.kernel
    requires i < |rt.slotgroups| && rt.slotgroups[i].IsActive(rt.kernel) && rt.slotgroups[i].root.Some?
    requires forall n | 0 <= n < |rt.slotgroups| && rt.slotgroups[n].IsActive(rt.kernel) :: n == i
    requires k < |rt'.slotgroups| && rt'.slotgroups[k].IsActive(rt.kernel)
    ensures KeyOf(rt'.slotgroups[k]) == KeyOf(rt.slotgroups[i])
  {
    hide SlotName, ParseUki, DecodeStatus;
    var g, a := rt'.slotgroups[k], rt.slotgroups[i];
    assert Fits(d', g) && Fits(d, a);
    var v := g.GroupVersion().value;
    assert HasLv(d', Root, Used(a.GroupVersion().value));
    if HasVolume(g) {
      var kind := if g.root.Some? then Root else Verity;
      assert HasLv(d, kind, Used(v));
      var n := GroupOfStatus(d, rt.slotgroups, kind, Used(v));
      assert Fits(d, rt.slotgroups[n]);
      assert rt.slotgroups[n].IsActive(rt.kernel);
    }
  }

  /**
   * A new counter in the name of an image changes nothing else: every scan succeeds and finds the active system,
   * its contents and its image as they were.
   */
  lemma RecountRuns(d: Disk, kernel: Kernel, rt: Runtime, d': Disk, id: string, id': string)
    requires Sees(d, kernel, rt) && Recounts(d, d', id, id') && ActiveSlot(rt).Ok? && ActiveSlot(rt).value.root.Some?
    ensures StillRunning(d, rt, d')
  {
    hide SlotName, ParseUki, DecodeStatus, Scan, ActiveSlot, Listing, Recounts, Scanned, SameSystem;
    SeesFacts(d, kernel, rt);
    var i := ActiveIndex(rt);
    if DoubleUki(d') {
      RecountNoDouble(d, d', id, id');
    }
    forall vols, items | Listing(d', vols, items)
      ensures var s := Scan(vols, rt.kernel, items);
              s.Ok? && ActiveSlot(s.value).Ok? && SameSystem(d, ActiveSlot(rt).value, d', ActiveSlot(s.value).value)
    {
      ScanExact(d', vols, kernel, items);
      ScanKernel(vols, kernel, items);
      RecountScan(d, rt, d', Scan(vols, kernel, items).value, id, id', i);
    }
  }

  lemma RecountScan(d: Disk, rt: Runtime, d': Disk, rt': Runtime, id: string, id': string, i: nat)
    requires Scanned(d, rt.slotgroups) && Scanned(d', rt'.slotgroups)
    requires Recounts(d, d', id, id') && rt'.kernel == rt.kernel
    requires i < |rt.slotgroups| && rt.slotgroups[i].root.Some?
    requires forall n | 0 <= n < |rt.slotgroups| :: rt.slotgroups[n].IsActive(rt.kernel) <==> n == i
    ensures ActiveSlot(rt').Ok? && SameSystem(d, rt.slotgroups[i], d', ActiveSlot(rt').value)
  {
    hide SlotName, ParseUki, DecodeStatus, ActiveSlot, Recounts, Scanned, SameSystem;
    var a := rt.slotgroups[i];
    assert a.IsActive(rt.kernel);
    var j := RecountedGroup(d, rt.slotgroups, d', rt'.slotgroups, id, id', i);
    SameSystemActive(d, a, d', rt'.slotgroups[j], rt.kernel);
    forall k | 0 <= k < |rt'.slotgroups|
      ensures rt'.slotgroups[k].IsActive(rt'.kernel) <==> k == j
    {
      if rt'.slotgroups[k].IsActive(rt'.kernel) {
        RecountedWas(d, rt, d', rt', id, id', i, k);
        SameKeySameIndex(d', rt'.slotgroups, j, k);
      }
    }
    ActiveByIndex(rt', j);
  }

  // ---------------------------------------------------------------- power cycles

  ghost predicate AllFlushed(d: Disk) {
    (forall n | n in d.lvs :: d.lvs[n].flushed) && (forall id | id in d.esp :: d.esp[id].synced)
  }

  lemma AllSettled(d: Disk, g: SlotGroup)
    requires Fits(d, g) && AllFlushed(d)
    ensures Settled(d, g)
  {
  }

  lemma CycledFlushed(d: Disk, d': Disk)
    requires Cycled(d, d')
    ensures AllFlushed(d')
  {
    hide ParseUki;
    var x :| PowerLoss(d, x) && Recounted(x, d');
    assert forall n | n in x.lvs :: n in x.lvs.Keys;
  }

  /** Starting a version that has both volumes brings up its one complete group. */
  lemma StartedUp(d: Disk, rt: Runtime, v: Version)
    requires FlushedLv(d, Root, v) && FlushedLv(d, Verity, v) && AllFlushed(d)
    requires KernelVersion(rt.kernel) == Some(v) && Scanned(d, rt.slotgroups)
    ensures Up(d, rt)
  {
    hide DecodeStatus, SlotName, ParseUki, UkiName;
    var gs := rt.slotgroups;
    var i := GroupOfStatus(d, gs, Root, Used(v));
    assert Fits(d, gs[i]);
    forall k | 0 <= k < |gs|
      ensures gs[k].IsActive(rt.kernel) <==> k == i
    {
      if gs[k].IsActive(rt.kernel) {
        assert Fits(d, gs[k]);
        assert KeyOf(gs[k]) == ByStatus(Used(v));
        SameKeySameIndex(d, gs, i, k);
      }
    }
    ActiveByIndex(rt, i);
    AllSettled(d, gs[i]);
  }

  /** Starting a kernel without a revision brings up the one complete group without a hash. */
  lemma LegacyUp(d: Disk, rt: Runtime, v: Version)
    requires LegacySystem(d, v) && AllFlushed(d) && KernelVersion(rt.kernel).None? && Scanned(d, rt.slotgroups)
    ensures Up(d, rt)
  {
    hide DecodeStatus, SlotName, ParseUki, UkiName;
    var gs := rt.slotgroups;
    var i := GroupOfStatus(d, gs, Root, Used(v));
    assert Fits(d, gs[i]);
    forall k | 0 <= k < |gs|
      ensures gs[k].IsActive(rt.kernel) <==> k == i
    {
      if gs[k].IsActive(rt.kernel) {
        assert Fits(d, gs[k]);
        LegacyGroup(d, gs[k], v);
        SameKeySameIndex(d, gs, i, k);
      }
    }
    ActiveByIndex(rt, i);
    AllSettled(d, gs[i]);
  }

  lemma LegacyGroup(d: Disk, g: SlotGroup, v: Version)
    requires LegacySystem(d, v) && Fits(d, g) && g.GroupVersion().Some? && g.IsLegacy()
    ensures KeyOf(g) == ByStatus(Used(v))
  {
    hide DecodeStatus, SlotName, ParseUki;
    var w := g.GroupVersion().value;
    assert HasLv(d, if g.root.Some? then Root else Verity, Used(w));
  }

  lemma ScanKernel(vols: seq<Volume>, kernel: Kernel, items: seq<BootctlItem>)
    requires Scan(vols, kernel, items).Ok?
    ensures Scan(vols, kernel, items).value.kernel == kernel
  {
  }

  lemma UpFacts(d: Disk, rt: Runtime)
    requires Up(d, rt)
    ensures ActiveSlot(rt).Ok? && Settled(d, ActiveSlot(rt).value) && ActiveSlot(rt).value.root.Some?
    ensures forall t :: Spares(rt, t)
  {
    hide ActiveSlot;
  }

  /** A healthy machine can be scanned, so no image is doubled. */
  lemma ScansNoDouble(m: Machine)
    requires Scans(m)
    ensures !DoubleUki(m.disk)
  {
    hide Scan, Up, Listing, DoubleUki;
    var vols, items := Listable(m.disk);
    ScanExact(m.disk, vols, m.kernel, items);
  }

  lemma CycledNoDouble(d: Disk, d': Disk)
    requires Cycled(d, d') && !DoubleUki(d)
    ensures !DoubleUki(d')
  {
    hide ParseUki, SlotName, DoubleUki, PowerLoss, Recounts;
    var x :| PowerLoss(d, x) && Recounted(x, d');
    if DoubleUki(d') {
      if d' != x {
        var id, id' :| Recounts(x, d', id, id');
        RecountNoDouble(x, d', id, id');
      }
      LossDouble(d, x);
    }
  }

  lemma CycledDisk(d: Disk, d': Disk)
    requires EntriesApart(d) && Unaliased(d) && Backed(d) && Cycled(d, d')
    ensures EntriesApart(d') && Unaliased(d') && Backed(d')
  {
    hide ParseUki, EntriesApart, Unaliased, Backed, PowerLoss, DecodeStatus, DashesFrom, Recounts;
    var x :| PowerLoss(d, x) && Recounted(x, d');
    LossApart(d, x);
    LossBacked(d, x);
    LossDashes(d, x);
    if d' != x {
      var id, id' :| Recounts(x, d', id, id');
      RecountBacked(x, d', id, id');
      RecountDashes(d, x, d', id, id');
    }
    StillUnaliased(d, d');
  }

  lemma LossDashes(d: Disk, x: Disk)
    requires PowerLoss(d, x)
    ensures DashesFrom(d, x)
  {
    hide DecodeStatus;
    forall n | n in x.lvs && EmptyName(n) && '-' in n
      ensures n in d.lvs
    {
      assert n in x.lvs.Keys;
    }
  }

  lemma RecountDashes(d: Disk, x: Disk, d': Disk, id: string, id': string)
    requires DashesFrom(d, x) && Recounts(x, d', id, id')
    ensures DashesFrom(d, d')
  {
    hide DecodeStatus, ParseUki;
  }

  lemma CycleRuns(m: Machine, d': Disk, rt: Runtime)
    requires Scans(m) && Sees(m.disk, m.kernel, rt) && Cycled(m.disk, d')
    ensures ActiveSlot(rt).Ok? && StillRunning(m.disk, rt, d')
  {
    hide ParseUki, SlotName, PowerLoss, Recounts, Scan, ActiveSlot, Listing, Up, StillActive, StillRunning, Settled,
      Spares;
    SeesUp(m, rt);
    UpFacts(m.disk, rt);
    var x :| PowerLoss(m.disk, x) && Recounted(x, d');
    LossKeepsActive(m.disk, m.kernel, rt, x);
    ActiveRunning(m.disk, rt, x);
    if d' != x {
      var id, id' :| Recounts(x, d', id, id');
      SeesFacts(m.disk, m.kernel, rt);
      var vols, items := Listable(x);
      StillRunningAt(m.disk, rt, x, vols, items);
      var rt' := Scan(vols, m.kernel, items).value;
      ScanKernel(vols, m.kernel, items);
      RecountRuns(x, m.kernel, rt', d', id, id');
      RunningTransitive(m.disk, rt, x, vols, items, d');
    }
  }

  lemma StillRunningAt(d: Disk, rt: Runtime, d': Disk, vols: seq<Volume>, items: seq<BootctlItem>)
    requires ActiveSlot(rt).Ok? && ActiveSlot(rt).value.root.Some?
    requires StillRunning(d, rt, d') && Listing(d', vols, items)
    ensures var s := Scan(vols, rt.kernel, items);
            s.Ok? && ActiveSlot(s.value).Ok? && ActiveSlot(s.value).value.root.Some? && Sees(d', rt.kernel, s.value)
  {
    hide Scan, ActiveSlot, Listing;
  }

  lemma RunningTransitive(d: Disk, rt: Runtime, e: Disk, vols: seq<Volume>, items: seq<BootctlItem>, f: Disk)
    requires ActiveSlot(rt).Ok? && StillRunning(d, rt, e) && Listing(e, vols, items)
    requires Scan(vols, rt.kernel, items).Ok? && ActiveSlot(Scan(vols, rt.kernel, items).value).Ok?
    requires Scan(vols, rt.kernel, items).value.kernel == rt.kernel
    requires StillRunning(e, Scan(vols, rt.kernel, items).value, f)
    ensures StillRunning(d, rt, f)
  {
    hide ActiveSlot, Scan, Listing;
  }

  lemma RunningUp(d: Disk, rt: Runtime, d': Disk, rt': Runtime)
    requires Up(d, rt) && ActiveSlot(rt').Ok? && SameSystem(d, ActiveSlot(rt).value, d', ActiveSlot(rt').value)
    ensures Up(d', rt')
  {
    hide ActiveSlot;
  }

  /** A system still found after a step is up: it is complete, and its parts are as settled as they were. */
  lemma StillScans(m: Machine, rt: Runtime, d': Disk)
    requires Sees(m.disk, m.kernel, rt) && Up(m.disk, rt) && StillRunning(m.disk, rt, d')
    ensures Scans(Machine(d', m.kernel))
  {
    hide Up, Scan, ActiveSlot, SameSystem, Listing;
    SeesFacts(m.disk, m.kernel, rt);
    forall vols, items | Listing(d', vols, items)
      ensures Scan(vols, m.kernel, items).Ok? && Up(d', Scan(vols, m.kernel, items).value)
    {
      RunningUp(m.disk, rt, d', Scan(vols, m.kernel, items).value);
    }
  }

  lemma BackedBy(d: Disk, id: string, v: Version)
    requires Backed(d) && HasUki(d, id, v)
    ensures FlushedLv(d, Root, v) && FlushedLv(d, Verity, v)
  {
  }

  lemma StartedScans(m: Machine, v: Version)
    requires FlushedLv(m.disk, Root, v) && FlushedLv(m.disk, Verity, v) && AllFlushed(m.disk) && !DoubleUki(m.disk)
    requires KernelVersion(m.kernel) == Some(v)
    ensures Scans(m)
  {
    hide DecodeStatus, SlotName, ParseUki, UkiName, FlushedLv, Up, Scan, Listing, AllFlushed, DoubleUki;
    forall vols, items | Listing(m.disk, vols, items)
      ensures Scan(vols, m.kernel, items).Ok? && Up(m.disk, Scan(vols, m.kernel, items).value)
    {
      ScanExact(m.disk, vols, m.kernel, items);
      ScanKernel(vols, m.kernel, items);
      StartedUp(m.disk, Scan(vols, m.kernel, items).value, v);
    }
  }

  lemma LegacyScans(m: Machine, v: Version)
    requires LegacySystem(m.disk, v) && AllFlushed(m.disk) && !DoubleUki(m.disk) && KernelVersion(m.kernel).None?
    ensures Scans(m)
  {
    hide DecodeStatus, SlotName, ParseUki, UkiName, LegacySystem, Up, Scan, Listing, AllFlushed, DoubleUki;
    forall vols, items | Listing(m.disk, vols, items)
      ensures Scan(vols, m.kernel, items).Ok? && Up(m.disk, Scan(vols, m.kernel, items).value)
    {
      ScanExact(m.disk, vols, m.kernel, items);
      ScanKernel(vols, m.kernel, items);
      LegacyUp(m.disk, Scan(vols, m.kernel, items).value, v);
    }
  }

  lemma CycleScans(m: Machine, m': Machine)
    requires Healthy(m) && Step(m, PowerCycle, m') && Backed(m'.disk)
    ensures Scans(m')
  {
    hide DecodeStatus, SlotName, ParseUki, UkiName, EntriesApart, Unaliased, Backed, Up, Scan, Cycled, DoubleUki,
      AllFlushed, StillRunning, Listing, ActiveSlot, LegacySystem;
    if m'.kernel == m.kernel {
      var vols, items := Listable(m.disk);
      var rt := Scan(vols, m.kernel, items).value;
      SeesUp(m, rt);
      CycleRuns(m, m'.disk, rt);
      StillScans(m, rt, m'.disk);
    } else {
      ScansNoDouble(m);
      CycledNoDouble(m.disk, m'.disk);
      CycledFlushed(m.disk, m'.disk);
      if KernelVersion(m'.kernel).Some? {
        var id :| HasUki(m'.disk, id, KernelVersion(m'.kernel).value);
        BackedBy(m'.disk, id, KernelVersion(m'.kernel).value);
        StartedScans(m', KernelVersion(m'.kernel).value);
      } else {
        var v :| LegacySystem(m'.disk, v);
        LegacyScans(m', v);
      }
    }
  }

  /** A machine that was set up with nothing pending and no image doubled, and started one of its images, is healthy. */
  lemma SetUpHealthy(d: Disk, kernel: Kernel, id: string)
    requires EntriesApart(d) && Unaliased(d) && Backed(d) && AllFlushed(d) && !DoubleUki(d)
    requires KernelVersion(kernel).Some? && HasUki(d, id, KernelVersion(kernel).value)
    ensures Healthy(Machine(d, kernel))
  {
    hide DecodeStatus, SlotName, ParseUki, UkiName, EntriesApart, Unaliased, Backed, AllFlushed, DoubleUki;
    BackedBy(d, id, KernelVersion(kernel).value);
    StartedScans(Machine(d, kernel), KernelVersion(kernel).value);
  }

  /** So is one that started its legacy system, whose kernel has no revision. */
  lemma LegacySetUpHealthy(d: Disk, kernel: Kernel, v: Version)
    requires EntriesApart(d) && Unaliased(d) && Backed(d) && AllFlushed(d) && !DoubleUki(d)
    requires KernelVersion(kernel).None? && LegacySystem(d, v)
    ensures Healthy(Machine(d, kernel))
  {
    hide EntriesApart, Unaliased, Backed, AllFlushed, DoubleUki, LegacySystem;
    LegacyScans(Machine(d, kernel), v);
  }

  /** There are healthy machines: for every well-formed version and image of it, the disk that holds just that. */
  lemma HealthyExists(kernel: Kernel, vg: string, id: string) returns (m: Machine)
    requires KernelVersion(kernel).Some? && Printable(Used(KernelVersion(kernel).value))
    requires IsUki(id, KernelVersion(kernel).value)
    ensures Healthy(m) && m.kernel == kernel && m.disk.vg == vg
  {
    hide DecodeStatus, SlotName, ParseUki, UkiName, Healthy, Escaped;
    var v := KernelVersion(kernel).value;
    var root, verity := SlotName(Root, Used(v)), SlotName(Verity, Used(v));
    var d := Disk(vg, map[root := Lv([], true), verity := Lv([], true)], map[id := BootFile([], true)], {});
    PrintThenDecode(Root, Used(v));
    PrintThenDecode(Verity, Used(v));
    NoEmptyUnaliased(d);
    assert HasUki(d, id, v);
    SetUpHealthy(d, kernel, id);
    m := Machine(d, kernel);
  }

  /** And for every legacy version with a type 1 entry. */
  lemma LegacyHealthyExists(kernel: Kernel, vg: string, id: string, v: Version) returns (m: Machine)
    requires KernelVersion(kernel).None? && Printable(Used(v)) && v.hash.None? && ParseUki(id).Err?
    ensures Healthy(m) && m.kernel == kernel && m.disk.vg == vg && m.disk.type1 == {id} && LegacySystem(m.disk, v)
  {
    hide DecodeStatus, SlotName, ParseUki, UkiName, Healthy, Escaped;
    var root, verity := SlotName(Root, Used(v)), SlotName(Verity, Used(v));
    var d := Disk(vg, map[root := Lv([], true), verity := Lv([], true)], map[], {id});
    PrintThenDecode(Root, Used(v));
    PrintThenDecode(Verity, Used(v));
    NoEmptyUnaliased(d);
    forall k, w: Version | w.hash.None? && HasLv(d, k, Used(w))
      ensures w == v
    {
      PrintThenDecode(k, Used(w));
    }
    LegacySetUpHealthy(d, kernel, v);
    m := Machine(d, kernel);
  }

  lemma NoEmptyUnaliased(d: Disk)
    requires forall n | n in d.lvs :: !EmptyName(n)
    ensures Unaliased(d)
  {
    hide DecodeStatus, SlotName, Escaped;
    forall id | Printable(Empty(Known(id)))
      ensures EmptyVolume(Root, id) !in d.lvs
    {
      PrintThenDecode(Root, Empty(Known(id)));
      assert EmptyName(EmptyVolume(Root, id));
    }
  }

  // ---------------------------------------------------------------- every step, every run

  /** No step that leaves the kernel alone changes what is running: it is found again, intact. */
  lemma StepKeepsActive(m: Machine, e: Event, m': Machine, rt: Runtime)
    requires Healthy(m) && Step(m, e, m') && m'.kernel == m.kernel && Sees(m.disk, m.kernel, rt)
    ensures ActiveSlot(rt).Ok? && StillRunning(m.disk, rt, m'.disk)
  {
    hide StillActive, StillRunning, Scans, EntriesApart, Backed, Unaliased, Up, Settled, InstallPlan, RemovePlan,
      ActiveSlot, Spares, StopsIn, Cycled, OwnUki, SelectUpdateSlot;
    SeesUp(m, rt);
    UpFacts(m.disk, rt);
    match e
    case Installs(src, seen, manifest, source, ds) =>
      SeesUp(m, seen);
      UpFacts(m.disk, seen);
      OwnOrInstalled(m.disk, m.kernel, seen, manifest);
      InstallCrashSafe(src, m.disk, m.kernel, seen, manifest, source, ds, m'.disk, m'.disk);
      AnyScan(m, seen, rt, m'.disk);
      ActiveRunning(m.disk, rt, m'.disk);
    case Uninstalls(src, seen, version, ds) =>
      SeesUp(m, seen);
      UpFacts(m.disk, seen);
      Apart(m.disk);
      var r := RemoveCrashSafe(src, m.disk, m.kernel, seen, version, ds, m'.disk, m'.disk);
      AnyScan(m, seen, rt, m'.disk);
      ActiveRunning(m.disk, rt, m'.disk);
    case PowerCycle =>
      CycleRuns(m, m'.disk, rt);
  }

  lemma Apart(d: Disk)
    requires EntriesApart(d)
    ensures d.esp.Keys !! d.type1
  {
  }

  /** Two scans of one disk agree on the active group. */
  lemma AnyScan(m: Machine, seen: Runtime, rt: Runtime, d': Disk)
    requires Scans(m) && Sees(m.disk, m.kernel, seen) && Sees(m.disk, m.kernel, rt)
    requires ActiveSlot(seen).Ok? && ActiveSlot(rt).Ok? && StillActive(m.disk, seen, d')
    ensures StillActive(m.disk, rt, d')
  {
    hide Scan, ActiveSlot, Settled, DecodeStatus, Listing;
    SeesUp(m, seen);
    UpFacts(m.disk, seen);
    SeesFacts(m.disk, m.kernel, seen);
    SeesFacts(m.disk, m.kernel, rt);
    LossKeepsActive(m.disk, m.kernel, seen, m.disk);
    var vols, items :| Listing(m.disk, vols, items) && Scan(vols, m.kernel, items) == Ok(rt);
    assert SameGroup(ActiveSlot(seen).value, ActiveSlot(rt).value);
  }

  /** Every step of every kind keeps the machine healthy. */
  lemma StepHealthy(m: Machine, e: Event, m': Machine)
    requires Healthy(m) && Step(m, e, m')
    ensures Healthy(m')
  {
    hide StillRunning, Scans, EntriesApart, Backed, Unaliased, Up, Settled, InstallPlan, RemovePlan, ActiveSlot, Spares,
      StopsIn, Cycled, Scan, Listing;
    match e
    case Installs(src, rt, manifest, source, ds) =>
      InstallDisk(src, m.disk, m.kernel, rt, manifest, source, ds, m'.disk);
      SeesUp(m, rt);
      StepKeepsActive(m, e, m', rt);
      StillScans(m, rt, m'.disk);
    case Uninstalls(src, rt, version, ds) =>
      RemoveDisk(src, m.disk, m.kernel, rt, version, ds, m'.disk);
      SeesUp(m, rt);
      StepKeepsActive(m, e, m', rt);
      StillScans(m, rt, m'.disk);
    case PowerCycle =>
      CycledDisk(m.disk, m'.disk);
      CycleScans(m, m');
  }

  ghost predicate Run(ms: seq<Machine>, es: seq<Event>) {
    |ms| == |es| + 1 && forall i | 0 <= i < |es| :: Step(ms[i], es[i], ms[i + 1])
  }

  /**
   * Safety of every run. However installs, removals and power cycles follow each other and wherever each
   * of them stops, every scan of every state succeeds, exactly one group is active, it is complete and on
   * stable storage, and every kernel image that could be started has both its volumes in place.
   */
  lemma {:induction false} RunHealthy(ms: seq<Machine>, es: seq<Event>, i: nat)
    requires Run(ms, es) && Healthy(ms[0]) && i < |ms|
    ensures Healthy(ms[i])
  {
    hide Healthy, Step;
    if i > 0 {
      RunHealthy(ms, es, i - 1);
      StepHealthy(ms[i - 1], es[i - 1], ms[i]);
    }
  }

  /**
   * As long as no other kernel is started, what is running stays: between any two states of a run the
   * active group is the same, with the same volumes, contents and image, under whatever name boot counting
   * has given the image.
   */
  lemma {:induction false} RunKeepsActive(ms: seq<Machine>, es: seq<Event>, i: nat, j: nat, rt: Runtime)
    requires Run(ms, es) && Healthy(ms[0]) && i <= j < |ms|
    requires (forall k | i <= k <= j :: ms[k].kernel == ms[i].kernel) && Sees(ms[i].disk, ms[i].kernel, rt)
    ensures ActiveSlot(rt).Ok? && StillRunning(ms[i].disk, rt, ms[j].disk)
    decreases j - i
  {
    hide Step, StillRunning, ActiveSlot, Scan, Listing, StillActive, Settled, Spares, Up;
    RunHealthy(ms, es, i);
    SeesUp(ms[i], rt);
    UpFacts(ms[i].disk, rt);
    if i == j {
      LossKeepsActive(ms[i].disk, ms[i].kernel, rt, ms[i].disk);
      ActiveRunning(ms[i].disk, rt, ms[i].disk);
    } else {
      StepKeepsActive(ms[i], es[i], ms[i + 1], rt);
      var vols, items := Listable(ms[i + 1].disk);
      SeesFacts(ms[i].disk, ms[i].kernel, rt);
      StillRunningAt(ms[i].disk, rt, ms[i + 1].disk, vols, items);
      var rt' := Scan(vols, ms[i].kernel, items).value;
      RunKeepsActive(ms, es, i + 1, j, rt');
      ScanKernel(vols, ms[i].kernel, items);
      RunningTransitive(ms[i].disk, rt, ms[i + 1].disk, vols, items, ms[j].disk);
    }
  }
}
