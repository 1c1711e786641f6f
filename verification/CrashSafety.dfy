/** Whatever happens during an install, the booted system stays. */
module CrashSafety {
  import opened Wrappers
  import opened Slots
  import opened Uki
  import opened Groups
  import opened Runtime
  import opened Plan
  import opened Disk
  import opened Inventory
  import opened Frame
  import opened Install

  lemma FromIsEmpty(j: Job, k: Kind)
    requires j.Valid()
    ensures EmptyName(j.From(k)) && EmptyDevice(DeviceFile(j.vg, j.From(k)), j.vg)
    ensures DecodeStatus(j.From(k)) == Ok((k, j.st)) && DecodeStatus(j.To(k)) == Ok((k, Used(j.m.ToVersion())))
  {
    PrintThenDecode(k, j.st);
    PrintThenDecode(k, Used(j.m.ToVersion()));
    var p := "/dev/mapper/" + j.vg + "-";
    assert DeviceFile(j.vg, j.From(k))[|p|..] == j.From(k);
    assert p <= DeviceFile(j.vg, j.From(k));
  }

  lemma UkiPathName(name: string)
    ensures EspName(UkiPath("/boot", name)) == if '/' in name then None else Some(name)
  {
    assert UkiPath("/boot", name) == "/boot/EFI/Linux/" + name;
    assert ("/boot/EFI/Linux/" + name)[|"/boot/EFI/Linux/"|..] == name;
  }

  lemma CoreSafe(j: Job)
    requires j.Valid()
    ensures AllSafe(j.Core(), j.vg, j.m.ToVersion(), {})
  {
    forall c | c in j.Core()
      ensures SafeFor(c, j.vg, j.m.ToVersion(), {})
    {
      var i :| 0 <= i < 7 && c == j.Core()[i];
      CoreStepSafe(j, i);
    }
  }

  lemma CoreStepSafe(j: Job, i: nat)
    requires j.Valid() && i < 7
    ensures SafeFor(j.Core()[i], j.vg, j.m.ToVersion(), {})
  {
    hide DecodeStatus, SlotName, ParseUki, UkiName, EspName, UkiPath, DeviceFile, EmptyDevice;
    FromIsEmpty(j, Root);
    FromIsEmpty(j, Verity);
    if i == 6 {
      var uki := UkiEntry(j.m.ToVersion(), None);
      PrintThenParse(uki);
      UkiPathName(UkiName(uki));
    }
  }

  lemma ResizeSafe(d: Disk, s: Slot, size: Option<nat>, vg: string, t: Version)
    requires SlotOn(d, s) && s.status.Empty?
    ensures AllSafe(ResizeStep(Some(s), size), vg, t, {})
  {
  }

  lemma GrowSafe(d: Disk, j: Job, pre: seq<Pipeline>, root: Slot, verity: Slot)
    requires j.Valid() && Grows(d, j, pre, root, verity)
    ensures AllSafe(pre, j.vg, j.m.ToVersion(), {})
  {
    ResizeSafe(d, root, j.m.store.unpackedSize, j.vg, j.m.ToVersion());
    ResizeSafe(d, verity, j.m.verity.unpackedSize, j.vg, j.m.ToVersion());
  }

  lemma CreateSafe(d: Disk, j: Job, pre: seq<Pipeline>, r: nat, v: nat)
    requires j.Valid() && Creates(d, j, pre, r, v)
    ensures AllSafe(pre, j.vg, j.m.ToVersion(), {})
  {
    hide DecodeStatus, SlotName, ParseUki, UkiName;
    FromIsEmpty(j, Root);
    FromIsEmpty(j, Verity);
    assert SafeFor(pre[0], j.vg, j.m.ToVersion(), {}) && SafeFor(pre[1], j.vg, j.m.ToVersion(), {});
  }

  lemma PrepareSafe(d: Disk, j: Job, pre: seq<Pipeline>, gs: seq<SlotGroup>)
    requires j.Valid() && Prepares(d, j, pre, gs)
    ensures AllSafe(pre, j.vg, j.m.ToVersion(), {})
  {
    if root, verity :| GrowsKnown(d, j, pre, gs, root, verity) {
      GrowSafe(d, j, pre, root, verity);
    } else {
      var r, v :| Creates(d, j, pre, r, v);
      CreateSafe(d, j, pre, r, v);
    }
  }

  lemma MigrationSafe(tail: seq<Pipeline>, vg: string, t: Version)
    requires Migrates(tail)
    ensures AllSafe(tail, vg, t, {})
  {
  }

  /** No command of an install plan can touch anything but empty slots and the new version. */
  lemma InstallPlanSafe(d: Disk, kernel: Kernel, rt: Runtime, m: Manifest, source: string)
    requires Sees(d, kernel, rt) && WellFormed(m) && InstallPlan(rt, m, source).Ok?
    ensures AllSafe(InstallPlan(rt, m, source).value, d.vg, m.ToVersion(), {})
  {
    hide DecodeStatus, SlotName, ParseUki, UkiName, SafeFor;
    if SelectUpdateSlot(rt, m) != Ok(AlreadyInstalled) {
      var j, pre, tail := SelectedPlanShape(d, kernel, rt, m, source);
      CoreSafe(j);
      PrepareSafe(d, j, pre, rt.slotgroups);
      MigrationSafe(tail, d.vg, m.ToVersion());
      var plan := InstallPlan(rt, m, source).value;
      forall c | c in plan
        ensures SafeFor(c, d.vg, m.ToVersion(), {})
      {
        assert c in pre || c in j.Core() || c in tail;
      }
    }
  }

  /** The booted version is not `t`, or is there with both volumes, as a running system is. */
  predicate Spares(rt: Runtime, t: Version)
    requires ActiveSlot(rt).Ok?
  {
    KernelVersion(rt.kernel) != Some(t) || ActiveSlot(rt).value.IsComplete()
  }

  /** The booted version is never installed a second time. */
  lemma SelectedNotBooted(rt: Runtime, m: Manifest)
    requires WellFormed(m) && ActiveSlot(rt).Ok? && Spares(rt, m.ToVersion())
    requires SelectUpdateSlot(rt, m) != Ok(AlreadyInstalled)
    ensures NotBooted(rt.kernel, m.ToVersion())
  {
    var i := ActiveIndex(rt);
    var g := rt.slotgroups[i];
    assert g in rt.slotgroups && g.IsActive(rt.kernel);
  }

  /** Every scan of `d'` succeeds and finds the active group of `rt`, which is as it was on `d`. */
  ghost predicate StillActive(d: Disk, rt: Runtime, d': Disk)
    requires ActiveSlot(rt).Ok?
  {
    && Intact(d, ActiveSlot(rt).value, d')
    && forall vols, items | Listing(d', vols, items) ::
         var s := Scan(vols, rt.kernel, items);
         s.Ok? && ActiveSlot(s.value).Ok? && SameGroup(ActiveSlot(rt).value, ActiveSlot(s.value).value)
  }

  lemma KeepsActive(d: Disk, kernel: Kernel, rt: Runtime, d': Disk, t: Version)
    requires Sees(d, kernel, rt) && ActiveSlot(rt).Ok? && Settled(d, ActiveSlot(rt).value)
    requires Keeps(d, d', t) && !DoubleUki(d') && NotBooted(kernel, t)
    ensures StillActive(d, rt, d')
  {
    hide DecodeStatus, SlotName, ParseUki, UkiName;
    SeesFacts(d, kernel, rt);
    var i := ActiveIndex(rt);
    assert Fits(d, rt.slotgroups[i]) && rt.slotgroups[i].IsActive(kernel);
    ActiveNotOf(d, rt.slotgroups[i], kernel, t);
    SettledIntact(d, rt.slotgroups[i], d', t);
    forall vols, items | Listing(d', vols, items)
      ensures var s := Scan(vols, rt.kernel, items);
              s.Ok? && ActiveSlot(s.value).Ok? && SameGroup(ActiveSlot(rt).value, ActiveSlot(s.value).value)
    {
      ScanExact(d', vols, kernel, items);
      ActiveSurvives(d, rt, d', Scan(vols, kernel, items).value, t);
    }
  }

  lemma NothingPlanned(src: Sources, rt: Runtime, m: Manifest, source: string, ds: seq<Disk>, x: Disk)
    requires |m.rootVerityHash| >= 16 && SelectUpdateSlot(rt, m) == Ok(AlreadyInstalled)
    requires StopsIn(src, InstallPlan(rt, m, source).value, ds, x)
    ensures x == ds[0]
  {
    hide SelectUpdateSlot;
  }

  lemma OtherVersion(kernel: Kernel) returns (t: Version)
    ensures NotBooted(kernel, t)
  {
    var r := match KernelVersion(kernel) case Some(v) => v.revision case None => "";
    t := Version(r + "x", Some(""));
    assert |t.revision| != |r|;
  }

  lemma LossDouble(d: Disk, d': Disk)
    requires DoubleUki(d') && (d' == d || PowerLoss(d, d'))
    ensures DoubleUki(d)
  {
    hide SlotName, ParseUki;
    var a, b, v :| HasUki(d', a, v) && HasUki(d', b, v) && a != b && HasLv(d', Root, Used(v));
    assert a in d'.esp.Keys && b in d'.esp.Keys && SlotName(Root, Used(v)) in d'.lvs.Keys;
    assert HasUki(d, a, v) && HasUki(d, b, v) && HasLv(d, Root, Used(v));
  }

  /** Losing power alone leaves a settled active group where it was. */
  lemma LossKeepsActive(d: Disk, kernel: Kernel, rt: Runtime, d': Disk)
    requires Sees(d, kernel, rt) && ActiveSlot(rt).Ok? && Settled(d, ActiveSlot(rt).value)
    requires d' == d || PowerLoss(d, d')
    ensures StillActive(d, rt, d') && !DoubleUki(d')
  {
    hide DecodeStatus, SlotName, ParseUki, UkiName;
    var t := OtherVersion(kernel);
    SeesFacts(d, kernel, rt);
    FrameThenLoss(d, d, d', t);
    if DoubleUki(d') {
      LossDouble(d, d');
    }
    KeepsActive(d, kernel, rt, d', t);
  }

  /**
   * Crash safety. Wherever an install plan stops, after any number of its steps, in the middle of one,
   * with or without a power loss, the active group is untouched and a new scan succeeds and finds it as
   * the one active slot. It takes that no image of the version has another name than the updater gives,
   * or that the version is installed already and nothing is planned.
   */
  lemma InstallCrashSafe(src: Sources, d: Disk, kernel: Kernel, rt: Runtime, m: Manifest, source: string,
                         ds: seq<Disk>, x: Disk, d': Disk)
    requires Sees(d, kernel, rt) && WellFormed(m) && InstallPlan(rt, m, source).Ok?
    requires OwnUki(d, m.ToVersion()) || SelectUpdateSlot(rt, m) == Ok(AlreadyInstalled)
    requires StopsIn(src, InstallPlan(rt, m, source).value, ds, x) && ds[0] == d && (d' == x || PowerLoss(x, d'))
    requires ActiveSlot(rt).Ok? && Settled(d, ActiveSlot(rt).value) && Spares(rt, m.ToVersion())
    ensures StillActive(d, rt, d')
    ensures Keeps(d, d', m.ToVersion()) && !DoubleUki(d')
  {
    hide DecodeStatus, SlotName, ParseUki, UkiName, SelectUpdateSlot, InstallPlan, Keeps, Settled, StillActive, Spares;
    hide OwnUki, Done, Interrupted, PowerLoss, Trace;
    var t := m.ToVersion();
    SeesFacts(d, kernel, rt);
    if SelectUpdateSlot(rt, m) == Ok(AlreadyInstalled) {
      NothingPlanned(src, rt, m, source, ds, x);
      FrameThenLoss(d, d, d', t);
      LossKeepsActive(d, kernel, rt, d');
    } else {
      InstallPlanSafe(d, kernel, rt, m, source);
      SafePlan(src, InstallPlan(rt, m, source).value, ds, x, d', t);
      StillNoDouble(d, d', t);
      SelectedNotBooted(rt, m);
      KeepsActive(d, kernel, rt, d', t);
    }
  }
}
