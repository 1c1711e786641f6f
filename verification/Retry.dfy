/** Installing the same version again after an install that stopped, and where that fails. */
module Retry {
  import opened Wrappers
  import opened Slots
  import opened Uki
  import opened Groups
  import opened Runtime
  import opened Plan
  import opened Disk
  import opened Inventory
  import opened Frame
  import opened Install
  import opened CrashSafety
  import opened Commit
  import opened Outcome

  /** Freshness as a property of the disk. */
  lemma FreshIff(d: Disk, gs: seq<SlotGroup>, t: Version)
    requires Scanned(d, gs)
    ensures FreshIn(gs, t) <==> Absent(d, t)
  {
    if FreshIn(gs, t) {
      FreshDisk(d, gs, t);
    } else {
      var g :| g in gs && g.GroupVersion() == Some(t);
      assert Fits(d, g);
      if !HasVolume(g) {
        assert HasUki(d, g.boot.value.id, t);
      }
    }
  }

  lemma NoRenameStep(src: Sources, d: Disk, c: Pipeline, d': Disk, n: string)
    requires Done(src, d, c, d') && (c.Lvrename? ==> c.from != n && c.to != n) && (c.Lvcreate? ==> c.name != n)
    ensures n in d.lvs <==> n in d'.lvs
  {
  }

  /** The name of a volume of the new version comes up only in the rename to it. */
  predicate Avoids(c: Pipeline, n: string) {
    (c.Lvrename? ==> c.from != n && c.to != n) && (c.Lvcreate? ==> c.name != n)
  }

  lemma {:induction false} AvoidingTrace(src: Sources, plan: seq<Pipeline>, ds: seq<Disk>, n: string, i: nat)
    requires Trace(src, plan, ds) && i < |ds| && forall k | 0 <= k < i :: Avoids(plan[k], n)
    ensures n in ds[0].lvs <==> n in ds[i].lvs
  {
    if i > 0 {
      AvoidingTrace(src, plan, ds, n, i - 1);
      NoRenameStep(src, ds[i - 1], plan[i - 1], ds[i], n);
    }
  }

  lemma ToDiffers(j: Job, k: Kind, k': Kind)
    requires j.Valid()
    ensures j.From(k) != j.To(k') && (k != k' ==> j.To(k) != j.To(k'))
  {
    FromIsEmpty(j, k);
    FromIsEmpty(j, k');
    Differ(j.From(k), j.To(k'));
    if k != k' {
      Differ(j.To(k), j.To(k'));
    }
  }

  lemma PrepareAvoids(d: Disk, j: Job, pre: seq<Pipeline>, gs: seq<SlotGroup>, k: Kind)
    requires j.Valid() && Prepares(d, j, pre, gs)
    ensures forall i | 0 <= i < |pre| :: Avoids(pre[i], j.To(k))
  {
    ToDiffers(j, Root, k);
    ToDiffers(j, Verity, k);
    if r, v :| GrowsKnown(d, j, pre, gs, r, v) {
      GrowAvoids(d, j, pre, r, v, j.To(k));
    } else {
      var r, v :| Creates(d, j, pre, r, v);
      CreateAvoids(pre, j.vg, j.From(Root), r, j.From(Verity), v, j.To(k));
    }
  }

  lemma GrowAvoids(d: Disk, j: Job, pre: seq<Pipeline>, r: Slot, v: Slot, n: string)
    requires Grows(d, j, pre, r, v)
    ensures forall i | 0 <= i < |pre| :: Avoids(pre[i], n)
  {
  }

  lemma CreateAvoids(pre: seq<Pipeline>, vg: string, a: string, r: nat, b: string, v: nat, n: string)
    requires pre == [Lvcreate(vg, a, r), Lvcreate(vg, b, v)] && a != n && b != n
    ensures forall i | 0 <= i < |pre| :: Avoids(pre[i], n)
  {
  }

  /** The step of the core that renames the volume of kind `k`. */
  function RenameAt(k: Kind): nat {
    if k == Root then 4 else 5
  }

  lemma CoreAvoids(j: Job, k: Kind, i: nat)
    requires j.Valid() && i < RenameAt(k)
    ensures Avoids(j.Core()[i], j.To(k))
  {
    ToDiffers(j, Root, k);
    ToDiffers(j, Root, Verity);
  }

  lemma StepAt(pre: seq<Pipeline>, core: seq<Pipeline>, tail: seq<Pipeline>, i: nat)
    requires i < |pre| + |core|
    ensures i < |pre + (core + tail)| && (pre + (core + tail))[i] == if i < |pre| then pre[i] else core[i - |pre|]
  {
  }

  lemma PlanAvoids(d: Disk, j: Job, pre: seq<Pipeline>, gs: seq<SlotGroup>, tail: seq<Pipeline>, k: Kind, i: nat)
    requires j.Valid() && Prepares(d, j, pre, gs) && i < |pre| + RenameAt(k)
    ensures i < |pre + (j.Core() + tail)| && Avoids((pre + (j.Core() + tail))[i], j.To(k))
  {
    hide DecodeStatus, SlotName, ParseUki, UkiName;
    StepAt(pre, j.Core(), tail, i);
    if i < |pre| {
      PrepareAvoids(d, j, pre, gs, k);
    } else {
      CoreAvoids(j, k, i - |pre|);
    }
  }

  lemma Collides(src: Sources, d: Disk, j: Job, pre: seq<Pipeline>, gs: seq<SlotGroup>, tail: seq<Pipeline>,
                 ds: seq<Disk>, k: Kind)
    requires j.Valid() && Prepares(d, j, pre, gs) && j.To(k) in d.lvs
    requires Trace(src, pre + (j.Core() + tail), ds) && ds[0] == d
    ensures |ds| <= |pre| + RenameAt(k) + 1
  {
    hide DecodeStatus, SlotName, ParseUki, UkiName;
    var plan, n := pre + (j.Core() + tail), |pre| + RenameAt(k);
    if |ds| > n + 1 {
      assert Done(src, ds[n], plan[n], ds[n + 1]);
      forall i | 0 <= i < n
        ensures Avoids(plan[i], j.To(k))
      {
        PlanAvoids(d, j, pre, gs, tail, k, i);
      }
      StepAt(pre, j.Core(), tail, n);
      AvoidingTrace(src, plan, ds, j.To(k), n);
    }
  }

  /**
   * Once a volume of the version exists, no install of that version can complete: its plan, if there is
   * any, fails at the rename. The version has to be removed first.
   */
  lemma RetryCollides(src: Sources, d: Disk, kernel: Kernel, rt: Runtime, m: Manifest, source: string, ds: seq<Disk>,
                      k: Kind)
    requires Sees(d, kernel, rt) && WellFormed(m) && InstallPlan(rt, m, source).Ok?
    requires SelectUpdateSlot(rt, m) != Ok(AlreadyInstalled)
    requires HasLv(d, k, Used(m.ToVersion()))
    requires Trace(src, InstallPlan(rt, m, source).value, ds) && ds[0] == d
    ensures |ds| <= |InstallPlan(rt, m, source).value|
  {
    hide DecodeStatus, SlotName, ParseUki, UkiName;
    var j, pre, tail := SelectedPlanShape(d, kernel, rt, m, source);
    Collides(src, d, j, pre, rt.slotgroups, tail, ds, k);
  }

  /** Both volumes renamed but no image yet: the version counts as installed, and nothing is planned to finish it. */
  lemma RetryPlansNothing(d: Disk, kernel: Kernel, rt: Runtime, m: Manifest, source: string)
    requires Sees(d, kernel, rt) && WellFormed(m)
    requires HasLv(d, Root, Used(m.ToVersion())) && HasLv(d, Verity, Used(m.ToVersion()))
    ensures InstallPlan(rt, m, source) == Ok([])
  {
    SeesFacts(d, kernel, rt);
    var i := GroupOfStatus(d, rt.slotgroups, Root, Used(m.ToVersion()));
    assert Fits(d, rt.slotgroups[i]);
    assert rt.slotgroups[i] in rt.slotgroups;
  }

  /** A run that has reached a rename of the core has changed a name for good. */
  lemma RenamedTrace(src: Sources, d: Disk, j: Job, pre: seq<Pipeline>, gs: seq<SlotGroup>, tail: seq<Pipeline>,
                     ds: seq<Disk>)
    requires j.Valid() && Prepares(d, j, pre, gs) && Migrates(tail)
    requires Trace(src, pre + (j.Core() + tail), ds) && ds[0] == d
    requires |ds| - 1 >= |pre| + 5
    ensures j.To(Root) in ds[|ds| - 1].lvs
  {
    hide DecodeStatus, SlotName, ParseUki, UkiName;
    var plan, n := pre + (j.Core() + tail), |pre| + 5;
    assert plan[n - 1] == j.Core()[4] == Lvrename(j.vg, j.From(Root), j.To(Root));
    assert Done(src, ds[n - 1], plan[n - 1], ds[n]);
    LaterAvoids(src, j, pre, tail, ds, |ds| - 1);
  }

  lemma {:induction false} LaterAvoids(src: Sources, j: Job, pre: seq<Pipeline>, tail: seq<Pipeline>, ds: seq<Disk>,
                                       i: nat)
    requires j.Valid() && Migrates(tail) && Trace(src, pre + (j.Core() + tail), ds)
    requires |pre| + 5 <= i < |ds| && j.To(Root) in ds[|pre| + 5].lvs
    ensures j.To(Root) in ds[i].lvs
  {
    if i > |pre| + 5 {
      LaterAvoids(src, j, pre, tail, ds, i - 1);
      var c := (pre + (j.Core() + tail))[i - 1];
      assert Done(src, ds[i - 1], c, ds[i]);
      assert Avoids(c, j.To(Root)) by {
        if i - 1 < |pre| + 7 {
          assert c == j.Core()[i - 1 - |pre|];
          ToDiffers(j, Verity, Root);
        } else {
          assert c in tail;
        }
      }
      NoRenameStep(src, ds[i - 1], c, ds[i], j.To(Root));
    }
  }

  ghost predicate Absent(d: Disk, t: Version) {
    !HasLv(d, Root, Used(t)) && !HasLv(d, Verity, Used(t)) && NoUki(d, t)
  }

  /** A rename of the plan has been done when it stops in `x`. */
  ghost predicate RenameDone(plan: seq<Pipeline>, ds: seq<Disk>, x: Disk)
    requires 1 <= |ds| <= |plan| + 1
  {
    || (exists i :: 0 <= i < |ds| - 1 && plan[i].Lvrename?)
    || (x != ds[|ds| - 1] && |ds| <= |plan| && plan[|ds| - 1].Lvrename?)
  }

  lemma TraceRenamed(src: Sources, d: Disk, j: Job, pre: seq<Pipeline>, gs: seq<SlotGroup>, tail: seq<Pipeline>,
                     ds: seq<Disk>)
    requires j.Valid() && Prepares(d, j, pre, gs) && Migrates(tail)
    requires Trace(src, pre + (j.Core() + tail), ds) && ds[0] == d
    requires Absent(d, j.m.ToVersion())
    ensures var plan, x := pre + (j.Core() + tail), ds[|ds| - 1];
            if RenameDone(plan, ds, x) then j.To(Root) in x.lvs else Absent(x, j.m.ToVersion())
  {
    hide DecodeStatus, SlotName, ParseUki, UkiName, Absent, Done;
    if |ds| - 1 >= |pre| + 5 {
      RenamedTrace(src, d, j, pre, gs, tail, ds);
      StepAt(pre, j.Core(), tail, |pre| + 4);
    } else {
      EarlyFresh(src, d, j, pre, gs, tail, ds);
    }
  }

  lemma OneMore(src: Sources, plan: seq<Pipeline>, ds: seq<Disk>, x: Disk)
    requires Trace(src, plan, ds) && |ds| <= |plan| && Done(src, ds[|ds| - 1], plan[|ds| - 1], x) && x != ds[|ds| - 1]
    ensures Trace(src, plan, ds + [x]) && (RenameDone(plan, ds + [x], x) <==> RenameDone(plan, ds, x))
  {
    hide Done;
    var ds' := ds + [x];
    TraceOn(src, plan, ds, x);
    if RenameDone(plan, ds, x) && plan[|ds| - 1].Lvrename? {
      assert plan[|ds'| - 2].Lvrename?;
    }
  }

  /** Cut off in the middle, a command that is no rename leaves the names of the volumes alone. */
  lemma PartialNames(src: Sources, d: Disk, c: Pipeline, x: Disk)
    requires Interrupted(src, d, c, x) && !Done(src, d, c, x) && x != d
    ensures x.lvs.Keys == d.lvs.Keys && !c.Lvrename? && (c.InstallFile? || x.esp == d.esp)
  {
  }

  lemma InstallAfterRenames(d: Disk, j: Job, pre: seq<Pipeline>, gs: seq<SlotGroup>, tail: seq<Pipeline>, ds: seq<Disk>,
                            x: Disk)
    requires j.Valid() && Prepares(d, j, pre, gs) && Migrates(tail) && 1 <= |ds| <= |pre + (j.Core() + tail)|
    requires (pre + (j.Core() + tail))[|ds| - 1].InstallFile?
    ensures RenameDone(pre + (j.Core() + tail), ds, x)
  {
    hide DecodeStatus, SlotName, ParseUki, UkiName, Prepares, Migrates;
    if |ds| - 1 < |pre| + 6 {
      NoInstallBefore(d, j, pre, gs, tail, |ds| - 1);
    } else {
      StepAt(pre, j.Core(), tail, |pre| + 4);
      assert (pre + (j.Core() + tail))[|pre| + 4].Lvrename?;
    }
  }

  lemma NamesAbsent(d: Disk, x: Disk, t: Version)
    requires Absent(d, t) && x.lvs.Keys == d.lvs.Keys && x.esp.Keys <= d.esp.Keys
    ensures Absent(x, t)
  {
    hide SlotName, ParseUki;
    assert HasLv(x, Root, Used(t)) ==> SlotName(Root, Used(t)) in x.lvs.Keys;
    assert HasLv(x, Verity, Used(t)) ==> SlotName(Verity, Used(t)) in x.lvs.Keys;
    FewerUkis(d, x, t);
  }

  /**
   * Wherever a run stops: once a rename is done the root volume of the version is there, before that
   * nothing of it is.
   */
  lemma StopRenamed(src: Sources, d: Disk, j: Job, pre: seq<Pipeline>, gs: seq<SlotGroup>, tail: seq<Pipeline>,
                    ds: seq<Disk>, x: Disk)
    requires j.Valid() && Prepares(d, j, pre, gs) && Migrates(tail)
    requires StopsIn(src, pre + (j.Core() + tail), ds, x) && ds[0] == d
    requires Absent(d, j.m.ToVersion())
    ensures if RenameDone(pre + (j.Core() + tail), ds, x) then j.To(Root) in x.lvs else Absent(x, j.m.ToVersion())
  {
    hide DecodeStatus, SlotName, ParseUki, UkiName, Absent, Done, Interrupted;
    var plan, last := pre + (j.Core() + tail), ds[|ds| - 1];
    if x == last {
      TraceRenamed(src, d, j, pre, gs, tail, ds);
    } else if Done(src, last, plan[|ds| - 1], x) {
      OneMore(src, plan, ds, x);
      TraceRenamed(src, d, j, pre, gs, tail, ds + [x]);
    } else {
      TraceRenamed(src, d, j, pre, gs, tail, ds);
      PartialNames(src, last, plan[|ds| - 1], x);
      assert RenameDone(plan, ds, x) <==> RenameDone(plan, ds, last);
      if plan[|ds| - 1].InstallFile? {
        InstallAfterRenames(d, j, pre, gs, tail, ds, x);
        assert j.To(Root) in x.lvs.Keys;
      } else if RenameDone(plan, ds, x) {
        assert j.To(Root) in x.lvs.Keys;
      } else {
        NamesAbsent(last, x, j.m.ToVersion());
      }
    }
  }

  lemma RootMeansPresent(d: Disk, t: Version)
    requires Printable(Used(t)) && SlotName(Root, Used(t)) in d.lvs
    ensures !Absent(d, t)
  {
  }

  /**
   * Exactly when an install that stopped, anywhere and with or without a power loss, can be tried again as a
   * fresh one: iff no rename has been done yet.
   */
  lemma RetryFreshIff(src: Sources, d: Disk, kernel: Kernel, rt: Runtime, m: Manifest, source: string, ds: seq<Disk>,
                      x: Disk, d': Disk, rt': Runtime)
    requires Sees(d, kernel, rt) && WellFormed(m) && Fresh(rt, m.ToVersion()) && InstallPlan(rt, m, source).Ok?
    requires StopsIn(src, InstallPlan(rt, m, source).value, ds, x) && ds[0] == d && (d' == x || PowerLoss(x, d'))
    requires Sees(d', kernel, rt')
    ensures Fresh(rt', m.ToVersion()) <==> !RenameDone(InstallPlan(rt, m, source).value, ds, x)
  {
    hide DecodeStatus, SlotName, ParseUki, UkiName, Absent, Done, Interrupted, InstallPlan, RenameDone;
    var t := m.ToVersion();
    var j, pre, tail := PlanShape(d, kernel, rt, m, source);
    SeesFacts(d, kernel, rt);
    SeesFacts(d', kernel, rt');
    FreshIff(d, rt.slotgroups, t);
    FreshIff(d', rt'.slotgroups, t);
    StopRenamed(src, d, j, pre, rt.slotgroups, tail, ds, x);
    if RenameDone(InstallPlan(rt, m, source).value, ds, x) {
      assert j.To(Root) in d'.lvs.Keys;
      RootMeansPresent(d', t);
    } else {
      NamesAbsent(x, d', t);
    }
  }

  lemma EarlyFresh(src: Sources, d: Disk, j: Job, pre: seq<Pipeline>, gs: seq<SlotGroup>, tail: seq<Pipeline>,
                   ds: seq<Disk>)
    requires j.Valid() && Prepares(d, j, pre, gs) && Trace(src, pre + (j.Core() + tail), ds) && ds[0] == d
    requires |ds| - 1 < |pre| + 5
    requires Absent(d, j.m.ToVersion())
    ensures Absent(ds[|ds| - 1], j.m.ToVersion())
    ensures forall i | 0 <= i < |ds| - 1 :: !(pre + (j.Core() + tail))[i].Lvrename?
  {
    hide DecodeStatus, SlotName, ParseUki, UkiName, Done, Avoids;
    var plan, n := pre + (j.Core() + tail), |ds| - 1;
    forall i | 0 <= i < n
      ensures Avoids(plan[i], j.To(Root)) && Avoids(plan[i], j.To(Verity)) && !plan[i].Lvrename?
    {
      PlanAvoids(d, j, pre, gs, tail, Root, i);
      PlanAvoids(d, j, pre, gs, tail, Verity, i);
      EarlyNoRename(d, j, pre, gs, tail, i);
    }
    AvoidingTrace(src, plan, ds, j.To(Root), n);
    AvoidingTrace(src, plan, ds, j.To(Verity), n);
    UkiAbsent(src, d, j, pre, gs, tail, ds, ds[n]);
  }

  lemma GrowNoRename(d: Disk, j: Job, pre: seq<Pipeline>, r: Slot, v: Slot)
    requires Grows(d, j, pre, r, v)
    ensures forall i | 0 <= i < |pre| :: !pre[i].Lvrename?
  {
  }

  lemma EarlyNoRename(d: Disk, j: Job, pre: seq<Pipeline>, gs: seq<SlotGroup>, tail: seq<Pipeline>, i: nat)
    requires j.Valid() && Prepares(d, j, pre, gs) && i < |pre| + 4
    ensures i < |pre + (j.Core() + tail)| && !(pre + (j.Core() + tail))[i].Lvrename?
  {
    hide DecodeStatus, SlotName, ParseUki, UkiName;
    StepAt(pre, j.Core(), tail, i);
    if i < |pre| {
      if r, v :| GrowsKnown(d, j, pre, gs, r, v) {
        GrowNoRename(d, j, pre, r, v);
      } else {
        var r, v :| Creates(d, j, pre, r, v);
      }
    }
  }

  // ---------------------------------------------------------------- an image under another name

  lemma GrowNoUnlink(d: Disk, j: Job, pre: seq<Pipeline>, r: Slot, v: Slot)
    requires Grows(d, j, pre, r, v)
    ensures forall c | c in pre :: !c.BootctlUnlink?
  {
  }

  lemma PlanNoUnlink(d: Disk, j: Job, pre: seq<Pipeline>, gs: seq<SlotGroup>, tail: seq<Pipeline>)
    requires j.Valid() && Prepares(d, j, pre, gs) && Migrates(tail)
    ensures forall c | c in pre + (j.Core() + tail) :: !c.BootctlUnlink?
  {
    hide DecodeStatus, SlotName, ParseUki, UkiName;
    if r, v :| GrowsKnown(d, j, pre, gs, r, v) {
      GrowNoUnlink(d, j, pre, r, v);
    } else {
      var r, v :| Creates(d, j, pre, r, v);
    }
    forall c | c in pre + (j.Core() + tail)
      ensures !c.BootctlUnlink?
    {
      assert c in pre || c in j.Core() || c in tail;
    }
  }

  /** Without unlinking, images only come. */
  lemma {:induction false} EspGrows(src: Sources, plan: seq<Pipeline>, ds: seq<Disk>, i: nat, k: nat)
    requires Trace(src, plan, ds) && i <= k < |ds| && forall c | c in plan :: !c.BootctlUnlink?
    ensures ds[i].esp.Keys <= ds[k].esp.Keys
  {
    if i < k {
      EspGrows(src, plan, ds, i, k - 1);
      assert Done(src, ds[k - 1], plan[k - 1], ds[k]) && plan[k - 1] in plan;
    }
  }

  lemma RenameNoSlash(src: Sources, d: Disk, c: Pipeline, d': Disk)
    requires c.Lvrename? && Done(src, d, c, d')
    ensures '/' !in c.to
  {
  }

  lemma ImageArrives(src: Sources, d: Disk, j: Job, pre: seq<Pipeline>, gs: seq<SlotGroup>, tail: seq<Pipeline>,
                     ds: seq<Disk>)
    requires j.Valid() && Prepares(d, j, pre, gs) && Migrates(tail)
    requires var plan := pre + (j.Core() + tail); Trace(src, plan, ds) && |ds| == |plan| + 1 && ds[0] == d
    ensures UkiName(UkiEntry(j.m.ToVersion(), None)) in ds[|ds| - 1].esp && d.esp.Keys <= ds[|ds| - 1].esp.Keys
  {
    hide DecodeStatus, SlotName, ParseUki, UkiName, Done, Prepares;
    var plan, n := pre + (j.Core() + tail), |pre|;
    PlanNoUnlink(d, j, pre, gs, tail);
    EspGrows(src, plan, ds, 0, |ds| - 1);
    EspGrows(src, plan, ds, n + 7, |ds| - 1);
    StepAt(pre, j.Core(), tail, n + 4);
    StepAt(pre, j.Core(), tail, n + 6);
    assert Done(src, ds[n + 4], plan[n + 4], ds[n + 5]);
    assert Done(src, ds[n + 6], plan[n + 6], ds[n + 7]);
    RenameNoSlash(src, ds[n + 4], plan[n + 4], ds[n + 5]);
    UkiStep(src, j, ds[n + 6], ds[n + 7]);
    assert UkiName(UkiEntry(j.m.ToVersion(), None)) in ds[n + 7].esp.Keys;
  }

  /** A finished install leaves two images of the version if it found one under another name. */
  lemma SecondImage(src: Sources, d: Disk, j: Job, pre: seq<Pipeline>, gs: seq<SlotGroup>, tail: seq<Pipeline>,
                    ds: seq<Disk>)
    requires j.Valid() && Prepares(d, j, pre, gs) && Migrates(tail) && !OwnUki(d, j.m.ToVersion())
    requires var plan := pre + (j.Core() + tail); Trace(src, plan, ds) && |ds| == |plan| + 1 && ds[0] == d
    ensures DoubleUki(ds[|ds| - 1])
  {
    hide DecodeStatus, SlotName, ParseUki, UkiName;
    var t, d' := j.m.ToVersion(), ds[|ds| - 1];
    var own := UkiEntry(t, None);
    var id :| HasUki(d, id, t) && id != UkiName(own);
    ImageArrives(src, d, j, pre, gs, tail, ds);
    RenamedTrace(src, d, j, pre, gs, tail, ds);
    PrintThenParse(own);
    assert id in d.esp.Keys;
    assert HasUki(d', id, t) && HasUki(d', UkiName(own), t) && HasLv(d', Root, Used(t));
  }

  /**
   * After a finished install the disk can be scanned again exactly if no image of the version had been
   * there under another name, such as one with a boot counter. If one had, every later command fails.
   */
  lemma RescanIff(src: Sources, d: Disk, kernel: Kernel, rt: Runtime, m: Manifest, source: string, ds: seq<Disk>,
                  vols: seq<Volume>, items: seq<BootctlItem>)
    requires Sees(d, kernel, rt) && WellFormed(m) && InstallPlan(rt, m, source).Ok?
    requires SelectUpdateSlot(rt, m) != Ok(AlreadyInstalled)
    requires var plan := InstallPlan(rt, m, source).value; Trace(src, plan, ds) && |ds| == |plan| + 1 && ds[0] == d
    requires Listing(ds[|ds| - 1], vols, items)
    ensures Scan(vols, kernel, items).Ok? <==> OwnUki(d, m.ToVersion())
  {
    hide DecodeStatus, SlotName, ParseUki, UkiName, SelectUpdateSlot, InstallPlan, OwnUki, Done;
    var t, d' := m.ToVersion(), ds[|ds| - 1];
    SeesFacts(d, kernel, rt);
    ScanExact(d', vols, kernel, items);
    if OwnUki(d, t) {
      InstallPlanSafe(d, kernel, rt, m, source);
      SafePlan(src, InstallPlan(rt, m, source).value, ds, d', d', t);
      StillNoDouble(d, d', t);
    } else {
      var j, pre, tail := SelectedPlanShape(d, kernel, rt, m, source);
      SecondImage(src, d, j, pre, rt.slotgroups, tail, ds);
    }
  }
}
