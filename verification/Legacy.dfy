/** Machines set up before versions had hashes: what a type 1 entry boots is there as long as the entry is. */
module Legacy {
  import opened Wrappers
  import opened Slots
  import opened Uki
  import opened Groups
  import opened Runtime
  import opened Plan
  import opened Disk
  import opened Inventory
  import opened Frame
  import opened Install
  import opened CrashSafety
  import opened Commit
  import opened Dashes
  import opened Remove
  import opened Backing
  import opened Runs

  /** Whatever a type 1 entry boots has both volumes, on stable storage. */
  ghost predicate LegacyBacked(d: Disk) {
    d.type1 != {} ==> exists v :: LegacySystem(d, v)
  }

  /** The scan was told of all type 1 entries. */
  ghost predicate ListsEntries(d: Disk, rt: Runtime) {
    forall id | id in d.type1 :: BootEntry(id, LegacyEntry) in rt.bootEntries
  }

  lemma LegacyKept(d: Disk, x: Disk, t: Version, v: Version)
    requires LegacySystem(d, v) && Preserves(d, x, t) && t != v && (t.hash.Some? || NoNewLv(d, x, t))
    ensures LegacySystem(x, v)
  {
    hide DecodeStatus, SlotName, ParseUki, FlushedLv, Preserves, Keeps;
    FlushedKept(d, x, t, Root, v);
    FlushedKept(d, x, t, Verity, v);
    FrameThenLoss(d, x, x, t);
    forall k, w: Version | w.hash.None? && HasLv(x, k, Used(w))
      ensures w == v
    {
      if w != t {
        HasLvKept(d, x, t, k, w);
      }
    }
  }

  lemma SameVolumes(d: Disk, x: Disk, v: Version)
    requires LegacySystem(d, v) && x.lvs == d.lvs
    ensures LegacySystem(x, v)
  {
    hide SlotName;
    forall k, w: Version | w.hash.None? && HasLv(x, k, Used(w))
      ensures w == v
    {
      assert HasLv(d, k, Used(w));
    }
  }

  // ---------------------------------------------------------------- installs

  lemma InstallLegacy(src: Sources, d: Disk, kernel: Kernel, rt: Runtime, m: Manifest, source: string, ds: seq<Disk>,
                      x: Disk)
    requires LegacyBacked(d) && Backed(d) && Sees(d, kernel, rt) && WellFormed(m) && InstallPlan(rt, m, source).Ok?
    requires StopsIn(src, InstallPlan(rt, m, source).value, ds, x) && ds[0] == d
    ensures LegacyBacked(x)
  {
    hide InstallPlan, ParseUki, UkiName, SlotName, DecodeStatus, Backed, Done, Interrupted, SafeFor, LegacySystem,
      SelectUpdateSlot, Sees;
    var t, plan := m.ToVersion(), InstallPlan(rt, m, source).value;
    if SelectUpdateSlot(rt, m) == Ok(AlreadyInstalled) {
      NothingPlanned(src, rt, m, source, ds, x);
    } else {
      InstallPlanSafe(d, kernel, rt, m, source);
      InstallNoUnlink(d, kernel, rt, m, source);
      ImagesAdded(src, plan, ds, x, t);
      NoImageYet(d, kernel, rt, m);
      SafeStop(src, plan, ds, x, t);
      if x.type1 != {} {
        var v :| LegacySystem(d, v);
        LegacyHash(d, v);
        LegacyKept(d, x, t, v);
      }
    }
  }

  lemma LegacyHash(d: Disk, v: Version)
    requires LegacySystem(d, v)
    ensures v.hash.None? && HasLv(d, Root, Used(v)) && HasLv(d, Verity, Used(v))
  {
  }

  // ---------------------------------------------------------------- removals

  lemma {:induction false} Type1Falls(src: Sources, plan: seq<Pipeline>, ds: seq<Disk>, i: nat, n: nat)
    requires Trace(src, plan, ds) && i <= n < |ds| && forall c | c in plan :: RemoveCommand(c)
    ensures ds[n].type1 <= ds[i].type1
  {
    if n > i {
      Type1Falls(src, plan, ds, i, n - 1);
      assert Done(src, ds[n - 1], plan[n - 1], ds[n]) && plan[n - 1] in plan;
    }
  }

  lemma EntryGone(src: Sources, d: Disk, rt: Runtime, g: SlotGroup, w: seq<Pipeline>, ds: seq<Disk>, id: string)
    requires g.IsLegacy() && BootEntry(id, LegacyEntry) in rt.bootEntries
    requires Trace(src, Unlinks(rt, g) + w, ds) && |ds| > |Unlinks(rt, g)|
    requires forall c | c in Unlinks(rt, g) + w :: RemoveCommand(c)
    ensures id !in ds[|ds| - 1].type1
  {
    hide RemoveCommand, LegacyUnlinks;
    var u, plan := Unlinks(rt, g), Unlinks(rt, g) + w;
    assert BootctlUnlink(id) in LegacyUnlinks(rt.bootEntries);
    assert BootctlUnlink(id) in u;
    var i :| 0 <= i < |u| && u[i] == BootctlUnlink(id);
    assert Done(src, ds[i], plan[i], ds[i + 1]);
    Type1Falls(src, plan, ds, i + 1, |ds| - 1);
  }

  /** With all its unlinks done, a removal of a legacy group leaves no type 1 entry. */
  lemma EntriesGone(src: Sources, d: Disk, rt: Runtime, g: SlotGroup, w: seq<Pipeline>, ds: seq<Disk>)
    requires g.IsLegacy() && ListsEntries(d, rt) && ds != [] && ds[0] == d && |ds| > |Unlinks(rt, g)|
    requires Trace(src, Unlinks(rt, g) + w, ds) && forall c | c in Unlinks(rt, g) + w :: RemoveCommand(c)
    ensures ds[|ds| - 1].type1 == {}
  {
    hide RemoveCommand, Unlinks, Done;
    Type1Falls(src, Unlinks(rt, g) + w, ds, 0, |ds| - 1);
    forall id | id in d.type1
      ensures id !in ds[|ds| - 1].type1
    {
      EntryGone(src, d, rt, g, w, ds, id);
    }
  }

  lemma UnlinkKeepsVolumes(src: Sources, d: Disk, c: Pipeline, d': Disk)
    requires c.BootctlUnlink? && Interrupted(src, d, c, d')
    ensures d'.lvs == d.lvs
  {
  }

  /** While a type 1 entry is left, a removal of a legacy group has touched no volume. */
  lemma EntriesFirst(src: Sources, d: Disk, rt: Runtime, g: SlotGroup, w: seq<Pipeline>, ds: seq<Disk>, x: Disk)
    requires g.IsLegacy() && ListsEntries(d, rt) && x.type1 != {}
    requires StopsIn(src, Unlinks(rt, g) + w, ds, x) && ds[0] == d
    requires forall c | c in Unlinks(rt, g) + w :: RemoveCommand(c)
    ensures x.lvs == d.lvs
  {
    hide RemoveCommand, Done, Interrupted;
    var u, plan := Unlinks(rt, g), Unlinks(rt, g) + w;
    var last := ds[|ds| - 1];
    Type1Shrinks(src, plan, ds, x);
    if |ds| > |u| {
      EntriesGone(src, d, rt, g, w, ds);
      StopShrinks(src, plan, ds, x);
    } else {
      PreTrace(src, u, w, ds);
      UnlinkTrace(src, u, ds);
      UnlinksAll(rt, g);
      assert u[|ds| - 1] in u;
      if x != last {
        UnlinkKeepsVolumes(src, last, plan[|ds| - 1], x);
      }
    }
  }

  lemma StopShrinks(src: Sources, plan: seq<Pipeline>, ds: seq<Disk>, x: Disk)
    requires StopsIn(src, plan, ds, x) && forall c | c in plan :: RemoveCommand(c)
    ensures x.type1 <= ds[|ds| - 1].type1
  {
    if x != ds[|ds| - 1] {
      assert plan[|ds| - 1] in plan;
    }
  }

  lemma IsLegacyGroup(d: Disk, gs: seq<SlotGroup>, r: Removal)
    requires Scanned(d, gs) && Removes(d, gs, r) && LegacySystem(d, r.v)
    ensures r.g.IsLegacy()
  {
    hide DecodeStatus, SlotName, ParseUki;
    assert Fits(d, r.g) && r.Has(Root);
  }

  lemma RemoveLegacy(src: Sources, d: Disk, kernel: Kernel, rt: Runtime, version: Version, ds: seq<Disk>, x: Disk)
    requires LegacyBacked(d) && EntriesApart(d) && Sees(d, kernel, rt) && ListsEntries(d, rt)
    requires RemovePlan(rt, version).Ok?
    requires StopsIn(src, RemovePlan(rt, version).value, ds, x) && ds[0] == d
    ensures LegacyBacked(x)
  {
    hide RemovePlan, ParseUki, UkiName, SlotName, DecodeStatus, Done, Interrupted, SafeFor, RemoveCommand, Unlinks,
      Renames, LegacySystem, ListsEntries, Removes, Sees;
    var r := RemoveShape(d, kernel, rt, version);
    var plan := RemovePlan(rt, version).value;
    SeesFacts(d, kernel, rt);
    RemovePlanSafe(d, kernel, rt, r);
    RemoveStops(src, plan, ds, x, r.v, d.type1);
    Type1Shrinks(src, plan, ds, x);
    if x.type1 != {} {
      var v :| LegacySystem(d, v);
      if r.v == v {
        IsLegacyGroup(d, rt.slotgroups, r);
        EntriesFirst(src, d, rt, r.g, Renames(r, d.vg), ds, x);
        SameVolumes(d, x, v);
      } else {
        LegacyKept(d, x, r.v, v);
      }
    }
  }

  // ---------------------------------------------------------------- power cycles and runs

  lemma CycleLegacy(d: Disk, d': Disk)
    requires LegacyBacked(d) && Cycled(d, d')
    ensures LegacyBacked(d')
  {
    hide ParseUki, SlotName;
    var x :| PowerLoss(d, x) && Recounted(x, d');
    if d'.type1 != {} {
      var v :| LegacySystem(d, v);
      assert forall n :: n in x.lvs.Keys <==> n in d.lvs.Keys;
      assert LegacySystem(x, v) by {
        forall k, w: Version | w.hash.None? && HasLv(x, k, Used(w))
          ensures w == v
        {
          assert HasLv(d, k, Used(w));
        }
      }
      SameVolumes(x, d', v);
    }
  }

  lemma StepLegacy(m: Machine, e: Event, m': Machine)
    requires Healthy(m) && LegacyBacked(m.disk) && Step(m, e, m')
    requires e.Uninstalls? ==> ListsEntries(m.disk, e.rt)
    ensures LegacyBacked(m'.disk)
  {
    hide LegacyBacked, Scans, EntriesApart, Backed, Unaliased, InstallPlan, RemovePlan, StopsIn, Cycled, ListsEntries,
      Sees;
    match e
    case Installs(src, rt, manifest, source, ds) =>
      InstallLegacy(src, m.disk, m.kernel, rt, manifest, source, ds, m'.disk);
    case Uninstalls(src, rt, version, ds) =>
      RemoveLegacy(src, m.disk, m.kernel, rt, version, ds, m'.disk);
    case PowerCycle =>
      CycleLegacy(m.disk, m'.disk);
  }

  /**
   * In every state of every run, as long as a type 1 entry is there so is the legacy system it boots, complete and
   * on stable storage, given that scans are told of all type 1 entries. So it can be started, and `RunHealthy` goes on.
   */
  lemma {:induction false} RunLegacyBacked(ms: seq<Machine>, es: seq<Event>, i: nat)
    requires Run(ms, es) && Healthy(ms[0]) && LegacyBacked(ms[0].disk) && i < |ms|
    requires forall k | 0 <= k < |es| && es[k].Uninstalls? :: ListsEntries(ms[k].disk, es[k].rt)
    ensures LegacyBacked(ms[i].disk)
  {
    hide Healthy, Step, LegacyBacked, ListsEntries;
    if i > 0 {
      RunLegacyBacked(ms, es, i - 1);
      RunHealthy(ms, es, i - 1);
      StepLegacy(ms[i - 1], es[i - 1], ms[i]);
    }
  }
}
