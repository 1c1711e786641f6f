/** What every stopped plan keeps of the disk as a whole: each image has its volumes, each name its form. */
module Backing {
  import opened Wrappers
  import opened Text
  import opened Slots
  import opened Uki
  import opened Groups
  import opened Runtime
  import opened Plan
  import opened Disk
  import opened Inventory
  import opened Frame
  import opened Install
  import opened CrashSafety
  import opened Commit
  import opened Dashes
  import opened Outcome
  import opened Retry
  import opened Remove

  // ---------------------------------------------------------------- images and their volumes

  predicate FlushedLv(d: Disk, k: Kind, v: Version) {
    HasLv(d, k, Used(v)) && d.lvs[SlotName(k, Used(v))].flushed
  }

  /** Whatever can be booted has both volumes, and they are on stable storage. */
  ghost predicate Backed(d: Disk) {
    forall id, v | HasUki(d, id, v) :: FlushedLv(d, Root, v) && FlushedLv(d, Verity, v)
  }

  /** The volumes of version `v`, without a hash in their names, are all of that kind: what a type 1 entry boots. */
  ghost predicate LegacySystem(d: Disk, v: Version) {
    && v.hash.None? && FlushedLv(d, Root, v) && FlushedLv(d, Verity, v)
    && forall k, w: Version | w.hash.None? && HasLv(d, k, Used(w)) :: w == v
  }

  /** Type 1 entries are no images, and are told from them by name. */
  ghost predicate EntriesApart(d: Disk) {
    d.esp.Keys !! d.type1 && forall id | id in d.type1 :: ParseUki(id).Err?
  }

  lemma FlushedKept(d: Disk, x: Disk, t: Version, k: Kind, v: Version)
    requires Preserves(d, x, t) && v != t && FlushedLv(d, k, v)
    ensures FlushedLv(x, k, v)
  {
    hide SlotName, DecodeStatus;
    PrintThenDecode(k, Used(v));
    assert Protected(SlotName(k, Used(v)), t);
  }

  /** A change within version `t` keeps every other version backed. */
  lemma BackedOthers(d: Disk, x: Disk, t: Version)
    requires Backed(d) && Preserves(d, x, t)
    requires forall id | HasUki(x, id, t) :: FlushedLv(x, Root, t) && FlushedLv(x, Verity, t)
    ensures Backed(x)
  {
    hide SlotName, ParseUki, FlushedLv;
    forall id, v | HasUki(x, id, v)
      ensures FlushedLv(x, Root, v) && FlushedLv(x, Verity, v)
    {
      if v != t {
        assert HasUki(d, id, v);
        FlushedKept(d, x, t, Root, v);
        FlushedKept(d, x, t, Verity, v);
      }
    }
  }

  lemma LossBacked(d: Disk, d': Disk)
    requires Backed(d) && PowerLoss(d, d')
    ensures Backed(d')
  {
    hide SlotName, ParseUki;
    forall id, v | HasUki(d', id, v)
      ensures FlushedLv(d', Root, v) && FlushedLv(d', Verity, v)
    {
      assert id in d'.esp.Keys;
      assert HasUki(d, id, v);
      assert SlotName(Root, Used(v)) in d'.lvs.Keys && SlotName(Verity, Used(v)) in d'.lvs.Keys;
    }
  }

  lemma LossApart(d: Disk, d': Disk)
    requires EntriesApart(d) && PowerLoss(d, d')
    ensures EntriesApart(d')
  {
    hide ParseUki;
  }

  // ---------------------------------------------------------------- install

  /** If an image of the version is there already, so are its volumes, and nothing is planned. */
  lemma ImageMeansInstalled(d: Disk, kernel: Kernel, rt: Runtime, m: Manifest, id: string)
    requires Sees(d, kernel, rt) && WellFormed(m) && Backed(d) && HasUki(d, id, m.ToVersion())
    ensures SelectUpdateSlot(rt, m) == Ok(AlreadyInstalled)
  {
    hide DecodeStatus, SlotName, ParseUki, UkiName;
    var t := m.ToVersion();
    assert FlushedLv(d, Root, t) && FlushedLv(d, Verity, t);
    SeesFacts(d, kernel, rt);
    var i := GroupOfStatus(d, rt.slotgroups, Root, Used(t));
    assert Fits(d, rt.slotgroups[i]);
    assert rt.slotgroups[i] in rt.slotgroups;
  }

  /** The image of the version, wherever the install stops, comes after its volumes. */
  lemma InstallBacks(src: Sources, d: Disk, kernel: Kernel, rt: Runtime, m: Manifest, source: string, ds: seq<Disk>,
                     x: Disk, id: string)
    requires Sees(d, kernel, rt) && WellFormed(m) && InstallPlan(rt, m, source).Ok?
    requires StopsIn(src, InstallPlan(rt, m, source).value, ds, x) && ds[0] == d
    requires Backed(d) && !SelectedTwin(d, rt) && HasUki(x, id, m.ToVersion())
    ensures FlushedLv(x, Root, m.ToVersion()) && FlushedLv(x, Verity, m.ToVersion())
  {
    hide DecodeStatus, SlotName, ParseUki, UkiName, InstallPlan, SelectUpdateSlot, FlushedLv, Done, Interrupted,
      VolumeInstalled, SelectedTwin;
    var t := m.ToVersion();
    SeesFacts(d, kernel, rt);
    if SelectUpdateSlot(rt, m) == Ok(AlreadyInstalled) {
      NothingPlanned(src, rt, m, source, ds, x);
    } else {
      NoImageYet(d, kernel, rt, m);
      if HasLv(d, Root, Used(t)) || HasLv(d, Verity, Used(t)) {
        CollisionStopsImage(src, d, kernel, rt, m, source, ds, x);
      } else {
        FreshIff(d, rt.slotgroups, t);
        CommitOrdering(src, d, kernel, rt, m, source, ds, x, x, id);
        InstalledFlushed(src, x, m, source, Root);
        InstalledFlushed(src, x, m, source, Verity);
      }
    }
  }

  lemma NoImageYet(d: Disk, kernel: Kernel, rt: Runtime, m: Manifest)
    requires Sees(d, kernel, rt) && WellFormed(m) && Backed(d) && SelectUpdateSlot(rt, m) != Ok(AlreadyInstalled)
    ensures NoUki(d, m.ToVersion())
  {
    hide SelectUpdateSlot, ParseUki;
    forall id | HasUki(d, id, m.ToVersion())
      ensures false
    {
      ImageMeansInstalled(d, kernel, rt, m, id);
    }
  }

  lemma CollisionStopsImage(src: Sources, d: Disk, kernel: Kernel, rt: Runtime, m: Manifest, source: string,
                            ds: seq<Disk>, x: Disk)
    requires Sees(d, kernel, rt) && WellFormed(m) && InstallPlan(rt, m, source).Ok?
    requires SelectUpdateSlot(rt, m) != Ok(AlreadyInstalled)
    requires StopsIn(src, InstallPlan(rt, m, source).value, ds, x) && ds[0] == d && NoUki(d, m.ToVersion())
    requires HasLv(d, Root, Used(m.ToVersion())) || HasLv(d, Verity, Used(m.ToVersion()))
    ensures NoUki(x, m.ToVersion())
  {
    hide DecodeStatus, SlotName, ParseUki, UkiName, InstallPlan, SelectUpdateSlot, Done, Interrupted, NoUki;
    var k := if HasLv(d, Root, Used(m.ToVersion())) then Root else Verity;
    var j, pre, tail := SelectedPlanShape(d, kernel, rt, m, source);
    Collides(src, d, j, pre, rt.slotgroups, tail, ds, k);
    UkiAbsent(src, d, j, pre, rt.slotgroups, tail, ds, x);
  }

  lemma InstalledFlushed(src: Sources, d: Disk, m: Manifest, source: string, k: Kind)
    requires WellFormed(m) && VolumeInstalled(src, d, m, source, k)
    ensures FlushedLv(d, k, m.ToVersion())
  {
  }

  // ---------------------------------------------------------------- remove

  /** A removal drops the image before it renames a volume. */
  lemma RemoveBacks(src: Sources, d: Disk, rt: Runtime, r: Removal, ds: seq<Disk>, x: Disk, id: string)
    requires Removes(d, rt.slotgroups, r) && Scanned(d, rt.slotgroups) && HasUki(x, id, r.v)
    requires var plan := Unlinks(rt, r.g) + Renames(r, d.vg);
             StopsIn(src, plan, ds, x) && ds[0] == d && forall c | c in plan :: RemoveCommand(c)
    requires x.esp.Keys <= d.esp.Keys
    ensures x == d
  {
    hide SlotName, ParseUki, Unlinks, Renames, DecodeStatus, RemoveCommand;
    var plan := Unlinks(rt, r.g) + Renames(r, d.vg);
    assert id in x.esp.Keys;
    assert HasUki(d, id, r.v);
    OnlyGroupVolumes(d, rt.slotgroups, r.g, r.v);
    UnlinksAll(rt, r.g);
    assert plan[0] == BootctlUnlink(id);
    if |ds| > 1 {
      assert Done(src, ds[0], plan[0], ds[1]);
      GoneForGood(src, plan, ds, x, id);
    }
  }

  lemma {:induction false} GoneForGood(src: Sources, plan: seq<Pipeline>, ds: seq<Disk>, x: Disk, id: string)
    requires StopsIn(src, plan, ds, x) && |ds| > 1 && id !in ds[1].esp && forall c | c in plan :: RemoveCommand(c)
    ensures id !in x.esp
    decreases |ds|
  {
    var last := ds[|ds| - 1];
    assert id !in last.esp by {
      if |ds| > 2 {
        var before, k := ds[..|ds| - 1], |ds| - 2;
        assert Done(src, ds[k], plan[k], ds[k + 1]) && plan[k] in plan;
        GoneForGood(src, plan, before, ds[k], id);
      }
    }
    if x != last {
      assert plan[|ds| - 1] in plan;
    }
  }

  // ---------------------------------------------------------------- no new dashes

  /** Every empty slot of `x` with a dash in its name was there before. */
  ghost predicate DashesFrom(d: Disk, x: Disk) {
    x.vg == d.vg && forall n | n in x.lvs && EmptyName(n) && '-' in n :: n in d.lvs
  }

  lemma StillUnaliased(d: Disk, x: Disk)
    requires Unaliased(d) && DashesFrom(d, x)
    ensures Unaliased(x)
  {
    hide DecodeStatus, SlotName, Escaped;
    forall id | '-' in id && '-' !in x.vg
      ensures !Twinned(x, id)
    {
      if Twinned(x, id) {
        StillTwinned(d, x, id);
      }
    }
  }

  lemma StillTwinned(d: Disk, x: Disk, id: string)
    requires DashesFrom(d, x) && '-' in id && Twinned(x, id)
    ensures Twinned(d, id)
  {
    hide DecodeStatus, SlotName, Escaped;
    EscapedNoDash(id);
    EscapedDash(id);
    EscapedMember(id, '_');
    DashedEmpty(Root, id);
    DashedEmpty(Verity, id);
    DashedEmpty(Root, Escaped(id));
    DashedEmpty(Verity, Escaped(id));
  }

  lemma DashedEmpty(k: Kind, id: string)
    requires '-' in id && Printable(Empty(Known(id)))
    ensures EmptyName(EmptyVolume(k, id)) && '-' in EmptyVolume(k, id)
  {
    hide DecodeStatus, SlotName;
    PrintThenDecode(k, Empty(Known(id)));
    EmptyNameNoDash(k, id);
  }

  /** No empty slot gets a name with a dash. */
  predicate Dashless(c: Pipeline) {
    && (c.Lvcreate? ==> '-' !in c.name)
    && (c.Lvrename? ==> EmptyName(c.to) ==> '-' !in c.to)
  }

  lemma SameVg(src: Sources, d: Disk, c: Pipeline, d': Disk)
    requires Done(src, d, c, d') || Interrupted(src, d, c, d')
    ensures d'.vg == d.vg
  {
  }

  lemma NewNames(src: Sources, d: Disk, c: Pipeline, d': Disk, n: string)
    requires n in d'.lvs && (Done(src, d, c, d') || Interrupted(src, d, c, d'))
    ensures n in d.lvs || (c.Lvcreate? && n == c.name) || (c.Lvrename? && n == c.to)
  {
  }

  lemma DashlessStep(src: Sources, d0: Disk, d: Disk, c: Pipeline, d': Disk)
    requires Dashless(c) && DashesFrom(d0, d) && (Done(src, d, c, d') || Interrupted(src, d, c, d'))
    ensures DashesFrom(d0, d')
  {
    hide DecodeStatus, Done, Interrupted;
    SameVg(src, d, c, d');
    forall n | n in d'.lvs && EmptyName(n) && '-' in n
      ensures n in d0.lvs
    {
      NewNames(src, d, c, d', n);
    }
  }

  lemma {:induction false} DashlessTrace(src: Sources, plan: seq<Pipeline>, ds: seq<Disk>)
    requires Trace(src, plan, ds) && forall c | c in plan :: Dashless(c)
    ensures DashesFrom(ds[0], ds[|ds| - 1])
    decreases |ds|
  {
    hide Dashless, Done, DecodeStatus;
    if |ds| > 1 {
      var k, before := |ds| - 2, ds[..|ds| - 1];
      assert Trace(src, plan, before);
      DashlessTrace(src, plan, before);
      assert Done(src, ds[k], plan[k], ds[k + 1]) && plan[k] in plan;
      DashlessStep(src, ds[0], ds[k], plan[k], ds[k + 1]);
    }
  }

  lemma DashlessStop(src: Sources, plan: seq<Pipeline>, ds: seq<Disk>, x: Disk)
    requires StopsIn(src, plan, ds, x) && Unaliased(ds[0]) && forall c | c in plan :: Dashless(c)
    ensures Unaliased(x)
  {
    hide Dashless, Done, Interrupted, Unaliased, DashesFrom;
    DashlessTrace(src, plan, ds);
    var last := ds[|ds| - 1];
    if x != last {
      assert plan[|ds| - 1] in plan;
      DashlessStep(src, ds[0], last, plan[|ds| - 1], x);
    }
    StillUnaliased(ds[0], x);
  }

  lemma InstallDashless(d: Disk, kernel: Kernel, rt: Runtime, m: Manifest, source: string)
    requires Sees(d, kernel, rt) && WellFormed(m) && InstallPlan(rt, m, source).Ok?
    ensures forall c | c in InstallPlan(rt, m, source).value :: Dashless(c)
  {
    hide DecodeStatus, SlotName, ParseUki, UkiName, InstallPlan, SelectUpdateSlot;
    if SelectUpdateSlot(rt, m) == Ok(AlreadyInstalled) {
      NoPlan(rt, m, source);
    } else {
      var j, pre, tail := SelectedPlanShape(d, kernel, rt, m, source);
      PreDashless(d, j, pre, rt.slotgroups);
      CoreDashless(j);
      forall c | c in InstallPlan(rt, m, source).value
        ensures Dashless(c)
      {
        assert c in pre || c in j.Core() || c in tail;
      }
    }
  }

  lemma NoPlan(rt: Runtime, m: Manifest, source: string)
    requires |m.rootVerityHash| >= 16 && SelectUpdateSlot(rt, m) == Ok(AlreadyInstalled)
    ensures InstallPlan(rt, m, source) == Ok([])
  {
    hide SelectUpdateSlot;
  }

  lemma GrowDashless(d: Disk, j: Job, pre: seq<Pipeline>, r: Slot, v: Slot)
    requires Grows(d, j, pre, r, v)
    ensures forall c | c in pre :: Dashless(c)
  {
  }

  lemma PreDashless(d: Disk, j: Job, pre: seq<Pipeline>, gs: seq<SlotGroup>)
    requires Prepares(d, j, pre, gs)
    ensures forall c | c in pre :: Dashless(c)
  {
    hide SlotName;
    if r, v :| GrowsKnown(d, j, pre, gs, r, v) {
      GrowDashless(d, j, pre, r, v);
    } else {
      var r, v :| Creates(d, j, pre, r, v);
      EmptyNameNoDash(Root, j.st.emptyId.id);
      EmptyNameNoDash(Verity, j.st.emptyId.id);
    }
  }

  lemma CoreDashless(j: Job)
    requires j.Valid()
    ensures forall c | c in j.Core() :: Dashless(c)
  {
    hide DecodeStatus, SlotName, ParseUki, UkiName;
    FromIsEmpty(j, Root);
    FromIsEmpty(j, Verity);
    assert !EmptyName(j.To(Root)) && !EmptyName(j.To(Verity));
  }

  lemma RemoveDashless(rt: Runtime, r: Removal, vg: string)
    requires FreeIdentifier(rt.slotgroups) == Ok(r.id)
    ensures forall c | c in Unlinks(rt, r.g) + Renames(r, vg) :: Dashless(c)
  {
    hide Unlinks, DecodeStatus, FreeIdentifier, SlotName, PrintNat, LeastId, HasId;
    var n := FreshIdentifier(rt.slotgroups);
    DigitsPlain(n);
    EmptyNameNoDash(Root, r.id);
    EmptyNameNoDash(Verity, r.id);
    UnlinksAll(rt, r.g);
    assert forall c | c in Renames(r, vg) :: Dashless(c);
  }
}
