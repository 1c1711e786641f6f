/** Getting rid of an install that stopped: its version can always be removed, and what that leaves. */
module Recovery {
  import opened Wrappers
  import opened Slots
  import opened Uki
  import opened Groups
  import opened Runtime
  import opened Plan
  import opened Disk
  import opened Inventory
  import opened Frame
  import opened Install
  import opened Commit
  import opened Dashes
  import opened Outcome
  import opened Progress
  import opened Retry
  import opened Remove

  /** Volumes of the version are there, but no image yet. */
  ghost predicate Unfinished(d: Disk, t: Version) {
    (HasLv(d, Root, Used(t)) || HasLv(d, Verity, Used(t))) && NoUki(d, t)
  }

  // ---------------------------------------------------------------- a plan to remove it

  lemma OneUnfinished(d: Disk, gs: seq<SlotGroup>, t: Version) returns (i: nat)
    requires Scanned(d, gs) && Unfinished(d, t)
    ensures i < |gs| && forall k | 0 <= k < |gs| :: gs[k].GroupVersion() == Some(t) <==> k == i
  {
    hide DecodeStatus, SlotName, ParseUki;
    var kind := if HasLv(d, Root, Used(t)) then Root else Verity;
    i := GroupOfStatus(d, gs, kind, Used(t));
    forall k | 0 <= k < |gs|
      ensures gs[k].GroupVersion() == Some(t) <==> k == i
    {
      if gs[k].GroupVersion() == Some(t) {
        assert Fits(d, gs[k]) && Fits(d, gs[i]);
        NoOrphan(d, gs[k], t);
        SameKeySameIndex(d, gs, i, k);
      }
    }
  }

  lemma NoOrphan(d: Disk, g: SlotGroup, t: Version)
    requires Fits(d, g) && g.GroupVersion() == Some(t) && NoUki(d, t)
    ensures HasVolume(g) && KeyOf(g) == ByStatus(Used(t))
  {
    hide DecodeStatus, SlotName, ParseUki;
    if !HasVolume(g) {
      OrphanIsUki(d, g);
    }
  }

  lemma OrphanIsUki(d: Disk, g: SlotGroup)
    requires OrphanFits(d, g) && g.GroupVersion().Some?
    ensures HasUki(d, g.boot.value.id, g.GroupVersion().value)
  {
    hide SlotName;
  }

  lemma NotBootedNotActive(d: Disk, g: SlotGroup, kernel: Kernel, t: Version)
    requires Fits(d, g) && g.GroupVersion() == Some(t) && HasVolume(g) && NotBooted(kernel, t) && t.hash.Some?
    ensures !g.IsActive(kernel) && !g.IsLegacy()
  {
    hide DecodeStatus, SlotName, ParseUki;
  }

  /** An unfinished version that is not booted can be removed exactly if an identifier is free. */
  lemma RemovePlanIff(d: Disk, kernel: Kernel, rt: Runtime, t: Version)
    requires Sees(d, kernel, rt) && Unfinished(d, t) && NotBooted(kernel, t) && t.hash.Some?
    ensures RemovePlan(rt, t).Ok? <==> FreeIdentifier(rt.slotgroups).Ok?
    ensures FindSlotGroup(rt, t).Ok? && !FindSlotGroup(rt, t).value.IsLegacy()
    ensures FindSlotGroup(rt, t).value.GroupVersion() == Some(t)
  {
    hide DecodeStatus, SlotName, ParseUki, FreeIdentifier, RemovalId, RemoveSteps;
    SeesFacts(d, kernel, rt);
    var gs := rt.slotgroups;
    var i := OneUnfinished(d, gs, t);
    FilterOne(gs, (g: SlotGroup) => g.GroupVersion() == Some(t), i);
    assert Fits(d, gs[i]);
    NoOrphan(d, gs[i], t);
    NotBootedNotActive(d, gs[i], kernel, t);
    OwnIdUnreachable(d, rt, t);
  }

  // ---------------------------------------------------------------- every removal can complete

  /** No entry is unlinked twice. */
  ghost predicate NoRepeat(cs: seq<Pipeline>) {
    forall i, j | 0 <= i < j < |cs| :: cs[i] != cs[j]
  }

  predicate Linked(d: Disk, id: string) {
    id in d.esp || id in d.type1
  }

  lemma UnlinkCan(src: Sources, d: Disk, id: string)
    requires Linked(d, id)
    ensures CanSucceed(src, d, BootctlUnlink(id))
  {
    var d' := d.(esp := d.esp - {id}, type1 := d.type1 - {id});
    assert Done(src, d, BootctlUnlink(id), d');
  }

  /** An entry is there until it is unlinked, and not after that. */
  lemma {:induction false} LinkedUntil(src: Sources, u: seq<Pipeline>, ds: seq<Disk>, id: string, n: nat)
    requires Trace(src, u, ds) && n < |ds| && forall c | c in u :: c.BootctlUnlink?
    ensures Linked(ds[n], id) <==> Linked(ds[0], id) && forall k | 0 <= k < n :: u[k] != BootctlUnlink(id)
  {
    if n > 0 {
      LinkedUntil(src, u, ds, id, n - 1);
      assert Done(src, ds[n - 1], u[n - 1], ds[n]) && u[n - 1] in u;
    }
  }

  /** What a removal unlinks is there when it starts. */
  lemma UnlinksLinked(d: Disk, kernel: Kernel, rt: Runtime, r: Removal, c: Pipeline)
    requires Sees(d, kernel, rt) && Removes(d, rt.slotgroups, r) && c in Unlinks(rt, r.g)
    ensures c.BootctlUnlink? && Linked(d, c.id)
  {
    hide DecodeStatus, SlotName, ParseUki, LegacyUnlinks, Removes;
    SeesFacts(d, kernel, rt);
    RemovesOnly(d, rt.slotgroups, r);
    OnlyGroupVolumes(d, rt.slotgroups, r.g, r.v);
    if r.g.boot.Some? && c == BootctlUnlink(r.g.boot.value.id) {
    } else {
      assert c in LegacyUnlinks(rt.bootEntries);
    }
  }

  /** Before the unlinks are done the next one can succeed. */
  lemma UnlinkNext(src: Sources, d: Disk, kernel: Kernel, rt: Runtime, r: Removal, ds: seq<Disk>)
    requires Sees(d, kernel, rt) && Removes(d, rt.slotgroups, r) && NoRepeat(Unlinks(rt, r.g))
    requires Trace(src, Unlinks(rt, r.g), ds) && ds[0] == d && |ds| <= |Unlinks(rt, r.g)|
    ensures CanSucceed(src, ds[|ds| - 1], Unlinks(rt, r.g)[|ds| - 1])
  {
    hide Removes, Sees, Unlinks, CanSucceed, Done;
    var u, i := Unlinks(rt, r.g), |ds| - 1;
    UnlinksAll(rt, r.g);
    UnlinksLinked(d, kernel, rt, r, u[i]);
    LinkedUntil(src, u, ds, u[i].id, i);
    UnlinkCan(src, ds[i], u[i].id);
  }

  lemma NewNoSlash(gs: seq<SlotGroup>, r: Removal, k: Kind)
    requires FreeIdentifier(gs) == Ok(r.id)
    ensures '/' !in r.New(k)
  {
    hide LeastId, HasId, FreeIdentifier;
    var n := FreshIdentifier(gs);
    DigitsPlain(n);
    var p := KindName(k) + "_empty_";
    assert r.New(k) == p + r.id;
    assert '/' !in p;
  }

  /** The `n`th rename on the volumes as the renames before it left them. */
  lemma RenameNext(src: Sources, d: Disk, gs: seq<SlotGroup>, r: Removal, ds: seq<Disk>)
    requires Removes(d, gs, r) && FreeIdentifier(gs) == Ok(r.id)
    requires Trace(src, Renames(r, d.vg), ds) && ds[0].lvs == d.lvs && ds[0].vg == d.vg && |ds| <= |Renames(r, d.vg)|
    ensures CanSucceed(src, ds[|ds| - 1], Renames(r, d.vg)[|ds| - 1])
  {
    hide DecodeStatus, SlotName, CanSucceed, FreeIdentifier, HasLv, Removes;
    var w, i := Renames(r, d.vg), |ds| - 1;
    var k := if r.Has(Root) && i == 0 then Root else Verity;
    assert r.Has(k) && w[i] == Lvrename(d.vg, r.Old(k), r.New(k));
    OldNewOn(d, gs, r, k);
    NewNoSlash(gs, r, k);
    if i == 1 {
      OldNewOn(d, gs, r, Root);
      assert Done(src, ds[0], w[0], ds[1]);
      assert r.Old(Verity) != r.Old(Root) && r.New(Verity) != r.New(Root);
    }
    RenameCan(src, ds[i], r.Old(k), r.New(k));
  }

  lemma RemoveNext(src: Sources, d: Disk, kernel: Kernel, rt: Runtime, r: Removal, ds: seq<Disk>)
    requires Sees(d, kernel, rt) && Removes(d, rt.slotgroups, r)
    requires FreeIdentifier(rt.slotgroups) == Ok(r.id) && NoRepeat(Unlinks(rt, r.g))
    requires var plan := Unlinks(rt, r.g) + Renames(r, d.vg); Trace(src, plan, ds) && ds[0] == d && |ds| <= |plan|
    ensures CanSucceed(src, ds[|ds| - 1], (Unlinks(rt, r.g) + Renames(r, d.vg))[|ds| - 1])
  {
    hide CanSucceed, FreeIdentifier, Renames, Unlinks, Removes, Sees, Done, NoRepeat;
    var u, w, i := Unlinks(rt, r.g), Renames(r, d.vg), |ds| - 1;
    UnlinksAll(rt, r.g);
    if i < |u| {
      PreTrace(src, u, w, ds);
      UnlinkNext(src, d, kernel, rt, r, ds);
    } else {
      SplitTrace(src, u, w, ds);
      UnlinkTrace(src, u, ds[..|u| + 1]);
      assert (u + w)[i] == w[i - |u|] && ds[|u|..][i - |u|] == ds[i];
      RenameNext(src, d, rt.slotgroups, r, ds[|u|..]);
    }
  }

  lemma RemovesOnly(d: Disk, gs: seq<SlotGroup>, r: Removal)
    requires Removes(d, gs, r)
    ensures OnlyGroup(gs, r.g, r.v)
  {
  }

  /** After any successful commands of a removal that unlinks no entry twice the next one can succeed. */
  lemma {:induction false} RemoveCanComplete(src: Sources, d: Disk, kernel: Kernel, rt: Runtime, version: Version,
                                             ds: seq<Disk>)
    returns (full: seq<Disk>)
    requires Sees(d, kernel, rt) && RemovePlan(rt, version).Ok?
    requires NoRepeat(Unlinks(rt, FindSlotGroup(rt, version).value))
    requires Trace(src, RemovePlan(rt, version).value, ds) && ds[0] == d
    ensures ds <= full && Trace(src, RemovePlan(rt, version).value, full)
    ensures |full| == |RemovePlan(rt, version).value| + 1
    decreases |RemovePlan(rt, version).value| + 1 - |ds|
  {
    hide Done, RemovePlan, Sees, FindSlotGroup, Unlinks, Renames, Removes, FreeIdentifier, NoRepeat;
    var plan := RemovePlan(rt, version).value;
    if |ds| == |plan| + 1 {
      full := ds;
    } else {
      var r := RemoveShape(d, kernel, rt, version);
      RemoveNext(src, d, kernel, rt, r, ds);
      var d' :| Done(src, ds[|ds| - 1], plan[|ds| - 1], d');
      full := RemoveCanComplete(src, d, kernel, rt, version, ds + [d']);
    }
  }

  /** A second unlink of the same entry fails. */
  lemma RepeatFails(src: Sources, u: seq<Pipeline>, w: seq<Pipeline>, ds: seq<Disk>)
    requires Trace(src, u + w, ds) && !NoRepeat(u) && forall c | c in u :: c.BootctlUnlink?
    ensures |ds| <= |u|
  {
    if |ds| > |u| {
      SplitTrace(src, u, w, ds);
      var front := ds[..|u| + 1];
      var i, j :| 0 <= i < j < |u| && u[i] == u[j];
      assert Done(src, front[j], u[j], front[j + 1]) && u[j] in u;
      LinkedUntil(src, u, front, u[j].id, j);
    }
  }

  /**
   * Exactly when a removal can be finished: iff it unlinks no entry twice, which only that of a legacy group may
   * do, where `bootctl` lists a type 1 entry more than once.
   */
  lemma RemoveCompletesIff(src: Sources, d: Disk, kernel: Kernel, rt: Runtime, version: Version)
    requires Sees(d, kernel, rt) && RemovePlan(rt, version).Ok?
    ensures (exists ds :: FullTrace(src, RemovePlan(rt, version).value, d, ds)) <==>
            NoRepeat(Unlinks(rt, FindSlotGroup(rt, version).value))
    ensures !FindSlotGroup(rt, version).value.IsLegacy() ==> NoRepeat(Unlinks(rt, FindSlotGroup(rt, version).value))
  {
    hide Done, RemovePlan, Sees, FindSlotGroup, Renames, Removes, FreeIdentifier, LegacyUnlinks;
    var r := RemoveShape(d, kernel, rt, version);
    if NoRepeat(Unlinks(rt, r.g)) {
      var ds := RemoveCanComplete(src, d, kernel, rt, version, [d]);
      assert FullTrace(src, RemovePlan(rt, version).value, d, ds);
    } else if ds :| FullTrace(src, RemovePlan(rt, version).value, d, ds) {
      UnlinksAll(rt, r.g);
      RepeatFails(src, Unlinks(rt, r.g), Renames(r, d.vg), ds);
    }
  }

  lemma PlainUnlinks(rt: Runtime, g: SlotGroup)
    requires !g.IsLegacy()
    ensures NoRepeat(Unlinks(rt, g))
  {
  }

  /** Every scan succeeds and the version is fresh in it. */
  ghost predicate FreshAgain(d: Disk, kernel: Kernel, t: Version) {
    forall vols, items | Listing(d, vols, items) ::
      Scan(vols, kernel, items).Ok? && FreshIn(Scan(vols, kernel, items).value.slotgroups, t)
  }

  /**
   * Removing first helps. On a disk with volumes of a version and no image of it, as an install that stopped
   * after a rename leaves it, there is a plan to remove the version and a full run of it, and then the version
   * is fresh again in every scan.
   */
  lemma RemovingHelps(src: Sources, d: Disk, kernel: Kernel, rt: Runtime, t: Version) returns (full: seq<Disk>)
    requires Sees(d, kernel, rt) && Unfinished(d, t) && NotBooted(kernel, t)
    requires t.hash.Some? && FreeIdentifier(rt.slotgroups).Ok? && d.esp.Keys !! d.type1
    ensures RemovePlan(rt, t).Ok? && full != [] && full[0] == d
    ensures Trace(src, RemovePlan(rt, t).value, full) && |full| == |RemovePlan(rt, t).value| + 1
    ensures FreshAgain(full[|full| - 1], kernel, t)
  {
    hide Done, RemovePlan, Sees, FindSlotGroup, Scan, Listing, Removes, Preserves, Retired, Unfinished,
      FreeIdentifier, NoRepeat, Unlinks;
    RemovePlanIff(d, kernel, rt, t);
    PlainUnlinks(rt, FindSlotGroup(rt, t).value);
    full := RemoveCanComplete(src, d, kernel, rt, t, [d]);
    var r := RemoveCorrect(src, d, kernel, rt, t, full);
    RemovesVersion(d, rt.slotgroups, r, t);
  }

  lemma RemovesVersion(d: Disk, gs: seq<SlotGroup>, r: Removal, t: Version)
    requires Removes(d, gs, r) && r.g.GroupVersion() == Some(t)
    ensures r.v == t
  {
  }

  /** Where an install of a fresh version has done a rename and not yet begun its image, it leaves such a disk. */
  lemma StoppedUnfinished(src: Sources, d: Disk, kernel: Kernel, rt: Runtime, m: Manifest, source: string,
                          ds: seq<Disk>, x: Disk)
    requires Sees(d, kernel, rt) && WellFormed(m) && Fresh(rt, m.ToVersion()) && InstallPlan(rt, m, source).Ok?
    requires StopsIn(src, InstallPlan(rt, m, source).value, ds, x) && ds[0] == d
    requires RenameDone(InstallPlan(rt, m, source).value, ds, x)
    requires var plan := InstallPlan(rt, m, source).value;
             forall i | 0 <= i < |ds| && i < |plan| :: !plan[i].InstallFile?
    ensures Unfinished(x, m.ToVersion())
  {
    hide DecodeStatus, SlotName, ParseUki, UkiName, Done, Interrupted, InstallPlan, RenameDone, Absent, Sees, Prepares,
      Migrates, NoUki, SelectsFor, ActiveSlot, Migration, Scanned, FreshIn;
    var t, plan := m.ToVersion(), InstallPlan(rt, m, source).value;
    var j, pre, tail := PlanShape(d, kernel, rt, m, source);
    SeesFacts(d, kernel, rt);
    FreshIff(d, rt.slotgroups, t);
    StopRenamed(src, d, j, pre, rt.slotgroups, tail, ds, x);
    AbsentNoUki(d, t);
    NoImageCame(src, plan, ds, x, t);
  }

  lemma NoImageCame(src: Sources, plan: seq<Pipeline>, ds: seq<Disk>, x: Disk, t: Version)
    requires StopsIn(src, plan, ds, x) && NoUki(ds[0], t)
    requires forall i | 0 <= i < |ds| && i < |plan| :: !plan[i].InstallFile?
    ensures NoUki(x, t)
  {
    hide Done, Interrupted, NoUki;
    EspTrace(src, plan, ds, |ds| - 1);
    FewerUkis(ds[0], ds[|ds| - 1], t);
    if x != ds[|ds| - 1] {
      EspStep(src, ds[|ds| - 1], plan[|ds| - 1], x);
      FewerUkis(ds[|ds| - 1], x, t);
    }
  }

  lemma AbsentNoUki(d: Disk, t: Version)
    requires Absent(d, t)
    ensures NoUki(d, t)
  {
  }

  // ---------------------------------------------------------------- what is lost

  /** The `i`th command has been done when the plan stops in `x`. */
  predicate Did(ds: seq<Disk>, x: Disk, i: nat)
    requires ds != []
  {
    i < |ds| - 1 || (i == |ds| - 1 && x != ds[|ds| - 1])
  }

  /** Exactly one rename of the plan has been done. */
  ghost predicate OneRename(plan: seq<Pipeline>, ds: seq<Disk>, x: Disk)
    requires ds != []
  {
    exists i :: 0 <= i < |plan| && OnlyRename(plan, ds, x, i)
  }

  ghost predicate OnlyRename(plan: seq<Pipeline>, ds: seq<Disk>, x: Disk, i: nat)
    requires ds != [] && i < |plan|
  {
    && plan[i].Lvrename? && Did(ds, x, i)
    && forall k | 0 <= k < |plan| && plan[k].Lvrename? && Did(ds, x, k) :: k == i
  }

  lemma RenamesAt(d: Disk, j: Job, pre: seq<Pipeline>, gs: seq<SlotGroup>, tail: seq<Pipeline>, i: nat)
    requires j.Valid() && Prepares(d, j, pre, gs) && Migrates(tail) && i < |pre + (j.Core() + tail)|
    ensures (pre + (j.Core() + tail))[i].Lvrename? <==> i == |pre| + 4 || i == |pre| + 5
  {
    hide DecodeStatus, SlotName, ParseUki, UkiName, Prepares;
    if i < |pre| + 4 {
      EarlyNoRename(d, j, pre, gs, tail, i);
    } else if i < |pre| + 7 {
      StepAt(pre, j.Core(), tail, i);
    } else {
      assert (pre + (j.Core() + tail))[i] in tail;
    }
  }

  /** If it is but one, it is that of the root volume, and the plan stopped right after it. */
  lemma StopsBetween(src: Sources, d: Disk, j: Job, pre: seq<Pipeline>, gs: seq<SlotGroup>, tail: seq<Pipeline>,
                     ds: seq<Disk>, x: Disk)
    returns (es: seq<Disk>)
    requires j.Valid() && Prepares(d, j, pre, gs) && Migrates(tail)
    requires StopsIn(src, pre + (j.Core() + tail), ds, x) && OneRename(pre + (j.Core() + tail), ds, x)
    ensures Trace(src, pre + (j.Core() + tail), es) && es[0] == ds[0] && |es| == |pre| + 6 && es[|pre| + 5] == x
  {
    hide DecodeStatus, SlotName, ParseUki, UkiName, Prepares, Done;
    var plan := pre + (j.Core() + tail);
    var i :| 0 <= i < |plan| && OnlyRename(plan, ds, x, i);
    RenamesAt(d, j, pre, gs, tail, i);
    RenamesAt(d, j, pre, gs, tail, |pre| + 4);
    RenamesAt(d, j, pre, gs, tail, |pre| + 5);
    if x == ds[|ds| - 1] {
      es := ds;
    } else {
      TraceOn(src, plan, ds, x);
      es := ds + [x];
    }
  }

  /** One half has its new name, the other its old one. */
  predicate HalfWay(d: Disk, st: Status, t: Version) {
    && HasLv(d, Root, Used(t)) && !HasLv(d, Verity, Used(t))
    && HasLv(d, Verity, st) && !HasLv(d, Root, st)
  }

  lemma BetweenHalfWay(src: Sources, d: Disk, j: Job, pre: seq<Pipeline>, gs: seq<SlotGroup>, tail: seq<Pipeline>,
                       es: seq<Disk>)
    requires j.Valid() && Prepares(d, j, pre, gs) && Migrates(tail) && j.vg == d.vg && NoVolumes(d, j.m.ToVersion())
    requires Trace(src, pre + (j.Core() + tail), es) && es[0] == d && |es| == |pre| + 6
    ensures HalfWay(es[|pre| + 5], j.st, j.m.ToVersion())
  {
    hide DecodeStatus, SlotName, ParseUki, UkiName, Prepares, Done, Enough;
    var root, verity := CorePart(src, d, j, pre, gs, tail, es);
    var back := es[|pre|..];
    NamesKept(src, j.Core() + tail, back, 4);
    assert Done(src, back[4], (j.Core() + tail)[4], back[5]);
    assert j.From(Root) in back[0].lvs.Keys && j.From(Verity) in back[0].lvs.Keys;
    assert j.To(Root) !in back[0].lvs.Keys && j.To(Verity) !in back[0].lvs.Keys;
    RoutesApart(src, j, root.before, verity.before);
    RootRenamed(src, back[4], back[5], j);
  }

  lemma RootRenamed(src: Sources, d: Disk, d': Disk, j: Job)
    requires j.Valid() && Done(src, d, Lvrename(j.vg, j.From(Root), j.To(Root)), d')
    requires j.From(Verity) in d.lvs.Keys && j.To(Verity) !in d.lvs.Keys && j.From(Root) != j.From(Verity)
    requires j.To(Root) != j.To(Verity) && j.From(Root) != j.To(Root)
    ensures HalfWay(d', j.st, j.m.ToVersion())
  {
    hide DecodeStatus, SlotName;
  }

  lemma {:induction false} Type1Kept(src: Sources, plan: seq<Pipeline>, ds: seq<Disk>, n: nat)
    requires Trace(src, plan, ds) && n < |ds| && forall c | c in plan :: !c.BootctlUnlink?
    ensures ds[n].type1 == ds[0].type1
  {
    if n > 0 {
      Type1Kept(src, plan, ds, n - 1);
      assert Done(src, ds[n - 1], plan[n - 1], ds[n]) && plan[n - 1] in plan;
    }
  }

  /**
   * An install of a fresh version that stopped with exactly one rename done leaves its root volume under the new
   * name, its verity volume under the old one, and no image, with or without a power loss.
   */
  lemma StoppedHalfWay(src: Sources, d: Disk, kernel: Kernel, rt: Runtime, m: Manifest, source: string, ds: seq<Disk>,
                       x: Disk, d': Disk)
    returns (j: Job)
    requires Sees(d, kernel, rt) && WellFormed(m) && Fresh(rt, m.ToVersion()) && InstallPlan(rt, m, source).Ok?
    requires StopsIn(src, InstallPlan(rt, m, source).value, ds, x) && ds[0] == d && (d' == x || PowerLoss(x, d'))
    requires OneRename(InstallPlan(rt, m, source).value, ds, x)
    ensures j.Valid() && SelectsFor(d, rt, m, j) && HalfWay(d', j.st, m.ToVersion()) && Unfinished(d', m.ToVersion())
    ensures d'.esp.Keys <= d.esp.Keys && d'.type1 == d.type1
  {
    hide DecodeStatus, SlotName, ParseUki, UkiName, Done, Interrupted, InstallPlan, OneRename, HalfWay, Prepares, Fits;
    var t := m.ToVersion();
    var pre, tail;
    j, pre, tail := PlanShape(d, kernel, rt, m, source);
    SeesFacts(d, kernel, rt);
    FreshDisk(d, rt.slotgroups, t);
    var es := StopsBetween(src, d, j, pre, rt.slotgroups, tail, ds, x);
    BetweenHalfWay(src, d, j, pre, rt.slotgroups, tail, es);
    HalfWayNames(x, d', j.st, t);
    UkiAbsent(src, d, j, pre, rt.slotgroups, tail, es, x);
    FewerUkis(x, d', t);
    PlanNoUnlink(d, j, pre, rt.slotgroups, tail);
    Type1Kept(src, pre + (j.Core() + tail), es, |pre| + 5);
    BeforeImage(src, d, j, pre, rt.slotgroups, tail, es);
  }

  lemma BeforeImage(src: Sources, d: Disk, j: Job, pre: seq<Pipeline>, gs: seq<SlotGroup>, tail: seq<Pipeline>,
                    es: seq<Disk>)
    requires j.Valid() && Prepares(d, j, pre, gs) && Trace(src, pre + (j.Core() + tail), es) && |es| == |pre| + 6
    ensures es[|pre| + 5].esp.Keys <= es[0].esp.Keys
  {
    hide DecodeStatus, SlotName, ParseUki, UkiName, Done, Prepares;
    forall i | 0 <= i < |pre| + 5
      ensures !(pre + (j.Core() + tail))[i].InstallFile?
    {
      NoInstallBefore(d, j, pre, gs, tail, i);
    }
    EspTrace(src, pre + (j.Core() + tail), es, |pre| + 5);
  }

  lemma HalfWayNames(d: Disk, d': Disk, st: Status, t: Version)
    requires HalfWay(d, st, t) && d'.lvs.Keys == d.lvs.Keys
    ensures HalfWay(d', st, t) && (HasLv(d', Root, Used(t)) || HasLv(d', Verity, Used(t)))
  {
    hide SlotName;
    assert forall n :: n in d'.lvs.Keys <==> n in d.lvs.Keys;
  }

  /** There are such stops: every full run of an install comes by one. */
  lemma HalfWayReached(src: Sources, d: Disk, kernel: Kernel, rt: Runtime, m: Manifest, source: string, ds: seq<Disk>)
    returns (n: nat)
    requires Sees(d, kernel, rt) && WellFormed(m) && Fresh(rt, m.ToVersion()) && InstallPlan(rt, m, source).Ok?
    requires var plan := InstallPlan(rt, m, source).value; Trace(src, plan, ds) && |ds| == |plan| + 1 && ds[0] == d
    ensures 0 < n <= |ds| && OneRename(InstallPlan(rt, m, source).value, ds[..n], ds[n - 1])
    ensures StopsIn(src, InstallPlan(rt, m, source).value, ds[..n], ds[n - 1])
  {
    hide DecodeStatus, SlotName, ParseUki, UkiName, Done, InstallPlan, Prepares;
    var j, pre, tail := PlanShape(d, kernel, rt, m, source);
    var plan := InstallPlan(rt, m, source).value;
    n := |pre| + 6;
    RenamesAt(d, j, pre, rt.slotgroups, tail, |pre| + 4);
    forall k | 0 <= k < |plan| && plan[k].Lvrename? && Did(ds[..n], ds[n - 1], k)
      ensures k == |pre| + 4
    {
      RenamesAt(d, j, pre, rt.slotgroups, tail, k);
    }
    assert OnlyRename(plan, ds[..n], ds[n - 1], |pre| + 4);
  }

  lemma HalfStatus(d: Disk, gs: seq<SlotGroup>, r: Removal, d': Disk, st: Status)
    requires Removes(d, gs, r) && d'.lvs == Retired(d.lvs, r) && r.Has(Root) && !r.Has(Verity)
    requires HasLv(d, Verity, st) && !HasLv(d, Root, st) && st.Empty?
    ensures st != Empty(Known(r.id)) && Lone(d', Verity, st) && !HasLv(d', Verity, Empty(Known(r.id)))
  {
    hide DecodeStatus, SlotName, Retired;
    RetiredConserves(d, gs, r);
    RetiredKind(d, gs, r, d', Verity);
    assert !HasLv(d, Verity, Empty(Known(r.id)));
    PrintThenDecode(Root, st);
    PrintThenDecode(Verity, st);
    PrintThenDecode(Root, Used(r.v));
    PrintThenDecode(Root, Empty(Known(r.id)));
  }

  function Other(k: Kind): Kind {
    match k case Root => Verity case Verity => Root
  }

  /** Of the two volumes of the status only that of kind `k` is there. */
  predicate Lone(d: Disk, k: Kind, st: Status) {
    HasLv(d, k, st) && !HasLv(d, Other(k), st)
  }

  /** The volumes of these statuses no longer make a pair, so no install will select them. */
  ghost predicate Unpaired(gs: seq<SlotGroup>, st: Status, id: string) {
    forall g | g in gs && HasVolume(g) && (StatusOf(g) == st || StatusOf(g) == Empty(Known(id))) :: !g.IsComplete()
  }

  /**
   * What a removal after the first rename loses: the root volume gets a new identifier while the verity
   * volume keeps the old one, so neither is part of a complete pair any more in any scan.
   */
  lemma HalvesPart(src: Sources, d: Disk, kernel: Kernel, rt: Runtime, t: Version, ds: seq<Disk>, st: Status)
    returns (r: Removal)
    requires Sees(d, kernel, rt) && RemovePlan(rt, t).Ok? && d.esp.Keys !! d.type1
    requires FullTrace(src, RemovePlan(rt, t).value, d, ds)
    requires HalfWay(d, st, t) && st.Empty? && FindSlotGroup(rt, t).value.GroupVersion() == Some(t)
    ensures FindSlotGroup(rt, t) == Ok(r.g) && FreeIdentifier(rt.slotgroups) == Ok(r.id)
    ensures st != Empty(Known(r.id))
    ensures Lone(ds[|ds| - 1], Root, Empty(Known(r.id))) && Lone(ds[|ds| - 1], Verity, st)
    ensures forall vols, items | Listing(ds[|ds| - 1], vols, items) ::
              Scan(vols, kernel, items).Ok? && Unpaired(Scan(vols, kernel, items).value.slotgroups, st, r.id)
  {
    hide Done, RemovePlan, FindSlotGroup, Scan, Listing, Preserves, Retired, Retires, DecodeStatus, SlotName, ParseUki,
      FreeIdentifier;
    r := RemoveCorrect(src, d, kernel, rt, t, ds);
    RemovesVersion(d, rt.slotgroups, r, t);
    SeesFacts(d, kernel, rt);
    var d' := ds[|ds| - 1];
    OnlyGroupVolumes(d, rt.slotgroups, r.g, t);
    HalfStatus(d, rt.slotgroups, r, d', st);
    RetiredKind(d, rt.slotgroups, r, d', Root);
    forall vols, items | Listing(d', vols, items)
      ensures Scan(vols, kernel, items).Ok? && Unpaired(Scan(vols, kernel, items).value.slotgroups, st, r.id)
    {
      ScanExact(d', vols, kernel, items);
      UnpairedIn(d', Scan(vols, kernel, items).value.slotgroups, st, r.id);
    }
  }

  lemma UnpairedIn(d: Disk, gs: seq<SlotGroup>, st: Status, id: string)
    requires Scanned(d, gs) && !HasLv(d, Root, st) && !HasLv(d, Verity, Empty(Known(id)))
    ensures Unpaired(gs, st, id)
  {
    hide DecodeStatus, SlotName, ParseUki;
    forall g | g in gs && HasVolume(g) && (StatusOf(g) == st || StatusOf(g) == Empty(Known(id)))
      ensures !g.IsComplete()
    {
      assert Fits(d, g);
    }
  }
}
