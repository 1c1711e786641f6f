/** Remove plans run on a disk: the frame, crash safety, and what a finished removal leaves. */
module Remove {
  import opened Wrappers
  import opened Text
  import opened Slots
  import opened Uki
  import opened Groups
  import opened Runtime
  import opened Plan
  import opened Disk
  import opened Inventory
  import opened Frame
  import opened Install
  import opened CrashSafety
  import opened Commit
  import opened Retry

  /** `g` is the only group of a version `v`. */
  ghost predicate OnlyGroup(gs: seq<SlotGroup>, g: SlotGroup, v: Version) {
    g in gs && g.GroupVersion() == Some(v) && forall h | h in gs && h.GroupVersion() == Some(v) :: h == g
  }

  lemma ExactlyOneIs(gs: seq<SlotGroup>, p: SlotGroup -> bool)
    requires ExactlyOne(gs, p).Ok? && ExactlyOne(gs, p).value.Some?
    ensures var g := ExactlyOne(gs, p).value.value; g in gs && p(g) && forall h | h in gs && p(h) :: h == g
  {
    var i := FilterOneIndex(gs, p);
  }

  /** Whichever way a group is found, it is the only one of its version. */
  lemma FoundIsOnly(rt: Runtime, version: Version)
    requires FindSlotGroup(rt, version).Ok?
    ensures var g := FindSlotGroup(rt, version).value;
            g.GroupVersion().Some? && OnlyGroup(rt.slotgroups, g, g.GroupVersion().value)
    ensures var g := FindSlotGroup(rt, version).value; g.GroupVersion().value.revision == version.revision
  {
    var gs := rt.slotgroups;
    var p := (g: SlotGroup) => g.GroupVersion() == Some(version);
    var q := (g: SlotGroup) =>
      && g.GroupVersion().Some? && g.GroupVersion().value.revision == version.revision
      && g.GroupVersion().value.hash.Some?;
    if ExactlyOne(gs, p).value.Some? {
      ExactlyOneIs(gs, p);
    } else {
      ExactlyOneIs(gs, q);
    }
  }

  /** Only the group at `i` is of version `v`. */
  ghost predicate OnlyVersion(gs: seq<SlotGroup>, v: Version, i: nat): (r: bool)
    ensures r ==> i < |gs|
  {
    i < |gs| && forall j | 0 <= j < |gs| :: gs[j].GroupVersion() == Some(v) <==> j == i
  }

  predicate HasRevision(g: SlotGroup, revision: string) {
    var v := g.GroupVersion();
    v.Some? && v.value.revision == revision && v.value.hash.Some?
  }

  /** Only the group at `i` has the revision and a hash. */
  ghost predicate OnlyRevision(gs: seq<SlotGroup>, revision: string, i: nat): (r: bool)
    ensures r ==> i < |gs|
  {
    i < |gs| && forall j | 0 <= j < |gs| :: HasRevision(gs[j], revision) <==> j == i
  }

  ghost predicate NoVersion(gs: seq<SlotGroup>, v: Version) {
    forall j | 0 <= j < |gs| :: gs[j].GroupVersion() != Some(v)
  }

  lemma ByVersion(gs: seq<SlotGroup>, v: Version) returns (i: nat)
    ensures var r := ExactlyOne(gs, (g: SlotGroup) => g.GroupVersion() == Some(v));
            && (NoVersion(gs, v) <==> r == Ok(None))
            && (forall k: nat | OnlyVersion(gs, v, k) :: r == Ok(Some(gs[k])))
            && (r.Ok? && r.value.Some? ==> OnlyVersion(gs, v, i))
  {
    i := 0;
    var p := (g: SlotGroup) => g.GroupVersion() == Some(v);
    FilterNone(gs, p);
    forall k: nat | OnlyVersion(gs, v, k)
      ensures Filter(gs, p) == [gs[k]]
    {
      FilterOne(gs, p, k);
    }
    if |Filter(gs, p)| == 1 {
      i := FilterOneIndex(gs, p);
      assert forall j | 0 <= j < |gs| :: p(gs[j]) <==> j == i;
    }
  }

  lemma ByRevision(gs: seq<SlotGroup>, revision: string) returns (i: nat)
    ensures var r := ExactlyOne(gs, (g: SlotGroup) =>
              && g.GroupVersion().Some? && g.GroupVersion().value.revision == revision
              && g.GroupVersion().value.hash.Some?);
            && (forall k: nat | OnlyRevision(gs, revision, k) :: r == Ok(Some(gs[k])))
            && (r.Ok? && r.value.Some? ==> OnlyRevision(gs, revision, i))
  {
    i := 0;
    var p := (g: SlotGroup) =>
      && g.GroupVersion().Some? && g.GroupVersion().value.revision == revision
      && g.GroupVersion().value.hash.Some?;
    forall k: nat | OnlyRevision(gs, revision, k)
      ensures Filter(gs, p) == [gs[k]]
    {
      assert forall j | 0 <= j < |gs| :: p(gs[j]) == HasRevision(gs[j], revision);
      FilterOne(gs, p, k);
    }
    if |Filter(gs, p)| == 1 {
      i := FilterOneIndex(gs, p);
      assert forall j | 0 <= j < |gs| :: p(gs[j]) <==> j == i;
      assert forall j | 0 <= j < |gs| :: p(gs[j]) == HasRevision(gs[j], revision);
    }
  }

  /** The group at `i` is the one meant: the only one of the version, or else of its revision if no hash is given. */
  ghost predicate Meant(gs: seq<SlotGroup>, v: Version, i: nat): (r: bool)
    ensures r ==> i < |gs|
  {
    OnlyVersion(gs, v, i) || (NoVersion(gs, v) && v.hash.None? && OnlyRevision(gs, v.revision, i))
  }

  /** A group is found exactly if one is meant, and then it is that one. */
  lemma FoundIff(rt: Runtime, version: Version)
    ensures FindSlotGroup(rt, version).Ok? <==> exists i: nat :: Meant(rt.slotgroups, version, i)
    ensures forall i: nat | Meant(rt.slotgroups, version, i) :: FindSlotGroup(rt, version) == Ok(rt.slotgroups[i])
  {
    hide ExactlyOne, OnlyVersion, OnlyRevision, NoVersion;
    var gs := rt.slotgroups;
    var i := ByVersion(gs, version);
    var k := ByRevision(gs, version.revision);
    if FindSlotGroup(rt, version).Ok? {
      assert Meant(gs, version, i) || Meant(gs, version, k);
    }
    forall n: nat | Meant(gs, version, n)
      ensures FindSlotGroup(rt, version) == Ok(gs[n])
    {
    }
  }

  /** A removal is planned exactly if a group is meant, it is not the active one, and an identifier is free. */
  lemma PlannedIff(d: Disk, rt: Runtime, version: Version)
    requires Scanned(d, rt.slotgroups)
    ensures RemovePlan(rt, version).Ok? <==>
            && FreeIdentifier(rt.slotgroups).Ok?
            && exists i: nat :: Meant(rt.slotgroups, version, i) && !rt.slotgroups[i].IsActive(rt.kernel)
  {
    hide FindSlotGroup, FreeIdentifier, RemovalId, RemoveSteps, Meant, Scanned;
    var gs := rt.slotgroups;
    FoundIff(rt, version);
    if FindSlotGroup(rt, version).Ok? {
      OwnIdUnreachable(d, rt, version);
      var i: nat :| Meant(gs, version, i);
      assert FindSlotGroup(rt, version) == Ok(gs[i]);
      assert RemovePlan(rt, version).Ok? <==> FreeIdentifier(gs).Ok? && !gs[i].IsActive(rt.kernel);
    }
  }

  /** A group that has a version has no identifier of its own, so the removed group always gets a fresh one. */
  lemma OwnIdUnreachable(d: Disk, rt: Runtime, version: Version)
    requires Scanned(d, rt.slotgroups) && FindSlotGroup(rt, version).Ok?
    ensures var g := FindSlotGroup(rt, version).value;
            && g.EmptyIdText() == None && RemovalId(rt, g) == FreeIdentifier(rt.slotgroups)
  {
    FoundIsOnly(rt, version);
    assert Fits(d, FindSlotGroup(rt, version).value);
  }

  /** What a successful removal works on. */
  datatype Removal = Removal(g: SlotGroup, v: Version, id: string) {
    function Old(k: Kind): string {
      SlotName(k, Used(v))
    }

    function New(k: Kind): string {
      SlotName(k, Empty(Known(id)))
    }

    predicate Has(k: Kind) {
      match k case Root => g.root.Some? case Verity => g.verity.Some?
    }
  }

  ghost predicate Removes(d: Disk, gs: seq<SlotGroup>, r: Removal) {
    && OnlyGroup(gs, r.g, r.v) && Printable(Empty(Known(r.id)))
    && (forall k :: !HasLv(d, k, Empty(Known(r.id))))
    && (forall k :: r.Has(k) <==> HasLv(d, k, Used(r.v)))
  }

  function Unlinks(rt: Runtime, g: SlotGroup): seq<Pipeline> {
    (match g.boot case Some(b) => [BootctlUnlink(b.id)] case None => [])
    + (if g.IsLegacy() then LegacyUnlinks(rt.bootEntries) else [])
  }

  function RenameOne(r: Removal, vg: string, k: Kind): seq<Pipeline> {
    if r.Has(k) then [Lvrename(vg, r.Old(k), r.New(k))] else []
  }

  function Renames(r: Removal, vg: string): seq<Pipeline> {
    RenameOne(r, vg, Root) + RenameOne(r, vg, Verity)
  }

  lemma OnlyGroupVolumes(d: Disk, gs: seq<SlotGroup>, g: SlotGroup, v: Version)
    requires Scanned(d, gs) && OnlyGroup(gs, g, v)
    ensures g.root.Some? <==> HasLv(d, Root, Used(v))
    ensures g.verity.Some? <==> HasLv(d, Verity, Used(v))
    ensures forall id | HasUki(d, id, v) :: g.boot.Some? && g.boot.value.id == id
    ensures g.boot.Some? ==> IsUki(g.boot.value.id, v) && g.boot.value.id in d.esp
    ensures g.root.Some? ==> g.root.value.volume.vgName == d.vg && g.root.value.volume.lvName == SlotName(Root, Used(v))
    ensures g.verity.Some? ==> g.verity.value.volume.vgName == d.vg
    ensures g.verity.Some? ==> g.verity.value.volume.lvName == SlotName(Verity, Used(v))
  {
    hide DecodeStatus, SlotName, ParseUki;
    assert Fits(d, g);
    if HasLv(d, Root, Used(v)) {
      var i := GroupOfStatus(d, gs, Root, Used(v));
      assert gs[i] == g;
    }
    if HasLv(d, Verity, Used(v)) {
      var i := GroupOfStatus(d, gs, Verity, Used(v));
      assert gs[i] == g;
    }
    forall id | HasUki(d, id, v)
      ensures g.boot.Some? && g.boot.value.id == id
    {
      var i := GroupOfUki(d, gs, id, v);
      assert gs[i] == g;
    }
    if g.root.Some? {
      DecodeThenPrint(g.root.value.volume.lvName);
    }
    if g.verity.Some? {
      DecodeThenPrint(g.verity.value.volume.lvName);
    }
  }

  lemma RenameShape(slot: Option<Slot>, k: Kind, id: string, vg: string, old_: string)
    requires slot.Some? ==> slot.value.volume.vgName == vg && slot.value.volume.lvName == old_
    ensures var c := Lvrename(vg, old_, SlotName(k, Empty(Known(id))));
            RenameToEmpty(slot, KindName(k), id) == if slot.Some? then [c] else []
  {
  }

  lemma StepsShape(rt: Runtime, r: Removal, vg: string)
    requires r.g.root.Some? ==> r.g.root.value.volume.vgName == vg && r.g.root.value.volume.lvName == r.Old(Root)
    requires r.g.verity.Some? ==> r.g.verity.value.volume.vgName == vg
    requires r.g.verity.Some? ==> r.g.verity.value.volume.lvName == r.Old(Verity)
    ensures RemoveSteps(rt, r.g, r.id) == Unlinks(rt, r.g) + Renames(r, vg)
  {
    hide SlotName, LegacyUnlinks, RenameToEmpty;
    RenameShape(r.g.root, Root, r.id, vg, r.Old(Root));
    RenameShape(r.g.verity, Verity, r.id, vg, r.Old(Verity));
    assert RenameToEmpty(r.g.root, "root", r.id) == RenameOne(r, vg, Root);
    assert RenameToEmpty(r.g.verity, "verity", r.id) == RenameOne(r, vg, Verity);
  }

  /** Every remove plan: unlink the image, unlink the legacy entries if the slot is legacy, rename the volumes. */
  lemma RemoveShape(d: Disk, kernel: Kernel, rt: Runtime, version: Version) returns (r: Removal)
    requires Sees(d, kernel, rt) && RemovePlan(rt, version).Ok?
    ensures FindSlotGroup(rt, version) == Ok(r.g) && !r.g.IsActive(kernel)
    ensures Removes(d, rt.slotgroups, r) && FreeIdentifier(rt.slotgroups) == Ok(r.id)
    ensures RemovePlan(rt, version).value == Unlinks(rt, r.g) + Renames(r, d.vg)
  {
    hide DecodeStatus, SlotName, ParseUki, FindSlotGroup, FreeIdentifier, HasEmptyWithHash, RemoveSteps, Unlinks,
      Renames, RemovalId, Removes, OnlyGroup, Scanned, PrintNat;
    SeesFacts(d, kernel, rt);
    FoundIsOnly(rt, version);
    OwnIdUnreachable(d, rt, version);
    var g := FindSlotGroup(rt, version).value;
    r := RemovalFits(d, rt.slotgroups, g, g.GroupVersion().value);
    OnlyGroupVolumes(d, rt.slotgroups, g, r.v);
    StepsShape(rt, r, d.vg);
  }

  lemma RemovalFits(d: Disk, gs: seq<SlotGroup>, g: SlotGroup, v: Version) returns (r: Removal)
    requires Scanned(d, gs) && OnlyGroup(gs, g, v) && FreeIdentifier(gs).Ok?
    ensures r.g == g && r.v == v && Removes(d, gs, r) && FreeIdentifier(gs) == Ok(r.id)
  {
    hide DecodeStatus, SlotName, ParseUki, FreeIdentifier, Scanned, PrintNat, LeastId, HasId;
    var n := FreshIdentifier(gs);
    DigitsPlain(n);
    r := Removal(g, v, PrintNat(n));
    FreeIdAbsent(d, gs, r.id);
    OnlyGroupVolumes(d, gs, g, v);
    forall k
      ensures r.Has(k) <==> HasLv(d, k, Used(r.v))
    {
    }
  }

  // ---------------------------------------------------------------- safety of every prefix

  /** The commands of a removal: unlinking, and renaming to an empty slot. */
  predicate RemoveCommand(c: Pipeline) {
    c.BootctlUnlink? || (c.Lvrename? && EmptyName(c.to))
  }

  lemma UnlinksSafe(rt: Runtime, g: SlotGroup, vg: string, v: Version, type1: set<string>, c: Pipeline)
    requires g.boot.Some? ==> IsUki(g.boot.value.id, v)
    requires forall e | e in rt.bootEntries && e.kind.LegacyEntry? :: e.id in type1
    requires c in Unlinks(rt, g)
    ensures SafeFor(c, vg, v, type1) && RemoveCommand(c)
  {
    hide ParseUki;
    if g.boot.Some? && c == BootctlUnlink(g.boot.value.id) {
    } else {
      assert c in LegacyUnlinks(rt.bootEntries);
    }
  }

  lemma RemovePlanSafe(d: Disk, kernel: Kernel, rt: Runtime, r: Removal)
    requires Sees(d, kernel, rt) && Removes(d, rt.slotgroups, r)
    ensures AllSafe(Unlinks(rt, r.g) + Renames(r, d.vg), d.vg, r.v, d.type1)
    ensures forall c | c in Unlinks(rt, r.g) + Renames(r, d.vg) :: RemoveCommand(c)
  {
    hide DecodeStatus, SlotName, ParseUki, Unlinks, Renames, SafeFor, RemoveCommand;
    SeesFacts(d, kernel, rt);
    OnlyGroupVolumes(d, rt.slotgroups, r.g, r.v);
    forall c | c in Unlinks(rt, r.g) + Renames(r, d.vg)
      ensures SafeFor(c, d.vg, r.v, d.type1) && RemoveCommand(c)
    {
      if c in Renames(r, d.vg) {
        RenamesSafe(d, r, c);
      } else {
        UnlinksSafe(rt, r.g, d.vg, r.v, d.type1, c);
      }
    }
  }

  lemma RenamesSafe(d: Disk, r: Removal, c: Pipeline)
    requires c in Renames(r, d.vg) && Printable(Empty(Known(r.id))) && forall k :: r.Has(k) ==> HasLv(d, k, Used(r.v))
    ensures SafeFor(c, d.vg, r.v, d.type1) && RemoveCommand(c)
  {
    hide DecodeStatus, SlotName;
    var k := if c in RenameOne(r, d.vg, Root) then Root else Verity;
    assert c == Lvrename(d.vg, r.Old(k), r.New(k)) && HasLv(d, k, Used(r.v));
    PrintThenDecode(k, Used(r.v));
    PrintThenDecode(k, Empty(Known(r.id)));
  }

  /** Volumes of `v` are never made. */
  ghost predicate NoNewLv(d: Disk, d': Disk, v: Version) {
    forall k | HasLv(d', k, Used(v)) :: HasLv(d, k, Used(v))
  }

  lemma RemoveStep(src: Sources, d: Disk, c: Pipeline, d': Disk, v: Version)
    requires RemoveCommand(c) && (Done(src, d, c, d') || Interrupted(src, d, c, d'))
    ensures d'.esp.Keys <= d.esp.Keys && NoNewLv(d, d', v)
  {
    hide DecodeStatus, SlotName;
    forall k | HasLv(d', k, Used(v))
      ensures HasLv(d, k, Used(v))
    {
      PrintThenDecode(k, Used(v));
    }
  }

  lemma {:induction false} RemoveTrace(src: Sources, plan: seq<Pipeline>, ds: seq<Disk>, v: Version, type1: set<string>)
    requires Trace(src, plan, ds) && AllSafe(plan, ds[0].vg, v, type1) && ds[0].esp.Keys !! type1
    requires forall c | c in plan :: RemoveCommand(c)
    ensures var d' := ds[|ds| - 1]; Preserves(ds[0], d', v) && d'.esp.Keys <= ds[0].esp.Keys && NoNewLv(ds[0], d', v)
    decreases |ds|
  {
    hide DecodeStatus, SlotName, ParseUki;
    if |ds| > 1 {
      var k, before := |ds| - 2, ds[..|ds| - 1];
      assert Trace(src, plan, before);
      RemoveTrace(src, plan, before, v, type1);
      assert Done(src, ds[k], plan[k], ds[k + 1]) && plan[k] in plan;
      SafeStep(src, ds[k], plan[k], ds[k + 1], v, type1);
      RemoveStep(src, ds[k], plan[k], ds[k + 1], v);
    }
  }

  lemma RemoveStops(src: Sources, plan: seq<Pipeline>, ds: seq<Disk>, x: Disk, v: Version, type1: set<string>)
    requires StopsIn(src, plan, ds, x) && AllSafe(plan, ds[0].vg, v, type1) && ds[0].esp.Keys !! type1
    requires forall c | c in plan :: RemoveCommand(c)
    ensures Preserves(ds[0], x, v) && x.esp.Keys <= ds[0].esp.Keys && NoNewLv(ds[0], x, v)
  {
    hide DecodeStatus, SlotName, ParseUki;
    RemoveTrace(src, plan, ds, v, type1);
    var last := ds[|ds| - 1];
    if x != last {
      var c := plan[|ds| - 1];
      assert c in plan;
      SafeStep(src, last, c, x, v, type1);
      RemoveStep(src, last, c, x, v);
    }
  }

  lemma NoDoubleFewer(d: Disk, d': Disk, v: Version)
    requires Keeps(d, d', v) && d'.esp.Keys <= d.esp.Keys && NoNewLv(d, d', v) && !DoubleUki(d)
    ensures !DoubleUki(d')
  {
    hide ParseUki, SlotName;
    if a, b, w :| HasUki(d', a, w) && HasUki(d', b, w) && a != b && HasLv(d', Root, Used(w)) {
      if w != v {
        HasLvKept(d, d', v, Root, w);
      }
      assert HasUki(d, a, w) && HasUki(d, b, w);
    }
  }

  lemma RemovedNotBooted(d: Disk, g: SlotGroup, v: Version, kernel: Kernel)
    requires Fits(d, g) && g.GroupVersion() == Some(v) && !g.IsActive(kernel)
    ensures NotBooted(kernel, v)
  {
  }

  /**
   * A removal never touches the active group: wherever it stops, with or without power, other versions,
   * their images and every unmanaged volume are kept, and a new scan finds the same active slot.
   */
  lemma RemoveCrashSafe(src: Sources, d: Disk, kernel: Kernel, rt: Runtime, version: Version, ds: seq<Disk>, x: Disk,
                        d': Disk)
    returns (r: Removal)
    requires Sees(d, kernel, rt) && RemovePlan(rt, version).Ok? && d.esp.Keys !! d.type1
    requires StopsIn(src, RemovePlan(rt, version).value, ds, x) && ds[0] == d && (d' == x || PowerLoss(x, d'))
    ensures FindSlotGroup(rt, version) == Ok(r.g) && r.g.GroupVersion() == Some(r.v)
    ensures Keeps(d, d', r.v) && !DoubleUki(d')
    ensures ActiveSlot(rt).Ok? && Settled(d, ActiveSlot(rt).value) ==> StillActive(d, rt, d')
  {
    hide DecodeStatus, SlotName, ParseUki;
    r := RemoveShape(d, kernel, rt, version);
    SeesFacts(d, kernel, rt);
    RemovePlanSafe(d, kernel, rt, r);
    RemoveStops(src, RemovePlan(rt, version).value, ds, x, r.v, d.type1);
    FrameThenLoss(d, x, d', r.v);
    LossNoNewLv(d, x, d', r.v);
    NoDoubleFewer(d, d', r.v);
    assert Fits(d, r.g);
    RemovedNotBooted(d, r.g, r.v, kernel);
    if ActiveSlot(rt).Ok? && Settled(d, ActiveSlot(rt).value) {
      KeepsActive(d, kernel, rt, d', r.v);
    }
  }

  lemma LossNoNewLv(d: Disk, x: Disk, d': Disk, v: Version)
    requires NoNewLv(d, x, v) && (d' == x || PowerLoss(x, d'))
    ensures NoNewLv(d, d', v)
  {
    hide SlotName;
    forall k | HasLv(d', k, Used(v))
      ensures HasLv(d, k, Used(v))
    {
      assert SlotName(k, Used(v)) in d'.lvs.Keys;
      assert HasLv(x, k, Used(v));
    }
  }

  // ---------------------------------------------------------------- a finished removal

  function Moved(lvs: map<string, Lv>, from: string, to: string): map<string, Lv> {
    if from in lvs then (lvs - {from})[to := lvs[from]] else lvs
  }

  /** The volumes of the group under their new names, everything else where it was. */
  function Retired(lvs: map<string, Lv>, r: Removal): map<string, Lv> {
    var a := if r.Has(Root) then Moved(lvs, r.Old(Root), r.New(Root)) else lvs;
    if r.Has(Verity) then Moved(a, r.Old(Verity), r.New(Verity)) else a
  }

  /** Renaming loses nothing: as many volumes, each with its contents. */
  lemma MovedConserves(lvs: map<string, Lv>, from: string, to: string)
    requires from in lvs && to !in lvs
    ensures |Moved(lvs, from, to)| == |lvs|
    ensures to in Moved(lvs, from, to) && Moved(lvs, from, to)[to] == lvs[from] && from !in Moved(lvs, from, to)
    ensures forall n | n in lvs && n != from :: n in Moved(lvs, from, to) && Moved(lvs, from, to)[n] == lvs[n]
    ensures forall n | n in Moved(lvs, from, to) :: n == to || n in lvs
  {
    var m := lvs - {from};
    assert lvs.Keys == m.Keys + {from};
    assert Moved(lvs, from, to).Keys == m.Keys + {to};
  }

  lemma OldNewOn(d: Disk, gs: seq<SlotGroup>, r: Removal, k: Kind)
    requires Removes(d, gs, r) && r.Has(k)
    ensures r.Old(k) in d.lvs && r.New(k) !in d.lvs
    ensures DecodeStatus(r.Old(k)) == Ok((k, Used(r.v))) && DecodeStatus(r.New(k)) == Ok((k, Empty(Known(r.id))))
  {
    hide DecodeStatus, SlotName;
    assert HasLv(d, k, Used(r.v)) && !HasLv(d, k, Empty(Known(r.id)));
    PrintThenDecode(k, Used(r.v));
    PrintThenDecode(k, Empty(Known(r.id)));
  }

  /** Two moves at once, on plain names. */
  lemma TwoMoves(lvs: map<string, Lv>, a: string, a': string, b: string, b': string)
    requires a in lvs && b in lvs && a' !in lvs && b' !in lvs && a != b && a' != b'
    ensures var m := Moved(Moved(lvs, a, a'), b, b');
            && |m| == |lvs| && a' in m && b' in m && m[a'] == lvs[a] && m[b'] == lvs[b] && a !in m && b !in m
            && (forall n | n in lvs && n != a && n != b :: n in m && m[n] == lvs[n])
            && (forall n | n in m :: n in lvs || n == a' || n == b')
  {
    MovedConserves(lvs, a, a');
    MovedConserves(Moved(lvs, a, a'), b, b');
  }

  /** Where volume `n` of the old map is, and which names are new. */
  ghost predicate Conserved(lvs: map<string, Lv>, m: map<string, Lv>, r: Removal) {
    && |m| == |lvs|
    && (r.Has(Root) ==>
          r.Old(Root) in lvs && r.Old(Root) !in m && r.New(Root) in m && m[r.New(Root)] == lvs[r.Old(Root)])
    && (r.Has(Verity) ==>
          r.Old(Verity) in lvs && r.Old(Verity) !in m && r.New(Verity) in m && m[r.New(Verity)] == lvs[r.Old(Verity)])
    && (forall n | n in lvs && !(r.Has(Root) && n == r.Old(Root)) && !(r.Has(Verity) && n == r.Old(Verity)) ::
          n in m && m[n] == lvs[n])
    && (forall n | n in m :: n in lvs || (r.Has(Root) && n == r.New(Root)) || (r.Has(Verity) && n == r.New(Verity)))
  }

  /** A removal keeps the number of volumes and the contents of each, and leaves none of the version. */
  lemma RetiredConserves(d: Disk, gs: seq<SlotGroup>, r: Removal)
    requires Removes(d, gs, r)
    ensures Conserved(d.lvs, Retired(d.lvs, r), r)
  {
    hide SlotName, HasLv, Moved, DecodeStatus;
    if r.Has(Root) {
      OldNewOn(d, gs, r, Root);
      MovedConserves(d.lvs, r.Old(Root), r.New(Root));
    }
    if r.Has(Verity) {
      OldNewOn(d, gs, r, Verity);
      MovedConserves(d.lvs, r.Old(Verity), r.New(Verity));
    }
    if r.Has(Root) && r.Has(Verity) {
      TwoMoves(d.lvs, r.Old(Root), r.New(Root), r.Old(Verity), r.New(Verity));
    }
  }

  lemma {:induction false} UnlinkTrace(src: Sources, plan: seq<Pipeline>, ds: seq<Disk>)
    requires Trace(src, plan, ds) && forall c | c in plan :: c.BootctlUnlink?
    ensures var d' := ds[|ds| - 1]; d'.lvs == ds[0].lvs && d'.vg == ds[0].vg
    ensures forall i | 0 <= i < |ds| - 1 :: plan[i].id !in ds[|ds| - 1].esp
    ensures forall id | id in ds[|ds| - 1].esp :: id in ds[0].esp && ds[|ds| - 1].esp[id] == ds[0].esp[id]
    decreases |ds|
  {
    if |ds| > 1 {
      var k, before := |ds| - 2, ds[..|ds| - 1];
      assert Trace(src, plan, before);
      UnlinkTrace(src, plan, before);
      assert Done(src, ds[k], plan[k], ds[k + 1]) && plan[k] in plan;
    }
  }

  lemma UnlinksAll(rt: Runtime, g: SlotGroup)
    ensures forall c | c in Unlinks(rt, g) :: c.BootctlUnlink?
    ensures g.boot.Some? ==> Unlinks(rt, g) != [] && Unlinks(rt, g)[0] == BootctlUnlink(g.boot.value.id)
  {
  }

  lemma RenameTrace(src: Sources, r: Removal, vg: string, ds: seq<Disk>)
    requires Trace(src, Renames(r, vg), ds) && |ds| == |Renames(r, vg)| + 1
    ensures var d' := ds[|ds| - 1]; d'.lvs == Retired(ds[0].lvs, r) && d'.esp == ds[0].esp
  {
    hide SlotName;
    if |ds| > 1 {
      assert Done(src, ds[0], Renames(r, vg)[0], ds[1]);
    }
    if |ds| > 2 {
      assert Done(src, ds[1], Renames(r, vg)[1], ds[2]);
    }
  }

  /** The version is gone and its volumes form the empty group `id`. */
  ghost predicate Retires(gs': seq<SlotGroup>, r: Removal) {
    && FreshIn(gs', r.v)
    && (r.Has(Root) || r.Has(Verity) ==>
          exists i :: 0 <= i < |gs'| && gs'[i].IsEmpty() && gs'[i].EmptyIdText() == Some(r.id) && gs'[i].boot.None?
                      && (gs'[i].root.Some? <==> r.Has(Root)) && (gs'[i].verity.Some? <==> r.Has(Verity)))
  }

  lemma RetiredRun(src: Sources, d: Disk, rt: Runtime, r: Removal, ds: seq<Disk>)
    requires Removes(d, rt.slotgroups, r) && Scanned(d, rt.slotgroups)
    requires var plan := Unlinks(rt, r.g) + Renames(r, d.vg); Trace(src, plan, ds) && |ds| == |plan| + 1 && ds[0] == d
    ensures var d' := ds[|ds| - 1]; d'.lvs == Retired(d.lvs, r) && NoUki(d', r.v)
  {
    hide SlotName, ParseUki, Unlinks, Renames, DecodeStatus, Retired;
    var u, w := Unlinks(rt, r.g), Renames(r, d.vg);
    SplitTrace(src, u, w, ds);
    UnlinksAll(rt, r.g);
    UnlinkTrace(src, u, ds[..|u| + 1]);
    RenameTrace(src, r, d.vg, ds[|u|..]);
    OnlyGroupVolumes(d, rt.slotgroups, r.g, r.v);
    var d' := ds[|ds| - 1];
    assert forall id | HasUki(d', id, r.v) :: HasUki(d, id, r.v);
    if r.g.boot.Some? {
      assert u[0].id !in d'.esp;
    }
  }

  lemma RetiredAbsent(d: Disk, gs: seq<SlotGroup>, r: Removal, d': Disk)
    requires Removes(d, gs, r) && d'.lvs == Retired(d.lvs, r) && NoUki(d', r.v)
    ensures Absent(d', r.v)
    ensures HasLv(d', Root, Empty(Known(r.id))) <==> r.Has(Root)
    ensures HasLv(d', Verity, Empty(Known(r.id))) <==> r.Has(Verity)
  {
    hide SlotName, DecodeStatus, Retired, ParseUki;
    RetiredKind(d, gs, r, d', Root);
    RetiredKind(d, gs, r, d', Verity);
  }

  lemma RetiredKind(d: Disk, gs: seq<SlotGroup>, r: Removal, d': Disk, k: Kind)
    requires Removes(d, gs, r) && d'.lvs == Retired(d.lvs, r)
    ensures !HasLv(d', k, Used(r.v)) && (HasLv(d', k, Empty(Known(r.id))) <==> r.Has(k))
  {
    hide SlotName, DecodeStatus, Retired;
    RetiredConserves(d, gs, r);
    assert r.Has(k) <==> HasLv(d, k, Used(r.v));
    assert !HasLv(d, k, Empty(Known(r.id)));
    PrintThenDecode(k, Used(r.v));
    PrintThenDecode(k, Empty(Known(r.id)));
    PrintThenDecode(Root, Empty(Known(r.id)));
    PrintThenDecode(Verity, Empty(Known(r.id)));
  }

  lemma RetiredScan(d': Disk, gs': seq<SlotGroup>, r: Removal)
    requires Scanned(d', gs') && Absent(d', r.v)
    requires HasLv(d', Root, Empty(Known(r.id))) <==> r.Has(Root)
    requires HasLv(d', Verity, Empty(Known(r.id))) <==> r.Has(Verity)
    ensures Retires(gs', r)
  {
    hide SlotName, DecodeStatus, ParseUki;
    FreshIff(d', gs', r.v);
    if r.Has(Root) || r.Has(Verity) {
      var k := if r.Has(Root) then Root else Verity;
      assert HasLv(d', k, Empty(Known(r.id)));
      var i := GroupOfStatus(d', gs', k, Empty(Known(r.id)));
      assert Fits(d', gs'[i]);
      assert gs'[i].EmptyIdText() == Some(r.id);
    }
  }

  /**
   * A full run of a remove plan: as many volumes with the same contents, only the removed ones under new
   * names; every other version and unmanaged volume unchanged; and in every new scan the version is gone
   * and its volumes form an empty group under an identifier that was free.
   */
  lemma RemoveCorrect(src: Sources, d: Disk, kernel: Kernel, rt: Runtime, version: Version, ds: seq<Disk>)
    returns (r: Removal)
    requires Sees(d, kernel, rt) && RemovePlan(rt, version).Ok? && d.esp.Keys !! d.type1
    requires var plan := RemovePlan(rt, version).value; Trace(src, plan, ds) && |ds| == |plan| + 1 && ds[0] == d
    ensures FindSlotGroup(rt, version) == Ok(r.g) && FreeIdentifier(rt.slotgroups) == Ok(r.id)
    ensures Removes(d, rt.slotgroups, r)
    ensures var d' := ds[|ds| - 1];
            && d'.lvs == Retired(d.lvs, r) && |d'.lvs| == |d.lvs| && Preserves(d, d', r.v)
            && forall vols, items | Listing(d', vols, items) ::
                 var s := Scan(vols, kernel, items);
                 s.Ok? && Retires(s.value.slotgroups, r)
  {
    hide SlotName, DecodeStatus, ParseUki, Retired, Unlinks, Renames, Retires;
    r := RemoveShape(d, kernel, rt, version);
    SeesFacts(d, kernel, rt);
    RemovePlanSafe(d, kernel, rt, r);
    var d' := ds[|ds| - 1];
    RemoveStops(src, RemovePlan(rt, version).value, ds, d', r.v, d.type1);
    RetiredRun(src, d, rt, r, ds);
    RetiredConserves(d, rt.slotgroups, r);
    RetiredAbsent(d, rt.slotgroups, r, d');
    FrameThenLoss(d, d', d', r.v);
    NoDoubleFewer(d, d', r.v);
    forall vols, items | Listing(d', vols, items)
      ensures var s := Scan(vols, kernel, items); s.Ok? && Retires(s.value.slotgroups, r)
    {
      ScanExact(d', vols, kernel, items);
      RetiredScan(d', Scan(vols, kernel, items).value.slotgroups, r);
    }
  }
}
