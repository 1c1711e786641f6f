/** Dashes in names: which volume an unescaped device path leads to, and what that does to installs. */
module Dashes {
  import opened Wrappers
  import opened Slots
  import opened Uki
  import opened Groups
  import opened Runtime
  import opened Plan
  import opened Disk
  import opened Inventory
  import opened Frame
  import opened Install
  import opened CrashSafety
  import opened Commit

  function EmptyVolume(k: Kind, id: string): string {
    SlotName(k, Empty(Known(id)))
  }

  /** The pairs of an identifier and of its escaped form both exist, so the paths of the second lead to the first. */
  predicate Twinned(d: Disk, id: string) {
    && Printable(Empty(Known(id)))
    && EmptyVolume(Root, id) in d.lvs && EmptyVolume(Root, Escaped(id)) in d.lvs
    && EmptyVolume(Verity, id) in d.lvs && EmptyVolume(Verity, Escaped(id)) in d.lvs
  }

  /** No pair of empty slots can be mistaken for another. */
  ghost predicate Unaliased(d: Disk) {
    '-' in d.vg || forall id | '-' in id :: !Twinned(d, id)
  }

  /** The slot that an install would select is the twin of the pair of `id`. */
  predicate TwinOf(d: Disk, rt: Runtime, id: string) {
    && '-' !in d.vg && '-' in id && Twinned(d, id)
    && var g := FirstEmpty(rt.slotgroups, rt.kernel); g.Some? && g.value.EmptyIdText() == Some(Escaped(id))
  }

  /** The paths of the slot that an install would select lead to another pair. */
  ghost predicate SelectedTwin(d: Disk, rt: Runtime) {
    exists id :: TwinOf(d, rt, id)
  }

  predicate DashlessName(s: Option<Slot>) {
    s.Some? ==> '-' !in s.value.volume.lvName
  }

  /** The paths of the slot that an install would select lead to it. */
  predicate StraightSelection(d: Disk, rt: Runtime) {
    && '-' !in d.vg
    && match FirstEmpty(rt.slotgroups, rt.kernel)
       case Some(g) => DashlessName(g.root) && DashlessName(g.verity)
       case None => true
  }

  // ---------------------------------------------------------------- the selected slot

  lemma StraightIff(d: Disk, rt: Runtime, j: Job)
    requires Scanned(d, rt.slotgroups) && j.Valid() && j.vg == d.vg && SelectsFor(d, rt, j.m, j)
    ensures Straight(j) <==> StraightSelection(d, rt)
  {
    hide DecodeStatus, SlotName, UkiName, NewEmptySlot, ActiveSlot, ResizeSteps;
    match FirstEmpty(rt.slotgroups, rt.kernel)
    case Some(g) => assert SelectUpdateSlot(rt, j.m).value.slot.root == g.root;
    case None => NewSlotDashless(d, rt, j);
  }

  lemma UnaliasedSelection(d: Disk, rt: Runtime)
    requires Unaliased(d)
    ensures !SelectedTwin(d, rt)
  {
  }

  lemma {:induction false} EscapedDash(s: string)
    ensures '-' in s ==> '-' in Escaped(s)
  {
    if s != [] {
      EscapedDash(s[1..]);
      assert s == [s[0]] + s[1..];
    }
  }

  /** A job of a slot with an escaped identifier is one for a slot that was found. */
  lemma EscapedWasFound(d: Disk, rt: Runtime, j: Job, id: string)
    requires Scanned(d, rt.slotgroups) && j.Valid() && SelectsFor(d, rt, j.m, j)
    requires '-' in id && j.st == Empty(Known(Escaped(id)))
    ensures var g := FirstEmpty(rt.slotgroups, rt.kernel); g.Some? && g.value.EmptyIdText() == Some(Escaped(id))
  {
    hide DecodeStatus, SlotName, UkiName, NewEmptySlot, ActiveSlot, ResizeSteps, Escaped;
    match FirstEmpty(rt.slotgroups, rt.kernel)
    case Some(g) => assert SelectUpdateSlot(rt, j.m).value.slot.root == g.root;
    case None =>
      NewSlotDashless(d, rt, j);
      EscapedDash(id);
      EmptyNameNoDash(Root, Escaped(id));
  }

  /** A slot with a twin has a dash in its name: the cases exclude each other. */
  lemma TwinNotStraight(d: Disk, rt: Runtime)
    requires Scanned(d, rt.slotgroups) && SelectedTwin(d, rt)
    ensures !StraightSelection(d, rt)
  {
    hide DecodeStatus, SlotName, Escaped;
    var id :| TwinOf(d, rt, id);
    var g := FirstEmpty(rt.slotgroups, rt.kernel).value;
    assert Fits(d, g);
    DecodeThenPrint(g.root.value.volume.lvName);
    EscapedDash(id);
    EmptyNameNoDash(Root, Escaped(id));
  }

  lemma NewSlotDashless(d: Disk, rt: Runtime, j: Job)
    requires Scanned(d, rt.slotgroups) && NewEmptySlot(rt, j.m).Ok? && SlotOf(NewEmptySlot(rt, j.m).value.0, d.vg, j.st)
    ensures '-' !in j.From(Root) && '-' !in j.From(Verity)
  {
    hide DecodeStatus, SlotName, NewEmptySlot;
    var j' := NewSlotShape(d, rt, j.m, j.source);
    EmptyNameNoDash(Root, j'.st.emptyId.id);
    EmptyNameNoDash(Verity, j'.st.emptyId.id);
    assert j.From(Root) == j'.From(Root) && j.From(Verity) == j'.From(Verity);
  }

  // ---------------------------------------------------------------- where a path leads

  /** If a path of a job with a dash leads anywhere, it is to the pair whose identifier escapes to the one selected. */
  lemma LedAstray(d: Disk, j: Job, k: Kind) returns (id: string)
    requires j.Valid() && d.vg == j.vg && !Straight(j) && Target(d, DeviceFile(j.vg, j.From(k))).Some?
    ensures '-' !in d.vg && '-' in id && Printable(Empty(Known(id))) && j.st == Empty(Known(Escaped(id)))
    ensures Target(d, DeviceFile(j.vg, j.From(k))) == Some(EmptyVolume(k, id)) && EmptyVolume(k, id) in d.lvs
  {
    hide DecodeStatus, Escaped;
    var n := Target(d, DeviceFile(j.vg, j.From(k))).value;
    FromIsEmpty(j, k);
    EmptyNameStarts(j.From(k));
    PathResolves(d.vg, j.From(k), n);
    LegacyStraight(j);
    var p := KindName(k) + "_empty_";
    assert j.From(k) == p + j.st.emptyId.id;
    id := UnescapePrefix(n, p, j.st.emptyId.id);
    EmptyNameNoDash(Root, j.st.emptyId.id);
    EmptyNameNoDash(Verity, j.st.emptyId.id);
    EscapedNoDash(id);
    EscapedMember(id, '_');
    assert EmptyVolume(k, id) == p + id;
  }

  lemma LegacyStraight(j: Job)
    requires j.Valid() && '-' !in j.vg && !Straight(j)
    ensures j.st.Empty? && j.st.emptyId.Known?
  {
    LegacyNames();
  }

  lemma LegacyNames()
    ensures '-' !in SlotName(Root, Empty(Legacy)) && '-' !in SlotName(Verity, Empty(Legacy))
  {
    assert SlotName(Root, Empty(Legacy)) == "root_empty" && SlotName(Verity, Empty(Legacy)) == "verity_empty";
  }

  lemma CommonTwin(d: Disk, j: Job) returns (id: string)
    requires j.Valid() && d.vg == j.vg && !Straight(j) && j.From(Root) in d.lvs && j.From(Verity) in d.lvs
    requires Target(d, DeviceFile(j.vg, j.From(Root))).Some? && Target(d, DeviceFile(j.vg, j.From(Verity))).Some?
    ensures '-' !in d.vg && '-' in id && Twinned(d, id) && j.st == Empty(Known(Escaped(id)))
  {
    hide DecodeStatus, Escaped, SlotName;
    id := LedAstray(d, j, Root);
    var id' := LedAstray(d, j, Verity);
    EscapedInjective(id, id');
  }

  // ---------------------------------------------------------------- an install with dashes

  /** Commands that leave the names of the volumes alone. */
  predicate KeepsNames(c: Pipeline) {
    c.WriteImage? || c.FlushBufs? || c.Lvresize?
  }

  lemma {:induction false} NamesKept(src: Sources, plan: seq<Pipeline>, ds: seq<Disk>, n: nat)
    requires Trace(src, plan, ds) && n < |ds| && forall i | 0 <= i < n :: KeepsNames(plan[i])
    ensures ds[n].lvs.Keys == ds[0].lvs.Keys && ds[n].vg == ds[0].vg
  {
    if n > 0 {
      NamesKept(src, plan, ds, n - 1);
      assert Done(src, ds[n - 1], plan[n - 1], ds[n]);
    }
  }

  lemma {:induction false} GroupNameKept(src: Sources, plan: seq<Pipeline>, ds: seq<Disk>, n: nat)
    requires Trace(src, plan, ds) && n < |ds|
    ensures ds[n].vg == ds[0].vg
  {
    if n > 0 {
      GroupNameKept(src, plan, ds, n - 1);
      assert Done(src, ds[n - 1], plan[n - 1], ds[n]);
    }
  }

  lemma GrowKeepsNames(d: Disk, j: Job, pre: seq<Pipeline>, r: Slot, v: Slot, tail: seq<Pipeline>, i: nat)
    requires Grows(d, j, pre, r, v) && |j.m.rootVerityHash| >= 16 && i < |pre| + 4
    ensures i < |pre + (j.Core() + tail)| && KeepsNames((pre + (j.Core() + tail))[i])
  {
    hide SlotName, DecodeStatus;
    var plan := pre + (j.Core() + tail);
    if i < |pre| {
      assert plan[i] == pre[i];
    } else {
      assert plan[i] == j.Core()[i - |pre|];
    }
  }

  lemma TargetByNames(d: Disk, d': Disk, path: string)
    requires d'.vg == d.vg && d'.lvs.Keys == d.lvs.Keys && Target(d, path).Some?
    ensures Target(d', path).Some?
  {
    assert Target(d, path).value in d'.lvs.Keys;
    assert Resolves(d', path, Target(d, path).value);
  }

  /** Both flushes can succeed only where the pair has a twin. */
  lemma FlushesNeedTwin(src: Sources, d: Disk, j: Job, pre: seq<Pipeline>, gs: seq<SlotGroup>, tail: seq<Pipeline>,
                        ds: seq<Disk>)
    returns (id: string)
    requires j.Valid() && Prepares(d, j, pre, gs) && j.vg == d.vg && !Straight(j)
    requires Trace(src, pre + (j.Core() + tail), ds) && ds[0] == d && |ds| > |pre| + 4
    ensures '-' !in d.vg && '-' in id && Twinned(d, id) && j.st == Empty(Known(Escaped(id)))
  {
    hide DecodeStatus, SlotName, ParseUki, UkiName, Escaped;
    var plan, n := pre + (j.Core() + tail), |pre| + 2;
    assert plan[n] == FlushBufs(DeviceFile(j.vg, j.From(Root)));
    assert plan[n + 1] == FlushBufs(DeviceFile(j.vg, j.From(Verity)));
    assert Done(src, ds[n], plan[n], ds[n + 1]);
    assert Done(src, ds[n + 1], plan[n + 1], ds[n + 2]);
    GroupNameKept(src, plan, ds, n);
    var id' := LedAstray(ds[n], j, Root);
    if r, v :| GrowsKnown(d, j, pre, gs, r, v) {
      GrowsTwin(src, d, j, pre, r, v, tail, ds);
      id := CommonTwin(d, j);
    } else {
      var r, v :| Creates(d, j, pre, r, v);
      EmptyNameNoDash(Root, j.st.emptyId.id);
      EmptyNameNoDash(Verity, j.st.emptyId.id);
      id := id';
    }
  }

  lemma GrowsTwin(src: Sources, d: Disk, j: Job, pre: seq<Pipeline>, r: Slot, v: Slot, tail: seq<Pipeline>,
                  ds: seq<Disk>)
    requires j.Valid() && Grows(d, j, pre, r, v) && j.vg == d.vg
    requires Trace(src, pre + (j.Core() + tail), ds) && ds[0] == d && |ds| > |pre| + 4
    ensures j.From(Root) in d.lvs && j.From(Verity) in d.lvs
    ensures Target(d, DeviceFile(j.vg, j.From(Root))).Some? && Target(d, DeviceFile(j.vg, j.From(Verity))).Some?
  {
    hide DecodeStatus, SlotName, ParseUki, UkiName, Escaped;
    var plan, n := pre + (j.Core() + tail), |pre| + 2;
    forall i | 0 <= i < |pre| + 4
      ensures i < |plan| && KeepsNames(plan[i])
    {
      GrowKeepsNames(d, j, pre, r, v, tail, i);
    }
    NamesKept(src, plan, ds, n);
    NamesKept(src, plan, ds, n + 1);
    assert plan[n] == FlushBufs(DeviceFile(j.vg, j.From(Root)));
    assert plan[n + 1] == FlushBufs(DeviceFile(j.vg, j.From(Verity)));
    assert Done(src, ds[n], plan[n], ds[n + 1]);
    assert Done(src, ds[n + 1], plan[n + 1], ds[n + 2]);
    TargetByNames(ds[n], d, DeviceFile(j.vg, j.From(Root)));
    TargetByNames(ds[n + 1], d, DeviceFile(j.vg, j.From(Verity)));
    DecodeThenPrint(r.volume.lvName);
    DecodeThenPrint(v.volume.lvName);
  }

  lemma FlushedTwin(src: Sources, d: Disk, rt: Runtime, j: Job, pre: seq<Pipeline>, tail: seq<Pipeline>, ds: seq<Disk>)
    returns (id: string)
    requires j.Valid() && Scanned(d, rt.slotgroups) && SelectsFor(d, rt, j.m, j) && Prepares(d, j, pre, rt.slotgroups)
    requires j.vg == d.vg && !Straight(j)
    requires Trace(src, pre + (j.Core() + tail), ds) && ds[0] == d && |ds| > |pre| + 4
    ensures TwinOf(d, rt, id) && j.st == Empty(Known(Escaped(id)))
  {
    hide DecodeStatus, SlotName, ParseUki, UkiName, Escaped, Straight, Twinned, Scanned, FirstEmpty, SelectUpdateSlot;
    id := FlushesNeedTwin(src, d, j, pre, rt.slotgroups, tail, ds);
    EscapedWasFound(d, rt, j, id);
  }

  /** With a dash in the way and no twin, a run stops before both volumes are flushed. */
  lemma DashedStops(src: Sources, d: Disk, rt: Runtime, j: Job, pre: seq<Pipeline>, tail: seq<Pipeline>, ds: seq<Disk>)
    requires j.Valid() && Scanned(d, rt.slotgroups) && SelectsFor(d, rt, j.m, j) && Prepares(d, j, pre, rt.slotgroups)
    requires j.vg == d.vg && !Straight(j) && !SelectedTwin(d, rt)
    requires Trace(src, pre + (j.Core() + tail), ds) && ds[0] == d
    ensures |ds| <= |pre| + 4
  {
    hide Straight, Scanned, SelectsFor, Prepares, TwinOf;
    if |ds| > |pre| + 4 {
      var id := FlushedTwin(src, d, rt, j, pre, tail, ds);
    }
  }

  /**
   * With a dash in the name of the volume group, or in that of the selected slot and no twin to take it for,
   * no install can complete.
   */
  lemma DashedNeverCompletes(src: Sources, d: Disk, kernel: Kernel, rt: Runtime, m: Manifest, source: string,
                             ds: seq<Disk>)
    requires Sees(d, kernel, rt) && WellFormed(m) && InstallPlan(rt, m, source).Ok?
    requires SelectUpdateSlot(rt, m) != Ok(AlreadyInstalled)
    requires !StraightSelection(d, rt) && !SelectedTwin(d, rt)
    requires Trace(src, InstallPlan(rt, m, source).value, ds) && ds[0] == d
    ensures |ds| <= |InstallPlan(rt, m, source).value|
  {
    hide DecodeStatus, SlotName, ParseUki, UkiName, Escaped, Straight, Twinned, InstallPlan, SelectUpdateSlot,
      StraightSelection, SelectedTwin, Done;
    var j, pre, tail := SelectedPlanShape(d, kernel, rt, m, source);
    SeesFacts(d, kernel, rt);
    StraightIff(d, rt, j);
    DashedStops(src, d, rt, j, pre, tail, ds);
  }

  // ---------------------------------------------------------------- names with dashes

  lemma EscapedSlotName(k: Kind, id: string)
    ensures Escaped(SlotName(k, Empty(Known(id)))) == SlotName(k, Empty(Known(Escaped(id))))
  {
    var p := KindName(k) + "_empty_";
    assert SlotName(k, Empty(Known(id))) == p + id;
    assert SlotName(k, Empty(Known(Escaped(id)))) == p + Escaped(id);
    EscapedConcat(p, id);
    EscapedNoDash(p);
  }

  /**
   * Dashes are not escaped in device paths. With the identifiers `a-b` and `a--b` in use, as with any
   * identifier and its escaped form, the image meant for the second slot is written to the first.
   */
  lemma DashedSlotMisses(d: Disk, k: Kind, id: string)
    requires '-' !in d.vg && '-' in id
    requires EmptyVolume(k, id) in d.lvs && EmptyVolume(k, Escaped(id)) in d.lvs
    ensures Target(d, DeviceFile(d.vg, EmptyVolume(k, Escaped(id)))) == Some(EmptyVolume(k, id))
    ensures EmptyVolume(k, id) != EmptyVolume(k, Escaped(id))
  {
    var n, n0 := SlotName(k, Empty(Known(id))), SlotName(k, Empty(Known(Escaped(id))));
    EscapedSlotName(k, id);
    EmptyNameNoDash(k, id);
    EscapedNoDash(n);
    Misses(d, n, n0);
  }

  lemma Misses(d: Disk, n: string, n0: string)
    requires '-' !in d.vg && n in d.lvs && n0 == Escaped(n) && n != "" && n0 != "" && n0[0] != '-'
    ensures Target(d, DeviceFile(d.vg, n0)) == Some(n)
  {
    PathResolves(d.vg, n0, n);
    assert Resolves(d, DeviceFile(d.vg, n0), n);
    var found := Target(d, DeviceFile(d.vg, n0)).value;
    PathResolves(d.vg, n0, found);
    EscapedInjective(found, n);
  }
}
