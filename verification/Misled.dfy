/** An install to a slot that has a twin: it completes, and what it boots was never written. */
module Misled {
  import opened Wrappers
  import opened Slots
  import opened Uki
  import opened Groups
  import opened Runtime
  import opened Plan
  import opened Disk
  import opened Inventory
  import opened Install
  import opened CrashSafety
  import opened Commit
  import opened Dashes
  import opened Progress
  import opened Truncated
  import opened Retry

  // ---------------------------------------------------------------- on plain names

  /** The name of a volume before and after, and the volume its path leads to. */
  datatype Names = Names(from: string, to: string, twin: string)

  predicate Distinct(a: Names, b: Names) {
    && a.from != a.to && a.from != a.twin && a.to != a.twin && b.from != b.to && b.from != b.twin && b.to != b.twin
    && a.from != b.from && a.from != b.to && a.from != b.twin && a.to != b.from && a.to != b.to && a.to != b.twin
    && a.twin != b.from && a.twin != b.to && a.twin != b.twin
  }

  /** The volume is as it was, under one of its names, and its twin has its size. */
  predicate Untouched(d: Disk, a: Names, lv: Lv, size: nat, renamed: bool) {
    && (if renamed then a.to in d.lvs && a.from !in d.lvs && d.lvs[a.to] == lv
        else a.from in d.lvs && a.to !in d.lvs && d.lvs[a.from] == lv)
    && a.twin in d.lvs && |d.lvs[a.twin].data| == size
  }

  /** A write or a flush through a path that leads to the twin of `a` changes that alone, and not its size. */
  lemma TwinOnly(src: Sources, d: Disk, c: Pipeline, of: string, d': Disk, a: Names, b: Names, la: Lv, lb: Lv, sa: nat,
                 sb: nat)
    requires Distinct(a, b) && Untouched(d, a, la, sa, false) && Untouched(d, b, lb, sb, false)
    requires (c.WriteImage? && c.of == of) || c == FlushBufs(of)
    requires Target(d, of) == Some(a.twin) && Done(src, d, c, d')
    ensures Untouched(d', a, la, sa, false) && Untouched(d', b, lb, sb, false)
    ensures d'.vg == d.vg && d'.lvs.Keys == d.lvs.Keys
  {
  }

  lemma RenameUntouched(src: Sources, d: Disk, d': Disk, vg: string, a: Names, b: Names, la: Lv, lb: Lv, sa: nat,
                        sb: nat, rb: bool)
    requires Distinct(a, b) && Untouched(d, a, la, sa, false) && Untouched(d, b, lb, sb, rb)
    requires Done(src, d, Lvrename(vg, a.from, a.to), d')
    ensures Untouched(d', a, la, sa, true) && Untouched(d', b, lb, sb, rb) && d'.vg == d.vg
  {
  }

  // ---------------------------------------------------------------- the seven steps

  function NamesOf(j: Job, k: Kind, id: string): Names
    requires |j.m.rootVerityHash| >= 16
  {
    Names(j.From(k), j.To(k), EmptyVolume(k, id))
  }

  lemma NamesDistinct(j: Job, id: string)
    requires j.Valid() && '-' in id && Printable(Empty(Known(id))) && j.st == Empty(Known(Escaped(id)))
    ensures Distinct(NamesOf(j, Root, id), NamesOf(j, Verity, id))
  {
    hide DecodeStatus, SlotName, Escaped;
    FromIsEmpty(j, Root);
    FromIsEmpty(j, Verity);
    PrintThenDecode(Root, Empty(Known(id)));
    PrintThenDecode(Verity, Empty(Known(id)));
    EscapedNoDash(id);
  }

  /** The files can be read and fit the twins, and the names are fit for volumes. */
  predicate TwinsFit(src: Sources, d: Disk, m: Manifest, source: string, id: string)
    requires WellFormed(m) && Twinned(d, id)
  {
    && FitsTwin(src, d, m.store, source, EmptyVolume(Root, id))
    && FitsTwin(src, d, m.verity, source, EmptyVolume(Verity, id))
    && Read(src, FullName(source, m.kernel.name), false).Whole?
    && '/' !in m.ToVersion().revision && '/' !in m.ToVersion().hash.value
  }

  predicate FitsTwin(src: Sources, d: Disk, file: File, source: string, n: string)
    requires n in d.lvs
  {
    var r := Read(src, FullName(source, file.name), IsCompressed(file.name));
    (r.Whole? || IsCompressed(file.name)) && |r.bytes| <= |d.lvs[n].data|
  }

  lemma TwinPrintable(d: Disk, id: string)
    requires Twinned(d, id)
    ensures Printable(Empty(Known(id))) && EmptyVolume(Root, id) in d.lvs && EmptyVolume(Verity, id) in d.lvs
    ensures EmptyVolume(Root, Escaped(id)) in d.lvs && EmptyVolume(Verity, Escaped(id)) in d.lvs
  {
    hide SlotName, Escaped;
  }

  lemma TwinnedByNames(d: Disk, d': Disk, id: string)
    requires Twinned(d, id) && d'.lvs.Keys == d.lvs.Keys
    ensures Twinned(d', id)
  {
    hide SlotName, Escaped;
    assert EmptyVolume(Root, id) in d'.lvs.Keys && EmptyVolume(Root, Escaped(id)) in d'.lvs.Keys;
    assert EmptyVolume(Verity, id) in d'.lvs.Keys && EmptyVolume(Verity, Escaped(id)) in d'.lvs.Keys;
  }

  /**
   * After `n` steps of the core: both volumes are as they were on `d0`, the root volume renamed by the fifth
   * step, the verity volume by the sixth, and until then their paths lead to the twins.
   */
  predicate Astray(d0: Disk, d: Disk, j: Job, id: string, n: nat)
    requires j.Valid()
  {
    && '-' !in j.vg && '-' in id && j.st == Empty(Known(Escaped(id)))
    && Twinned(d0, id) && d.vg == j.vg && (n <= 4 ==> d.lvs.Keys == d0.lvs.Keys)
    && Untouched(d, NamesOf(j, Root, id), d0.lvs[j.From(Root)], |d0.lvs[EmptyVolume(Root, id)].data|, n > 4)
    && Untouched(d, NamesOf(j, Verity, id), d0.lvs[j.From(Verity)], |d0.lvs[EmptyVolume(Verity, id)].data|, n > 5)
  }

  lemma AstrayTarget(d0: Disk, d: Disk, j: Job, id: string, n: nat, k: Kind)
    requires j.Valid() && Astray(d0, d, j, id, n) && n <= 4
    ensures Target(d, DeviceFile(j.vg, j.From(k))) == Some(EmptyVolume(k, id))
  {
    hide DecodeStatus, SlotName, Escaped;
    TwinnedByNames(d0, d, id);
    DashedSlotMisses(d, k, id);
  }

  /** The first four steps go to the twins. */
  lemma AstrayDevice(src: Sources, d0: Disk, d: Disk, d': Disk, j: Job, id: string, n: nat)
    requires j.Valid() && n < 4 && Astray(d0, d, j, id, n) && Done(src, d, j.Core()[n], d')
    ensures Astray(d0, d', j, id, n + 1)
  {
    hide DecodeStatus, SlotName, Escaped, Done, Twinned, Target;
    TwinPrintable(d0, id);
    var a, b := NamesOf(j, Root, id), NamesOf(j, Verity, id);
    var la, lb, sa, sb := d0.lvs[a.from], d0.lvs[b.from], |d0.lvs[a.twin].data|, |d0.lvs[b.twin].data|;
    NamesDistinct(j, id);
    var k := if n == 0 || n == 2 then Root else Verity;
    AstrayTarget(d0, d, j, id, n, k);
    var c, of := j.Core()[n], DeviceFile(j.vg, j.From(k));
    match k
    case Root => TwinOnly(src, d, c, of, d', a, b, la, lb, sa, sb);
    case Verity => TwinOnly(src, d, c, of, d', b, a, lb, la, sb, sa);
  }

  lemma AstrayRename(src: Sources, d0: Disk, d: Disk, d': Disk, j: Job, id: string, n: nat)
    requires j.Valid() && 4 <= n <= 5 && Astray(d0, d, j, id, n) && Done(src, d, j.Core()[n], d')
    ensures Astray(d0, d', j, id, n + 1)
  {
    hide DecodeStatus, SlotName, Escaped, Done, Twinned;
    TwinPrintable(d0, id);
    var a, b := NamesOf(j, Root, id), NamesOf(j, Verity, id);
    var la, lb, sa, sb := d0.lvs[a.from], d0.lvs[b.from], |d0.lvs[a.twin].data|, |d0.lvs[b.twin].data|;
    NamesDistinct(j, id);
    if n == 4 {
      RenameUntouched(src, d, d', j.vg, a, b, la, lb, sa, sb, false);
    } else {
      RenameUntouched(src, d, d', j.vg, b, a, lb, la, sb, sa, true);
    }
  }

  lemma LateSame(src: Sources, d: Disk, c: Pipeline, d': Disk)
    requires Late(c) && Done(src, d, c, d')
    ensures d'.lvs == d.lvs && d'.vg == d.vg
  {
  }

  lemma AstrayStep(src: Sources, d0: Disk, d: Disk, d': Disk, j: Job, steps: seq<Pipeline>, id: string, n: nat)
    requires j.Valid() && j.Core() <= steps && Migrates(steps[7..]) && n < |steps|
    requires Astray(d0, d, j, id, n) && Done(src, d, steps[n], d')
    ensures Astray(d0, d', j, id, n + 1)
  {
    hide DecodeStatus, SlotName, Escaped, Done, Astray;
    if n < 6 {
      assert steps[n] == j.Core()[n];
      if n < 4 {
        AstrayDevice(src, d0, d, d', j, id, n);
      } else {
        AstrayRename(src, d0, d, d', j, id, n);
      }
    } else {
      LateStep(j, steps, n);
      LateSame(src, d, steps[n], d');
      AstrayLate(d0, d, d', j, id, n);
    }
  }

  lemma AstrayLate(d0: Disk, d: Disk, d': Disk, j: Job, id: string, n: nat)
    requires j.Valid() && n >= 6 && Astray(d0, d, j, id, n) && d'.lvs == d.lvs && d'.vg == d.vg
    ensures Astray(d0, d', j, id, n + 1)
  {
    hide DecodeStatus, SlotName, Escaped, Twinned;
  }

  lemma {:induction false} AstrayTrace(src: Sources, j: Job, steps: seq<Pipeline>, ds: seq<Disk>, id: string, n: nat)
    requires j.Valid() && j.Core() <= steps && Migrates(steps[7..]) && Trace(src, steps, ds) && n < |ds|
    requires Astray(ds[0], ds[0], j, id, 0)
    ensures Astray(ds[0], ds[n], j, id, n)
  {
    hide DecodeStatus, SlotName, Escaped, Done, Astray;
    if n > 0 {
      AstrayTrace(src, j, steps, ds, id, n - 1);
      assert Done(src, ds[n - 1], steps[n - 1], ds[n]);
      AstrayStep(src, ds[0], ds[n - 1], ds[n], j, steps, id, n - 1);
    }
  }

  // ---------------------------------------------------------------- the preparation

  lemma {:induction false} ResizeOthers(src: Sources, plan: seq<Pipeline>, ds: seq<Disk>, n: string, i: nat)
    requires Trace(src, plan, ds) && i < |ds| && n in ds[0].lvs && forall c | c in plan :: c.Lvresize? && c.name != n
    ensures ds[i].lvs.Keys == ds[0].lvs.Keys && ds[i].vg == ds[0].vg && ds[i].lvs[n] == ds[0].lvs[n]
  {
    if i > 0 {
      ResizeOthers(src, plan, ds, n, i - 1);
      assert Done(src, ds[i - 1], plan[i - 1], ds[i]) && plan[i - 1] in plan;
    }
  }

  lemma GrowsOnly(d: Disk, j: Job, pre: seq<Pipeline>, r: Slot, v: Slot, n: string)
    requires Grows(d, j, pre, r, v) && n != j.From(Root) && n != j.From(Verity)
    ensures forall c | c in pre :: c.Lvresize? && c.name != n
  {
    hide DecodeStatus, SlotName;
    DecodeThenPrint(r.volume.lvName);
    DecodeThenPrint(v.volume.lvName);
  }

  /** An install to a slot with the twin `id`, of a version without volumes. */
  ghost predicate Strays(d: Disk, j: Job, pre: seq<Pipeline>, gs: seq<SlotGroup>, tail: seq<Pipeline>, id: string) {
    && j.Valid() && Prepares(d, j, pre, gs) && Migrates(tail) && d.vg == j.vg && '-' !in d.vg
    && '-' in id && Twinned(d, id) && j.st == Empty(Known(Escaped(id))) && NoVolumes(d, j.m.ToVersion())
  }

  /** The twin is as it was. */
  predicate SameTwin(d: Disk, d': Disk, id: string, k: Kind) {
    var n := EmptyVolume(k, id);
    n in d.lvs && n in d'.lvs && d'.lvs[n] == d.lvs[n]
  }

  /** Preparing the slot leaves its twin as it is. */
  lemma PreparedTwin(src: Sources, d: Disk, j: Job, pre: seq<Pipeline>, gs: seq<SlotGroup>, tail: seq<Pipeline>,
                     id: string, ds: seq<Disk>)
    requires Strays(d, j, pre, gs, tail, id) && Trace(src, pre, ds) && |ds| == |pre| + 1 && ds[0] == d
    ensures forall c | c in pre :: c.Lvresize?
    ensures var d' := ds[|pre|];
            && d'.vg == d.vg && d'.lvs.Keys == d.lvs.Keys && SameTwin(d, d', id, Root) && SameTwin(d, d', id, Verity)
  {
    hide DecodeStatus, SlotName, Escaped, Done;
    NamesDistinct(j, id);
    assert HasLv(d, Root, j.st);
    var r, v :| GrowsKnown(d, j, pre, gs, r, v);
    GrowsOnly(d, j, pre, r, v, EmptyVolume(Root, id));
    GrowsOnly(d, j, pre, r, v, EmptyVolume(Verity, id));
    ResizeOthers(src, pre, ds, EmptyVolume(Root, id), |pre|);
    ResizeOthers(src, pre, ds, EmptyVolume(Verity, id), |pre|);
  }

  /** With the slot prepared, the core goes astray. */
  lemma StartsAstray(d: Disk, j: Job, pre: seq<Pipeline>, gs: seq<SlotGroup>, tail: seq<Pipeline>, id: string, e: Disk)
    requires Strays(d, j, pre, gs, tail, id) && e.vg == d.vg && e.lvs.Keys == d.lvs.Keys
    ensures Astray(e, e, j, id, 0)
  {
    hide DecodeStatus, SlotName, Escaped, Prepares;
    TwinnedByNames(d, e, id);
    assert j.To(Root) !in e.lvs.Keys && j.To(Verity) !in e.lvs.Keys;
  }

  lemma StrayTrace(src: Sources, d: Disk, j: Job, pre: seq<Pipeline>, gs: seq<SlotGroup>, tail: seq<Pipeline>,
                   id: string, ds: seq<Disk>)
    requires Strays(d, j, pre, gs, tail, id) && Trace(src, pre + (j.Core() + tail), ds) && ds[0] == d && |ds| > |pre|
    ensures forall c | c in pre :: c.Lvresize?
    ensures Astray(ds[|pre|], ds[|ds| - 1], j, id, |ds| - 1 - |pre|)
    ensures SameTwin(d, ds[|pre|], id, Root) && SameTwin(d, ds[|pre|], id, Verity)
  {
    hide DecodeStatus, SlotName, Escaped, Done, Prepares, Twinned, Astray;
    TwinPrintable(d, id);
    SplitTrace(src, pre, j.Core() + tail, ds);
    PreparedTwin(src, d, j, pre, gs, tail, id, ds[..|pre| + 1]);
    StartsAstray(d, j, pre, gs, tail, id, ds[|pre|]);
    assert (j.Core() + tail)[7..] == tail;
    AstrayTrace(src, j, j.Core() + tail, ds[|pre|..], id, |ds| - 1 - |pre|);
  }

  // ---------------------------------------------------------------- every full run, and that there is one

  /** The volume is under another name, with contents and state as before. */
  predicate Unwritten(d: Disk, n: string, d': Disk, n': string) {
    n in d.lvs && n' in d'.lvs && d'.lvs[n'] == d.lvs[n]
  }

  lemma AstrayUnwritten(d0: Disk, d: Disk, j: Job, id: string, n: nat)
    requires j.Valid() && Astray(d0, d, j, id, n) && n > 5
    ensures Unwritten(d0, j.From(Root), d, j.To(Root)) && Unwritten(d0, j.From(Verity), d, j.To(Verity))
  {
    hide DecodeStatus, SlotName, Escaped;
  }

  lemma AstrayCan(src: Sources, d0: Disk, d: Disk, j: Job, id: string, n: nat)
    requires j.Valid() && n < 7 && Astray(d0, d, j, id, n) && TwinsFit(src, d0, j.m, j.source, id)
    ensures CanSucceed(src, d, j.Core()[n])
  {
    hide DecodeStatus, SlotName, Escaped, Twinned, CanSucceed, Target, UkiName;
    if n < 4 {
      var k := if n == 0 || n == 2 then Root else Verity;
      var of, twin := DeviceFile(j.vg, j.From(k)), EmptyVolume(k, id);
      AstrayTarget(d0, d, j, id, n, k);
      if n < 2 {
        var file := j.FileOf(k);
        WriteCan(src, d, FullName(j.source, file.name), IsCompressed(file.name), of, twin);
      } else {
        FlushCan(src, d, of, twin);
      }
    } else if n < 6 {
      RenameKindCan(src, j, d, if n == 4 then Root else Verity);
    } else {
      InstallFileCan(src, d, FullName(j.source, j.m.kernel.name), j.Core()[6].dest);
    }
  }

  lemma SameTwinsFit(src: Sources, d: Disk, e: Disk, m: Manifest, source: string, id: string)
    requires WellFormed(m) && Twinned(d, id) && Twinned(e, id) && TwinsFit(src, d, m, source, id)
    requires SameTwin(d, e, id, Root) && SameTwin(d, e, id, Verity)
    ensures TwinsFit(src, e, m, source, id)
  {
  }

  lemma StrayCan(src: Sources, d: Disk, j: Job, pre: seq<Pipeline>, gs: seq<SlotGroup>, tail: seq<Pipeline>, id: string,
                 ds: seq<Disk>)
    requires Strays(d, j, pre, gs, tail, id) && TwinsFit(src, d, j.m, j.source, id)
    requires Trace(src, pre + (j.Core() + tail), ds) && ds[0] == d && |ds| <= |pre + (j.Core() + tail)|
    ensures CanSucceed(src, ds[|ds| - 1], (pre + (j.Core() + tail))[|ds| - 1])
  {
    hide DecodeStatus, SlotName, ParseUki, UkiName, Escaped, CanSucceed, Done, Prepares, TwinsFit, Twinned, Astray;
    var plan, i := pre + (j.Core() + tail), |ds| - 1;
    if i < |pre| {
      PreTrace(src, pre, j.Core() + tail, ds);
      PreCan(src, d, j, pre, gs, ds);
    } else {
      StrayTrace(src, d, j, pre, gs, tail, id, ds);
      AstrayTwin(ds[|pre|], ds[i], j, id, i - |pre|);
      SameTwinsFit(src, d, ds[|pre|], j.m, j.source, id);
      if i < |pre| + 7 {
        assert plan[i] == j.Core()[i - |pre|];
        AstrayCan(src, ds[|pre|], ds[i], j, id, i - |pre|);
      } else {
        assert plan[i] in tail;
        MigrateCan(src, ds[i], plan[i]);
      }
    }
  }

  lemma AstrayTwin(d0: Disk, d: Disk, j: Job, id: string, n: nat)
    requires j.Valid() && Astray(d0, d, j, id, n)
    ensures Twinned(d0, id)
  {
  }

  lemma {:induction false} StrayRun(src: Sources, d: Disk, j: Job, pre: seq<Pipeline>, gs: seq<SlotGroup>,
                                    tail: seq<Pipeline>, id: string, ds: seq<Disk>)
    returns (full: seq<Disk>)
    requires Strays(d, j, pre, gs, tail, id) && TwinsFit(src, d, j.m, j.source, id)
    requires Trace(src, pre + (j.Core() + tail), ds) && ds[0] == d
    ensures ds <= full && Trace(src, pre + (j.Core() + tail), full) && |full| == |pre + (j.Core() + tail)| + 1
    decreases |pre| + 7 + |tail| + 1 - |ds|
  {
    hide Done, TwinsFit, Twinned, Prepares, SlotName, DecodeStatus, UkiName, Escaped;
    var plan := pre + (j.Core() + tail);
    if |ds| == |plan| + 1 {
      full := ds;
    } else {
      StrayCan(src, d, j, pre, gs, tail, id, ds);
      var d' :| Done(src, ds[|ds| - 1], plan[|ds| - 1], d');
      TraceOn(src, plan, ds, d');
      full := StrayRun(src, d, j, pre, gs, tail, id, ds + [d']);
    }
  }

  /** The plan of an install whose selected slot has the twin `id`. */
  lemma StrayShape(d: Disk, kernel: Kernel, rt: Runtime, m: Manifest, source: string, id: string)
    returns (j: Job, pre: seq<Pipeline>, tail: seq<Pipeline>)
    requires Sees(d, kernel, rt) && WellFormed(m) && NoVolumes(d, m.ToVersion()) && InstallPlan(rt, m, source).Ok?
    requires TwinOf(d, rt, id)
    ensures Strays(d, j, pre, rt.slotgroups, tail, id) && j.m == m && j.source == source
    ensures InstallPlan(rt, m, source).value == pre + (j.Core() + tail) && SelectsFor(d, rt, m, j)
  {
    hide DecodeStatus, SlotName, ParseUki, UkiName, Escaped, InstallPlan, SelectUpdateSlot, Twinned, Prepares,
      FirstEmpty, Scanned, SlotOf;
    SeesFacts(d, kernel, rt);
    NoVolumesSelects(d, rt, m);
    j, pre, tail := SelectedPlanShape(d, kernel, rt, m, source);
    SelectedStatus(d, rt, m, j, Escaped(id));
  }

  lemma SelectedStatus(d: Disk, rt: Runtime, m: Manifest, j: Job, id: string)
    requires Scanned(d, rt.slotgroups) && WellFormed(m) && SelectsFor(d, rt, m, j)
    requires var g := FirstEmpty(rt.slotgroups, rt.kernel); g.Some? && g.value.EmptyIdText() == Some(id)
    ensures j.st == Empty(Known(id))
  {
    hide DecodeStatus, SlotName, ParseUki, UkiName, ResizeSteps, NewEmptySlot;
  }

  /**
   * Where the selected slot has a twin, commit ordering fails: every full run gives the version its kernel image,
   * while its volumes are just as they were when the slot was selected and prepared.
   */
  lemma MisledInstall(src: Sources, d: Disk, kernel: Kernel, rt: Runtime, m: Manifest, source: string, id: string,
                      ds: seq<Disk>)
    returns (n: nat)
    requires Sees(d, kernel, rt) && WellFormed(m) && NoVolumes(d, m.ToVersion()) && InstallPlan(rt, m, source).Ok?
    requires TwinOf(d, rt, id)
    requires var plan := InstallPlan(rt, m, source).value; Trace(src, plan, ds) && |ds| == |plan| + 1 && ds[0] == d
    ensures PreparedAt(InstallPlan(rt, m, source).value, n)
    ensures forall i | 0 <= i < n :: InstallPlan(rt, m, source).value[i].Lvresize?
    ensures HasUki(ds[|ds| - 1], UkiName(UkiEntry(m.ToVersion(), None)), m.ToVersion())
    ensures Unwritten(ds[n], EmptyVolume(Root, Escaped(id)), ds[|ds| - 1], SlotName(Root, Used(m.ToVersion())))
    ensures Unwritten(ds[n], EmptyVolume(Verity, Escaped(id)), ds[|ds| - 1], SlotName(Verity, Used(m.ToVersion())))
  {
    hide DecodeStatus, SlotName, ParseUki, UkiName, Escaped, Done, InstallPlan, TwinOf, Unwritten, Prepares, Astray,
      Twinned;
    var j, pre, tail := StrayShape(d, kernel, rt, m, source, id);
    n := |pre|;
    StrayTrace(src, d, j, pre, rt.slotgroups, tail, id, ds);
    AstrayUnwritten(ds[n], ds[|ds| - 1], j, id, |ds| - 1 - n);
    PreparedThere(d, j, pre, rt.slotgroups, tail);
    ImageArrives(src, d, j, pre, rt.slotgroups, tail, ds);
    PrintThenParse(UkiEntry(m.ToVersion(), None));
    assert forall i | 0 <= i < n :: InstallPlan(rt, m, source).value[i] == pre[i] && pre[i] in pre;
  }

  /** And nothing stops such a run: if the files fit the twins, every prefix can be continued to a full one. */
  lemma MisledCanComplete(src: Sources, d: Disk, kernel: Kernel, rt: Runtime, m: Manifest, source: string, id: string,
                          ds: seq<Disk>)
    returns (full: seq<Disk>)
    requires Sees(d, kernel, rt) && WellFormed(m) && NoVolumes(d, m.ToVersion()) && InstallPlan(rt, m, source).Ok?
    requires TwinOf(d, rt, id) && TwinsFit(src, d, m, source, id)
    requires Trace(src, InstallPlan(rt, m, source).value, ds) && ds[0] == d
    ensures ds <= full && Trace(src, InstallPlan(rt, m, source).value, full)
    ensures |full| == |InstallPlan(rt, m, source).value| + 1
  {
    hide DecodeStatus, SlotName, ParseUki, UkiName, Escaped, Done, InstallPlan, TwinsFit, Prepares, FirstEmpty;
    var j, pre, tail := StrayShape(d, kernel, rt, m, source, id);
    full := StrayRun(src, d, j, pre, rt.slotgroups, tail, id, ds);
  }

  // ---------------------------------------------------------------- the three cases

  /** What the commands of the install of `j` make of the volume of kind `k`, which was `before` when prepared. */
  predicate Written(src: Sources, j: Job, k: Kind, before: Lv, d': Disk)
    requires |j.m.rootVerityHash| >= 16
  {
    var bytes := j.Image(src, k).bytes;
    |bytes| <= |before.data| && j.To(k) in d'.lvs && d'.lvs[j.To(k)] == Lv(Overwrite(before.data, bytes), true)
  }

  lemma TwinCase(src: Sources, d: Disk, kernel: Kernel, rt: Runtime, m: Manifest, source: string, ds: seq<Disk>,
                 k: Kind, id: string)
    returns (j: Job, n: nat)
    requires Sees(d, kernel, rt) && WellFormed(m) && NoVolumes(d, m.ToVersion()) && InstallPlan(rt, m, source).Ok?
    requires FullTrace(src, InstallPlan(rt, m, source).value, d, ds) && TwinOf(d, rt, id)
    ensures j.Valid() && j.m == m && j.source == source && SelectsFor(d, rt, m, j)
    ensures PreparedAt(InstallPlan(rt, m, source).value, n)
    ensures Unwritten(ds[n], j.From(k), ds[|ds| - 1], j.To(k))
  {
    hide DecodeStatus, SlotName, ParseUki, UkiName, Escaped, Done, InstallPlan, TwinOf, Prepares, SelectsFor, Astray,
      Sees, Unwritten;
    var pre, tail;
    j, pre, tail := StrayShape(d, kernel, rt, m, source, id);
    n := |pre|;
    PreparedThere(d, j, pre, rt.slotgroups, tail);
    StrayTrace(src, d, j, pre, rt.slotgroups, tail, id, ds);
    AstrayUnwritten(ds[n], ds[|ds| - 1], j, id, |ds| - 1 - n);
  }

  lemma StraightCase(src: Sources, d: Disk, kernel: Kernel, rt: Runtime, m: Manifest, source: string, ds: seq<Disk>,
                     k: Kind)
    returns (j: Job, n: nat)
    requires Sees(d, kernel, rt) && WellFormed(m) && NoVolumes(d, m.ToVersion()) && InstallPlan(rt, m, source).Ok?
    requires FullTrace(src, InstallPlan(rt, m, source).value, d, ds) && !SelectedTwin(d, rt)
    ensures StraightSelection(d, rt)
    ensures j.Valid() && j.m == m && j.source == source && SelectsFor(d, rt, m, j)
    ensures PreparedAt(InstallPlan(rt, m, source).value, n) && j.From(k) in ds[n].lvs
    ensures Written(src, j, k, ds[n].lvs[j.From(k)], ds[|ds| - 1])
  {
    hide DecodeStatus, SlotName, ParseUki, UkiName, Done, InstallPlan, SelectedTwin, Prepares, SelectsFor, Straight,
      StraightSelection, SelectUpdateSlot, Sees, Scanned;
    SeesFacts(d, kernel, rt);
    NoVolumesSelects(d, rt, m);
    var pre, tail;
    j, pre, tail := SelectedPlanShape(d, kernel, rt, m, source);
    n := |pre|;
    PreparedThere(d, j, pre, rt.slotgroups, tail);
    if !Straight(j) {
      DashedStops(src, d, rt, j, pre, tail, ds);
    }
    StraightIff(d, rt, j);
    FullRunData(src, d, j, pre, rt.slotgroups, tail, ds, k);
  }

  /**
   * The three cases. A full run is one to a slot whose paths lead to it, and then both volumes hold the images
   * and are flushed, or one to a slot with a twin, and then they are as they were before the first image was
   * written. To a slot with a dash in its path and no twin there is no full run.
   */
  lemma FullRunCases(src: Sources, d: Disk, kernel: Kernel, rt: Runtime, m: Manifest, source: string, ds: seq<Disk>,
                     k: Kind)
    returns (j: Job, n: nat)
    requires Sees(d, kernel, rt) && WellFormed(m) && NoVolumes(d, m.ToVersion()) && InstallPlan(rt, m, source).Ok?
    requires FullTrace(src, InstallPlan(rt, m, source).value, d, ds)
    ensures StraightSelection(d, rt) <==> !SelectedTwin(d, rt)
    ensures j.Valid() && j.m == m && j.source == source && SelectsFor(d, rt, m, j)
    ensures PreparedAt(InstallPlan(rt, m, source).value, n) && j.From(k) in ds[n].lvs
    ensures StraightSelection(d, rt) ==> Written(src, j, k, ds[n].lvs[j.From(k)], ds[|ds| - 1])
    ensures SelectedTwin(d, rt) ==> Unwritten(ds[n], j.From(k), ds[|ds| - 1], j.To(k))
  {
    hide InstallPlan, TwinOf, StraightSelection, SelectsFor, Scanned, Sees, NoVolumes, Written, FullTrace;
    SeesFacts(d, kernel, rt);
    if id :| TwinOf(d, rt, id) {
      TwinNotStraight(d, rt);
      j, n := TwinCase(src, d, kernel, rt, m, source, ds, k, id);
    } else {
      j, n := StraightCase(src, d, kernel, rt, m, source, ds, k);
    }
  }

  /**
   * So, with files as declared that also fit a twin, an install can complete exactly in the first two cases:
   * its paths lead to its own volumes or to those of a twin.
   */
  lemma CompletesIff(src: Sources, d: Disk, kernel: Kernel, rt: Runtime, m: Manifest, source: string)
    requires Sees(d, kernel, rt) && WellFormed(m) && NoVolumes(d, m.ToVersion()) && InstallPlan(rt, m, source).Ok?
    requires Feasible(src, m, source) && SizesListed(rt.slotgroups)
    requires forall id | TwinOf(d, rt, id) :: TwinsFit(src, d, m, source, id)
    ensures (exists ds :: FullTrace(src, InstallPlan(rt, m, source).value, d, ds)) <==>
            StraightSelection(d, rt) || SelectedTwin(d, rt)
  {
    hide DecodeStatus, SlotName, ParseUki, UkiName, Escaped, Done, InstallPlan, Feasible, SizesListed, TwinOf,
      StraightSelection, Sees, NoVolumes, TwinsFit;
    var plan := InstallPlan(rt, m, source).value;
    if ds :| FullTrace(src, plan, d, ds) {
      var j, n := FullRunCases(src, d, kernel, rt, m, source, ds, Root);
    }
    if StraightSelection(d, rt) {
      var ds := InstallCanComplete(src, d, kernel, rt, m, source, [d]);
      assert FullTrace(src, plan, d, ds);
    } else if id :| TwinOf(d, rt, id) {
      var ds := MisledCanComplete(src, d, kernel, rt, m, source, id, [d]);
      assert FullTrace(src, plan, d, ds);
    }
  }
}
