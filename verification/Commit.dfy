/** An install step by step: what is written, flushed and renamed when the kernel image appears. */
module Commit {
  import opened Wrappers
  import opened Slots
  import opened Uki
  import opened Groups
  import opened Runtime
  import opened Plan
  import opened Disk
  import opened Inventory
  import opened Frame
  import opened Install
  import opened CrashSafety

  /** No dash in the names the device paths are made of. */
  predicate Straight(j: Job) {
    '-' !in j.vg && '-' !in j.From(Root) && '-' !in j.From(Verity)
  }

  /** The unescaped device path of a volume leads to it exactly when there is no dash in either name. */
  lemma DevicePathExact(d: Disk, n: string)
    requires n in d.lvs && n != "" && n[0] != '-'
    ensures Resolves(d, DeviceFile(d.vg, n), n) <==> '-' !in d.vg && '-' !in n
    ensures '-' !in d.vg && '-' !in n ==> Target(d, DeviceFile(d.vg, n)) == Some(n)
  {
    PathResolves(d.vg, n, n);
    EscapedNoDash(n);
    if '-' !in d.vg && '-' !in n {
      assert Resolves(d, DeviceFile(d.vg, n), n);
      var n' := Target(d, DeviceFile(d.vg, n)).value;
      PathResolves(d.vg, n, n');
      EscapedInjective(n, n');
    }
  }

  /** One volume on its way: its name, the name it does not have, what is in it. */
  predicate Volume(d: Disk, here: string, gone: string, before: seq<Byte>, img: Option<Reading>, packed: bool,
                   flushed: bool) {
    && here in d.lvs && gone !in d.lvs
    && (match img
        case None => d.lvs[here].data == before
        case Some(r) => |r.bytes| <= |before| && d.lvs[here].data == Overwrite(before, r.bytes) && (r.Whole? || packed))
    && (flushed ==> d.lvs[here].flushed)
  }

  /** The names and images of an install and what the volume held before, as plain values. */
  datatype Route = Route(from: string, to: string, img: Reading, packed: bool, before: seq<Byte>)

  /** The volume of a route after `step` steps of the core; it is written at step `order`. */
  predicate On(d: Disk, r: Route, step: nat, order: nat) {
    Volume(d, if step < order + 4 then r.from else r.to, if step < order + 4 then r.to else r.from, r.before,
           if step >= order then Some(r.img) else None, r.packed, step >= order + 2)
  }

  predicate Apart(r: Route, s: Route) {
    r.from != r.to && s.from != s.to && r.from != s.from && r.to != s.to && r.from != s.to && r.to != s.from
  }

  function RouteOf(src: Sources, j: Job, k: Kind, before: seq<Byte>): Route
    requires |j.m.rootVerityHash| >= 16
  {
    Route(j.From(k), j.To(k), j.Image(src, k), IsCompressed(j.FileOf(k).name), before)
  }

  /** Where both volumes are after `step` steps of the core. */
  predicate Phase(d: Disk, root: Route, verity: Route, step: nat) {
    On(d, root, step, 1) && On(d, verity, step, 2)
  }

  lemma WriteStep(src: Sources, d: Disk, d': Disk, r: Route, s: Route, order: nat, other: nat, step: nat, input: string,
                  of: string)
    requires Apart(r, s) && step + 1 == order && On(d, r, step, order)
    requires On(d, s, step, other) && 1 <= other <= 2 && order != other && 1 <= order <= 2
    requires Target(d, of) == Some(r.from) && Read(src, input, r.packed) == r.img
    requires Done(src, d, WriteImage(input, r.packed, of), d')
    ensures On(d', r, step + 1, order) && On(d', s, step + 1, other)
  {
  }

  lemma FlushStep(src: Sources, d: Disk, d': Disk, r: Route, s: Route, order: nat, other: nat, step: nat, of: string)
    requires Apart(r, s) && step + 1 == order + 2 && On(d, r, step, order)
    requires On(d, s, step, other) && 1 <= other <= 2 && order != other && 1 <= order <= 2
    requires Target(d, of) == Some(r.from) && Done(src, d, FlushBufs(of), d')
    ensures On(d', r, step + 1, order) && On(d', s, step + 1, other)
  {
  }

  lemma RenameStep(src: Sources, d: Disk, d': Disk, r: Route, s: Route, order: nat, other: nat, step: nat, vg: string)
    requires Apart(r, s) && step + 1 == order + 4 && On(d, r, step, order)
    requires On(d, s, step, other) && 1 <= other <= 2 && order != other && 1 <= order <= 2
    requires Done(src, d, Lvrename(vg, r.from, r.to), d')
    ensures On(d', r, step + 1, order) && On(d', s, step + 1, other) && '/' !in r.to
  {
  }

  lemma Differ(a: string, b: string)
    requires DecodeStatus(a) != DecodeStatus(b)
    ensures a != b
  {
  }

  lemma RoutesApart(src: Sources, j: Job, rs: seq<Byte>, vs: seq<Byte>)
    requires j.Valid()
    ensures Apart(RouteOf(src, j, Root, rs), RouteOf(src, j, Verity, vs))
  {
    var t := Used(j.m.ToVersion());
    FromIsEmpty(j, Root);
    FromIsEmpty(j, Verity);
    Differ(j.From(Root), j.From(Verity));
    Differ(j.To(Root), j.To(Verity));
    Differ(j.From(Root), j.To(Root));
    Differ(j.From(Root), j.To(Verity));
    Differ(j.From(Verity), j.To(Root));
    Differ(j.From(Verity), j.To(Verity));
  }

  lemma StraightTarget(j: Job, d: Disk, k: Kind)
    requires j.Valid() && Straight(j) && d.vg == j.vg && j.From(k) in d.lvs
    ensures Target(d, DeviceFile(j.vg, j.From(k))) == Some(j.From(k))
  {
    FromIsEmpty(j, k);
    EmptyNameStarts(j.From(k));
    DevicePathExact(d, j.From(k));
  }

  lemma WriteCore(src: Sources, j: Job, d: Disk, d': Disk, root: Route, verity: Route, k: Kind)
    requires j.Valid() && Straight(j) && d.vg == j.vg && Apart(root, verity)
    requires root == RouteOf(src, j, Root, root.before) && verity == RouteOf(src, j, Verity, verity.before)
    requires Phase(d, root, verity, if k == Root then 0 else 1)
    requires Done(src, d, j.Write(k), d')
    ensures Phase(d', root, verity, if k == Root then 1 else 2) && d'.vg == j.vg
  {
    StraightTarget(j, d, k);
    var input, of := FullName(j.source, j.FileOf(k).name), DeviceFile(j.vg, j.From(k));
    match k
    case Root => WriteStep(src, d, d', root, verity, 1, 2, 0, input, of);
    case Verity => WriteStep(src, d, d', verity, root, 2, 1, 1, input, of);
  }

  lemma FlushCore(src: Sources, j: Job, d: Disk, d': Disk, root: Route, verity: Route, k: Kind)
    requires j.Valid() && Straight(j) && d.vg == j.vg && Apart(root, verity)
    requires root == RouteOf(src, j, Root, root.before) && verity == RouteOf(src, j, Verity, verity.before)
    requires Phase(d, root, verity, if k == Root then 2 else 3)
    requires Done(src, d, FlushBufs(DeviceFile(j.vg, j.From(k))), d')
    ensures Phase(d', root, verity, if k == Root then 3 else 4) && d'.vg == j.vg
  {
    StraightTarget(j, d, k);
    var of := DeviceFile(j.vg, j.From(k));
    match k
    case Root => FlushStep(src, d, d', root, verity, 1, 2, 2, of);
    case Verity => FlushStep(src, d, d', verity, root, 2, 1, 3, of);
  }

  lemma RenameCore(src: Sources, j: Job, d: Disk, d': Disk, root: Route, verity: Route, k: Kind)
    requires j.Valid() && Straight(j) && d.vg == j.vg && Apart(root, verity)
    requires root == RouteOf(src, j, Root, root.before) && verity == RouteOf(src, j, Verity, verity.before)
    requires Phase(d, root, verity, if k == Root then 4 else 5)
    requires Done(src, d, Lvrename(j.vg, j.From(k), j.To(k)), d')
    ensures Phase(d', root, verity, if k == Root then 5 else 6) && d'.vg == j.vg
    ensures '/' !in j.To(k)
  {
    match k
    case Root => RenameStep(src, d, d', root, verity, 1, 2, 4, j.vg);
    case Verity => RenameStep(src, d, d', verity, root, 2, 1, 5, j.vg);
  }

  lemma CoreStep(src: Sources, j: Job, d: Disk, d': Disk, step: nat, root: Route, verity: Route)
    requires j.Valid() && Straight(j) && d.vg == j.vg && step < 6
    requires root == RouteOf(src, j, Root, root.before) && verity == RouteOf(src, j, Verity, verity.before)
    requires Phase(d, root, verity, step) && Done(src, d, j.Core()[step], d')
    ensures Phase(d', root, verity, step + 1) && d'.vg == j.vg
    ensures step == 4 ==> '/' !in j.To(Root)
  {
    RoutesApart(src, j, root.before, verity.before);
    match step
    case 0 => WriteCore(src, j, d, d', root, verity, Root);
    case 1 => WriteCore(src, j, d, d', root, verity, Verity);
    case 2 => FlushCore(src, j, d, d', root, verity, Root);
    case 3 => FlushCore(src, j, d, d', root, verity, Verity);
    case 4 => RenameCore(src, j, d, d', root, verity, Root);
    case _ => RenameCore(src, j, d, d', root, verity, Verity);
  }

  /** The kernel image is on the boot partition, whole. */
  predicate UkiInstalled(src: Sources, d: Disk, m: Manifest, source: string)
    requires |m.rootVerityHash| >= 16
  {
    var name, r := UkiName(UkiEntry(m.ToVersion(), None)), Read(src, FullName(source, m.kernel.name), false);
    name in d.esp && r.Whole? && d.esp[name].data == r.bytes
  }

  lemma UkiStep(src: Sources, j: Job, d: Disk, d': Disk)
    requires j.Valid() && Done(src, d, j.Core()[6], d') && '/' !in j.To(Root)
    ensures UkiInstalled(src, d', j.m, j.source) && d'.lvs == d.lvs && d'.vg == d.vg
  {
    var t := j.m.ToVersion();
    assert j.To(Root) == "root" + "_" + t.revision + "_" + t.hash.value;
    NoSlash(t);
    UkiPathName(UkiName(UkiEntry(t, None)));
  }

  lemma NoSlash(t: Version)
    requires t.hash.Some? && '/' !in "root" + "_" + t.revision + "_" + t.hash.value
    ensures '/' !in UkiName(UkiEntry(t, None))
  {
    hide UkiName;
    NotInJoined("root" + "_" + t.revision + "_", t.hash.value, '/');
    NotInJoined("root" + "_" + t.revision, "_", '/');
    NotInJoined("root" + "_", t.revision, '/');
    NotInJoined("ghaf-" + t.revision + "-" + t.hash.value, ".efi", '/');
    NotInJoined("ghaf-" + t.revision + "-", t.hash.value, '/');
    NotInJoined("ghaf-" + t.revision, "-", '/');
    NotInJoined("ghaf-", t.revision, '/');
    PlainUkiName(t);
  }

  lemma NotInJoined(a: string, b: string, c: char)
    ensures c in a + b <==> c in a || c in b
  {
  }

  lemma PlainUkiName(t: Version)
    requires t.hash.Some?
    ensures UkiName(UkiEntry(t, None)) == "ghaf-" + t.revision + "-" + t.hash.value + ".efi"
  {
    assert VersionName(t) == t.revision + ("-" + t.hash.value);
  }

  /** The disks of a trace of the core and what follows it. */
  lemma {:induction false} CoreTrace(src: Sources, j: Job, steps: seq<Pipeline>, ds: seq<Disk>, root: Route,
                                     verity: Route, n: nat)
    requires j.Valid() && Straight(j) && Trace(src, steps, ds) && n < |ds| && ds[0].vg == j.vg
    requires root == RouteOf(src, j, Root, root.before) && verity == RouteOf(src, j, Verity, verity.before)
    requires j.Core() <= steps && Migrates(steps[7..])
    requires Phase(ds[0], root, verity, 0)
    ensures Phase(ds[n], root, verity, if n < 6 then n else 6) && ds[n].vg == j.vg
    ensures n >= 5 ==> '/' !in j.To(Root)
    ensures n >= 7 ==> UkiInstalled(src, ds[n], j.m, j.source)
  {
    if n > 0 {
      CoreTrace(src, j, steps, ds, root, verity, n - 1);
      assert Done(src, ds[n - 1], steps[n - 1], ds[n]);
      if n <= 7 {
        assert steps[n - 1] == j.Core()[n - 1];
        if n <= 6 {
          CoreStep(src, j, ds[n - 1], ds[n], n - 1, root, verity);
        } else {
          UkiStep(src, j, ds[n - 1], ds[n]);
        }
      } else {
        assert steps[n - 1] in steps[7..];
        assert ds[n] == ds[n - 1];
      }
    }
  }

  // ---------------------------------------------------------------- preparation

  /** `size` is no less than what the volume had, and no less than the image where both are known. */
  ghost predicate Enough(d: Disk, j: Job, gs: seq<SlotGroup>, k: Kind, size: nat) {
    && (j.From(k) in d.lvs ==> size >= |d.lvs[j.From(k)].data|)
    && (j.FileOf(k).unpackedSize.Some? && SizeKnown(gs, j.From(k)) ==> size >= j.FileOf(k).unpackedSize.value)
  }

  lemma ResizeEffect(src: Sources, d: Disk, d': Disk, n: string, vg: string, size: nat)
    requires Done(src, d, Lvresize(vg, n, size), d')
    ensures d'.vg == d.vg && d'.lvs.Keys == d.lvs.Keys && n in d.lvs && |d'.lvs[n].data| >= size
    ensures forall n' | n' in d.lvs && n' != n :: d'.lvs[n'] == d.lvs[n']
  {
  }

  /** Growing one volume, if it is known to be too small. */
  lemma GrowEffect(src: Sources, d0: Disk, d: Disk, s: Slot, size: Option<nat>, ds: seq<Disk>)
    requires SlotOn(d0, s) && s.volume.lvName in d.lvs && d.lvs[s.volume.lvName] == d0.lvs[s.volume.lvName]
    requires var c := ResizeStep(Some(s), size); Trace(src, c, ds) && |ds| == |c| + 1 && ds[0] == d
    ensures var n, d' := s.volume.lvName, ds[|ds| - 1];
            && d'.vg == d.vg && d'.lvs.Keys == d.lvs.Keys
            && (forall n' | n' in d.lvs && n' != n :: d'.lvs[n'] == d.lvs[n'])
            && |d'.lvs[n].data| >= |d.lvs[n].data|
            && (size.Some? && s.volume.lvSizeBytes.Some? ==> |d'.lvs[n].data| >= size.value)
  {
    var c := ResizeStep(Some(s), size);
    if |c| == 1 {
      assert Done(src, ds[0], c[0], ds[1]);
      ResizeEffect(src, ds[0], ds[1], s.volume.lvName, s.volume.vgName, size.value);
    }
  }

  lemma SplitTrace(src: Sources, a: seq<Pipeline>, b: seq<Pipeline>, ds: seq<Disk>)
    requires Trace(src, a + b, ds) && |ds| > |a|
    ensures Trace(src, a, ds[..|a| + 1]) && Trace(src, b, ds[|a|..])
  {
    var front, back := ds[..|a| + 1], ds[|a|..];
    forall i | 0 <= i < |front| - 1
      ensures Done(src, front[i], a[i], front[i + 1])
    {
      assert Done(src, ds[i], (a + b)[i], ds[i + 1]);
    }
    forall i | 0 <= i < |back| - 1
      ensures Done(src, back[i], b[i], back[i + 1])
    {
      assert Done(src, ds[|a| + i], (a + b)[|a| + i], ds[|a| + i + 1]);
    }
  }

  lemma PreTrace(src: Sources, a: seq<Pipeline>, b: seq<Pipeline>, ds: seq<Disk>)
    requires Trace(src, a + b, ds) && |ds| <= |a|
    ensures Trace(src, a, ds) && (a + b)[|ds| - 1] == a[|ds| - 1]
  {
    hide Done;
    forall i | 0 <= i < |ds| - 1
      ensures Done(src, ds[i], a[i], ds[i + 1])
    {
      assert (a + b)[i] == a[i];
    }
  }

  lemma AfterGrowing(src: Sources, d: Disk, j: Job, pre: seq<Pipeline>, gs: seq<SlotGroup>, root: Slot, verity: Slot,
                     ds: seq<Disk>)
    requires j.Valid() && GrowsKnown(d, j, pre, gs, root, verity) && d.vg == j.vg
    requires Trace(src, pre, ds) && |ds| == |pre| + 1 && ds[0] == d
    ensures var d' := ds[|ds| - 1];
            && d'.vg == j.vg && d'.lvs.Keys == d.lvs.Keys
            && j.From(Root) in d'.lvs && Enough(d, j, gs, Root, |d'.lvs[j.From(Root)].data|)
            && j.From(Verity) in d'.lvs && Enough(d, j, gs, Verity, |d'.lvs[j.From(Verity)].data|)
  {
    hide DecodeStatus, SlotName, ParseUki, UkiName;
    var a, b := ResizeStep(Some(root), j.m.store.unpackedSize), ResizeStep(Some(verity), j.m.verity.unpackedSize);
    SplitTrace(src, a, b, ds);
    DecodeThenPrint(root.volume.lvName);
    DecodeThenPrint(verity.volume.lvName);
    FromIsEmpty(j, Root);
    FromIsEmpty(j, Verity);
    Differ(j.From(Root), j.From(Verity));
    GrowEffect(src, d, d, root, j.m.store.unpackedSize, ds[..|a| + 1]);
    GrowEffect(src, d, ds[|a|], verity, j.m.verity.unpackedSize, ds[|a|..]);
  }

  lemma TwoCreates(src: Sources, d: Disk, x: Disk, d': Disk, vg: string, a: string, r: nat, b: string, v: nat)
    requires Done(src, d, Lvcreate(vg, a, r), x) && Done(src, x, Lvcreate(vg, b, v), d')
    ensures a !in d.lvs && b !in d.lvs && d'.vg == d.vg && d'.lvs.Keys == d.lvs.Keys + {a, b}
    ensures |d'.lvs[a].data| >= r && |d'.lvs[b].data| >= v
  {
  }

  lemma AfterCreating(src: Sources, d: Disk, j: Job, pre: seq<Pipeline>, gs: seq<SlotGroup>, r: nat, v: nat,
                      ds: seq<Disk>)
    requires j.Valid() && Creates(d, j, pre, r, v) && d.vg == j.vg
    requires Trace(src, pre, ds) && |ds| == |pre| + 1 && ds[0] == d
    ensures var d' := ds[|ds| - 1];
            && d'.vg == j.vg && d'.lvs.Keys == d.lvs.Keys + {j.From(Root), j.From(Verity)}
            && j.From(Root) in d'.lvs && Enough(d, j, gs, Root, |d'.lvs[j.From(Root)].data|)
            && j.From(Verity) in d'.lvs && Enough(d, j, gs, Verity, |d'.lvs[j.From(Verity)].data|)
  {
    assert Done(src, ds[0], pre[0], ds[1]);
    assert Done(src, ds[1], pre[1], ds[2]);
    TwoCreates(src, ds[0], ds[1], ds[2], j.vg, j.From(Root), r, j.From(Verity), v);
  }

  /** After the preparation the core can start, on volumes that are large enough. */
  lemma Prepared(src: Sources, d: Disk, j: Job, pre: seq<Pipeline>, gs: seq<SlotGroup>, ds: seq<Disk>)
    returns (root: Route, verity: Route)
    requires j.Valid() && Prepares(d, j, pre, gs) && d.vg == j.vg
    requires !HasLv(d, Root, Used(j.m.ToVersion())) && !HasLv(d, Verity, Used(j.m.ToVersion()))
    requires Trace(src, pre, ds) && |ds| == |pre| + 1 && ds[0] == d
    ensures root == RouteOf(src, j, Root, root.before) && verity == RouteOf(src, j, Verity, verity.before)
    ensures Phase(ds[|ds| - 1], root, verity, 0) && ds[|ds| - 1].vg == j.vg
    ensures Enough(d, j, gs, Root, |root.before|) && Enough(d, j, gs, Verity, |verity.before|)
  {
    var d' := ds[|ds| - 1];
    if r, v :| GrowsKnown(d, j, pre, gs, r, v) {
      AfterGrowing(src, d, j, pre, gs, r, v, ds);
    } else {
      var r, v :| Creates(d, j, pre, r, v);
      AfterCreating(src, d, j, pre, gs, r, v, ds);
    }
    root := RouteOf(src, j, Root, d'.lvs[j.From(Root)].data);
    verity := RouteOf(src, j, Verity, d'.lvs[j.From(Verity)].data);
    RoutesApart(src, j, root.before, verity.before);
  }

  // ---------------------------------------------------------------- commit ordering

  ghost predicate NoUki(d: Disk, t: Version) {
    forall id :: !HasUki(d, id, t)
  }

  lemma {:induction false} EspTrace(src: Sources, plan: seq<Pipeline>, ds: seq<Disk>, n: nat)
    requires Trace(src, plan, ds) && n < |ds| && forall i | 0 <= i < n :: !plan[i].InstallFile?
    ensures ds[n].esp.Keys <= ds[0].esp.Keys
  {
    if n > 0 {
      EspTrace(src, plan, ds, n - 1);
      assert Done(src, ds[n - 1], plan[n - 1], ds[n]);
      EspStep(src, ds[n - 1], plan[n - 1], ds[n]);
    }
  }

  lemma FewerUkis(d: Disk, d': Disk, t: Version)
    requires NoUki(d, t) && d'.esp.Keys <= d.esp.Keys
    ensures NoUki(d', t)
  {
    forall id
      ensures !HasUki(d', id, t)
    {
      if id in d'.esp {
        assert id in d.esp.Keys;
        assert !HasUki(d, id, t);
      }
    }
  }

  /** Both volumes of the version exist, are flushed, and start with what was read of the images. */
  predicate Committed(d: Disk, root: Route, verity: Route) {
    && Volume(d, root.to, root.from, root.before, Some(root.img), root.packed, true)
    && Volume(d, verity.to, verity.from, verity.before, Some(verity.img), verity.packed, true)
  }

  lemma LossKeepsCommitted(x: Disk, d': Disk, root: Route, verity: Route)
    requires Committed(x, root, verity) && (d' == x || PowerLoss(x, d'))
    ensures Committed(d', root, verity)
  {
  }

  lemma PrepareNoInstall(d: Disk, j: Job, pre: seq<Pipeline>, gs: seq<SlotGroup>)
    requires Prepares(d, j, pre, gs)
    ensures forall c | c in pre :: !c.InstallFile?
  {
    hide DecodeStatus, SlotName, ParseUki, UkiName;
    if r, v :| GrowsKnown(d, j, pre, gs, r, v) {
    } else {
      var r, v :| Creates(d, j, pre, r, v);
      assert !pre[0].InstallFile? && !pre[1].InstallFile?;
    }
  }

  /** No step of the plan before the kernel image is one that installs a file. */
  lemma NoInstallBefore(d: Disk, j: Job, pre: seq<Pipeline>, gs: seq<SlotGroup>, tail: seq<Pipeline>, i: nat)
    requires j.Valid() && Prepares(d, j, pre, gs) && i < |pre| + 6
    ensures i < |pre + (j.Core() + tail)| && !(pre + (j.Core() + tail))[i].InstallFile?
  {
    hide DecodeStatus, SlotName, ParseUki, UkiName, Prepares;
    PrepareNoInstall(d, j, pre, gs);
    if i < |pre| {
      assert pre[i] in pre;
    } else {
      assert (pre + (j.Core() + tail))[i] == j.Core()[i - |pre|];
    }
  }

  /** From the sixth step of the core on, however the plan stops, both volumes are committed. */
  lemma CommittedAfter(src: Sources, j: Job, steps: seq<Pipeline>, ds: seq<Disk>, x: Disk, root: Route, verity: Route)
    requires j.Valid() && Straight(j) && ds != [] && ds[0].vg == j.vg && StopsIn(src, steps, ds, x) && |ds| > 6
    requires root == RouteOf(src, j, Root, root.before) && verity == RouteOf(src, j, Verity, verity.before)
    requires j.Core() <= steps && Migrates(steps[7..]) && Phase(ds[0], root, verity, 0)
    ensures Committed(x, root, verity)
  {
    hide DecodeStatus, SlotName, ParseUki, UkiName, Done, Interrupted, Straight;
    var n := |ds| - 1;
    CoreTrace(src, j, steps, ds, root, verity, n);
    if n < |steps| {
      LateStep(j, steps, n);
      LateKeeps(src, ds[n], steps[n], x);
    }
  }

  /** A command that touches no volume. */
  predicate Late(c: Pipeline) {
    c.InstallFile? || c.EditLoaderConf? || c.RemoveFile? || c.BootctlSetDefault?
  }

  lemma LateStep(j: Job, steps: seq<Pipeline>, n: nat)
    requires j.Valid() && j.Core() <= steps && Migrates(steps[7..]) && 6 <= n < |steps|
    ensures Late(steps[n])
  {
    hide DecodeStatus, SlotName, ParseUki, UkiName;
    if n == 6 {
      assert steps[n] == j.Core()[6];
    } else {
      assert steps[n] == steps[7..][n - 7];
    }
  }

  lemma LateKeeps(src: Sources, d: Disk, c: Pipeline, x: Disk)
    requires Late(c)
    ensures Interrupted(src, d, c, x) ==> x.lvs == d.lvs
  {
  }
}
