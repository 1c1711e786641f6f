/** What a plan for one version leaves alone, command by command, and what a later scan still finds. */
module Frame {
  import opened Wrappers
  import opened Slots
  import opened Uki
  import opened Groups
  import opened Runtime
  import opened Disk
  import opened Inventory

  predicate EmptyName(n: string) {
    DecodeStatus(n).Ok? && DecodeStatus(n).value.1.Empty?
  }

  /** Not an empty slot and not a volume of `t`: other versions and every unmanaged volume. */
  predicate Protected(n: string, t: Version) {
    match DecodeStatus(n)
    case Err(_) => true
    case Ok((_, Used(v))) => v != t
    case Ok((_, Empty(_))) => false
  }

  /** Everything but empty slots and version `t` is the same. */
  ghost predicate Preserves(d: Disk, d': Disk, t: Version) {
    && d'.vg == d.vg
    && (forall n | Protected(n, t) :: (n in d.lvs <==> n in d'.lvs) && (n in d.lvs ==> d'.lvs[n] == d.lvs[n]))
    && (forall id | !IsUki(id, t) :: (id in d.esp <==> id in d'.esp) && (id in d.esp ==> d'.esp[id] == d.esp[id]))
  }

  /** The same after a possible power loss, for what was on stable storage. */
  ghost predicate Keeps(d: Disk, d': Disk, t: Version) {
    && d'.vg == d.vg
    && (forall n | Protected(n, t) ::
          && (n in d.lvs <==> n in d'.lvs)
          && (n in d.lvs ==> |d'.lvs[n].data| == |d.lvs[n].data| && (d.lvs[n].flushed ==> d'.lvs[n] == d.lvs[n])))
    && (forall id | !IsUki(id, t) ::
          && (id in d'.esp ==> id in d.esp)
          && (id in d.esp && d.esp[id].synced ==> id in d'.esp && d'.esp[id] == d.esp[id]))
  }

  lemma FrameThenLoss(d: Disk, x: Disk, d': Disk, t: Version)
    requires Preserves(d, x, t) && (d' == x || PowerLoss(x, d'))
    ensures Keeps(d, d', t)
  {
  }

  // ---------------------------------------------------------------- safe commands

  predicate EmptyDevice(path: string, vg: string) {
    var p := "/dev/mapper/" + vg + "-";
    p <= path && EmptyName(path[|p|..])
  }

  /** A command that may touch only empty slots, version `t`, and the type 1 entries `type1`. */
  predicate SafeFor(c: Pipeline, vg: string, t: Version, type1: set<string>) {
    match c
    case WriteImage(_, _, of) => EmptyDevice(of, vg)
    case FlushBufs(device) => EmptyDevice(device, vg)
    case Lvcreate(_, name, _) => EmptyName(name)
    case Lvresize(_, name, _) => EmptyName(name)
    case Lvrename(_, from, to) => !Protected(from, t) && !Protected(to, t)
    case InstallFile(_, dest) =>
      var n := EspName(dest);
      n.Some? ==> n.value == UkiName(UkiEntry(t, None)) && IsUki(n.value, t)
    case BootctlUnlink(id) => IsUki(id, t) || id in type1
    case _ => true
  }

  lemma {:induction false} EscapedMember(s: string, c: char)
    requires c != '-'
    ensures c in Escaped(s) <==> c in s
  {
    if s != [] {
      EscapedMember(s[1..], c);
      assert s == [s[0]] + s[1..];
    }
  }

  /** A name that escapes to the name of an empty slot is the name of an empty slot. */
  lemma UnescapedEmpty(n: string, n0: string)
    requires EmptyName(n0) && Escaped(n) == n0
    ensures EmptyName(n)
  {
    hide DecodeStatus, Escaped;
    var (k, st) := DecodeStatus(n0).value;
    DecodeThenPrint(n0);
    match st
    case Empty(Known(id)) =>
      var id' := UnescapePrefix(n, KindName(k) + "_empty_", id);
      EscapedMember(id', '_');
      PrintThenDecode(k, Empty(Known(id')));
    case Empty(Legacy) =>
      assert n0 == KindName(k) + "_empty" + "";
      var rest := UnescapePrefix(n, KindName(k) + "_empty", "");
      EscapedNoDash(rest);
      assert n == n0;
  }

  lemma EmptyNameStarts(n: string)
    requires EmptyName(n)
    ensures n != "" && n[0] != '-'
  {
    DecodeThenPrint(n);
  }

  /** Even where names hold dashes, the path of an empty slot never leads to anything but an empty slot. */
  lemma EmptyDeviceTarget(d: Disk, path: string)
    requires EmptyDevice(path, d.vg) && Target(d, path).Some?
    ensures EmptyName(Target(d, path).value)
  {
    hide DecodeStatus, Escaped;
    var p := "/dev/mapper/" + d.vg + "-";
    var n0, n := path[|p|..], Target(d, path).value;
    assert path == "/dev/mapper/" + d.vg + "-" + n0;
    EmptyNameStarts(n0);
    PathResolves(d.vg, n0, n);
    UnescapedEmpty(n, n0);
  }

  /** A safe command, finished or cut off anywhere, changes nothing protected. */
  lemma SafeStep(src: Sources, d: Disk, c: Pipeline, d': Disk, t: Version, type1: set<string>)
    requires SafeFor(c, d.vg, t, type1) && d.esp.Keys !! type1
    requires Done(src, d, c, d') || Interrupted(src, d, c, d')
    ensures Preserves(d, d', t)
  {
    hide DecodeStatus, SlotName, ParseUki, UkiName;
    match c
    case WriteImage(_, _, of) => if Target(d, of).Some? { EmptyDeviceTarget(d, of); }
    case FlushBufs(device) => if Target(d, device).Some? { EmptyDeviceTarget(d, device); }
    case _ =>
  }

  /** At most the one image the updater itself would install has version `t`. */
  ghost predicate OwnUki(d: Disk, t: Version) {
    forall id | HasUki(d, id, t) :: id == UkiName(UkiEntry(t, None))
  }

  /** No command adds an image but `install`, and that one only its own. */
  lemma EspStep(src: Sources, d: Disk, c: Pipeline, d': Disk)
    requires Done(src, d, c, d') || Interrupted(src, d, c, d')
    ensures var new_ := if c.InstallFile? && EspName(c.dest).Some? then {EspName(c.dest).value} else {};
            d'.esp.Keys <= d.esp.Keys + new_
  {
  }

  lemma OwnUkiFrom(d: Disk, d': Disk, t: Version)
    requires OwnUki(d, t) && d'.esp.Keys <= d.esp.Keys + {UkiName(UkiEntry(t, None))}
    ensures OwnUki(d', t)
  {
    forall id | HasUki(d', id, t)
      ensures id == UkiName(UkiEntry(t, None))
    {
      assert id in d'.esp.Keys;
      if id in d.esp {
        assert HasUki(d, id, t);
      }
    }
  }

  lemma OwnUkiStep(src: Sources, d: Disk, c: Pipeline, d': Disk, t: Version)
    requires SafeFor(c, d.vg, t, {}) && OwnUki(d, t)
    requires Done(src, d, c, d') || Interrupted(src, d, c, d')
    ensures OwnUki(d', t)
  {
    EspStep(src, d, c, d');
    OwnUkiFrom(d, d', t);
  }

  ghost predicate AllSafe(plan: seq<Pipeline>, vg: string, t: Version, type1: set<string>) {
    forall c | c in plan :: SafeFor(c, vg, t, type1)
  }

  lemma {:induction false} SafeTrace(src: Sources, plan: seq<Pipeline>, ds: seq<Disk>, t: Version)
    requires Trace(src, plan, ds) && AllSafe(plan, ds[0].vg, t, {}) && OwnUki(ds[0], t)
    ensures Preserves(ds[0], ds[|ds| - 1], t) && OwnUki(ds[|ds| - 1], t)
    decreases |ds|
  {
    if |ds| > 1 {
      var k := |ds| - 2;
      var before := ds[..|ds| - 1];
      assert Trace(src, plan, before);
      SafeTrace(src, plan, before, t);
      assert Done(src, ds[k], plan[k], ds[k + 1]);
      SafeStep(src, ds[k], plan[k], ds[k + 1], t, {});
      OwnUkiStep(src, ds[k], plan[k], ds[k + 1], t);
    }
  }

  lemma SafeStop(src: Sources, plan: seq<Pipeline>, ds: seq<Disk>, x: Disk, t: Version)
    requires StopsIn(src, plan, ds, x) && AllSafe(plan, ds[0].vg, t, {}) && OwnUki(ds[0], t)
    ensures Preserves(ds[0], x, t) && OwnUki(x, t)
  {
    SafeTrace(src, plan, ds, t);
    var last := ds[|ds| - 1];
    if x != last {
      var c := plan[|ds| - 1];
      assert c in plan && SafeFor(c, last.vg, t, {});
      SafeStep(src, last, c, x, t, {});
      OwnUkiStep(src, last, c, x, t);
    }
  }

  /** Wherever a safe plan stops, with or without power, everything else is kept. */
  lemma SafePlan(src: Sources, plan: seq<Pipeline>, ds: seq<Disk>, x: Disk, d': Disk, t: Version)
    requires StopsIn(src, plan, ds, x) && AllSafe(plan, ds[0].vg, t, {}) && OwnUki(ds[0], t)
    requires d' == x || PowerLoss(x, d')
    ensures Keeps(ds[0], d', t) && OwnUki(d', t)
  {
    SafeStop(src, plan, ds, x, t);
    FrameThenLoss(ds[0], x, d', t);
    OwnUkiFrom(x, d', t);
  }

  // ---------------------------------------------------------------- later scans

  lemma HasLvKept(d: Disk, d': Disk, t: Version, k: Kind, v: Version)
    requires Keeps(d, d', t) && v != t
    ensures HasLv(d, k, Used(v)) <==> HasLv(d', k, Used(v))
  {
    if Printable(Used(v)) {
      PrintThenDecode(k, Used(v));
      assert Protected(SlotName(k, Used(v)), t);
    }
  }

  lemma StillNoDouble(d: Disk, d': Disk, t: Version)
    requires Keeps(d, d', t) && OwnUki(d', t) && !DoubleUki(d)
    ensures !DoubleUki(d')
  {
    if a, b, v :| HasUki(d', a, v) && HasUki(d', b, v) && a != b && HasLv(d', Root, Used(v)) {
      if v == t {
        assert false;
      } else {
        HasLvKept(d, d', t, Root, v);
        assert HasUki(d, a, v) && HasUki(d, b, v);
      }
    }
  }

  /** The running kernel is not of version `t`. */
  predicate NotBooted(kernel: Kernel, t: Version) {
    match KernelVersion(kernel)
    case Some(v) => v != t
    case None => t.hash.Some?
  }

  /** The group sits on stable storage. */
  ghost predicate Settled(d: Disk, g: SlotGroup) {
    && (g.root.Some? ==> g.root.value.volume.lvName in d.lvs && d.lvs[g.root.value.volume.lvName].flushed)
    && (g.verity.Some? ==> g.verity.value.volume.lvName in d.lvs && d.lvs[g.verity.value.volume.lvName].flushed)
    && (g.boot.Some? ==> g.boot.value.id in d.esp && d.esp[g.boot.value.id].synced)
  }

  predicate SameSlot(s: Option<Slot>, s': Option<Slot>) {
    && (s.Some? <==> s'.Some?)
    && (s.Some? ==> s.value.kind == s'.value.kind && s.value.status == s'.value.status
                    && s.value.volume.lvName == s'.value.volume.lvName)
  }

  /** One group in two scans; only the reported sizes may differ. */
  predicate SameGroup(g: SlotGroup, g': SlotGroup) {
    SameSlot(g.root, g'.root) && SameSlot(g.verity, g'.verity) && g.boot == g'.boot
  }

  predicate SameLv(d: Disk, s: Option<Slot>, d': Disk) {
    s.Some? ==> var n := s.value.volume.lvName; n in d.lvs && n in d'.lvs && d'.lvs[n] == d.lvs[n]
  }

  /** The volumes of a group, with size and contents, and its image are unchanged. */
  predicate Intact(d: Disk, g: SlotGroup, d': Disk) {
    && SameLv(d, g.root, d') && SameLv(d, g.verity, d')
    && (g.boot.Some? ==> var id := g.boot.value.id; id in d.esp && id in d'.esp && d'.esp[id] == d.esp[id])
  }

  lemma SlotNames(d: Disk, d': Disk, s: Slot, s': Slot)
    requires SlotOn(d, s) && SlotOn(d', s') && s.kind == s'.kind && s.status == s'.status
    ensures s.volume.lvName == s'.volume.lvName
  {
    NameInjective(s.volume.lvName, s'.volume.lvName);
  }

  lemma ScannedNoDouble(d: Disk, gs: seq<SlotGroup>)
    requires Scanned(d, gs)
    ensures !DoubleUki(d)
  {
    if a, b, v :| HasUki(d, a, v) && HasUki(d, b, v) && a != b && HasLv(d, Root, Used(v)) {
      var i :| 0 <= i < |gs| && gs[i].boot.Some? && gs[i].boot.value.id == a;
      var j :| 0 <= j < |gs| && gs[j].boot.Some? && gs[j].boot.value.id == b;
      assert Fits(d, gs[i]) && Fits(d, gs[j]);
      assert KeyOf(gs[i]) == ByStatus(Used(v)) && KeyOf(gs[j]) == ByStatus(Used(v));
    }
  }

  /** A settled group of another version is found again, and is intact. */
  lemma GroupSurvives(d: Disk, gs: seq<SlotGroup>, d': Disk, gs': seq<SlotGroup>, t: Version, g: SlotGroup)
    returns (j: nat)
    requires Scanned(d, gs) && Scanned(d', gs') && Keeps(d, d', t) && g in gs && Settled(d, g)
    requires g.GroupVersion().Some? && g.GroupVersion().value != t
    ensures j < |gs'| && KeyOf(gs'[j]) == KeyOf(g) && SameGroup(g, gs'[j]) && Intact(d, g, d')
  {
    assert Fits(d, g);
    var v := g.GroupVersion().value;
    HasLvKept(d, d', t, Root, v);
    HasLvKept(d, d', t, Verity, v);
    SettledIntact(d, g, d', t);
    if HasVolume(g) {
      var k := if g.root.Some? then Root else Verity;
      assert HasLv(d', k, Used(v));
      j :| 0 <= j < |gs'| && KeyOf(gs'[j]) == ByStatus(Used(v));
      VolumesSurvive(d, gs, d', gs', t, g, gs'[j], v);
    } else {
      var id := g.boot.value.id;
      j :| 0 <= j < |gs'| && gs'[j].boot.Some? && gs'[j].boot.value.id == id;
      assert Fits(d', gs'[j]);
    }
  }

  lemma SettledIntact(d: Disk, g: SlotGroup, d': Disk, t: Version)
    requires Fits(d, g) && Settled(d, g) && Keeps(d, d', t)
    requires g.GroupVersion().Some? && g.GroupVersion().value != t
    ensures Intact(d, g, d')
  {
    if g.root.Some? {
      assert Protected(g.root.value.volume.lvName, t);
    }
    if g.verity.Some? {
      assert Protected(g.verity.value.volume.lvName, t);
    }
    if g.boot.Some? {
      assert !IsUki(g.boot.value.id, t);
    }
  }

  lemma VolumesSurvive(d: Disk, gs: seq<SlotGroup>, d': Disk, gs': seq<SlotGroup>, t: Version, g: SlotGroup,
                       g': SlotGroup, v: Version)
    requires Scanned(d, gs) && Keeps(d, d', t) && VolumesFit(d, g) && VolumesFit(d', g') && Intact(d, g, d') && v != t
    requires HasVolume(g) && HasVolume(g') && StatusOf(g) == Used(v) && StatusOf(g') == Used(v)
    ensures SameGroup(g, g')
  {
    HasLvKept(d, d', t, Root, v);
    HasLvKept(d, d', t, Verity, v);
    if g.root.Some? {
      SlotNames(d, d', g.root.value, g'.root.value);
    }
    if g.verity.Some? {
      SlotNames(d, d', g.verity.value, g'.verity.value);
    }
    if g'.boot.Some? {
      var id := g'.boot.value.id;
      assert HasUki(d, id, v);
      ScannedNoDouble(d, gs);
      assert g.boot.Some?;
      assert HasUki(d, g.boot.value.id, v);
    } else if g.boot.Some? {
      assert HasUki(d', g.boot.value.id, v);
    }
  }

  /** A group that a later scan finds active was there, active, before. */
  lemma ActiveWasThere(d: Disk, gs: seq<SlotGroup>, d': Disk, gs': seq<SlotGroup>, t: Version, kernel: Kernel,
                       g': SlotGroup)
    returns (i: nat)
    requires Scanned(d, gs) && Scanned(d', gs') && Keeps(d, d', t) && NotBooted(kernel, t)
    requires g' in gs' && g'.IsActive(kernel)
    ensures i < |gs| && KeyOf(gs[i]) == KeyOf(g') && gs[i].IsActive(kernel)
  {
    assert Fits(d', g');
    var v := g'.GroupVersion().value;
    assert v != t;
    HasLvKept(d, d', t, Root, v);
    HasLvKept(d, d', t, Verity, v);
    if HasVolume(g') {
      var k := if g'.root.Some? then Root else Verity;
      assert HasLv(d, k, Used(v));
      i :| 0 <= i < |gs| && KeyOf(gs[i]) == ByStatus(Used(v));
      assert Fits(d, gs[i]);
    } else {
      var id := g'.boot.value.id;
      assert id in d.esp;
      i :| 0 <= i < |gs| && gs[i].boot.Some? && gs[i].boot.value.id == id;
      assert Fits(d, gs[i]);
    }
  }

  // ---------------------------------------------------------------- exactly one group

  lemma {:induction false} FilterNone(gs: seq<SlotGroup>, p: SlotGroup -> bool)
    ensures Filter(gs, p) == [] <==> forall j | 0 <= j < |gs| :: !p(gs[j])
  {
    if gs != [] {
      FilterNone(gs[..|gs| - 1], p);
    }
  }

  lemma {:induction false} FilterOne(gs: seq<SlotGroup>, p: SlotGroup -> bool, i: nat)
    requires i < |gs| && p(gs[i]) && forall j | 0 <= j < |gs| && j != i :: !p(gs[j])
    ensures Filter(gs, p) == [gs[i]]
  {
    var init := gs[..|gs| - 1];
    if i < |init| {
      FilterOne(init, p, i);
    } else {
      FilterNone(init, p);
    }
  }

  lemma {:induction false} FilterOneIndex(gs: seq<SlotGroup>, p: SlotGroup -> bool) returns (i: nat)
    requires |Filter(gs, p)| == 1
    ensures i < |gs| && gs[i] == Filter(gs, p)[0] && p(gs[i]) && forall j | 0 <= j < |gs| && j != i :: !p(gs[j])
  {
    var init := gs[..|gs| - 1];
    if p(gs[|gs| - 1]) {
      i := |gs| - 1;
      FilterNone(init, p);
      assert forall j | 0 <= j < |init| :: init[j] == gs[j];
    } else {
      i := FilterOneIndex(init, p);
    }
  }

  /** The one active group of a scan, by position. */
  lemma ActiveIndex(rt: Runtime) returns (i: nat)
    requires ActiveSlot(rt).Ok?
    ensures i < |rt.slotgroups| && rt.slotgroups[i] == ActiveSlot(rt).value
    ensures forall j | 0 <= j < |rt.slotgroups| :: rt.slotgroups[j].IsActive(rt.kernel) <==> j == i
  {
    var p := (g: SlotGroup) => g.IsActive(rt.kernel);
    i := FilterOneIndex(rt.slotgroups, p);
    assert forall j | 0 <= j < |rt.slotgroups| :: p(rt.slotgroups[j]) <==> j == i;
  }

  lemma ActiveByIndex(rt: Runtime, i: nat)
    requires i < |rt.slotgroups|
    requires forall j | 0 <= j < |rt.slotgroups| :: rt.slotgroups[j].IsActive(rt.kernel) <==> j == i
    ensures ActiveSlot(rt) == Ok(rt.slotgroups[i])
  {
    FilterOne(rt.slotgroups, (g: SlotGroup) => g.IsActive(rt.kernel), i);
  }

  /**
   * If every change is kept within version `t` and the kernel does not run `t`, the active group of one
   * scan is the active group of every later one, and intact.
   */
  lemma ActiveSurvives(d: Disk, rt: Runtime, d': Disk, rt': Runtime, t: Version)
    requires Scanned(d, rt.slotgroups) && Scanned(d', rt'.slotgroups) && rt'.kernel == rt.kernel
    requires Keeps(d, d', t) && NotBooted(rt.kernel, t)
    requires ActiveSlot(rt).Ok? && Settled(d, ActiveSlot(rt).value)
    ensures ActiveSlot(rt').Ok? && SameGroup(ActiveSlot(rt).value, ActiveSlot(rt').value)
    ensures Intact(d, ActiveSlot(rt).value, d')
  {
    hide DecodeStatus, SlotName, ParseUki, UkiName;
    var i := ActiveIndex(rt);
    var a := rt.slotgroups[i];
    assert a.IsActive(rt.kernel);
    ActiveNotOf(d, a, rt.kernel, t);
    var j := GroupSurvives(d, rt.slotgroups, d', rt'.slotgroups, t, a);
    SameGroupActive(a, rt'.slotgroups[j], rt.kernel);
    forall k | 0 <= k < |rt'.slotgroups|
      ensures rt'.slotgroups[k].IsActive(rt'.kernel) <==> k == j
    {
      if rt'.slotgroups[k].IsActive(rt'.kernel) {
        var i' := ActiveWasThere(d, rt.slotgroups, d', rt'.slotgroups, t, rt.kernel, rt'.slotgroups[k]);
        SameKeySameIndex(d', rt'.slotgroups, j, k);
      }
    }
    ActiveByIndex(rt', j);
  }

  lemma SameKeySameIndex(d: Disk, gs: seq<SlotGroup>, i: nat, j: nat)
    requires Scanned(d, gs) && i < |gs| && j < |gs|
    ensures KeyOf(gs[i]) == KeyOf(gs[j]) ==> i == j
  {
  }

  lemma ActiveNotOf(d: Disk, a: SlotGroup, kernel: Kernel, t: Version)
    requires Fits(d, a) && a.IsActive(kernel) && NotBooted(kernel, t)
    ensures a.GroupVersion().Some? && a.GroupVersion().value != t
  {
  }

  lemma SameGroupActive(g: SlotGroup, g': SlotGroup, kernel: Kernel)
    requires SameGroup(g, g')
    ensures g.IsActive(kernel) <==> g'.IsActive(kernel)
    ensures g.GroupVersion() == g'.GroupVersion()
  {
  }
}
