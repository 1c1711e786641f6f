/** Inventory of the running system, slot lookup and slot selection (`image/runtime.rs`, `image/manifest.rs`). */
module Runtime {
  import opened Wrappers
  import opened Text
  import opened Slots
  import opened Uki
  import opened Groups

  /** The shell pipelines a plan is made of, as structured values. */
  datatype Pipeline =
    | WriteImage(input: string, compressed: bool, of: string) // [zstdcat |] dd
    | FlushBufs(device: string)                               // blockdev --flushbufs
    | Lvcreate(vg: string, name: string, size: nat)
    | Lvresize(vg: string, name: string, size: nat)
    | Lvrename(vg: string, from: string, to: string)
    | InstallFile(input: string, dest: string)
    | BootctlUnlink(id: string)
    | EditLoaderConf(path: string)                            // sed -i s/^default .*/default @saved/
    | RemoveFile(path: string)                                // rm -f
    | BootctlSetDefault

  datatype File = File(name: string, unpackedSize: Option<nat>)

  datatype Manifest = Manifest(version: string, rootVerityHash: string, kernel: File, store: File, verity: File) {
    /** Slicing a shorter hash panics. */
    function ToVersion(): Version
      requires |rootVerityHash| >= 16
    {
      Version(version, Some(rootVerityHash[..16]))
    }
  }

  /** A kernel that was built with the manifest's hash and version runs the version that an install names. */
  lemma KernelOfManifest(k: Kernel, m: Manifest)
    requires k.storeHash == Some(m.rootVerityHash) && k.revision == Some(m.version)
    ensures KernelVersion(k) == Some(m.ToVersion())
    ensures var h := m.ToVersion().hash; h.Some? && |h.value| == 16 && h.value <= m.rootVerityHash
  {
  }

  datatype Runtime = Runtime(
    slotgroups: seq<SlotGroup>,
    volumes: seq<Volume>,
    kernel: Kernel,
    bootEntries: seq<BootEntry>,
    boot: string)

  datatype SlotSelection =
    | AlreadyInstalled
    | Selected(slot: SlotGroup, preSteps: seq<Pipeline>)

  /** `Runtime::new`: one scan of the volumes and boot entries. */
  function Scan(vols: seq<Volume>, kernel: Kernel, items: seq<BootctlItem>): Result<Runtime> {
    var entries := FromBootctl(items);
    var groups :- GroupAll(ParsedSlots(vols), Partition(entries, true));
    Ok(Runtime(groups, UnparsedVolumes(vols), kernel, Partition(entries, false), "/boot"))
  }

  // ---------------------------------------------------------------- lookup

  function Filter(gs: seq<SlotGroup>, p: SlotGroup -> bool): (r: seq<SlotGroup>)
    ensures forall g :: g in r <==> g in gs && p(g)
  {
    if gs == [] then []
    else
      var r := Filter(gs[..|gs| - 1], p);
      if p(gs[|gs| - 1]) then r + [gs[|gs| - 1]] else r
  }

  /** At most one group may satisfy `p`. */
  function ExactlyOne(gs: seq<SlotGroup>, p: SlotGroup -> bool): Result<Option<SlotGroup>> {
    var r := Filter(gs, p);
    if |r| == 0 then Ok(None) else if |r| == 1 then Ok(Some(r[0])) else Err("ambiguous slot selection")
  }

  method FindExactOneGroup(gs: seq<SlotGroup>, p: SlotGroup -> bool) returns (r: Result<Option<SlotGroup>>)
    ensures r == ExactlyOne(gs, p)
  {
    var found: Option<SlotGroup> := None;
    for i := 0 to |gs|
      invariant Filter(gs[..i], p) == match found case None => [] case Some(g) => [g]
    {
      assert gs[..i + 1][..i] == gs[..i];
      if p(gs[i]) {
        if found.Some? {
          FilterGrows(gs, p, i + 1);
          return Err("ambiguous slot selection");
        }
        found := Some(gs[i]);
      }
    }
    assert gs[..|gs|] == gs;
    r := Ok(found);
  }

  lemma {:induction false} FilterGrows(gs: seq<SlotGroup>, p: SlotGroup -> bool, n: nat)
    requires n <= |gs|
    ensures |Filter(gs[..n], p)| <= |Filter(gs, p)|
    decreases |gs| - n
  {
    if n < |gs| {
      assert gs[..n + 1][..n] == gs[..n];
      FilterGrows(gs, p, n + 1);
    } else {
      assert gs[..n] == gs;
    }
  }

  function ActiveSlot(rt: Runtime): Result<SlotGroup> {
    var found :- ExactlyOne(rt.slotgroups, (g: SlotGroup) => g.IsActive(rt.kernel));
    match found
    case Some(g) => Ok(g)
    case None => Err("no active slot detected")
  }

  /** Exact version first; a version without hash falls back to the only group of that revision with a hash. */
  function FindSlotGroup(rt: Runtime, version: Version): Result<SlotGroup> {
    var exact :- ExactlyOne(rt.slotgroups, (g: SlotGroup) => g.GroupVersion() == Some(version));
    if exact.Some? then Ok(exact.value)
    else if version.hash.Some? then Err("slot not found")
    else
      var byRevision :- ExactlyOne(rt.slotgroups, (g: SlotGroup) =>
        && g.GroupVersion().Some? && g.GroupVersion().value.revision == version.revision
        && g.GroupVersion().value.hash.Some?);
      if byRevision.Some? then Ok(byRevision.value) else Err("slot not found")
  }

  /** Some group has the identifier. */
  ghost predicate HasId(gs: seq<SlotGroup>, id: string) {
    exists g :: g in gs && g.EmptyIdText() == Some(id)
  }

  function UsedIds(gs: seq<SlotGroup>): (ids: set<string>)
    ensures forall id :: id in ids <==> HasId(gs, id)
    ensures |ids| <= |gs|
  {
    if gs == [] then {}
    else
      var ids := UsedIds(gs[..|gs| - 1]);
      match gs[|gs| - 1].EmptyIdText()
      case Some(id) => ids + {id}
      case None => ids
  }

  const ID_SPACE: nat := 100

  function FreeIdFrom(used: set<string>, i: nat): Result<string>
    requires i <= ID_SPACE
    decreases ID_SPACE - i
  {
    if i == ID_SPACE then Err("empty identifier space exhausted")
    else if PrintNat(i) !in used then Ok(PrintNat(i))
    else FreeIdFrom(used, i + 1)
  }

  function FreeIdentifier(gs: seq<SlotGroup>): Result<string> {
    FreeIdFrom(UsedIds(gs), 0)
  }

  method AllocateEmptyIdentifier(gs: seq<SlotGroup>) returns (r: Result<string>)
    ensures r == FreeIdentifier(gs)
  {
    var used := UsedIds(gs);
    for i := 0 to ID_SPACE
      invariant FreeIdentifier(gs) == FreeIdFrom(used, i)
    {
      var candidate := PrintNat(i);
      if candidate !in used {
        return Ok(candidate);
      }
    }
    r := Err("empty identifier space exhausted");
  }

  /** The first `n` identifiers. */
  ghost function Decimals(n: nat): set<string> {
    if n == 0 then {} else Decimals(n - 1) + {PrintNat(n - 1)}
  }

  lemma {:induction false} DecimalsMember(n: nat, s: string) returns (i: nat)
    requires s in Decimals(n)
    ensures i < n && s == PrintNat(i)
  {
    if s == PrintNat(n - 1) {
      i := n - 1;
    } else {
      i := DecimalsMember(n - 1, s);
    }
  }

  lemma {:induction false} DecimalsCard(n: nat)
    ensures |Decimals(n)| == n
  {
    if n > 0 {
      DecimalsCard(n - 1);
      if PrintNat(n - 1) in Decimals(n - 1) {
        var i := DecimalsMember(n - 1, PrintNat(n - 1));
        assert false;
      }
    }
  }

  /** `n` is the least identifier from `i` on that is not in use. */
  ghost predicate LeastFree(used: set<string>, i: nat, n: nat) {
    i <= n < ID_SPACE && PrintNat(n) !in used && forall j | i <= j < n :: PrintNat(j) in used
  }

  lemma {:induction false} FreeIdLeast(used: set<string>, i: nat) returns (n: nat)
    requires i <= ID_SPACE
    ensures FreeIdFrom(used, i).Ok? ==> LeastFree(used, i, n) && FreeIdFrom(used, i).value == PrintNat(n)
    ensures FreeIdFrom(used, i).Err? ==> forall j | i <= j < ID_SPACE :: PrintNat(j) in used
    decreases ID_SPACE - i
  {
    hide PrintNat;
    n := i;
    if i < ID_SPACE && PrintNat(i) in used {
      n := FreeIdLeast(used, i + 1);
    }
  }

  lemma {:induction false} AllUsed(used: set<string>, n: nat)
    requires forall j | 0 <= j < n :: PrintNat(j) in used
    ensures Decimals(n) <= used
  {
    hide PrintNat;
    if n > 0 {
      AllUsed(used, n - 1);
    }
  }

  /** `n` is the least number that is the identifier of no group. */
  ghost predicate LeastId(gs: seq<SlotGroup>, n: nat) {
    !HasId(gs, PrintNat(n)) && forall j | 0 <= j < n :: HasId(gs, PrintNat(j))
  }

  /**
   * Allocation gives the least number that is the identifier of no group. It fails exactly if all below 100
   * are taken, and so not while there are fewer than 100 groups.
   */
  lemma FreshIdentifier(gs: seq<SlotGroup>) returns (n: nat)
    ensures FreeIdentifier(gs).Ok? ==> n < 100 && LeastId(gs, n) && FreeIdentifier(gs).value == PrintNat(n)
    ensures FreeIdentifier(gs).Ok? ==> forall g | g in gs :: g.EmptyIdText() != Some(FreeIdentifier(gs).value)
    ensures FreeIdentifier(gs).Err? <==> forall j | 0 <= j < 100 :: HasId(gs, PrintNat(j))
    ensures |gs| < ID_SPACE ==> FreeIdentifier(gs).Ok?
  {
    hide PrintNat, UsedIds;
    var used := UsedIds(gs);
    n := FreeIdLeast(used, 0);
    if FreeIdentifier(gs).Err? {
      AllUsed(used, ID_SPACE);
      DecimalsCard(ID_SPACE);
      SubsetCard(Decimals(ID_SPACE), used);
    }
  }

  // ---------------------------------------------------------------- selection

  /** `lvresize` for the volumes known to be smaller than a known image. */
  function ResizeStep(slot: Option<Slot>, size: Option<nat>): seq<Pipeline> {
    match (slot, size)
    case (Some(s), Some(needed)) =>
      if s.volume.lvSizeBytes.Some? && s.volume.lvSizeBytes.value < needed
      then [Lvresize(s.volume.vgName, s.volume.lvName, needed)] else []
    case _ => []
  }

  function ResizeSteps(slot: SlotGroup, m: Manifest): seq<Pipeline> {
    ResizeStep(slot.root, m.store.unpackedSize) + ResizeStep(slot.verity, m.verity.unpackedSize)
  }

  /** Exactly the volumes listed as smaller than their image are resized, to the size of the image. */
  lemma ResizeIff(slot: SlotGroup, m: Manifest, c: Pipeline)
    ensures c in ResizeSteps(slot, m) <==> Grown(slot.root, m.store, c) || Grown(slot.verity, m.verity, c)
  {
  }

  predicate Grown(slot: Option<Slot>, file: File, c: Pipeline) {
    && slot.Some? && file.unpackedSize.Some? && slot.value.volume.lvSizeBytes.Some?
    && slot.value.volume.lvSizeBytes.value < file.unpackedSize.value
    && c == Lvresize(slot.value.volume.vgName, slot.value.volume.lvName, file.unpackedSize.value)
  }

  /** The prefix of a new volume, the size the manifest wants and the size of the active one. */
  datatype VolumeSpec = VolumeSpec(prefix: string, wanted: Option<nat>, fallback: Option<nat>)

  /** One new volume: its size, its `lvcreate` step, and the slot its name parses to. */
  function NewVolume(spec: VolumeSpec, vg: string, id: string): Result<(Slot, Pipeline)> {
    match (if spec.wanted.Some? then spec.wanted else spec.fallback)
    case None => Err("cannot determine LV size")
    case Some(size) =>
      var name := spec.prefix + "_empty_" + id;
      match DecodeStatus(name)
      case Ok((k, st)) => Ok((Slot(k, st, Volume(name, vg, Some(size))), Lvcreate(vg, name, size)))
      case Err(_) => Err("failed to parse created slot")
  }

  /** A new volume has the size the manifest wants, or else that of the active one, and fails only without either. */
  lemma NewVolumeExact(spec: VolumeSpec, vg: string, id: string)
    ensures var size := if spec.wanted.Some? then spec.wanted else spec.fallback;
            match NewVolume(spec, vg, id)
            case Ok((s, c)) =>
              && size.Some? && c == Lvcreate(vg, spec.prefix + "_empty_" + id, size.value)
              && s.volume == Volume(spec.prefix + "_empty_" + id, vg, size)
              && DecodeStatus(s.volume.lvName) == Ok((s.kind, s.status))
            case Err(_) => size.None? || DecodeStatus(spec.prefix + "_empty_" + id).Err?
  {
    hide DecodeStatus;
  }

  function NewEmptySlot(rt: Runtime, m: Manifest): Result<(SlotGroup, seq<Pipeline>)> {
    var active :- ActiveSlot(rt);
    if active.root.None? then Err("active slot has no root")
    else if active.verity.None? then Err("active slot has no verity")
    else
      var root, verity := active.root.value.volume, active.verity.value.volume;
      var id :- FreeIdentifier(rt.slotgroups);
      var (r, mkRoot) :- NewVolume(VolumeSpec("root", m.store.unpackedSize, root.lvSizeBytes), root.vgName, id);
      var (v, mkVerity) :- NewVolume(VolumeSpec("verity", m.verity.unpackedSize, verity.lvSizeBytes), root.vgName, id);
      Ok((SlotGroup(Some(r), Some(v), None), [mkRoot, mkVerity]))
  }

  /** The volumes of the specs in order; the first failure ends the loop. */
  method MakeVolumes(specs: seq<VolumeSpec>, vg: string, id: string) returns (r: Result<(seq<Slot>, seq<Pipeline>)>)
    ensures r.Ok? ==>
              && |r.value.0| == |r.value.1| == |specs|
              && forall i | 0 <= i < |specs| :: NewVolume(specs[i], vg, id) == Ok((r.value.0[i], r.value.1[i]))
    ensures r.Err? ==> exists n ::
              && 0 <= n < |specs| && NewVolume(specs[n], vg, id) == Err(r.reason)
              && forall i | 0 <= i < n :: NewVolume(specs[i], vg, id).Ok?
  {
    hide NewVolume;
    var slots: seq<Slot>, steps: seq<Pipeline> := [], [];
    for n := 0 to |specs|
      invariant |slots| == |steps| == n
      invariant forall i | 0 <= i < n :: NewVolume(specs[i], vg, id) == Ok((slots[i], steps[i]))
    {
      var made := NewVolume(specs[n], vg, id);
      if made.Err? { return Err(made.reason); }
      slots, steps := slots + [made.value.0], steps + [made.value.1];
    }
    r := Ok((slots, steps));
  }

  method CreateEmptySlot(rt: Runtime, m: Manifest) returns (r: Result<(SlotGroup, seq<Pipeline>)>)
    ensures r == NewEmptySlot(rt, m)
  {
    hide ActiveSlot, FreeIdentifier, DecodeStatus;
    var active := ActiveSlot(rt);
    if active.Err? { return Err(active.reason); }
    if active.value.root.None? { return Err("active slot has no root"); }
    if active.value.verity.None? { return Err("active slot has no verity"); }
    var root, verity := active.value.root.value.volume, active.value.verity.value.volume;
    var id := AllocateEmptyIdentifier(rt.slotgroups);
    if id.Err? { return Err(id.reason); }
    var specs := [VolumeSpec("root", m.store.unpackedSize, root.lvSizeBytes),
                  VolumeSpec("verity", m.verity.unpackedSize, verity.lvSizeBytes)];
    var made := MakeVolumes(specs, root.vgName, id.value);
    if made.Err? {
      var r0, r1 := NewVolume(specs[0], root.vgName, id.value), NewVolume(specs[1], root.vgName, id.value);
      assert r0 == Err(made.reason) || (r0.Ok? && r1 == Err(made.reason));
      return Err(made.reason);
    }
    var (slots, preSteps) := made.value;
    assert preSteps == [preSteps[0], preSteps[1]];
    r := Ok((SlotGroup(Some(slots[0]), Some(slots[1]), None), preSteps));
  }

  /** The first complete empty group that is not active. */
  predicate Usable(g: SlotGroup, kernel: Kernel) {
    g.IsEmpty() && !g.IsActive(kernel) && g.IsComplete()
  }

  predicate FirstUsable(gs: seq<SlotGroup>, kernel: Kernel, i: nat)
    requires i < |gs|
  {
    Usable(gs[i], kernel) && forall k | 0 <= k < i :: !Usable(gs[k], kernel)
  }

  function FirstEmpty(gs: seq<SlotGroup>, kernel: Kernel): (r: Option<SlotGroup>)
    ensures r.Some? ==> exists i :: 0 <= i < |gs| && gs[i] == r.value && FirstUsable(gs, kernel, i)
    ensures r.None? ==> forall g | g in gs :: !Usable(g, kernel)
  {
    if gs == [] then None
    else
      var r := FirstEmpty(gs[..|gs| - 1], kernel);
      var g := gs[|gs| - 1];
      if r.Some? then r
      else if Usable(g, kernel) then Some(g)
      else None
  }

  function SelectUpdateSlot(rt: Runtime, m: Manifest): Result<SlotSelection>
    requires |m.rootVerityHash| >= 16
  {
    var target := m.ToVersion();
    if exists g :: g in rt.slotgroups && g.IsUsed() && g.IsComplete() && g.GroupVersion() == Some(target) then
      Ok(AlreadyInstalled)
    else
      match FirstEmpty(rt.slotgroups, rt.kernel)
      case Some(slot) =>
        var slot' :- slot.AttachUki(UkiEntry(target, None));
        Ok(Selected(slot', ResizeSteps(slot, m)))
      case None =>
        var (slot, preSteps) :- NewEmptySlot(rt, m);
        var slot' :- slot.AttachUki(UkiEntry(target, None));
        Ok(Selected(slot', preSteps))
  }
}
