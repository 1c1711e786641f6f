/** Slot groups: a root volume, a verity volume and a boot entry (`image/group.rs`). */
module Groups {
  import opened Wrappers
  import opened Slots
  import opened Uki

  /** Well-known parameters of the running kernel. */
  datatype KernelParams = KernelParams(storeHash: Option<string>, revision: Option<string>)

  /** The constructor admits a store hash only with 64 characters. */
  type Kernel = k: KernelParams | k.storeHash.Some? ==> |k.storeHash.value| == 64 witness KernelParams(None, None)

  function KernelVersion(k: Kernel): Option<Version> {
    match k.revision
    case None => None
    case Some(r) => Some(Version(r, match k.storeHash case Some(h) => Some(h[..16]) case None => None))
  }

  /** The version a kernel reports is the one its own revision and the first sixteen characters of its hash name. */
  lemma KernelVersionExact(k: Kernel, v: Version)
    ensures KernelVersion(k) == Some(v) <==>
            && k.revision == Some(v.revision) && (k.storeHash.Some? <==> v.hash.Some?)
            && (v.hash.Some? ==> |v.hash.value| == 16 && v.hash.value <= k.storeHash.value)
  {
    if k.revision == Some(v.revision) && v.hash.Some? && k.storeHash.Some? && |v.hash.value| == 16
       && v.hash.value <= k.storeHash.value {
      assert k.storeHash.value[..16] == v.hash.value;
    }
  }

  datatype SlotGroup = SlotGroup(root: Option<Slot>, verity: Option<Slot>, boot: Option<BootEntry>) {
    predicate MatchesSlot(s: Slot) {
      (root.Some? && root.value.Matches(s)) || (verity.Some? && verity.value.Matches(s))
    }

    predicate MatchesBoot(b: BootEntry) {
      var bv := b.EntryVersion();
      root.Some? && (root.value.SlotVersion() == bv || (verity.Some? && verity.value.SlotVersion() == bv))
    }

    function AttachSlot(s: Slot): Result<SlotGroup> {
      match s.kind
      case Root => if root.Some? then Err("Duplicate root slot in group") else Ok(this.(root := Some(s)))
      case Verity => if verity.Some? then Err("Duplicate verity slot in group") else Ok(this.(verity := Some(s)))
    }

    function GroupVersion(): Option<Version> {
      if root.Some? then root.value.SlotVersion()
      else if verity.Some? then verity.value.SlotVersion()
      else if boot.Some? then boot.value.EntryVersion()
      else None
    }

    function EmptyIdText(): Option<string> {
      if root.Some? then root.value.EmptyIdText()
      else if verity.Some? then verity.value.EmptyIdText()
      else None
    }

    predicate IsEmpty() {
      && (root.Some? || verity.Some?)
      && (root.Some? ==> root.value.status.Empty?)
      && (verity.Some? ==> verity.value.status.Empty?)
    }

    predicate IsUsed() {
      || (root.Some? && !root.value.status.Empty?)
      || (verity.Some? && !verity.value.status.Empty?)
      || boot.Some?
    }

    predicate IsComplete() {
      root.Some? && verity.Some?
    }

    predicate IsLegacy() {
      (root.Some? && root.value.IsLegacy()) || (verity.Some? && verity.value.IsLegacy())
    }

    predicate IsActive(kernel: Kernel) {
      match (GroupVersion(), KernelVersion(kernel))
      case (Some(slotV), Some(kernelV)) => slotV == kernelV
      case (Some(_), None) => IsLegacy()
      case _ => false
    }

    function AttachUki(uki: UkiEntry): Result<SlotGroup> {
      if boot.Some? then Err("Already have UKI (state error)")
      else Ok(this.(boot := Some(BootEntry(UkiName(uki), Managed(uki)))))
    }
  }

  /** An image can be attached exactly to a group without one, and nothing else of it changes. */
  lemma AttachUkiIff(g: SlotGroup, uki: UkiEntry)
    ensures g.AttachUki(uki).Ok? <==> g.boot.None?
    ensures g.AttachUki(uki).Ok? ==>
              g.AttachUki(uki).value == SlotGroup(g.root, g.verity, Some(BootEntry(UkiName(uki), Managed(uki))))
  {
  }

  /** The first group a slot belongs to, or the number of groups. */
  function FindForSlot(gs: seq<SlotGroup>, s: Slot): (i: nat)
    ensures i <= |gs|
    ensures i < |gs| ==> gs[i].MatchesSlot(s)
    ensures forall j | 0 <= j < i :: !gs[j].MatchesSlot(s)
  {
    if gs == [] then 0
    else
      var i := FindForSlot(gs[..|gs| - 1], s);
      if i == |gs| - 1 && !gs[i].MatchesSlot(s) then |gs| else i
  }

  function FindForBoot(gs: seq<SlotGroup>, b: BootEntry): (i: nat)
    ensures i <= |gs|
    ensures i < |gs| ==> gs[i].MatchesBoot(b)
    ensures forall j | 0 <= j < i :: !gs[j].MatchesBoot(b)
  {
    if gs == [] then 0
    else
      var i := FindForBoot(gs[..|gs| - 1], b);
      if i == |gs| - 1 && !gs[i].MatchesBoot(b) then |gs| else i
  }

  const NoGroup := SlotGroup(None, None, None)

  function AddSlot(gs: seq<SlotGroup>, s: Slot): Result<seq<SlotGroup>> {
    var i := FindForSlot(gs, s);
    var g :- (if i < |gs| then gs[i] else NoGroup).AttachSlot(s);
    Ok(if i < |gs| then gs[i := g] else gs + [g])
  }

  function AddBoot(gs: seq<SlotGroup>, b: BootEntry): Result<seq<SlotGroup>> {
    var i := FindForBoot(gs, b);
    if i == |gs| then Ok(gs + [SlotGroup(None, None, Some(b))])
    else if gs[i].boot.Some? then Err("invalid state: multiple UKIs for version")
    else Ok(gs[i := gs[i].(boot := Some(b))])
  }

  function GroupSlots(slots: seq<Slot>): Result<seq<SlotGroup>> {
    if slots == [] then Ok([])
    else
      var gs :- GroupSlots(slots[..|slots| - 1]);
      AddSlot(gs, slots[|slots| - 1])
  }

  function AttachBoots(gs: seq<SlotGroup>, boots: seq<BootEntry>): Result<seq<SlotGroup>> {
    if boots == [] then Ok(gs)
    else
      var gs' :- AttachBoots(gs, boots[..|boots| - 1]);
      AddBoot(gs', boots[|boots| - 1])
  }

  function GroupAll(slots: seq<Slot>, boots: seq<BootEntry>): Result<seq<SlotGroup>> {
    var gs :- GroupSlots(slots);
    AttachBoots(gs, boots)
  }

  lemma {:induction false} GroupSlotsFails(slots: seq<Slot>, n: nat)
    requires n <= |slots| && GroupSlots(slots[..n]).Err?
    ensures GroupSlots(slots).Err?
    decreases |slots| - n
  {
    if n < |slots| {
      assert slots[..n + 1][..n] == slots[..n];
      GroupSlotsFails(slots, n + 1);
    } else {
      assert slots[..n] == slots;
    }
  }

  lemma {:induction false} AttachBootsFails(gs: seq<SlotGroup>, boots: seq<BootEntry>, n: nat)
    requires n <= |boots| && AttachBoots(gs, boots[..n]).Err?
    ensures AttachBoots(gs, boots).Err?
    decreases |boots| - n
  {
    if n < |boots| {
      assert boots[..n + 1][..n] == boots[..n];
      AttachBootsFails(gs, boots, n + 1);
    } else {
      assert boots[..n] == boots;
    }
  }

  /** The two grouping loops, updating the group vector in place. */
  method GroupVolumes(slots: seq<Slot>, boots: seq<BootEntry>) returns (r: Result<seq<SlotGroup>>)
    ensures r.Ok? == GroupAll(slots, boots).Ok?
    ensures r.Ok? ==> r == GroupAll(slots, boots)
  {
    var groups: seq<SlotGroup> := [];
    for n := 0 to |slots|
      invariant GroupSlots(slots[..n]) == Ok(groups)
    {
      assert slots[..n + 1][..n] == slots[..n];
      ghost var before := groups;
      var i := FindForSlot(groups, slots[n]);
      if i == |groups| {
        groups := groups + [NoGroup];
      }
      var g := groups[i].AttachSlot(slots[n]);
      if g.Err? {
        GroupSlotsFails(slots, n + 1);
        return Err(g.reason);
      }
      groups := groups[i := g.value];
      assert groups == if i < |before| then before[i := g.value] else before + [g.value];
    }
    assert slots[..|slots|] == slots;
    ghost var grouped := groups;
    for n := 0 to |boots|
      invariant AttachBoots(grouped, boots[..n]) == Ok(groups)
    {
      assert boots[..n + 1][..n] == boots[..n];
      var i := FindForBoot(groups, boots[n]);
      if i < |groups| {
        if groups[i].boot.Some? {
          AttachBootsFails(grouped, boots, n + 1);
          return Err("invalid state: multiple UKIs for version");
        }
        groups := groups[i := groups[i].(boot := Some(boots[n]))];
      } else {
        groups := groups + [SlotGroup(None, None, Some(boots[n]))];
      }
    }
    assert boots[..|boots|] == boots;
    r := Ok(groups);
  }

  // ---------------------------------------------------------------- the slot phase is a partition

  /** No two slots share kind and status. */
  ghost predicate NoClash(slots: seq<Slot>) {
    forall i, j | 0 <= i < j < |slots| :: !(slots[i].kind == slots[j].kind && slots[i].status == slots[j].status)
  }

  predicate Holds(g: SlotGroup, s: Slot) {
    g.root == Some(s) || g.verity == Some(s)
  }

  /** A group made of slots: members of their own kinds, of one status. */
  predicate SlotsOnly(g: SlotGroup, st: Status) {
    && (g.root.Some? || g.verity.Some?)
    && (g.root.Some? ==> g.root.value.kind.Root? && g.root.value.status == st)
    && (g.verity.Some? ==> g.verity.value.kind.Verity? && g.verity.value.status == st)
  }

  function StatusOf(g: SlotGroup): Status
    requires g.root.Some? || g.verity.Some?
  {
    if g.root.Some? then g.root.value.status else g.verity.value.status
  }

  predicate VolumeGroup(g: SlotGroup) {
    (g.root.Some? || g.verity.Some?) && SlotsOnly(g, StatusOf(g))
  }

  /** `gs` partitions `slots` by status: each slot in exactly one group, together iff equal statuses. */
  ghost predicate IsPartition(slots: seq<Slot>, gs: seq<SlotGroup>) {
    && (forall i | 0 <= i < |gs| :: VolumeGroup(gs[i]) && gs[i].boot.None?)
    && (forall i, j | 0 <= i < j < |gs| :: StatusOf(gs[i]) != StatusOf(gs[j]))
    && (forall s | s in slots :: exists i :: 0 <= i < |gs| && Holds(gs[i], s))
    && (forall i, s | 0 <= i < |gs| && Holds(gs[i], s) :: s in slots)
  }

  lemma AddSlotPartition(slots: seq<Slot>, gs: seq<SlotGroup>, s: Slot)
    requires IsPartition(slots, gs)
    ensures AddSlot(gs, s).Ok? <==> !Clashes(slots, s)
    ensures AddSlot(gs, s).Ok? ==> IsPartition(slots + [s], AddSlot(gs, s).value)
  {
    var i := FindForSlot(gs, s);
    if AddSlot(gs, s).Ok? {
      var gs' := AddSlot(gs, s).value;
      forall t | t in slots + [s]
        ensures exists j :: 0 <= j < |gs'| && Holds(gs'[j], t)
      {
        if t == s {
          assert Holds(gs'[i], t);
        } else {
          var j :| 0 <= j < |gs| && Holds(gs[j], t);
          assert Holds(gs'[j], t);
        }
      }
      forall t | t in slots
        ensures !(t.kind == s.kind && t.status == s.status)
      {
        var j :| 0 <= j < |gs| && Holds(gs[j], t);
        assert gs[j].MatchesSlot(t);
      }
    } else {
      var t := if s.kind.Root? then gs[i].root.value else gs[i].verity.value;
      assert Holds(gs[i], t);
    }
  }

  /** Some slot has the kind and status of `s`. */
  ghost predicate Clashes(slots: seq<Slot>, s: Slot) {
    exists t :: t in slots && t.kind == s.kind && t.status == s.status
  }

  lemma NoClashSnoc(slots: seq<Slot>, s: Slot)
    ensures NoClash(slots + [s]) <==> NoClash(slots) && !Clashes(slots, s)
  {
    var all := slots + [s];
    if NoClash(all) {
      forall i, j | 0 <= i < j < |slots|
        ensures !(slots[i].kind == slots[j].kind && slots[i].status == slots[j].status)
      {
        assert all[i] == slots[i] && all[j] == slots[j];
      }
      forall t | t in slots
        ensures !(t.kind == s.kind && t.status == s.status)
      {
        var i :| 0 <= i < |slots| && slots[i] == t;
        assert all[i] == t && all[|slots|] == s;
      }
    } else {
      var i, j :| 0 <= i < j < |all| && all[i].kind == all[j].kind && all[i].status == all[j].status;
      assert all[i] == slots[i] && slots[i] in slots;
    }
  }

  /** The slot phase succeeds iff no two slots share kind and status, and then it partitions the slots. */
  lemma {:induction false} GroupSlotsPartition(slots: seq<Slot>)
    ensures GroupSlots(slots).Ok? <==> NoClash(slots)
    ensures GroupSlots(slots).Ok? ==> IsPartition(slots, GroupSlots(slots).value)
  {
    hide NoClash, IsPartition, Clashes, AddSlot;
    if slots == [] {
      EmptyPartition();
    } else {
      var init, s := slots[..|slots| - 1], slots[|slots| - 1];
      assert slots == init + [s];
      GroupSlotsPartition(init);
      NoClashSnoc(init, s);
      if GroupSlots(init).Ok? {
        AddSlotPartition(init, GroupSlots(init).value, s);
      }
    }
  }

  lemma EmptyPartition()
    ensures NoClash([]) && IsPartition([], [])
  {
  }

  /** Two slots are in one group iff their statuses are equal, and no slot is in two groups. */
  lemma TogetherIffEqualStatus(slots: seq<Slot>, gs: seq<SlotGroup>, s: Slot, t: Slot, i: nat, j: nat)
    requires IsPartition(slots, gs) && i < |gs| && j < |gs| && Holds(gs[i], s) && Holds(gs[j], t)
    ensures i == j <==> s.status == t.status
  {
    assert StatusOf(gs[i]) == s.status && StatusOf(gs[j]) == t.status;
    if i != j {
      var a, b := if i < j then i else j, if i < j then j else i;
      assert StatusOf(gs[a]) != StatusOf(gs[b]);
    }
  }

  lemma PartitionIncluded(slots: seq<Slot>, gs: seq<SlotGroup>, slots': seq<Slot>, gs': seq<SlotGroup>, i: nat)
    requires IsPartition(slots, gs) && IsPartition(slots', gs') && NoClash(slots) && i < |gs|
    requires forall s :: s in slots <==> s in slots'
    ensures exists j :: 0 <= j < |gs'| && gs'[j] == gs[i]
  {
    var g := gs[i];
    var s := if g.root.Some? then g.root.value else g.verity.value;
    assert Holds(g, s) && s in slots;
    var j :| 0 <= j < |gs'| && Holds(gs'[j], s);
    var g' := gs'[j];
    SameMembers(slots, gs, slots', gs', i, j, s);
    SameMembers(slots', gs', slots, gs, j, i, s);
    assert g' == g;
  }

  lemma SameMembers(slots: seq<Slot>, gs: seq<SlotGroup>, slots': seq<Slot>, gs': seq<SlotGroup>, i: nat, j: nat,
                    s: Slot)
    requires IsPartition(slots, gs) && IsPartition(slots', gs') && i < |gs| && j < |gs'|
    requires forall t :: t in slots ==> t in slots'
    requires Holds(gs[i], s) && Holds(gs'[j], s)
    ensures gs[i].root.Some? ==> gs'[j].root == gs[i].root
    ensures gs[i].verity.Some? ==> gs'[j].verity == gs[i].verity
  {
    if gs[i].root.Some? {
      MemberMoves(slots, gs, slots', gs', i, j, s, gs[i].root.value);
    }
    if gs[i].verity.Some? {
      MemberMoves(slots, gs, slots', gs', i, j, s, gs[i].verity.value);
    }
  }

  lemma MemberMoves(slots: seq<Slot>, gs: seq<SlotGroup>, slots': seq<Slot>, gs': seq<SlotGroup>, i: nat, j: nat,
                    s: Slot, t: Slot)
    requires IsPartition(slots, gs) && IsPartition(slots', gs') && i < |gs| && j < |gs'|
    requires forall u :: u in slots ==> u in slots'
    requires Holds(gs[i], s) && Holds(gs'[j], s) && Holds(gs[i], t)
    ensures Holds(gs'[j], t)
  {
    assert t in slots;
    var k :| 0 <= k < |gs'| && Holds(gs'[k], t);
    TogetherIffEqualStatus(slots, gs, s, t, i, i);
    TogetherIffEqualStatus(slots', gs', s, t, j, k);
  }

  lemma CountTwo(slots: seq<Slot>, i: nat, j: nat)
    requires i < j < |slots| && slots[i] == slots[j]
    ensures multiset(slots)[slots[i]] >= 2
  {
    assert slots == slots[..j] + [slots[j]] + slots[j + 1..];
    assert slots[..j][i] == slots[i];
    assert slots[i] in multiset(slots[..j]);
  }

  lemma TwoOf(slots: seq<Slot>, s: Slot) returns (i: nat, j: nat)
    requires multiset(slots)[s] >= 2
    ensures i < j < |slots| && slots[i] == s && slots[j] == s
  {
    assert s in multiset(slots);
    j :| 0 <= j < |slots| && slots[j] == s;
    assert slots == slots[..j] + [s] + slots[j + 1..];
    if s in slots[..j] {
      i :| 0 <= i < j && slots[..j][i] == s;
    } else {
      assert s !in multiset(slots[..j]);
      assert s in multiset(slots[j + 1..]);
      i := j;
      var k :| 0 <= k < |slots[i + 1..]| && slots[i + 1..][k] == s;
      j := i + 1 + k;
    }
  }

  lemma ClashMoves(slots: seq<Slot>, slots': seq<Slot>)
    requires multiset(slots) == multiset(slots') && !NoClash(slots)
    ensures !NoClash(slots')
  {
    var i, j :| 0 <= i < j < |slots| && slots[i].kind == slots[j].kind && slots[i].status == slots[j].status;
    var a, b := slots[i], slots[j];
    if a == b {
      CountTwo(slots, i, j);
      var i', j' := TwoOf(slots', a);
      assert slots'[i'].kind == slots'[j'].kind && slots'[i'].status == slots'[j'].status;
    } else {
      assert a in multiset(slots) && b in multiset(slots);
      var i' :| 0 <= i' < |slots'| && slots'[i'] == a;
      var j' :| 0 <= j' < |slots'| && slots'[j'] == b;
      var lo, hi := if i' < j' then i' else j', if i' < j' then j' else i';
      assert slots'[lo].kind == slots'[hi].kind && slots'[lo].status == slots'[hi].status;
    }
  }

  /** Grouping does not depend on the order of the volumes: every reordering fails alike or gives the same groups. */
  lemma GroupingOrderFree(slots: seq<Slot>, slots': seq<Slot>)
    requires multiset(slots) == multiset(slots')
    ensures GroupSlots(slots).Ok? <==> GroupSlots(slots').Ok?
    ensures GroupSlots(slots).Ok? ==> multiset(GroupSlots(slots).value) == multiset(GroupSlots(slots').value)
  {
    hide NoClash, IsPartition, GroupSlots;
    GroupSlotsPartition(slots);
    GroupSlotsPartition(slots');
    if !NoClash(slots) {
      ClashMoves(slots, slots');
    }
    if !NoClash(slots') {
      ClashMoves(slots', slots);
    }
    if GroupSlots(slots).Ok? {
      SameGroups(slots, GroupSlots(slots).value, slots', GroupSlots(slots').value);
    }
  }

  lemma SameGroups(slots: seq<Slot>, gs: seq<SlotGroup>, slots': seq<Slot>, gs': seq<SlotGroup>)
    requires multiset(slots) == multiset(slots') && IsPartition(slots, gs) && IsPartition(slots', gs')
    requires NoClash(slots) && NoClash(slots')
    ensures multiset(gs) == multiset(gs')
  {
    hide NoClash, IsPartition;
    forall s
      ensures s in slots <==> s in slots'
    {
      assert s in slots <==> s in multiset(slots);
      assert s in slots' <==> s in multiset(slots');
    }
    forall g
      ensures multiset(gs)[g] == multiset(gs')[g]
    {
      AtMostOnce(slots, gs, g);
      AtMostOnce(slots', gs', g);
      if g in gs {
        var i :| 0 <= i < |gs| && gs[i] == g;
        PartitionIncluded(slots, gs, slots', gs', i);
      }
      if g in gs' {
        var i :| 0 <= i < |gs'| && gs'[i] == g;
        PartitionIncluded(slots', gs', slots, gs, i);
      }
    }
  }

  lemma AtMostOnce(slots: seq<Slot>, gs: seq<SlotGroup>, g: SlotGroup)
    requires IsPartition(slots, gs)
    ensures multiset(gs)[g] == if g in gs then 1 else 0
  {
    if g in gs {
      var i :| 0 <= i < |gs| && gs[i] == g;
      assert gs == gs[..i] + [g] + gs[i + 1..];
      assert forall j | 0 <= j < i :: gs[j] != g;
      assert forall j | i < j < |gs| :: gs[j] != g;
      assert g !in gs[..i] && g !in gs[i + 1..];
      assert multiset(gs) == multiset(gs[..i]) + multiset{g} + multiset(gs[i + 1..]);
    } else {
      assert g !in multiset(gs);
    }
  }
}
