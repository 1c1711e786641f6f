/** Half a pair of empty volumes stays half a pair, whatever a machine goes through. */
module Halves {
  import opened Wrappers
  import opened Slots
  import opened Uki
  import opened Groups
  import opened Runtime
  import opened Plan
  import opened Disk
  import opened Inventory
  import opened Install
  import opened Retry
  import opened Remove
  import opened Backing
  import opened Runs
  import opened Recovery

  // ---------------------------------------------------------------- plans that leave a name alone

  lemma AvoidingStep(src: Sources, d: Disk, c: Pipeline, d': Disk, n: string)
    requires Avoids(c, n) && (Done(src, d, c, d') || Interrupted(src, d, c, d'))
    ensures n in d.lvs <==> n in d'.lvs
  {
  }

  lemma AvoidingStop(src: Sources, plan: seq<Pipeline>, ds: seq<Disk>, x: Disk, n: string)
    requires StopsIn(src, plan, ds, x) && forall c | c in plan :: Avoids(c, n)
    ensures n in ds[0].lvs <==> n in x.lvs
  {
    hide Done, Interrupted, Avoids;
    assert forall k | 0 <= k < |ds| - 1 :: plan[k] in plan;
    AvoidingTrace(src, plan, ds, n, |ds| - 1);
    if x != ds[|ds| - 1] {
      assert plan[|ds| - 1] in plan;
      AvoidingStep(src, ds[|ds| - 1], plan[|ds| - 1], x, n);
    }
  }

  /** The names of both volumes of the status are left alone. */
  ghost predicate SparesStatus(plan: seq<Pipeline>, st: Status) {
    forall c | c in plan :: Avoids(c, SlotName(Root, st)) && Avoids(c, SlotName(Verity, st))
  }

  lemma SparedLone(src: Sources, plan: seq<Pipeline>, ds: seq<Disk>, x: Disk, k: Kind, st: Status)
    requires StopsIn(src, plan, ds, x) && SparesStatus(plan, st) && Lone(ds[0], k, st)
    ensures Lone(x, k, st)
  {
    hide Done, Interrupted, Avoids, SlotName;
    AvoidingStop(src, plan, ds, x, SlotName(Root, st));
    AvoidingStop(src, plan, ds, x, SlotName(Verity, st));
  }

  lemma NamesDiffer(k: Kind, a: Status, k': Kind, b: Status)
    requires Printable(a) && Printable(b) && a != b
    ensures SlotName(k, a) != SlotName(k', b)
  {
    hide DecodeStatus, SlotName;
    PrintThenDecode(k, a);
    PrintThenDecode(k', b);
  }

  // ---------------------------------------------------------------- installs

  /** An install takes a complete pair, or makes one under an identifier that is not in use. */
  lemma PreparesOther(d: Disk, j: Job, pre: seq<Pipeline>, gs: seq<SlotGroup>, k: Kind, st: Status)
    requires Prepares(d, j, pre, gs) && Lone(d, k, st)
    ensures j.st != st
  {
    hide DecodeStatus, SlotName;
    if r, v :| GrowsKnown(d, j, pre, gs, r, v) {
      DecodeThenPrint(r.volume.lvName);
      DecodeThenPrint(v.volume.lvName);
    }
  }

  lemma CommandSpares(d: Disk, j: Job, pre: seq<Pipeline>, gs: seq<SlotGroup>, tail: seq<Pipeline>, st: Status, k: Kind,
                      c: Pipeline)
    requires j.Valid() && Prepares(d, j, pre, gs) && Migrates(tail) && st.Empty? && Printable(st) && j.st != st
    requires c in pre + (j.Core() + tail)
    ensures Avoids(c, SlotName(k, st))
  {
    hide DecodeStatus, SlotName, UkiName, ParseUki;
    var t := Used(j.m.ToVersion());
    NamesDiffer(Root, j.st, k, st);
    NamesDiffer(Verity, j.st, k, st);
    NamesDiffer(Root, t, k, st);
    NamesDiffer(Verity, t, k, st);
    if c in pre {
      if r, v :| GrowsKnown(d, j, pre, gs, r, v) {
        GrowAvoids(d, j, pre, r, v, SlotName(k, st));
      } else {
        var r, v :| Creates(d, j, pre, r, v);
        CreateAvoids(pre, j.vg, j.From(Root), r, j.From(Verity), v, SlotName(k, st));
      }
    } else {
      assert c in j.Core() || c in tail;
    }
  }

  lemma InstallSpares(d: Disk, kernel: Kernel, rt: Runtime, m: Manifest, source: string, k: Kind, st: Status)
    requires Sees(d, kernel, rt) && WellFormed(m) && InstallPlan(rt, m, source).Ok? && st.Empty? && Lone(d, k, st)
    ensures SparesStatus(InstallPlan(rt, m, source).value, st)
  {
    hide DecodeStatus, SlotName, ParseUki, UkiName, InstallPlan, SelectUpdateSlot, Avoids, Prepares, Sees;
    if SelectUpdateSlot(rt, m) == Ok(AlreadyInstalled) {
      NoPlan(rt, m, source);
    } else {
      var j, pre, tail := SelectedPlanShape(d, kernel, rt, m, source);
      PreparesOther(d, j, pre, rt.slotgroups, k, st);
      forall c | c in InstallPlan(rt, m, source).value
        ensures Avoids(c, SlotName(Root, st)) && Avoids(c, SlotName(Verity, st))
      {
        CommandSpares(d, j, pre, rt.slotgroups, tail, st, Root, c);
        CommandSpares(d, j, pre, rt.slotgroups, tail, st, Verity, c);
      }
    }
  }

  // ---------------------------------------------------------------- removals

  lemma RenamesSpare(d: Disk, gs: seq<SlotGroup>, r: Removal, k: Kind, st: Status, k': Kind, c: Pipeline)
    requires Removes(d, gs, r) && st.Empty? && Lone(d, k, st) && c in Renames(r, d.vg)
    ensures Avoids(c, SlotName(k', st))
  {
    hide DecodeStatus, SlotName, OnlyGroup;
    var of := if c in RenameOne(r, d.vg, Root) then Root else Verity;
    assert c == Lvrename(d.vg, r.Old(of), r.New(of)) && HasLv(d, of, Used(r.v));
    NamesDiffer(of, Used(r.v), k', st);
    NamesDiffer(of, Empty(Known(r.id)), k', st);
  }

  lemma RemoveSpares(d: Disk, kernel: Kernel, rt: Runtime, version: Version, k: Kind, st: Status)
    requires Sees(d, kernel, rt) && RemovePlan(rt, version).Ok? && st.Empty? && Lone(d, k, st)
    ensures SparesStatus(RemovePlan(rt, version).value, st)
  {
    hide RemovePlan, Unlinks, Renames, Removes, SlotName, DecodeStatus, Sees;
    var r := RemoveShape(d, kernel, rt, version);
    UnlinksAll(rt, r.g);
    forall c | c in RemovePlan(rt, version).value
      ensures Avoids(c, SlotName(Root, st)) && Avoids(c, SlotName(Verity, st))
    {
      if c in Renames(r, d.vg) {
        RenamesSpare(d, rt.slotgroups, r, k, st, Root, c);
        RenamesSpare(d, rt.slotgroups, r, k, st, Verity, c);
      } else {
        assert c in Unlinks(rt, r.g);
      }
    }
  }

  // ---------------------------------------------------------------- every step, every run

  lemma CycleLone(d: Disk, d': Disk, k: Kind, st: Status)
    requires Cycled(d, d') && Lone(d, k, st)
    ensures Lone(d', k, st)
  {
    hide ParseUki, SlotName;
    var x :| PowerLoss(d, x) && Recounted(x, d');
    assert forall n :: n in x.lvs.Keys <==> n in d.lvs.Keys;
  }

  lemma StepLone(m: Machine, e: Event, m': Machine, k: Kind, st: Status)
    requires Step(m, e, m') && st.Empty? && Lone(m.disk, k, st)
    ensures Lone(m'.disk, k, st)
  {
    hide InstallPlan, RemovePlan, StopsIn, Cycled, Sees, Lone, SparesStatus, Starts;
    match e
    case Installs(src, rt, manifest, source, ds) =>
      InstallSpares(m.disk, m.kernel, rt, manifest, source, k, st);
      SparedLone(src, InstallPlan(rt, manifest, source).value, ds, m'.disk, k, st);
    case Uninstalls(src, rt, version, ds) =>
      RemoveSpares(m.disk, m.kernel, rt, version, k, st);
      SparedLone(src, RemovePlan(rt, version).value, ds, m'.disk, k, st);
    case PowerCycle =>
      CycleLone(m.disk, m'.disk, k, st);
  }

  /** Half a pair stays half a pair in every state of every run: never selected, and its name never given again. */
  lemma {:induction false} RunLone(ms: seq<Machine>, es: seq<Event>, i: nat, k: Kind, st: Status)
    requires Run(ms, es) && i < |ms| && st.Empty? && Lone(ms[0].disk, k, st)
    ensures Lone(ms[i].disk, k, st)
  {
    hide Step, Lone;
    if i > 0 {
      RunLone(ms, es, i - 1, k, st);
      StepLone(ms[i - 1], es[i - 1], ms[i], k, st);
    }
  }

  /**
   * A removal after the first rename parts the pair for good. In every later state of every run the root volume has
   * its new identifier and the verity volume its old one, and no scan finds either in a complete pair.
   */
  lemma HalvesPartForGood(src: Sources, d: Disk, kernel: Kernel, rt: Runtime, t: Version, ds: seq<Disk>, st: Status,
                          ms: seq<Machine>, es: seq<Event>, i: nat)
    returns (r: Removal)
    requires Sees(d, kernel, rt) && RemovePlan(rt, t).Ok? && d.esp.Keys !! d.type1
    requires FullTrace(src, RemovePlan(rt, t).value, d, ds)
    requires HalfWay(d, st, t) && st.Empty? && FindSlotGroup(rt, t).value.GroupVersion() == Some(t)
    requires Run(ms, es) && i < |ms| && ms[0].disk == ds[|ds| - 1]
    ensures FindSlotGroup(rt, t) == Ok(r.g) && FreeIdentifier(rt.slotgroups) == Ok(r.id) && st != Empty(Known(r.id))
    ensures Lone(ms[i].disk, Root, Empty(Known(r.id))) && Lone(ms[i].disk, Verity, st)
    ensures forall rt' | Sees(ms[i].disk, ms[i].kernel, rt') :: Unpaired(rt'.slotgroups, st, r.id)
  {
    hide RemovePlan, FindSlotGroup, Sees, FreeIdentifier, Scan, Listing, Step, Unpaired, HasLv, HalfWay, Done;
    r := HalvesPart(src, d, kernel, rt, t, ds, st);
    RunLone(ms, es, i, Root, Empty(Known(r.id)));
    RunLone(ms, es, i, Verity, st);
    forall rt' | Sees(ms[i].disk, ms[i].kernel, rt')
      ensures Unpaired(rt'.slotgroups, st, r.id)
    {
      SeesFacts(ms[i].disk, ms[i].kernel, rt');
      UnpairedIn(ms[i].disk, rt'.slotgroups, st, r.id);
    }
  }
}
