/**
 * The admin registry: entries by name, changed in place, every change told on a broadcast channel
 * (`admin/registry.rs`).
 */
module Registry {
  import opened Wrappers
  import opened Naming

  datatype VmType = HostVM | AdmVM | SysVM | AppVM
  datatype ServiceType = Mgr | Svc | AppService | VMService
  datatype UnitType = UnitType(vm: VmType, service: ServiceType)

  datatype UnitStatus = UnitStatus(name: string, description: string, loadState: string, activeState: string,
                                   subState: string, path: string, freezerState: string)
  {
    predicate IsPaused() {
      freezerState == "frozen"
    }

    predicate IsRunning() {
      !IsPaused() && activeState == "active" && loadState == "loaded" && subState == "running"
    }
  }

  datatype Placement =
    | Endpoint(address: string, tlsName: string, endpointVm: string)
    | Managed(vm: string, by_: string)
    | OnHost

  datatype Entry = Entry(name: string, unitType: UnitType, status: UnitStatus, placement: Placement, watch: bool) {
    function AgentName(): Option<string> {
      match placement
      case Endpoint(_, _, _) => Some(name)
      case Managed(_, by_) => Some(by_)
      case OnHost => None
    }

    function VmName(): Option<string> {
      if unitType.service == VMService then ParseVmName(name)
      else
        match placement
        case Endpoint(_, _, vm) => Some(vm)
        case Managed(vm, _) => ParseVmName(vm)
        case OnHost => None
    }
  }

  datatype VMStatus = Running | PoweredOff | Paused

  /** What a client is told of an entry. The trust level is a constant and left out. */
  datatype QueryResult = QueryResult(name: string, description: string, status: VMStatus, vmType: VmType,
                                     serviceType: ServiceType, vmName: Option<string>, agentName: Option<string>)

  function ToQuery(e: Entry): QueryResult {
    QueryResult(e.name, e.status.description,
                if e.status.IsRunning() then Running else if e.status.IsPaused() then Paused else PoweredOff,
                e.unitType.vm, e.unitType.service, e.VmName(), e.AgentName())
  }

  /** The virtual machine an entry tells of. */
  predicate TellsVm(e: Entry, vm: string) {
    if e.unitType.service == VMService then e.name == "microvm@" + vm + ".service"
    else
      match e.placement
      case Endpoint(_, _, own) => own == vm
      case Managed(service, _) => service == "microvm@" + vm + ".service"
      case OnHost => false
  }

  /** What a client is told of a unit, field by field. */
  lemma ToQueryExact(e: Entry, vm: string, agent: string)
    ensures var q, s := ToQuery(e), e.status;
            && q.name == e.name && q.description == s.description
            && q.vmType == e.unitType.vm && q.serviceType == e.unitType.service
            && (q.status == Running <==>
                  && s.activeState == "active" && s.loadState == "loaded" && s.subState == "running"
                  && s.freezerState != "frozen")
            && (q.status == Paused <==> s.freezerState == "frozen")
            && (q.vmName == Some(vm) <==> TellsVm(e, vm))
            && (q.agentName == Some(agent) <==>
                  || (e.placement.Endpoint? && agent == e.name) || (e.placement.Managed? && agent == e.placement.by_))
  {
    hide ParseVmName;
    ParseVmNameExact(e.name, vm);
    if e.placement.Managed? {
      ParseVmNameExact(e.placement.vm, vm);
    }
  }

  datatype Event =
    | UnitStatusChanged(unit: QueryResult)
    | UnitRegistered(unit: QueryResult)
    | UnitShutdown(unit: QueryResult)

  type Entries = map<string, Entry>
  type View = map<string, QueryResult>

  function ViewOf(m: Entries): View {
    map k | k in m :: ToQuery(m[k])
  }

  ghost predicate KeyedByName(m: Entries) {
    forall k | k in m :: m[k].name == k
  }

  // ---------------------------------------------------------------- replaying events

  /** What a watching client makes of an event. */
  function ApplyEvent(v: View, e: Event): View {
    match e
    case UnitShutdown(u) => v - {u.name}
    case _ => v[e.unit.name := e.unit]
  }

  /** The view a client starts with. */
  function Listed(list: seq<QueryResult>): View {
    if list == [] then map[] else Listed(list[..|list| - 1])[list[|list| - 1].name := list[|list| - 1]]
  }

  function Replay(v: View, es: seq<Event>): View {
    if es == [] then v else ApplyEvent(Replay(v, es[..|es| - 1]), es[|es| - 1])
  }

  lemma {:induction false} ReplayConcat(v: View, a: seq<Event>, b: seq<Event>)
    ensures Replay(v, a + b) == Replay(Replay(v, a), b)
  {
    if b == [] {
      assert a + b == a;
    } else {
      assert (a + b)[..|a + b| - 1] == a + b[..|b| - 1];
      ReplayConcat(v, a, b[..|b| - 1]);
    }
  }

  // ---------------------------------------------------------------- changes and their events

  function Registered(m: Entries, e: Entry): Entries {
    m[e.name := e]
  }

  /** A replaced entry is shut down before the new one is announced. */
  function RegisterEvents(m: Entries, e: Entry): seq<Event> {
    (if e.name in m then [UnitShutdown(ToQuery(m[e.name]))] else []) + [UnitRegistered(ToQuery(e))]
  }

  /** The entries that go with `name`: those it is the agent of, and those of its virtual machine. */
  predicate GoesWith(e: Entry, name: string) {
    e.AgentName() == Some(name) || (e.VmName().Some? && e.VmName() == ParseVmName(name))
  }

  function Cascade(m: Entries, name: string): set<string> {
    set k | k in m && k != name && GoesWith(m[k], name)
  }

  function Deregistered(m: Entries, name: string): Entries {
    m - (Cascade(m, name) + {name})
  }

  function Shutdowns(m: Entries, order: seq<string>): seq<Event>
    requires forall k | k in order :: k in m
  {
    seq(|order|, i requires 0 <= i < |order| => UnitShutdown(ToQuery(m[order[i]])))
  }

  /** `order` names everything that goes, once each, `name` last; the rest in whatever order the hash map has. */
  ghost predicate RemovalOrder(m: Entries, name: string, order: seq<string>) {
    && order != [] && order[|order| - 1] == name
    && (forall k :: k in order <==> k in Cascade(m, name) + {name})
    && (forall i, j | 0 <= i < j < |order| :: order[i] != order[j])
  }

  function StateSet(m: Entries, name: string, status: UnitStatus): Entries
    requires name in m
  {
    m[name := m[name].(status := status)]
  }

  // ---------------------------------------------------------------- each change is what its events say

  lemma RegisterReplays(m: Entries, e: Entry)
    requires KeyedByName(m)
    ensures KeyedByName(Registered(m, e)) && Replay(ViewOf(m), RegisterEvents(m, e)) == ViewOf(Registered(m, e))
  {
    var reg := UnitRegistered(ToQuery(e));
    if e.name in m {
      var down := UnitShutdown(ToQuery(m[e.name]));
      assert RegisterEvents(m, e) == [down, reg];
      assert Replay(ViewOf(m), [down, reg][..1]) == ApplyEvent(ViewOf(m), down) by {
        assert [down, reg][..1] == [down] && [down][..0] == [];
      }
    } else {
      assert RegisterEvents(m, e) == [reg] && [reg][..0] == [];
    }
  }

  lemma SetStateReplays(m: Entries, name: string, status: UnitStatus)
    requires KeyedByName(m) && name in m
    ensures var m' := StateSet(m, name, status);
            KeyedByName(m') && Replay(ViewOf(m), [UnitStatusChanged(ToQuery(m'[name]))]) == ViewOf(m')
  {
    var e := UnitStatusChanged(ToQuery(StateSet(m, name, status)[name]));
    assert [e][..0] == [];
  }

  function SetOf(order: seq<string>): set<string> {
    set k | k in order
  }

  lemma QueryName(e: Entry)
    ensures ToQuery(e).name == e.name
  {
  }

  lemma {:induction false} ShutdownsReplay(m: Entries, order: seq<string>)
    requires KeyedByName(m) && forall k | k in order :: k in m
    ensures Replay(ViewOf(m), Shutdowns(m, order)) == ViewOf(m - SetOf(order))
  {
    hide ToQuery;
    if order == [] {
      assert m - SetOf(order) == m;
    } else {
      var init, k := order[..|order| - 1], order[|order| - 1];
      ShutdownsReplay(m, init);
      assert Shutdowns(m, order)[..|order| - 1] == Shutdowns(m, init);
      assert k in order;
      QueryName(m[k]);
      assert SetOf(order) == SetOf(init) + {k};
      assert ViewOf(m - SetOf(order)) == ViewOf(m - SetOf(init)) - {k};
    }
  }

  /** A deregistration tells of exactly what it removes, whatever the order. */
  lemma DeregisterReplays(m: Entries, name: string, order: seq<string>)
    requires KeyedByName(m) && name in m && RemovalOrder(m, name, order)
    ensures forall k | k in order :: k in m
    ensures KeyedByName(Deregistered(m, name))
    ensures Replay(ViewOf(m), Shutdowns(m, order)) == ViewOf(Deregistered(m, name))
  {
    assert SetOf(order) == Cascade(m, name) + {name};
    ShutdownsReplay(m, order);
  }

  /** Half-way through a cascade: `order` is gone and told of, `left` is to go. */
  ghost predicate Removing(m: Entries, name: string, left: set<string>, order: seq<string>) {
    && left !! SetOf(order) && left + SetOf(order) == Cascade(m, name)
    && (forall i, j | 0 <= i < j < |order| :: order[i] != order[j])
    && (forall k | k in order :: k in m)
  }

  function Rest(m: Entries, name: string, order: seq<string>): Entries {
    m - ({name} + SetOf(order))
  }

  lemma CascadeStart(m: Entries, name: string, left: set<string>)
    requires left == set k | k in m - {name} && GoesWith((m - {name})[k], name)
    ensures Removing(m, name, left, []) && Shutdowns(m, []) == [] && Rest(m, name, []) == m - {name}
  {
  }

  lemma RemovingStep(m: Entries, name: string, left: set<string>, order: seq<string>, k: string)
    requires Removing(m, name, left + {k}, order) && k !in left
    ensures Removing(m, name, left, order + [k]) && forall x | x in order + [k] :: x in m
    ensures k in Rest(m, name, order) && Rest(m, name, order)[k] == m[k]
    ensures Rest(m, name, order + [k]) == Rest(m, name, order) - {k}
    ensures Shutdowns(m, order + [k]) == Shutdowns(m, order) + [UnitShutdown(ToQuery(m[k]))]
  {
    assert k in Cascade(m, name);
    assert SetOf(order + [k]) == SetOf(order) + {k};
  }

  lemma RemovingDone(m: Entries, name: string, order: seq<string>)
    requires name in m && Removing(m, name, {}, order)
    ensures RemovalOrder(m, name, order + [name]) && (forall k | k in order + [name] :: k in m)
    ensures Shutdowns(m, order + [name]) == Shutdowns(m, order) + [UnitShutdown(ToQuery(m[name]))]
    ensures Rest(m, name, order) == Deregistered(m, name)
  {
    assert forall k :: k in order <==> k in SetOf(order);
    assert name !in Cascade(m, name);
  }

  // ---------------------------------------------------------------- managers

  /** Every managed entry has its manager, an endpoint entry that agrees with it on the virtual machine. */
  ghost predicate Managers(m: Entries) {
    forall k | k in m && m[k].placement.Managed? ::
      var b := m[k].placement.by_;
      b in m && m[b].placement.Endpoint? && m[b].VmName() == m[k].VmName()
  }

  /** What a deregistration makes of the registry; an unknown name has no effect. */
  function Left(m: Entries, name: string): Entries {
    if name in m then Deregistered(m, name) else m
  }

  /** Deregistering anything leaves no managed entry behind without its manager. */
  lemma CascadeKeepsManagers(m: Entries, name: string)
    requires KeyedByName(m) && Managers(m)
    ensures Managers(Left(m, name))
  {
    var m' := Left(m, name);
    forall k | k in m' && m'[k].placement.Managed?
      ensures m'[k].placement.by_ in m'
    {
      var b := m[k].placement.by_;
      assert b in m && m[b].AgentName() == Some(b);
      assert name in m ==> !GoesWith(m[k], name);
      assert GoesWith(m[b], name) ==> b == name || GoesWith(m[k], name);
    }
  }

  /**
   * Without that agreement, exactly when an entry is left behind by its manager: the name is registered, it
   * is that of the manager's virtual machine, and the entry claims another one.
   */
  lemma ManagerLostIff(m: Entries, name: string, k: string)
    requires KeyedByName(m) && k in m && m[k].placement.Managed?
    requires var b := m[k].placement.by_; b in m && m[b].placement.Endpoint?
    ensures var m', b := Left(m, name), m[k].placement.by_;
            k in m' && b !in m' <==>
            && name in m && k != name && b != name
            && ParseVmName(name).Some? && m[b].VmName() == ParseVmName(name) && m[k].VmName() != ParseVmName(name)
  {
    var b := m[k].placement.by_;
    assert m[b].AgentName() == Some(b) && m[k].AgentName() == Some(b);
  }

  /** The entry `start_app` registers for a new instance. */
  function AppEntry(remoteName: string, status: UnitStatus, vm: VmName): Entry {
    Entry(remoteName, UnitType(AppVM, AppService), status, Managed(vm.VmService(), vm.AgentService()), true)
  }

  /**
   * An application goes with its agent and with its virtual machine, and agrees with an agent that names
   * that machine.
   */
  lemma AppEntryGoesWith(remoteName: string, status: UnitStatus, vm: VmName, name: string)
    ensures GoesWith(AppEntry(remoteName, status, vm), name) <==> name == vm.AgentService() || name == vm.VmService()
  {
    ParseVmNameExact(vm.VmService(), vm.Text());
    ParseVmNameExact(name, vm.Text());
  }

  /** The entry of a unit that registers itself; `parent` is the virtual machine it says it runs in. */
  function RequestEntry(name: string, unitType: UnitType, status: UnitStatus, address: string, tlsName: string,
                        parent: string): Entry {
    var vm := match ParseVmName(parent) case Some(vm) => vm case None => "";
    var watch := unitType.service == Mgr || (unitType.vm == AppVM && unitType.service != Svc);
    Entry(name, unitType, status, Endpoint(address, tlsName, vm), watch)
  }

  /** What a unit that registers itself is entered as. */
  lemma RequestEntryExact(name: string, unitType: UnitType, status: UnitStatus, address: string, tlsName: string,
                          parent: string, vm: string)
    ensures var e := RequestEntry(name, unitType, status, address, tlsName, parent);
            && e.name == name && e.unitType == unitType && e.status == status
            && e.placement.Endpoint? && e.placement.address == address && e.placement.tlsName == tlsName
            && (parent == "microvm@" + vm + ".service" ==> e.placement.endpointVm == vm)
            && (e.placement.endpointVm == vm != "" ==> parent == "microvm@" + vm + ".service")
            && (e.watch <==> unitType.service == Mgr || (unitType.vm == AppVM && unitType.service != Svc))
  {
    hide ParseVmName;
    ParseVmNameExact(parent, vm);
  }

  /** What a started application is entered as: managed by the agent of its machine, and watched. */
  lemma AppEntryExact(remoteName: string, status: UnitStatus, app: string)
    ensures var e := AppEntry(remoteName, status, App(app));
            && e.name == remoteName && e.status == status && e.watch && e.unitType == UnitType(AppVM, AppService)
            && e.placement == Managed("microvm@" + app + "-vm.service", "givc-" + app + "-vm.service")
  {
    ServiceNames(app);
  }

  /** An agent of machine `a` that says it runs in `b`, an application it manages, and machine `b`. */
  function Stray(a: VmName, b: VmName, app: string, status: UnitStatus): Entries {
    var agent := RequestEntry(a.AgentService(), UnitType(AppVM, Mgr), status, "", "", b.VmService());
    var machine := RequestEntry(b.VmService(), UnitType(AppVM, VMService), status, "", "", "");
    map[agent.name := agent, app := AppEntry(app, status, a), machine.name := machine]
  }

  /** When machine `b` goes, it takes the agent along and leaves the application behind. */
  lemma StrayAgentLost(a: VmName, b: VmName, app: string, status: UnitStatus)
    requires a.Text() != b.Text() && app != a.AgentService() && app != b.VmService()
    ensures var m := Stray(a, b, app, status);
            && KeyedByName(m) && b.VmService() in m && m[app].placement.by_ == a.AgentService()
            && app in Left(m, b.VmService()) && a.AgentService() !in Left(m, b.VmService())
  {
    hide ParseVmName;
    var m := Stray(a, b, app, status);
    assert a.AgentService()[0] == 'g' && b.VmService()[0] == 'm';
    ParseVmNameExact(b.VmService(), b.Text());
    ParseVmNameExact(a.VmService(), a.Text());
    ManagerLostIff(m, b.VmService(), app);
  }

  // ---------------------------------------------------------------- instance names

  function Instances(base: string, n: nat): set<string> {
    set i | 0 <= i < n :: InstanceName(base, i)
  }

  lemma {:induction false} InstancesCard(base: string, n: nat)
    ensures |Instances(base, n)| == n
  {
    hide InstanceName;
    if n == 0 {
      assert Instances(base, 0) == {};
    } else {
      InstancesCard(base, n - 1);
      assert Instances(base, n) == Instances(base, n - 1) + {InstanceName(base, n - 1)};
      forall i | 0 <= i < n - 1
        ensures InstanceName(base, i) != InstanceName(base, n - 1)
      {
        if InstanceName(base, i) == InstanceName(base, n - 1) {
          InstanceNameInjective(base, i, n - 1);
        }
      }
      assert InstanceName(base, n - 1) !in Instances(base, n - 1);
    }
  }

  /** Taken names are registered names, so there are no more of them than entries. */
  lemma TakenBound(m: Entries, base: string, n: nat)
    requires forall i | 0 <= i < n :: InstanceName(base, i) in m
    ensures n <= |m|
  {
    InstancesCard(base, n);
    assert Instances(base, n) <= m.Keys;
    SubsetCard(Instances(base, n), m.Keys);
  }

  // ---------------------------------------------------------------- the registry

  lemma ListStart(m: Entries)
    ensures Listed([]) == ViewOf(m - m.Keys)
  {
  }

  lemma ListStep(m: Entries, left: set<string>, k: string, contents: seq<QueryResult>)
    requires KeyedByName(m) && k in left && k in m && Listed(contents) == ViewOf(m - left)
    ensures Listed(contents + [ToQuery(m[k])]) == ViewOf(m - (left - {k}))
  {
    hide ToQuery;
    var q := ToQuery(m[k]);
    QueryName(m[k]);
    assert (contents + [q])[..|contents|] == contents;
    assert ViewOf(m - (left - {k})) == ViewOf(m - left)[k := q];
  }

  class Registry {
    var entries: Entries
    /** Everything handed to the broadcast channel. */
    var sent: seq<Event>

    ghost predicate Valid()
      reads this
    {
      KeyedByName(entries) && Replay(map[], sent) == ViewOf(entries)
    }

    constructor ()
      ensures Valid() && entries == map[] && sent == []
    {
      entries, sent := map[], [];
    }

    method Register(entry: Entry)
      requires Valid()
      modifies this
      ensures Valid() && entries == Registered(old(entries), entry)
      ensures sent == old(sent) + RegisterEvents(old(entries), entry)
    {
      ghost var es := RegisterEvents(entries, entry);
      var event := UnitRegistered(ToQuery(entry));
      var replaced := if entry.name in entries then Some(entries[entry.name]) else None;
      entries := entries[entry.name := entry];
      if replaced.Some? {
        SendEvent(UnitShutdown(ToQuery(replaced.value)));
      }
      SendEvent(event);
      RegisterReplays(old(entries), entry);
      assert sent == old(sent) + es;
      ReplayConcat(map[], old(sent), es);
    }

    method Deregister(name: string) returns (r: Result<()>, ghost order: seq<string>)
      requires Valid()
      modifies this
      ensures Valid() && (r.Ok? <==> name in old(entries))
      ensures r.Err? ==> entries == old(entries) && sent == old(sent)
      ensures r.Ok? ==> entries == Deregistered(old(entries), name) && RemovalOrder(old(entries), name, order)
      ensures r.Ok? ==> forall k | k in order :: k in old(entries)
      ensures r.Ok? ==> sent == old(sent) + Shutdowns(old(entries), order)
    {
      hide Removing, ViewOf, Replay, ToQuery, GoesWith, RemovalOrder, KeyedByName, Shutdowns, Cascade, Deregistered,
        Rest;
      order := [];
      if name !in entries {
        return Err("Can't deregister entry, it is not registered"), [];
      }
      ghost var m := entries;
      var entry := entries[name];
      entries := entries - {name};
      order := ExtractCascade(name, m);
      SendEvent(UnitShutdown(ToQuery(entry)));
      RemovingDone(m, name, order);
      order := order + [name];
      DeregisterReplays(m, name, order);
      ReplayConcat(map[], old(sent), Shutdowns(m, order));
      assert sent == old(sent) + Shutdowns(m, order);
      assert Replay(map[], sent) == ViewOf(entries);
      r := Ok(());
    }

    /** The `extract_if` loop: takes the cascade of `name` out, entry by entry, in some order. */
    method ExtractCascade(name: string, ghost m: Entries) returns (ghost order: seq<string>)
      requires entries == m - {name}
      modifies this
      ensures Removing(m, name, {}, order) && (forall k | k in order :: k in m)
      ensures entries == Rest(m, name, order) && sent == old(sent) + Shutdowns(m, order)
    {
      hide Removing, ToQuery, GoesWith, Shutdowns, Cascade, Rest;
      var left := set k | k in entries && GoesWith(entries[k], name);
      order := [];
      CascadeStart(m, name, left);
      while left != {}
        invariant Removing(m, name, left, order) && forall k | k in order :: k in m
        invariant sent == old(sent) + Shutdowns(m, order) && entries == Rest(m, name, order)
        decreases |left|
      {
        var k :| k in left;
        assert left == left - {k} + {k};
        left := left - {k};
        RemovingStep(m, name, left, order, k);
        SendEvent(UnitShutdown(ToQuery(entries[k])));
        entries := entries - {k};
        order := order + [k];
      }
    }

    method UpdateState(name: string, status: UnitStatus) returns (r: Result<()>)
      requires Valid()
      modifies this
      ensures Valid() && (r.Ok? <==> name in old(entries))
      ensures r.Err? ==> entries == old(entries) && sent == old(sent)
      ensures r.Ok? ==> entries == StateSet(old(entries), name, status)
                        && sent == old(sent) + [UnitStatusChanged(ToQuery(entries[name]))]
    {
      if name !in entries {
        return Err("Can't update state, is not registered");
      }
      entries := entries[name := entries[name].(status := status)];
      SendEvent(UnitStatusChanged(ToQuery(entries[name])));
      SetStateReplays(old(entries), name, status);
      ReplayConcat(map[], old(sent), [UnitStatusChanged(ToQuery(entries[name]))]);
      r := Ok(());
    }

    /** The receiver is made first, the contents are listed afterwards, in whatever order the hash map has. */
    method Subscribe() returns (contents: seq<QueryResult>, next: nat)
      requires Valid()
      ensures next == |sent| && |contents| == |entries| && Listed(contents) == ViewOf(entries)
    {
      hide ToQuery, Replay, ViewOf, Listed;
      next := |sent|;
      contents := [];
      var left := entries.Keys;
      ghost var done := {};
      ListStart(entries);
      while left != {}
        invariant left !! done && left + done == entries.Keys && |contents| == |done|
        invariant Listed(contents) == ViewOf(entries - left)
        decreases |left|
      {
        var k :| k in left;
        ListStep(entries, left, k, contents);
        left, done := left - {k}, done + {k};
        contents := contents + [ToQuery(entries[k])];
      }
      assert entries - {} == entries;
    }

    method SendEvent(e: Event)
      modifies this`sent
      ensures sent == old(sent) + [e]
    {
      sent := sent + [e];
    }

    /** The least free counter; it is found within as many tries as there are entries, plus one. */
    method CreateUniqueEntryName(name: string) returns (r: string, counter: nat)
      ensures r == InstanceName(name, counter) && r !in entries && counter <= |entries|
      ensures forall i | 0 <= i < counter :: InstanceName(name, i) in entries
    {
      counter := 0;
      r := InstanceName(name, counter);
      while r in entries
        invariant r == InstanceName(name, counter) && counter <= |entries|
        invariant forall i | 0 <= i < counter :: InstanceName(name, i) in entries
        decreases |entries| - counter
      {
        TakenBound(entries, name, counter + 1);
        counter := counter + 1;
        r := InstanceName(name, counter);
      }
    }
  }
}
