/**
 * Policy delivery: a queue and a worker per virtual machine, and one task that pushes (`policy_manager.rs`,
 * `server.rs`).
 */
module Delivery {
  import opened Wrappers

  datatype Policy = Policy(name: string, file: string)

  datatype Update = Update(vm: string, policy: Policy)

  // ---------------------------------------------------------------- the manager

  function AllVms(configs: map<string, set<string>>): set<string> {
    set p, v | p in configs && v in configs[p] :: v
  }

  lemma ConfiguredVms(configs: map<string, set<string>>)
    ensures forall v :: v in AllVms(configs) <==> exists p :: p in configs && v in configs[p]
  {
  }

  class PolicyManager {
    const configs: map<string, set<string>>
    /** What was queued for each worker. */
    var queues: map<string, seq<Policy>>

    constructor (configs: map<string, set<string>>)
      ensures this.configs == configs && queues.Keys == AllVms(configs) && forall v | v in queues :: queues[v] == []
      ensures forall v :: v in queues <==> exists p :: p in configs && v in configs[p]
      ensures Represents(queues, Started(AllVms(configs)))
    {
      this.configs := configs;
      queues := map[];
      new;
      hide AllVms, Represents;
      var left := AllVms(configs);
      while left != {}
        invariant left !! queues.Keys && left + queues.Keys == AllVms(configs)
        invariant forall v | v in queues :: queues[v] == []
        decreases |left|
      {
        var v :| v in left;
        left := left - {v};
        AddWorker(v);
      }
      StartsEmpty(queues, AllVms(configs));
      ConfiguredVms(configs);
    }

    /** A second worker for the same machine would break the order, so an existing one is left alone. */
    method AddWorker(vm: string)
      modifies this
      ensures queues == if vm in old(queues) then old(queues) else old(queues)[vm := []]
    {
      if vm in queues { return; }
      queues := queues[vm := []];
    }

    method SendToVm(vm: string, policy: string, file: string) returns (r: Result<()>)
      modifies this
      ensures r.Ok? <==> vm in old(queues)
      ensures queues == if r.Ok? then old(queues)[vm := old(queues)[vm] + [Policy(policy, file)]] else old(queues)
      ensures forall s | Represents(old(queues), s) ::
                var step := Enqueue(vm, Policy(policy, file));
                && (r.Ok? <==> Enabled(s, step))
                && Represents(queues, if r.Ok? then Next(s, step) else s)
    {
      if vm !in queues { return Err("No worker found for VM"); }
      queues := queues[vm := queues[vm] + [Policy(policy, file)]];
      r := Ok(());
    }
  }

  // ---------------------------------------------------------------- workers and the update task, interleaved

  /**
   * All that was ever queued for a machine, how much of it the worker has handed on, and whether it awaits
   * an answer.
   */
  datatype Worker = Worker(queued: seq<Policy>, taken: nat, waiting: bool)

  datatype State = State(workers: map<string, Worker>, channel: seq<Update>, pushing: Option<Update>,
                         attempts: seq<Update>)

  function Started(vms: set<string>): State {
    State(map v | v in vms :: Worker([], 0, false), [], None, [])
  }

  datatype Step = Enqueue(vm: string, policy: Policy) | HandOn(vm: string) | Push | Answer

  predicate Enabled(s: State, step: Step) {
    match step
    case Enqueue(vm, _) => vm in s.workers
    case HandOn(vm) => vm in s.workers && !s.workers[vm].waiting && s.workers[vm].taken < |s.workers[vm].queued|
    case Push => s.pushing.None? && s.channel != []
    case Answer => s.pushing.Some? && s.pushing.value.vm in s.workers
  }

  function Next(s: State, step: Step): State
    requires Enabled(s, step)
  {
    match step
    case Enqueue(vm, p) =>
      var w := s.workers[vm];
      s.(workers := s.workers[vm := w.(queued := w.queued + [p])])
    case HandOn(vm) =>
      var w := s.workers[vm];
      s.(workers := s.workers[vm := w.(taken := w.taken + 1, waiting := true)],
         channel := s.channel + [Update(vm, w.queued[w.taken])])
    case Push => s.(pushing := Some(s.channel[0]), channel := s.channel[1..], attempts := s.attempts + [s.channel[0]])
    case Answer =>
      var vm := s.pushing.value.vm;
      s.(workers := s.workers[vm := s.workers[vm].(waiting := false)], pushing := None)
  }

  /** The queues of the manager are those of the workers. */
  predicate Represents(queues: map<string, seq<Policy>>, s: State) {
    queues.Keys == s.workers.Keys && forall v | v in queues :: queues[v] == s.workers[v].queued
  }

  lemma StartsEmpty(queues: map<string, seq<Policy>>, vms: set<string>)
    requires queues.Keys == vms && forall v | v in queues :: queues[v] == []
    ensures Represents(queues, Started(vms))
  {
  }

  /** Only sending changes them. */
  lemma OthersRepresent(queues: map<string, seq<Policy>>, s: State, step: Step)
    requires Represents(queues, s) && Enabled(s, step) && !step.Enqueue?
    ensures Represents(queues, Next(s, step))
  {
  }

  /** The policies among some updates that are for one machine. */
  function For(us: seq<Update>, vm: string): seq<Policy> {
    if us == [] then []
    else For(us[..|us| - 1], vm) + (if us[|us| - 1].vm == vm then [us[|us| - 1].policy] else [])
  }

  lemma ForSnoc(us: seq<Update>, u: Update, vm: string)
    ensures For(us + [u], vm) == For(us, vm) + (if u.vm == vm then [u.policy] else [])
  {
    assert (us + [u])[..|us|] == us;
  }

  lemma {:induction false} ForConcat(a: seq<Update>, b: seq<Update>, vm: string)
    ensures For(a + b, vm) == For(a, vm) + For(b, vm)
  {
    if b == [] {
      assert a + b == a;
    } else {
      var init, u := b[..|b| - 1], b[|b| - 1];
      assert a + b == (a + init) + [u];
      ForSnoc(a + init, u, vm);
      ForConcat(a, init, vm);
    }
  }

  function PushingFor(s: State, vm: string): nat {
    if s.pushing.Some? && s.pushing.value.vm == vm then 1 else 0
  }

  /** Attempts, then what is in the channel: exactly what the worker has handed on, and at most one of it unanswered. */
  ghost predicate WorkerOk(s: State, vm: string) {
    vm in s.workers ==>
      var w := s.workers[vm];
      && w.taken <= |w.queued|
      && For(s.attempts + s.channel, vm) == w.queued[..w.taken]
      && |For(s.channel, vm)| + PushingFor(s, vm) == if w.waiting then 1 else 0
  }

  ghost predicate Inv(s: State) {
    && (forall vm :: WorkerOk(s, vm))
    && (forall u | u in s.channel :: u.vm in s.workers)
    && (s.pushing.Some? ==> s.pushing.value.vm in s.workers)
  }

  lemma StartedInv(vms: set<string>)
    ensures Inv(Started(vms)) && Started(vms).workers.Keys == vms
  {
  }

  lemma EnqueueKeeps(s: State, vm: string, p: Policy, v: string)
    requires Inv(s) && Enabled(s, Enqueue(vm, p))
    ensures WorkerOk(Next(s, Enqueue(vm, p)), v)
  {
    hide For;
    assert WorkerOk(s, v);
  }

  lemma HandOnKeeps(s: State, vm: string, v: string)
    requires Inv(s) && Enabled(s, HandOn(vm))
    ensures WorkerOk(Next(s, HandOn(vm)), v)
  {
    hide For;
    assert WorkerOk(s, v);
    var w := s.workers[vm];
    var u := Update(vm, w.queued[w.taken]);
    ForSnoc(s.channel, u, v);
    ForSnoc(s.attempts + s.channel, u, v);
    assert s.attempts + (s.channel + [u]) == (s.attempts + s.channel) + [u];
    assert w.queued[..w.taken + 1] == w.queued[..w.taken] + [w.queued[w.taken]];
  }

  lemma PushKeeps(s: State, v: string)
    requires Inv(s) && Enabled(s, Push)
    ensures WorkerOk(Next(s, Push), v)
  {
    hide For;
    assert WorkerOk(s, v);
    var u, rest := s.channel[0], s.channel[1..];
    assert s.channel == [u] + rest;
    assert (s.attempts + [u]) + rest == s.attempts + s.channel;
    ForConcat([u], rest, v);
    ForOne(u, v);
  }

  lemma ForOne(u: Update, vm: string)
    ensures For([u], vm) == if u.vm == vm then [u.policy] else []
  {
    assert [u][..0] == [];
  }

  lemma AnswerKeeps(s: State, v: string)
    requires Inv(s) && Enabled(s, Answer)
    ensures WorkerOk(Next(s, Answer), v)
  {
    hide For;
    assert WorkerOk(s, v);
  }

  lemma NextKeeps(s: State, step: Step)
    requires Inv(s) && Enabled(s, step)
    ensures Inv(Next(s, step)) && Next(s, step).workers.Keys == s.workers.Keys
  {
    hide For, WorkerOk;
    forall v
      ensures WorkerOk(Next(s, step), v)
    {
      match step
      case Enqueue(vm, p) => EnqueueKeeps(s, vm, p, v);
      case HandOn(vm) => HandOnKeeps(s, vm, v);
      case Push => PushKeeps(s, v);
      case Answer => AnswerKeeps(s, v);
    }
  }

  ghost predicate Run(vms: set<string>, ss: seq<State>, steps: seq<Step>) {
    && |ss| == |steps| + 1 && ss[0] == Started(vms)
    && forall i | 0 <= i < |steps| :: Enabled(ss[i], steps[i]) && ss[i + 1] == Next(ss[i], steps[i])
  }

  lemma {:induction false} RunInv(vms: set<string>, ss: seq<State>, steps: seq<Step>, i: nat)
    requires Run(vms, ss, steps) && i < |ss|
    ensures Inv(ss[i]) && ss[i].workers.Keys == vms
  {
    hide Inv, Next, Started;
    if i == 0 {
      StartedInv(vms);
    } else {
      RunInv(vms, ss, steps, i - 1);
      NextKeeps(ss[i - 1], steps[i - 1]);
    }
  }

  lemma {:induction false} ForPrefix(a: seq<Update>, b: seq<Update>, vm: string)
    ensures For(a, vm) <= For(a + b, vm)
  {
    ForConcat(a, b, vm);
  }

  /**
   * In every interleaving, the push attempts for a machine are the first of what was queued for it, in
   * order and once each, and no more than one is on its way to be answered.
   */
  lemma InOrder(vms: set<string>, ss: seq<State>, steps: seq<Step>, i: nat, vm: string)
    requires Run(vms, ss, steps) && i < |ss| && vm in vms
    ensures vm in ss[i].workers && For(ss[i].attempts, vm) <= ss[i].workers[vm].queued
    ensures |For(ss[i].channel, vm)| + PushingFor(ss[i], vm) <= 1
    ensures |ss[i].workers[vm].queued| - |For(ss[i].attempts, vm)| >= |For(ss[i].channel, vm)|
  {
    hide For, Next, Started;
    RunInv(vms, ss, steps, i);
    assert WorkerOk(ss[i], vm);
    ForPrefix(ss[i].attempts, ss[i].channel, vm);
    ForConcat(ss[i].attempts, ss[i].channel, vm);
  }

  /**
   * Nothing is forgotten: when neither workers nor the update task can move, every policy queued has been
   * attempted.
   */
  lemma AllAttempted(vms: set<string>, ss: seq<State>, steps: seq<Step>, i: nat, vm: string)
    requires Run(vms, ss, steps) && i < |ss| && vm in vms
    requires !Enabled(ss[i], Push) && !Enabled(ss[i], Answer) && forall v :: !Enabled(ss[i], HandOn(v))
    ensures vm in ss[i].workers && For(ss[i].attempts, vm) == ss[i].workers[vm].queued
  {
    hide For, Next, Started;
    RunInv(vms, ss, steps, i);
    var s := ss[i];
    assert WorkerOk(s, vm) && !Enabled(s, HandOn(vm));
    assert s.attempts + s.channel == s.attempts;
    assert For(s.channel, vm) == [] by {
      EmptyFor(vm);
    }
    assert s.workers[vm].queued[..s.workers[vm].taken] == s.workers[vm].queued;
  }

  lemma EmptyFor(vm: string)
    ensures For([], vm) == []
  {
  }
}
