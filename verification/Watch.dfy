/**
 * Watching the registry: writers, subscribers and a bounded broadcast channel, interleaved (`registry.rs`,
 * `server.rs`).
 */
module Watch {
  import opened Wrappers
  import opened Registry

  /** How far the channel lets a receiver fall behind. */
  const CAPACITY: nat := 16

  /** A change made under the lock. */
  datatype Change =
    | Register(entry: Entry)
    | Deregister(name: string, order: seq<string>)
    | UpdateState(name: string, status: UnitStatus)

  ghost predicate Possible(m: Entries, c: Change) {
    match c
    case Register(_) => true
    case Deregister(name, order) => name in m && RemovalOrder(m, name, order)
    case UpdateState(name, _) => name in m
  }

  lemma OrderRegistered(m: Entries, name: string, order: seq<string>)
    requires name in m && RemovalOrder(m, name, order)
    ensures forall k | k in order :: k in m
  {
  }

  function After(m: Entries, c: Change): Entries
    requires c.UpdateState? ==> c.name in m
  {
    match c
    case Register(e) => Registered(m, e)
    case Deregister(name, _) => Deregistered(m, name)
    case UpdateState(name, status) => StateSet(m, name, status)
  }

  ghost function Told(m: Entries, c: Change): seq<Event>
    requires Possible(m, c)
  {
    match c
    case Register(e) => RegisterEvents(m, e)
    case Deregister(name, order) =>
      OrderRegistered(m, name, order);
      Shutdowns(m, order)
    case UpdateState(name, status) => [UnitStatusChanged(ToQuery(StateSet(m, name, status)[name]))]
  }

  lemma ChangeReplays(m: Entries, c: Change)
    requires KeyedByName(m) && Possible(m, c)
    ensures KeyedByName(After(m, c)) && Replay(ViewOf(m), Told(m, c)) == ViewOf(After(m, c))
  {
    hide Replay, ToQuery, KeyedByName, ViewOf, RemovalOrder, Deregistered, Registered, StateSet;
    match c
    case Register(e) => RegisterReplays(m, e);
    case Deregister(name, order) => DeregisterReplays(m, name, order);
    case UpdateState(name, status) => SetStateReplays(m, name, status);
  }

  // ---------------------------------------------------------------- the channel

  /** The broadcast channel: the last events, and how many were sent in all. */
  datatype Channel = Channel(kept: seq<Event>, sent: nat) {
    function Oldest(): int {
      sent - |kept|
    }
  }

  /** Sending never waits: with all places taken, the oldest event gives way. */
  function Published(c: Channel, e: Event): Channel {
    var all := c.kept + [e];
    Channel(if |all| > CAPACITY then all[|all| - CAPACITY..] else all, c.sent + 1)
  }

  datatype Received = Nothing | Got(event: Event, next: nat) | Lagged(missed: nat, next: nat)

  /**
   * `recv` of a receiver that wants event number `next`; if that gave way, an error, and on with the oldest
   * one kept.
   */
  function Recv(c: Channel, next: nat): Received
    requires |c.kept| <= c.sent
  {
    if next >= c.sent then Nothing
    else if next < c.Oldest() then Lagged(c.Oldest() - next, c.Oldest())
    else Got(c.kept[next - c.Oldest()], next + 1)
  }

  // ---------------------------------------------------------------- the system

  /** A subscriber: where its receiver started and is, the snapshot once it has one, and what the stream delivered. */
  datatype Watcher = Watcher(first: nat, next: nat, snapshot: Option<View>, delivered: seq<Event>, ended: bool)

  /** One round of the loop of `watch`: an event is passed on, an error ends the stream. */
  function Watched(w: Watcher, c: Channel): Watcher
    requires |c.kept| <= c.sent
  {
    match Recv(c, w.next)
    case Nothing => w
    case Got(e, n) => w.(next := n, delivered := w.delivered + [e])
    case Lagged(_, n) => w.(next := n, ended := true)
  }

  /**
   * `pending` are the events a writer has still to send before it lets go of the lock. `log` is all that was
   * ever sent; no step looks at it.
   */
  datatype State = State(entries: Entries, channel: Channel, pending: seq<Event>, watchers: seq<Watcher>,
                         log: seq<Event>)
  {
    predicate Locked() {
      pending != []
    }
  }

  ghost predicate Init(s: State) {
    s == State(map[], Channel([], 0), [], [], [])
  }

  datatype Step = Write(change: Change) | Send | Open | Snapshot(i: nat) | Receive(i: nat)

  ghost predicate Next(s: State, step: Step, s': State) {
    match step
    case Write(c) =>
      !s.Locked() && Possible(s.entries, c) && s' == s.(entries := After(s.entries, c), pending := Told(s.entries, c))
    case Send =>
      && s.Locked()
      && s' == s.(channel := Published(s.channel, s.pending[0]), pending := s.pending[1..],
                  log := s.log + [s.pending[0]])
    case Open =>
      s' == s.(watchers := s.watchers + [Watcher(s.channel.sent, s.channel.sent, None, [], false)])
    case Snapshot(i) =>
      && !s.Locked() && i < |s.watchers| && s.watchers[i].snapshot.None?
      && s' == s.(watchers := s.watchers[i := s.watchers[i].(snapshot := Some(ViewOf(s.entries)))])
    case Receive(i) =>
      && i < |s.watchers| && s.watchers[i].snapshot.Some? && !s.watchers[i].ended
      && |s.channel.kept| <= s.channel.sent && s.watchers[i].next < s.channel.sent
      && s' == s.(watchers := s.watchers[i := Watched(s.watchers[i], s.channel)])
  }

  // ---------------------------------------------------------------- replaying twice

  ghost predicate Touches(es: seq<Event>, k: string) {
    exists i :: 0 <= i < |es| && es[i].unit.name == k
  }

  predicate SameAt(v: View, w: View, k: string) {
    (k in v <==> k in w) && (k in v ==> v[k] == w[k])
  }

  /** What becomes of a name depends only on the last event about it. */
  lemma {:induction false} LastEventDecides(u: View, w: View, es: seq<Event>, k: string)
    ensures Touches(es, k) ==> SameAt(Replay(u, es), Replay(w, es), k)
    ensures !Touches(es, k) ==> SameAt(Replay(u, es), u, k)
  {
    if es != [] {
      var init, e := es[..|es| - 1], es[|es| - 1];
      LastEventDecides(u, w, init, k);
      if e.unit.name != k && Touches(es, k) {
        var i :| 0 <= i < |es| && es[i].unit.name == k;
        assert init[i].unit.name == k;
      }
      if Touches(init, k) {
        var i :| 0 <= i < |init| && init[i].unit.name == k;
        assert es[i].unit.name == k;
      }
    }
  }

  /** Events that a view already reflects change nothing when they are replayed over it. */
  lemma OverlapAbsorbed(u: View, es: seq<Event>)
    ensures Replay(Replay(u, es), es) == Replay(u, es)
  {
    hide Replay, Touches;
    var once := Replay(u, es);
    var twice := Replay(once, es);
    forall k
      ensures (k in twice <==> k in once) && (k in twice ==> twice[k] == once[k])
    {
      LastEventDecides(u, once, es, k);
      LastEventDecides(once, u, es, k);
    }
  }

  // ---------------------------------------------------------------- the invariant

  /** The places hold the end of the log. */
  ghost predicate ChannelOk(s: State) {
    && s.channel.sent == |s.log|
    && |s.channel.kept| == (if |s.log| < CAPACITY then |s.log| else CAPACITY)
    && s.channel.kept == s.log[|s.log| - |s.channel.kept|..]
  }

  ghost predicate WatcherOk(s: State, w: Watcher) {
    && Follows(s.log, w)
    && (w.snapshot.Some? ==> Replay(w.snapshot.value, s.log[w.first..] + s.pending) == ViewOf(s.entries))
  }

  /** The subscriber has a gap-free stretch of the log, and goes on where that ends. */
  ghost predicate Follows(log: seq<Event>, w: Watcher) {
    && w.first + |w.delivered| <= |log|
    && w.delivered == log[w.first..w.first + |w.delivered|]
    && (!w.ended ==> w.next == w.first + |w.delivered|)
  }

  ghost predicate Inv(s: State) {
    && KeyedByName(s.entries)
    && ChannelOk(s)
    && Replay(map[], s.log + s.pending) == ViewOf(s.entries)
    && forall w | w in s.watchers :: WatcherOk(s, w)
  }

  lemma WriteKeeps(s: State, c: Change, s': State)
    requires Inv(s) && Next(s, Write(c), s')
    ensures Inv(s')
  {
    hide Replay, ViewOf, KeyedByName, Possible, After, Told;
    var es := Told(s.entries, c);
    ChangeReplays(s.entries, c);
    assert s.log + [] == s.log;
    ReplayConcat(map[], s.log, es);
    forall w | w in s'.watchers
      ensures WatcherOk(s', w)
    {
      assert WatcherOk(s, w);
      if w.snapshot.Some? {
        assert s.log[w.first..] + [] == s.log[w.first..];
        ReplayConcat(w.snapshot.value, s.log[w.first..], es);
      }
    }
  }

  /** A full channel drops its oldest event and still holds the end of the log. */
  lemma PublishedKeeps(kept: seq<Event>, log: seq<Event>, e: Event)
    requires |kept| == (if |log| < CAPACITY then |log| else CAPACITY) && kept == log[|log| - |kept|..]
    ensures var c := Published(Channel(kept, |log|), e);
            && c.sent == |log + [e]| && |c.kept| == (if |log + [e]| < CAPACITY then |log + [e]| else CAPACITY)
            && c.kept == (log + [e])[|log + [e]| - |c.kept|..]
  {
    assert kept + [e] == (log + [e])[|log| - |kept|..];
  }

  lemma SendKeeps(s: State, s': State)
    requires Inv(s) && Next(s, Send, s')
    ensures Inv(s')
  {
    hide Replay, ViewOf, KeyedByName, Published, ChannelOk;
    var e, rest := s.pending[0], s.pending[1..];
    assert s.pending == [e] + rest;
    assert s'.log + s'.pending == s.log + s.pending;
    SendChannel(s, s');
    forall w | w in s'.watchers
      ensures WatcherOk(s', w)
    {
      assert WatcherOk(s, w);
      LogGrows(s.log, e, rest, w);
    }
  }

  lemma SendChannel(s: State, s': State)
    requires ChannelOk(s) && Next(s, Send, s')
    ensures ChannelOk(s')
  {
    hide Published;
    PublishedKeeps(s.channel.kept, s.log, s.pending[0]);
    assert s.channel == Channel(s.channel.kept, |s.log|);
  }

  lemma LogGrows(log: seq<Event>, e: Event, rest: seq<Event>, w: Watcher)
    requires Follows(log, w)
    ensures Follows(log + [e], w) && (log + [e])[w.first..] + rest == log[w.first..] + ([e] + rest)
  {
    var n := w.first + |w.delivered|;
    assert (log + [e])[w.first..n] == log[w.first..n];
  }

  lemma OpenKeeps(s: State, s': State)
    requires Inv(s) && Next(s, Open, s')
    ensures Inv(s')
  {
    hide Replay, ViewOf, KeyedByName;
    forall w | w in s'.watchers
      ensures WatcherOk(s', w)
    {
      if w in s.watchers {
        assert WatcherOk(s, w);
      }
    }
  }

  lemma FollowsWith(log: seq<Event>, w: Watcher, v: View)
    requires Follows(log, w)
    ensures w.first <= |log| && Follows(log, w.(snapshot := Some(v)))
  {
  }

  /** A view of the whole log absorbs any end of the log. */
  lemma SnapshotAbsorbs(log: seq<Event>, first: nat)
    requires first <= |log|
    ensures Replay(Replay(map[], log), log[first..]) == Replay(map[], log)
  {
    var before, overlap := log[..first], log[first..];
    assert log == before + overlap;
    ReplayConcat(map[], before, overlap);
    OverlapAbsorbed(Replay(map[], before), overlap);
  }

  lemma SnapshotOk(s: State, w: Watcher)
    requires Inv(s) && !s.Locked() && Follows(s.log, w)
    ensures WatcherOk(s, w.(snapshot := Some(ViewOf(s.entries))))
  {
    hide Replay, ViewOf, KeyedByName, Follows, ChannelOk;
    FollowsWith(s.log, w, ViewOf(s.entries));
    SnapshotAbsorbs(s.log, w.first);
    assert s.log + s.pending == s.log;
    assert s.log[w.first..] + s.pending == s.log[w.first..];
  }

  lemma SnapshotKeeps(s: State, i: nat, s': State)
    requires Inv(s) && Next(s, Snapshot(i), s')
    ensures Inv(s')
  {
    hide Replay, ViewOf, KeyedByName, Follows;
    assert WatcherOk(s, s.watchers[i]);
    SnapshotOk(s, s.watchers[i]);
    OnlyWatchers(s, s', i);
  }

  /** Changing one subscriber for another that is well concerns no other. */
  lemma OnlyWatchers(s: State, s': State, i: nat)
    requires Inv(s) && i < |s.watchers| && i < |s'.watchers| && s' == s.(watchers := s.watchers[i := s'.watchers[i]])
    requires WatcherOk(s, s'.watchers[i])
    ensures Inv(s')
  {
    hide Replay, ViewOf, KeyedByName, Follows;
    forall x | x in s'.watchers
      ensures WatcherOk(s', x)
    {
      assert WatcherOk(s, x) by {
        if x != s'.watchers[i] {
          assert x in s.watchers;
        }
      }
    }
  }

  /** What one round of the loop does to a subscriber, told in terms of the log. */
  lemma WatchedOf(s: State, w: Watcher)
    requires ChannelOk(s) && Follows(s.log, w) && !w.ended && w.next < s.channel.sent
    ensures var w' := Watched(w, s.channel);
            && w'.first == w.first && w'.snapshot == w.snapshot
            && (w'.ended <==> |s.log| - w.next > CAPACITY)
            && w'.delivered == (if w'.ended then w.delivered else w.delivered + [s.log[w.next]])
            && (!w'.ended ==> w'.next == w.next + 1)
  {
    var c := s.channel;
    assert w.next >= c.Oldest() ==> c.kept[w.next - c.Oldest()] == s.log[w.next];
  }

  lemma StretchGrows(log: seq<Event>, w: Watcher, w': Watcher)
    requires Follows(log, w) && !w.ended && w.next < |log| && w'.first == w.first
    requires w'.delivered == (if w'.ended then w.delivered else w.delivered + [log[w.next]])
    requires (!w'.ended ==> w'.next == w.next + 1)
    ensures Follows(log, w')
  {
    assert log[w.first..w.next + 1] == log[w.first..w.next] + [log[w.next]];
  }

  lemma WatchedOk(s: State, w: Watcher)
    requires ChannelOk(s) && WatcherOk(s, w) && !w.ended && w.next < s.channel.sent
    ensures WatcherOk(s, Watched(w, s.channel))
  {
    hide Replay, ViewOf, Watched, Follows;
    WatchedOf(s, w);
    StretchGrows(s.log, w, Watched(w, s.channel));
  }

  lemma ReceiveKeeps(s: State, i: nat, s': State)
    requires Inv(s) && Next(s, Receive(i), s')
    ensures Inv(s')
  {
    hide Replay, ViewOf, KeyedByName, Watched, WatcherOk;
    assert WatcherOk(s, s.watchers[i]);
    WatchedOk(s, s.watchers[i]);
    OnlyWatchers(s, s', i);
  }

  lemma NextKeeps(s: State, step: Step, s': State)
    requires Inv(s) && Next(s, step, s')
    ensures Inv(s')
  {
    hide Inv, Next;
    match step
    case Write(c) => WriteKeeps(s, c, s');
    case Send => SendKeeps(s, s');
    case Open => OpenKeeps(s, s');
    case Snapshot(i) => SnapshotKeeps(s, i, s');
    case Receive(i) => ReceiveKeeps(s, i, s');
  }

  ghost predicate Run(ss: seq<State>, steps: seq<Step>) {
    && |ss| == |steps| + 1 && Init(ss[0])
    && forall i | 0 <= i < |steps| :: Next(ss[i], steps[i], ss[i + 1])
  }

  lemma {:induction false} RunInv(ss: seq<State>, steps: seq<Step>, i: nat)
    requires Run(ss, steps) && i < |ss|
    ensures Inv(ss[i])
  {
    hide Next, Inv, Init;
    if i == 0 {
      InitInv(ss[0]);
    } else {
      RunInv(ss, steps, i - 1);
      NextKeeps(ss[i - 1], steps[i - 1], ss[i]);
    }
  }

  lemma InitInv(s: State)
    requires Init(s)
    ensures Inv(s)
  {
    assert ViewOf(map[]) == map[];
  }

  /**
   * Convergence. In every interleaving of writers and subscribers, a subscriber that has received all that
   * was sent while nothing is pending holds exactly the registry, although its receiver is older than its
   * snapshot and the channel forgets all but its last events. What the stream delivered is always a gap-free
   * stretch of what was sent, from where it subscribed.
   */
  lemma Converges(ss: seq<State>, steps: seq<Step>, i: nat, w: Watcher)
    requires Run(ss, steps) && i < |ss| && w in ss[i].watchers
    ensures var n := w.first + |w.delivered|; n <= |ss[i].log| && w.delivered == ss[i].log[w.first..n]
    ensures w.snapshot.Some? && !ss[i].Locked() && w.first + |w.delivered| == |ss[i].log| ==>
              Replay(w.snapshot.value, w.delivered) == ViewOf(ss[i].entries)
  {
    hide Next, Replay, ViewOf;
    RunInv(ss, steps, i);
    var s := ss[i];
    assert WatcherOk(s, w);
    if !s.Locked() && w.first + |w.delivered| == |s.log| {
      assert s.log[w.first..] + s.pending == s.log[w.first..|s.log|];
    }
  }

  /**
   * Exactly when a stream ends: when it is asked for an event while more than sixteen were sent that it has
   * not delivered. Otherwise it delivers the next one.
   */
  lemma EndsIff(ss: seq<State>, steps: seq<Step>, i: nat, n: nat)
    requires Run(ss, steps) && i < |steps| && steps[i] == Receive(n)
    ensures n < |ss[i].watchers| && n < |ss[i + 1].watchers|
    ensures var w, w', log := ss[i].watchers[n], ss[i + 1].watchers[n], ss[i].log;
            var next := w.first + |w.delivered|;
            && (w'.ended <==> |log| - next > 16)
            && (!w'.ended ==> next < |log| && w'.delivered == w.delivered + [log[next]])
            && (w'.ended ==> w'.delivered == w.delivered)
  {
    hide Replay, ViewOf, Watched;
    RunInv(ss, steps, i);
    var s := ss[i];
    assert Next(s, steps[i], ss[i + 1]);
    assert WatcherOk(s, s.watchers[n]);
    WatchedOf(s, s.watchers[n]);
  }

  /** A stream that ended does so for good: what it delivered no longer changes, however the run goes on. */
  lemma {:induction false} EndedStays(ss: seq<State>, steps: seq<Step>, i: nat, j: nat, n: nat)
    requires Run(ss, steps) && i <= j < |ss| && n < |ss[i].watchers|
    requires ss[i].watchers[n].ended && ss[i].watchers[n].snapshot.Some?
    ensures n < |ss[j].watchers| && ss[j].watchers[n] == ss[i].watchers[n]
    decreases j - i
  {
    hide Watched, Published;
    if i < j {
      EndedStays(ss, steps, i, j - 1, n);
      assert Next(ss[j - 1], steps[j - 1], ss[j]);
    }
  }

  // ---------------------------------------------------------------- why the stream has to end

  lemma Extend(ss: seq<State>, steps: seq<Step>, step: Step, s': State) returns (ss': seq<State>, steps': seq<Step>)
    requires Run(ss, steps) && Next(ss[|steps|], step, s')
    ensures Run(ss', steps') && ss'[|steps'|] == s'
  {
    hide Next, Init;
    ss', steps' := ss + [s'], steps + [step];
  }

  /** A change that is told with one event, made and sent. */
  lemma Change1(ss: seq<State>, steps: seq<Step>, c: Change, e: Event) returns (ss': seq<State>, steps': seq<Step>)
    requires Run(ss, steps) && !ss[|steps|].Locked()
    requires Possible(ss[|steps|].entries, c) && Told(ss[|steps|].entries, c) == [e]
    ensures Run(ss', steps')
    ensures var s, s' := ss[|steps|], ss'[|steps'|];
            && s'.entries == After(s.entries, c) && s'.log == s.log + [e]
            && s'.pending == [] && s'.watchers == s.watchers
  {
    hide Told, Published;
    var s := ss[|steps|];
    var s1 := s.(entries := After(s.entries, c), pending := Told(s.entries, c));
    var s2 := s1.(channel := Published(s1.channel, e), pending := [], log := s1.log + [e]);
    assert s1.pending[1..] == [];
    ss', steps' := Extend(ss, steps, Write(c), s1);
    ss', steps' := Extend(ss', steps', Send, s2);
  }

  /** One entry changes state `n` times. */
  lemma {:induction false} Updates(ss: seq<State>, steps: seq<Step>, name: string, status: UnitStatus, n: nat)
    returns (ss': seq<State>, steps': seq<Step>)
    requires Run(ss, steps) && !ss[|steps|].Locked() && name in ss[|steps|].entries && KeyedByName(ss[|steps|].entries)
    ensures Run(ss', steps')
    ensures var s, s' := ss[|steps|], ss'[|steps'|];
            && s'.entries.Keys == s.entries.Keys && KeyedByName(s'.entries)
            && s'.pending == [] && s'.watchers == s.watchers
            && |s'.log| == |s.log| + n && s.log <= s'.log
            && forall k | |s.log| <= k < |s'.log| :: s'.log[k].unit.name == name
  {
    hide Next, Init, Replay;
    if n == 0 {
      ss', steps' := ss, steps;
    } else {
      ss', steps' := Updates(ss, steps, name, status, n - 1);
      var m := ss'[|steps'|].entries;
      QueryName(StateSet(m, name, status)[name]);
      var e := UnitStatusChanged(ToQuery(StateSet(m, name, status)[name]));
      ss', steps' := Change1(ss', steps', UpdateState(name, status), e);
    }
  }

  /** Subscribed to an empty registry. */
  lemma Subscribed() returns (ss: seq<State>, steps: seq<Step>)
    ensures Run(ss, steps)
    ensures ss[|steps|] == State(map[], Channel([], 0), [], [Watcher(0, 0, Some(map[]), [], false)], [])
  {
    var s0 := State(map[], Channel([], 0), [], [], []);
    var s1 := s0.(watchers := [Watcher(0, 0, None, [], false)]);
    var s2 := s1.(watchers := [Watcher(0, 0, Some(map[]), [], false)]);
    ss, steps := [s0], [];
    ss, steps := Extend(ss, steps, Open, s1);
    assert ViewOf(map[]) == map[];
    ss, steps := Extend(ss, steps, Snapshot(0), s2);
  }

  /**
   * Had the loop gone on after the error, it would deliver what is left in the channel, and the subscriber
   * could stay wrong for good: here it never learns of an entry, with everything received and nothing pending.
   */
  lemma GapIfItWentOn(x: Entry, y: Entry) returns (ss: seq<State>, steps: seq<Step>)
    requires x.name != y.name
    ensures Run(ss, steps)
    ensures var s := ss[|steps|];
            && |s.watchers| == 1 && s.watchers[0].snapshot == Some(map[])
            && s.watchers[0].delivered == [] && !s.Locked()
            && |s.channel.kept| <= s.channel.sent && Recv(s.channel, s.watchers[0].next).Lagged?
            && x.name in ViewOf(s.entries) && x.name !in Replay(map[], s.channel.kept)
  {
    hide Replay, Next, Init, ToQuery;
    ss, steps := TwoEntries(x, y);
    ss, steps := Updates(ss, steps, y.name, y.status, CAPACITY);
    var s := ss[|steps|];
    RunInv(ss, steps, |steps|);
    assert !Touches(s.channel.kept, x.name);
    LastEventDecides(map[], map[], s.channel.kept, x.name);
    assert WatcherOk(s, s.watchers[0]);
  }

  lemma TwoEntries(x: Entry, y: Entry) returns (ss: seq<State>, steps: seq<Step>)
    requires x.name != y.name
    ensures Run(ss, steps)
    ensures var s := ss[|steps|];
            && s.entries == map[x.name := x, y.name := y] && KeyedByName(s.entries) && |s.log| == 2 && s.pending == []
            && s.watchers == [Watcher(0, 0, Some(map[]), [], false)]
  {
    hide Next, Init, ToQuery;
    ss, steps := Subscribed();
    ss, steps := Change1(ss, steps, Register(x), UnitRegistered(ToQuery(x)));
    ss, steps := Change1(ss, steps, Register(y), UnitRegistered(ToQuery(y)));
  }
}
