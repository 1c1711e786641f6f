/** Installing a received policy: the store, the destination and the recorded hash (`policyadmin/controller.go`). */
module PolicyStore {
  import opened Wrappers

  type Bytes = seq<Byte>

  /** SHA-256 in hexadecimal, of which only this is used: it is a function and never empty. */
  ghost predicate IsHash(h: Bytes -> string) {
    forall b :: h(b) != ""
  }

  datatype Detail = Detail(destination: string, sha: string)

  /** The policy map, `policy.bin` of each policy in the store, and the files at destinations. */
  datatype Store = Store(details: map<string, Detail>, bins: map<string, Bytes>, dests: map<string, Bytes>)

  /**
   * Which of the file operations fail; a copy that fails may have opened, and so emptied, the destination
   * and written `copied` bytes.
   */
  datatype Faults = Faults(mkdir: bool, hash: bool, open: bool, copy: bool, copied: nat, rename: bool)

  // ---------------------------------------------------------------- one update

  function Copied(st: Store, dest: string, pulled: Bytes, f: Faults): (Store, bool) {
    if f.open then (st, false)
    else if f.copy then
      var part := if f.copied <= |pulled| then pulled[..f.copied] else pulled;
      (st.(dests := st.dests[dest := part]), false)
    else (st.(dests := st.dests[dest := pulled]), true)
  }

  /** `policy.bin` is replaced in one step, then the hash is recorded. */
  function Renamed(h: Bytes -> string, st: Store, name: string, pulled: Bytes, f: Faults): (Store, bool)
    requires name in st.details
  {
    if f.rename then (st, false)
    else
      var detail := st.details[name].(sha := h(pulled));
      (st.(bins := st.bins[name := pulled], details := st.details[name := detail]), true)
  }

  function Updated(h: Bytes -> string, st: Store, name: string, pulled: Bytes, f: Faults): (Store, bool) {
    if name !in st.details then (st, false)
    else
      var d := st.details[name];
      if name !in st.bins && f.mkdir then (st, false)
      else if f.hash then (st, false)
      else if d.sha == h(pulled) then (st, true)
      else if d.destination == "" then Renamed(h, st, name, pulled, f)
      else
        var (st', ok) := Copied(st, d.destination, pulled, f);
        if !ok then (st', false) else Renamed(h, st', name, pulled, f)
  }

  class PolicyAdminController {
    const hashOf: Bytes -> string
    var details: map<string, Detail>
    var bins: map<string, Bytes>
    var dests: map<string, Bytes>

    function State(): Store
      reads this
    {
      Store(details, bins, dests)
    }

    constructor (h: Bytes -> string, policies: map<string, string>)
      ensures hashOf == h && State() == Store(map p | p in policies :: Detail(policies[p], ""), map[], map[])
    {
      hashOf := h;
      details := map p | p in policies :: Detail(policies[p], "");
      bins, dests := map[], map[];
    }

    method UpdatePolicy(name: string, pulled: Bytes, f: Faults) returns (r: Result<()>)
      modifies this
      ensures (State(), r.Ok?) == Updated(hashOf, old(State()), name, pulled, f)
    {
      if name !in details { return Err("Unknown policy"); }
      var policy := details[name];
      if name !in bins && f.mkdir { return Err("failed to create policy directory"); }
      if f.hash { return Err("failed to hash the pulled policy"); }
      var pulledHash := hashOf(pulled);
      if policy.sha == pulledHash { return Ok(()); }
      if policy.destination != "" {
        var copied := CopyPolicy(pulled, policy.destination, f);
        if copied.Err? { return copied; }
      }
      if f.rename { return Err("failed to write policy locally"); }
      bins := bins[name := pulled];
      details := details[name := policy.(sha := pulledHash)];
      r := Ok(());
    }

    method CopyPolicy(pulled: Bytes, dest: string, f: Faults) returns (r: Result<()>)
      modifies this`dests
      ensures (State(), r.Ok?) == Copied(old(State()), dest, pulled, f)
    {
      if f.open { return Err("failed to open destination file"); }
      dests := dests[dest := []];
      var written := if f.copy && f.copied <= |pulled| then pulled[..f.copied] else pulled;
      assert dests[dest := written] == old(dests)[dest := written];
      dests := dests[dest := written];
      if f.copy { return Err("failed to copy policy"); }
      r := Ok(());
    }
  }

  // ---------------------------------------------------------------- every run

  /** A recorded hash is that of the stored file. */
  ghost predicate Consistent(h: Bytes -> string, st: Store) {
    forall p | p in st.details && st.details[p].sha != "" :: p in st.bins && h(st.bins[p]) == st.details[p].sha
  }

  datatype Request = Request(name: string, pulled: Bytes, faults: Faults)

  function After(h: Bytes -> string, st: Store, rs: seq<Request>): Store {
    if rs == [] then st
    else
      var r := rs[|rs| - 1];
      Updated(h, After(h, st, rs[..|rs| - 1]), r.name, r.pulled, r.faults).0
  }

  lemma UpdateKeepsConsistent(h: Bytes -> string, st: Store, name: string, pulled: Bytes, f: Faults)
    requires Consistent(h, st)
    ensures Consistent(h, Updated(h, st, name, pulled, f).0)
  {
  }

  /** Over every run of updates, whatever fails in each, a recorded hash stays that of the stored file. */
  lemma {:induction false} RunConsistent(h: Bytes -> string, st: Store, rs: seq<Request>)
    requires Consistent(h, st)
    ensures Consistent(h, After(h, st, rs))
  {
    hide Updated;
    if rs != [] {
      var r := rs[|rs| - 1];
      RunConsistent(h, st, rs[..|rs| - 1]);
      UpdateKeepsConsistent(h, After(h, st, rs[..|rs| - 1]), r.name, r.pulled, r.faults);
    }
  }

  predicate Holds(st: Store, name: string, b: Bytes) {
    name in st.details && name in st.bins && st.bins[name] == b
  }

  predicate Deployed(st: Store, name: string, b: Bytes) {
    name in st.details && (var d := st.details[name].destination; d != "" ==> d in st.dests && st.dests[d] == b)
  }

  /**
   * What a successful update means. If the hash was not the recorded one, the stored file and the
   * destination are the pulled bytes. If it was, nothing is touched: the stored file has that hash, but
   * the destination is right only if it already was.
   */
  lemma UpdateSucceeds(h: Bytes -> string, st: Store, name: string, pulled: Bytes, f: Faults)
    requires IsHash(h) && Consistent(h, st) && Updated(h, st, name, pulled, f).1
    ensures var st' := Updated(h, st, name, pulled, f).0;
            && name in st.details && name in st'.bins && h(st'.bins[name]) == h(pulled) == st'.details[name].sha
            && (st.details[name].sha != h(pulled) ==> Holds(st', name, pulled) && Deployed(st', name, pulled))
            && (st.details[name].sha == h(pulled) ==> st' == st)
            && (Deployed(st', name, pulled) <==> st.details[name].sha != h(pulled) || Deployed(st, name, pulled))
  {
    assert h(pulled) != "";
  }

  /** The file has to be copied and stored: its hash is not the recorded one. */
  predicate Changes(h: Bytes -> string, st: Store, name: string, pulled: Bytes) {
    name in st.details && st.details[name].sha != h(pulled)
  }

  /**
   * Exactly when an update succeeds: the policy is known, its directory is there or can be made, the file can be
   * hashed, and if it is a new one it can be stored, and before that copied if there is a destination.
   */
  lemma UpdateOkIff(h: Bytes -> string, st: Store, name: string, pulled: Bytes, f: Faults)
    ensures Updated(h, st, name, pulled, f).1 <==>
            && name in st.details && (name in st.bins || !f.mkdir) && !f.hash
            && (Changes(h, st, name, pulled) ==>
                  !f.rename && (st.details[name].destination == "" || (!f.open && !f.copy)))
  {
  }

  /**
   * A failed update leaves map and store as they were, and at most damages the one destination, with a
   * beginning of the new file.
   */
  lemma UpdateFails(h: Bytes -> string, st: Store, name: string, pulled: Bytes, f: Faults)
    requires !Updated(h, st, name, pulled, f).1
    ensures var st' := Updated(h, st, name, pulled, f).0;
            && st'.details == st.details && st'.bins == st.bins
            && forall d | d in st.dests || d in st'.dests ::
                 || (d in st.dests && d in st'.dests && st'.dests[d] == st.dests[d])
                 || (name in st.details && d == st.details[name].destination
                     && d in st'.dests && st'.dests[d] <= pulled)
  {
  }

  const NoFaults: Faults := Faults(false, false, false, false, 0, false)

  /**
   * A damaged destination is not repaired by sending the recorded policy again: installing `a`, failing to
   * copy `b` after `n` bytes and installing `a` again succeeds and leaves the beginning of `b` in place.
   */
  lemma DamageStays(h: Bytes -> string, name: string, dest: string, a: Bytes, b: Bytes, n: nat)
    requires IsHash(h) && h(a) != h(b) && dest != "" && n <= |b| && b[..n] != a
    ensures var st := Store(map[name := Detail(dest, "")], map[], map[]);
            var (s1, ok1) := Updated(h, st, name, a, NoFaults);
            var (s2, ok2) := Updated(h, s1, name, b, NoFaults.(copy := true, copied := n));
            var (s3, ok3) := Updated(h, s2, name, a, NoFaults);
            && Consistent(h, st) && ok1 && Deployed(s1, name, a) && !ok2
            && ok3 && s3.dests[dest] == b[..n] && !Deployed(s3, name, a)
  {
    assert h(a) != "";
  }
}
