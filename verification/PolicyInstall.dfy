/** A policy from the file at the sender to the store and destination at the receiver (`policyadmin/transport.go`). */
module PolicyInstall {
  import opened Wrappers
  import opened Upload
  import opened PolicyStore

  /**
   * `StreamPolicy` as a whole. A stream without messages leaves no file to hash, so nothing is installed,
   * whatever the map holds.
   */
  function Received(h: Bytes -> string, st: Store, ms: seq<Message>, t: Trouble, f: Faults): (Store, bool) {
    if Fails(t, ms) || ms == [] || ms[0].name == "" then (st, false)
    else Updated(h, st, ms[0].name, Joined(ms), f)
  }

  method ReceivePolicy(c: PolicyAdminController, ms: seq<Message>, t: Trouble, f: Faults) returns (r: Result<()>)
    modifies c
    ensures (c.State(), r.Ok?) == Received(c.hashOf, old(c.State()), ms, t, f)
  {
    var upload, left := StreamPolicy(ms, t);
    if upload.Err? { return Err(upload.reason); }
    match upload.value.file
    case None =>
      r := c.UpdatePolicy(upload.value.name, [], f.(hash := true));
    case Some(file) =>
      r := c.UpdatePolicy(upload.value.name, file, f);
  }

  /** The stored file has the hash of `b`, and store and destination are `b` unless that hash was recorded before. */
  predicate Installed(h: Bytes -> string, st: Store, name: string, b: Bytes, st': Store) {
    && name in st.details && name in st'.details && name in st'.bins && h(st'.bins[name]) == h(b)
    && st'.details[name].sha == h(b)
    && (st.details[name].sha != h(b) ==> Holds(st', name, b) && Deployed(st', name, b))
    && (st.details[name].sha == h(b) ==> st' == st)
  }

  /** Messages that carry a file under its name, received without trouble and updated without faults. */
  lemma CarriedInstalls(h: Bytes -> string, st: Store, ms: seq<Message>, name: string, b: Bytes)
    requires IsHash(h) && Consistent(h, st) && name in st.details && name != ""
    requires ms != [] && Named(ms, name) && Joined(ms) == b
    ensures var (st', ok) := Received(h, st, ms, NoTrouble, NoFaults); ok && Installed(h, st, name, b, st')
  {
    UpdateSucceeds(h, st, name, b, NoFaults);
  }

  /**
   * From end to end. A policy that the receiver knows, sent and installed with nothing going wrong there: what
   * was read of the file is what is stored and deployed, and that is the file if and only if all of it was read.
   */
  method Distribute(c: PolicyAdminController, name: string, file: seq<Byte>, outcomes: seq<Read>)
    returns (r: Result<()>)
    requires Reads(|file|, outcomes) && name in c.details && name != ""
    requires IsHash(c.hashOf) && Consistent(c.hashOf, c.State())
    modifies c
    ensures Consistent(c.hashOf, c.State()) && Total(outcomes) <= |file|
    ensures r.Ok? <==> Total(outcomes) > 0
    ensures r.Ok? ==> Installed(c.hashOf, old(c.State()), name, file[..Total(outcomes)], c.State())
    ensures r.Err? ==> c.State() == old(c.State())
    ensures r.Ok? && old(c.details[name].sha) != c.hashOf(file[..Total(outcomes)]) ==>
              (Holds(c.State(), name, file) && Deployed(c.State(), name, file) <==> Total(outcomes) == |file|)
  {
    hide Reads, Total, Joined, Consistent;
    ghost var st := c.State();
    TotalRead(|file|, outcomes);
    var ms := UploadPolicy(name, file, outcomes);
    r := ReceivePolicy(c, ms, NoTrouble, NoFaults);
    if ms != [] {
      CarriedInstalls(c.hashOf, st, ms, name, file[..Total(outcomes)]);
      UpdateKeepsConsistent(c.hashOf, st, name, file[..Total(outcomes)], NoFaults);
      assert file[..|file|] == file;
    }
  }
}
