/**
 * A policy file in chunks: cut up by the sender, put together by the receiver (`policyclient.rs`,
 * `policyadmin/transport.go`).
 */
module Upload {
  import opened Wrappers

  const BUFFER: nat := 3 * 1024 * 1024

  /** One `read` of the file: some bytes, none at its end, or an error. */
  datatype Read = Got(n: nat) | Failed

  /** Outcomes of reading a file with `left` bytes to go, up to and with the one that ends the loop. */
  ghost predicate Reads(left: nat, outcomes: seq<Read>) {
    && outcomes != []
    && match outcomes[0]
       case Failed => |outcomes| == 1
       case Got(n) =>
         && n <= left && n <= BUFFER && (n == 0 <==> left == 0)
         && (if n == 0 then |outcomes| == 1 else Reads(left - n, outcomes[1..]))
  }

  /** Whatever size the reads have, from one byte to the buffer, and wherever one fails. */
  lemma ReadsAnyhow(left: nat, n: nat, rest: seq<Read>)
    requires 0 < n <= 3 * 1024 * 1024 && Reads(left, rest)
    ensures Reads(left + n, [Got(n)] + rest) && Reads(0, [Got(0)]) && Reads(left, [Failed])
  {
    assert ([Got(n)] + rest)[1..] == rest;
  }

  function Total(outcomes: seq<Read>): nat {
    if outcomes == [] then 0 else (match outcomes[0] case Got(n) => n case Failed => 0) + Total(outcomes[1..])
  }

  /** No more is read than there is, and all of it if no read fails. */
  lemma {:induction false} TotalRead(left: nat, outcomes: seq<Read>)
    requires Reads(left, outcomes)
    ensures Total(outcomes) <= left && (Failed !in outcomes ==> Total(outcomes) == left)
  {
    if outcomes[0].Got? && outcomes[0].n > 0 {
      TotalRead(left - outcomes[0].n, outcomes[1..]);
    }
  }

  datatype Message = Message(name: string, chunk: seq<Byte>)

  function Joined(ms: seq<Message>): seq<Byte> {
    if ms == [] then [] else Joined(ms[..|ms| - 1]) + ms[|ms| - 1].chunk
  }

  lemma JoinedSnoc(ms: seq<Message>, m: Message)
    ensures Joined(ms + [m]) == Joined(ms) + m.chunk
  {
    assert (ms + [m])[..|ms|] == ms;
  }

  /** The name goes with the first chunk only. */
  ghost predicate Named(ms: seq<Message>, name: string) {
    forall i | 0 <= i < |ms| :: ms[i].name == if i == 0 then name else ""
  }

  lemma ReadOn(left: nat, outcomes: seq<Read>, i: nat)
    requires i < |outcomes| && Reads(left, outcomes[i..]) && outcomes[i].Got? && outcomes[i].n > 0
    ensures outcomes[i].n <= left && outcomes[i].n <= BUFFER && i + 1 < |outcomes|
    ensures Reads(left - outcomes[i].n, outcomes[i + 1..])
    ensures Total(outcomes[i..]) == outcomes[i].n + Total(outcomes[i + 1..])
  {
    assert outcomes[i..][0] == outcomes[i] && outcomes[i..][1..] == outcomes[i + 1..];
  }

  lemma ReadStops(left: nat, outcomes: seq<Read>, i: nat)
    requires i < |outcomes| && Reads(left, outcomes[i..]) && !(outcomes[i].Got? && outcomes[i].n > 0)
    ensures Total(outcomes[i..]) == 0
  {
    assert outcomes[i..][0] == outcomes[i] && |outcomes[i..]| == 1 && outcomes[i..][1..] == [];
  }

  /** The messages carry the first `at` bytes, in chunks that fit the buffer. */
  ghost predicate Carries(ms: seq<Message>, name: string, file: seq<Byte>, at: nat) {
    && at <= |file| && Named(ms, name) && Joined(ms) == file[..at] && (ms == [] <==> at == 0)
    && forall m | m in ms :: 0 < |m.chunk| <= BUFFER
  }

  lemma CarriesMore(ms: seq<Message>, name: string, file: seq<Byte>, at: nat, n: nat)
    requires Carries(ms, name, file, at) && 0 < n <= BUFFER && at + n <= |file|
    ensures Carries(ms + [Message(if ms == [] then name else "", file[at..at + n])], name, file, at + n)
  {
    JoinedSnoc(ms, Message(if ms == [] then name else "", file[at..at + n]));
    assert file[..at + n] == file[..at] + file[at..at + n];
  }

  /**
   * The loop of `upload_policy`, with the outcome of each `read` given. A read that fails ends the stream
   * like the end of the file does.
   */
  method UploadPolicy(name: string, file: seq<Byte>, outcomes: seq<Read>) returns (ms: seq<Message>)
    requires Reads(|file|, outcomes)
    ensures Total(outcomes) <= |file| && Named(ms, name) && Joined(ms) == file[..Total(outcomes)]
    ensures (forall m | m in ms :: 0 < |m.chunk| <= 3 * 1024 * 1024) && (ms == [] <==> Total(outcomes) == 0)
  {
    hide Reads, Total, Joined;
    TotalRead(|file|, outcomes);
    ms := [];
    var isFirst := true;
    var at: nat, i: nat := 0, 0;
    StartsEmpty(name, file, outcomes);
    while outcomes[i].Got? && outcomes[i].n > 0
      invariant i < |outcomes| && at <= |file| && Reads(|file| - at, outcomes[i..])
      invariant at + Total(outcomes[i..]) == Total(outcomes)
      invariant (isFirst <==> ms == []) && Carries(ms, name, file, at)
      decreases |outcomes| - i
    {
      var n := outcomes[i].n;
      ReadOn(|file| - at, outcomes, i);
      CarriesMore(ms, name, file, at, n);
      ms := ms + [Message(if isFirst then name else "", file[at..at + n])];
      isFirst := false;
      at, i := at + n, i + 1;
    }
    ReadStops(|file| - at, outcomes, i);
  }

  lemma StartsEmpty(name: string, file: seq<Byte>, outcomes: seq<Read>)
    requires Reads(|file|, outcomes)
    ensures outcomes[0..] == outcomes && outcomes != [] && Carries([], name, file, 0)
  {
  }

  // ---------------------------------------------------------------- the receiver

  /** What the receiver holds when the stream ends: no file at all if no message came. */
  datatype Upload = Upload(name: string, file: Option<seq<Byte>>)

  function Assembled(ms: seq<Message>): Result<Upload> {
    if ms == [] then Ok(Upload("", None))
    else if ms[0].name == "" then Err("policy-admin: policy name is nil")
    else Ok(Upload(ms[0].name, Some(Joined(ms))))
  }

  /**
   * What may go wrong at the receiver: the stream breaks, or making, opening up or writing the temporary
   * file fails.
   */
  datatype Trouble = Trouble(broken: bool, create: bool, chmod: bool, write: Option<nat>)

  const NoTrouble := Trouble(false, false, false, None)

  /** The trouble comes up while these messages are received. */
  predicate Fails(t: Trouble, ms: seq<Message>) {
    t.broken || (ms != [] && (t.create || t.chmod || (t.write.Some? && t.write.value < |ms|)))
  }

  /**
   * The receive loop of `StreamPolicy`. `left` says that the temporary file is still there at its end: to be
   * installed, or because its path was not yet known where its permissions could not be set.
   */
  method StreamPolicy(ms: seq<Message>, t: Trouble) returns (r: Result<Upload>, left: bool)
    ensures r.Ok? <==> !Fails(t, ms) && (ms == [] || ms[0].name != "")
    ensures r.Ok? ==> r == Assembled(ms)
    ensures left <==> ms != [] && ms[0].name != "" && !t.create && (t.chmod || r.Ok?)
  {
    var policyName, tempFile, firstChunk := "", None, true;
    for i := 0 to |ms|
      invariant firstChunk <==> i == 0
      invariant i == 0 ==> policyName == "" && tempFile == None
      invariant i > 0 ==> policyName == ms[0].name && policyName != "" && tempFile == Some(Joined(ms[..i]))
      invariant i > 0 ==> !t.create && !t.chmod && (t.write.Some? ==> t.write.value >= i)
    {
      if firstChunk {
        firstChunk := false;
        policyName := ms[i].name;
        if policyName == "" {
          return Err("policy-admin: policy name is nil"), false;
        }
        if t.create {
          return Err("failed to create temporary file"), false;
        }
        if t.chmod {
          return Err("failed to set permissions on temporary file"), true;
        }
        tempFile := Some([]);
      }
      if t.write == Some(i) {
        return Err("failed to write to temporary file"), false;
      }
      JoinedSnoc(ms[..i], ms[i]);
      assert ms[..i + 1] == ms[..i] + [ms[i]];
      tempFile := Some(tempFile.value + ms[i].chunk);
    }
    if t.broken {
      return Err("policy download failed"), false;
    }
    assert ms[..|ms|] == ms;
    r, left := Ok(Upload(policyName, tempFile)), tempFile.Some?;
  }

  /**
   * Round trip. Whatever way the reads cut a file up, the receiver holds exactly the file under its name,
   * if and only if all of it was read; a read that fails half-way goes unnoticed and leaves it truncated.
   */
  method RoundTrip(name: string, file: seq<Byte>, outcomes: seq<Read>) returns (r: Result<Upload>)
    requires Reads(|file|, outcomes) && name != "" && file != []
    ensures r.Ok? && (r.value == Upload(name, Some(file)) <==> Total(outcomes) == |file|)
    ensures Failed !in outcomes ==> r.value == Upload(name, Some(file))
    ensures 0 < Total(outcomes) <= |file| ==> r.value == Upload(name, Some(file[..Total(outcomes)]))
    ensures Total(outcomes) == 0 ==> r.value == Upload("", None)
  {
    TotalRead(|file|, outcomes);
    var ms := UploadPolicy(name, file, outcomes);
    var left;
    r, left := StreamPolicy(ms, NoTrouble);
    assert file[..|file|] == file;
  }
}
