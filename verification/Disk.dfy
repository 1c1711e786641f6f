/** What the commands of a plan do to volumes and boot files, when they succeed, fail, or lose power. */
module Disk {
  import opened Wrappers
  import opened Text
  import opened Runtime

  /** A logical volume; its size is the length of its data. `flushed` once nothing is pending. */
  datatype Lv = Lv(data: seq<Byte>, flushed: bool)

  datatype BootFile = BootFile(data: seq<Byte>, synced: bool)

  /** One volume group, the unified kernel images by entry id, and the ids of the type 1 entries. */
  datatype Disk = Disk(vg: string, lvs: map<string, Lv>, esp: map<string, BootFile>, type1: set<string>)

  /** Reading an input to its end, or breaking off with `rest` unread. */
  datatype Reading = Whole(bytes: seq<Byte>) | Broken(bytes: seq<Byte>, rest: seq<Byte>) {
    /** What should have been read. */
    function Image(): seq<Byte> {
      bytes + Unread()
    }

    function Unread(): seq<Byte> {
      match this case Whole(_) => [] case Broken(_, rest) => rest
    }
  }

  /** The downloaded files as they are, and as `zstdcat` unpacks them. */
  datatype Sources = Sources(raw: map<string, Reading>, unpacked: map<string, Reading>)

  function Read(src: Sources, input: string, compressed: bool): Reading {
    var m := if compressed then src.unpacked else src.raw;
    if input in m then m[input] else Broken([], [])
  }

  // ---------------------------------------------------------------- device paths

  /** Device mapper doubles the dashes of both names before joining them with one. */
  function Escaped(s: string): string {
    if s == [] then [] else (if s[0] == '-' then "--" else [s[0]]) + Escaped(s[1..])
  }

  predicate Resolves(d: Disk, path: string, n: string) {
    n in d.lvs && path == "/dev/mapper/" + Escaped(d.vg) + "-" + Escaped(n)
  }

  ghost function Target(d: Disk, path: string): (r: Option<string>)
    ensures r.Some? ==> Resolves(d, path, r.value)
    ensures r.None? ==> forall n :: !Resolves(d, path, n)
  {
    if n :| Resolves(d, path, n) then Some(n) else None
  }

  /** The entry id of a file directly in the directory of unified kernel images. */
  function EspName(path: string): Option<string> {
    match StripPrefix(path, "/boot/EFI/Linux/")
    case Some(n) => if '/' in n then None else Some(n)
    case None => None
  }

  // ---------------------------------------------------------------- commands

  function Overwrite(before: seq<Byte>, bytes: seq<Byte>): (r: seq<Byte>)
    requires |bytes| <= |before|
    ensures |r| == |before| && bytes <= r
  {
    bytes + before[|bytes|..]
  }

  /** `d'` is `d` but for what volume `n` holds. */
  predicate OnlyLv(d: Disk, d': Disk, n: string) {
    n in d'.lvs && d' == d.(lvs := d.lvs[n := d'.lvs[n]])
  }

  /**
   * A pipeline exits with success. Its status is that of the last stage, so a `zstdcat` that breaks
   * off is not noticed; `dd` to a path that is no volume writes a plain file.
   */
  ghost predicate Done(src: Sources, d: Disk, c: Pipeline, d': Disk) {
    match c
    case WriteImage(input, compressed, of) =>
      (match Target(d, of)
       case None => d' == d
       case Some(n) =>
         var r := Read(src, input, compressed);
         && (r.Whole? || compressed)
         && |r.bytes| <= |d.lvs[n].data|
         && d' == d.(lvs := d.lvs[n := Lv(Overwrite(d.lvs[n].data, r.bytes), false)]))
    case FlushBufs(device) =>
      (match Target(d, device)
       case None => false
       case Some(n) => d' == d.(lvs := d.lvs[n := d.lvs[n].(flushed := true)]))
    case Lvcreate(vg, name, size) =>
      vg == d.vg && '/' !in name && name !in d.lvs && OnlyLv(d, d', name) && |d'.lvs[name].data| >= size
    case Lvresize(vg, name, size) =>
      && vg == d.vg && name in d.lvs && OnlyLv(d, d', name)
      && |d'.lvs[name].data| >= size
      && d'.lvs[name].flushed == d.lvs[name].flushed
      && (d.lvs[name].data <= d'.lvs[name].data || d'.lvs[name].data <= d.lvs[name].data)
    case Lvrename(vg, from, to) =>
      && vg == d.vg && '/' !in to && from in d.lvs && to !in d.lvs
      && d' == d.(lvs := (d.lvs - {from})[to := d.lvs[from]])
    case InstallFile(input, dest) =>
      var r := Read(src, input, false);
      && r.Whole?
      && (match EspName(dest)
          case None => d' == d
          case Some(n) => d' == d.(esp := d.esp[n := BootFile(r.bytes, false)]))
    case BootctlUnlink(id) =>
      (id in d.esp || id in d.type1) && d' == d.(esp := d.esp - {id}, type1 := d.type1 - {id})
    case EditLoaderConf(_) => d' == d
    case RemoveFile(_) => d' == d
    case BootctlSetDefault => d' == d
  }

  /** A pipeline fails or is cut off: nothing done, all done, or its target left half written. */
  ghost predicate Interrupted(src: Sources, d: Disk, c: Pipeline, d': Disk) {
    || d' == d
    || Done(src, d, c, d')
    || match c
       case WriteImage(_, _, of) =>
         (match Target(d, of)
          case None => false
          case Some(n) => OnlyLv(d, d', n) && |d'.lvs[n].data| == |d.lvs[n].data|)
       case InstallFile(_, dest) =>
         (match EspName(dest)
          case None => false
          case Some(n) =>
            || d' == d.(esp := d.esp - {n})
            || (n in d'.esp && d' == d.(esp := d.esp[n := d'.esp[n]])))
       case _ => false
  }

  /** Power is lost: what was not flushed may hold anything, files not yet synced may be gone or damaged. */
  ghost predicate PowerLoss(d: Disk, d': Disk) {
    && d'.vg == d.vg && d'.type1 == d.type1
    && d'.lvs.Keys == d.lvs.Keys && d'.esp.Keys <= d.esp.Keys
    && (forall n | n in d.lvs ::
          && |d'.lvs[n].data| == |d.lvs[n].data| && d'.lvs[n].flushed
          && (d.lvs[n].flushed ==> d'.lvs[n] == d.lvs[n]))
    && (forall id | id in d'.esp :: d'.esp[id].synced)
    && (forall id | id in d.esp && d.esp[id].synced :: id in d'.esp && d'.esp[id] == d.esp[id])
  }

  /** Cut off, a write may leave anything in the volume. */
  lemma WriteLeavesAnything(src: Sources, d: Disk, input: string, packed: bool, of: string, n: string, lv: Lv)
    returns (d': Disk)
    requires Target(d, of) == Some(n) && |lv.data| == |d.lvs[n].data|
    ensures Interrupted(src, d, WriteImage(input, packed, of), d') && d' == d.(lvs := d.lvs[n := lv])
  {
    d' := d.(lvs := d.lvs[n := lv]);
  }

  /** Cut off, the installation of an image may leave none, or any file in its place. */
  lemma InstallLeavesAnything(src: Sources, d: Disk, input: string, dest: string, n: string, file: Option<BootFile>)
    returns (d': Disk)
    requires EspName(dest) == Some(n)
    ensures Interrupted(src, d, InstallFile(input, dest), d')
    ensures d' == d.(esp := if file.Some? then d.esp[n := file.value] else d.esp - {n})
  {
    d' := d.(esp := if file.Some? then d.esp[n := file.value] else d.esp - {n});
  }

  /** Without power, a volume that was not flushed may hold anything, and an image that was not synced be gone. */
  lemma LossLeavesAnything(d: Disk, n: string, data: seq<Byte>, id: string) returns (d': Disk)
    requires n in d.lvs && !d.lvs[n].flushed && |data| == |d.lvs[n].data| && id in d.esp && !d.esp[id].synced
    ensures PowerLoss(d, d') && d'.lvs[n].data == data && id !in d'.esp
  {
    d' := d.(lvs := map k | k in d.lvs :: Lv(if k == n then data else d.lvs[k].data, true),
             esp := map k | k in d.esp && k != id :: d.esp[k].(synced := true));
    assert d'.lvs.Keys == d.lvs.Keys;
  }

  /** `ds` are the disks before and after each of the first commands of a plan, all successful. */
  ghost predicate Trace(src: Sources, plan: seq<Pipeline>, ds: seq<Disk>) {
    && 1 <= |ds| <= |plan| + 1
    && forall i | 0 <= i < |ds| - 1 :: Done(src, ds[i], plan[i], ds[i + 1])
  }

  /** All commands of the plan succeed, one after the other. */
  ghost predicate FullTrace(src: Sources, plan: seq<Pipeline>, d: Disk, ds: seq<Disk>) {
    Trace(src, plan, ds) && |ds| == |plan| + 1 && ds[0] == d
  }

  /** The plan stops in `d'`: after the commands of `ds`, or in the middle of the one that follows them. */
  ghost predicate StopsIn(src: Sources, plan: seq<Pipeline>, ds: seq<Disk>, d': Disk) {
    && Trace(src, plan, ds)
    && var last := ds[|ds| - 1];
       d' == last || (|ds| <= |plan| && Interrupted(src, last, plan[|ds| - 1], d'))
  }

  /**
   * How the commands of a plan would go one after the other from `d`: `exits` are their exit statuses and
   * `after` the disks they leave, as long as all before them succeeded.
   */
  ghost predicate Behaves(src: Sources, plan: seq<Pipeline>, d: Disk, exits: seq<bool>, after: seq<Disk>) {
    && |exits| == |after| == |plan|
    && forall n | 0 <= n < |plan| && AllOk(exits, n) :: Behaved(src, Before(d, after, n), plan[n], exits[n], after[n])
  }

  function Before(d: Disk, after: seq<Disk>, n: nat): Disk
    requires n <= |after|
  {
    if n == 0 then d else after[n - 1]
  }

  predicate AllOk(exits: seq<bool>, n: nat)
    requires n <= |exits|
  {
    forall i | 0 <= i < n :: exits[i]
  }

  ghost predicate Behaved(src: Sources, d: Disk, c: Pipeline, exit: bool, d': Disk) {
    if exit then Done(src, d, c, d') else Interrupted(src, d, c, d')
  }

  lemma BehavesAt(src: Sources, plan: seq<Pipeline>, d: Disk, exits: seq<bool>, after: seq<Disk>, n: nat)
    requires Behaves(src, plan, d, exits, after) && n < |plan| && AllOk(exits, n)
    ensures |after| == |exits| == |plan| && Behaved(src, Before(d, after, n), plan[n], exits[n], after[n])
  {
  }

  lemma TraceStart(src: Sources, plan: seq<Pipeline>, d: Disk)
    ensures Trace(src, plan, [d])
  {
  }

  lemma TraceOn(src: Sources, plan: seq<Pipeline>, ds: seq<Disk>, x: Disk)
    requires Trace(src, plan, ds) && |ds| <= |plan| && Done(src, ds[|ds| - 1], plan[|ds| - 1], x)
    ensures Trace(src, plan, ds + [x])
  {
    hide Done;
    var ds' := ds + [x];
    forall i | 0 <= i < |ds'| - 1
      ensures Done(src, ds'[i], plan[i], ds'[i + 1])
    {
      if i < |ds| - 1 {
        assert Done(src, ds[i], plan[i], ds[i + 1]);
      }
    }
  }

  /**
   * `run_plan`: commands in order, up to and with the first that fails; every run of it is a trace that
   * stops somewhere.
   */
  method RunPlan(plan: seq<Pipeline>, exits: seq<bool>, ghost src: Sources, ghost d: Disk, ghost after: seq<Disk>)
    returns (started: seq<Pipeline>, ok: bool, ghost ds: seq<Disk>, ghost x: Disk)
    requires |exits| == |after| == |plan| && Behaves(src, plan, d, exits, after)
    ensures started <= plan && (ok <==> forall i | 0 <= i < |plan| :: exits[i]) && (ok ==> started == plan)
    ensures !ok ==> started != [] && !exits[|started| - 1] && forall i | 0 <= i < |started| - 1 :: exits[i]
    ensures StopsIn(src, plan, ds, x) && ds[0] == d
    ensures |ds| == if ok then |plan| + 1 else |started|
    ensures ok ==> x == ds[|plan|]
  {
    hide Done, Interrupted, Trace, Behaves;
    started, ds, x := [], [d], d;
    TraceStart(src, plan, d);
    for n := 0 to |plan|
      invariant started == plan[..n] && AllOk(exits, n)
      invariant Trace(src, plan, ds) && |ds| == n + 1 && ds[0] == d && x == ds[n] == Before(d, after, n)
    {
      started := started + [plan[n]];
      BehavesAt(src, plan, d, exits, after, n);
      x := after[n];
      if !exits[n] {
        return started, false, ds, x;
      }
      TraceOn(src, plan, ds, x);
      ds := ds + [x];
    }
    ok := true;
  }

  // ---------------------------------------------------------------- escaping

  lemma {:induction false} EscapedConcat(a: string, b: string)
    ensures Escaped(a + b) == Escaped(a) + Escaped(b)
  {
    if a == [] {
      assert a + b == b;
    } else {
      assert (a + b)[1..] == a[1..] + b;
      EscapedConcat(a[1..], b);
    }
  }

  lemma {:induction false} EscapedNoDash(s: string)
    ensures Escaped(s) == s <==> '-' !in s
    ensures |Escaped(s)| >= |s|
  {
    if s != [] {
      EscapedNoDash(s[1..]);
      assert s == [s[0]] + s[1..];
    }
  }

  lemma {:induction false} EscapedInjective(a: string, b: string)
    requires Escaped(a) == Escaped(b)
    ensures a == b
  {
    if a != [] && b != [] {
      assert Escaped(a)[0] == a[0] && Escaped(b)[0] == b[0];
      var k := if a[0] == '-' then 2 else 1;
      assert Escaped(a)[k..] == Escaped(a[1..]);
      assert Escaped(b)[k..] == Escaped(b[1..]);
      EscapedInjective(a[1..], b[1..]);
      assert a == [a[0]] + a[1..] && b == [b[0]] + b[1..];
    } else {
      EscapedNoDash(a);
      EscapedNoDash(b);
    }
  }

  /** Under a prefix without dashes, unescaping goes on with the rest. */
  lemma {:induction false} UnescapePrefix(x: string, p: string, y: string) returns (y': string)
    requires '-' !in p && Escaped(x) == p + y
    ensures x == p + y' && Escaped(y') == y
  {
    if p == [] {
      y' := x;
      assert p + y == y;
    } else {
      assert x != [] by {
        assert |Escaped(x)| > 0;
      }
      assert Escaped(x)[0] == x[0];
      assert (p + y)[0] == p[0];
      assert Escaped(x)[1..] == Escaped(x[1..]);
      assert (p + y)[1..] == p[1..] + y;
      y' := UnescapePrefix(x[1..], p[1..], y);
      assert x == [x[0]] + x[1..];
    }
  }

  function Dashes(k: nat): string {
    seq(k, _ => '-')
  }

  /** A dash in the group name shifts the path, and no volume name makes up for it. */
  lemma {:induction false} NoShift(q: string, n0: string, k: nat, n: string)
    requires k >= 1 && n0 != "" && n0[0] != '-'
    ensures q + "-" + n0 != Dashes(k) + Escaped(q) + "-" + Escaped(n)
  {
    var left, right := q + "-" + n0, Dashes(k) + Escaped(q) + "-" + Escaped(n);
    assert right[0] == '-';
    if q == [] {
      assert left[1] == n0[0];
      assert right[1] == '-';
    } else {
      NoShift(q[1..], n0, k + 1, n);
      assert left[1..] == q[1..] + "-" + n0;
      if q[0] == '-' {
        assert right[1..] == Dashes(k + 1) + Escaped(q[1..]) + "-" + Escaped(n);
      } else {
        assert left[0] == q[0];
      }
    }
  }

  /**
   * The unescaped path made of `vg` and `lv` is the one device mapper gives volume `n`, exactly when the group
   * name has no dash and `lv` is the escaped form of `n`.
   */
  lemma PathResolves(vg: string, lv: string, n: string)
    requires lv != "" && lv[0] != '-'
    ensures "/dev/mapper/" + vg + "-" + lv == "/dev/mapper/" + Escaped(vg) + "-" + Escaped(n)
            <==> '-' !in vg && lv == Escaped(n)
  {
    var left, right := vg + "-" + lv, Escaped(vg) + "-" + Escaped(n);
    assert "/dev/mapper/" + vg + "-" + lv == "/dev/mapper/" + left;
    assert "/dev/mapper/" + Escaped(vg) + "-" + Escaped(n) == "/dev/mapper/" + right;
    assert ("/dev/mapper/" + left)[|"/dev/mapper/"|..] == left;
    assert ("/dev/mapper/" + right)[|"/dev/mapper/"|..] == right;
    EscapedNoDash(vg);
    if '-' in vg {
      ShiftedPath(vg, lv, n);
    } else {
      assert left[|vg| + 1..] == lv;
      assert right[|vg| + 1..] == Escaped(n);
    }
  }

  lemma EscapedAtDash(p: string, q: string)
    requires '-' !in p
    ensures Escaped(p + "-" + q) == p + "-" + ("-" + Escaped(q))
  {
    EscapedNoDash(p);
    EscapedConcat(p, "-" + q);
    assert p + "-" + q == p + ("-" + q);
    assert ("-" + q)[1..] == q;
    assert Escaped("-" + q) == "--" + Escaped(q);
    assert p + ("--" + Escaped(q)) == p + "-" + ("-" + Escaped(q));
  }

  lemma DropCommon(p: string, a: string, b: string)
    requires p + a == p + b
    ensures a == b
  {
    assert (p + a)[|p|..] == a;
    assert (p + b)[|p|..] == b;
  }

  lemma Regroup(a: string, b: string, c: string, d: string)
    ensures a + b + c + d == a + (b + c + d)
  {
  }

  lemma ShiftedPath(vg: string, lv: string, n: string)
    requires '-' in vg && lv != "" && lv[0] != '-'
    ensures vg + "-" + lv != Escaped(vg) + "-" + Escaped(n)
  {
    var (p, q) := SplitOnce(vg, '-').value;
    EscapedAtDash(p, q);
    NoShift(q, lv, 1, n);
    assert Dashes(1) == "-";
    Regroup(p + "-", q, "-", lv);
    Regroup(p + "-", "-" + Escaped(q), "-", Escaped(n));
    if vg + "-" + lv == Escaped(vg) + "-" + Escaped(n) {
      DropCommon(p + "-", q + "-" + lv, "-" + Escaped(q) + "-" + Escaped(n));
    }
  }
}
