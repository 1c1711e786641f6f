/** LVM volume names and the slots they stand for (`image/slot.rs`, `image/version.rs`, `image/lvm.rs`). */
module Slots {
  import opened Wrappers
  import opened Text

  datatype Version = Version(revision: string, hash: Option<string>)

  datatype Kind = Root | Verity

  datatype EmptyId = Known(id: string) | Legacy

  datatype Status = Used(version: Version) | Empty(emptyId: EmptyId)

  datatype Volume = Volume(lvName: string, vgName: string, lvSizeBytes: Option<nat>)

  datatype Slot = Slot(kind: Kind, status: Status, volume: Volume) {
    predicate IsLegacy() {
      match status
      case Used(v) => v.hash.None?
      case Empty(id) => id.Legacy?
    }

    function EmptyIdText(): Option<string> {
      match status
      case Empty(Known(id)) => Some(id)
      case _ => None
    }

    function SlotVersion(): Option<Version> {
      match status
      case Used(v) => Some(v)
      case Empty(_) => None
    }

    /** Slots of one logical update slot; the kind does not matter. */
    predicate Matches(other: Slot) {
      status == other.status
    }
  }

  function KindName(k: Kind): string {
    match k
    case Root => "root"
    case Verity => "verity"
  }

  function ParseKind(s: string): Option<Kind> {
    if s == "root" then Some(Root) else if s == "verity" then Some(Verity) else None
  }

  /** `[name]_[version]` or `[name]_[version]_[hash]`, split from the right. */
  function DecodeStatus(value: string): Result<(Kind, Status)> {
    match RSplitOnce(value, '_')
    case None => Err("missing version")
    case Some((rest, last)) =>
      match RSplitOnce(rest, '_')
      case None => BuildStatus(rest, last, None)
      case Some((name, middle)) => BuildStatus(name, middle, Some(last))
  }

  function BuildStatus(name: string, version: string, tail: Option<string>): Result<(Kind, Status)> {
    if name == "" then Err("name is empty")
    else
      var status :=
        if version == "empty" then Empty(match tail case Some(id) => Known(id) case None => Legacy)
        else Used(Version(version, tail));
      match ParseKind(name)
      case None => Err("unknown kind")
      case Some(kind) => Ok((kind, status))
  }

  /** The volume name of a slot: what `Display` writes and `lvrename` is given. */
  function SlotName(k: Kind, st: Status): string {
    match st
    case Used(Version(revision, None)) => KindName(k) + "_" + revision
    case Used(Version(revision, Some(hash))) => KindName(k) + "_" + revision + "_" + hash
    case Empty(Known(id)) => KindName(k) + "_empty_" + id
    case Empty(Legacy) => KindName(k) + "_empty"
  }

  /** Exactly the statuses whose printed name reads back. */
  predicate Printable(st: Status) {
    match st
    case Used(v) => '_' !in v.revision && v.revision != "empty" && (v.hash.Some? ==> '_' !in v.hash.value)
    case Empty(Known(id)) => '_' !in id
    case Empty(Legacy) => true
  }

  lemma BuildThenPrint(name: string, version: string, tail: Option<string>)
    requires BuildStatus(name, version, tail).Ok?
    requires '_' !in version && (tail.Some? ==> '_' !in tail.value)
    ensures var (k, st) := BuildStatus(name, version, tail).value;
            && Printable(st)
            && SlotName(k, st) == name + "_" + version + (if tail.Some? then "_" + tail.value else "")
  {
    if version == "empty" && tail.Some? {
      assert name + "_empty_" + tail.value == name + "_" + "empty" + "_" + tail.value;
    }
  }

  /** Printing is the left inverse of parsing, and only printable statuses are ever parsed. */
  lemma DecodeThenPrint(value: string)
    requires DecodeStatus(value).Ok?
    ensures var (k, st) := DecodeStatus(value).value; SlotName(k, st) == value && Printable(st)
  {
    var (rest, last) := RSplitOnce(value, '_').value;
    match RSplitOnce(rest, '_')
    case None => BuildThenPrint(rest, last, None);
    case Some((name, middle)) => BuildThenPrint(name, middle, Some(last));
  }

  lemma DecodeTwo(k: Kind, version: string)
    requires '_' !in version
    ensures DecodeStatus(KindName(k) + "_" + version) == BuildStatus(KindName(k), version, None)
  {
    RSplitOnceAt(KindName(k), '_', version);
    assert KindName(k) + "_" + version == KindName(k) + ['_'] + version;
  }

  lemma DecodeThree(k: Kind, version: string, tail: string)
    requires '_' !in version && '_' !in tail
    ensures DecodeStatus(KindName(k) + "_" + version + "_" + tail) == BuildStatus(KindName(k), version, Some(tail))
  {
    RSplitOnceAt(KindName(k) + "_" + version, '_', tail);
    RSplitOnceAt(KindName(k), '_', version);
    assert KindName(k) + "_" + version + "_" + tail == (KindName(k) + "_" + version) + ['_'] + tail;
    assert KindName(k) + "_" + version == KindName(k) + ['_'] + version;
  }

  /** Parsing what was printed gives the status back exactly for the printable statuses. */
  lemma PrintThenDecode(k: Kind, st: Status)
    ensures DecodeStatus(SlotName(k, st)) == Ok((k, st)) <==> Printable(st)
  {
    hide DecodeStatus;
    if Printable(st) {
      match st
      case Used(Version(revision, None)) => DecodeTwo(k, revision);
      case Used(Version(revision, Some(hash))) => DecodeThree(k, revision, hash);
      case Empty(Known(id)) =>
        DecodeThree(k, "empty", id);
        assert KindName(k) + "_" + "empty" + "_" + id == KindName(k) + "_empty_" + id;
      case Empty(Legacy) =>
        DecodeTwo(k, "empty");
        assert KindName(k) + "_" + "empty" == KindName(k) + "_empty";
    } else if DecodeStatus(SlotName(k, st)) == Ok((k, st)) {
      DecodeThenPrint(SlotName(k, st));
    }
  }

  /** Two names that parse to the same kind and status are the same name. */
  lemma NameInjective(a: string, b: string)
    requires DecodeStatus(a).Ok? && DecodeStatus(a) == DecodeStatus(b)
    ensures a == b
  {
    DecodeThenPrint(a);
    DecodeThenPrint(b);
  }

  /** The parsed half of `FromVolumes`. */
  function ParsedSlots(vols: seq<Volume>): (r: seq<Slot>) {
    if vols == [] then []
    else
      var v := vols[|vols| - 1];
      var r := ParsedSlots(vols[..|vols| - 1]);
      match DecodeStatus(v.lvName)
      case Ok((k, st)) => r + [Slot(k, st, v)]
      case Err(_) => r
  }

  function UnparsedVolumes(vols: seq<Volume>): (r: seq<Volume>) {
    if vols == [] then []
    else
      var v := vols[|vols| - 1];
      var r := UnparsedVolumes(vols[..|vols| - 1]);
      if DecodeStatus(v.lvName).Ok? then r else r + [v]
  }

  method FromVolumes(vols: seq<Volume>) returns (slots: seq<Slot>, unparsed: seq<Volume>)
    ensures slots == ParsedSlots(vols) && unparsed == UnparsedVolumes(vols)
  {
    slots, unparsed := [], [];
    for i := 0 to |vols|
      invariant slots == ParsedSlots(vols[..i]) && unparsed == UnparsedVolumes(vols[..i])
    {
      assert vols[..i + 1][..i] == vols[..i];
      match DecodeStatus(vols[i].lvName)
      case Ok((k, st)) => slots := slots + [Slot(k, st, vols[i])];
      case Err(_) => unparsed := unparsed + [vols[i]];
    }
    assert vols[..|vols|] == vols;
  }

  ghost function VolumesOf(slots: seq<Slot>): multiset<Volume> {
    if slots == [] then multiset{}
    else VolumesOf(slots[..|slots| - 1]) + multiset{slots[|slots| - 1].volume}
  }

  /** No volume is lost, duplicated or parsed twice. */
  lemma {:induction false} FromVolumesConserves(vols: seq<Volume>)
    ensures VolumesOf(ParsedSlots(vols)) + multiset(UnparsedVolumes(vols)) == multiset(vols)
  {
    hide DecodeStatus;
    if vols != [] {
      var init, v := vols[..|vols| - 1], vols[|vols| - 1];
      FromVolumesConserves(init);
      assert vols == init + [v];
      var parsed, rest := ParsedSlots(init), UnparsedVolumes(init);
      match DecodeStatus(v.lvName)
      case Ok((k, st)) => assert (parsed + [Slot(k, st, v)])[..|parsed|] == parsed;
      case Err(_) => assert multiset(rest + [v]) == multiset(rest) + multiset{v};
    }
  }

  /** The parsed slots are exactly the volumes whose names parse, each with its own kind and status. */
  lemma {:induction false} ParsedSlotsExact(vols: seq<Volume>, s: Slot)
    ensures s in ParsedSlots(vols) <==> s.volume in vols && DecodeStatus(s.volume.lvName) == Ok((s.kind, s.status))
  {
    if vols != [] {
      ParsedSlotsExact(vols[..|vols| - 1], s);
      assert vols == vols[..|vols| - 1] + [vols[|vols| - 1]];
    }
  }
}
