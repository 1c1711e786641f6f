/** Names of unified kernel images and boot entries (`image/uki.rs`). */
module Uki {
  import opened Wrappers
  import opened Text
  import opened Slots

  const U32_MAX: nat := 0xFFFF_FFFF

  type U32 = n: nat | n <= U32_MAX

  datatype BootCounter = BootCounter(remaining: U32, used: Option<U32>)

  datatype UkiEntry = UkiEntry(version: Version, counter: Option<BootCounter>)

  datatype BootEntryKind = Managed(uki: UkiEntry) | Unmanaged | LegacyEntry

  datatype BootEntry = BootEntry(id: string, kind: BootEntryKind) {
    function EntryVersion(): Option<Version> {
      match kind
      case Managed(uki) => Some(uki.version)
      case _ => None
    }
  }

  /** One entry of `bootctl list`: its type and its id. */
  datatype BootctlItem = BootctlItem(itemType: string, id: string)

  /** `Version` in its alternate form. */
  function VersionName(v: Version): string {
    v.revision + (match v.hash case Some(h) => "-" + h case None => "")
  }

  function CounterName(c: BootCounter): string {
    PrintNat(c.remaining) + (match c.used case Some(u) => "-" + PrintNat(u) case None => "")
  }

  /** The file name of a unified kernel image, `ghaf-REVISION-HASH[+REMAINING[-USED]].efi`. */
  function UkiName(e: UkiEntry): string {
    "ghaf-" + CoreName(e) + ".efi"
  }

  function CoreName(e: UkiEntry): string {
    VersionName(e.version) + (match e.counter case Some(c) => "+" + CounterName(c) case None => "")
  }

  function ParseCounter(s: string): Result<BootCounter> {
    match SplitOnce(s, '-')
    case Some((r, u)) =>
      (match (ParseNat(r, U32_MAX), ParseNat(u, U32_MAX))
       case (Some(remaining), Some(used)) => Ok(BootCounter(remaining, Some(used)))
       case _ => Err("invalid counter"))
    case None =>
      match ParseNat(s, U32_MAX)
      case Some(remaining) => Ok(BootCounter(remaining, None))
      case None => Err("invalid remaining counter")
  }

  function ParseVersion(core: string): Result<Version> {
    match SplitOnce(core, '-')
    case None => Err("missing version/hash")
    case Some((version, hash)) =>
      if version == "empty" then Err("UKI version must not be 'empty'") else Ok(Version(version, Some(hash)))
  }

  /** What is left of a file name once `ghaf-` and `.efi` are taken off. */
  function ParseCore(stem: string): Result<UkiEntry> {
    match RSplitOnce(stem, '+')
    case Some((left, right)) =>
      var counter :- ParseCounter(right);
      var version :- ParseVersion(left);
      Ok(UkiEntry(version, Some(counter)))
    case None =>
      var version :- ParseVersion(stem);
      Ok(UkiEntry(version, None))
  }

  function ParseUki(name: string): Result<UkiEntry> {
    if |name| < 4 || LowerAll(name[|name| - 4..]) != ".efi" then Err("Not an EFI")
    else
      match StripPrefix(name[..|name| - 4], "ghaf-")
      case None => Err("invalid UKI prefix")
      case Some(stem) => ParseCore(stem)
  }

  // ---------------------------------------------------------------- the names that are accepted

  /** `.efi`, in any case. */
  predicate IsEfi(s: string) {
    && |s| == 4 && s[0] == '.' && (s[1] == 'e' || s[1] == 'E')
    && (s[2] == 'f' || s[2] == 'F') && (s[3] == 'i' || s[3] == 'I')
  }

  /** The text of a boot counter: one number, or two with a dash between. */
  ghost predicate CounterText(s: string, c: BootCounter) {
    match c.used
    case None => Numeral(s, c.remaining)
    case Some(u) => exists a, b :: s == a + ['-'] + b && Numeral(a, c.remaining) && Numeral(b, u)
  }

  predicate VersionText(s: string, v: Version) {
    && v.hash.Some? && s == v.revision + ['-'] + v.hash.value
    && '-' !in v.revision && v.revision != "empty"
  }

  /** What stands between `ghaf-` and `.efi`. */
  ghost predicate CoreText(s: string, e: UkiEntry) {
    match e.counter
    case None => VersionText(s, e.version) && '+' !in s
    case Some(c) => exists a, b :: s == a + ['+'] + b && VersionText(a, e.version) && CounterText(b, c)
  }

  lemma ParseCounterExact(s: string, c: BootCounter)
    ensures ParseCounter(s) == Ok(c) <==> CounterText(s, c)
    ensures CounterText(s, c) ==> '+' !in s
  {
    hide SplitOnce, Numeral, ParseNat;
    ParseNatExact(s, U32_MAX, c.remaining);
    if SplitOnce(s, '-').Some? {
      var (a, b) := SplitOnce(s, '-').value;
      ParseNatExact(a, U32_MAX, c.remaining);
      ParseNatExact(b, U32_MAX, if c.used.Some? then c.used.value else 0);
    }
    if c.used.Some? {
      if a, b :| s == a + ['-'] + b && Numeral(a, c.remaining) && Numeral(b, c.used.value) {
        ParseNatExact(a, U32_MAX, c.remaining);
        ParseNatExact(b, U32_MAX, c.used.value);
        SplitOnceAt(a, '-', b);
      }
    }
  }

  /** A number is a counter exactly if it fits 32 bits. */
  lemma CounterLimit(s: string, n: nat)
    requires Numeral(s, n)
    ensures ParseCounter(s).Ok? <==> n < 0x1_0000_0000
  {
    hide SplitOnce, Numeral, ParseNat;
    ParseNatExact(s, U32_MAX, n);
    NumeralUnique(s, n);
  }

  lemma NumeralUnique(s: string, n: nat)
    requires Numeral(s, n)
    ensures ParseNat(s, U32_MAX).Some? ==> ParseNat(s, U32_MAX) == Some(n)
    ensures '-' !in s
  {
    hide Numeral;
    ParseNatExact(s, n, n);
  }

  lemma ParseVersionExact(s: string, v: Version)
    ensures ParseVersion(s) == Ok(v) <==> VersionText(s, v)
  {
    hide SplitOnce;
    if VersionText(s, v) {
      SplitOnceAt(v.revision, '-', v.hash.value);
    }
  }

  lemma ParseCoreExact(s: string, e: UkiEntry)
    ensures ParseCore(s) == Ok(e) <==> CoreText(s, e)
  {
    hide RSplitOnce, ParseCounter, ParseVersion, CounterText, VersionText;
    ParseVersionExact(s, e.version);
    if RSplitOnce(s, '+').Some? {
      var (left, right) := RSplitOnce(s, '+').value;
      ParseVersionExact(left, e.version);
      if e.counter.Some? {
        ParseCounterExact(right, e.counter.value);
      }
    }
    if e.counter.Some? {
      var c := e.counter.value;
      if a, b :| s == a + ['+'] + b && VersionText(a, e.version) && CounterText(b, c) {
        ParseCounterExact(b, c);
        ParseVersionExact(a, e.version);
        RSplitOnceAt(a, '+', b);
      }
    }
  }

  lemma EfiLetters(s: string)
    ensures LowerAll(s) == ".efi" <==> IsEfi(s)
  {
    if |s| == 4 {
      assert LowerAll(s) == [Lower(s[0]), Lower(s[1]), Lower(s[2]), Lower(s[3])];
    }
  }

  /** Exactly the file names that are read as an image, and as which one. */
  lemma ParseUkiExact(name: string, e: UkiEntry)
    ensures ParseUki(name) == Ok(e) <==>
            && |name| >= 9 && IsEfi(name[|name| - 4..]) && name[..5] == "ghaf-"
            && CoreText(name[5..|name| - 4], e)
  {
    hide ParseCore, CoreText, LowerAll, IsEfi;
    if |name| >= 4 {
      EfiLetters(name[|name| - 4..]);
      var rest := name[..|name| - 4];
      if |name| >= 9 {
        ParseCoreExact(name[5..|name| - 4], e);
        assert rest[5..] == name[5..|name| - 4] && rest[..5] == name[..5];
      }
    }
  }

  // ---------------------------------------------------------------- round trips

  /** Exactly the entries whose printed name reads back. */
  predicate Readable(e: UkiEntry) {
    && e.version.hash.Some?
    && '-' !in e.version.revision && e.version.revision != "empty"
    && (e.counter.None? ==> '+' !in e.version.revision && '+' !in e.version.hash.value)
  }

  lemma ParseNamed(e: UkiEntry)
    ensures ParseUki(UkiName(e)) == ParseCore(CoreName(e))
  {
    var name := UkiName(e);
    assert name[|name| - 4..] == ".efi";
    assert LowerAll(".efi") == ".efi";
    assert name[..|name| - 4] == "ghaf-" + CoreName(e);
    assert ("ghaf-" + CoreName(e))[5..] == CoreName(e);
  }

  lemma ParsePrintedCounter(c: BootCounter)
    ensures ParseCounter(CounterName(c)) == Ok(c) && '+' !in CounterName(c)
  {
    hide PrintNat, SplitOnce, DecimalValue;
    match c.used
    case None => assert CounterName(c) == PrintNat(c.remaining);
    case Some(u) =>
      SplitOnceAt(PrintNat(c.remaining), '-', PrintNat(u));
      assert CounterName(c) == PrintNat(c.remaining) + ['-'] + PrintNat(u);
  }

  lemma ParsePrintedVersion(v: Version)
    ensures ParseVersion(VersionName(v)) == Ok(v) <==>
            v.hash.Some? && '-' !in v.revision && v.revision != "empty"
  {
    if v.hash.Some? {
      assert VersionName(v) == v.revision + ['-'] + v.hash.value;
      if '-' !in v.revision {
        SplitOnceAt(v.revision, '-', v.hash.value);
      }
    }
  }

  lemma ParseCounted(v: Version, c: BootCounter)
    ensures ParseCore(VersionName(v) + "+" + CounterName(c)) ==
            (match ParseVersion(VersionName(v)) case Ok(w) => Ok(UkiEntry(w, Some(c))) case Err(r) => Err(r))
  {
    var left, right := VersionName(v), CounterName(c);
    ParsePrintedCounter(c);
    RSplitOnceAt(left, '+', right);
    assert left + "+" + right == left + ['+'] + right;
  }

  lemma ParseUncounted(v: Version)
    requires v.hash.Some?
    ensures ParseCore(VersionName(v)) == Ok(UkiEntry(v, None)) <==> Readable(UkiEntry(v, None))
  {
    ParsePrintedVersion(v);
    assert VersionName(v) == v.revision + ['-'] + v.hash.value;
    assert '+' in VersionName(v) <==> '+' in v.revision || '+' in v.hash.value;
  }

  lemma ParsedIsReadable(stem: string)
    requires ParseCore(stem).Ok?
    ensures Readable(ParseCore(stem).value)
  {
    if '+' !in stem {
      var (version, hash) := SplitOnce(stem, '-').value;
      assert '+' !in version && '+' !in hash;
    }
  }

  lemma ReadableParses(e: UkiEntry)
    requires Readable(e)
    ensures ParseCore(CoreName(e)) == Ok(e)
  {
    hide ParseCore, ParseVersion, CounterName, VersionName, PrintNat;
    match e.counter
    case Some(c) =>
      ParseCounted(e.version, c);
      ParsePrintedVersion(e.version);
      assert CoreName(e) == VersionName(e.version) + "+" + CounterName(c);
    case None =>
      assert CoreName(e) == VersionName(e.version);
      ParseUncounted(e.version);
  }

  /** Parsing what was printed gives the entry back exactly for the readable entries, for all u32 counters. */
  lemma PrintThenParse(e: UkiEntry)
    ensures ParseUki(UkiName(e)) == Ok(e) <==> Readable(e)
  {
    hide ParseUki, UkiName, ParseCore, CoreName, Readable;
    ParseNamed(e);
    if ParseCore(CoreName(e)) == Ok(e) {
      ParsedIsReadable(CoreName(e));
    }
    if Readable(e) {
      ReadableParses(e);
    }
  }

  /** Whatever is accepted is readable, so parse after print after parse is parse. */
  lemma ParseThenPrint(name: string)
    requires ParseUki(name).Ok?
    ensures Readable(ParseUki(name).value)
    ensures ParseUki(UkiName(ParseUki(name).value)) == ParseUki(name)
  {
    var stem := StripPrefix(name[..|name| - 4], "ghaf-").value;
    ParsedIsReadable(stem);
    PrintThenParse(ParseUki(name).value);
  }

  function EntryOf(item: BootctlItem): Option<BootEntry> {
    if item.itemType == "type2" then
      Some(BootEntry(item.id, match ParseUki(item.id) case Ok(uki) => Managed(uki) case Err(_) => Unmanaged))
    else if item.itemType == "type1" then Some(BootEntry(item.id, LegacyEntry))
    else None
  }

  /** Entries of the types the updater looks at, in listing order. */
  function FromBootctl(items: seq<BootctlItem>): seq<BootEntry> {
    if items == [] then []
    else
      var r := FromBootctl(items[..|items| - 1]);
      match EntryOf(items[|items| - 1])
      case Some(e) => r + [e]
      case None => r
  }

  /** The managed entries, and with `managed` false the others. */
  function Partition(entries: seq<BootEntry>, managed: bool): seq<BootEntry> {
    if entries == [] then []
    else
      var r := Partition(entries[..|entries| - 1], managed);
      var e := entries[|entries| - 1];
      if e.kind.Managed? == managed then r + [e] else r
  }
}
