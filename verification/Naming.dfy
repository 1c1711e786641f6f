/** Service names of virtual machines, their agents and application instances (`utils/naming.rs`). */
module Naming {
  import opened Wrappers
  import opened Text

  const I32_MAX: nat := 0x7FFF_FFFF

  datatype VmName = Vm(name: string) | App(name: string) {
    function Text(): string {
      match this case Vm(vm) => vm case App(app) => app + "-vm"
    }

    function AgentService(): string {
      "givc-" + Text() + ".service"
    }

    function VmService(): string {
      "microvm@" + Text() + ".service"
    }
  }

  /** The services of a machine of its own name, and of the machine of an application. */
  lemma ServiceNames(name: string)
    ensures Vm(name).AgentService() == "givc-" + name + ".service"
    ensures Vm(name).VmService() == "microvm@" + name + ".service"
    ensures App(name).AgentService() == "givc-" + name + "-vm.service"
    ensures App(name).VmService() == "microvm@" + name + "-vm.service"
  {
  }

  function ParseVmName(name: string): Option<string> {
    match StripPrefix(name, "microvm@")
    case Some(rest) => StripSuffix(rest, ".service")
    case None => None
  }

  /** The parser inverts the printer, and accepts nothing else. */
  lemma ParseVmNameExact(name: string, vm: string)
    ensures ParseVmName(name) == Some(vm) <==> name == "microvm@" + vm + ".service"
  {
    var rest := vm + ".service";
    assert "microvm@" + vm + ".service" == "microvm@" + rest;
    assert ("microvm@" + rest)[|"microvm@"|..] == rest;
  }

  /** Decimal parsing of an `i32`: an optional sign, then digits. */
  function ParseI32(s: string): Option<int> {
    if s != "" && s[0] == '-' then
      match ParseNat(s[1..], I32_MAX + 1) case Some(n) => Some(0 - n) case None => None
    else
      match ParseNat(if s != "" && s[0] == '+' then s[1..] else s, I32_MAX) case Some(n) => Some(n) case None => None
  }

  /** The text is the number in the range of an `i32`: digits, with or without a sign. */
  ghost predicate I32Text(s: string, n: int) {
    || (0 <= n <= I32_MAX && (Numeral(s, n) || (s != "" && s[0] == '+' && Numeral(s[1..], n))))
    || (-(I32_MAX as int) - 1 <= n <= 0 && s != "" && s[0] == '-' && Numeral(s[1..], -n))
  }

  lemma ParseI32Exact(s: string, n: int)
    ensures ParseI32(s) == Some(n) <==> I32Text(s, n)
  {
    hide ParseNat, Numeral;
    var abs := if n < 0 then -n else n;
    ParseNatExact(s, I32_MAX, abs);
    if s != "" {
      ParseNatExact(s[1..], I32_MAX, abs);
      ParseNatExact(s[1..], I32_MAX + 1, abs);
      assert AllDigits(s) ==> IsDigit(s[0]);
    }
  }

  function InstanceName(base: string, counter: nat): string {
    base + "@" + PrintNat(counter) + ".service"
  }

  function ParseApplicationName(name: string): Result<(string, int)> {
    match StripSuffix(name, ".service")
    case None => Err("not in app@<number>.service format")
    case Some(stem) =>
      match RSplitOnce(stem, '@')
      case None => Err("not in app@<number>.service format")
      case Some((left, right)) =>
        match ParseI32(right)
        case Some(n) => Ok((left, n))
        case None => Err("While parsing number part")
  }

  /**
   * The base name and counter of an instance are recovered, whatever the base holds, as long as the counter
   * is an `i32`.
   */
  lemma InstanceRoundTrip(base: string, n: nat)
    ensures ParseApplicationName(InstanceName(base, n)) == Ok((base, n)) <==> n < 0x8000_0000
  {
    hide ParseI32, RSplitOnce, StripSuffix, PrintNat;
    var digits := PrintNat(n);
    assert forall i | 0 <= i < |digits| :: IsDigit(digits[i]);
    assert InstanceName(base, n) == base + ['@'] + digits + ".service";
    RSplitOnceAt(base, '@', digits);
    ParsePrinted(n);
  }

  lemma ParsePrinted(n: nat)
    ensures ParseI32(PrintNat(n)) == Some(n) <==> n < 0x8000_0000
  {
    hide PrintNat;
    assert IsDigit(PrintNat(n)[0]);
  }

  /** Exactly the names that are taken apart, and into what. */
  lemma ParseApplicationExact(name: string, base: string, n: int)
    ensures ParseApplicationName(name) == Ok((base, n)) <==>
            exists num :: name == base + "@" + num + ".service" && '@' !in num && I32Text(num, n)
  {
    hide ParseI32, I32Text, RSplitOnce;
    if ParseApplicationName(name) == Ok((base, n)) {
      var stem := StripSuffix(name, ".service").value;
      var (left, right) := RSplitOnce(stem, '@').value;
      ParseI32Exact(right, n);
      assert name == left + "@" + right + ".service";
    }
    if num :| name == base + "@" + num + ".service" && '@' !in num && I32Text(num, n) {
      Apart(name, base, num, n);
    }
  }

  lemma Apart(name: string, base: string, num: string, n: int)
    requires name == base + "@" + num + ".service" && '@' !in num && I32Text(num, n)
    ensures ParseApplicationName(name) == Ok((base, n))
  {
    hide ParseI32, I32Text, RSplitOnce;
    var stem := base + ['@'] + num;
    assert name == stem + ".service";
    RSplitOnceAt(base, '@', num);
    ParseI32Exact(num, n);
  }

  lemma InstanceNameInjective(base: string, m: nat, n: nat)
    requires InstanceName(base, m) == InstanceName(base, n)
    ensures m == n
  {
    var k := |base| + 1;
    assert forall c: nat :: InstanceName(base, c)[k..] == PrintNat(c) + ".service";
    assert PrintNat(m) + ".service" == PrintNat(n) + ".service";
    assert (PrintNat(m) + ".service")[..|PrintNat(m)|] == PrintNat(m);
    assert (PrintNat(n) + ".service")[..|PrintNat(n)|] == PrintNat(n);
    assert |PrintNat(m)| == |PrintNat(n)|;
    PrintNatInjective(m, n);
  }
}
