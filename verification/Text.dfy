/** The string primitives the parsers and printers are written with. */
module Text {
  import opened Wrappers

  /** Split at the first `c`. */
  function SplitOnce(s: string, c: char): (r: Option<(string, string)>)
    ensures r.None? <==> c !in s
    ensures r.Some? ==> s == r.value.0 + [c] + r.value.1 && c !in r.value.0
  {
    if s == [] then None
    else if s[0] == c then Some(([], s[1..]))
    else
      match SplitOnce(s[1..], c)
      case None => None
      case Some((a, b)) =>
        assert s == [s[0]] + s[1..];
        Some(([s[0]] + a, b))
  }

  /** Split at the last `c`. */
  function RSplitOnce(s: string, c: char): (r: Option<(string, string)>)
    ensures r.None? <==> c !in s
    ensures r.Some? ==> s == r.value.0 + [c] + r.value.1 && c !in r.value.1
  {
    if s == [] then None
    else
      var init, last := s[..|s| - 1], s[|s| - 1];
      assert s == init + [last];
      if last == c then Some((init, []))
      else
        match RSplitOnce(init, c)
        case None => None
        case Some((a, b)) => Some((a, b + [last]))
  }

  lemma {:induction false} SplitOnceAt(a: string, c: char, b: string)
    requires c !in a
    ensures SplitOnce(a + [c] + b, c) == Some((a, b))
  {
    var s := a + [c] + b;
    if a == [] {
      assert s[1..] == b;
    } else {
      assert s[1..] == a[1..] + [c] + b;
      assert a == [a[0]] + a[1..];
      SplitOnceAt(a[1..], c, b);
    }
  }

  lemma {:induction false} RSplitOnceAt(a: string, c: char, b: string)
    requires c !in b
    ensures RSplitOnce(a + [c] + b, c) == Some((a, b))
  {
    var s := a + [c] + b;
    if b == [] {
      assert s[..|s| - 1] == a;
    } else {
      var b' := b[..|b| - 1];
      assert s[..|s| - 1] == a + [c] + b';
      assert b == b' + [b[|b| - 1]];
      RSplitOnceAt(a, c, b');
    }
  }

  function StripPrefix(s: string, p: string): (r: Option<string>)
    ensures r.Some? <==> p <= s
    ensures r.Some? ==> s == p + r.value
  {
    if p <= s then Some(s[|p|..]) else None
  }

  function StripSuffix(s: string, p: string): (r: Option<string>)
    ensures r.Some? ==> s == r.value + p
    ensures forall q: string | s == q + p :: r == Some(q)
  {
    if |p| <= |s| && s[|s| - |p|..] == p then Some(s[..|s| - |p|]) else None
  }

  predicate IsDigit(c: char) {
    '0' <= c <= '9'
  }

  predicate AllDigits(s: string) {
    forall i | 0 <= i < |s| :: IsDigit(s[i])
  }

  /** The decimal value of a string of digits. */
  function DecimalValue(s: string): nat
    requires AllDigits(s)
  {
    if s == [] then 0
    else 10 * DecimalValue(s[..|s| - 1]) + (s[|s| - 1] - '0') as nat
  }

  /** Decimal printing, without leading zeros. */
  function PrintNat(n: nat): (s: string)
    ensures AllDigits(s) && s != [] && DecimalValue(s) == n
    ensures (n > 0 || |s| > 1) ==> s[0] != '0'
  {
    var d := '0' + (n % 10) as char;
    if n < 10 then
      assert [d][..0] == [];
      [d]
    else
      var s := PrintNat(n / 10) + [d];
      assert s[..|s| - 1] == PrintNat(n / 10);
      s
  }

  /** Unsigned decimal parsing: at least one digit, digits only, at most `max`. */
  function ParseNat(s: string, max: nat): (r: Option<nat>)
    ensures r.Some? ==> AllDigits(s) && s != [] && r.value <= max
  {
    if s != [] && AllDigits(s) && DecimalValue(s) <= max then Some(DecimalValue(s)) else None
  }

  /** Printing is the only way to write a number without leading zeros. */
  lemma {:induction false} PrintNatUnique(s: string)
    requires AllDigits(s) && s != [] && (|s| > 1 ==> s[0] != '0')
    ensures PrintNat(DecimalValue(s)) == s
  {
    hide PrintNat;
    var init, d := s[..|s| - 1], s[|s| - 1];
    assert s == init + [d] && IsDigit(d);
    if init == [] {
      assert DecimalValue(init) == 0;
      PrintDigit(d);
    } else {
      PrintNatUnique(init);
      NonZero(init);
      PrintSnoc(DecimalValue(init), d);
    }
  }

  lemma PrintDigit(d: char)
    requires IsDigit(d)
    ensures PrintNat((d - '0') as nat) == [d]
  {
  }

  lemma PrintSnoc(n: nat, d: char)
    requires n > 0 && IsDigit(d)
    ensures PrintNat(10 * n + (d - '0') as nat) == PrintNat(n) + [d]
  {
    var m := 10 * n + (d - '0') as nat;
    assert m / 10 == n && m % 10 == (d - '0') as nat;
  }

  lemma {:induction false} NonZero(s: string)
    requires AllDigits(s) && s != [] && s[0] != '0'
    ensures DecimalValue(s) > 0
  {
    var init := s[..|s| - 1];
    if init != [] {
      NonZero(init);
    } else {
      assert DecimalValue(init) == 0;
    }
  }

  function LeadingZeros(k: nat): string {
    seq(k, _ => '0')
  }

  lemma {:induction false} ZerosBefore(k: nat, s: string)
    requires AllDigits(s)
    ensures AllDigits(LeadingZeros(k) + s) && DecimalValue(LeadingZeros(k) + s) == DecimalValue(s)
  {
    var t := LeadingZeros(k) + s;
    if s != [] {
      assert t[..|t| - 1] == LeadingZeros(k) + s[..|s| - 1];
      ZerosBefore(k, s[..|s| - 1]);
    } else if k > 0 {
      assert t[..|t| - 1] == LeadingZeros(k - 1) + s;
      ZerosBefore(k - 1, s);
    }
  }

  lemma {:induction false} StripZeros(s: string) returns (k: nat)
    requires AllDigits(s) && s != []
    ensures s == LeadingZeros(k) + PrintNat(DecimalValue(s))
  {
    if |s| == 1 || s[0] != '0' {
      k := 0;
      PrintNatUnique(s);
    } else {
      var rest := s[1..];
      var k' := StripZeros(rest);
      k := k' + 1;
      assert s == LeadingZeros(1) + rest;
      ZerosBefore(1, rest);
      assert LeadingZeros(k) == LeadingZeros(1) + LeadingZeros(k');
    }
  }

  /** What is read as a number: its digits, after any number of zeros, and nothing over `max`. */
  lemma ParseNatExact(s: string, max: nat, n: nat)
    ensures ParseNat(s, max) == Some(n) <==> n <= max && Numeral(s, n)
    ensures Numeral(s, n) ==> AllDigits(s) && s != []
  {
    if ParseNat(s, max) == Some(n) {
      var k := StripZeros(s);
    }
    if k: nat :| s == LeadingZeros(k) + PrintNat(n) {
      ZerosBefore(k, PrintNat(n));
    }
  }

  /** The text is the number, with or without leading zeros. */
  ghost predicate Numeral(s: string, n: nat) {
    exists k: nat :: s == LeadingZeros(k) + PrintNat(n)
  }

  lemma PrintNatInjective(m: nat, n: nat)
    requires PrintNat(m) == PrintNat(n)
    ensures m == n
  {
    assert DecimalValue(PrintNat(m)) == m;
  }

  /** ASCII lower case of one character. */
  function Lower(c: char): char {
    if 'A' <= c <= 'Z' then c - 'A' + 'a' else c
  }

  function LowerAll(s: string): (r: string)
    ensures |r| == |s|
  {
    seq(|s|, i requires 0 <= i < |s| => Lower(s[i]))
  }
}
