/** C strings, decimal numbers and lines, as the programs print and read them. */
module CText {
  import opened Runs

  const NUL := '\0'
  const SIZE_MAX := 0xFFFF_FFFF_FFFF_FFFF   // size_t
  const LONG_MAX := 0x7FFF_FFFF_FFFF_FFFF   // what ftell can return

  /** The part of a buffer that string functions see. */
  function CString(text: string): (s: string)
    ensures s <= text
  {
    if text == "" || text[0] == NUL then "" else [text[0]] + CString(text[1..])
  }

  // ---------- Numbers ----------

  predicate IsDigit(c: char) { '0' <= c <= '9' }

  function DigitValue(c: char): (v: nat)
    requires IsDigit(c)
    ensures v < 10 && '0' + v as char == c
  {
    (c - '0') as nat
  }

  function Decimal(n: nat): (ds: string)
    ensures ds != "" && forall i :: 0 <= i < |ds| ==> IsDigit(ds[i])
  {
    if n < 10 then ['0' + n as char] else Decimal(n / 10) + ['0' + (n % 10) as char]
  }

  function Value(ds: string): nat
    requires forall i :: 0 <= i < |ds| ==> IsDigit(ds[i])
  {
    if ds == "" then 0 else 10 * Value(ds[..|ds| - 1]) + DigitValue(ds[|ds| - 1])
  }

  lemma {:induction false} ValueOfDecimal(n: nat)
    ensures Value(Decimal(n)) == n
  {
    if 10 <= n {
      var ds := Decimal(n / 10) + ['0' + (n % 10) as char];
      assert ds[..|ds| - 1] == Decimal(n / 10);
      ValueOfDecimal(n / 10);
    } else {
      assert Decimal(n)[..0] == "";
    }
  }

  function Power10(k: nat): nat { if k == 0 then 1 else 10 * Power10(k - 1) }

  lemma {:induction false} DecimalLength(n: nat, k: nat)
    requires 0 < k && n < Power10(k)
    ensures |Decimal(n)| <= k
  {
    if 10 <= n {
      DecimalLength(n / 10, k - 1);
    }
  }

  lemma ThousandTimes(k: nat)
    ensures Power10(k + 3) == 1000 * Power10(k)
  {
    assert Power10(k + 3) == 10 * Power10(k + 2) && Power10(k + 2) == 10 * Power10(k + 1);
  }

  function DigitRun(s: string): (n: nat)
    ensures n <= |s| && (forall i :: 0 <= i < n ==> IsDigit(s[i]))
    ensures n < |s| ==> !IsDigit(s[n])
  {
    if s == "" || !IsDigit(s[0]) then 0 else 1 + DigitRun(s[1..])
  }

  /** isspace */
  predicate IsSpace(c: char) { c == ' ' || '\t' <= c <= '\r' }

  function SkipSpace(s: string): (r: string)
    ensures |r| <= |s| && (r != "" ==> !IsSpace(r[0]))
  {
    if s != "" && IsSpace(s[0]) then SkipSpace(s[1..]) else s
  }

  /** What a number in a text counts as: one too large gives the largest size, a minus sign negates modulo 2^64. */
  function SizeOf(n: nat, negative: bool): nat {
    if n > SIZE_MAX then SIZE_MAX else if negative && 0 < n then SIZE_MAX + 1 - n else n
  }

  lemma NegatedModulo(n: nat)
    requires n <= SIZE_MAX
    ensures (SizeOf(n, true) + n) % 0x1_0000_0000_0000_0000 == 0 && SizeOf(n, true) <= SIZE_MAX
  {}

  /**
   %zu: white space, a sign, digits, and what follows them; a number too large gives SIZE_MAX, a minus sign
   negates modulo 2^64.
   */
  function ScanSize(s: string): Option<(nat, string)> {
    var t := SkipSpace(s);
    var signed := t != "" && (t[0] == '+' || t[0] == '-');
    var ds := if signed then t[1..] else t;
    var n := DigitRun(ds);
    if n == 0 then None
    else
      Some((SizeOf(Value(ds[..n]), signed && t[0] == '-'), ds[n..]))
  }

  lemma {:induction false} DigitRunBefore(ds: string, rest: string)
    requires (forall i :: 0 <= i < |ds| ==> IsDigit(ds[i])) && (rest == "" || !IsDigit(rest[0]))
    ensures DigitRun(ds + rest) == |ds|
  {
    if ds == "" {
      assert ds + rest == rest;
    } else {
      assert (ds + rest)[1..] == ds[1..] + rest;
      DigitRunBefore(ds[1..], rest);
    }
  }

  /** A printed size is read back, whatever non-digit follows it. */
  lemma SizeBack(n: nat, rest: string)
    requires n <= SIZE_MAX && (rest == "" || !IsDigit(rest[0]))
    ensures ScanSize(Decimal(n) + rest) == Some((n, rest))
  {
    var ds := Decimal(n);
    var s := ds + rest;
    assert s[0] == ds[0] && IsDigit(ds[0]);
    assert SkipSpace(s) == s;
    DigitRunBefore(ds, rest);
    assert s[..|ds|] == ds && s[|ds|..] == rest;
    ValueOfDecimal(n);
  }

  lemma UnsignedSize(space: string, n: nat)
    requires forall i :: 0 <= i < |space| ==> IsSpace(space[i])
    ensures ScanSize(space + Decimal(n)) == Some((SizeOf(n, false), ""))
  {
    var ds := Decimal(n);
    assert IsDigit(ds[0]);
    SkipBefore(space, ds);
    WholeRun(ds);
    ValueOfDecimal(n);
  }

  lemma SignedSize(space: string, negative: bool, n: nat)
    requires forall i :: 0 <= i < |space| ==> IsSpace(space[i])
    ensures ScanSize(space + ([Sign(negative)] + Decimal(n))) == Some((SizeOf(n, negative), ""))
  {
    var s, ds := space + ([Sign(negative)] + Decimal(n)), Decimal(n);
    SkipBefore(space, [Sign(negative)] + ds);
    WholeRun(ds);
    ValueOfDecimal(n);
    SignedDigits(s, [Sign(negative)] + ds, ds, negative);
  }

  function Sign(negative: bool): char { if negative then '-' else '+' }

  lemma WholeRun(ds: string)
    requires forall i :: 0 <= i < |ds| ==> IsDigit(ds[i])
    ensures DigitRun(ds) == |ds| && ds[..|ds|] == ds && ds[|ds|..] == ""
  {
    DigitRunBefore(ds, "");
    assert ds + "" == ds;
  }

  lemma SignedDigits(s: string, t: string, ds: string, negative: bool)
    requires SkipSpace(s) == t == [Sign(negative)] + ds && ds != "" && forall i :: 0 <= i < |ds| ==> IsDigit(ds[i])
    requires DigitRun(ds) == |ds| && ds[..|ds|] == ds && ds[|ds|..] == ""
    ensures ScanSize(s) == Some((SizeOf(Value(ds), negative), ""))
  {
    assert t[0] == Sign(negative) && t[1..] == ds;
  }

  lemma {:induction false} SkipBefore(space: string, t: string)
    requires (forall i :: 0 <= i < |space| ==> IsSpace(space[i])) && t != "" && !IsSpace(t[0])
    ensures SkipSpace(space + t) == t
  {
    if space == "" {
      assert space + t == t;
    } else {
      assert (space + t)[1..] == space[1..] + t;
      SkipBefore(space[1..], t);
    }
  }

  lemma DecimalFits(n: nat)
    requires n <= LONG_MAX
    ensures |Decimal(n)| <= 19
  {
    ThousandTimes(0);
    ThousandTimes(3);
    ThousandTimes(6);
    ThousandTimes(9);
    ThousandTimes(12);
    ThousandTimes(15);
    DecimalLength(n, 19);
  }

  // ---------- Lines ----------

  function LineLength(s: string): (n: nat)
    ensures n <= |s| && (forall i :: 0 <= i < n ==> s[i] != '\n')
    ensures n < |s| ==> s[n] == '\n'
  {
    if s == "" || s[0] == '\n' then 0 else 1 + LineLength(s[1..])
  }

  lemma LineOf(line: string, rest: string)
    requires forall i :: 0 <= i < |line| ==> line[i] != '\n'
    ensures LineLength(line + "\n" + rest) == |line|
  {
    var s := line + "\n" + rest;
    assert s[|line|] == '\n' && forall i :: 0 <= i < |line| ==> s[i] == line[i];
  }
}
