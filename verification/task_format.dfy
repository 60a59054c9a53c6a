/** The text of tasks and results: doubles as "%.15lf", taken here as exact reals, and counts as "%zu". */
module TaskFormat {
  import opened CText
  import opened Runs
  import opened Sequences

  const SCALE := 1_000_000_000_000_000   // 10^15

  // ---------- printf("%.15lf") ----------

  /** To the nearest integer, halves to the even one. */
  function RoundHalfEven(y: real): (n: int)
    ensures -0.5 <= n as real - y <= 0.5
    ensures y == y.Floor as real ==> n == y.Floor
    ensures y - y.Floor as real == 0.5 ==> n % 2 == 0
  {
    var f := y.Floor;
    var d := y - f as real;
    if d < 0.5 || (d == 0.5 && f % 2 == 0) then f else f + 1
  }

  function Abs(x: real): real { if x < 0.0 then -x else x }

  function Scaled(x: real): real { x * 1_000_000_000_000_000.0 }

  /** |x| in units of 10^-15. */
  function Units(x: real): (n: nat) { RoundHalfEven(Scaled(Abs(x))) }

  /** Exactly k digits. */
  function Padded(n: nat, k: nat): (ds: string)
    ensures |ds| == k && forall i :: 0 <= i < k ==> IsDigit(ds[i])
    decreases k
  {
    if k == 0 then "" else Padded(n / 10, k - 1) + ['0' + (n % 10) as char]
  }

  function WithSign(negative: bool, text: string): string { if negative then "-" + text else text }

  /** q + r * 10^-15, with a sign. */
  function PrintUnits(negative: bool, q: nat, r: nat): string {
    WithSign(negative, Decimal(q) + (['.'] + Padded(r, 15)))
  }

  function PrintReal(x: real): string { PrintUnits(x < 0.0, Units(x) / SCALE, Units(x) % SCALE) }

  function OfUnits(u: nat): real { u as real / 1_000_000_000_000_000.0 }

  /** The multiple of 10^-15 that is printed for x. */
  function Printed(x: real): real {
    if x < 0.0 then -OfUnits(Units(x)) else OfUnits(Units(x))
  }

  predicate IsMultiple(x: real) { Scaled(x) == Scaled(x).Floor as real }

  /** Printing is exact on multiples of 10^-15 and otherwise off by no more than half a unit. */
  lemma PrintedIsNear(x: real)
    ensures Scaled(Abs(Printed(x) - x)) <= 0.5
    ensures IsMultiple(x) <==> Printed(x) == x
  {
    var u: int := Units(x);
    var p := if x < 0.0 then -u else u;
    assert Scaled(Printed(x)) == p as real;
    assert Scaled(Abs(Printed(x) - x)) == Abs(u as real - Scaled(Abs(x)));
    if IsMultiple(x) {
      var k := Scaled(x).Floor;
      assert Scaled(Abs(x)) == (if x < 0.0 then -k else k) as real;
    }
    if Printed(x) == x {
      assert Scaled(x) == p as real;
    }
  }

  // ---------- scanf("%lf") ----------

  /** The parts of a decimal number: sign, digits before and digits after the point. */
  datatype Numeral = Numeral(negative: bool, whole: string, fraction: string)

  predicate Digits(ds: string) { forall i :: 0 <= i < |ds| ==> IsDigit(ds[i]) }

  predicate Valid(n: Numeral) { Digits(n.whole) && Digits(n.fraction) }

  lemma {:induction false} PowerPositive(k: nat)
    ensures 0 < Power10(k)
  {
    if 0 < k { PowerPositive(k - 1); }
  }

  function NumeralValue(n: Numeral): real
    requires Valid(n)
  {
    PowerPositive(|n.fraction|);
    var v := Value(n.whole) as real + Value(n.fraction) as real / Power10(|n.fraction|) as real;
    if n.negative then -v else v
  }

  /** Digits with or without a point; and what follows.  No exponents. */
  function ScanUnsigned(s: string): (r: Option<(Numeral, string)>)
    ensures r.Some? ==> Valid(r.value.0)
  {
    var n := DigitRun(s);
    if n < |s| && s[n] == '.' then
      var e := n + 1 + DigitRun(s[n + 1..]);
      if e == 1 then None else Some((Numeral(false, s[..n], s[n + 1..e]), s[e..]))
    else if n == 0 then None
    else Some((Numeral(false, s[..n], ""), s[n..]))
  }

  /** White space, a sign and a number. */
  function ScanNumeral(s: string): (r: Option<(Numeral, string)>)
    ensures r.Some? ==> Valid(r.value.0)
  {
    var t := SkipSpace(s);
    var signed := t != "" && (t[0] == '+' || t[0] == '-');
    var r := ScanUnsigned(if signed then t[1..] else t);
    if r.None? then None else Some((r.value.0.(negative := signed && t[0] == '-'), r.value.1))
  }

  /** %lf */
  function ScanReal(s: string): Option<(real, string)> {
    var r := ScanNumeral(s);
    if r.None? then None else Some((NumeralValue(r.value.0), r.value.1))
  }

  lemma {:induction false} ValueOfPadded(n: nat, k: nat)
    requires n < Power10(k)
    ensures Value(Padded(n, k)) == n
    decreases k
  {
    if 0 < k {
      var ds := Padded(n, k);
      assert ds[..|ds| - 1] == Padded(n / 10, k - 1);
      ValueOfPadded(n / 10, k - 1);
    }
  }

  lemma ScaleIsPower()
    ensures Power10(15) == SCALE
  {
    ThousandTimes(0);
    ThousandTimes(3);
    ThousandTimes(6);
    ThousandTimes(9);
    ThousandTimes(12);
  }

  lemma {:induction false} DigitRunIs(s: string, k: nat)
    requires k <= |s| && (forall i :: 0 <= i < k ==> IsDigit(s[i])) && (k < |s| ==> !IsDigit(s[k]))
    ensures DigitRun(s) == k
  {
    if 0 < k { DigitRunIs(s[1..], k - 1); }
  }

  lemma ScanParts(a: string, b: string, rest: string)
    requires a != "" && Digits(a) && Digits(b) && (rest == "" || !IsDigit(rest[0]))
    ensures ScanUnsigned(a + (['.'] + (b + rest))) == Some((Numeral(false, a, b), rest))
  {
    var s := a + (['.'] + (b + rest));
    Parts(a, '.', b, rest);
    DigitRunIs(s, |a|);
    DigitRunIs(b + rest, |b|);
  }

  lemma ScanSigned(s: string)
    requires s != "" && IsDigit(s[0]) && ScanUnsigned(s).Some?
    ensures var r := ScanUnsigned(s).value;
            && ScanNumeral(s) == Some((r.0.(negative := false), r.1))
            && ScanNumeral("-" + s) == Some((r.0.(negative := true), r.1))
  {
    var t := "-" + s;
    assert t[0] == '-' && t[1..] == s;
  }

  lemma FirstOf(a: string, rest: string)
    requires a != ""
    ensures a + rest != "" && (a + rest)[0] == a[0]
  {}

  lemma SignedBack(negative: bool, a: string, b: string, rest: string)
    requires a != "" && Digits(a) && Digits(b) && (rest == "" || !IsDigit(rest[0]))
    ensures ScanNumeral(WithSign(negative, a + (['.'] + b)) + rest) == Some((Numeral(negative, a, b), rest))
  {
    var s := a + (['.'] + (b + rest));
    ScanParts(a, b, rest);
    FirstOf(a, ['.'] + (b + rest));
    ScanSigned(s);
    Assoc(a, ['.'] + b, rest);
    Assoc(['.'], b, rest);
    Assoc("-", a + (['.'] + b), rest);
  }

  lemma NumeralOfUnits(negative: bool, q: nat, r: nat)
    requires r < SCALE
    ensures var n := Numeral(negative, Decimal(q), Padded(r, 15));
            var v := q as real + OfUnits(r);
            Valid(n) && NumeralValue(n) == if negative then -v else v
  {
    ValueOfDecimal(q);
    ScaleIsPower();
    ValueOfPadded(r, 15);
  }

  lemma SumOfParts(u: nat)
    ensures (u / SCALE) as real + OfUnits(u % SCALE) == OfUnits(u)
  {
    var q, r := u / SCALE, u % SCALE;
    assert u == q * 1_000_000_000_000_000 + r;
  }

  /** Whatever non-digit follows the text, %lf reads v and stops behind it. */
  ghost predicate ReadsAs(text: string, v: real) {
    forall rest: string :: rest == "" || !IsDigit(rest[0]) ==> ScanReal(text + rest) == Some((v, rest))
  }

  lemma UnitsBack(negative: bool, q: nat, r: nat, v: real)
    requires r < SCALE && v == (if negative then -(q as real + OfUnits(r)) else q as real + OfUnits(r))
    ensures ReadsAs(PrintUnits(negative, q, r), v)
  {
    forall rest: string | rest == "" || !IsDigit(rest[0])
      ensures ScanReal(PrintUnits(negative, q, r) + rest) == Some((v, rest))
    {
      SignedBack(negative, Decimal(q), Padded(r, 15), rest);
      NumeralOfUnits(negative, q, r);
    }
  }

  /** A printed real is read back as the printed value. */
  lemma RealBack(x: real)
    ensures ReadsAs(PrintReal(x), Printed(x))
  {
    var u := Units(x);
    SumOfParts(u);
    UnitsBack(x < 0.0, u / SCALE, u % SCALE, Printed(x));
  }

  // ---------- Tasks and results ----------

  datatype Task = Task(xMin: real, xMax: real, yMin: real, yMax: real, points: nat)

  datatype Result = Result(integral: real, inside: nat, total: nat)

  function TaskText(t: Task): string {
    "TASK:" + (PrintReal(t.xMin) + (":" + (PrintReal(t.xMax) + (":" + (PrintReal(t.yMin) + (":" + (PrintReal(t.yMax) +
    (":" + Decimal(t.points)))))))))
  }

  function ResultText(r: Result): string {
    "RESULT:" + (PrintReal(r.integral) + (":" + (Decimal(r.inside) + (":" + Decimal(r.total)))))
  }

  /** snprintf into a buffer of the given size: None stands for -1. */
  function SerializeTask(t: Task, size: nat): Option<string> {
    if |TaskText(t)| >= size then None else Some(TaskText(t))
  }

  function SerializeResult(r: Result, size: nat): Option<string> {
    if |ResultText(r)| >= size then None else Some(ResultText(r))
  }

  lemma RealLength(x: real)
    requires Abs(x) <= Power10(309) as real
    ensures |PrintReal(x)| <= 327
  {
    var u := Units(x);
    ScaleIsPower();
    WholePart(x, Power10(309));
    PowerPositive(309);
    DecimalLength(u / SCALE, 310);
  }

  lemma WholePart(x: real, most: nat)
    requires Abs(x) <= most as real
    ensures Units(x) / SCALE <= most
  {
    var u := Units(x);
    assert u as real <= Scaled(Abs(x)) + 0.5 <= Scaled(most as real) + 0.5;
    assert Scaled(most as real) == (most * 1_000_000_000_000_000) as real;
    assert u <= most * 1_000_000_000_000_000;
    QuotientBelow(u, most, SCALE);
  }

  lemma QuotientBelow(u: nat, most: nat, m: nat)
    requires 0 < m && u <= most * m
    ensures u / m <= most
  {
    var q := u / m;
    assert q * m <= u;
    assert most < q ==> (most + 1) * m <= q * m;
  }

  lemma SizeLength(n: nat)
    requires n <= SIZE_MAX
    ensures |Decimal(n)| <= 20
  {
    ThousandTimes(0);
    ThousandTimes(3);
    ThousandTimes(6);
    ThousandTimes(9);
    ThousandTimes(12);
    ThousandTimes(15);
    assert Power10(20) == 10 * Power10(19) && Power10(19) == 10 * Power10(18);
    DecimalLength(n, 20);
  }

  /** What doubles can express always fits the buffers of 4096 bytes; a text that needs them all does not fit. */
  lemma TasksAlwaysFit(t: Task)
    requires Abs(t.xMin) <= Power10(309) as real && Abs(t.xMax) <= Power10(309) as real
    requires Abs(t.yMin) <= Power10(309) as real && Abs(t.yMax) <= Power10(309) as real && t.points <= SIZE_MAX
    ensures SerializeTask(t, 4096).Some?
    ensures SerializeTask(t, |TaskText(t)| + 1).Some? && SerializeTask(t, |TaskText(t)|).None?
  {
    RealLength(t.xMin);
    RealLength(t.xMax);
    RealLength(t.yMin);
    RealLength(t.yMax);
    SizeLength(t.points);
  }

  lemma ResultsAlwaysFit(r: Result)
    requires Abs(r.integral) <= Power10(309) as real && r.inside <= SIZE_MAX && r.total <= SIZE_MAX
    ensures SerializeResult(r, 4096).Some?
    ensures SerializeResult(r, |ResultText(r)| + 1).Some? && SerializeResult(r, |ResultText(r)|).None?
  {
    RealLength(r.integral);
    SizeLength(r.inside);
    SizeLength(r.total);
  }

  /** A real and the colon after it. */
  function ScanField(s: string): Option<(real, string)> {
    var r := ScanReal(s);
    if r.None? || r.value.1 == "" || r.value.1[0] != ':' then None else Some((r.value.0, r.value.1[1..]))
  }

  function DeserializeTask(s: string): Option<Task> {
    if !("TASK:" <= s) then None
    else
      var a := ScanField(s[5..]);
      if a.None? then None
      else
        var b := ScanField(a.value.1);
        if b.None? then None
        else
          var c := ScanField(b.value.1);
          if c.None? then None
          else
            var d := ScanField(c.value.1);
            if d.None? then None
            else
              var n := ScanSize(d.value.1);
              if n.None? then None else Some(Task(a.value.0, b.value.0, c.value.0, d.value.0, n.value.0))
  }

  function DeserializeResult(s: string): Option<Result> {
    if !("RESULT:" <= s) then None
    else
      var v := ScanField(s[7..]);
      if v.None? then None
      else
        var inside := ScanSize(v.value.1);
        if inside.None? || inside.value.1 == "" || inside.value.1[0] != ':' then None
        else
          var total := ScanSize(inside.value.1[1..]);
          if total.None? then None else Some(Result(v.value.0, inside.value.0, total.value.0))
  }

  lemma FieldBack(x: real, rest: string)
    ensures ScanField(PrintReal(x) + (":" + rest)) == Some((Printed(x), rest))
  {
    RealBack(x);
    assert (":" + rest)[1..] == rest;
  }

  /** A task that fits its buffer arrives with its bounds as printed and its count exactly. */
  lemma TaskRoundTrip(t: Task, size: nat)
    requires t.points <= SIZE_MAX
    ensures SerializeTask(t, size).Some? ==>
              DeserializeTask(SerializeTask(t, size).value) ==
              Some(Task(Printed(t.xMin), Printed(t.xMax), Printed(t.yMin), Printed(t.yMax), t.points))
  {
    var e := Decimal(t.points);
    var d := PrintReal(t.yMax) + (":" + e);
    var c := PrintReal(t.yMin) + (":" + d);
    var b := PrintReal(t.xMax) + (":" + c);
    var a := PrintReal(t.xMin) + (":" + b);
    assert TaskText(t) == "TASK:" + a && TaskText(t)[5..] == a;
    FieldBack(t.xMin, b);
    FieldBack(t.xMax, c);
    FieldBack(t.yMin, d);
    FieldBack(t.yMax, e);
    assert e + "" == e;
    SizeBack(t.points, "");
  }

  lemma ResultRoundTrip(r: Result, size: nat)
    requires r.inside <= SIZE_MAX && r.total <= SIZE_MAX
    ensures SerializeResult(r, size).Some? ==>
              DeserializeResult(SerializeResult(r, size).value) == Some(Result(Printed(r.integral), r.inside, r.total))
  {
    var c := Decimal(r.total);
    var b := Decimal(r.inside) + (":" + c);
    var a := PrintReal(r.integral) + (":" + b);
    assert ResultText(r) == "RESULT:" + a && ResultText(r)[7..] == a;
    FieldBack(r.integral, b);
    SizeBack(r.inside, ":" + c);
    assert (":" + c)[1..] == c == c + "";
    SizeBack(r.total, "");
  }
}
