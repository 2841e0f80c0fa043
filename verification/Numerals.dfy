/** Decimal numerals: `str(n)` and `int(v)` of Python 3.12, over ASCII digits. */
module Numerals {
  import opened Wrappers

  /** CPython refuses to convert a numeral with more digits than this. */
  const MAX_DIGITS := 4300

  predicate IsDigit(c: char) {
    '0' <= c <= '9'
  }

  function DigitValue(c: char): (d: nat)
    requires IsDigit(c)
    ensures d < 10
  {
    c as int - '0' as int
  }

  predicate AllDigits(s: string) {
    forall i :: 0 <= i < |s| ==> IsDigit(s[i])
  }

  function ValueOf(digits: string): nat
    requires AllDigits(digits)
  {
    if digits == "" then 0 else
      var n := |digits| - 1;
      10 * ValueOf(digits[..n]) + DigitValue(digits[n])
  }

  function PrintNat(n: nat): (s: string)
    ensures s != "" && AllDigits(s)
  {
    var last := '0' + (n % 10) as char;
    if n < 10 then [last] else PrintNat(n / 10) + [last]
  }

  /** `str(n)` */
  function PrintInt(n: int): string {
    if n < 0 then "-" + PrintNat(-n) else PrintNat(n)
  }

  /** Digits in groups separated by single underscores, as in `1_000`. */
  predicate IsNumeral(s: string) {
    && s != "" && IsDigit(s[0]) && IsDigit(s[|s| - 1])
    && (forall i :: 0 <= i < |s| ==> IsDigit(s[i]) || s[i] == '_')
    && (forall i, j :: 0 <= i < |s| && 0 <= j < |s| && j == i + 1 ==> s[i] != '_' || s[j] != '_')
  }

  function DigitsOf(s: string): (r: string)
    ensures AllDigits(r) && |r| <= |s|
  {
    if s == "" then ""
    else if IsDigit(s[0]) then [s[0]] + DigitsOf(s[1..])
    else DigitsOf(s[1..])
  }

  function Magnitude(body: string): Option<nat> {
    var digits := DigitsOf(body);
    if IsNumeral(body) && |digits| <= MAX_DIGITS then Some(ValueOf(digits)) else None
  }

  /** `int(v)` on stripped text, with `None` for `ValueError`. */
  function ParseInt(v: string): Option<int> {
    if v != "" && (v[0] == '+' || v[0] == '-') then
      match Magnitude(v[1..])
      case None => None
      case Some(n) =>
        var m: int := n;
        Some(if v[0] == '-' then -m else m)
    else Magnitude(v)
  }

  /** The integers `int` can produce and `str` can print: at most `MAX_DIGITS` digits. */
  predicate Printable(n: int) {
    |PrintNat(if n < 0 then -n else n)| <= MAX_DIGITS
  }

  lemma {:induction false} ValueOfPrint(n: nat)
    ensures ValueOf(PrintNat(n)) == n
  {
    var s := PrintNat(n);
    if n >= 10 {
      ValueOfPrint(n / 10);
      assert s[..|s| - 1] == PrintNat(n / 10);
    }
    assert DigitValue(s[|s| - 1]) == n % 10;
  }

  lemma {:induction false} DigitsOfDigits(s: string)
    requires AllDigits(s)
    ensures DigitsOf(s) == s
  {
    if s != "" {
      DigitsOfDigits(s[1..]);
    }
  }

  /** No numeral is shorter than the printed form of its value. */
  lemma {:induction false} PrintIsShortest(digits: string)
    requires AllDigits(digits) && digits != ""
    ensures |PrintNat(ValueOf(digits))| <= |digits|
  {
    var n := |digits| - 1;
    var v := ValueOf(digits);
    if v >= 10 {
      assert v / 10 == ValueOf(digits[..n]);
      if n > 0 {
        PrintIsShortest(digits[..n]);
      }
    }
  }

  /** Every TTL the API admits can be printed. */
  lemma RequestTtlsArePrintable(ttl: int)
    requires 60 <= ttl <= 86400
    ensures Printable(ttl)
  {
    assert |PrintNat(ttl / 1000)| <= 2;
    assert ttl / 10 / 10 / 10 == ttl / 1000;
    assert |PrintNat(ttl / 10 / 10)| <= 3;
    assert |PrintNat(ttl / 10)| <= 4;
  }

  lemma MagnitudeOfPrint(n: nat)
    ensures Magnitude(PrintNat(n)) == if |PrintNat(n)| <= MAX_DIGITS then Some(n) else None
  {
    ValueOfPrint(n);
    DigitsOfDigits(PrintNat(n));
  }

  /** `int(str(n)) == n`, exactly for the integers CPython converts. */
  lemma ParsePrinted(n: int)
    ensures ParseInt(PrintInt(n)) == if Printable(n) then Some(n) else None
  {
    if n < 0 {
      MagnitudeOfPrint(-n);
      assert ("-" + PrintNat(-n))[1..] == PrintNat(-n);
    } else {
      MagnitudeOfPrint(n);
      assert IsDigit(PrintNat(n)[0]);
    }
  }

  lemma {:induction false} DigitsOfConcat(a: string, b: string)
    ensures DigitsOf(a + b) == DigitsOf(a) + DigitsOf(b)
  {
    if a == "" {
      assert a + b == b;
    } else {
      assert (a + b)[1..] == a[1..] + b;
      DigitsOfConcat(a[1..], b);
    }
  }

  lemma GroupsAreNumeral(a: string, b: string)
    requires AllDigits(a) && a != "" && AllDigits(b) && b != ""
    ensures IsNumeral(a + b) && IsNumeral(a + "_" + b)
  {
    var s, t := a + b, a + "_" + b;
    assert s[0] == t[0] == a[0] && s[|s| - 1] == t[|t| - 1] == b[|b| - 1];
    assert forall i :: 0 <= i < |t| && i != |a| ==> IsDigit(t[i]);
  }

  lemma DigitsOfGroups(a: string, b: string)
    requires AllDigits(a) && AllDigits(b)
    ensures DigitsOf(a + b) == DigitsOf(a + "_" + b) == a + b
  {
    DigitsOfDigits(a + b);
    DigitsOfDigits(a);
    DigitsOfDigits(b);
    DigitsOfConcat(a + "_", b);
    DigitsOfConcat(a, "_");
    assert "_"[1..] == "" && DigitsOf("_") == "" && a + "" == a;
  }

  lemma MagnitudeOfGroups(a: string, b: string)
    requires AllDigits(a) && a != "" && AllDigits(b) && b != "" && |a + b| <= MAX_DIGITS
    ensures Magnitude(a + b) == Magnitude(a + "_" + b) == Some(ValueOf(a + b))
  {
    GroupsAreNumeral(a, b);
    DigitsOfGroups(a, b);
  }

  /** The text is read as this number, on its own and behind a sign. */
  predicate ReadsAs(body: string, n: int) {
    ParseInt(body) == ParseInt("+" + body) == Some(n) && ParseInt("-" + body) == Some(-n)
  }

  lemma SignedMagnitude(body: string, n: nat)
    requires Magnitude(body) == Some(n)
    ensures ReadsAs(body, n)
  {
    assert ("+" + body)[1..] == body && ("-" + body)[1..] == body;
  }

  /** Digits mean their value, leading zeros or not; one underscore between two of them changes
      nothing; a sign in front is allowed. */
  lemma NumeralsAreRead(a: string, b: string)
    requires AllDigits(a) && a != "" && AllDigits(b) && b != "" && |a + b| <= MAX_DIGITS
    ensures ReadsAs(a + b, ValueOf(a + b)) && ReadsAs(a + "_" + b, ValueOf(a + b))
  {
    MagnitudeOfGroups(a, b);
    SignedMagnitude(a + b, ValueOf(a + b));
    SignedMagnitude(a + "_" + b, ValueOf(a + b));
  }

  lemma NoNumeral(s: string, k: nat)
    requires k < |s| && !IsDigit(s[k]) && s[k] != '_'
    ensures Magnitude(s) == None
  {
    assert !IsNumeral(s);
  }

  /** A text with anything in it but digits and underscores, and a sign at the front, is refused. */
  lemma OthersAreRefused(v: string, k: nat)
    requires k < |v| && !IsDigit(v[k]) && v[k] != '_' && (k == 0 ==> v[0] != '+' && v[0] != '-')
    ensures ParseInt(v) == None
  {
    NoNumeral(v, k);
    if k > 0 {
      NoNumeral(v[1..], k - 1);
    }
  }

  lemma MagnitudeIsPrintable(body: string)
    ensures Magnitude(body).Some? ==> Printable(Magnitude(body).value)
  {
    if Magnitude(body).Some? {
      assert DigitsOf(body) != "";
      PrintIsShortest(DigitsOf(body));
    }
  }

  /** Whatever `int` accepts, `str` can print again. */
  lemma ParsedIsPrintable(v: string)
    ensures ParseInt(v).Some? ==> Printable(ParseInt(v).value)
  {
    MagnitudeIsPrintable(v);
    if v != "" {
      MagnitudeIsPrintable(v[1..]);
    }
  }

  /** A printed integer starts and ends in a visible character and has no underscore. */
  lemma PrintedShape(n: int)
    ensures PrintInt(n) != ""
    ensures forall i :: 0 <= i < |PrintInt(n)| ==> IsDigit(PrintInt(n)[i]) || PrintInt(n)[i] == '-'
  {
  }
}
