/** Decimal text conversions of the C library as the script uses them:
    `atoi` and `atol` (C11 section 7.22.1.2, defined through `strtol` with
    base 10, section 7.22.1.4) and `sprintf` with the `%d` conversion
    (C11 section 7.21.6.1). Integers are unbounded here: the widths of
    `int` and `long` are not modelled. */
module CDecimal {

  /** The white-space characters of `isspace` in the "C" locale (C11 section 7.4.1.10). */
  predicate IsSpace(c: char) {
    c == ' ' || c == '\t' || c == '\n' || c == '\U{B}' || c == '\U{C}' || c == '\r'
  }

  predicate IsDigit(c: char) {
    '0' <= c <= '9'
  }

  predicate AllDigits(s: string) {
    forall i :: 0 <= i < |s| ==> IsDigit(s[i])
  }

  function DigitValue(c: char): (d: nat)
    requires IsDigit(c)
    ensures d < 10
  {
    (c as int) - ('0' as int)
  }

  function DigitChar(d: nat): (c: char)
    requires d < 10
    ensures IsDigit(c) && DigitValue(c) == d
  {
    (('0' as int) + d) as char
  }

  /** The input with its leading white space removed. */
  function SkipSpace(s: string): (r: string) {
    if s != [] && IsSpace(s[0]) then SkipSpace(s[1..]) else s
  }

  /** The longest prefix of `s` made of decimal digits: the digits of the
      subject sequence of `strtol`. */
  function LeadingDigits(s: string): (r: string)
    ensures AllDigits(r)
  {
    if s != [] && IsDigit(s[0]) then [s[0]] + LeadingDigits(s[1..]) else []
  }

  /** The value of a digit string read most significant digit first; the empty string is 0. */
  function DigitsValue(ds: string): (r: nat)
    requires AllDigits(ds)
  {
    if ds == [] then 0 else DigitsValue(ds[..|ds| - 1]) * 10 + DigitValue(ds[|ds| - 1])
  }

  /** What `atoi` and `atol` return: leading white space is skipped, one
      optional sign is taken, then the longest run of digits is converted;
      when there is no digit at all, the result is 0. */
  function ParseDecimal(s: string): (r: int) {
    var t := SkipSpace(s);
    if t != [] && t[0] == '-' then -(DigitsValue(LeadingDigits(t[1..])) as int)
    else if t != [] && t[0] == '+' then DigitsValue(LeadingDigits(t[1..]))
    else DigitsValue(LeadingDigits(t))
  }

  /** The digits `%d` prints for a non-negative value. */
  function Digits(n: nat): (r: string) {
    if n < 10 then [DigitChar(n)] else Digits(n / 10) + [DigitChar(n % 10)]
  }

  /** The text `sprintf(buf, "%d", n)` writes: a minus sign for a negative value, then the digits of its magnitude. */
  function FormatDecimal(n: int): (r: string) {
    if n < 0 then ['-'] + Digits(-n) else Digits(n)
  }

  /** A decimal numeral as `%d` writes it: "0", or digits without a leading
      zero, optionally after a minus sign. */
  predicate IsCanonical(s: string) {
    s == "0"
    || (s != [] && s[0] != '-' && IsPositiveNumeral(s))
    || (|s| > 1 && s[0] == '-' && IsPositiveNumeral(s[1..]))
  }

  predicate IsPositiveNumeral(s: string) {
    s != [] && AllDigits(s) && s[0] != '0'
  }

  /** `%d` writes at least one digit and nothing but digits. */
  lemma {:induction false} DigitsAreDigits(n: nat)
    ensures |Digits(n)| > 0 && AllDigits(Digits(n))
  {
    if n >= 10 {
      DigitsAreDigits(n / 10);
    }
  }

  lemma {:induction false} DigitsValueOfDigits(n: nat)
    ensures AllDigits(Digits(n)) && DigitsValue(Digits(n)) == n
  {
    DigitsAreDigits(n);
    if n >= 10 {
      var ds := Digits(n);
      assert ds[..|ds| - 1] == Digits(n / 10);
      DigitsValueOfDigits(n / 10);
    }
  }

  lemma {:induction false} DigitsHasNoLeadingZero(n: nat)
    ensures n > 0 ==> Digits(n)[0] != '0'
    ensures n == 0 ==> Digits(n) == "0"
  {
    if n >= 10 {
      DigitsHasNoLeadingZero(n / 10);
    }
  }

  lemma {:induction false} LeadingDigitsOfDigitString(ds: string)
    requires AllDigits(ds)
    ensures LeadingDigits(ds) == ds
  {
    if ds != [] {
      LeadingDigitsOfDigitString(ds[1..]);
    }
  }

  /** Round trip: the text `%d` writes for `n` is read back by `atol` as `n`. */
  lemma {:induction false} ParseFormat(n: int)
    ensures ParseDecimal(FormatDecimal(n)) == n
  {
    var m: nat := if n < 0 then -n else n;
    var ds := Digits(m);
    DigitsAreDigits(m);
    ParseDigits(ds);
    DigitsValueOfDigits(m);
    if n < 0 {
      var s := ['-'] + ds;
      assert s[0] == '-' && s[1..] == ds;
      assert SkipSpace(s) == s;
    }
  }

  /** A digit string reads as its value, alone or after a minus sign. */
  lemma ParseDigits(ds: string)
    requires ds != [] && AllDigits(ds)
    ensures ParseDecimal(ds) == DigitsValue(ds)
    ensures ParseDecimal(['-'] + ds) == -(DigitsValue(ds) as int)
  {
    LeadingDigitsOfDigitString(ds);
    assert IsDigit(ds[0]);
    assert SkipSpace(ds) == ds;
    var s := ['-'] + ds;
    assert s[0] == '-' && s[1..] == ds;
    assert SkipSpace(s) == s;
  }

  /** What `%d` writes is canonical. */
  lemma FormatIsCanonical(n: int)
    ensures IsCanonical(FormatDecimal(n))
  {
    var m: nat := if n < 0 then -n else n;
    DigitsAreDigits(m);
    DigitsHasNoLeadingZero(m);
    if n < 0 {
      assert FormatDecimal(n)[1..] == Digits(m);
    }
  }

  lemma {:induction false} PositiveNumeralValue(ds: string)
    requires IsPositiveNumeral(ds)
    ensures DigitsValue(ds) >= 1
    ensures |ds| > 1 ==> DigitsValue(ds) >= 10
  {
    if |ds| > 1 {
      PositiveNumeralValue(ds[..|ds| - 1]);
    }
  }

  lemma {:induction false} DigitsOfValue(ds: string)
    requires IsPositiveNumeral(ds)
    ensures Digits(DigitsValue(ds)) == ds
  {
    var v := DigitsValue(ds);
    PositiveNumeralValue(ds);
    if |ds| > 1 {
      var front := ds[..|ds| - 1];
      DigitsOfValue(front);
      assert v / 10 == DigitsValue(front) && v % 10 == DigitValue(ds[|ds| - 1]);
      assert ds == front + [ds[|ds| - 1]];
    }
  }

  /** The other direction of the round trip: every canonical numeral is
      exactly what `%d` writes for the value `atol` reads from it. */
  lemma FormatParse(s: string)
    requires IsCanonical(s)
    ensures FormatDecimal(ParseDecimal(s)) == s
  {
    assert SkipSpace(s) == s;
    if s == "0" {
      ParseDigits(s);
      assert s[..0] == [];
      assert DigitsValue(s) == 0;
    } else if s[0] == '-' {
      LeadingDigitsOfDigitString(s[1..]);
      DigitsOfValue(s[1..]);
      PositiveNumeralValue(s[1..]);
    } else {
      LeadingDigitsOfDigitString(s);
      DigitsOfValue(s);
      PositiveNumeralValue(s);
    }
  }

  /** Text with no digit where the number should start, after at most one
      sign, reads as 0: this is the case of an empty string, of
      LoadRunner's unresolved `{parameter}` placeholder, and of a value
      captured with its quotes. */
  lemma ParseWithoutDigits(s: string)
    requires SkipSpace(s) == [] || !IsDigit(SkipSpace(s)[0])
    requires |SkipSpace(s)| < 2 || (SkipSpace(s)[0] != '-' && SkipSpace(s)[0] != '+') || !IsDigit(SkipSpace(s)[1])
    ensures ParseDecimal(s) == 0
  {
  }

  /** A time-to-live the issuer sends as a JSON string, `"expires_in":"3600"`,
      is captured after `expires_in":` with its opening quote, and `atoi`
      reads that capture as 0. */
  lemma QuotedTtlReadsZero()
    ensures ParseDecimal("\"3600\"") == 0
  {
    ParseWithoutDigits("\"3600\"");
  }
}
