/** Decimal integers as the C library writes and reads them: the `%d`
    conversion of `sprintf` (used by show_stock) and of `sscanf` (used to
    read the two integers of a buy or sell command). Integers are unbounded
    here; see README for the overflow cases this leaves out. */
module Decimal {
  import opened Wrappers

  /** `isspace` in the C locale: space, and `\t`, `\n`, `\v`, `\f`, `\r`
      (the characters 9 to 13). */
  predicate IsSpace(c: char) {
    c == ' ' || '\t' <= c <= '\r'
  }

  predicate IsDigit(c: char) {
    '0' <= c <= '9'
  }

  predicate AllDigits(s: string) {
    forall i :: 0 <= i < |s| ==> IsDigit(s[i])
  }

  function DigitValue(c: char): (d: nat)
    requires IsDigit(c)
    ensures d < 10
  {
    c as int - '0' as int
  }

  function DigitChar(d: nat): (c: char)
    requires d < 10
    ensures IsDigit(c) && DigitValue(c) == d
  {
    ('0' as int + d) as char
  }

  /** The digits `%d` prints for a non-negative value, most significant first. */
  function FormatNat(n: nat): (s: string)
    ensures |s| > 0 && AllDigits(s)
  {
    if n < 10 then [DigitChar(n)] else FormatNat(n / 10) + [DigitChar(n % 10)]
  }

  /** `sprintf(str, "%d", x)`: a minus sign for a negative value, then its digits. */
  function FormatInt(x: int): (s: string)
    ensures |s| > 0 && (s[0] == '-' || IsDigit(s[0]))
  {
    if x < 0 then "-" + FormatNat(-x) else FormatNat(x)
  }

  /** The value of a run of decimal digits, most significant first. */
  function Value(ds: string): nat
    requires AllDigits(ds)
  {
    if ds == [] then 0 else Value(ds[..|ds| - 1]) * 10 + DigitValue(ds[|ds| - 1])
  }

  /** What a `%d` directive (and a blank in the format) skips before it
      reads: the longest prefix of white space. */
  function SkipSpace(s: string): (r: string)
    ensures |r| <= |s|
    ensures forall i :: 0 <= i < |s| - |r| ==> IsSpace(s[i])
    ensures r == [] || !IsSpace(r[0])
  {
    if s != [] && IsSpace(s[0]) then SkipSpace(s[1..]) else s
  }

  /** The length of the longest prefix of `s` made of digits. */
  function DigitRun(s: string): (n: nat)
    ensures n <= |s| && AllDigits(s[..n])
    ensures n < |s| ==> !IsDigit(s[n])
  {
    if s != [] && IsDigit(s[0]) then 1 + DigitRun(s[1..]) else 0
  }

  /** One `%d` conversion of `sscanf`: skip white space, then read a number.
      On success it gives the value and the unread rest. */
  function ScanInt(s: string): (r: Option<(int, string)>)
    ensures r.Some? ==> |r.value.1| < |s|
  {
    ScanNumber(SkipSpace(s))
  }

  /** An optional sign and then a run of digits. */
  function ScanNumber(t: string): (r: Option<(int, string)>)
    ensures r.Some? ==> |r.value.1| < |t|
  {
    if t != [] && t[0] == '-' then
      match ScanDigits(t[1..])
      case None => None
      case Some((v, rest)) => Some((-v, rest))
    else if t != [] && t[0] == '+' then ScanDigits(t[1..])
    else ScanDigits(t)
  }

  /** At least one digit, read as far as the digits go; without a digit
      the conversion fails. */
  function ScanDigits(u: string): (r: Option<(int, string)>)
    ensures r.Some? ==> r.value.0 >= 0 && |r.value.1| < |u|
  {
    var n := DigitRun(u);
    if n == 0 then None else Some((Value(u[..n]) as int, u[n..]))
  }

  /** `sscanf(s, "%d %d", &a, &b) == 2`: both conversions succeed. The blank
      between the directives skips white space, which the second `%d` would
      skip anyway, so it adds nothing to two conversions in a row. Whatever
      follows the second number is ignored. */
  function ScanTwoInts(s: string): Option<(int, int)> {
    match ScanInt(s)
    case None => None
    case Some((a, rest)) =>
      match ScanInt(rest)
      case None => None
      case Some((b, _)) => Some((a, b))
  }

  /** Reading back the digits `%d` printed gives the value printed. */
  lemma {:induction false} ValueOfFormatNat(n: nat)
    ensures Value(FormatNat(n)) == n
  {
    if n >= 10 {
      var s := FormatNat(n);
      assert s[..|s| - 1] == FormatNat(n / 10);
      ValueOfFormatNat(n / 10);
    }
  }

  /** A run of digits followed by a non-digit is read up to that non-digit. */
  lemma {:induction false} DigitRunOfDigits(ds: string, rest: string)
    requires AllDigits(ds)
    requires rest == [] || !IsDigit(rest[0])
    ensures DigitRun(ds + rest) == |ds|
  {
    if ds != [] {
      assert (ds + rest)[1..] == ds[1..] + rest;
      DigitRunOfDigits(ds[1..], rest);
    }
  }

  /** Digits followed by a non-digit read as their value. */
  lemma ScanDigitsOf(digits: string, rest: string)
    requires |digits| > 0 && AllDigits(digits)
    requires rest == [] || !IsDigit(rest[0])
    ensures ScanDigits(digits + rest) == Some((Value(digits) as int, rest))
  {
    var u := digits + rest;
    DigitRunOfDigits(digits, rest);
    assert u[..|digits|] == digits;
    assert u[|digits|..] == rest;
  }

  /** `sscanf`'s `%d` reads back exactly what `sprintf`'s `%d` printed,
      when no digit follows it. */
  lemma ScanFormatInt(x: int, rest: string)
    requires rest == [] || !IsDigit(rest[0])
    ensures ScanInt(FormatInt(x) + rest) == Some((x, rest))
  {
    if x < 0 {
      var u := FormatNat(-x) + rest;
      assert ScanDigits(u) == Some((-x, rest)) by {
        ValueOfFormatNat(-x);
        ScanDigitsOf(FormatNat(-x), rest);
      }
      assert FormatInt(x) + rest == "-" + u;
      ScanMinus(u);
      ScanStartsUnblank("-" + u);
    } else {
      var u := FormatNat(x) + rest;
      assert ScanDigits(u) == Some((x, rest)) by {
        ValueOfFormatNat(x);
        ScanDigitsOf(FormatNat(x), rest);
      }
      assert FormatInt(x) + rest == u;
      ScanStartsUnblank(u);
    }
  }

  /** A string that does not start with white space is read from its start. */
  lemma ScanStartsUnblank(t: string)
    requires t != [] && !IsSpace(t[0])
    ensures ScanInt(t) == ScanNumber(t)
    ensures IsDigit(t[0]) ==> ScanInt(t) == ScanDigits(t)
  {
  }

  /** A minus sign negates the number that follows it. */
  lemma ScanMinus(u: string)
    ensures ScanNumber("-" + u) == match ScanDigits(u)
                                   case None => None
                                   case Some((v, r)) => Some((-v, r))
  {
    assert ("-" + u)[1..] == u;
  }

  /** A blank in front of a number changes nothing that `%d` reads. */
  lemma ScanSkipsBlank(s: string)
    ensures ScanInt(" " + s) == ScanInt(s)
  {
    assert (" " + s)[1..] == s;
    assert SkipSpace(" " + s) == SkipSpace(s);
  }

  /** `%d` reads back a number printed after a blank. */
  lemma ScanBlankFormatInt(x: int, rest: string)
    requires rest == [] || !IsDigit(rest[0])
    ensures ScanInt(" " + FormatInt(x) + rest) == Some((x, rest))
  {
    assert " " + FormatInt(x) + rest == " " + (FormatInt(x) + rest);
    ScanSkipsBlank(FormatInt(x) + rest);
    ScanFormatInt(x, rest);
  }

  /** A command's two numbers, printed with `%d` and a blank between them,
      are read back by `sscanf(s, "%d %d", ...)`. */
  lemma ScanTwoFormatted(a: int, b: int, rest: string)
    requires rest == [] || !IsDigit(rest[0])
    ensures ScanTwoInts(FormatInt(a) + " " + FormatInt(b) + rest) == Some((a, b))
  {
    var tail := " " + FormatInt(b) + rest;
    assert FormatInt(a) + " " + FormatInt(b) + rest == FormatInt(a) + tail;
    ScanFormatInt(a, tail);
    ScanBlankFormatInt(b, rest);
    ScanTwoSteps(FormatInt(a) + tail, a, tail, b, rest);
  }

  lemma ScanTwoSteps(s: string, a: int, tail: string, b: int, rest: string)
    requires ScanInt(s) == Some((a, tail)) && ScanInt(tail) == Some((b, rest))
    ensures ScanTwoInts(s) == Some((a, b))
  {
  }
}
