/**
 * The two text-to-number conversions the forms rely on: JavaScript's
 * `parseInt` on a decimal string, and the filter that strips every
 * character but the ASCII digits from a batch number.
 */
module NumberInput {
  import opened Results

  predicate IsDigit(c: char) {
    '0' <= c <= '9'
  }

  predicate AllDigits(s: string) {
    forall i :: 0 <= i < |s| ==> IsDigit(s[i])
  }

  function DigitValue(c: char): (v: nat)
    requires IsDigit(c)
    ensures v < 10
  {
    (c as int) - ('0' as int)
  }

  function DigitChar(v: nat): (c: char)
    requires v < 10
    ensures IsDigit(c) && DigitValue(c) == v
  {
    ('0' as int + v) as char
  }

  /** The ASCII digits of `s`, in order, with every other character dropped. */
  function KeepDigits(s: string): (r: string)
    ensures AllDigits(r)
    ensures |r| <= |s|
    ensures forall c :: c in r <==> c in s && IsDigit(c)
    decreases |s|
  {
    if |s| == 0 then ""
    else if IsDigit(s[0]) then [s[0]] + KeepDigits(s[1..]) else KeepDigits(s[1..])
  }

  /** A string of digits passes the filter unchanged. */
  lemma {:induction false} KeepDigitsOfDigits(s: string)
    requires AllDigits(s)
    ensures KeepDigits(s) == s
    decreases |s|
  {
    if |s| > 0 {
      KeepDigitsOfDigits(s[1..]);
      assert s == [s[0]] + s[1..];
    }
  }

  /** The filter works piecewise: filtering a concatenation concatenates the filtered parts. */
  lemma {:induction false} KeepDigitsAppend(a: string, b: string)
    ensures KeepDigits(a + b) == KeepDigits(a) + KeepDigits(b)
    decreases |a|
  {
    if |a| > 0 {
      assert (a + b)[0] == a[0];
      assert (a + b)[1..] == a[1..] + b;
      KeepDigitsAppend(a[1..], b);
    } else {
      assert a + b == b;
    }
  }

  // ---------------------------------------------------------------------
  // parseInt
  // ---------------------------------------------------------------------

  /**
   * The largest integer a JavaScript number holds exactly (2^53 - 1);
   * beyond it `parseInt` rounds to the nearest representable double.
   */
  const MaxSafeInteger := 0x1F_FFFF_FFFF_FFFF

  /** The white-space characters `parseInt` skips before the number. */
  predicate IsSpace(c: char) {
    c == ' ' || c == '\t' || c == '\n' || c == '\r' || c == '\U{000B}' || c == '\U{000C}'
    || c == '\U{00A0}' || c == '\U{2028}' || c == '\U{2029}' || c == '\U{FEFF}'
  }

  /** How many white-space characters open `s`. */
  function SpaceRun(s: string): (n: nat)
    ensures n <= |s|
    ensures forall i :: 0 <= i < n ==> IsSpace(s[i])
    ensures n == |s| || !IsSpace(s[n])
    decreases |s|
  {
    if |s| > 0 && IsSpace(s[0]) then 1 + SpaceRun(s[1..]) else 0
  }

  /** How many digits open `s`. */
  function DigitRun(s: string): (n: nat)
    ensures n <= |s|
    ensures forall i :: 0 <= i < n ==> IsDigit(s[i])
    ensures n == |s| || !IsDigit(s[n])
    decreases |s|
  {
    if |s| > 0 && IsDigit(s[0]) then 1 + DigitRun(s[1..]) else 0
  }

  /** The value of a string of decimal digits, most significant first. */
  function DigitsValue(ds: string): nat
    requires AllDigits(ds)
    decreases |ds|
  {
    if |ds| == 0 then 0
    else DigitsValue(ds[..|ds| - 1]) * 10 + DigitValue(ds[|ds| - 1])
  }

  /** The value of the digits at the head of `t`; `None` when `t` does not start with a digit. */
  function ParseDigits(t: string): Option<int> {
    var n := DigitRun(t);
    if n == 0 then None else Some(DigitsValue(t[..n]))
  }

  /** An optional sign, then digits. */
  function ParseSigned(t: string): Option<int> {
    if |t| > 0 && t[0] == '-' then
      match ParseDigits(t[1..])
      case None => None
      case Some(v) => Some(-v)
    else if |t| > 0 && t[0] == '+' then ParseDigits(t[1..])
    else ParseDigits(t)
  }

  /**
   * `parseInt(s)` with the default radix on decimal text: skip leading white
   * space, read an optional sign, then as many digits as follow; `None`
   * stands for `NaN` when no digit follows.
   */
  function ParseInt(s: string): Option<int> {
    ParseSigned(s[SpaceRun(s)..])
  }

  /** The decimal digits of `n`, without leading zeros. */
  function Decimal(n: nat): (r: string)
    ensures AllDigits(r) && |r| > 0
    decreases n
  {
    if n < 10 then [DigitChar(n)] else Decimal(n / 10) + [DigitChar(n % 10)]
  }

  /** How a number input displays an integer: an optional minus sign, then its digits. */
  function FormatInt(n: int): string {
    if n < 0 then ['-'] + Decimal(-n) else Decimal(n)
  }

  lemma {:induction false} DecimalValue(n: nat)
    ensures DigitsValue(Decimal(n)) == n
    decreases n
  {
    if n >= 10 {
      DecimalValue(n / 10);
      var d := Decimal(n);
      assert d[..|d| - 1] == Decimal(n / 10);
    }
  }

  /** The digit run of a digit string followed by a non-digit is that digit string. */
  lemma {:induction false} DigitRunOfPrefix(ds: string, rest: string)
    requires AllDigits(ds)
    requires |rest| == 0 || !IsDigit(rest[0])
    ensures DigitRun(ds + rest) == |ds|
    decreases |ds|
  {
    if |ds| == 0 {
      assert ds + rest == rest;
    } else {
      assert (ds + rest)[1..] == ds[1..] + rest;
      DigitRunOfPrefix(ds[1..], rest);
    }
  }

  /** A digit string followed by a non-digit reads as its value. */
  lemma ParseDigitsPrefix(ds: string, rest: string, v: int)
    requires AllDigits(ds) && |ds| > 0
    requires |rest| == 0 || !IsDigit(rest[0])
    requires v == DigitsValue(ds)
    ensures ParseDigits(ds + rest) == Some(v)
  {
    DigitRunOfPrefix(ds, rest);
    assert (ds + rest)[..|ds|] == ds;
  }

  /** Text that does not start with white space is not trimmed. */
  lemma NothingToTrim(s: string)
    requires |s| > 0 && !IsSpace(s[0])
    ensures ParseInt(s) == ParseSigned(s)
  {
    assert SpaceRun(s) == 0;
    assert s[0..] == s;
  }

  /** A leading minus sign negates what the digits after it read as. */
  lemma ParseSignedNegative(t: string, v: int)
    requires ParseDigits(t) == Some(v)
    ensures ParseSigned(['-'] + t) == Some(-v)
  {
    var s := ['-'] + t;
    assert s[0] == '-';
    assert s[1..] == t;
  }

  /** Text that starts with a digit has no sign to read. */
  lemma ParseSignedUnsigned(t: string)
    requires |t| > 0 && IsDigit(t[0])
    ensures ParseSigned(t) == ParseDigits(t)
  {
  }

  /**
   * Reading back a displayed integer gives the integer again, whatever
   * non-numeric text follows it (so "12.5" reads as 12).
   */
  lemma ParseFormatRoundTrip(n: int, rest: string)
    requires -MaxSafeInteger <= n <= MaxSafeInteger
    requires |rest| == 0 || !IsDigit(rest[0])
    ensures ParseInt(FormatInt(n) + rest) == Some(n)
  {
    if n < 0 {
      var ds := Decimal(-n);
      var t := ds + rest;
      DecimalValue(-n);
      ParseDigitsPrefix(ds, rest, -n);
      ParseSignedNegative(t, -n);
      var s := ['-'] + t;
      assert s[0] == '-';
      NothingToTrim(s);
      assert FormatInt(n) + rest == s;
    } else {
      var ds := Decimal(n);
      var s := ds + rest;
      DecimalValue(n);
      ParseDigitsPrefix(ds, rest, n);
      assert s[0] == ds[0];
      ParseSignedUnsigned(s);
      NothingToTrim(s);
    }
  }

  /** Text with no digit at all reads as `NaN`. */
  lemma NoDigitIsNaN(s: string)
    requires forall i :: 0 <= i < |s| ==> !IsDigit(s[i])
    ensures ParseInt(s) == None
  {
    var t := s[SpaceRun(s)..];
    assert |t| == 0 || !IsDigit(t[0]);
    assert |t| < 2 || !IsDigit(t[1..][0]);
  }
}
