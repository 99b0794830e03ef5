/**
 * Python's `int(text)` for base-10 text and its inverse `str(n)`, and the
 * scripts' `safe_int_convert`, which turns any parse failure into 0.
 */
module PyInt {
  import opened Wrappers
  import opened PyText

  /** Numeric value of an ASCII digit. */
  function DigitValue(c: char): (d: nat)
    requires IsDigit(c)
    ensures d < 10
  {
    (c as int - '0' as int) as nat
  }

  /** The ASCII digit of a value below ten. */
  function DigitChar(d: nat): (c: char)
    requires d < 10
    ensures IsDigit(c) && DigitValue(c) == d
  {
    (d + '0' as int) as char
  }

  predicate AllDigits(s: string)
  {
    forall k :: 0 <= k < |s| ==> IsDigit(s[k])
  }

  /** Value of a string of decimal digits, most significant first (leading zeros allowed). */
  function DecimalValue(s: string): (v: nat)
    requires AllDigits(s)
    decreases |s|
  {
    if s == [] then 0 else DecimalValue(s[..|s| - 1]) * 10 + DigitValue(s[|s| - 1])
  }

  /** Python's `str(n)` for a natural number: shortest decimal rendering. */
  function NatToDecimal(n: nat): (s: string)
    ensures s != [] && AllDigits(s)
    ensures |s| > 1 ==> s[0] != '0'
    decreases n
  {
    if n < 10 then [DigitChar(n)] else NatToDecimal(n / 10) + [DigitChar(n % 10)]
  }

  /** Python's `str(n)`. */
  function IntToString(n: int): (s: string)
    ensures s != []
    ensures n >= 0 ==> AllDigits(s)
    ensures n < 0 ==> s[0] == '-' && AllDigits(s[1..])
  {
    if n < 0 then "-" + NatToDecimal(-n) else NatToDecimal(n)
  }

  /** Digits with single underscores between them, as Python's `int` accepts. */
  predicate DigitGroups(body: string)
  {
    && body != []
    && IsDigit(body[0]) && IsDigit(body[|body| - 1])
    && (forall k :: 0 <= k < |body| ==> IsDigit(body[k]) || body[k] == '_')
    && (forall k :: 0 <= k < |body| - 1 ==> !(body[k] == '_' && body[k + 1] == '_'))
  }

  /** The digits of `body` with the group separators removed. */
  function RemoveUnderscores(body: string): (ds: string)
    requires forall k :: 0 <= k < |body| ==> IsDigit(body[k]) || body[k] == '_'
    ensures AllDigits(ds) && |ds| <= |body|
    ensures AllDigits(body) ==> ds == body
    decreases |body|
  {
    if body == [] then []
    else if body[0] == '_' then RemoveUnderscores(body[1..])
    else [body[0]] + RemoveUnderscores(body[1..])
  }

  /** Python's `int(text)`: `None` where Python raises `ValueError`. */
  function ParseInt(text: string): Option<int>
  {
    var t := Strip(text);
    if t == [] then None
    else
      var negative := t[0] == '-';
      var body := if t[0] == '-' || t[0] == '+' then t[1..] else t;
      if !DigitGroups(body) then None
      else
        var magnitude: int := DecimalValue(RemoveUnderscores(body));
        Some(if negative then -magnitude else magnitude)
  }

  /**
   * `safe_int_convert(value_str)`: `int(value_str.strip())`, or 0 when that raises.
   * (`str.strip` is idempotent, so stripping once is the same as stripping twice.)
   */
  function SafeIntConvert(text: string): (r: int)
    ensures ParseInt(text).None? ==> r == 0
    ensures ParseInt(text).Some? ==> r == ParseInt(text).value
  {
    ParseInt(text).GetOr(0)
  }

  lemma {:induction false} DecimalRoundTrip(n: nat)
    ensures DecimalValue(NatToDecimal(n)) == n
    decreases n
  {
    if n >= 10 {
      DecimalRoundTrip(n / 10);
      var s := NatToDecimal(n / 10) + [DigitChar(n % 10)];
      assert s[..|s| - 1] == NatToDecimal(n / 10);
    }
  }

  /** Text with no whitespace at either end is not changed by strip. */
  lemma NoSpaceEnds(s: string)
    requires s != [] && (IsDigit(s[0]) || s[0] == '-') && IsDigit(s[|s| - 1])
    ensures Strip(s) == s
  {
    StripUnchanged(s);
  }

  /** `safe_int_convert(str(n)) == n`: conversion inverts Python's rendering of integers. */
  lemma IntRoundTrip(n: int)
    ensures ParseInt(IntToString(n)) == Some(n)
    ensures SafeIntConvert(IntToString(n)) == n
  {
    var m: nat := if n < 0 then -n else n;
    DecimalRoundTrip(m);
    if n < 0 {
      assert IntToString(n)[1..] == NatToDecimal(m);
      SignedDigitsParse(IntToString(n));
    } else {
      DigitsParse(NatToDecimal(m));
    }
  }

  /** A run of digits parses to its decimal value. */
  lemma DigitsParse(ds: string)
    requires ds != [] && AllDigits(ds)
    ensures ParseInt(ds) == Some(DecimalValue(ds))
  {
    NoSpaceEnds(ds);
    DigitsAreGroups(ds);
  }

  /** Plain digits are one digit group, and there is no separator to remove. */
  lemma DigitsAreGroups(ds: string)
    requires ds != [] && AllDigits(ds)
    ensures DigitGroups(ds) && RemoveUnderscores(ds) == ds
  {
  }

  /** A minus sign before a run of digits negates its value. */
  lemma SignedDigitsParse(s: string)
    requires |s| > 1 && s[0] == '-' && AllDigits(s[1..])
    ensures ParseInt(s) == Some(-(DecimalValue(s[1..]) as int))
  {
    var ds := s[1..];
    DigitsAreGroups(ds);
    assert IsDigit(ds[|ds| - 1]);
    NoSpaceEnds(s);
  }

  /**
   * What a `(\d+)` capture converts to: a non-empty run of digits always
   * parses, to its decimal value.
   */
  lemma DigitRunConverts(ds: string)
    requires ds != [] && AllDigits(ds)
    ensures SafeIntConvert(ds) == DecimalValue(ds)
    ensures SafeIntConvert(ds) >= 0
  {
    NoSpaceEnds(ds);
    assert DigitGroups(ds);
  }

  /** A string with no digit in it never parses, so it converts to 0. */
  lemma NoDigitConvertsToZero(text: string)
    requires forall k :: 0 <= k < |text| ==> !IsDigit(text[k])
    ensures SafeIntConvert(text) == 0
  {
    var t := Strip(text);
    if t != [] {
      var lead := LeadingSpaces(text);
      assert forall k :: 0 <= k < |t| ==> t[k] == text[lead + k];
      var body := if t[0] == '-' || t[0] == '+' then t[1..] else t;
      if body != [] {
        assert !IsDigit(body[0]);
      }
    }
  }
}
