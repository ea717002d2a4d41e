/**
 * `int.TryParse(string, out int)` as the dialogue code uses it: optional
 * surrounding whitespace, an optional leading sign, one or more decimal
 * digits, and a value that fits a 32-bit signed integer.
 */
module Int32Text {
  import opened Optional
  import opened Text

  const MinInt32: int := -0x8000_0000
  const MaxInt32: int := 0x7FFF_FFFF

  predicate InInt32(n: int) {
    MinInt32 <= n <= MaxInt32
  }

  predicate IsDigit(c: char) {
    '0' <= c <= '9'
  }

  predicate AllDigits(s: string) {
    forall i :: 0 <= i < |s| ==> IsDigit(s[i])
  }

  /** The value of a decimal digit string, most significant digit first. */
  function DigitsValue(ds: string): nat
    requires AllDigits(ds)
  {
    if ds == [] then 0
    else DigitsValue(ds[..|ds| - 1]) * 10 + (ds[|ds| - 1] as int - '0' as int)
  }

  function ParseInt32(s: string): (r: Option<int>)
    ensures r.Some? ==> InInt32(r.value)
  {
    ParseSigned(Trim(s))
  }

  /** An optional sign followed by one or more digits, within the 32-bit range. */
  function ParseSigned(t: string): (r: Option<int>)
    ensures r.Some? ==> InInt32(r.value)
  {
    var negative := |t| > 0 && t[0] == '-';
    var digits := if |t| > 0 && (t[0] == '-' || t[0] == '+') then t[1..] else t;
    if digits == [] || !AllDigits(digits) then None
    else
      var magnitude := DigitsValue(digits);
      var v: int := if negative then -(magnitude as int) else magnitude;
      if InInt32(v) then Some(v) else None
  }

  /** Parsing trims on its own, so trimming first changes nothing. */
  lemma {:induction false} ParseIgnoresTrim(s: string)
    ensures ParseInt32(Trim(s)) == ParseInt32(s)
  {
    TrimIdempotent(s);
  }

  function DigitChar(d: nat): (c: char)
    requires d < 10
    ensures IsDigit(c)
  {
    ('0' as int + d) as char
  }

  /** The shortest decimal spelling of a natural number. */
  function NatToString(n: nat): (s: string)
    ensures s != [] && AllDigits(s)
  {
    if n < 10 then [DigitChar(n)] else NatToString(n / 10) + [DigitChar(n % 10)]
  }

  /** `n.ToString()` for an integer: a minus sign for negatives, then the digits. */
  function IntToString(n: int): (s: string)
    ensures s != [] && IsTrimmed(s)
    ensures '.' !in s && ',' !in s
  {
    var digits := if n < 0 then NatToString(-n) else NatToString(n);
    assert !IsDigit('.') && !IsDigit(',');
    if n < 0 then "-" + digits else digits
  }

  lemma {:induction false} NatToStringValue(n: nat)
    ensures DigitsValue(NatToString(n)) == n
  {
    if n >= 10 {
      var s := NatToString(n);
      NatToStringValue(n / 10);
      assert s[..|s| - 1] == NatToString(n / 10);
    }
  }

  /** Parsing the decimal spelling of an integer gives it back exactly when it fits 32 bits. */
  lemma {:induction false} ParseSpelling(n: int)
    ensures ParseInt32(IntToString(n)) == if InInt32(n) then Some(n) else None
  {
    var s := IntToString(n);
    TrimOfTrimmed(s);
    if n < 0 {
      NatToStringValue(-n);
      assert s[1..] == NatToString(-n);
    } else {
      NatToStringValue(n);
    }
  }

  /** Parsing the decimal spelling of any 32-bit integer gives that integer back. */
  lemma {:induction false} ParseIntToString(n: int)
    requires InInt32(n)
    ensures ParseInt32(IntToString(n)) == Some(n)
  {
    ParseSpelling(n);
  }

  /** A sign with nothing after it, or nothing at all, is not a number. */
  lemma {:induction false} ParseRejectsBareSign(s: string)
    requires Trim(s) == "-" || Trim(s) == "+" || Trim(s) == ""
    ensures ParseInt32(s) == None
  {
  }

  /** A spelled-out integer outside the 32-bit range is rejected, not wrapped. */
  lemma {:induction false} ParseRejectsOverflow(n: int)
    requires !InInt32(n)
    ensures ParseInt32(IntToString(n)) == None
  {
    ParseSpelling(n);
  }
}
