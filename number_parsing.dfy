/** The .NET integer parsing that DocumentServiceResponse relies on:
    uint.TryParse and int.TryParse under NumberStyles.Integer with the
    invariant culture. Accepted text is optional leading white space, an
    optional '+' or '-', one or more decimal digits, and optional trailing
    white space; the value must fit the target type. */
module NumberParsing {
  import opened Wrappers

  const UInt32Limit: int := 0x1_0000_0000
  const Int32Min: int := -0x8000_0000
  const Int32Limit: int := 0x8000_0000

  /** The white space NumberStyles.AllowLeadingWhite/AllowTrailingWhite admit:
      U+0009 to U+000D and U+0020. */
  predicate IsWhite(c: char)
  {
    c == ' ' || ('\t' <= c <= '\r')
  }

  predicate IsDigit(c: char)
  {
    '0' <= c <= '9'
  }

  predicate AllDigits(s: string)
  {
    forall i :: 0 <= i < |s| ==> IsDigit(s[i])
  }

  function DigitValue(c: char): (d: nat)
    requires IsDigit(c)
    ensures d < 10
  {
    c as int - '0' as int
  }

  /** The value of a string of decimal digits, most significant first. */
  function DigitsValue(s: string): nat
    requires AllDigits(s)
  {
    if s == [] then 0 else DigitsValue(s[..|s| - 1]) * 10 + DigitValue(s[|s| - 1])
  }

  /** The string with its leading white space removed. */
  function TrimStart(s: string): (t: string)
    ensures |t| <= |s|
    ensures t == [] || !IsWhite(t[0])
  {
    if s != [] && IsWhite(s[0]) then TrimStart(s[1..]) else s
  }

  /** The string with its trailing white space removed. */
  function TrimEnd(s: string): (t: string)
    ensures |t| <= |s|
    ensures t == [] || !IsWhite(t[|t| - 1])
  {
    if s != [] && IsWhite(s[|s| - 1]) then TrimEnd(s[..|s| - 1]) else s
  }

  /** The value of trimmed text: an optional sign, then one or more digits. */
  function ParseSignedDigits(t: string): Option<int>
  {
    if t == [] then None
    else
      var negative := t[0] == '-';
      var digits := if t[0] == '-' || t[0] == '+' then t[1..] else t;
      if digits == [] || !AllDigits(digits) then None
      else
        var magnitude: int := DigitsValue(digits);
        Some(if negative then -magnitude else magnitude)
  }

  /** The integer a NumberStyles.Integer string denotes, if it is one;
      a missing (null) string denotes none. */
  function ParseInteger(s: Option<string>): Option<int>
  {
    if s.None? then None else ParseSignedDigits(TrimEnd(TrimStart(s.value)))
  }

  /** uint.TryParse: a value in [0, 2^32), so "-0" is accepted as 0. */
  function ParseUInt32(s: Option<string>): (r: Option<int>)
    ensures r.Some? ==> 0 <= r.value < UInt32Limit
    ensures r.Some? ==> ParseInteger(s) == r
    ensures ParseInteger(s).Some? && 0 <= ParseInteger(s).value < UInt32Limit ==> r == ParseInteger(s)
  {
    var v := ParseInteger(s);
    if v.Some? && 0 <= v.value < UInt32Limit then v else None
  }

  /** int.TryParse: a value in [-2^31, 2^31). */
  function ParseInt32(s: Option<string>): (r: Option<int>)
    ensures r.Some? ==> Int32Min <= r.value < Int32Limit
    ensures r.Some? ==> ParseInteger(s) == r
    ensures ParseInteger(s).Some? && Int32Min <= ParseInteger(s).value < Int32Limit ==> r == ParseInteger(s)
  {
    var v := ParseInteger(s);
    if v.Some? && Int32Min <= v.value < Int32Limit then v else None
  }

  /** The decimal digits of n, without sign or leading zeros (n.ToString()). */
  function Decimal(n: nat): (s: string)
    ensures s != [] && AllDigits(s)
  {
    if n < 10 then [('0' as int + n) as char]
    else Decimal(n / 10) + [('0' as int + n % 10) as char]
  }

  lemma {:induction false} DecimalValue(n: nat)
    ensures DigitsValue(Decimal(n)) == n
  {
    if n >= 10 {
      var s := Decimal(n);
      assert s[..|s| - 1] == Decimal(n / 10);
      DecimalValue(n / 10);
    }
  }

  /** A non-empty string of digits needs no trimming and parses to its value. */
  lemma ParseDigits(t: string)
    requires t != [] && AllDigits(t)
    ensures ParseInteger(Some(t)) == Some(DigitsValue(t))
  {
    assert IsDigit(t[0]) && IsDigit(t[|t| - 1]);
    assert TrimStart(t) == t;
    assert TrimEnd(t) == t;
    assert ParseSignedDigits(t) == Some(DigitsValue(t));
  }

  /** Parsing the decimal rendering of a natural number gives it back. */
  lemma ParseDecimal(n: nat)
    ensures ParseInteger(Some(Decimal(n))) == Some(n)
  {
    ParseDigits(Decimal(n));
    DecimalValue(n);
  }

  /** uint.TryParse accepts the rendering of every 32-bit unsigned value. */
  lemma ParseUInt32Decimal(n: nat)
    requires n < UInt32Limit
    ensures ParseUInt32(Some(Decimal(n))) == Some(n)
  {
    ParseDecimal(n);
  }

  /** uint.TryParse rejects the rendering of every value from 2^32 up. */
  lemma ParseUInt32Overflow(n: nat)
    requires n >= UInt32Limit
    ensures ParseUInt32(Some(Decimal(n))) == None
  {
    ParseDecimal(n);
  }

  /** int.TryParse accepts the rendering of every non-negative 32-bit value. */
  lemma ParseInt32Decimal(n: nat)
    requires n < Int32Limit
    ensures ParseInt32(Some(Decimal(n))) == Some(n)
  {
    ParseDecimal(n);
  }

  /** Surrounding white space and leading zeros are admitted. */
  lemma AcceptsPaddedDigits()
    ensures ParseUInt32(Some(" 007 ")) == Some(7)
  {
    var s := " 007 ";
    assert IsWhite(s[0]) && s[1..] == "007 ";
    assert TrimStart("007 ") == "007 ";
    assert TrimStart(s) == "007 ";
    assert IsWhite("007 "[3]) && "007 "[..3] == "007";
    assert TrimEnd("007") == "007";
    assert TrimEnd("007 ") == "007";
    var d := "007";
    assert AllDigits(d);
    assert d[..2] == "00" && "00"[..1] == "0" && "0"[..0] == "";
    assert DigitsValue("0") == 0;
    assert DigitsValue("00") == 0;
    assert DigitsValue(d) == 7;
  }

  /** A leading '+' is admitted. */
  lemma AcceptsPlusSign()
    ensures ParseUInt32(Some("+5")) == Some(5)
  {
    var t := "+5";
    assert TrimStart(t) == t && TrimEnd(t) == t;
    var digits := t[1..];
    assert digits == "5" && digits[..0] == "";
    assert AllDigits(digits) && DigitsValue(digits) == 5;
    assert ParseInteger(Some(t)) == Some(5);
  }

  /** A negative zero is an unsigned zero. */
  lemma AcceptsNegativeZero()
    ensures ParseUInt32(Some("-0")) == Some(0)
  {
    var t := "-0";
    assert TrimStart(t) == t && TrimEnd(t) == t;
    var digits := t[1..];
    assert digits == "0" && digits[..0] == "";
    assert AllDigits(digits) && DigitsValue(digits) == 0;
    assert ParseInteger(Some(t)) == Some(0);
  }

  /** A negative value is an int but never a uint. */
  lemma NegativeValues()
    ensures ParseInt32(Some("-5")) == Some(-5)
    ensures ParseUInt32(Some("-5")) == None
  {
    assert TrimStart("-5") == "-5" && TrimEnd("-5") == "-5";
    assert "-5"[1..] == "5" && "5"[..0] == "";
    assert DigitsValue("5") == 5;
    assert ParseInteger(Some("-5")) == Some(-5);
  }

  /** No white space may separate the sign from the digits, and text with no
      digits at all is rejected. */
  lemma RejectsMalformed()
    ensures ParseInt32(Some("- 5")) == None
    ensures ParseInt32(Some("")) == None && ParseInt32(None) == None
  {
    assert TrimStart("- 5") == "- 5" && TrimEnd("- 5") == "- 5";
    assert "- 5"[1..] == " 5" && !IsDigit(" 5"[0]);
    assert TrimEnd(TrimStart("")) == "";
  }

  /** An unchecked uint-to-int conversion, as the cast to an int-based enum
      performs it: values from 2^31 up wrap to negative. */
  function WrapToInt32(u: int): (r: int)
    requires 0 <= u < UInt32Limit
    ensures Int32Min <= r < Int32Limit
    ensures (r - u) % UInt32Limit == 0
    ensures u < Int32Limit ==> r == u
  {
    if u < Int32Limit then u else u - UInt32Limit
  }
}
