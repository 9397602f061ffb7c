/**
 * The `${v}px` strings written into the style rule, for integer v, and a
 * reader for them that serves as the format's inverse.
 */
module PxFormat {
  import opened Wrappers

  predicate IsDigit(c: char)
  {
    '0' <= c <= '9'
  }

  predicate AllDigits(s: string)
  {
    forall i :: 0 <= i < |s| ==> IsDigit(s[i])
  }

  function DigitChar(d: nat): (c: char)
    requires d < 10
    ensures IsDigit(c) && DigitValue(c) == d
  {
    ('0' as int + d) as char
  }

  function DigitValue(c: char): nat
    requires IsDigit(c)
  {
    c as int - '0' as int
  }

  /** Decimal digits of `n`, most significant first, without leading zeros. */
  function NatDigits(n: nat): (s: string)
    ensures |s| >= 1 && AllDigits(s)
    ensures (|s| > 1 ==> s[0] != '0')
    decreases n
  {
    if n < 10 then [DigitChar(n)] else NatDigits(n / 10) + [DigitChar(n % 10)]
  }

  /** The number a non-empty digit string denotes. */
  function DigitsValue(s: string): nat
    requires |s| >= 1 && AllDigits(s)
  {
    if |s| == 1 then DigitValue(s[0])
    else DigitsValue(s[..|s| - 1]) * 10 + DigitValue(s[|s| - 1])
  }

  /** How an integer-valued JavaScript number is converted to a string. */
  function IntToDecimal(v: int): string
  {
    if v < 0 then "-" + NatDigits(-v) else NatDigits(v)
  }

  /** The value `${v}px` the viewport writes for a coordinate `v`. */
  function Px(v: int): string
  {
    IntToDecimal(v) + "px"
  }

  /** Reads back an integer pixel value: an optional minus sign, digits, then "px". */
  function ParsePx(s: string): Option<int>
  {
    if |s| < 3 || s[|s| - 2..] != "px" then None
    else
      var body := s[..|s| - 2];
      if body[0] == '-' then
        if |body| >= 2 && AllDigits(body[1..]) then Some(-(DigitsValue(body[1..]) as int)) else None
      else if AllDigits(body) then Some(DigitsValue(body))
      else None
  }

  lemma {:induction false} DigitsValueOfNatDigits(n: nat)
    ensures DigitsValue(NatDigits(n)) == n
    decreases n
  {
    if n >= 10 {
      var s := NatDigits(n);
      assert s[..|s| - 1] == NatDigits(n / 10);
      DigitsValueOfNatDigits(n / 10);
    }
  }

  /** Reading back a formatted coordinate gives the coordinate. */
  lemma PxRoundTrip(v: int)
    ensures ParsePx(Px(v)) == Some(v)
  {
    var s := Px(v);
    assert s[..|s| - 2] == IntToDecimal(v);
    assert s[|s| - 2..] == "px";
    if v < 0 {
      assert IntToDecimal(v)[1..] == NatDigits(-v);
      DigitsValueOfNatDigits(-v);
    } else {
      DigitsValueOfNatDigits(v);
    }
  }

  /** Distinct coordinates are written as distinct strings. */
  lemma PxInjective(v: int, w: int)
    requires Px(v) == Px(w)
    ensures v == w
  {
    PxRoundTrip(v);
    PxRoundTrip(w);
  }
}
