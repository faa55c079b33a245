/**
 * Kotlin's `String.toLong()` (decimal, as java.lang.Long.parseLong) and the
 * two's-complement wrap-around of 64-bit `Long` multiplication.
 */
module LongParsing {
  import opened Wrappers

  const LONG_MIN: int := -0x8000_0000_0000_0000
  const LONG_MAX: int := 0x7FFF_FFFF_FFFF_FFFF
  const LONG_RANGE: int := 0x1_0000_0000_0000_0000

  predicate IsLong(n: int)
  {
    LONG_MIN <= n <= LONG_MAX
  }

  /** The `Long` that an exact product `x` wraps around to. */
  function Wrap64(x: int): (r: int)
    ensures IsLong(r)
    ensures (x - r) % LONG_RANGE == 0
    ensures IsLong(x) ==> r == x
  {
    (x - LONG_MIN) % LONG_RANGE + LONG_MIN
  }

  predicate IsDigit(c: char)
  {
    '0' <= c <= '9'
  }

  predicate AllDigits(s: string)
  {
    forall i :: 0 <= i < |s| ==> IsDigit(s[i])
  }

  function DigitValue(c: char): nat
    requires IsDigit(c)
  {
    (c as int) - ('0' as int)
  }

  function DigitChar(d: nat): (c: char)
    requires d < 10
    ensures IsDigit(c) && DigitValue(c) == d
  {
    ('0' as int + d) as char
  }

  /** The number a string of decimal digits denotes, most significant digit first. */
  function DigitsValue(s: string): nat
    requires AllDigits(s)
  {
    if s == [] then 0 else 10 * DigitsValue(s[..|s| - 1]) + DigitValue(s[|s| - 1])
  }

  /**
   * `s.toLong()`: an optional '+' or '-' sign followed by at least one decimal
   * digit, denoting a value in the `Long` range; anything else throws
   * NumberFormatException, modelled as None.
   */
  function ParseLong(s: string): (r: Option<int>)
    ensures r.Some? ==> IsLong(r.value)
    ensures r.Some? ==> |s| > 0 && (r.value < 0 ==> s[0] == '-')
    ensures s != [] && AllDigits(s) ==> r == (if IsLong(DigitsValue(s)) then Some(DigitsValue(s) as int) else None)
    ensures |s| > 1 && (s[0] == '-' || s[0] == '+') && AllDigits(s[1..]) ==>
      var v: int := if s[0] == '-' then 0 - (DigitsValue(s[1..]) as int) else DigitsValue(s[1..]);
      r == (if IsLong(v) then Some(v) else None)
  {
    if |s| == 0 then None
    else
      var digits := if s[0] == '-' || s[0] == '+' then s[1..] else s;
      if |digits| == 0 || !AllDigits(digits) then None
      else
        var v: int := if s[0] == '-' then 0 - (DigitsValue(digits) as int) else DigitsValue(digits);
        if IsLong(v) then Some(v) else None
  }

  /** A character other than a digit, anywhere but at a leading sign, makes the text no number. */
  lemma NonDigitRejected(s: string, i: nat)
    requires i < |s| && !IsDigit(s[i])
    requires i > 0 || (s[0] != '-' && s[0] != '+')
    ensures ParseLong(s) == None
  {
    if i > 0 && (s[0] == '-' || s[0] == '+') {
      assert s[1..][i - 1] == s[i];
    }
  }

  /** The shortest decimal digits of `n`. */
  function ShowNat(n: nat): (r: string)
    ensures |r| > 0 && AllDigits(r)
  {
    if n < 10 then [DigitChar(n)] else ShowNat(n / 10) + [DigitChar(n % 10)]
  }

  /** The decimal text of `n`, as `n.toString()` writes it. */
  function Show(n: int): string
  {
    if n < 0 then "-" + ShowNat(-n) else ShowNat(n)
  }

  lemma {:induction false} ShowNatValue(n: nat)
    ensures DigitsValue(ShowNat(n)) == n
  {
    if n >= 10 {
      ShowNatValue(n / 10);
      var s := ShowNat(n);
      assert s[..|s| - 1] == ShowNat(n / 10);
    }
  }

  /** Parsing the decimal text of any `Long` gives that `Long` back. */
  lemma ParseShow(n: int)
    requires IsLong(n)
    ensures ParseLong(Show(n)) == Some(n)
  {
    if n < 0 {
      ShowNatValue(-n);
      assert Show(n)[1..] == ShowNat(-n);
    } else {
      ShowNatValue(n);
    }
  }
}
