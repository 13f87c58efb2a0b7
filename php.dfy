/**
 * The pieces of PHP's value semantics that the store relies on: 64-bit integers,
 * the `(string)` cast of a scalar, the numeric-string test and `intval` used by
 * `increment`, and the `(bool)` cast of what `get` returns.
 */
module Php {
  import opened Wrappers

  /** The range of PHP's native integer on a 64-bit build, PHP_INT_MIN .. PHP_INT_MAX. */
  predicate InInt64(n: int) {
    -0x8000_0000_0000_0000 <= n <= 0x7fff_ffff_ffff_ffff
  }

  type Int64 = i: int | InInt64(i)

  /** A PHP value as a caller hands it to the store. Floats are not modelled. */
  datatype Mixed = Null | Bool(b: bool) | Int(i: Int64) | Str(s: string) | Arr | Obj

  predicate IsScalar(v: Mixed) {
    !v.Arr? && !v.Obj?
  }

  predicate IsDigit(c: char) {
    '0' <= c <= '9'
  }

  predicate AllDigits(s: string) {
    forall i :: 0 <= i < |s| ==> IsDigit(s[i])
  }

  /** The decimal digits of `n`, most significant first, with no leading zero. */
  function Digits(n: nat): (s: string)
    ensures |s| > 0 && AllDigits(s)
    ensures s[0] == '0' ==> n == 0
  {
    if n < 10 then [(n + '0' as int) as char]
    else Digits(n / 10) + [(n % 10 + '0' as int) as char]
  }

  /** The value of a string of decimal digits. */
  function ParseDigits(s: string): nat
    requires AllDigits(s)
  {
    if s == [] then 0
    else ParseDigits(s[..|s| - 1]) * 10 + (s[|s| - 1] as int - '0' as int)
  }

  /** `(string) $n` for an integer: canonical signed decimal. */
  function IntToString(n: int): (s: string)
    ensures |s| > 0
    ensures s[0] == '-' <==> n < 0
    ensures s == "0" <==> n == 0
  {
    if n < 0 then "-" + Digits(-n) else Digits(n)
  }

  /**
   * `is_numeric` restricted to integer strings: an optional sign followed by
   * at least one decimal digit.
   */
  predicate IsNumeric(s: string): (b: bool)
    ensures b ==> |s| > 0 && IsDigit(s[|s| - 1])
    ensures AllDigits(s) ==> (b <==> |s| > 0)
  {
    if |s| > 0 && (s[0] == '-' || s[0] == '+') then |s| > 1 && AllDigits(s[1..])
    else |s| > 0 && AllDigits(s)
  }

  /** PHP's conversion of an out-of-range integer string: it saturates. */
  function Saturate(m: int): (n: Int64)
    ensures InInt64(m) ==> n == m
    ensures m < n ==> n == -0x8000_0000_0000_0000
    ensures n < m ==> n == 0x7fff_ffff_ffff_ffff
  {
    if m < -0x8000_0000_0000_0000 then -0x8000_0000_0000_0000
    else if m > 0x7fff_ffff_ffff_ffff then 0x7fff_ffff_ffff_ffff
    else m
  }

  /** `intval($s, 10)` on a numeric string. */
  function IntVal(s: string): (n: Int64)
    requires IsNumeric(s)
    ensures s[0] != '-' ==> n >= 0
    ensures s[0] == '-' ==> n <= 0
    ensures AllDigits(s) && InInt64(ParseDigits(s)) ==> n == ParseDigits(s)
  {
    if s[0] == '-' then Saturate(-(ParseDigits(s[1..]) as int))
    else if s[0] == '+' then Saturate(ParseDigits(s[1..]))
    else Saturate(ParseDigits(s))
  }

  /**
   * `(bool) $v` for the string-or-null that `get` returns; `!empty($v)` is the
   * same test.
   */
  predicate ToBool(v: Option<string>): (b: bool)
    ensures b ==> v.Some? && |v.value| > 0
    ensures v.Some? && |v.value| > 1 ==> b
  {
    v.Some? && v.value != "" && v.value != "0"
  }

  /** `(string) $value` for a scalar. */
  function ToPhpString(v: Mixed): (r: string)
    requires IsScalar(v)
    ensures v.Null? ==> r == ""
    ensures v.Bool? ==> ToBool(Some(r)) == v.b
    ensures v.Int? ==> IsNumeric(r) && IntVal(r) == v.i
    ensures v.Str? ==> r == v.s
  {
    match v
    case Null => ""
    case Bool(b) => if b then "1" else ""
    case Int(i) => IntStringRoundTrip(i); IntToString(i)
    case Str(s) => s
  }

  lemma {:induction false} ParseDigitsOfDigits(n: nat)
    ensures ParseDigits(Digits(n)) == n
  {
    if n >= 10 {
      var s := Digits(n);
      assert s[..|s| - 1] == Digits(n / 10);
      ParseDigitsOfDigits(n / 10);
    }
  }

  /** The canonical decimal form of an integer is numeric and parses back to it. */
  lemma IntStringRoundTrip(n: Int64)
    ensures IsNumeric(IntToString(n)) && IntVal(IntToString(n)) == n
  {
    var s := IntToString(n);
    if n < 0 {
      assert s[1..] == Digits(-(n as int));
      ParseDigitsOfDigits(-(n as int));
    } else {
      ParseDigitsOfDigits(n);
    }
  }

  /**
   * `setBoolean` stores `(string) 1` or `(string) 0`, and the `(bool)` cast
   * of what it stored gives the original flag back.
   */
  lemma BooleanRoundTrip(b: bool)
    ensures IntToString(if b then 1 else 0) == (if b then "1" else "0")
    ensures ToBool(Some(IntToString(if b then 1 else 0))) == b
  {
    assert Digits(1) == "1";
  }

  /** An integer stored by `setInt` reads back as true exactly when it is not zero. */
  lemma IntTruthiness(n: int)
    ensures ToBool(Some(IntToString(n))) <==> n != 0
  {
  }
}
