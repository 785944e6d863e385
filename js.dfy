/** The JavaScript values a prop can carry, as far as the UI primitives look at
    them: their truthiness (`Boolean(v)`, which `filter(Boolean)` and `if (!isOpen)`
    use) and their string form (`String(v)`, which `join` and property lookup use). */
module Js {

  /** Integers a JavaScript number holds exactly (`Number.isSafeInteger`). Their
      `String()` form is plain decimal: exponent notation starts only at 10^21. */
  type SafeInteger = n: int | -0x1F_FFFF_FFFF_FFFF <= n <= 0x1F_FFFF_FFFF_FFFF

  datatype Value = Undefined | Null | Bool(b: bool) | Num(n: SafeInteger) | Str(s: string)

  /** `Boolean(v)`: `undefined`, `null`, `false`, `0` and `""` are falsy. */
  predicate Truthy(v: Value)
    ensures !Truthy(v) <==> v == Undefined || v == Null || v == Bool(false) || v == Num(0) || v == Str("")
  {
    match v
    case Undefined => false
    case Null => false
    case Bool(b) => b
    case Num(n) => n != 0
    case Str(s) => s != ""
  }

  function DigitChar(d: nat): (c: char)
    requires d < 10
    ensures '0' <= c <= '9'
    ensures c as int - '0' as int == d
  {
    ('0' as int + d) as char
  }

  /** The number a string of decimal digits spells, read most significant
      digit first (the reference reading of `Digits`). */
  function DecVal(s: string): int {
    if s == [] then 0 else 10 * DecVal(s[..|s| - 1]) + (s[|s| - 1] as int - '0' as int)
  }

  /** Decimal digits of a natural number, most significant first, without
      leading zeros. */
  function Digits(n: nat): (r: string)
    ensures r != []
    ensures forall i :: 0 <= i < |r| ==> '0' <= r[i] <= '9'
    ensures n < 10 <==> |r| == 1
    ensures n > 0 ==> r[0] != '0'
    ensures DecVal(r) == n
  {
    if n < 10 then [DigitChar(n)]
    else
      var init := Digits(n / 10);
      var r := init + [DigitChar(n % 10)];
      assert r[..|r| - 1] == init;
      r
  }

  /** A non-empty run of decimal digits in canonical form: no leading zero
      unless it is the single digit `0`. */
  predicate CanonicalDigits(d: string) {
    && d != []
    && (forall i :: 0 <= i < |d| ==> '0' <= d[i] <= '9')
    && (|d| > 1 ==> d[0] != '0')
  }

  /** `r` is the plain decimal numeral of `n`, as `String(n)` writes an integer
      below 10^21: a `-` exactly when `n` is negative, then the canonical digits
      of its magnitude, no exponent. */
  predicate IsNumeral(r: string, n: int) {
    if n >= 0 then CanonicalDigits(r) && DecVal(r) == n
    else |r| > 1 && r[0] == '-' && CanonicalDigits(r[1..]) && DecVal(r[1..]) == -n
  }

  /** `String(n)` for a safe integer. */
  function Numeral(n: SafeInteger): (r: string)
    ensures IsNumeral(r, n)
    ensures r != "" && ' ' !in r
  {
    if n < 0 then
      var d := Digits(-n);
      assert ("-" + d)[1..] == d;
      "-" + d
    else Digits(n)
  }

  /** The numeral of a non-zero number never starts its digits with `0`:
      `String(-5)` is `"-5"`, never `"-05"`. */
  lemma NumeralNoLeadingZero(r: string, n: int)
    requires IsNumeral(r, n)
    ensures n > 0 ==> r[0] != '0'
    ensures n < 0 ==> r[1] != '0'
  {
    if n < 0 {
      var d := r[1..];
      if |d| == 1 {
        assert d[..|d| - 1] == [];
        assert DecVal(d) == d[0] as int - '0' as int;
        assert d[0] == r[1];
      }
    } else if |r| == 1 {
      assert r[..|r| - 1] == [];
      assert DecVal(r) == r[0] as int - '0' as int;
    }
  }

  /** `String(v)` for the values above (safe integers only: no fractions, no NaN). */
  function ToString(v: Value): (r: string)
    ensures Truthy(v) ==> r != ""
    ensures v.Str? ==> r == v.s
    ensures !v.Str? ==> r != "" && ' ' !in r
    ensures v.Num? ==> IsNumeral(r, v.n)
  {
    match v
    case Undefined => "undefined"
    case Null => "null"
    case Bool(b) => if b then "true" else "false"
    case Num(n) => Numeral(n)
    case Str(s) => s
  }
}
