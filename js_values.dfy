/** The slice of JavaScript value semantics the relay depends on: the
    primitive values a parsed JSON frame can carry (plus `undefined` for a
    missing field), truthiness as used by `||` and `!`, and `String(v)`, which
    the room filter uses to normalise room ids. */
module JsValues {

  datatype Option<+T> = None | Some(value: T)

  /** `Number.MAX_SAFE_INTEGER`, 2^53 - 1. */
  const MaxSafeInteger := 0x1F_FFFF_FFFF_FFFF

  /** The integers a double holds exactly and `String` prints digit for
      digit. */
  type SafeInt = n: int | -MaxSafeInteger <= n <= MaxSafeInteger

  /** A primitive JavaScript value. Numbers are safe integers here. */
  datatype Value = Undefined | Null | Bool(b: bool) | Num(n: SafeInt) | Str(s: string)

  /** JavaScript truthiness: `undefined`, `null`, `false`, `0` and `""` are falsy. */
  predicate Truthy(v: Value) {
    match v
    case Undefined => false
    case Null => false
    case Bool(b) => b
    case Num(n) => n != 0
    case Str(s) => s != ""
  }

  /** `v || fallback` */
  function Or(v: Value, fallback: Value): Value {
    if Truthy(v) then v else fallback
  }

  function DigitChar(d: nat): char
    requires d < 10
  {
    ('0' as int + d) as char
  }

  /** The decimal digits of a natural number, most significant first. */
  function NatDigits(n: nat): (s: string)
    ensures |s| >= 1
    ensures n < 10 <==> |s| == 1
    ensures forall i | 0 <= i < |s| :: '0' <= s[i] <= '9'
    decreases n
  {
    if n < 10 then [DigitChar(n)] else NatDigits(n / 10) + [DigitChar(n % 10)]
  }

  /** The number a string of decimal digits denotes, most significant first. */
  function DigitsValue(s: string): nat
    requires forall i | 0 <= i < |s| :: '0' <= s[i] <= '9'
    decreases |s|
  {
    if s == [] then 0
    else 10 * DigitsValue(s[..|s| - 1]) + (s[|s| - 1] as int - '0' as int)
  }

  /** The digits spell the number back, and a positive number has no
      leading zero. */
  lemma {:induction false} NatDigitsValue(n: nat)
    ensures DigitsValue(NatDigits(n)) == n
    ensures n > 0 ==> NatDigits(n)[0] != '0'
    decreases n
  {
    var s := NatDigits(n);
    if n >= 10 {
      NatDigitsValue(n / 10);
      assert s[..|s| - 1] == NatDigits(n / 10);
      assert s[0] == NatDigits(n / 10)[0];
    }
  }

  /** The decimal text of an integer, as `String(n)` prints a safe integer. */
  function Decimal(n: int): string {
    if n < 0 then "-" + NatDigits(-n) else NatDigits(n)
  }

  /** `String(v)` */
  function ToStr(v: Value): (r: string)
    ensures r == "" <==> v == Str("")
  {
    match v
    case Undefined => "undefined"
    case Null => "null"
    case Bool(b) => if b then "true" else "false"
    case Num(n) => Decimal(n)
    case Str(s) => s
  }

  lemma {:induction false} NatDigitsInjective(a: nat, b: nat)
    requires NatDigits(a) == NatDigits(b)
    ensures a == b
    decreases a
  {
    var s := NatDigits(a);
    if a < 10 {
      assert DigitChar(a) == s[0] == DigitChar(b);
    } else {
      var n := |s|;
      assert DigitChar(a % 10) == s[n - 1] == DigitChar(b % 10);
      assert NatDigits(a / 10) == s[..n - 1] == NatDigits(b / 10);
      NatDigitsInjective(a / 10, b / 10);
    }
  }

  /** `String(n)` of a safe integer reads back as that integer: a minus
      sign followed by the digits of `-n` when it is negative, its digits
      otherwise. */
  lemma DecimalValue(n: SafeInt)
    ensures var t := ToStr(Num(n));
      && (n < 0 ==> |t| >= 2 && t[0] == '-' && DigitsValue(t[1..]) == -n)
      && (n >= 0 ==> DigitsValue(t) == n)
  {
    if n < 0 {
      NatDigitsValue(-n);
      assert Decimal(n)[1..] == NatDigits(-n);
    } else {
      NatDigitsValue(n);
    }
  }

  /** The text of a number starts with a minus sign exactly when it is negative. */
  lemma SignOfText(n: SafeInt)
    ensures ToStr(Num(n))[0] == '-' <==> n < 0
  {
    if n >= 0 {
      assert '0' <= NatDigits(n)[0] <= '9';
    }
  }

  /** Distinct numbers never print alike, so two numeric room ids share a
      room only when they are the same number. */
  lemma NumberTextInjective(a: SafeInt, b: SafeInt)
    requires ToStr(Num(a)) == ToStr(Num(b))
    ensures a == b
  {
    SignOfText(a);
    SignOfText(b);
    var s := ToStr(Num(a));
    if a < 0 {
      assert NatDigits(-a) == s[1..] == NatDigits(-b);
      NatDigitsInjective(-a, -b);
    } else {
      NatDigitsInjective(a, b);
    }
  }
}
