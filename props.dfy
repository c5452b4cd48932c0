/**
 * Node property values and their text form. Node properties map string keys to
 * primitive values; the emitters format them with Python's `str()`.
 */
module Props {
  import opened Wrappers

  datatype Prop = IntValue(i: int) | StrValue(s: string) | BoolValue(b: bool)

  type Properties = map<string, Prop>

  /** `properties.get(key, default)`. */
  function Get(props: Properties, key: string, default: Prop): Prop {
    if key in props then props[key] else default
  }

  predicate IsDigit(c: char) {
    '0' <= c <= '9'
  }

  predicate AllDigits(s: string) {
    forall k :: 0 <= k < |s| ==> IsDigit(s[k])
  }

  function DigitChar(d: nat): (c: char)
    requires d < 10
    ensures IsDigit(c) && c as int - '0' as int == d
  {
    (d + '0' as int) as char
  }

  /** Decimal digits of a natural number, most significant first, without leading zeros. */
  function NatText(n: nat): (r: string)
    ensures |r| > 0 && AllDigits(r)
    ensures r[0] == '0' ==> n == 0
    decreases n
  {
    if n < 10 then [DigitChar(n)] else NatText(n / 10) + [DigitChar(n % 10)]
  }

  /** Python's `str()` of an int: a minus sign for negatives, then the decimal digits. */
  function IntText(i: int): (r: string)
    ensures |r| > 0
    ensures r[0] == '-' <==> i < 0
    ensures forall k :: 0 < k < |r| ==> IsDigit(r[k])
  {
    if i < 0 then "-" + NatText(-i) else NatText(i)
  }

  /** The value of a string of decimal digits (the reference reading of NatText). */
  function DigitsValue(s: string): nat
    requires AllDigits(s)
  {
    if s == [] then 0 else DigitsValue(s[..|s| - 1]) * 10 + (s[|s| - 1] as int - '0' as int)
  }

  /** Reading back int text: an optional minus sign followed by at least one digit. */
  function DecimalValue(s: string): Option<int> {
    if |s| > 1 && s[0] == '-' && AllDigits(s[1..]) then Some(0 - DigitsValue(s[1..]) as int)
    else if |s| > 0 && AllDigits(s) then Some(DigitsValue(s) as int)
    else None
  }

  lemma {:induction false} NatTextValue(n: nat)
    ensures DigitsValue(NatText(n)) == n
    decreases n
  {
    if n >= 10 {
      var r := NatText(n);
      assert r[..|r| - 1] == NatText(n / 10);
      NatTextValue(n / 10);
    }
  }

  /** The text of an int reads back as that int. */
  lemma IntTextRoundTrip(i: int)
    ensures DecimalValue(IntText(i)) == Some(i)
  {
    if i < 0 {
      var r := IntText(i);
      assert r[1..] == NatText(-i);
      NatTextValue(-i);
    } else {
      NatTextValue(i);
    }
  }

  /** Python's `str(value)` for a property value. */
  function Text(p: Prop): string {
    match p
    case IntValue(i) => IntText(i)
    case StrValue(s) => s
    case BoolValue(b) => if b then "True" else "False"
  }
}
