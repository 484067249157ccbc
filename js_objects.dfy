/**
 The small part of JavaScript object semantics that the fixture helpers rely on:
 property values, plain objects as finite maps from property keys to values,
 reads of a missing property, the string a value becomes when it is used as a
 property key, and a thrown TypeError.
 */
module JsObjects {

  /** A property value found in a fixture record or a stored document.
      `Id` is a store-generated identifier, written as its hexadecimal text. */
  datatype Value =
    | Undefined
    | Str(s: string)
    | Num(n: int)
    | Id(hex: string)

  /** A plain object: its own properties, by key. */
  type Record = map<string, Value>

  /** The outcome of a call that may throw a TypeError. */
  datatype Result<T> = Ok(value: T) | TypeError

  /** Reading `obj[key]`: a missing own property reads as `undefined`. */
  function Get(obj: Record, key: string): Value
  {
    if key in obj then obj[key] else Undefined
  }

  function DigitChar(d: nat): char
    requires d < 10
  {
    "0123456789"[d]
  }

  /** The decimal text of a natural number, as `String(n)` writes it. */
  function Decimal(n: nat): (s: string)
    ensures |s| > 0
    ensures forall i :: 0 <= i < |s| ==> '0' <= s[i] <= '9'
    ensures |s| > 1 ==> s[0] != '0'
  {
    if n < 10 then [DigitChar(n)] else Decimal(n / 10) + [DigitChar(n % 10)]
  }

  /** The number a string of decimal digits denotes (reading from the right). */
  function DecimalValue(s: string): nat
    requires forall i :: 0 <= i < |s| ==> '0' <= s[i] <= '9'
  {
    if s == [] then 0
    else 10 * DecimalValue(s[..|s| - 1]) + ((s[|s| - 1] as int) - ('0' as int))
  }

  /** Reading back the decimal text of `n` gives `n`. */
  lemma {:induction false} DecimalRoundTrip(n: nat)
    ensures DecimalValue(Decimal(n)) == n
  {
    var s := Decimal(n);
    if n >= 10 {
      DecimalRoundTrip(n / 10);
      assert s[..|s| - 1] == Decimal(n / 10);
    }
  }

  /** Two different numbers never have the same decimal text. */
  lemma DecimalInjective(a: nat, b: nat)
    requires Decimal(a) == Decimal(b)
    ensures a == b
  {
    DecimalRoundTrip(a);
    DecimalRoundTrip(b);
  }

  /** ToPropertyKey: the string under which `obj[v]` stores or finds a value. */
  function ToKey(v: Value): string
  {
    match v
    case Undefined => "undefined"
    case Str(s) => s
    case Num(n) => if n < 0 then "-" + Decimal(-n) else Decimal(n)
    case Id(hex) => hex
  }

  /** Different numbers are filed under different keys. */
  lemma ToKeyNumInjective(a: int, b: int)
    requires ToKey(Num(a)) == ToKey(Num(b))
    ensures a == b
  {
    var ka, kb := ToKey(Num(a)), ToKey(Num(b));
    if a < 0 && b < 0 {
      assert ka[1..] == Decimal(-a) && kb[1..] == Decimal(-b);
      DecimalInjective(-a, -b);
    } else if a >= 0 && b >= 0 {
      DecimalInjective(a, b);
    }
  }
}
