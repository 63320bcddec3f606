/**
 * The few JavaScript value semantics the engine and the editor rely on: truthiness, `a || b`,
 * property reads (with the TypeError on `undefined`/`null`), conversion of a value to text as a
 * template literal does it, `startsWith`, and `parseInt(s, 10)`.
 */
module Js {
  import opened Graph

  /** JavaScript truthiness: `undefined`, `null`, `false`, `0` and `""` are falsy. */
  predicate Truthy(v: Value)
  {
    match v
    case Undefined => false
    case Null => false
    case Bool(b) => b
    case Num(x) => x != 0.0
    case Str(s) => s != ""
    case List(_) => true
    case Object(_) => true
  }

  /** `a || b`: the first operand when it is truthy, otherwise the second. */
  function Or(a: Value, b: Value): (r: Value)
    ensures Truthy(r) <==> Truthy(a) || Truthy(b)
    ensures Truthy(a) ==> r == a
    ensures !Truthy(a) ==> r == b
  {
    if Truthy(a) then a else b
  }

  /** `data.k` on a node's data object: a missing field reads as `undefined`. */
  function Field(d: Data, k: string): (r: Value)
    ensures k !in d ==> r == Undefined
    ensures k in d ==> r == d[k]
  {
    if k in d then d[k] else Undefined
  }

  /**
   * `v?.k`: `undefined` on `undefined` or `null`, the field on an object, and `undefined` on the
   * other values (the model only reads `text`, `url` and `file`, which strings, numbers, booleans
   * and arrays do not carry).
   */
  function OptProp(v: Value, k: string): (r: Value)
    ensures r != Undefined ==> v.Object? && k in v.fields && r == v.fields[k]
  {
    if v.Object? && k in v.fields then v.fields[k] else Undefined
  }

  /** `v.k`: like `v?.k`, except that reading a property of `undefined` or `null` throws (`None`). */
  function Prop(v: Value, k: string): (r: Option<Value>)
    ensures r.None? <==> v == Undefined || v == Null
    ensures r.Some? ==> r.value == OptProp(v, k)
  {
    if v == Undefined || v == Null then None else Some(OptProp(v, k))
  }

  // ---------------------------------------------------------------------------------------------
  // Decimal text

  function Digit(d: nat): (c: char)
    requires d < 10
    ensures '0' <= c <= '9' && (c as int) - ('0' as int) == d
  {
    ['0', '1', '2', '3', '4', '5', '6', '7', '8', '9'][d]
  }

  predicate IsDigit(c: char)
  {
    '0' <= c <= '9'
  }

  /** The decimal digits of a natural number, without leading zeros. */
  function NatText(n: nat): (s: string)
    ensures s != [] && forall i :: 0 <= i < |s| ==> IsDigit(s[i])
  {
    if n < 10 then [Digit(n)] else NatText(n / 10) + [Digit(n % 10)]
  }

  /** An integer in decimal, with a leading `-` when negative. */
  function IntText(n: int): string
  {
    if n < 0 then "-" + NatText(-n) else NatText(n)
  }

  /** At most `fuel` decimal digits of a fraction `0 <= f < 1`, stopping once nothing is left. */
  function FracDigits(f: real, fuel: nat): string
    requires 0.0 <= f < 1.0
    decreases fuel
  {
    if fuel == 0 || f == 0.0 then ""
    else
      var t := f * 10.0;
      var d := t.Floor;
      assert d as real <= t < d as real + 1.0;
      [Digit(d)] + FracDigits(t - d as real, fuel - 1)
  }

  /** The text of a number: its integer part and, when it has one, its fractional part. */
  function NumberText(x: real): string
  {
    if x == x.Floor as real then IntText(x.Floor)
    else
      var a := if x < 0.0 then -x else x;
      (if x < 0.0 then "-" else "") + NatText(a.Floor) + "." + FracDigits(a - a.Floor as real, 20)
  }

  /**
   * `${v}` / `String(v)`: strings as they are, `undefined`, `null`, `true`, `false`, numbers in
   * decimal, an array as its elements joined by `,` (an `undefined` or `null` element gives the
   * empty string), and any other object as `[object Object]`.
   */
  function Text(v: Value): (s: string)
    ensures v.Str? ==> s == v.s
    ensures v.Object? ==> s == "[object Object]"
    decreases v, 1, 0
  {
    match v
    case Undefined => "undefined"
    case Null => "null"
    case Bool(b) => if b then "true" else "false"
    case Num(x) => NumberText(x)
    case Str(s) => s
    case List(items) => Join(v, items, 0)
    case Object(_) => "[object Object]"
  }

  /** `items.slice(i).join(",")`, the elements converted as `Array.prototype.join` does. */
  function Join(v: Value, items: seq<Value>, i: nat): string
    requires v.List? && items == v.items && i <= |items|
    decreases v, 0, |items| - i
  {
    if i == |items| then ""
    else
      var x := items[i];
      var t := if x == Undefined || x == Null then "" else Text(x);
      (if i == 0 then "" else ",") + t + Join(v, items, i + 1)
  }

  // ---------------------------------------------------------------------------------------------
  // String operations

  /** `s.startsWith(p)`. */
  predicate StartsWith(s: string, p: string)
  {
    |p| <= |s| && s[..|p|] == p
  }

  /** The characters `parseInt` skips before the number (ECMAScript white space and line terminators). */
  predicate IsSpace(c: char)
  {
    c == '\t' || c == '\n' || c == '\U{B}' || c == '\U{C}' || c == '\r' || c == ' ' || c == '\U{A0}'
    || c == '\U{1680}' || ('\U{2000}' <= c <= '\U{200A}') || c == '\U{2028}' || c == '\U{2029}'
    || c == '\U{202F}' || c == '\U{205F}' || c == '\U{3000}' || c == '\U{FEFF}'
  }

  /** The length of the longest run of decimal digits at the start of `s`. */
  function DigitRun(s: string): (n: nat)
    ensures n <= |s|
    ensures forall i :: 0 <= i < n ==> IsDigit(s[i])
    ensures n < |s| ==> !IsDigit(s[n])
  {
    if s != [] && IsDigit(s[0]) then 1 + DigitRun(s[1..]) else 0
  }

  /** The value of a string of decimal digits. */
  function DigitsValue(s: string): nat
    requires forall i :: 0 <= i < |s| ==> IsDigit(s[i])
  {
    if s == [] then 0
    else
      var c := s[|s| - 1];
      assert IsDigit(c);
      DigitsValue(s[..|s| - 1]) * 10 + ((c as int) - ('0' as int))
  }

  /** The index of the first character of `s` that is not white space. */
  function SkipSpace(s: string): (n: nat)
    ensures n <= |s|
    ensures forall i :: 0 <= i < n ==> IsSpace(s[i])
    ensures n < |s| ==> !IsSpace(s[n])
  {
    if s != [] && IsSpace(s[0]) then 1 + SkipSpace(s[1..]) else 0
  }

  /** The value of the longest run of digits at the start of `u`, if there is one. */
  function LeadingNumber(u: string): Option<nat>
  {
    var n := DigitRun(u);
    if n == 0 then None else Some(DigitsValue(u[..n]))
  }

  /**
   * `parseInt(s, 10)`: skip leading white space, read an optional sign, then the longest run of
   * decimal digits; `None` is `NaN` (no digit there).
   */
  function ParseInt(s: string): (r: Option<int>)
    ensures r.Some? <==>
      var t := s[SkipSpace(s)..];
      (t != [] && IsDigit(t[0])) || (|t| >= 2 && (t[0] == '-' || t[0] == '+') && IsDigit(t[1]))
    ensures r.Some? && r.value < 0 ==> SkipSpace(s) < |s| && s[SkipSpace(s)] == '-'
  {
    var t := s[SkipSpace(s)..];
    if t != [] && t[0] == '-' then
      match LeadingNumber(t[1..])
      case None => None
      case Some(m) => Some(-(m as int))
    else if t != [] && t[0] == '+' then
      match LeadingNumber(t[1..])
      case None => None
      case Some(m) => Some(m)
    else
      match LeadingNumber(t)
      case None => None
      case Some(m) => Some(m)
  }

  lemma {:induction false} NatTextValue(n: nat)
    ensures DigitsValue(NatText(n)) == n
  {
    if n >= 10 {
      NatTextValue(n / 10);
      var s := NatText(n / 10) + [Digit(n % 10)];
      assert s[..|s| - 1] == NatText(n / 10);
    }
  }

  /** A run made of digits only is read whole. */
  lemma {:induction false} AllDigits(d: string)
    requires forall i :: 0 <= i < |d| ==> IsDigit(d[i])
    ensures DigitRun(d) == |d|
  {
    if d != [] {
      AllDigits(d[1..]);
    }
  }

  /** A string of digits is read whole. */
  lemma LeadingAll(d: string)
    requires d != [] && forall i :: 0 <= i < |d| ==> IsDigit(d[i])
    ensures LeadingNumber(d) == Some(DigitsValue(d))
  {
    AllDigits(d);
    assert d[..|d|] == d;
  }

  /** A digit or a minus sign is not white space. */
  lemma SkipNone(s: string)
    requires s != [] && (IsDigit(s[0]) || s[0] == '-')
    ensures SkipSpace(s) == 0
  {
  }

  /** `parseInt` of a run of digits. */
  lemma ParseDigits(d: string)
    requires d != [] && forall i :: 0 <= i < |d| ==> IsDigit(d[i])
    ensures ParseInt(d) == Some(DigitsValue(d) as int)
  {
    LeadingAll(d);
    SkipNone(d);
    assert d[0..] == d;
  }

  /** `parseInt` of a run of digits after a minus sign. */
  lemma ParseNegDigits(d: string)
    requires d != [] && forall i :: 0 <= i < |d| ==> IsDigit(d[i])
    ensures ParseInt("-" + d) == Some(-(DigitsValue(d) as int))
  {
    LeadingAll(d);
    var s := "-" + d;
    SkipNone(s);
    assert s[0..] == s && s[1..] == d;
  }

  /** `parseInt` reads back the decimal text of every integer. */
  lemma ParseIntText(n: int)
    ensures ParseInt(IntText(n)) == Some(n)
  {
    var m: nat := if n < 0 then -n else n;
    NatTextValue(m);
    if n < 0 {
      ParseNegDigits(NatText(m));
    } else {
      ParseDigits(NatText(m));
    }
  }
}
