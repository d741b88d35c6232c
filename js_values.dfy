/** The part of JavaScript's value semantics that the style resolver relies on:
    truthiness (`prop && ...`, `theme && ...`), conversion to a string (template
    literals and property keys), property lookup on plain objects, and the loose
    equality `key == value` between an object key and an arbitrary value.
 */
module JsValues {

  datatype Option<T> = None | Some(value: T)

  /** The own enumerable properties of a plain object, in `for...in` order.
      A list that repeats a key is not a JavaScript object; `WellFormed` and
      `DistinctKeys` rule such lists out where a result depends on it. */
  type Props = seq<(string, Value)>

  /** A JavaScript value as far as the resolver can observe it.
      Numbers are restricted to integers. */
  datatype Value =
    | Undefined
    | Null
    | Bool(b: bool)
    | Num(n: int)
    | Str(s: string)
    | Obj(props: Props)

  /** `!!v` */
  predicate Truthy(v: Value) {
    match v
    case Undefined => false
    case Null => false
    case Bool(b) => b
    case Num(n) => n != 0
    case Str(s) => s != ""
    case Obj(_) => true
  }

  /** The keys of an object are unique. */
  predicate DistinctKeys(ps: Props) {
    forall i, j :: 0 <= i < j < |ps| ==> ps[i].0 != ps[j].0
  }

  /** Every object in reach of the resolver is a well-formed JavaScript object. */
  predicate WellFormed(v: Value) {
    v.Obj? ==> DistinctKeys(v.props)
  }

  /** `Object.keys(o)` */
  function Keys(ps: Props): seq<string> {
    seq(|ps|, i requires 0 <= i < |ps| => ps[i].0)
  }

  /** `o[name]` for an object whose own properties are `ps`: the value of the
      property called `name`, or `undefined` when there is none. */
  function Property(ps: Props, name: string): (r: Value)
    ensures (forall i :: 0 <= i < |ps| ==> ps[i].0 != name) ==> r == Undefined
    ensures (exists i :: 0 <= i < |ps| && ps[i].0 == name) ==>
              exists i :: 0 <= i < |ps| && ps[i] == (name, r)
  {
    if ps == [] then Undefined
    else if ps[0].0 == name then ps[0].1
    else Property(ps[1..], name)
  }

  /** In a well-formed object the lookup finds the one property of that name. */
  lemma PropertyOfDistinct(ps: Props, i: nat)
    requires DistinctKeys(ps) && i < |ps|
    ensures Property(ps, ps[i].0) == ps[i].1
  {
    var r := Property(ps, ps[i].0);
    var j :| 0 <= j < |ps| && ps[j] == (ps[i].0, r);
    assert j == i;
  }

  /** With unique keys, every property called `name` carries the value the
      lookup gives. */
  lemma PropertyOfDistinctName(ps: Props, name: string)
    ensures DistinctKeys(ps) ==>
              forall i :: 0 <= i < |ps| && ps[i].0 == name ==> Property(ps, name) == ps[i].1
  {
    forall i | DistinctKeys(ps) && 0 <= i < |ps| && ps[i].0 == name
      ensures Property(ps, name) == ps[i].1
    {
      PropertyOfDistinct(ps, i);
    }
  }

  // ---- numbers and their decimal text ----

  predicate IsDigit(c: char) {
    '0' <= c <= '9'
  }

  predicate AllDigits(s: string) {
    forall i :: 0 <= i < |s| ==> IsDigit(s[i])
  }

  function DigitChar(d: nat): (c: char)
    requires d < 10
    ensures IsDigit(c)
  {
    ('0' as int + d) as char
  }

  function DigitValue(c: char): nat
    requires IsDigit(c)
  {
    c as int - '0' as int
  }

  /** The decimal text of a non-negative integer, as `String(n)` writes it. */
  function NatToString(n: nat): (s: string)
    ensures |s| > 0 && AllDigits(s)
    ensures n == 0 || s[0] != '0'
    decreases n
  {
    if n < 10 then [DigitChar(n)] else NatToString(n / 10) + [DigitChar(n % 10)]
  }

  /** `String(n)` for an integer `n`: a minus sign exactly for negative
      numbers, then decimal digits. */
  function IntToString(n: int): (s: string)
    ensures |s| > (if n < 0 then 1 else 0) && (s[0] == '-' <==> n < 0)
    ensures AllDigits(if n < 0 then s[1..] else s)
    ensures n == 0 || (if n < 0 then s[1] else s[0]) != '0'
  {
    if n < 0 then "-" + NatToString(-n) else NatToString(n)
  }

  /** The value of a run of decimal digits, most significant first. */
  function DigitsValue(s: string): nat
    requires AllDigits(s)
  {
    if s == [] then 0 else DigitsValue(s[..|s| - 1]) * 10 + DigitValue(s[|s| - 1])
  }

  /** `Number(s)` for a property key, on the forms this model covers: the empty
      string is 0 and an optionally signed run of decimal digits is its value.
      `None` stands for NaN, which is equal to no number. */
  function StringToNumber(s: string): Option<int> {
    if s == "" then Some(0)
    else if (s[0] == '-' || s[0] == '+') && |s| > 1 && AllDigits(s[1..]) then
      var m: int := DigitsValue(s[1..]);
      Some(if s[0] == '-' then -m else m)
    else if AllDigits(s) then Some(DigitsValue(s))
    else None
  }

  lemma {:induction false} NatToStringValue(n: nat)
    ensures DigitsValue(NatToString(n)) == n
    decreases n
  {
    if n >= 10 {
      var s := NatToString(n);
      NatToStringValue(n / 10);
      assert s[..|s| - 1] == NatToString(n / 10);
    }
  }

  /** Reading back the decimal text of an integer gives the integer. */
  lemma NumberRoundTrip(n: int)
    ensures StringToNumber(IntToString(n)) == Some(n)
  {
    var digits := NatToString(if n < 0 then -n else n);
    NatToStringValue(if n < 0 then -n else n);
    if n < 0 {
      assert IntToString(n)[1..] == digits;
    } else {
      assert IsDigit(digits[0]);
    }
  }

  /** `String(v)`, which is also what `${v}` in a template literal and `o[v]`
      as a property key produce. */
  function ToJsString(v: Value): (s: string)
    ensures v.Num? ==> StringToNumber(s) == Some(v.n)
    ensures v.Bool? || v.Null? || v.Undefined? ==> StringToNumber(s).None?
  {
    match v
    case Undefined => "undefined"
    case Null => "null"
    case Bool(b) => if b then "true" else "false"
    case Num(n) => NumberRoundTrip(n); IntToString(n)
    case Str(s) => s
    case Obj(_) => "[object Object]"
  }

  /** `key == v` for a string `key`: a number or boolean is compared with
      `Number(key)`, an object with its string form, and `null` and `undefined`
      equal no string. */
  predicate LooseEquals(key: string, v: Value): (b: bool)
    ensures b ==> v != Undefined && v != Null
    ensures v.Num? ==> (b <==> StringToNumber(key) == StringToNumber(ToJsString(v)))
  {
    match v
    case Undefined => false
    case Null => false
    case Bool(b) => StringToNumber(key) == Some(if b then 1 else 0)
    case Num(n) => StringToNumber(key) == Some(n)
    case Str(s) => key == s
    case Obj(_) => key == "[object Object]"
  }

  /** A string, number or object is loosely equal to its own string form;
      `true`, `false`, `null` and `undefined` are not. */
  lemma LooseEqualsOwnString(v: Value)
    ensures LooseEquals(ToJsString(v), v) <==> (v.Str? || v.Num? || v.Obj?)
  {
    match v
    case Num(n) => NumberRoundTrip(n);
    case Bool(b) =>
      var t := ToJsString(v);
      assert !IsDigit(t[0]) && t[0] != '-' && t[0] != '+';
    case Null =>
    case Undefined =>
    case Str(_) =>
    case Obj(_) =>
  }
}
