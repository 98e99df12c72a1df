/**
 * The fragment of JavaScript's value semantics that the CSV engine relies on:
 * parsed-JSON values, truthiness, `||`, property access (which throws on
 * `undefined` and `null`), `String(v)`, `Array.prototype.join`, and the few
 * string methods the converters call.
 */
module JsValue {

  /** A JSON value as `JSON.parse` produces it, plus `undefined`. Numbers are integers. */
  datatype Value =
    | Undef
    | Null
    | Bool(b: bool)
    | Num(n: int)
    | Str(s: string)
    | Arr(items: seq<Value>)
    | Obj(entries: seq<Entry>)

  /** One own property of an object, in `Object.entries` order. */
  datatype Entry = Entry(key: string, val: Value)

  /** The exceptions the converters can raise; `Error` is a plain `new Error(...)`, as thrown for a missing token or an HTTP error status. */
  datatype JsError = TypeError | RangeError | Error

  /** The outcome of JavaScript code that may throw. */
  datatype Result<+T> = Ok(value: T) | Throw(error: JsError) {
    predicate IsFailure() { Throw? }
    function PropagateFailure<U>(): Result<U> requires Throw? { Throw(error) }
    function Extract(): T requires Ok? { value }
  }

  datatype Option<+T> = None | Some(value: T)

  predicate Nullish(v: Value) {
    v.Undef? || v.Null?
  }

  /** JavaScript truthiness: `undefined`, `null`, `false`, `0` and `''` are falsy. */
  predicate Truthy(v: Value) {
    match v
    case Undef => false
    case Null => false
    case Bool(b) => b
    case Num(n) => n != 0
    case Str(s) => s != ""
    case Arr(_) => true
    case Obj(_) => true
  }

  /** `a || b` */
  function Or(a: Value, b: Value): Value {
    if Truthy(a) then a else b
  }

  const Empty: Value := Str("")

  /** The value of the first entry named `k`, or `undefined`. */
  function Lookup(es: seq<Entry>, k: string): Value {
    if es == [] then Undef
    else if es[0].key == k then es[0].val
    else Lookup(es[1..], k)
  }

  /** `v[k]` for a value that is neither `undefined` nor `null`. */
  function Get(v: Value, k: string): Value {
    if v.Obj? then Lookup(v.entries, k) else Undef
  }

  /** `v[k]`, which throws a TypeError on `undefined` and `null`. */
  function Prop(v: Value, k: string): (r: Result<Value>)
    ensures r.Throw? <==> Nullish(v)
  {
    if Nullish(v) then Throw(TypeError) else Ok(Get(v, k))
  }

  /** `v[i]` for a value that is neither `undefined` nor `null`. */
  function At(v: Value, i: int): Value {
    match v
    case Arr(items) => if 0 <= i < |items| then items[i] else Undef
    case Str(s) => if 0 <= i < |s| then Str([s[i]]) else Undef
    case Obj(es) => Lookup(es, IntToString(i))
    case _ => Undef
  }

  /** `v[i]`, which throws a TypeError on `undefined` and `null`. */
  function Index(v: Value, i: int): (r: Result<Value>)
    ensures r.Throw? <==> Nullish(v)
  {
    if Nullish(v) then Throw(TypeError) else Ok(At(v, i))
  }

  /** The values `for (const x of v)` visits: an array's elements or a string's characters. */
  function ForOfItems(v: Value): (r: Result<seq<Value>>)
    ensures r.Ok? <==> v.Arr? || v.Str?
  {
    match v
    case Arr(items) => Ok(items)
    case Str(s) => Ok(seq(|s|, i requires 0 <= i < |s| => Str([s[i]])))
    case _ => Throw(TypeError)
  }

  /** `v[k] = x`; on a primitive this is ignored in sloppy mode and a TypeError in strict mode. */
  function SetProp(v: Value, k: string, x: Value, strict: bool): (r: Result<Value>)
    ensures r.Throw? <==> Nullish(v) || (strict && !v.Obj? && !v.Arr?)
    ensures r.Ok? && v.Obj? ==> Get(r.value, k) == x
    ensures r.Ok? && v.Obj? ==> forall k' :: k' != k ==> Get(r.value, k') == Get(v, k')
    ensures r.Ok? && !v.Obj? ==> r.value == v
  {
    match v
    case Undef => Throw(TypeError)
    case Null => Throw(TypeError)
    case Obj(es) => Ok(Obj(SetEntry(es, k, x)))
    case Arr(_) => Ok(v)
    case _ => if strict then Throw(TypeError) else Ok(v)
  }

  function SetEntry(es: seq<Entry>, k: string, x: Value): (r: seq<Entry>)
    ensures Lookup(r, k) == x
    ensures forall k' :: k' != k ==> Lookup(r, k') == Lookup(es, k')
  {
    if es == [] then [Entry(k, x)]
    else if es[0].key == k then [Entry(k, x)] + es[1..]
    else [es[0]] + SetEntry(es[1..], k, x)
  }

  /** The elements `v.forEach` visits: only an array has a `forEach` method. */
  function ForEachItems(v: Value): (r: Result<seq<Value>>)
    ensures r.Ok? <==> v.Arr?
    ensures v.Arr? ==> r.value == v.items
  {
    if v.Arr? then Ok(v.items) else Throw(TypeError)
  }

  /** `v.split('')`: only a string has a `split` method. */
  function SplitChars(v: Value): (r: Result<Value>)
    ensures r.Ok? <==> v.Str?
    ensures v.Str? ==> r.value.Arr? && |r.value.items| == |v.s|
    ensures v.Str? ==> forall i :: 0 <= i < |v.s| ==> r.value.items[i] == Str([v.s[i]])
  {
    if v.Str? then Ok(Arr(seq(|v.s|, i requires 0 <= i < |v.s| => Str([v.s[i]])))) else Throw(TypeError)
  }

  function Digit(d: nat): char
    requires d < 10
  {
    "0123456789"[d]
  }

  function DigitValue(c: char): nat {
    if '0' <= c <= '9' then (c as int - '0' as int) as nat else 0
  }

  predicate IsDigit(c: char) {
    '0' <= c <= '9'
  }

  /** The decimal text of a natural number, without leading zeros. */
  function NatToString(n: nat): (r: string)
    ensures |r| > 0
    ensures forall i :: 0 <= i < |r| ==> IsDigit(r[i])
  {
    if n < 10 then [Digit(n)] else NatToString(n / 10) + [Digit(n % 10)]
  }

  function IntToString(i: int): (r: string)
    ensures |r| > 0
  {
    if i < 0 then "-" + NatToString(-i) else NatToString(i)
  }

  /** The number denoted by a string of decimal digits. */
  function ParseNat(s: string): nat {
    if s == [] then 0 else 10 * ParseNat(s[..|s| - 1]) + DigitValue(s[|s| - 1])
  }

  lemma {:induction false} ParseNatToString(n: nat)
    ensures ParseNat(NatToString(n)) == n
  {
    var r := NatToString(n);
    if n >= 10 {
      ParseNatToString(n / 10);
      assert r[..|r| - 1] == NatToString(n / 10);
    }
  }

  lemma {:induction false} NatToStringLength(n: nat, k: nat)
    requires k > 0
    ensures Pow10(k - 1) <= n < Pow10(k) ==> |NatToString(n)| == k
  {
    if k > 1 && Pow10(k - 1) <= n < Pow10(k) {
      NatToStringLength(n / 10, k - 1);
    }
  }

  function Pow10(k: nat): nat {
    if k == 0 then 1 else 10 * Pow10(k - 1)
  }

  /** `String(v)`, the conversion a template literal, a property key and `join` apply. */
  function ToString(v: Value): string
    decreases v, 1
  {
    match v
    case Undef => "undefined"
    case Null => "null"
    case Bool(b) => if b then "true" else "false"
    case Num(n) => IntToString(n)
    case Str(s) => s
    case Arr(items) => JoinValues(items, ",")
    case Obj(_) => "[object Object]"
  }

  /** `vs.join(sep)`: `undefined` and `null` elements render as nothing. */
  function JoinValues(vs: seq<Value>, sep: string): string
    decreases vs, 0
  {
    if vs == [] then ""
    else if |vs| == 1 then (if Nullish(vs[0]) then "" else ToString(vs[0]))
    else (if Nullish(vs[0]) then "" else ToString(vs[0])) + sep + JoinValues(vs[1..], sep)
  }

  /** How one element of an array renders inside `join`. */
  function ElemText(v: Value): string {
    if Nullish(v) then "" else ToString(v)
  }

  /** `ss.join(sep)` for an array of strings. */
  function JoinStrings(ss: seq<string>, sep: string): string {
    if ss == [] then ""
    else if |ss| == 1 then ss[0]
    else ss[0] + sep + JoinStrings(ss[1..], sep)
  }

  lemma {:induction false} JoinValuesElems(vs: seq<Value>, sep: string)
    ensures JoinValues(vs, sep) == JoinStrings(seq(|vs|, i requires 0 <= i < |vs| => ElemText(vs[i])), sep)
  {
    if |vs| > 1 {
      JoinValuesElems(vs[1..], sep);
      assert seq(|vs[1..]|, i requires 0 <= i < |vs[1..]| => ElemText(vs[1..][i]))
          == seq(|vs|, i requires 0 <= i < |vs| => ElemText(vs[i]))[1..];
    }
  }

  /** `s.includes(sub)` */
  predicate Includes(s: string, sub: string) {
    if sub <= s then true
    else if s == [] then false
    else Includes(s[1..], sub)
  }

  lemma {:induction false} IncludesAt(s: string, sub: string, i: nat)
    requires i + |sub| <= |s| && s[i..i + |sub|] == sub
    ensures Includes(s, sub)
  {
    if i > 0 && !(sub <= s) {
      assert s[1..][i - 1..i - 1 + |sub|] == sub;
      IncludesAt(s[1..], sub, i - 1);
    }
  }

  lemma {:induction false} IncludesChar(s: string, c: char)
    ensures Includes(s, [c]) <==> c in s
  {
    if s != [] && s[0] != c {
      IncludesChar(s[1..], c);
      assert c in s <==> c in s[1..];
    }
  }

  function LowerChar(c: char): char {
    if 'A' <= c <= 'Z' then (c as int + 32) as char else c
  }

  /** `s.toLowerCase()` on the ASCII letters. */
  function ToLower(s: string): (r: string)
    ensures |r| == |s|
    ensures forall i :: 0 <= i < |s| ==> r[i] == LowerChar(s[i])
  {
    if s == [] then [] else [LowerChar(s[0])] + ToLower(s[1..])
  }
}
