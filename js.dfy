/** JavaScript values and plain objects, as far as the input component uses them.

    Values are immutable data (`Value`); a plain object that the component
    changes in place with `Object.assign` or a property write (the bound
    instance, the configuration object, the validation-class table, a type
    recipe, a results map) is a `JsObject`, so that aliasing and identity
    (`===`) behave as in the source. */
module Js {

  datatype Option<+T> = None | Some(value: T)

  /** A JavaScript value. `Obj` is a plain-data object literal (rule sets,
      default props, error payloads); `Fn` is a function or component
      reference known only by name; `Ref` is a reference to an object the
      prop assembly only passes along (a bucket, a results map). */
  datatype Value =
    | Undefined
    | Null
    | Bool(b: bool)
    | Num(n: int)
    | Str(s: string)
    | Obj(fields: map<string, Value>)
    | List(items: seq<Value>)
    | Fn(name: string)
    | Ref(id: nat)

  /** `undefined == null` and `null == null`: loose equality with null. */
  predicate Nullish(v: Value) {
    v.Undefined? || v.Null?
  }

  /** JavaScript truthiness (NaN is not a value of this model). */
  predicate Truthy(v: Value) {
    match v
    case Undefined => false
    case Null => false
    case Bool(b) => b
    case Num(n) => n != 0
    case Str(s) => s != ""
    case _ => true
  }

  /** `a || b` */
  function Or(a: Value, b: Value): (r: Value)
    ensures Truthy(r) <==> Truthy(a) || Truthy(b)
    ensures Truthy(a) ==> r == a
  {
    if Truthy(a) then a else b
  }

  /** Property read `v[k]`; a missing property reads as `undefined`. */
  function Get(v: Value, k: string): Value {
    if v.Obj? && k in v.fields then v.fields[k] else Undefined
  }

  /** The own enumerable properties that `Object.assign` copies from `v`. */
  function OwnProps(v: Value): map<string, Value> {
    if v.Obj? then v.fields else map[]
  }

  function DigitChar(d: nat): (c: char)
    requires d < 10
    ensures '0' <= c <= '9'
  {
    "0123456789"[d]
  }

  /** Decimal notation of a natural number, as `String(n)` prints it. */
  function NatToDecimal(n: nat): (s: string)
    ensures |s| >= 1
    ensures forall i :: 0 <= i < |s| ==> '0' <= s[i] <= '9'
    ensures n < 10 <==> |s| == 1
  {
    if n < 10 then [DigitChar(n)] else NatToDecimal(n / 10) + [DigitChar(n % 10)]
  }

  function IntToDecimal(n: int): string {
    if n < 0 then "-" + NatToDecimal(-n) else NatToDecimal(n)
  }

  /** The string conversion that `+` applies when one operand is a string
      and that a computed property key `o[v]` applies to `v`. */
  function ToStr(v: Value): string {
    match v
    case Undefined => "undefined"
    case Null => "null"
    case Bool(b) => if b then "true" else "false"
    case Num(n) => IntToDecimal(n)
    case Str(s) => s
    case Obj(_) => "[object Object]"
    case List(items) =>
      JoinComma(seq(|items|, i requires 0 <= i < |items| =>
        if Nullish(items[i]) then "" else ToStr(items[i])))
    case Fn(name) => name
    case Ref(_) => "[object Object]"
  }

  /** `Array.prototype.join` with the default separator. */
  function JoinComma(parts: seq<string>): string {
    if parts == [] then ""
    else if |parts| == 1 then parts[0]
    else JoinComma(parts[..|parts| - 1]) + "," + parts[|parts| - 1]
  }

  const TwoTo32: int := 0x1_0000_0000
  const TwoTo31: int := 0x8000_0000

  /** ToInt32, the conversion every bitwise operator applies first.
      Strings and objects convert through NaN to 0 here (numeric parsing
      of strings is not modelled). */
  function ToInt32(v: Value): (r: int)
    ensures -TwoTo31 <= r < TwoTo31
  {
    match v
    case Bool(b) => if b then 1 else 0
    case Num(n) => var m := n % TwoTo32; if m >= TwoTo31 then m - TwoTo32 else m
    case _ => 0
  }

  /** `x |= flag` for a boolean `flag`: the result is a Number whose lowest
      bit is the old lowest bit or the flag, and whose other bits are the
      old ones. */
  function OrFlag(old_: Value, flag: bool): (r: Value)
    ensures r.Num?
    ensures ToInt32(r) % 2 == 1 <==> ToInt32(old_) % 2 == 1 || flag
    ensures ToInt32(r) / 2 == ToInt32(old_) / 2
  {
    var x := ToInt32(old_);
    Num(if flag && x % 2 == 0 then x + 1 else x)
  }

  /** A plain JavaScript object that the source changes in place. */
  class JsObject {
    var props: map<string, Value>

    constructor (init: map<string, Value>)
      ensures props == init
    {
      props := init;
    }

    /** `Object.assign(this, source)` */
    method Assign(source: map<string, Value>)
      modifies this
      ensures props == old(props) + source
    {
      props := props + source;
    }

    /** `this[k] = v` */
    method Put(k: string, v: Value)
      modifies this
      ensures props == old(props)[k := v]
    {
      props := props[k := v];
    }
  }

  /** Calls a JavaScript function value with arguments; the functions are
      the application's (hooks, callbacks), not part of this model. */
  type Host = (Value, seq<Value>) -> Value
}
