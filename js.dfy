/**
 * JavaScript values as the services see them after `JSON.parse`, together with the
 * few language rules the source leans on: truthiness, `a || b`, `a ?? b`, property
 * access with and without optional chaining, `typeof x === "object"` and `String(x)`.
 */
module Js {

  /** A JavaScript value. An object keeps its own enumerable keys in insertion order
      (the order `Object.keys` reports) with the value stored under each key. */
  datatype Json =
    | JUndefined
    | JNull
    | JBool(b: bool)
    | JNum(n: real)
    | JStr(s: string)
    | JArr(items: seq<Json>)
    | JObj(keys: seq<string>, vals: seq<Json>)

  /** A JavaScript number as `Number(x)` yields it. */
  datatype Num = Finite(value: real) | NaN | Infinite(positive: bool)

  /** Number formatting, number parsing and `JSON.stringify` belong to the JavaScript
      engine; the model takes them as given functions. */
  datatype Runtime = Runtime(
    numberToString: real -> string,
    parseNumber: string -> Num,
    stringify: Json -> string)

  /** JavaScript truthiness (`NaN` is not a JSON value, so `0` is the only falsy number). */
  predicate Truthy(v: Json)
  {
    match v
    case JUndefined => false
    case JNull => false
    case JBool(b) => b
    case JNum(n) => n != 0.0
    case JStr(s) => s != ""
    case _ => true
  }

  /** `a || b` */
  function Or(a: Json, b: Json): (r: Json)
    ensures Truthy(a) ==> r == a
    ensures !Truthy(a) ==> r == b
  {
    if Truthy(a) then a else b
  }

  /** `a ?? b` */
  function Coalesce(a: Json, b: Json): (r: Json)
    ensures Nullish(a) ==> r == b
    ensures !Nullish(a) ==> r == a
  {
    if Nullish(a) then b else a
  }

  /** What a `throw` carries: an `Error` with its message, the `TypeError` the engine
      raises when a property of `null`/`undefined` is read, or the `ReferenceError` of a
      name that is not bound (the wording of those two is the engine's). */
  datatype Exception = Error(message: string) | TypeError | ReferenceError

  /** `null` or `undefined`: reading a property of these throws a TypeError. */
  predicate Nullish(v: Json)
  {
    v.JUndefined? || v.JNull?
  }

  /** `typeof v === "object"` (true of `null`, arrays and plain objects). */
  predicate IsObjectType(v: Json)
  {
    v.JNull? || v.JArr? || v.JObj?
  }

  /** The value stored under the first occurrence of `k`, or `undefined`. */
  function Lookup(keys: seq<string>, vals: seq<Json>, k: string): (r: Json)
    ensures r == JUndefined || r in vals
  {
    if keys == [] || vals == [] then JUndefined
    else if keys[0] == k then vals[0]
    else Lookup(keys[1..], vals[1..], k)
  }

  /** The value under `k` is the one at the first position holding `k`. */
  lemma {:induction false} LookupAt(keys: seq<string>, vals: seq<Json>, k: string, i: int)
    requires 0 <= i < |keys| && i < |vals| && keys[i] == k
    requires forall j :: 0 <= j < i ==> keys[j] != k
    ensures Lookup(keys, vals, k) == vals[i]
  {
    if i > 0 {
      LookupAt(keys[1..], vals[1..], k, i - 1);
    }
  }

  /** `v?.k`: a property read that yields `undefined` on a missing key, on a primitive
      and (through optional chaining) on `null`/`undefined`. Only plain objects carry
      named properties here. */
  function Prop(v: Json, k: string): Json
  {
    match v
    case JObj(keys, vals) => Lookup(keys, vals, k)
    case _ => JUndefined
  }

  /** `v?.[0]`: the first element of an array, or `undefined`. */
  function First(v: Json): Json
  {
    match v
    case JArr(items) => if items == [] then JUndefined else items[0]
    case JObj(keys, vals) => Lookup(keys, vals, "0")
    case _ => JUndefined
  }

  /** A non-empty array whose first element is a number (what `findFirstArray` looks for). */
  predicate IsNumericArray(v: Json)
  {
    v.JArr? && |v.items| > 0 && v.items[0].JNum?
  }

  /** `String(v)`, also what a template literal `${v}` produces. */
  function Display(v: Json, rt: Runtime): string
    decreases v
  {
    match v
    case JUndefined => "undefined"
    case JNull => "null"
    case JBool(b) => if b then "true" else "false"
    case JNum(n) => rt.numberToString(n)
    case JStr(s) => s
    case JArr(items) => Join(items, ",", rt)
    case JObj(_, _) => "[object Object]"
  }

  /** `items.join(sep)`: `null` and `undefined` elements print as "". */
  function Join(items: seq<Json>, sep: string, rt: Runtime): string
    decreases items
  {
    if items == [] then ""
    else
      var head := if Nullish(items[0]) then "" else Display(items[0], rt);
      if |items| == 1 then head else head + sep + Join(items[1..], sep, rt)
  }

  /** `v` is `t` or occurs somewhere inside `t`. */
  predicate Occurs(v: Json, t: Json)
    decreases t
  {
    v == t ||
    match t
    case JArr(items) => OccursIn(v, items)
    case JObj(_, vals) => OccursIn(v, vals)
    case _ => false
  }

  predicate OccursIn(v: Json, ts: seq<Json>)
    decreases ts
  {
    ts != [] && (Occurs(v, ts[0]) || OccursIn(v, ts[1..]))
  }

  lemma {:induction false} OccursInMember(x: Json, ts: seq<Json>)
    requires x in ts
    ensures OccursIn(x, ts)
  {
    if x != ts[0] {
      OccursInMember(x, ts[1..]);
    }
  }

  /** Whatever occurs in one element of `ts` occurs in `ts`. */
  lemma {:induction false} OccursInChild(v: Json, t: Json, ts: seq<Json>)
    requires t in ts && Occurs(v, t)
    ensures OccursIn(v, ts)
  {
    if t != ts[0] {
      OccursInChild(v, t, ts[1..]);
    }
  }

  /** "Occurs inside" is transitive. */
  lemma {:induction false} OccursTrans(a: Json, b: Json, c: Json)
    requires Occurs(a, b) && Occurs(b, c)
    ensures Occurs(a, c)
    decreases c
  {
    if b != c {
      match c
      case JArr(items) => OccursInTrans(a, b, items);
      case JObj(_, vals) => OccursInTrans(a, b, vals);
    }
  }

  lemma {:induction false} OccursInTrans(a: Json, b: Json, ts: seq<Json>)
    requires Occurs(a, b) && OccursIn(b, ts)
    ensures OccursIn(a, ts)
    decreases ts
  {
    if Occurs(b, ts[0]) {
      OccursTrans(a, b, ts[0]);
    } else {
      OccursInTrans(a, b, ts[1..]);
    }
  }

  /** A property that is present, and the first element of an array, sit inside the value. */
  lemma PropOccurs(v: Json, k: string)
    ensures Prop(v, k) != JUndefined ==> Occurs(Prop(v, k), v)
  {
    if v.JObj? && Prop(v, k) != JUndefined {
      OccursInMember(Prop(v, k), v.vals);
    }
  }

  lemma FirstOccurs(v: Json)
    ensures First(v) != JUndefined ==> Occurs(First(v), v)
  {
    if First(v) != JUndefined {
      match v
      case JArr(items) => OccursInMember(items[0], items);
      case JObj(keys, vals) => OccursInMember(First(v), vals);
    }
  }

  /** `Number(v)`: strings are parsed by the engine, arrays and objects are first turned
      into strings. */
  function ToNumber(v: Json, rt: Runtime): Num
  {
    match v
    case JUndefined => NaN
    case JNull => Finite(0.0)
    case JBool(b) => Finite(if b then 1.0 else 0.0)
    case JNum(n) => Finite(n)
    case JStr(s) => rt.parseNumber(s)
    case _ => rt.parseNumber(Display(v, rt))
  }

  /** `Boolean(n)` for a number: `0` and `NaN` are falsy. */
  predicate NumTruthy(n: Num)
  {
    match n
    case Finite(x) => x != 0.0
    case NaN => false
    case Infinite(_) => true
  }
}
