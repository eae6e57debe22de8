/** JavaScript values as far as the router can tell them apart: their `typeof`
    name, their truthiness, and whether they offer the synchronous or the
    asynchronous iteration protocol. */
module Values {

  /** A JavaScript value. Iterable values carry the finite sequence of items
      their iterator produces; awaiting is abstracted away, so an asynchronous
      iterable is the sequence of its already-resolved items. */
  datatype Value =
    | Undefined
    | Null
    | Bool(b: bool)
    | Num(n: int)
    | BigInt(i: int)
    | Str(s: string)
    | Sym(description: string)
    | Func(id: nat)
    | Obj(fields: map<string, Value>)
    /** An Array. */
    | Arr(items: seq<Value>)
    /** Any other object exposing `Symbol.iterator` (a generator, a Set, ...). */
    | Iter(items: seq<Value>)
    /** An object exposing `Symbol.asyncIterator` only (an async generator, an object stream). */
    | AsyncIter(items: seq<Value>)

  /** `isIterable`: the value has a callable `Symbol.iterator`. Strings do
      (through String.prototype); `null` and `undefined` never do. */
  predicate IsIterable(v: Value) {
    v.Str? || v.Arr? || v.Iter?
  }

  /** `isAsyncIterable`: the value has a callable `Symbol.asyncIterator`. */
  predicate IsAsyncIterable(v: Value) {
    v.AsyncIter?
  }

  /** Only strings and non-null objects can carry an iterator method: the
      optional chaining in both tests makes `null` and `undefined` fail them,
      and every string passes `isIterable` through String.prototype. */
  lemma Capabilities(v: Value)
    ensures IsIterable(v) ==> TypeOf(v) == "string" || (TypeOf(v) == "object" && Truthy(v))
    ensures IsAsyncIterable(v) ==> TypeOf(v) == "object" && Truthy(v)
    ensures v.Undefined? || v.Null? ==> !IsIterable(v) && !IsAsyncIterable(v)
    ensures v.Str? ==> IsIterable(v)
  {
  }

  /** `typeof v === 'function'`. */
  predicate IsFunction(v: Value)
    ensures IsFunction(v) <==> TypeOf(v) == "function"
  {
    v.Func?
  }

  /** The items an iterable value produces, in order. A string iterates by
      code point, each one produced as a one-character string. */
  function Elements(v: Value): (r: seq<Value>)
    requires IsIterable(v) || IsAsyncIterable(v)
    ensures v.Str? ==> |r| == |v.s| && forall i :: 0 <= i < |r| ==> r[i] == Str([v.s[i]])
    ensures !v.Str? ==> r == v.items
  {
    if v.Str? then seq(|v.s|, i requires 0 <= i < |v.s| => Str([v.s[i]]))
    else v.items
  }

  /** The `typeof` operator. */
  function TypeOf(v: Value): string {
    match v
    case Undefined => "undefined"
    case Null => "object"
    case Bool(_) => "boolean"
    case Num(_) => "number"
    case BigInt(_) => "bigint"
    case Str(_) => "string"
    case Sym(_) => "symbol"
    case Func(_) => "function"
    case Obj(_) => "object"
    case Arr(_) => "object"
    case Iter(_) => "object"
    case AsyncIter(_) => "object"
  }

  /** JavaScript truthiness (ToBoolean); every object is truthy, `null` is not. */
  predicate Truthy(v: Value) {
    match v
    case Undefined => false
    case Null => false
    case Bool(b) => b
    case Num(n) => n != 0
    case BigInt(i) => i != 0
    case Str(s) => s != ""
    case _ => true
  }

  /** The name the router reports for a rejected second argument:
      `typeof v === 'object' ? (v ? 'object' : 'null') : typeof v`. */
  function TypeName(v: Value): (name: string)
    ensures name == "null" <==> v.Null?
    ensures name == "object" <==> (v.Obj? || v.Arr? || v.Iter? || v.AsyncIter?)
    ensures name == "function" <==> IsFunction(v)
    ensures name in {"undefined", "null", "boolean", "number", "bigint", "string", "symbol", "function", "object"}
    ensures TypeOf(v) != "object" ==> name == TypeOf(v)
  {
    if TypeOf(v) == "object" then (if Truthy(v) then "object" else "null")
    else TypeOf(v)
  }
}
