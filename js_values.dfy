/**
 * The JavaScript values the error library reads and writes, with the two
 * conversions its guards rely on: truthiness (`if (x)`) and the string a value
 * turns into when it is used as a property key or concatenated to a string.
 */
module JsValues {

  datatype Option<+T> = None | Some(value: T)

  datatype Result<+T, +E> = Success(value: T) | Failure(error: E)

  /**
   * A JavaScript value. Numbers are integers; an object (a plain object, an
   * array) is its own enumerable properties, and an `Error` instance also
   * holds its own `message`, `name` and `stack`, which are not enumerable but
   * are read by name; a function is known only by an identity, since its body
   * is user code.
   */
  datatype Value =
    | Undefined
    | Null
    | Bool(b: bool)
    | Num(n: int)
    | Str(s: string)
    | Obj(fields: map<string, Value>)
    | Func(id: nat)

  /** A plain object used as a dictionary: the serialised error, metadata maps. */
  type Record = map<string, Value>

  /** An exception thrown by the library: `new Error(message)`, or the engine's
      TypeError when a property is read from `undefined` or `null`. */
  datatype Thrown = Error(message: string) | TypeError(reading: string)

  /** JavaScript truthiness: `if (v)` takes its branch iff `Truthy(v)`. */
  predicate Truthy(v: Value)
  {
    match v
    case Undefined => false
    case Null => false
    case Bool(b) => b
    case Num(n) => n != 0
    case Str(s) => s != ""
    case Obj(_) => true
    case Func(_) => true
  }

  /** `typeof v === 'object'`: true of objects and, famously, of `null`. */
  predicate IsObjectTyped(v: Value)
  {
    v.Obj? || v.Null?
  }

  /** Reading `r[key]` from a plain object: a missing key reads as undefined. */
  function Get(r: Record, key: string): (v: Value)
    ensures v != Undefined ==> key in r && r[key] == v
  {
    if key in r then r[key] else Undefined
  }

  /** `v?.key`: undefined unless `v` is an object holding `key`
      (the primitives never carry the keys this library reads). */
  function OptionalMember(v: Value, key: string): Value
  {
    if v.Obj? then Get(v.fields, key) else Undefined
  }

  function DigitChar(d: nat): char
    requires d < 10
  {
    "0123456789"[d]
  }

  /** Decimal notation of a natural number, as `Number.prototype.toString` gives it. */
  function NatToDecimal(n: nat): (s: string)
    ensures |s| >= 1
    decreases n
  {
    if n < 10 then [DigitChar(n)] else NatToDecimal(n / 10) + [DigitChar(n % 10)]
  }

  /**
   * `String(v)`: the string a value becomes as a property key, under `+` with a
   * string, or through `toString()`. A function's source text is unknown here
   * and is represented by the word "function".
   */
  function ToString(v: Value): string
  {
    match v
    case Undefined => "undefined"
    case Null => "null"
    case Bool(b) => if b then "true" else "false"
    case Num(n) => if n < 0 then "-" + NatToDecimal(-n) else NatToDecimal(n)
    case Str(s) => s
    case Obj(_) => "[object Object]"
    case Func(_) => "function"
  }
}
