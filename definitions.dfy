/**
 * The two definition tables a registry is built from (src/interfaces.ts):
 * high-level errors, the categories a caller sees, and low-level errors, the
 * specific causes. A table is a plain object whose keys are the error names;
 * its key order (`Object.keys`) matters to the helpers that walk it.
 */
module Definitions {
  import opened JsValues

  /** A high-level definition. Fields the user may leave out are `Undefined`. */
  datatype HighLevelDef = HighLevelDef(
    className: Value,
    code: Value,
    statusCode: Value,
    logLevel: Value,
    onConvert: Value,
    message: Value)

  /** A low-level definition; `errorType` is the `type` property the
      registry writes onto it. */
  datatype LowLevelDef = LowLevelDef(
    message: Value,
    subCode: Value,
    statusCode: Value,
    logLevel: Value,
    onConvert: Value,
    errorType: Value)

  /** A definition with only a code, as `fromJSON` builds one. */
  function CodeOnly(code: Value): HighLevelDef
  {
    HighLevelDef(Undefined, code, Undefined, Undefined, Undefined, Undefined)
  }

  /** A definition with only a message, as `fromJSON` and `newBareError` build one. */
  function MessageOnly(message: Value): LowLevelDef
  {
    LowLevelDef(message, Undefined, Undefined, Undefined, Undefined, Undefined)
  }

  predicate Distinct(keys: seq<string>)
  {
    forall i, j :: 0 <= i < j < |keys| ==> keys[i] != keys[j]
  }

  /** A user's high-level table, updated in place by the helpers. */
  class HighLevelTable {
    var keys: seq<string>
    var defs: map<string, HighLevelDef>

    ghost predicate Valid()
      reads this
    {
      Distinct(keys) && (forall k :: k in defs <==> k in keys)
    }

    constructor (keys: seq<string>, defs: map<string, HighLevelDef>)
      requires Distinct(keys) && (forall k :: k in defs <==> k in keys)
      ensures Valid() && this.keys == keys && this.defs == defs
    {
      this.keys := keys;
      this.defs := defs;
    }
  }

  /** A user's low-level table, updated in place by the helpers and by the
      registry, which writes each entry's `type`. */
  class LowLevelTable {
    var keys: seq<string>
    var defs: map<string, LowLevelDef>

    ghost predicate Valid()
      reads this
    {
      Distinct(keys) && (forall k :: k in defs <==> k in keys)
    }

    constructor (keys: seq<string>, defs: map<string, LowLevelDef>)
      requires Distinct(keys) && (forall k :: k in defs <==> k in keys)
      ensures Valid() && this.keys == keys && this.defs == defs
    {
      this.keys := keys;
      this.defs := defs;
    }
  }
}
