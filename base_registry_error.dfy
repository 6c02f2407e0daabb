/**
 * BaseRegistryError: the error class the registry instantiates. Its
 * constructor combines a high-level definition (the category) with a
 * low-level one (the cause) under fixed override rules, and its `fromJSON`
 * rebuilds one from a serialised error.
 */
module RegistryErrors {
  import opened JsValues
  import opened Definitions
  import opened BaseErrors

  /** The `onConvert` the constructor puts into the configuration: the
      low-level function, else the high-level function, else what the
      configuration already had. */
  function ResolvedOnConvert(config: ErrorConfig, hl: HighLevelDef, ll: LowLevelDef): Value
  {
    if ll.onConvert.Func? then ll.onConvert
    else if hl.onConvert.Func? then hl.onConvert
    else config.onConvert
  }

  /** The configuration object after the constructor has run: the source
      writes the resolved `onConvert` into the object it was handed. */
  function ConfigAfter(config: ErrorConfig, hl: HighLevelDef, ll: LowLevelDef): (r: ErrorConfig)
    ensures r.onConvert.Func? <==> hl.onConvert.Func? || ll.onConvert.Func? || config.onConvert.Func?
    ensures r.(onConvert := config.onConvert) == config
  {
    config.(onConvert := ResolvedOnConvert(config, hl, ll))
  }

  /** The high-level setters: the code always, status code and log level when truthy. */
  function HighLevelStep(st: ErrorState, hl: HighLevelDef): ErrorState
  {
    var withCode := st.(code := hl.code);
    var withStatus := if Truthy(hl.statusCode) then withCode.(statusCode := hl.statusCode) else withCode;
    if Truthy(hl.logLevel) then withStatus.(logLevel := hl.logLevel) else withStatus
  }

  /** The low-level setters, each applied only when its value is truthy. */
  function LowLevelStep(st: ErrorState, ll: LowLevelDef): ErrorState
  {
    var withStatus := if Truthy(ll.statusCode) then st.(statusCode := ll.statusCode) else st;
    var withType := if Truthy(ll.errorType) then withStatus.(errorType := ll.errorType) else withStatus;
    var withSub := if Truthy(ll.subCode) then withType.(subCode := ll.subCode) else withType;
    if Truthy(ll.logLevel) then withSub.(logLevel := ll.logLevel) else withSub
  }

  /**
   * `new C(hl, ll, config)` for a class C named `name`. The override rules:
   * the code comes from the high-level definition whatever it is; the status
   * code and log level from the low-level one when truthy, else from the
   * high-level one when truthy, else they stay unset; type and sub-code only
   * from the low-level one; `onConvert` from the low-level function, else the
   * high-level function, else the configuration.
   */
  function Constructed(hl: HighLevelDef, ll: LowLevelDef, config: ErrorConfig, name: Value, capturedStack: string): (r: ErrorState)
    ensures Wellformed(r) && !r.hasMetadata && !r.appendedWithErrorMsg
    ensures r.name == name && r.stack == Str(capturedStack)
    ensures r.message == (if ll.message == Undefined then Str("") else ll.message)
    ensures r.code == hl.code
    ensures Truthy(ll.statusCode) ==> r.statusCode == ll.statusCode
    ensures !Truthy(ll.statusCode) && Truthy(hl.statusCode) ==> r.statusCode == hl.statusCode
    ensures !Truthy(ll.statusCode) && !Truthy(hl.statusCode) ==> r.statusCode == Undefined
    ensures Truthy(ll.logLevel) ==> r.logLevel == ll.logLevel
    ensures !Truthy(ll.logLevel) && Truthy(hl.logLevel) ==> r.logLevel == hl.logLevel
    ensures !Truthy(ll.logLevel) && !Truthy(hl.logLevel) ==> r.logLevel == Undefined
    ensures r.errorType == Kept(ll.errorType) && r.subCode == Kept(ll.subCode)
    ensures ll.onConvert.Func? ==> r.onConvert == ll.onConvert
    ensures !ll.onConvert.Func? && hl.onConvert.Func? ==> r.onConvert == hl.onConvert
    ensures !ll.onConvert.Func? && !hl.onConvert.Func? ==>
      r.onConvert == (if Truthy(config.onConvert) then config.onConvert else Null)
    ensures r.errId == Undefined && r.reqId == Undefined && r.causedBy == Undefined
    ensures r.config == ConfigAfter(config, hl, ll)
  {
    LowLevelStep(HighLevelStep(Initial(ll.message, ConfigAfter(config, hl, ll), name, capturedStack), hl), ll)
  }

  /** The constructor; `cls` is the generated class (or BaseRegistryError
      itself) and the stack the engine captures is a parameter. */
  method NewRegistryError(hl: HighLevelDef, ll: LowLevelDef, config: ErrorConfig, cls: ErrorClass, capturedStack: string)
    returns (err: BaseError)
    requires !cls.BaseErrorClass?
    ensures fresh(err) && err.cls == cls && err.Valid()
    ensures err.State() == Constructed(hl, ll, config, ClassName(cls), capturedStack)
  {
    var resolved := config;
    if hl.onConvert.Func? {
      resolved := resolved.(onConvert := hl.onConvert);
    }
    if ll.onConvert.Func? {
      resolved := resolved.(onConvert := ll.onConvert);
    }
    err := new BaseError(ll.message, resolved, cls, capturedStack);
    ApplyHighLevel(err, hl);
    ApplyLowLevel(err, ll);
  }

  method ApplyHighLevel(err: BaseError, hl: HighLevelDef)
    requires err.Valid()
    modifies err
    ensures err.Valid() && err.State() == HighLevelStep(old(err.State()), hl)
  {
    err.WithErrorCode(hl.code);
    if Truthy(hl.statusCode) {
      err.WithStatusCode(hl.statusCode);
    }
    if Truthy(hl.logLevel) {
      err.WithLogLevel(hl.logLevel);
    }
  }

  method ApplyLowLevel(err: BaseError, ll: LowLevelDef)
    requires err.Valid()
    modifies err
    ensures err.Valid() && err.State() == LowLevelStep(old(err.State()), ll)
  {
    if Truthy(ll.statusCode) {
      err.WithStatusCode(ll.statusCode);
    }
    if Truthy(ll.errorType) {
      err.WithErrorType(ll.errorType);
    }
    if Truthy(ll.subCode) {
      err.WithErrorSubCode(ll.subCode);
    }
    if Truthy(ll.logLevel) {
      err.WithLogLevel(ll.logLevel);
    }
  }

  /** Static `fromJSON(data, opts)` of a registry error class `cls`: the
      instance is built from `data.code` and `data.message` with a fresh `{}`
      configuration, then the serialised fields are copied in. */
  function RegistryFromJSON(cls: ErrorClass, data: Value, opts: DeserializeOpts, printf: Printf, capturedStack: string)
    : Result<ErrorState, Thrown>
  {
    if !IsObjectTyped(data) then Failure(Error("fromJSON(): Data is not an object."))
    else if data.Null? then Failure(TypeError("code"))
    else
      var initial := Constructed(CodeOnly(Get(data.fields, "code")), MessageOnly(Get(data.fields, "message")),
                                 EmptyConfig, ClassName(cls), capturedStack);
      Success(CopyDeserialization(initial, data.fields, opts, printf))
  }

  method FromJSON(cls: ErrorClass, data: Value, opts: DeserializeOpts, printf: Printf, capturedStack: string)
    returns (r: Result<BaseError, Thrown>)
    requires !cls.BaseErrorClass?
    ensures r.Failure? <==> RegistryFromJSON(cls, data, opts, printf, capturedStack).Failure?
    ensures r.Failure? ==> r.error == RegistryFromJSON(cls, data, opts, printf, capturedStack).error
    ensures r.Success? ==>
      && fresh(r.value) && r.value.cls == cls && r.value.Valid()
      && r.value.State() == RegistryFromJSON(cls, data, opts, printf, capturedStack).value
  {
    if !IsObjectTyped(data) {
      return Failure(Error("fromJSON(): Data is not an object."));
    }
    if data.Null? {
      return Failure(TypeError("code"));
    }
    var err := NewRegistryError(CodeOnly(Get(data.fields, "code")), MessageOnly(Get(data.fields, "message")),
                                EmptyConfig, cls, capturedStack);
    BaseError.CopyDeserializationData(err, data.fields, opts, printf);
    return Success(err);
  }

  /** `fromJSON` rejects exactly the values whose `typeof` is not 'object',
      and reading `data.code` from `null` throws. */
  lemma RegistryFromJSONFailures(cls: ErrorClass, data: Value, opts: DeserializeOpts, printf: Printf, capturedStack: string)
    ensures var r := RegistryFromJSON(cls, data, opts, printf, capturedStack);
      && (!IsObjectTyped(data) <==> r == Failure(Error("fromJSON(): Data is not an object.")))
      && (data.Null? <==> r == Failure(TypeError("code")))
      && (data.Obj? <==> r.Success?)
  {
  }

  /** `registry.fromJSON(e.toJSON())` through a registry class: the code
      survives exactly, even when falsy, since the constructor takes it
      unconditionally (through `BaseError.fromJSON` only a truthy code
      survives, see `RoundTripFields`); the other identity fields survive
      when truthy, the message always (as "" when undefined), and the name
      becomes the class's own. */
  lemma RegistryRoundTripFields(cls: ErrorClass, st: ErrorState, hooks: Hooks, opts: DeserializeOpts,
                                printf: Printf, capturedStack: string)
    requires Transparent(st)
    ensures var back := RegistryFromJSON(cls, Obj(FullJSON(st, hooks, [])), opts, printf, capturedStack);
      && back.Success?
      && back.value.name == ClassName(cls)
      && back.value.code == st.code
      && back.value.subCode == Kept(st.subCode)
      && back.value.statusCode == Kept(st.statusCode)
      && back.value.errId == Kept(st.errId)
      && back.value.reqId == Kept(st.reqId)
      && back.value.logLevel == Kept(st.logLevel)
      && back.value.causedBy == Kept(st.causedBy)
      && back.value.message == (if st.message == Undefined then Str("") else st.message)
      && back.value.stack == (if Truthy(st.stack) then st.stack else Str(capturedStack))
  {
    CodesReadBack(st, hooks);
    IdsReadBack(st, hooks);
    DiagnosticsReadBack(st, hooks);
    var json := FullJSON(st, hooks, []);
    var initial := Constructed(CodeOnly(Get(json, "code")), MessageOnly(Get(json, "message")),
                               EmptyConfig, ClassName(cls), capturedStack);
    CopyDeserializationFields(initial, json, printf);
    CopyMetaOnlyMetadata(CopyCause(CopyFields(initial, json), json, printf), Get(json, "meta"), opts);
  }

  /** The constructor as written stores the resolved `onConvert` in the
      configuration object it was handed, which the registry passes to every
      error it creates: after an error of a definition with an `onConvert`,
      an error of a definition without one gets the earlier callback. */
  lemma OnConvertLeaks(config: ErrorConfig, a: HighLevelDef, b: HighLevelDef, ll: LowLevelDef,
                       name: Value, capturedStack: string)
    requires a.onConvert.Func? && !b.onConvert.Func? && !ll.onConvert.Func? && !Truthy(config.onConvert)
    ensures Constructed(b, ll, config, name, capturedStack).onConvert == Null
    ensures Constructed(b, ll, ConfigAfter(config, a, ll), name, capturedStack).onConvert == a.onConvert
  {
  }
}
