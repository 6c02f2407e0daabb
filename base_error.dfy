/**
 * The error object of the library (src/error-types/BaseError.ts): identity
 * fields set through builder methods, unsafe and safe metadata that only grow,
 * a caused-by message appended at most once, the full and the client-safe
 * serialisations, and deserialisation from a serialised object.
 *
 * The pure part (ErrorState and the functions over it) says what every
 * operation does; the class BaseError keeps the source's fields and each of
 * its methods is proved to perform the matching step on `State()`.
 */
module BaseErrors {
  import opened JsValues

  /** `vsprintf` of sprintf-js, a foreign formatter: the caller supplies it. */
  type Printf = (Value, seq<Value>) -> string

  /** What the user's `onPreToJSONData` / `onPreToJSONSafeData` callbacks,
      known by their function id, return for a draft. */
  type Hooks = (nat, Record) -> Record

  /** Per-error configuration (IBaseErrorConfig). Options the source tests for
      truthiness or with `typeof ... === 'function'` are kept as values. */
  datatype ErrorConfig = ErrorConfig(
    toJSONFieldsToOmit: Option<seq<string>>,
    toJSONSafeFieldsToOmit: Option<seq<string>>,
    omitEmptyMetadata: Value,
    onPreToJSONData: Value,
    onPreToJSONSafeData: Value,
    onConvert: Value,
    appendWithErrorMessageFormat: Value)

  /** The `{}` configuration. */
  const EmptyConfig: ErrorConfig :=
    ErrorConfig(None, None, Undefined, Undefined, Undefined, Undefined, Undefined)

  /** Deserialisation options: `safeMetadataFields` flags the meta keys that
      belong to the safe partition. */
  datatype DeserializeOpts = DeserializeOpts(safeMetadataFields: Option<Record>)

  /** A class the registry synthesises at run time (`class extends
      BaseRegistryError`); its identity is the object's identity. */
  class GeneratedClass {
    const name: Value

    constructor (name: Value)
      ensures this.name == name
    {
      this.name := name;
    }
  }

  /** The class whose constructor built an error object. */
  datatype ErrorClass =
    | BaseErrorClass
    | BaseRegistryErrorClass
    | Generated(generated: GeneratedClass)

  /** `this.constructor.name`, which the error records as its `name`. */
  function ClassName(cls: ErrorClass): Value
  {
    match cls
    case BaseErrorClass => Str("BaseError")
    case BaseRegistryErrorClass => Str("BaseRegistryError")
    case Generated(c) => c.name
  }

  /** What `convert()` returns: the error itself, or whatever the bound
      `onConvert` callback returns when called on it. */
  datatype Converted = Itself | ReturnedBy(callback: nat)

  /** The fields of an error object, as a value. */
  datatype ErrorState = ErrorState(
    name: Value,
    message: Value,
    stack: Value,
    errId: Value,
    reqId: Value,
    errorType: Value,
    code: Value,
    subCode: Value,
    statusCode: Value,
    logLevel: Value,
    causedBy: Value,
    metadata: Record,
    safeMetadata: Record,
    hasMetadata: bool,
    hasSafeMetadata: bool,
    config: ErrorConfig,
    onConvert: Value,
    appendedWithErrorMsg: bool)

  /** The flags record whether the with-metadata methods were ever called:
      a partition that was never merged into is empty. */
  predicate Wellformed(st: ErrorState)
  {
    && (st.hasSafeMetadata ==> st.hasMetadata)
    && (!st.hasMetadata ==> st.metadata == map[])
    && (!st.hasSafeMetadata ==> st.safeMetadata == map[])
  }

  /** The state the constructor leaves: `message` defaults to "" when
      undefined, the stack is the one captured at construction. */
  function Initial(message: Value, config: ErrorConfig, name: Value, capturedStack: string): (st: ErrorState)
    ensures Wellformed(st)
    ensures !st.hasMetadata && !st.hasSafeMetadata && !st.appendedWithErrorMsg
  {
    ErrorState(
      name, if message == Undefined then Str("") else message, Str(capturedStack),
      Undefined, Undefined, Undefined, Undefined, Undefined, Undefined, Undefined, Undefined,
      map[], map[], false, false, config,
      if Truthy(config.onConvert) then config.onConvert else Null, false)
  }

  // ---------------------------------------------------------------------------
  // Metadata

  /** `withMetadata(m)`: the unsafe partition is overlaid with `m`. */
  function WithMetadataStep(st: ErrorState, m: Record): (r: ErrorState)
    ensures forall k :: k in r.metadata <==> k in st.metadata || k in m
    ensures forall k :: k in m ==> r.metadata[k] == m[k]
    ensures forall k :: k in st.metadata && k !in m ==> r.metadata[k] == st.metadata[k]
    ensures r == st.(metadata := r.metadata, hasMetadata := true)
    ensures Wellformed(st) ==> Wellformed(r)
  {
    st.(hasMetadata := true, metadata := st.metadata + m)
  }

  /** `withSafeMetadata(m)`: only the safe partition is overlaid with `m`,
      and both flags are set. */
  function WithSafeMetadataStep(st: ErrorState, m: Record): (r: ErrorState)
    ensures forall k :: k in r.safeMetadata <==> k in st.safeMetadata || k in m
    ensures forall k :: k in m ==> r.safeMetadata[k] == m[k]
    ensures forall k :: k in st.safeMetadata && k !in m ==> r.safeMetadata[k] == st.safeMetadata[k]
    ensures r == st.(safeMetadata := r.safeMetadata, hasMetadata := true, hasSafeMetadata := true)
    ensures Wellformed(st) ==> Wellformed(r)
  {
    st.(hasMetadata := true, hasSafeMetadata := true, safeMetadata := st.safeMetadata + m)
  }

  // ---------------------------------------------------------------------------
  // Message formatting and the caused-by append

  /** `appendCausedByMessage()`: appends the formatted cause message once,
      when the cause has a truthy message and a format is configured. */
  function AppendCausedBy(st: ErrorState, printf: Printf): (r: ErrorState)
    ensures r.appendedWithErrorMsg <==>
      st.appendedWithErrorMsg
      || (Truthy(OptionalMember(st.causedBy, "message")) && Truthy(st.config.appendWithErrorMessageFormat))
    ensures !st.appendedWithErrorMsg && r.appendedWithErrorMsg ==>
      r == st.(message := Str(ToString(st.message)
                              + printf(st.config.appendWithErrorMessageFormat,
                                       [OptionalMember(st.causedBy, "message")])),
               appendedWithErrorMsg := true)
    ensures st.appendedWithErrorMsg || !r.appendedWithErrorMsg ==> r == st
  {
    var causeMessage := OptionalMember(st.causedBy, "message");
    if !st.appendedWithErrorMsg && Truthy(causeMessage) && Truthy(st.config.appendWithErrorMessageFormat) then
      st.(message := Str(ToString(st.message) + printf(st.config.appendWithErrorMessageFormat, [causeMessage])),
          appendedWithErrorMsg := true)
    else
      st
  }

  /** `formatMessage(...args)`: substitute into the message, then try the append. */
  function FormatMessageStep(st: ErrorState, args: seq<Value>, printf: Printf): ErrorState
  {
    AppendCausedBy(st.(message := Str(printf(st.message, args))), printf)
  }

  /** `causedBy(error)`: record the cause, then try the append. */
  function CausedByStep(st: ErrorState, cause: Value, printf: Printf): ErrorState
  {
    AppendCausedBy(st.(causedBy := cause), printf)
  }

  /** A call that may trigger the caused-by append. */
  datatype MessageCall = FormatMessageCall(args: seq<Value>) | CausedByCall(cause: Value)

  function MessageStep(st: ErrorState, call: MessageCall, printf: Printf): ErrorState
  {
    match call
    case FormatMessageCall(args) => FormatMessageStep(st, args, printf)
    case CausedByCall(cause) => CausedByStep(st, cause, printf)
  }

  /** How many calls of a sequence appended the caused-by message. */
  function AppendCount(st: ErrorState, calls: seq<MessageCall>, printf: Printf): nat
    decreases |calls|
  {
    if calls == [] then 0
    else
      var next := MessageStep(st, calls[0], printf);
      (if !st.appendedWithErrorMsg && next.appendedWithErrorMsg then 1 else 0)
      + AppendCount(next, calls[1..], printf)
  }

  /** Whatever sequence of formatMessage / causedBy calls is made, the
      caused-by message is appended at most once, and never again once it has been. */
  lemma {:induction false} AppendsAtMostOnce(st: ErrorState, calls: seq<MessageCall>, printf: Printf)
    ensures AppendCount(st, calls, printf) <= (if st.appendedWithErrorMsg then 0 else 1)
    decreases |calls|
  {
    if calls != [] {
      var next := MessageStep(st, calls[0], printf);
      AppendsAtMostOnce(next, calls[1..], printf);
    }
  }

  // ---------------------------------------------------------------------------
  // Serialisation

  /** `toJSON` drops `meta` when neither with-metadata method was ever called
      and `omitEmptyMetadata` is set, whatever the maps hold. */
  predicate OmitsFullMeta(st: ErrorState)
  {
    !st.hasSafeMetadata && !st.hasMetadata && Truthy(st.config.omitEmptyMetadata)
  }

  /** `toJSONSafe` drops `meta` when `withSafeMetadata` was never called and
      `omitEmptyMetadata` is set. */
  predicate OmitsSafeMeta(st: ErrorState)
  {
    !st.hasSafeMetadata && Truthy(st.config.omitEmptyMetadata)
  }

  /** The object `toJSON` builds before the hook and the deletions. */
  function FullDraft(st: ErrorState): (d: Record)
    ensures "meta" in d <==> !OmitsFullMeta(st)
    ensures "meta" in d ==> d["meta"] == Obj(st.metadata + st.safeMetadata)
  {
    var data := map[
      "errId" := st.errId, "reqId" := st.reqId, "name" := st.name, "code" := st.code,
      "message" := st.message, "type" := st.errorType, "subCode" := st.subCode,
      "statusCode" := st.statusCode, "logLevel" := st.logLevel,
      "meta" := Obj(st.metadata + st.safeMetadata), "causedBy" := st.causedBy,
      "stack" := st.stack];
    if OmitsFullMeta(st) then data - {"meta"} else data
  }

  /** The keys the safe serialisation can produce by itself. */
  const SafeKeys: set<string> := {"errId", "reqId", "code", "subCode", "statusCode", "meta"}

  /** The object `toJSONSafe` builds before the deletions and the hook. */
  function SafeDraft(st: ErrorState): (d: Record)
    ensures d.Keys <= SafeKeys
    ensures "meta" in d <==> !OmitsSafeMeta(st)
    ensures "meta" in d ==> d["meta"] == Obj(st.safeMetadata)
  {
    var data := map[
      "errId" := st.errId, "reqId" := st.reqId, "code" := st.code,
      "subCode" := st.subCode, "statusCode" := st.statusCode,
      "meta" := Obj(st.safeMetadata)];
    if OmitsSafeMeta(st) then data - {"meta"} else data
  }

  /** `data = hook(data)` when the hook is a function. */
  function ApplyHook(hook: Value, hooks: Hooks, data: Record): Record
  {
    if hook.Func? then hooks(hook.id, data) else data
  }

  /** The draft without its undefined entries. */
  function Defined(data: Record): (r: Record)
    ensures forall k :: k in r <==> k in data && data[k] != Undefined
    ensures forall k :: k in r ==> r[k] == data[k]
  {
    map k | k in data && data[k] != Undefined :: data[k]
  }

  /** The draft without the listed keys. */
  function Without(data: Record, keys: seq<string>): (r: Record)
    ensures forall k :: k in r <==> k in data && k !in keys
    ensures forall k :: k in r ==> r[k] == data[k]
  {
    map k | k in data && k !in keys :: data[k]
  }

  /** A configured omit list; one that is not an array deletes nothing. */
  function ConfiguredOmit(fields: Option<seq<string>>): seq<string>
  {
    if fields.Some? then fields.value else []
  }

  /** `toJSON(fieldsToOmit)`: hook, then undefined removal, then the two omit lists. */
  function FullJSON(st: ErrorState, hooks: Hooks, fieldsToOmit: seq<string>): Record
  {
    var hooked := ApplyHook(st.config.onPreToJSONData, hooks, FullDraft(st));
    Without(Without(Defined(hooked), fieldsToOmit), ConfiguredOmit(st.config.toJSONFieldsToOmit))
  }

  /** `toJSONSafe(fieldsToOmit)`: undefined removal, then hook, then the two omit lists. */
  function SafeJSON(st: ErrorState, hooks: Hooks, fieldsToOmit: seq<string>): Record
  {
    var hooked := ApplyHook(st.config.onPreToJSONSafeData, hooks, Defined(SafeDraft(st)));
    Without(Without(hooked, fieldsToOmit), ConfiguredOmit(st.config.toJSONSafeFieldsToOmit))
  }

  /** Whatever the hook does, the full serialisation holds no omitted key and
      no undefined value. */
  lemma FullJSONOmitsAndDefined(st: ErrorState, hooks: Hooks, fieldsToOmit: seq<string>)
    ensures forall k :: k in fieldsToOmit ==> k !in FullJSON(st, hooks, fieldsToOmit)
    ensures forall k :: k in ConfiguredOmit(st.config.toJSONFieldsToOmit) ==> k !in FullJSON(st, hooks, fieldsToOmit)
    ensures forall k :: k in FullJSON(st, hooks, fieldsToOmit) ==> FullJSON(st, hooks, fieldsToOmit)[k] != Undefined
  {
  }

  /** Without a hook, `toJSON().meta` is present exactly when the metadata
      methods were called or omission is off, and it is the unsafe metadata
      overlaid with the safe metadata: on a clash the safe value wins. */
  lemma FullJSONMeta(st: ErrorState, hooks: Hooks, fieldsToOmit: seq<string>)
    requires !st.config.onPreToJSONData.Func?
    requires "meta" !in fieldsToOmit && "meta" !in ConfiguredOmit(st.config.toJSONFieldsToOmit)
    ensures "meta" in FullJSON(st, hooks, fieldsToOmit) <==> !OmitsFullMeta(st)
    ensures "meta" in FullJSON(st, hooks, fieldsToOmit) ==>
      && FullJSON(st, hooks, fieldsToOmit)["meta"].Obj?
      && var meta := FullJSON(st, hooks, fieldsToOmit)["meta"].fields;
         && meta.Keys == st.metadata.Keys + st.safeMetadata.Keys
         && (forall k :: k in st.safeMetadata ==> meta[k] == st.safeMetadata[k])
         && (forall k :: k in st.metadata && k !in st.safeMetadata ==> meta[k] == st.metadata[k])
  {
  }

  /** Whatever the hook does, the safe serialisation holds no omitted key:
      both omit lists are applied after the hook. */
  lemma SafeJSONOmits(st: ErrorState, hooks: Hooks, fieldsToOmit: seq<string>)
    ensures forall k :: k in fieldsToOmit ==> k !in SafeJSON(st, hooks, fieldsToOmit)
    ensures forall k :: k in ConfiguredOmit(st.config.toJSONSafeFieldsToOmit) ==> k !in SafeJSON(st, hooks, fieldsToOmit)
  {
  }

  /** Without a hook, the safe serialisation carries only errId, reqId, code,
      subCode, statusCode and meta (never name, message, type, stack,
      causedBy or logLevel) and no undefined value; its `meta` is exactly the
      safe metadata, present unless `withSafeMetadata` was never called and
      omission is on. */
  lemma SafeJSONShape(st: ErrorState, hooks: Hooks, fieldsToOmit: seq<string>)
    requires !st.config.onPreToJSONSafeData.Func?
    ensures SafeJSON(st, hooks, fieldsToOmit).Keys <= SafeKeys
    ensures forall k :: k in SafeJSON(st, hooks, fieldsToOmit) ==> SafeJSON(st, hooks, fieldsToOmit)[k] != Undefined
    ensures "meta" !in fieldsToOmit && "meta" !in ConfiguredOmit(st.config.toJSONSafeFieldsToOmit) ==>
      && ("meta" in SafeJSON(st, hooks, fieldsToOmit) <==> !OmitsSafeMeta(st))
      && ("meta" in SafeJSON(st, hooks, fieldsToOmit) ==> SafeJSON(st, hooks, fieldsToOmit)["meta"] == Obj(st.safeMetadata))
  {
  }

  /** The two serialisers run their hook at different points: a hook that
      adds an undefined entry leaves it in the safe output (the hook runs
      after undefined removal) but not in the full output (it runs before). */
  lemma HookOrderDiffers(st: ErrorState, id: nat)
    requires st.config.onPreToJSONData == Func(id) && st.config.onPreToJSONSafeData == Func(id)
    requires st.config.toJSONFieldsToOmit.None? && st.config.toJSONSafeFieldsToOmit.None?
    ensures var hooks: Hooks := (i: nat, d: Record) => d["extra" := Undefined];
      && "extra" in SafeJSON(st, hooks, []) && SafeJSON(st, hooks, [])["extra"] == Undefined
      && "extra" !in FullJSON(st, hooks, [])
  {
  }

  /** Metadata omission follows the calls, not the contents: with
      `omitEmptyMetadata` set, a fresh error has no `meta`, but after
      `withMetadata({})` it serialises an empty `meta`, and its safe
      serialisation still has none. */
  lemma MetaFollowsCalls(message: Value, config: ErrorConfig, name: Value, capturedStack: string, hooks: Hooks)
    requires Truthy(config.omitEmptyMetadata)
    requires !config.onPreToJSONData.Func? && config.toJSONFieldsToOmit.None?
    requires !config.onPreToJSONSafeData.Func? && config.toJSONSafeFieldsToOmit.None?
    ensures var st := Initial(message, config, name, capturedStack);
      && "meta" !in FullJSON(st, hooks, [])
      && "meta" !in SafeJSON(st, hooks, [])
      && var st' := WithMetadataStep(st, map[]);
         && "meta" in FullJSON(st', hooks, []) && FullJSON(st', hooks, [])["meta"] == Obj(map[])
         && "meta" !in SafeJSON(st', hooks, [])
  {
    var st := Initial(message, config, name, capturedStack);
    FullJSONMeta(st, hooks, []);
    SafeJSONShape(st, hooks, []);
    var st' := WithMetadataStep(st, map[]);
    FullJSONMeta(st', hooks, []);
    SafeJSONShape(st', hooks, []);
    assert st'.metadata + st'.safeMetadata == map[];
  }

  // ---------------------------------------------------------------------------
  // Deserialisation

  /** `opts.safeMetadataFields[key]` is truthy. */
  predicate Flagged(flags: Record, key: string)
  {
    Truthy(Get(flags, key))
  }

  /** The entries a spread or `Object.keys` sees in a `meta` value. */
  function MetaRecord(meta: Value): Record
  {
    if meta.Obj? then meta.fields else map[]
  }

  function SafePart(meta: Record, flags: Record): Record
  {
    map k | k in meta && Flagged(flags, k) :: meta[k]
  }

  function UnsafePart(meta: Record, flags: Record): Record
  {
    map k | k in meta && !Flagged(flags, k) :: meta[k]
  }

  function Restrict(m: Record, keys: set<string>): Record
  {
    map k | k in m && k in keys :: m[k]
  }

  /** One `withSafeMetadata({[k]: v})` per flagged key and one
      `withMetadata({[k]: v})` per other key of `meta`. */
  function PartitionMeta(st: ErrorState, meta: Record, flags: Record): (r: ErrorState)
    ensures forall k :: k in meta && Flagged(flags, k) ==> k in r.safeMetadata && r.safeMetadata[k] == meta[k]
    ensures forall k :: k in meta && !Flagged(flags, k) ==> k in r.metadata && r.metadata[k] == meta[k]
    // no other key enters either map, and the keys already there keep their values
    ensures forall k :: k in r.safeMetadata <==> k in st.safeMetadata || (k in meta && Flagged(flags, k))
    ensures forall k :: k in r.metadata <==> k in st.metadata || (k in meta && !Flagged(flags, k))
    ensures forall k :: k in r.safeMetadata && !(k in meta && Flagged(flags, k)) ==> r.safeMetadata[k] == st.safeMetadata[k]
    ensures forall k :: k in r.metadata && !(k in meta && !Flagged(flags, k)) ==> r.metadata[k] == st.metadata[k]
    // every key passes through one of the two setters; only the safe one sets the safe flag
    ensures r.hasMetadata <==> st.hasMetadata || meta != map[]
    ensures r.hasSafeMetadata <==> st.hasSafeMetadata || exists k :: k in meta && Flagged(flags, k)
    ensures r.(metadata := st.metadata, safeMetadata := st.safeMetadata,
               hasMetadata := st.hasMetadata, hasSafeMetadata := st.hasSafeMetadata) == st
    ensures Wellformed(st) ==> Wellformed(r)
  {
    st.(metadata := st.metadata + UnsafePart(meta, flags),
        safeMetadata := st.safeMetadata + SafePart(meta, flags),
        hasMetadata := st.hasMetadata || meta != map[],
        hasSafeMetadata := st.hasSafeMetadata || SafePart(meta, flags) != map[])
  }

  /** The field a truthy serialised value overwrites; a falsy one leaves it. */
  function Pick(data: Record, key: string, current: Value): Value
  {
    if Truthy(Get(data, key)) then Get(data, key) else current
  }

  /** The identity fields `copyDeserializationData` takes from `data`. */
  function CopyFields(st: ErrorState, data: Record): ErrorState
  {
    st.(code := Pick(data, "code", st.code),
        subCode := Pick(data, "subCode", st.subCode),
        errId := Pick(data, "errId", st.errId),
        reqId := Pick(data, "reqId", st.reqId),
        statusCode := Pick(data, "statusCode", st.statusCode),
        stack := Pick(data, "stack", st.stack),
        logLevel := Pick(data, "logLevel", st.logLevel))
  }

  /** `causedBy(data.causedBy)` when it is truthy. */
  function CopyCause(st: ErrorState, data: Record, printf: Printf): ErrorState
  {
    if Truthy(Get(data, "causedBy")) then CausedByStep(st, Get(data, "causedBy"), printf) else st
  }

  /** The metadata part: partitioned by the flags when both `meta` and the
      flags are there, otherwise merged whole (or as `{}`) into the unsafe part. */
  function CopyMeta(st: ErrorState, meta: Value, opts: DeserializeOpts): ErrorState
  {
    if Truthy(meta) && opts.safeMetadataFields.Some? then
      PartitionMeta(st, MetaRecord(meta), opts.safeMetadataFields.value)
    else
      WithMetadataStep(st, if Truthy(meta) then MetaRecord(meta) else map[])
  }

  /** `copyDeserializationData(err, data, opts)` as a step on the error. */
  function CopyDeserialization(st: ErrorState, data: Record, opts: DeserializeOpts, printf: Printf): ErrorState
  {
    CopyMeta(CopyCause(CopyFields(st, data), data, printf), Get(data, "meta"), opts)
  }

  /** Deserialisation never clears metadata: with flags each meta key lands
      in the partition its flag names and in no other (so an unflagged key
      never reaches the safe metadata), without flags the whole meta (or `{}`)
      is merged into the unsafe partition and the safe one is untouched. */
  lemma DeserializationPartitions(st: ErrorState, data: Record, opts: DeserializeOpts, printf: Printf)
    ensures var r := CopyDeserialization(st, data, opts, printf);
      var meta := MetaRecord(Get(data, "meta"));
      && (opts.safeMetadataFields.Some? ==>
            && (forall k :: k in meta && Flagged(opts.safeMetadataFields.value, k) ==>
                  k in r.safeMetadata && r.safeMetadata[k] == meta[k])
            && (forall k :: k in meta && !Flagged(opts.safeMetadataFields.value, k) ==>
                  k in r.metadata && r.metadata[k] == meta[k])
            && (forall k :: k in r.safeMetadata <==>
                  k in st.safeMetadata || (k in meta && Flagged(opts.safeMetadataFields.value, k)))
            && (forall k :: k in r.metadata <==>
                  k in st.metadata || (k in meta && !Flagged(opts.safeMetadataFields.value, k)))
            && (forall k :: k in r.safeMetadata && !(k in meta && Flagged(opts.safeMetadataFields.value, k)) ==>
                  r.safeMetadata[k] == st.safeMetadata[k])
            && (forall k :: k in r.metadata && !(k in meta && !Flagged(opts.safeMetadataFields.value, k)) ==>
                  r.metadata[k] == st.metadata[k]))
      && (opts.safeMetadataFields.None? ==>
            && r.metadata == st.metadata + meta
            && r.safeMetadata == st.safeMetadata
            && r.hasMetadata)
  {
    var s := CopyCause(CopyFields(st, data), data, printf);
    assert s.metadata == st.metadata && s.safeMetadata == st.safeMetadata;
  }

  /** Static `BaseError.fromJSON(data, opts)`. */
  function BaseFromJSON(data: Value, opts: DeserializeOpts, printf: Printf, capturedStack: string): Result<ErrorState, Thrown>
  {
    if !IsObjectTyped(data) then Failure(Error("fromJSON(): Data is not an object."))
    else if data.Null? then Failure(TypeError("message"))
    else
      var initial := Initial(Get(data.fields, "message"), EmptyConfig, ClassName(BaseErrorClass), capturedStack);
      Success(CopyDeserialization(initial, data.fields, opts, printf))
  }

  /** The error's own configuration neither rewrites nor trims its full serialisation. */
  predicate Transparent(st: ErrorState)
  {
    !st.config.onPreToJSONData.Func? && st.config.toJSONFieldsToOmit.None?
  }

  /** What survives a round trip: the value if truthy, otherwise nothing. */
  function Kept(v: Value): Value
  {
    if Truthy(v) then v else Undefined
  }

  /** A transparent error's full serialisation is its draft without the
      undefined entries. */
  lemma TransparentFullJSON(st: ErrorState, hooks: Hooks)
    requires Transparent(st)
    ensures FullJSON(st, hooks, []) == Defined(FullDraft(st))
  {
    var draft := FullDraft(st);
    assert ApplyHook(st.config.onPreToJSONData, hooks, draft) == draft;
    assert Without(Defined(draft), []) == Defined(draft);
  }

  /** The `meta` entry of the full serialisation, `undefined` when omitted. */
  function SerialisedMeta(st: ErrorState): Value
  {
    if OmitsFullMeta(st) then Undefined else Obj(st.metadata + st.safeMetadata)
  }

  /** Dropping undefined entries does not change what a read returns. */
  lemma DefinedReads(data: Record, key: string)
    ensures Get(Defined(data), key) == Get(data, key)
  {
  }

  /** Reading the codes back from a transparent error's full serialisation
      gives the error's own values (undefined reads as undefined). */
  lemma CodesReadBack(st: ErrorState, hooks: Hooks)
    requires Transparent(st)
    ensures var json := FullJSON(st, hooks, []);
      && Get(json, "code") == st.code && Get(json, "subCode") == st.subCode
      && Get(json, "statusCode") == st.statusCode
  {
    TransparentFullJSON(st, hooks);
    var draft := FullDraft(st);
    DefinedReads(draft, "code");
    DefinedReads(draft, "subCode");
    DefinedReads(draft, "statusCode");
  }

  /** The same for the error and request ids and the log level. */
  lemma IdsReadBack(st: ErrorState, hooks: Hooks)
    requires Transparent(st)
    ensures var json := FullJSON(st, hooks, []);
      && Get(json, "errId") == st.errId && Get(json, "reqId") == st.reqId
      && Get(json, "logLevel") == st.logLevel
  {
    TransparentFullJSON(st, hooks);
    var draft := FullDraft(st);
    DefinedReads(draft, "errId");
    DefinedReads(draft, "reqId");
    DefinedReads(draft, "logLevel");
  }

  /** The same for the message, cause, stack and metadata. */
  lemma DiagnosticsReadBack(st: ErrorState, hooks: Hooks)
    requires Transparent(st)
    ensures var json := FullJSON(st, hooks, []);
      && Get(json, "causedBy") == st.causedBy && Get(json, "stack") == st.stack
      && Get(json, "message") == st.message
      && Get(json, "meta") == SerialisedMeta(st)
  {
    TransparentFullJSON(st, hooks);
    var draft := FullDraft(st);
    DefinedReads(draft, "causedBy");
    DefinedReads(draft, "stack");
    DefinedReads(draft, "message");
    DefinedReads(draft, "meta");
  }

  /** The same for the name, which the registry resolves to a class. */
  lemma NameReadBack(st: ErrorState, hooks: Hooks)
    requires Transparent(st)
    ensures Get(FullJSON(st, hooks, []), "name") == st.name
  {
    TransparentFullJSON(st, hooks);
    DefinedReads(FullDraft(st), "name");
  }

  /** Deserialisation into an error without an append format sets the
      identity fields from the truthy serialised values and records a truthy
      cause; name, message and metadata are left to the metadata step. */
  lemma CopyDeserializationFields(st: ErrorState, data: Record, printf: Printf)
    requires !Truthy(st.config.appendWithErrorMessageFormat)
    ensures CopyCause(CopyFields(st, data), data, printf) == st.(
      code := Pick(data, "code", st.code), subCode := Pick(data, "subCode", st.subCode),
      errId := Pick(data, "errId", st.errId), reqId := Pick(data, "reqId", st.reqId),
      statusCode := Pick(data, "statusCode", st.statusCode),
      stack := Pick(data, "stack", st.stack), logLevel := Pick(data, "logLevel", st.logLevel),
      causedBy := Pick(data, "causedBy", st.causedBy))
  {
  }

  /** The metadata step changes the metadata and nothing else. */
  lemma CopyMetaOnlyMetadata(st: ErrorState, meta: Value, opts: DeserializeOpts)
    ensures var r := CopyMeta(st, meta, opts);
      r == st.(metadata := r.metadata, safeMetadata := r.safeMetadata,
               hasMetadata := r.hasMetadata, hasSafeMetadata := r.hasSafeMetadata)
  {
  }

  /** The error `fromJSON` has built before it copies the metadata: a fresh
      BaseError carrying the truthy identifiers, the message, and the stack
      and cause when truthy. */
  function Restored(st: ErrorState, capturedStack: string): (r: ErrorState)
    ensures r.metadata == map[] && r.safeMetadata == map[]
  {
    Initial(st.message, EmptyConfig, ClassName(BaseErrorClass), capturedStack).(
      code := Kept(st.code), subCode := Kept(st.subCode),
      errId := Kept(st.errId), reqId := Kept(st.reqId),
      statusCode := Kept(st.statusCode), logLevel := Kept(st.logLevel),
      causedBy := Kept(st.causedBy),
      stack := if Truthy(st.stack) then st.stack else Str(capturedStack))
  }

  /** `BaseError.fromJSON(e.toJSON())` is the restored error with the
      serialised metadata copied in. */
  lemma RoundTripState(st: ErrorState, hooks: Hooks, opts: DeserializeOpts, printf: Printf, capturedStack: string)
    requires Transparent(st)
    ensures BaseFromJSON(Obj(FullJSON(st, hooks, [])), opts, printf, capturedStack)
            == Success(CopyMeta(Restored(st, capturedStack), SerialisedMeta(st), opts))
  {
    var json := FullJSON(st, hooks, []);
    CodesReadBack(st, hooks);
    IdsReadBack(st, hooks);
    DiagnosticsReadBack(st, hooks);
    RestoredFrom(st, json, opts, printf, capturedStack);
  }

  /** Deserialising a record that reads back as `st` gives the restored error. */
  lemma RestoredFrom(st: ErrorState, json: Record, opts: DeserializeOpts, printf: Printf, capturedStack: string)
    requires Get(json, "code") == st.code && Get(json, "subCode") == st.subCode
    requires Get(json, "statusCode") == st.statusCode && Get(json, "errId") == st.errId
    requires Get(json, "reqId") == st.reqId && Get(json, "logLevel") == st.logLevel
    requires Get(json, "causedBy") == st.causedBy && Get(json, "stack") == st.stack
    requires Get(json, "message") == st.message
    ensures BaseFromJSON(Obj(json), opts, printf, capturedStack)
            == Success(CopyMeta(Restored(st, capturedStack), Get(json, "meta"), opts))
  {
    var initial := Initial(st.message, EmptyConfig, ClassName(BaseErrorClass), capturedStack);
    var copied := CopyCause(CopyFields(initial, json), json, printf);
    assert copied == Restored(st, capturedStack) by {
      CopyDeserializationFields(initial, json, printf);
    }
  }

  /** The metadata as the full serialisation carries it. */
  function SerialisedMetadata(st: ErrorState): Record
  {
    if OmitsFullMeta(st) then map[] else st.metadata + st.safeMetadata
  }

  /** Copying the serialised metadata into the restored error: partitioned
      by the flags when given, all unsafe otherwise. */
  lemma RestoredMetadata(st: ErrorState, capturedStack: string, opts: DeserializeOpts)
    ensures var r := CopyMeta(Restored(st, capturedStack), SerialisedMeta(st), opts);
      && (opts.safeMetadataFields.Some? ==>
            && r.metadata == UnsafePart(SerialisedMetadata(st), opts.safeMetadataFields.value)
            && r.safeMetadata == SafePart(SerialisedMetadata(st), opts.safeMetadataFields.value))
      && (opts.safeMetadataFields.None? ==>
            r.metadata == SerialisedMetadata(st) && r.safeMetadata == map[])
  {
    var meta := SerialisedMetadata(st);
    if opts.safeMetadataFields.Some? {
      var flags := opts.safeMetadataFields.value;
      if OmitsFullMeta(st) {
        assert UnsafePart(meta, flags) == map[];
        assert SafePart(meta, flags) == map[];
      } else {
        assert map[] + UnsafePart(meta, flags) == UnsafePart(meta, flags);
        assert map[] + SafePart(meta, flags) == SafePart(meta, flags);
      }
    } else {
      assert map[] + meta == meta;
    }
  }

  /** `BaseError.fromJSON(e.toJSON())` rebuilds a BaseError whose identity
      fields are the truthy ones of `e` (falsy ones, 0 and "" included, are
      lost), with `e`'s message and, when truthy, its stack and cause. */
  lemma RoundTripFields(st: ErrorState, hooks: Hooks, opts: DeserializeOpts, printf: Printf, capturedStack: string)
    requires Transparent(st)
    ensures var back := BaseFromJSON(Obj(FullJSON(st, hooks, [])), opts, printf, capturedStack);
      && back.Success?
      && back.value.name == Str("BaseError")
      && back.value.code == Kept(st.code)
      && back.value.subCode == Kept(st.subCode)
      && back.value.errId == Kept(st.errId)
      && back.value.reqId == Kept(st.reqId)
      && back.value.statusCode == Kept(st.statusCode)
      && back.value.logLevel == Kept(st.logLevel)
      && back.value.causedBy == Kept(st.causedBy)
      && back.value.message == (if st.message == Undefined then Str("") else st.message)
      && back.value.stack == (if Truthy(st.stack) then st.stack else Str(capturedStack))
  {
    RoundTripState(st, hooks, opts, printf, capturedStack);
    CopyMetaOnlyMetadata(Restored(st, capturedStack), SerialisedMeta(st), opts);
  }

  /** Without flags, a round trip folds both partitions into the unsafe one. */
  lemma RoundTripMergesMetadata(st: ErrorState, hooks: Hooks, printf: Printf, capturedStack: string)
    requires Wellformed(st) && Transparent(st)
    ensures var back := BaseFromJSON(Obj(FullJSON(st, hooks, [])), DeserializeOpts(None), printf, capturedStack);
      && back.Success?
      && back.value.metadata == st.metadata + st.safeMetadata
      && back.value.safeMetadata == map[]
  {
    RoundTripState(st, hooks, DeserializeOpts(None), printf, capturedStack);
    RestoredMetadata(st, capturedStack, DeserializeOpts(None));
    assert SerialisedMetadata(st) == st.metadata + st.safeMetadata;
  }

  /** Flags that name exactly the safe keys. */
  function SafeFlags(st: ErrorState): (flags: Record)
    ensures forall k :: Flagged(flags, k) <==> k in st.safeMetadata
  {
    map k | k in st.safeMetadata :: Bool(true)
  }

  /** The unsafe entries the safe partition does not shadow. */
  function Unshadowed(st: ErrorState): Record
  {
    map k | k in st.metadata && k !in st.safeMetadata :: st.metadata[k]
  }

  /** Partitioning the merged metadata by the safe keys separates it again. */
  lemma SplitMerged(st: ErrorState)
    ensures SafePart(st.metadata + st.safeMetadata, SafeFlags(st)) == st.safeMetadata
    ensures UnsafePart(st.metadata + st.safeMetadata, SafeFlags(st)) == Unshadowed(st)
  {
    var merged := st.metadata + st.safeMetadata;
    var flags := SafeFlags(st);
    var safe := SafePart(merged, flags);
    var unsafe := UnsafePart(merged, flags);
    assert safe.Keys == st.safeMetadata.Keys;
    assert unsafe.Keys == Unshadowed(st).Keys;
  }

  /** Flagging the safe keys restores the safe partition; the unsafe one
      comes back without the keys the safe partition shadowed. */
  lemma RoundTripRestoresPartition(st: ErrorState, hooks: Hooks, printf: Printf, capturedStack: string)
    requires Wellformed(st) && Transparent(st)
    ensures var back := BaseFromJSON(Obj(FullJSON(st, hooks, [])), DeserializeOpts(Some(SafeFlags(st))), printf, capturedStack);
      && back.Success?
      && back.value.safeMetadata == st.safeMetadata
      && back.value.metadata == Unshadowed(st)
  {
    var flags := SafeFlags(st);
    RoundTripState(st, hooks, DeserializeOpts(Some(flags)), printf, capturedStack);
    RestoredMetadata(st, capturedStack, DeserializeOpts(Some(flags)));
    SplitMerged(st);
    assert SerialisedMetadata(st) == st.metadata + st.safeMetadata;
  }

  // ---------------------------------------------------------------------------
  // Deletion loops shared by both serialisers

  /** `Object.keys(data).forEach(item => { if (data[item] === undefined) delete data[item] })` */
  method DeleteUndefined(data: Record) returns (r: Record)
    ensures r == Defined(data)
  {
    r := data;
    var keys := data.Keys;
    while keys != {}
      invariant keys <= data.Keys
      invariant forall k :: k in r <==> k in data && (k in keys || data[k] != Undefined)
      invariant forall k :: k in r ==> r[k] == data[k]
      decreases keys
    {
      var k :| k in keys;
      if r[k] == Undefined {
        r := r - {k};
      }
      keys := keys - {k};
    }
  }

  /** `fieldsToOmit.forEach(item => { delete data[item] })` */
  method DeleteKeys(data: Record, fieldsToOmit: seq<string>) returns (r: Record)
    ensures r == Without(data, fieldsToOmit)
  {
    r := data;
    for i := 0 to |fieldsToOmit|
      invariant r == Without(data, fieldsToOmit[..i])
    {
      assert fieldsToOmit[..i + 1] == fieldsToOmit[..i] + [fieldsToOmit[i]];
      r := r - {fieldsToOmit[i]};
    }
    assert fieldsToOmit[..|fieldsToOmit|] == fieldsToOmit;
  }

  // ---------------------------------------------------------------------------
  // The error object

  class BaseError {
    const cls: ErrorClass
    var name: Value
    var message: Value
    var stack: Value
    var errId: Value
    var reqId: Value
    var errorType: Value
    var code: Value
    var subCode: Value
    var statusCode: Value
    var logLevel: Value
    var causedBy: Value
    var metadata: Record
    var safeMetadata: Record
    var hasMetadata: bool
    var hasSafeMetadata: bool
    var config: ErrorConfig
    var onConvert: Value
    var appendedWithErrorMsg: bool

    function State(): ErrorState
      reads this
    {
      ErrorState(name, message, stack, errId, reqId, errorType, code, subCode, statusCode,
                 logLevel, causedBy, metadata, safeMetadata, hasMetadata, hasSafeMetadata,
                 config, onConvert, appendedWithErrorMsg)
    }

    ghost predicate Valid()
      reads this
    {
      Wellformed(State())
    }

    /** `new cls(message, config)`; the stack the engine captures is a parameter. */
    constructor (message: Value, config: ErrorConfig, cls: ErrorClass, capturedStack: string)
      ensures this.cls == cls
      ensures Valid() && State() == Initial(message, config, ClassName(cls), capturedStack)
    {
      this.cls := cls;
      this.name := ClassName(cls);
      this.message := if message == Undefined then Str("") else message;
      this.stack := Str(capturedStack);
      this.errId, this.reqId, this.errorType, this.code := Undefined, Undefined, Undefined, Undefined;
      this.subCode, this.statusCode, this.logLevel, this.causedBy := Undefined, Undefined, Undefined, Undefined;
      this.safeMetadata := map[];
      this.metadata := map[];
      this.hasMetadata := false;
      this.hasSafeMetadata := false;
      this.config := config;
      this.onConvert := if Truthy(config.onConvert) then config.onConvert else Null;
      this.appendedWithErrorMsg := false;
    }

    method WithLogLevel(logLevel: Value)
      requires Valid()
      modifies this
      ensures Valid() && State() == old(State()).(logLevel := logLevel)
    {
      this.logLevel := logLevel;
    }

    method WithErrorId(errId: Value)
      requires Valid()
      modifies this
      ensures Valid() && State() == old(State()).(errId := errId)
    {
      this.errId := errId;
    }

    method WithRequestId(requestId: Value)
      requires Valid()
      modifies this
      ensures Valid() && State() == old(State()).(reqId := requestId)
    {
      this.reqId := requestId;
    }

    method WithErrorType(errorType: Value)
      requires Valid()
      modifies this
      ensures Valid() && State() == old(State()).(errorType := errorType)
    {
      this.errorType := errorType;
    }

    method WithErrorCode(code: Value)
      requires Valid()
      modifies this
      ensures Valid() && State() == old(State()).(code := code)
    {
      this.code := code;
    }

    method WithErrorSubCode(subCode: Value)
      requires Valid()
      modifies this
      ensures Valid() && State() == old(State()).(subCode := subCode)
    {
      this.subCode := subCode;
    }

    method WithStatusCode(statusCode: Value)
      requires Valid()
      modifies this
      ensures Valid() && State() == old(State()).(statusCode := statusCode)
    {
      this.statusCode := statusCode;
    }

    method SetConfig(config: ErrorConfig)
      requires Valid()
      modifies this
      ensures Valid() && State() == old(State()).(config := config)
    {
      this.config := config;
    }

    method AppendCausedByMessage(printf: Printf)
      requires Valid()
      modifies this
      ensures Valid() && State() == AppendCausedBy(old(State()), printf)
    {
      var causeMessage := OptionalMember(causedBy, "message");
      if !appendedWithErrorMsg && Truthy(causeMessage) && Truthy(config.appendWithErrorMessageFormat) {
        message := Str(ToString(message) + printf(config.appendWithErrorMessageFormat, [causeMessage]));
        appendedWithErrorMsg := true;
      }
    }

    method FormatMessage(args: seq<Value>, printf: Printf)
      requires Valid()
      modifies this
      ensures Valid() && State() == FormatMessageStep(old(State()), args, printf)
    {
      message := Str(printf(message, args));
      AppendCausedByMessage(printf);
    }

    method CausedBy(error: Value, printf: Printf)
      requires Valid()
      modifies this
      ensures Valid() && State() == CausedByStep(old(State()), error, printf)
    {
      causedBy := error;
      AppendCausedByMessage(printf);
    }

    method WithMetadata(m: Record)
      requires Valid()
      modifies this
      ensures Valid() && State() == WithMetadataStep(old(State()), m)
    {
      hasMetadata := true;
      metadata := metadata + m;
    }

    method WithSafeMetadata(m: Record)
      requires Valid()
      modifies this
      ensures Valid() && State() == WithSafeMetadataStep(old(State()), m)
    {
      hasMetadata := true;
      hasSafeMetadata := true;
      safeMetadata := safeMetadata + m;
    }

    /** `toJSON(fieldsToOmit)`; `hooks` stands for the user's callback. */
    method ToJSON(fieldsToOmit: seq<string>, hooks: Hooks) returns (data: Record)
      ensures data == FullJSON(State(), hooks, fieldsToOmit)
    {
      data := map[
        "errId" := errId, "reqId" := reqId, "name" := name, "code" := code,
        "message" := message, "type" := errorType, "subCode" := subCode,
        "statusCode" := statusCode, "logLevel" := logLevel,
        "meta" := Obj(metadata + safeMetadata), "causedBy" := causedBy,
        "stack" := stack];
      if !hasSafeMetadata && !hasMetadata && Truthy(config.omitEmptyMetadata) {
        data := data - {"meta"};
      }
      if config.onPreToJSONData.Func? {
        data := hooks(config.onPreToJSONData.id, data);
      }
      data := DeleteUndefined(data);
      data := DeleteKeys(data, fieldsToOmit);
      if config.toJSONFieldsToOmit.Some? {
        data := DeleteKeys(data, config.toJSONFieldsToOmit.value);
      }
    }

    /** `toJSONSafe(fieldsToOmit)`; `hooks` stands for the user's callback. */
    method ToJSONSafe(fieldsToOmit: seq<string>, hooks: Hooks) returns (data: Record)
      ensures data == SafeJSON(State(), hooks, fieldsToOmit)
    {
      data := map[
        "errId" := errId, "reqId" := reqId, "code" := code,
        "subCode" := subCode, "statusCode" := statusCode,
        "meta" := Obj(safeMetadata)];
      if !hasSafeMetadata && Truthy(config.omitEmptyMetadata) {
        data := data - {"meta"};
      }
      data := DeleteUndefined(data);
      if config.onPreToJSONSafeData.Func? {
        data := hooks(config.onPreToJSONSafeData.id, data);
      }
      data := DeleteKeys(data, fieldsToOmit);
      if config.toJSONSafeFieldsToOmit.Some? {
        data := DeleteKeys(data, config.toJSONSafeFieldsToOmit.value);
      }
    }

    /** `typeof this._onConvert === 'function'`: a truthy value that is not
        a function (a string, an object, `true`, a non-zero number) does not
        count. */
    predicate HasOnConvertDefined()
      reads this
      ensures HasOnConvertDefined() ==> Truthy(onConvert)
      ensures onConvert.Func? ==> HasOnConvertDefined()
      ensures onConvert == Null || onConvert == Undefined || onConvert.Str? ==> !HasOnConvertDefined()
      ensures onConvert.Obj? || onConvert.Bool? || onConvert.Num? ==> !HasOnConvertDefined()
    {
      onConvert.Func?
    }

    method Convert() returns (r: Converted)
      ensures r.Itself? <==> !HasOnConvertDefined()
      ensures r.ReturnedBy? ==> onConvert == Func(r.callback)
    {
      if HasOnConvertDefined() {
        r := ReturnedBy(onConvert.id);
      } else {
        r := Itself;
      }
    }

    method SetOnConvert(convertFn: Value)
      requires Valid()
      modifies this
      ensures Valid() && State() == old(State()).(onConvert := convertFn)
    {
      onConvert := convertFn;
    }

    /** Static `copyDeserializationData(errInstance, data, opts)`. */
    static method CopyDeserializationData(errInstance: BaseError, data: Record, opts: DeserializeOpts, printf: Printf)
      requires errInstance.Valid()
      modifies errInstance
      ensures errInstance.Valid()
      ensures errInstance.State() == CopyDeserialization(old(errInstance.State()), data, opts, printf)
    {
      CopyCodes(errInstance, data);
      CopyIds(errInstance, data);
      CopyDiagnostics(errInstance, data);
      if Truthy(Get(data, "causedBy")) {
        errInstance.CausedBy(Get(data, "causedBy"), printf);
      }
      CopyMetadata(errInstance, Get(data, "meta"), opts);
    }

    /** The first truthy-guarded setter calls of `copyDeserializationData`:
        the codes. */
    static method CopyCodes(errInstance: BaseError, data: Record)
      requires errInstance.Valid()
      modifies errInstance
      ensures errInstance.Valid()
      ensures errInstance.State() == old(errInstance.State()).(
        code := Pick(data, "code", old(errInstance.code)),
        subCode := Pick(data, "subCode", old(errInstance.subCode)))
    {
      if Truthy(Get(data, "code")) {
        errInstance.WithErrorCode(Get(data, "code"));
      }
      if Truthy(Get(data, "subCode")) {
        errInstance.WithErrorSubCode(Get(data, "subCode"));
      }
    }

    /** Then the error and request ids. */
    static method CopyIds(errInstance: BaseError, data: Record)
      requires errInstance.Valid()
      modifies errInstance
      ensures errInstance.Valid()
      ensures errInstance.State() == old(errInstance.State()).(
        errId := Pick(data, "errId", old(errInstance.errId)),
        reqId := Pick(data, "reqId", old(errInstance.reqId)))
    {
      if Truthy(Get(data, "errId")) {
        errInstance.WithErrorId(Get(data, "errId"));
      }
      if Truthy(Get(data, "reqId")) {
        errInstance.WithRequestId(Get(data, "reqId"));
      }
    }

    /** The remaining truthy-guarded calls: status code, stack (a plain
        assignment), log level. */
    static method CopyDiagnostics(errInstance: BaseError, data: Record)
      requires errInstance.Valid()
      modifies errInstance
      ensures errInstance.Valid()
      ensures errInstance.State() == old(errInstance.State()).(
        statusCode := Pick(data, "statusCode", old(errInstance.statusCode)),
        stack := Pick(data, "stack", old(errInstance.stack)),
        logLevel := Pick(data, "logLevel", old(errInstance.logLevel)))
    {
      if Truthy(Get(data, "statusCode")) {
        errInstance.WithStatusCode(Get(data, "statusCode"));
      }
      if Truthy(Get(data, "stack")) {
        errInstance.stack := Get(data, "stack");
      }
      if Truthy(Get(data, "logLevel")) {
        errInstance.WithLogLevel(Get(data, "logLevel"));
      }
    }

    /** The metadata half of `copyDeserializationData`: one with-metadata
        call per key when flags are given, one merge of the whole otherwise. */
    static method CopyMetadata(errInstance: BaseError, meta: Value, opts: DeserializeOpts)
      requires errInstance.Valid()
      modifies errInstance
      ensures errInstance.Valid()
      ensures errInstance.State() == CopyMeta(old(errInstance.State()), meta, opts)
    {
      if Truthy(meta) && opts.safeMetadataFields.Some? {
        PartitionInto(errInstance, MetaRecord(meta), opts.safeMetadataFields.value);
      } else {
        errInstance.WithMetadata(if Truthy(meta) then MetaRecord(meta) else map[]);
      }
    }

    /** `Object.keys(data.meta).forEach(...)`: each flagged key through
        `withSafeMetadata`, every other key through `withMetadata`. */
    static method PartitionInto(errInstance: BaseError, entries: Record, flags: Record)
      requires errInstance.Valid()
      modifies errInstance
      ensures errInstance.Valid()
      ensures errInstance.State() == PartitionMeta(old(errInstance.State()), entries, flags)
    {
      ghost var start := errInstance.State();
      var todo := entries.Keys;
      ghost var done: set<string> := {};
      PartitionNothing(start, entries, flags);
      while todo != {}
        invariant done !! todo && done + todo == entries.Keys
        invariant errInstance.Valid()
        invariant errInstance.State() == PartitionMeta(start, Restrict(entries, done), flags)
        decreases todo
      {
        var key :| key in todo;
        PartitionKey(errInstance, entries, key, flags, start, done);
        todo := todo - {key};
        done := done + {key};
      }
      RestrictAll(entries, done);
    }

    /** The loop body: one key through the with-metadata method its flag names. */
    static method PartitionKey(errInstance: BaseError, entries: Record, key: string, flags: Record,
                               ghost start: ErrorState, ghost done: set<string>)
      requires key in entries && key !in done
      requires errInstance.Valid()
      requires errInstance.State() == PartitionMeta(start, Restrict(entries, done), flags)
      modifies errInstance
      ensures errInstance.Valid()
      ensures errInstance.State() == PartitionMeta(start, Restrict(entries, done + {key}), flags)
    {
      PartitionExtend(start, entries, done, key, flags);
      if Flagged(flags, key) {
        errInstance.WithSafeMetadata(map[key := entries[key]]);
      } else {
        errInstance.WithMetadata(map[key := entries[key]]);
      }
    }

    /** Static `BaseError.fromJSON(data, opts)`; the stack the new instance
        captures is a parameter. */
    static method FromJSON(data: Value, opts: DeserializeOpts, printf: Printf, capturedStack: string)
      returns (r: Result<BaseError, Thrown>)
      ensures r.Failure? <==> BaseFromJSON(data, opts, printf, capturedStack).Failure?
      ensures r.Failure? ==> r.error == BaseFromJSON(data, opts, printf, capturedStack).error
      ensures r.Success? ==>
        && fresh(r.value) && r.value.cls == BaseErrorClass && r.value.Valid()
        && r.value.State() == BaseFromJSON(data, opts, printf, capturedStack).value
    {
      if !IsObjectTyped(data) {
        return Failure(Error("fromJSON(): Data is not an object."));
      }
      if data.Null? {
        return Failure(TypeError("message"));
      }
      var err := new BaseError(Get(data.fields, "message"), EmptyConfig, BaseErrorClass, capturedStack);
      CopyDeserializationData(err, data.fields, opts, printf);
      return Success(err);
    }
  }

  /** Before the deserialisation loop has handled any key, nothing has changed. */
  lemma PartitionNothing(st: ErrorState, entries: Record, flags: Record)
    ensures PartitionMeta(st, Restrict(entries, {}), flags) == st
  {
    assert Restrict(entries, {}) == map[];
    assert UnsafePart(map[], flags) == map[] && SafePart(map[], flags) == map[];
    assert st.metadata + map[] == st.metadata && st.safeMetadata + map[] == st.safeMetadata;
  }

  /** Once every key has been handled, the handled part is the whole. */
  lemma RestrictAll(entries: Record, done: set<string>)
    requires entries.Keys <= done
    ensures Restrict(entries, done) == entries
  {
  }

  /** One more key of `meta` handled by the deserialisation loop. */
  lemma PartitionExtend(start: ErrorState, entries: Record, done: set<string>, key: string, flags: Record)
    requires key in entries && key !in done
    ensures var before := PartitionMeta(start, Restrict(entries, done), flags);
      var after := PartitionMeta(start, Restrict(entries, done + {key}), flags);
      after == if Flagged(flags, key) then WithSafeMetadataStep(before, map[key := entries[key]])
               else WithMetadataStep(before, map[key := entries[key]])
  {
    var small := Restrict(entries, done);
    var large := Restrict(entries, done + {key});
    var v := entries[key];
    assert large == small[key := v];
    PartsExtend(small, key, v, flags);
    OverlayUpdate(start.metadata, UnsafePart(small, flags), key, v);
    OverlayUpdate(start.safeMetadata, SafePart(small, flags), key, v);
    assert large != map[];
  }

  lemma PartsExtend(small: Record, key: string, v: Value, flags: Record)
    requires key !in small
    ensures Flagged(flags, key) ==>
      SafePart(small[key := v], flags) == SafePart(small, flags)[key := v]
      && UnsafePart(small[key := v], flags) == UnsafePart(small, flags)
    ensures !Flagged(flags, key) ==>
      UnsafePart(small[key := v], flags) == UnsafePart(small, flags)[key := v]
      && SafePart(small[key := v], flags) == SafePart(small, flags)
  {
  }

  /** `setOnConvert(fn)` followed by `convert()`: a function handler is the
      one called, and clearing it makes `convert()` return the error itself. */
  method SetThenConvert(err: BaseError, handler: Value) returns (r: Converted)
    requires err.Valid()
    modifies err
    ensures err.Valid() && err.State() == old(err.State()).(onConvert := handler)
    ensures handler.Func? ==> r == ReturnedBy(handler.id)
    ensures !handler.Func? ==> r == Itself
  {
    err.SetOnConvert(handler);
    r := err.Convert();
  }

  lemma OverlayUpdate(base: Record, part: Record, key: string, v: Value)
    ensures base + part[key := v] == (base + part) + map[key := v]
  {
  }
}
