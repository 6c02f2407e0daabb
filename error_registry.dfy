/**
 * ErrorRegistry: holds the high- and low-level definition tables, an index
 * from class names back to high-level keys, and a cache of the classes it
 * generates, one per high-level key; it creates errors from pairs of
 * definitions and rebuilds them from their serialised form.
 */
module Registry {
  import opened JsValues
  import opened Definitions
  import opened BaseErrors
  import opened RegistryErrors
  import opened StackLines

  // ---------------------------------------------------------------------------
  // The class-name index

  /** The property key a definition's `className` becomes in the index. */
  function ClassKey(def: HighLevelDef): string
  {
    ToString(def.className)
  }

  /** `classNameHighLevelNameMap` after the constructor's `forEach` over
      `keys`: each key in turn is written under its class name, so a later
      key overwrites an earlier one with the same class name. */
  function BuildIndex(keys: seq<string>, defs: map<string, HighLevelDef>): map<string, string>
    requires forall k :: k in keys ==> k in defs
    decreases |keys|
  {
    if keys == [] then map[]
    else
      var last := keys[|keys| - 1];
      BuildIndex(keys[..|keys| - 1], defs)[ClassKey(defs[last]) := last]
  }

  /** Every entry of the index points back to a key whose class name it is,
      and every key's class name is in the index. */
  lemma {:induction false} IndexSound(keys: seq<string>, defs: map<string, HighLevelDef>)
    requires forall k :: k in keys ==> k in defs
    ensures forall c :: c in BuildIndex(keys, defs) ==>
      BuildIndex(keys, defs)[c] in keys && ClassKey(defs[BuildIndex(keys, defs)[c]]) == c
    ensures forall k :: k in keys ==> ClassKey(defs[k]) in BuildIndex(keys, defs)
    decreases |keys|
  {
    if keys != [] {
      var init := keys[..|keys| - 1];
      IndexSound(init, defs);
      assert forall k :: k in init ==> k in keys;
      assert forall k :: k in keys ==> k in init || k == keys[|keys| - 1];
    }
  }

  /** Last writer wins: the index sends the class name of the key at `i` to
      that key exactly when no later key has the same class name. */
  lemma {:induction false} IndexLastWins(keys: seq<string>, defs: map<string, HighLevelDef>, i: nat)
    requires Distinct(keys) && (forall k :: k in keys ==> k in defs)
    requires i < |keys|
    ensures ClassKey(defs[keys[i]]) in BuildIndex(keys, defs)
    ensures BuildIndex(keys, defs)[ClassKey(defs[keys[i]])] == keys[i]
      <==> forall j :: i < j < |keys| ==> ClassKey(defs[keys[j]]) != ClassKey(defs[keys[i]])
    decreases |keys|
  {
    var n := |keys|;
    var init := keys[..n - 1];
    var last := keys[n - 1];
    var c := ClassKey(defs[keys[i]]);
    assert BuildIndex(keys, defs) == BuildIndex(init, defs)[ClassKey(defs[last]) := last];
    if i < n - 1 {
      assert forall k :: k in init ==> k in defs;
      assert Distinct(init);
      IndexLastWins(init, defs, i);
      assert init[i] == keys[i];
      if ClassKey(defs[last]) == c {
        LaterSameClass(keys, defs, i);
      } else {
        LaterOtherClass(keys, init, defs, i);
      }
    }
  }

  /** The case of `IndexLastWins` where the last key shares the class name. */
  lemma LaterSameClass(keys: seq<string>, defs: map<string, HighLevelDef>, i: nat)
    requires Distinct(keys) && (forall k :: k in keys ==> k in defs)
    requires i < |keys| - 1 && ClassKey(defs[keys[|keys| - 1]]) == ClassKey(defs[keys[i]])
    ensures !(forall j :: i < j < |keys| ==> ClassKey(defs[keys[j]]) != ClassKey(defs[keys[i]]))
    ensures keys[|keys| - 1] != keys[i]
  {
    var j := |keys| - 1;
    assert i < j < |keys| && ClassKey(defs[keys[j]]) == ClassKey(defs[keys[i]]);
  }

  /** The case of `IndexLastWins` where the last key has another class name:
      the later keys of `keys` and of its prefix agree on the question. */
  lemma LaterOtherClass(keys: seq<string>, init: seq<string>, defs: map<string, HighLevelDef>, i: nat)
    requires forall k :: k in keys ==> k in defs
    requires i < |keys| - 1 && init == keys[..|keys| - 1]
    requires ClassKey(defs[keys[|keys| - 1]]) != ClassKey(defs[keys[i]])
    ensures (forall j :: i < j < |keys| ==> ClassKey(defs[keys[j]]) != ClassKey(defs[keys[i]]))
      <==> (forall j :: i < j < |init| ==> ClassKey(defs[init[j]]) != ClassKey(defs[keys[i]]))
  {
    assert forall j :: i < j < |init| ==> init[j] == keys[j];
  }

  // ---------------------------------------------------------------------------
  // Low-level entries

  /** The low-level table once the entries of `done` carry their key as `type`. */
  function Typed(defs: map<string, LowLevelDef>, done: seq<string>): map<string, LowLevelDef>
  {
    map k | k in defs :: if k in done then defs[k].(errorType := Str(k)) else defs[k]
  }

  /** The registry's own low-level dictionary once the entries of `done` are in. */
  function Populated(defs: map<string, LowLevelDef>, done: seq<string>): map<string, LowLevelDef>
  {
    map k | k in defs && k in done :: defs[k].(errorType := Str(k))
  }

  lemma TypeStep(keys: seq<string>, defs: map<string, LowLevelDef>, i: nat)
    requires i < |keys| && keys[i] in defs
    ensures Typed(defs, keys[..i + 1]) == Typed(defs, keys[..i])[keys[i] := defs[keys[i]].(errorType := Str(keys[i]))]
    ensures Populated(defs, keys[..i + 1]) == Populated(defs, keys[..i])[keys[i] := defs[keys[i]].(errorType := Str(keys[i]))]
  {
    assert keys[..i + 1] == keys[..i] + [keys[i]];
  }

  /** Once every key is done, the two agree, keep the table's keys, and
      every entry carries its key as `type`. */
  lemma TypedAll(keys: seq<string>, defs: map<string, LowLevelDef>)
    requires forall k :: k in defs <==> k in keys
    ensures Populated(defs, keys) == Typed(defs, keys)
    ensures Typed(defs, keys).Keys == defs.Keys
    ensures forall k :: k in Typed(defs, keys) ==> Typed(defs, keys)[k].errorType == Str(k)
  {
  }

  // ---------------------------------------------------------------------------
  // Configuration, context and the shared class cache

  /** IErrorRegistryConfig: `baseErrorConfig` is handed to every error. */
  datatype RegistryConfig = RegistryConfig(baseErrorConfig: Option<ErrorConfig>)

  /** The configuration an error receives: the registry's, or the `{}` the
      error constructor's default parameter supplies. */
  function BaseConfig(config: RegistryConfig): ErrorConfig
  {
    if config.baseErrorConfig.Some? then config.baseErrorConfig.value else EmptyConfig
  }

  /** IErrorRegistryContextConfig: metadata added to every new error; an
      absent (or falsy) entry is `None`. */
  datatype Context = Context(metadata: Option<Record>, safeMetadata: Option<Record>)

  /** `assignErrContext` as a step on the error. */
  function ContextStep(st: ErrorState, context: Option<Context>): ErrorState
  {
    if context.None? then st
    else
      var c := context.value;
      var withMeta := if c.metadata.Some? then WithMetadataStep(st, c.metadata.value) else st;
      if c.safeMetadata.Some? then WithSafeMetadataStep(withMeta, c.safeMetadata.value) else withMeta
  }

  /** Without a context an error is left as it is; with one, its metadata and
      then its safe metadata are merged in, and nothing else changes. */
  lemma ContextMerges(st: ErrorState, context: Option<Context>)
    ensures context.None? ==> ContextStep(st, context) == st
    ensures context.Some? ==>
      var r := ContextStep(st, context);
      var c := context.value;
      && r.metadata == (if c.metadata.Some? then st.metadata + c.metadata.value else st.metadata)
      && r.safeMetadata == (if c.safeMetadata.Some? then st.safeMetadata + c.safeMetadata.value else st.safeMetadata)
      && (r.hasMetadata <==> st.hasMetadata || c.metadata.Some? || c.safeMetadata.Some?)
      && (r.hasSafeMetadata <==> st.hasSafeMetadata || c.safeMetadata.Some?)
      && r == st.(metadata := r.metadata, safeMetadata := r.safeMetadata,
                  hasMetadata := r.hasMetadata, hasSafeMetadata := r.hasSafeMetadata)
  {
  }

  /** A new error as the registry hands it out: constructed, its stack
      trimmed, the context merged in. */
  function Created(hl: HighLevelDef, ll: LowLevelDef, config: RegistryConfig, name: Value,
                   capturedStack: string, context: Option<Context>): ErrorState
  {
    var built := Constructed(hl, ll, BaseConfig(config), name, capturedStack);
    ContextStep(built.(stack := Str(TrimTrace(capturedStack))), context)
  }

  /** Trimming the trace and merging the context leave the callback the
      constructor chose. */
  lemma CreatedOnConvert(hl: HighLevelDef, ll: LowLevelDef, config: RegistryConfig, name: Value,
                         capturedStack: string, context: Option<Context>)
    ensures Created(hl, ll, config, name, capturedStack, context).onConvert
            == Constructed(hl, ll, BaseConfig(config), name, capturedStack).onConvert
  {
  }

  /** `newBareError`'s message: the argument when truthy, else the
      definition's message when truthy, else its code as a string; reading
      from a missing definition, or `toString` from a missing code, throws. */
  function BareMessage(message: Value, def: Option<HighLevelDef>): (r: Result<Value, Thrown>)
    ensures Truthy(message) ==> r == Success(message)
    ensures !Truthy(message) && def.None? ==> r == Failure(TypeError("message"))
    ensures !Truthy(message) && def.Some? && Truthy(def.value.message) ==>
      r == Success(def.value.message)
    ensures (!Truthy(message) && def.Some? && !Truthy(def.value.message)
             && (def.value.code == Undefined || def.value.code == Null)) ==>
      r == Failure(TypeError("toString"))
    ensures (!Truthy(message) && def.Some? && !Truthy(def.value.message)
             && def.value.code != Undefined && def.value.code != Null) ==>
      r == Success(Str(ToString(def.value.code)))
    ensures r.Success? ==>
      (r.value == message || (def.Some? && r.value == def.value.message)
       || (def.Some? && r.value == Str(ToString(def.value.code))))
  {
    if Truthy(message) then Success(message)
    else if def.None? then Failure(TypeError("message"))
    else if Truthy(def.value.message) then Success(def.value.message)
    else if def.value.code.Undefined? || def.value.code.Null? then Failure(TypeError("toString"))
    else Success(Str(ToString(def.value.code)))
  }

  /** `highLevelErrorClasses`, an object the registries made by
      `withContext` share with the one they came from. */
  class ClassCache {
    var classes: map<string, GeneratedClass>

    constructor ()
      ensures classes == map[]
    {
      classes := map[];
    }
  }

  /** The cache only ever gains entries: every class cached before is still
      cached, under the same key. */
  ghost predicate Extends(before: map<string, GeneratedClass>, after: map<string, GeneratedClass>)
  {
    before.Keys <= after.Keys && forall k :: k in before ==> after[k] == before[k]
  }

  /** The high-level key `fromJSON` resolves a serialised `name` to; a name
      missing from the index reads as `undefined`, which as a key is "undefined". */
  function ResolveKey(index: map<string, string>, data: Record): string
  {
    var className := ToString(Get(data, "name"));
    if className in index then index[className] else "undefined"
  }

  /** The full serialisation of an error named after the class name of the
      key at `i` resolves back to that key, provided no later key shares
      the class name (otherwise the later key wins). */
  lemma SerialisedNameResolves(keys: seq<string>, defs: map<string, HighLevelDef>, i: nat,
                               st: ErrorState, hooks: Hooks)
    requires Distinct(keys) && (forall k :: k in keys ==> k in defs)
    requires i < |keys| && st.name == defs[keys[i]].className && Transparent(st)
    requires forall j :: i < j < |keys| ==> ClassKey(defs[keys[j]]) != ClassKey(defs[keys[i]])
    ensures ResolveKey(BuildIndex(keys, defs), FullJSON(st, hooks, [])) == keys[i]
  {
    NameReadBack(st, hooks);
    IndexLastWins(keys, defs, i);
  }

  // ---------------------------------------------------------------------------
  // The registry

  class ErrorRegistry {
    var highLevelErrors: map<string, HighLevelDef>
    ghost var highLevelKeys: seq<string>
    var lowLevelErrors: map<string, LowLevelDef>
    var classNameHighLevelNameMap: map<string, string>
    var highLevelErrorClasses: ClassCache
    var config: RegistryConfig
    var newErrorContext: Option<Context>

    /** The index is the fold of the keys; each cached class belongs to a
        defined key, carries its class name and is distinct from the others;
        each low-level entry's `type` is its key. */
    ghost predicate Valid()
      reads this, highLevelErrorClasses
    {
      && Distinct(highLevelKeys)
      && (forall k :: k in highLevelErrors <==> k in highLevelKeys)
      && classNameHighLevelNameMap == BuildIndex(highLevelKeys, highLevelErrors)
      && CacheValid(highLevelErrorClasses.classes)
      && (forall k :: k in lowLevelErrors ==> lowLevelErrors[k].errorType == Str(k))
    }

    ghost predicate CacheValid(classes: map<string, GeneratedClass>)
      reads this
    {
      && (forall h :: h in classes ==> h in highLevelErrors && classes[h].name == highLevelErrors[h].className)
      && (forall h1, h2 :: h1 in classes && h2 in classes && h1 != h2 ==> classes[h1] != classes[h2])
    }

    /** `new ErrorRegistry(highLvErrors, lowLvErrors, config)`. The caller's
        low-level entries are given their `type` in place. */
    constructor (highLvErrors: HighLevelTable, lowLvErrors: LowLevelTable, config: RegistryConfig)
      requires highLvErrors.Valid() && lowLvErrors.Valid()
      modifies lowLvErrors
      ensures Valid() && fresh(highLevelErrorClasses)
      ensures highLevelErrors == highLvErrors.defs && highLevelKeys == highLvErrors.keys
      ensures classNameHighLevelNameMap == BuildIndex(highLvErrors.keys, highLvErrors.defs)
      ensures highLevelErrorClasses.classes == map[]
      ensures lowLvErrors.keys == old(lowLvErrors.keys) && lowLvErrors.Valid()
      ensures lowLvErrors.defs == Typed(old(lowLvErrors.defs), old(lowLvErrors.keys))
      ensures lowLevelErrors == lowLvErrors.defs
      ensures this.config == config && newErrorContext.None?
    {
      highLevelErrors := highLvErrors.defs;
      highLevelKeys := highLvErrors.keys;
      lowLevelErrors := map[];
      classNameHighLevelNameMap := map[];
      highLevelErrorClasses := new ClassCache();
      this.config := config;
      newErrorContext := None;
      new;
      IndexClassNames(highLvErrors);
      PopulateLowLevel(lowLvErrors);
    }

    /** The constructor's first `forEach`: each key written under its class name. */
    method IndexClassNames(highLvErrors: HighLevelTable)
      requires forall k :: k in highLvErrors.keys ==> k in highLvErrors.defs
      modifies this`classNameHighLevelNameMap
      ensures classNameHighLevelNameMap == BuildIndex(highLvErrors.keys, highLvErrors.defs)
    {
      ghost var keys := highLvErrors.keys;
      classNameHighLevelNameMap := map[];
      var i := 0;
      while i < |highLvErrors.keys|
        invariant i <= |keys|
        invariant classNameHighLevelNameMap == BuildIndex(keys[..i], highLvErrors.defs)
      {
        var name := highLvErrors.keys[i];
        assert keys[..i + 1][..i] == keys[..i];
        classNameHighLevelNameMap := classNameHighLevelNameMap[ClassKey(highLvErrors.defs[name]) := name];
        i := i + 1;
      }
      assert keys[..i] == keys;
    }

    /** The constructor's second `forEach`: each caller's entry gets its key
        as `type`, in place, and goes into the registry's dictionary. */
    method PopulateLowLevel(lowLvErrors: LowLevelTable)
      requires lowLvErrors.Valid()
      modifies this`lowLevelErrors, lowLvErrors
      ensures lowLvErrors.keys == old(lowLvErrors.keys) && lowLvErrors.Valid()
      ensures lowLvErrors.defs == Typed(old(lowLvErrors.defs), old(lowLvErrors.keys))
      ensures lowLevelErrors == lowLvErrors.defs
      ensures forall k :: k in lowLevelErrors ==> lowLevelErrors[k].errorType == Str(k)
    {
      ghost var keys := lowLvErrors.keys;
      ghost var start := lowLvErrors.defs;
      assert Distinct(keys) && forall k :: k in start <==> k in keys;
      lowLevelErrors := map[];
      assert Typed(start, keys[..0]) == start;
      for j := 0 to |lowLvErrors.keys|
        invariant lowLvErrors.keys == keys
        invariant lowLvErrors.defs == Typed(start, keys[..j])
        invariant lowLevelErrors == Populated(start, keys[..j])
      {
        TypeEntry(lowLvErrors, j, keys, start);
      }
      assert keys[..|keys|] == keys;
      TypedAll(keys, start);
    }

    /** One turn of that `forEach`: the entry of the key at `j`. */
    method TypeEntry(lowLvErrors: LowLevelTable, j: nat, ghost keys: seq<string>, ghost start: map<string, LowLevelDef>)
      requires Distinct(keys) && (forall k :: k in start <==> k in keys) && j < |keys|
      requires lowLvErrors.keys == keys
      requires lowLvErrors.defs == Typed(start, keys[..j]) && lowLevelErrors == Populated(start, keys[..j])
      modifies this`lowLevelErrors, lowLvErrors`defs
      ensures lowLvErrors.defs == Typed(start, keys[..j + 1]) && lowLevelErrors == Populated(start, keys[..j + 1])
    {
      var errorType := lowLvErrors.keys[j];
      assert errorType !in keys[..j];
      var errCode := lowLvErrors.defs[errorType];
      assert errCode == start[errorType];
      errCode := errCode.(errorType := Str(errorType));
      TypeStep(keys, start, j);
      lowLvErrors.defs := lowLvErrors.defs[errorType := errCode];
      lowLevelErrors := lowLevelErrors[errorType := errCode];
    }

    /** `getHighLevelError(h)`: `undefined` when there is no such definition. */
    function GetHighLevelError(h: string): (r: Option<HighLevelDef>)
      reads this
      ensures r.Some? <==> h in highLevelErrors
      ensures r.Some? ==> r.value == highLevelErrors[h]
    {
      if h in highLevelErrors then Some(highLevelErrors[h]) else None
    }

    /** `getLowLevelError(l)`. */
    function GetLowLevelError(l: string): (r: Option<LowLevelDef>)
      reads this
      ensures r.Some? <==> l in lowLevelErrors
      ensures r.Some? ==> r.value == lowLevelErrors[l]
    {
      if l in lowLevelErrors then Some(lowLevelErrors[l]) else None
    }

    /** `getClass(h)`: throws for an undefined key; otherwise returns the
        cached class, generating and caching one named after the definition's
        class name on the first call. */
    method GetClass(h: string) returns (r: Result<GeneratedClass, Thrown>)
      requires Valid()
      modifies highLevelErrorClasses
      ensures Valid()
      ensures h !in highLevelErrors ==>
        r == Failure(Error("High level error not defined: " + h)) && unchanged(highLevelErrorClasses)
      ensures h in highLevelErrors ==>
        && r.Success? && h in highLevelErrorClasses.classes && r.value == highLevelErrorClasses.classes[h]
        && r.value.name == highLevelErrors[h].className
      ensures h in old(highLevelErrorClasses.classes) ==>
        r.Success? && r.value == old(highLevelErrorClasses.classes[h]) && unchanged(highLevelErrorClasses)
      ensures h in highLevelErrors && h !in old(highLevelErrorClasses.classes) ==>
        fresh(r.value) && highLevelErrorClasses.classes == old(highLevelErrorClasses.classes)[h := r.value]
      ensures Extends(old(highLevelErrorClasses.classes), highLevelErrorClasses.classes)
    {
      var highLevelDef := GetHighLevelError(h);
      if highLevelDef.None? {
        return Failure(Error("High level error not defined: " + h));
      }
      if h !in highLevelErrorClasses.classes {
        var c := new GeneratedClass(highLevelDef.value.className);
        highLevelErrorClasses.classes := highLevelErrorClasses.classes[h := c];
      }
      return Success(highLevelErrorClasses.classes[h]);
    }

    /** `instanceOf(a, h)`: whether `a` was built by the class `getClass(h)`
        returns (generated classes all extend BaseRegistryError directly). */
    method InstanceOf(a: BaseError?, h: string) returns (r: Result<bool, Thrown>)
      requires Valid()
      modifies highLevelErrorClasses
      ensures Valid()
      ensures h !in highLevelErrors ==> r == Failure(Error("High level error not defined: " + h))
      ensures h in highLevelErrors ==>
        h in highLevelErrorClasses.classes
        && r == Success(a != null && a.cls == Generated(highLevelErrorClasses.classes[h]))
      ensures Extends(old(highLevelErrorClasses.classes), highLevelErrorClasses.classes)
    {
      var c := GetClass(h);
      if c.Failure? {
        return Failure(c.error);
      }
      return Success(a != null && a.cls == Generated(c.value));
    }

    /** `reformatTrace(err)`: the line at index 1 of the stack is removed. */
    static method ReformatTrace(err: BaseError)
      requires err.Valid() && err.stack.Str?
      modifies err
      ensures err.Valid() && err.State() == old(err.State()).(stack := Str(TrimTrace(old(err.stack.s))))
    {
      var stack := Split(err.stack.s);
      stack := Splice1(stack);
      err.stack := Str(Join(stack));
    }

    /** `assignErrContext(err)`. */
    method AssignErrContext(err: BaseError)
      requires err.Valid()
      modifies err
      ensures err.Valid() && err.State() == ContextStep(old(err.State()), newErrorContext)
    {
      if newErrorContext.None? {
        return;
      }
      if newErrorContext.value.metadata.Some? {
        err.WithMetadata(newErrorContext.value.metadata.value);
      }
      if newErrorContext.value.safeMetadata.Some? {
        err.WithSafeMetadata(newErrorContext.value.safeMetadata.value);
      }
    }

    /** The part `newError` and `newBareError` share: construct the error
        with the registry's base configuration, trim its trace, add the context. */
    method Build(hl: HighLevelDef, ll: LowLevelDef, cls: ErrorClass, capturedStack: string) returns (err: BaseError)
      requires !cls.BaseErrorClass?
      ensures fresh(err) && err.cls == cls && err.Valid()
      ensures err.State() == Created(hl, ll, config, ClassName(cls), capturedStack, newErrorContext)
    {
      err := NewRegistryError(hl, ll, BaseConfig(config), cls, capturedStack);
      ReformatTrace(err);
      AssignErrContext(err);
    }

    /** `newError(h, l)`: the low-level name is checked first, then
        `getClass(h)`; the error is built from both definitions with the
        registry's base configuration, its trace trimmed, the context added.
        The registry itself, its configuration included, is left unchanged. */
    method NewError(h: string, l: string, capturedStack: string) returns (r: Result<BaseError, Thrown>)
      requires Valid()
      modifies highLevelErrorClasses
      ensures Valid()
      ensures l !in lowLevelErrors ==>
        r == Failure(Error("Low level error not defined: " + l)) && unchanged(highLevelErrorClasses)
      ensures l in lowLevelErrors && h !in highLevelErrors ==>
        r == Failure(Error("High level error not defined: " + h))
      ensures l in lowLevelErrors && h in highLevelErrors ==>
        && r.Success? && fresh(r.value) && r.value.Valid()
        && h in highLevelErrorClasses.classes
        && r.value.cls == Generated(highLevelErrorClasses.classes[h])
        && r.value.State() == Created(highLevelErrors[h], lowLevelErrors[l], config,
                                      highLevelErrors[h].className, capturedStack, newErrorContext)
      ensures Extends(old(highLevelErrorClasses.classes), highLevelErrorClasses.classes)
    {
      if l !in lowLevelErrors {
        return Failure(Error("Low level error not defined: " + l));
      }
      var c := GetClass(h);
      if c.Failure? {
        return Failure(c.error);
      }
      var err := Build(highLevelErrors[h], lowLevelErrors[l], Generated(c.value), capturedStack);
      return Success(err);
    }

    /** `newBareError(h, message)`: an error with only a message as its
        low-level part; see `BareMessage` for how the message is chosen. */
    method NewBareError(h: string, message: Value, capturedStack: string) returns (r: Result<BaseError, Thrown>)
      requires Valid()
      modifies highLevelErrorClasses
      ensures Valid()
      ensures BareMessage(message, GetHighLevelError(h)).Failure? ==>
        r == Failure(BareMessage(message, GetHighLevelError(h)).error)
      ensures Truthy(message) && h !in highLevelErrors ==>
        r == Failure(Error("High level error not defined: " + h))
      ensures h in highLevelErrors && BareMessage(message, GetHighLevelError(h)).Success? ==>
        && r.Success? && fresh(r.value) && r.value.Valid()
        && h in highLevelErrorClasses.classes
        && r.value.cls == Generated(highLevelErrorClasses.classes[h])
        && r.value.State() == Created(highLevelErrors[h], MessageOnly(BareMessage(message, GetHighLevelError(h)).value),
                                      config, highLevelErrors[h].className, capturedStack, newErrorContext)
      ensures Extends(old(highLevelErrorClasses.classes), highLevelErrorClasses.classes)
    {
      var text := message;
      if !Truthy(text) {
        if h !in highLevelErrors {
          return Failure(TypeError("message"));
        }
        var hlErrDef := highLevelErrors[h];
        if Truthy(hlErrDef.message) {
          text := hlErrDef.message;
        } else if hlErrDef.code.Undefined? || hlErrDef.code.Null? {
          return Failure(TypeError("toString"));
        } else {
          text := Str(ToString(hlErrDef.code));
        }
      }
      var c := GetClass(h);
      if c.Failure? {
        return Failure(c.error);
      }
      assert BareMessage(message, GetHighLevelError(h)) == Success(text);
      var err := Build(highLevelErrors[h], MessageOnly(text), Generated(c.value), capturedStack);
      return Success(err);
    }

    /** `fromJSON(data, opts)`: a serialised `name` that the index resolves
        to a defined key selects that key's generated class; anything else
        falls back to `BaseError.fromJSON`. */
    method FromJSON(data: Value, opts: DeserializeOpts, printf: Printf, capturedStack: string)
      returns (r: Result<BaseError, Thrown>)
      requires Valid()
      modifies highLevelErrorClasses
      ensures Valid()
      ensures !IsObjectTyped(data) ==> r == Failure(Error("fromJSON(): Data is not an object."))
      ensures data.Null? ==> r == Failure(TypeError("name"))
      ensures data.Obj? && ResolveKey(classNameHighLevelNameMap, data.fields) in highLevelErrors ==>
        var key := ResolveKey(classNameHighLevelNameMap, data.fields);
        && key in highLevelErrorClasses.classes
        && r.Success? && fresh(r.value) && r.value.Valid()
        && r.value.cls == Generated(highLevelErrorClasses.classes[key])
        && r.value.State() == RegistryFromJSON(Generated(highLevelErrorClasses.classes[key]), data, opts, printf, capturedStack).value
      ensures data.Obj? && ResolveKey(classNameHighLevelNameMap, data.fields) !in highLevelErrors ==>
        && r.Success? && fresh(r.value) && r.value.Valid() && r.value.cls == BaseErrorClass
        && r.value.State() == BaseFromJSON(data, opts, printf, capturedStack).value
      ensures Extends(old(highLevelErrorClasses.classes), highLevelErrorClasses.classes)
    {
      if !IsObjectTyped(data) {
        return Failure(Error("fromJSON(): Data is not an object."));
      }
      if data.Null? {
        return Failure(TypeError("name"));
      }
      var errorName := ResolveKey(classNameHighLevelNameMap, data.fields);
      var highLevelDef := GetHighLevelError(errorName);
      if highLevelDef.Some? {
        var c := GetClass(errorName);
        r := RegistryErrors.FromJSON(Generated(c.value), data, opts, printf, capturedStack);
      } else {
        r := BaseError.FromJSON(data, opts, printf, capturedStack);
      }
    }

    /** `Object.keys(source).forEach(p => this[p] = source[p])`: every
        property copied by reference. */
    method CopyFrom(source: ErrorRegistry)
      requires source.Valid() && source != this
      modifies this
      ensures Valid()
      ensures highLevelErrors == source.highLevelErrors && lowLevelErrors == source.lowLevelErrors
      ensures classNameHighLevelNameMap == source.classNameHighLevelNameMap
      ensures highLevelErrorClasses == source.highLevelErrorClasses
      ensures config == source.config && newErrorContext == source.newErrorContext
    {
      highLevelErrors := source.highLevelErrors;
      highLevelKeys := source.highLevelKeys;
      lowLevelErrors := source.lowLevelErrors;
      classNameHighLevelNameMap := source.classNameHighLevelNameMap;
      highLevelErrorClasses := source.highLevelErrorClasses;
      config := source.config;
      newErrorContext := source.newErrorContext;
    }

    /** `withContext(context)`: a new registry sharing this one's tables,
        index, configuration and class cache (the very same cache object),
        with its own context; this registry is not changed. */
    method WithContext(context: Context) returns (registry: ErrorRegistry)
      requires Valid()
      ensures fresh(registry) && registry.Valid()
      ensures registry.highLevelErrors == highLevelErrors && registry.lowLevelErrors == lowLevelErrors
      ensures registry.classNameHighLevelNameMap == classNameHighLevelNameMap
      ensures registry.highLevelErrorClasses == highLevelErrorClasses
      ensures registry.config == config
      ensures registry.newErrorContext == Some(context)
    {
      var noHigh := new HighLevelTable([], map[]);
      var noLow := new LowLevelTable([], map[]);
      registry := new ErrorRegistry(noHigh, noLow, RegistryConfig(None));
      registry.CopyFrom(this);
      registry.newErrorContext := Some(context);
    }
  }

  /** `instanceOf(newError(h, l), h)` holds. */
  method NewErrorIsInstance(registry: ErrorRegistry, h: string, l: string, capturedStack: string)
    returns (own: Result<bool, Thrown>)
    requires registry.Valid()
    requires h in registry.highLevelErrors && l in registry.lowLevelErrors
    modifies registry.highLevelErrorClasses
    ensures own == Success(true)
  {
    var err := registry.NewError(h, l, capturedStack);
    own := registry.InstanceOf(err.value, h);
  }

  /** `instanceOf(newError(h, l), h2)` does not hold for any other defined `h2`. */
  method NewErrorIsNotOther(registry: ErrorRegistry, h: string, h2: string, l: string, capturedStack: string)
    returns (other: Result<bool, Thrown>)
    requires registry.Valid()
    requires h in registry.highLevelErrors && h2 in registry.highLevelErrors && h != h2
    requires l in registry.lowLevelErrors
    modifies registry.highLevelErrorClasses
    ensures other == Success(false)
  {
    var err := registry.NewError(h, l, capturedStack);
    var created := err.value;
    ghost var cls := registry.highLevelErrorClasses.classes[h];
    other := registry.InstanceOf(created, h2);
    assert registry.highLevelErrorClasses.classes[h] == cls;
  }

  /** Creating an error whose definitions carry an `onConvert` does not
      hand that callback to the next error: the second error's callback comes
      from its own definitions, or else from the registry's configuration. */
  method OnConvertStaysOwn(registry: ErrorRegistry, h: string, l: string, h2: string, l2: string, capturedStack: string)
    returns (first: Result<BaseError, Thrown>, second: Result<BaseError, Thrown>)
    requires registry.Valid()
    requires h in registry.highLevelErrors && l in registry.lowLevelErrors
    requires h2 in registry.highLevelErrors && l2 in registry.lowLevelErrors
    modifies registry.highLevelErrorClasses
    ensures first.Success? && second.Success?
    ensures var hl2 := registry.highLevelErrors[h2];
      var ll2 := registry.lowLevelErrors[l2];
      var base := BaseConfig(registry.config);
      && (ll2.onConvert.Func? ==> second.value.onConvert == ll2.onConvert)
      && (!ll2.onConvert.Func? && hl2.onConvert.Func? ==> second.value.onConvert == hl2.onConvert)
      && (!ll2.onConvert.Func? && !hl2.onConvert.Func? ==>
            second.value.onConvert == if Truthy(base.onConvert) then base.onConvert else Null)
  {
    first := registry.NewError(h, l, capturedStack);
    second := registry.NewError(h2, l2, capturedStack);
    CreatedOnConvert(registry.highLevelErrors[h2], registry.lowLevelErrors[l2], registry.config,
                     registry.highLevelErrors[h2].className, capturedStack, registry.newErrorContext);
  }

  /** Two calls of `getClass(h)` return the identical class. */
  method GetClassTwice(registry: ErrorRegistry, h: string) returns (first: Result<GeneratedClass, Thrown>, second: Result<GeneratedClass, Thrown>)
    requires registry.Valid()
    modifies registry.highLevelErrorClasses
    ensures first == second
    ensures first.Success? <==> h in registry.highLevelErrors
  {
    first := registry.GetClass(h);
    second := registry.GetClass(h);
  }
}
