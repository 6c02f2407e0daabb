# new-error, modelled in Dafny

This project models the core of `new-error`, a TypeScript library for
error taxonomies. An application declares two tables of error definitions:

- **high-level errors** are the categories a caller sees, such as
  `INTERNAL_SERVER_ERROR` with a class name, a code and a status code;
- **low-level errors** are the specific causes, such as `DATABASE_FAILURE`
  with a message, a sub-code and a status code.

An `ErrorRegistry` combines one entry of each table into an error object.
That object is a `BaseRegistryError`, and `BaseRegistryError` extends
`BaseError`. A `BaseError` carries:

- identity fields (error id, request id, type, code, sub-code, status code,
  log level);
- unsafe and safe metadata maps, which only grow;
- an optional cause, whose message is appended to the error's message at
  most once.

An error serialises to a full JSON object (`toJSON`) or a client-safe one
(`toJSONSafe`), and deserialises back (`fromJSON`). The helpers in `utils.ts`
fill in missing class names, codes and sub-codes of a table in place,
deriving class names with `toPascalCase`.

The files:

- `js_values.dfy` (module `JsValues`): the JavaScript values the library
  handles.
  - Truthiness is explicit, because most guards in the library test
    truthiness and skip `0` and `""`.
  - Also here: `typeof === 'object'`, property reads that yield
    `undefined`, and `String(v)`.
  - An exception is a `Thrown` value inside a `Result`: either
    `new Error(message)` or the engine's `TypeError` when a property is read
    from `undefined` or `null`.
- `definitions.dfy` (module `Definitions`): the high- and low-level
  definitions. Also the two tables the caller owns, which are objects with
  their `Object.keys` order and their entries.
- `base_error.dfy` (module `BaseErrors`), for `src/error-types/BaseError.ts`:
  - `ErrorState` is the error's fields as a value. Pure functions over it
    (`WithMetadataStep`, `AppendCausedBy`, `FullJSON`, `SafeJSON`,
    `CopyDeserialization`, `BaseFromJSON`, …) say what each operation does,
    and lemmas state the properties.
  - The class `BaseError` keeps the source's fields. Each method is proved
    to perform the matching step on `State()`, or to return the matching
    serialisation.
  - The serialisers delete keys in loops, as the source does.
  - The deserialiser walks the `meta` keys in a loop.
- `base_registry_error.dfy` (module `RegistryErrors`): the constructor's
  override rules (`Constructed`) and the constructor and `fromJSON` of
  `BaseRegistryError`.
- `stack_lines.dfy` (module `StackLines`): the newline split, splice and
  join of `reformatTrace`.
- `error_registry.dfy` (module `Registry`): the `ErrorRegistry` class.
  - It has a class-name index, a class cache shared by reference, error
    creation and `fromJSON` dispatch.
  - `withContext` is here too.
  - A few scenario methods chain calls on one registry.
- `utils.dfy` (module `Utils`): `toPascalCase`, and the two generators that
  fill a table in place.

The model stands in for code it cannot see:

- Classes built at run time (`class extends BaseRegistryError`) are
  `GeneratedClass` objects. Their identity is their object identity.
- The class that built an error is an `ErrorClass` tag: `BaseError`,
  `BaseRegistryError`, or one generated class.
- These are parameters:
  - the user's callbacks (`onPreToJSONData`, `onPreToJSONSafeData`), as
    `Hooks`;
  - `vsprintf` of sprintf-js, as `Printf`;
  - the stack trace the engine captures, as a string.

## Model

| member | source | states |
|---|---|---|
| `BaseErrors.Initial` | src/error-types/BaseError.ts:33-43 | a new error has empty metadata, neither metadata flag, and no appended cause message |
| `BaseErrors.BaseError.constructor` | src/error-types/BaseError.ts:33-43 | the constructed object's fields are the initial state for its message, config and class; its name is the class name |
| `BaseErrors.BaseError.WithLogLevel` | src/error-types/BaseError.ts:50-53 | only the log level changes |
| `BaseErrors.BaseError.WithErrorId` | src/error-types/BaseError.ts:59-62 | only the error id changes |
| `BaseErrors.BaseError.WithRequestId` | src/error-types/BaseError.ts:68-71 | only the request id changes |
| `BaseErrors.BaseError.WithErrorType` | src/error-types/BaseError.ts:77-80 | only the type changes |
| `BaseErrors.BaseError.WithErrorCode` | src/error-types/BaseError.ts:86-89 | only the code changes |
| `BaseErrors.BaseError.WithErrorSubCode` | src/error-types/BaseError.ts:95-98 | only the sub-code changes |
| `BaseErrors.BaseError.SetConfig` | src/error-types/BaseError.ts:187-190 | only the configuration changes |
| `BaseErrors.BaseError.WithStatusCode` | src/error-types/BaseError.ts:251-254 | only the status code changes |
| `BaseErrors.AppendCausedBy` | src/error-types/BaseError.ts:217-231 | the flag ends up set iff it was already set or the cause has a truthy message and a format is configured; on the first append, the message gains the formatted cause message and nothing else changes; otherwise the error is unchanged |
| `BaseErrors.BaseError.AppendCausedByMessage` | src/error-types/BaseError.ts:217-231 | performs that step on the object's fields |
| `BaseErrors.BaseError.FormatMessage` | src/error-types/BaseError.ts:197-201 | the message is substituted, then the caused-by append is attempted |
| `BaseErrors.BaseError.CausedBy` | src/error-types/BaseError.ts:207-211 | the cause is recorded, then the caused-by append is attempted |
| `BaseErrors.AppendsAtMostOnce` | src/error-types/BaseError.ts:197-231 | over any sequence of formatMessage/causedBy calls, the cause message is appended at most once, and never after it has been |
| `BaseErrors.WithMetadataStep` | src/error-types/BaseError.ts:238-245 | the unsafe metadata becomes the old map overlaid with `m`: keys of `m` take `m`'s values, other keys keep theirs; only the unsafe map and its flag change; well-formedness is kept |
| `BaseErrors.BaseError.WithMetadata` | src/error-types/BaseError.ts:238-245 | performs that step on the object's fields |
| `BaseErrors.WithSafeMetadataStep` | src/error-types/BaseError.ts:261-269 | only the safe metadata is overlaid with `m`, and both flags become set |
| `BaseErrors.BaseError.WithSafeMetadata` | src/error-types/BaseError.ts:261-269 | performs that step on the object's fields |
| `BaseErrors.FullDraft` | src/error-types/BaseError.ts:279-303 | the draft has `meta` iff the metadata methods were called or omission is off; its `meta` is the unsafe map overlaid with the safe one |
| `BaseErrors.SafeDraft` | src/error-types/BaseError.ts:337-350 | the safe draft has only errId, reqId, code, subCode, statusCode and meta keys; `meta` is present iff `withSafeMetadata` was called or omission is off, and is the safe map |
| `BaseErrors.Defined` | src/error-types/BaseError.ts:309-314 | a key survives iff its value is not undefined, with its value unchanged |
| `BaseErrors.Without` | src/error-types/BaseError.ts:316-326 | a key survives iff it is not listed, with its value unchanged |
| `BaseErrors.DeleteUndefined` | src/error-types/BaseError.ts:309-314 | the deletion loop leaves exactly the defined entries |
| `BaseErrors.DeleteKeys` | src/error-types/BaseError.ts:316-320 | the deletion loop leaves exactly the unlisted entries |
| `BaseErrors.BaseError.ToJSON` | src/error-types/BaseError.ts:278-329 | returns the full serialisation of the object's state |
| `BaseErrors.BaseError.ToJSONSafe` | src/error-types/BaseError.ts:336-376 | returns the safe serialisation of the object's state |
| `BaseErrors.FullJSONOmitsAndDefined` | src/error-types/BaseError.ts:305-326 | whatever the hook returns, `toJSON` output holds no key from either omit list and no undefined value |
| `BaseErrors.FullJSONMeta` | src/error-types/BaseError.ts:289-303 | without a hook, `toJSON().meta` is present iff the metadata methods were called or omission is off; its keys are the union of both maps, and on a clash the safe value wins |
| `BaseErrors.SafeJSONShape` | src/error-types/BaseError.ts:336-376 | without a hook, the safe output never has name, message, type, stack, causedBy or logLevel and holds no undefined value; its `meta` is exactly the safe metadata when present |
| `BaseErrors.SafeJSONOmits` | src/error-types/BaseError.ts:363-373 | whatever the hook returns, `toJSONSafe` output holds no key from either omit list |
| `BaseErrors.HookOrderDiffers` | src/error-types/BaseError.ts:305-361 | a hook that adds an undefined entry leaves it in the safe output but not in the full output, because the hooks run on opposite sides of undefined removal |
| `BaseErrors.MetaFollowsCalls` | src/error-types/BaseError.ts:297-303 | with omission on, a fresh error has no `meta` in either output, while after `withMetadata({})` the full output has an empty `meta` and the safe output still has none |
| `BaseErrors.BaseError.Convert` | src/error-types/BaseError.ts:382-388 | returns the error itself iff no handler is defined, and otherwise the result of calling that function |
| `BaseErrors.BaseError.HasOnConvertDefined` | src/error-types/BaseError.ts:393-395 | a function handler counts; no other value does, whether falsy (null, undefined) or truthy (a string, an object, `true`, a non-zero number); so a handler that counts is always truthy |
| `BaseErrors.BaseError.SetOnConvert` | src/error-types/BaseError.ts:401-403 | only the callback changes |
| `BaseErrors.SetThenConvert` | src/error-types/BaseError.ts:382-403 | after `setOnConvert(fn)`, `convert()` calls `fn` if it is a function and otherwise returns the error itself |
| `BaseErrors.PartitionMeta` | src/error-types/BaseError.ts:451-462 | a flagged meta key goes to the safe map and an unflagged one to the unsafe map, each with its value, and no other key enters either map (an unflagged key never reaches the safe map); keys already present keep their values; the unsafe flag is set iff meta is non-empty, the safe flag iff some key is flagged; no other field changes |
| `BaseErrors.DeserializationPartitions` | src/error-types/BaseError.ts:450-465 | with flags, each meta key goes to the map its flag names and to no other, and the existing entries of both maps are kept; without flags, the whole meta (or `{}`) is merged into the unsafe map and the safe map is left alone (the other fields: `CopyDeserializationFields`) |
| `BaseErrors.BaseError.CopyDeserializationData` | src/error-types/BaseError.ts:412-466 | the object's new state is the deserialisation step applied to its old state |
| `BaseErrors.BaseError.CopyCodes` | src/error-types/BaseError.ts:416-422 | code and sub-code are overwritten only by truthy serialised values, through the setters |
| `BaseErrors.BaseError.CopyIds` | src/error-types/BaseError.ts:424-430 | error and request id are overwritten only by truthy serialised values |
| `BaseErrors.BaseError.CopyDiagnostics` | src/error-types/BaseError.ts:432-442 | status code, stack and log level are overwritten only by truthy serialised values |
| `BaseErrors.BaseError.CopyMetadata` | src/error-types/BaseError.ts:450-465 | performs the metadata step of deserialisation on the object |
| `BaseErrors.BaseError.PartitionInto` | src/error-types/BaseError.ts:452-462 | the per-key loop of `withSafeMetadata`/`withMetadata` calls ends in the partitioned state, whatever order the keys are visited in |
| `BaseErrors.BaseError.PartitionKey` | src/error-types/BaseError.ts:453-461 | one turn of that loop extends the handled keys by one |
| `BaseErrors.BaseError.FromJSON` | src/error-types/BaseError.ts:474-491 | fails exactly when the input is not object-typed (Error) or is null (TypeError reading `message`); otherwise it returns a fresh BaseError in the deserialised state |
| `BaseErrors.CopyDeserializationFields` | src/error-types/BaseError.ts:416-448 | without an append format, deserialisation sets each identity field, the stack and the cause from the truthy serialised values and touches nothing else before the metadata step |
| `BaseErrors.CopyMetaOnlyMetadata` | src/error-types/BaseError.ts:450-465 | the metadata step changes only the two maps and their flags |
| `BaseErrors.TransparentFullJSON` | src/error-types/BaseError.ts:278-329 | without a hook or configured omissions, `toJSON()` is the draft minus its undefined entries |
| `BaseErrors.CodesReadBack` | src/error-types/BaseError.ts:279-295 | reading code, subCode and statusCode back from `toJSON()` gives the error's own values |
| `BaseErrors.IdsReadBack` | src/error-types/BaseError.ts:279-295 | the same for errId, reqId and logLevel |
| `BaseErrors.DiagnosticsReadBack` | src/error-types/BaseError.ts:279-295 | the same for causedBy, stack and message; `meta` reads back as the serialised metadata |
| `BaseErrors.NameReadBack` | src/error-types/BaseError.ts:279-295 | the same for the name |
| `BaseErrors.Restored` | src/error-types/BaseError.ts:474-491 | the error `fromJSON` has built before the metadata step has empty metadata |
| `BaseErrors.RestoredFrom` | src/error-types/BaseError.ts:474-491 | any object that reads back as an error's fields deserialises to the restored error plus its `meta` |
| `BaseErrors.RoundTripState` | src/error-types/BaseError.ts:474-491 | `BaseError.fromJSON(e.toJSON())` is the restored error with the serialised metadata copied in |
| `BaseErrors.RoundTripFields` | src/error-types/BaseError.ts:412-448 | a round trip keeps the truthy identity fields, loses falsy ones (0 and "" included), renames the error to BaseError, and keeps the message, plus the stack and cause when truthy |
| `BaseErrors.RestoredMetadata` | src/error-types/BaseError.ts:450-465 | the restored metadata is the serialised metadata, partitioned by the flags when given and otherwise all unsafe |
| `BaseErrors.RoundTripMergesMetadata` | src/error-types/BaseError.ts:463-465 | without flags, a round trip folds both partitions into the unsafe map and leaves the safe map empty |
| `BaseErrors.SplitMerged` | src/error-types/BaseError.ts:451-462 | partitioning the merged metadata by flags naming the safe keys separates it again: the safe part is the safe map, and the unsafe part is the unsafe map without the shadowed keys |
| `BaseErrors.RoundTripRestoresPartition` | src/error-types/BaseError.ts:451-462 | flagging exactly the safe keys restores the safe map; the unsafe map comes back without the keys the safe map shadowed |
| `BaseErrors.GeneratedClass.constructor` | src/ErrorRegistry.ts:116-117 | a generated class is a new object named after the definition's class name |
| `RegistryErrors.ConfigAfter` | src/error-types/BaseRegistryError.ts:21-27 | the configuration handed in gets a function `onConvert` iff either definition or the configuration had one; no other option changes |
| `RegistryErrors.ApplyHighLevel` | src/error-types/BaseRegistryError.ts:31-39 | the high-level setter calls perform the high-level half of the override rules stated in `Constructed` |
| `RegistryErrors.ApplyLowLevel` | src/error-types/BaseRegistryError.ts:41-55 | the low-level setter calls, each guarded by truthiness, perform the low-level half of those rules |
| `RegistryErrors.Constructed` | src/error-types/BaseRegistryError.ts:16-56 | the override rules: the code always comes from the high-level definition; status code and log level come from the low-level definition if truthy, else the high-level one if truthy, else they are unset; type and sub-code come only from a truthy low-level value; `onConvert` is the low-level function, else the high-level function, else the configured one |
| `RegistryErrors.NewRegistryError` | src/error-types/BaseRegistryError.ts:16-56 | the constructor builds a fresh error of the given class in that state |
| `RegistryErrors.FromJSON` | src/error-types/BaseRegistryError.ts:64-88 | fails like the registry's pure deserialiser; on success, a fresh error of the class, built from the serialised code and message and then deserialised |
| `RegistryErrors.RegistryFromJSONFailures` | src/error-types/BaseRegistryError.ts:72-83 | rejects exactly the non-object values, throws a TypeError reading `code` on null, and succeeds on every object |
| `RegistryErrors.RegistryRoundTripFields` | src/error-types/BaseRegistryError.ts:76-85 | through a registry class, `fromJSON(e.toJSON())` keeps the code exactly, even a falsy one, since the constructor takes it unconditionally; sub-code, status code, ids, log level and cause survive when truthy; the message survives (as "" when undefined); the name becomes the class name |
| `RegistryErrors.OnConvertLeaks` | src/error-types/BaseRegistryError.ts:21-27 | as written: after an error whose definition has an `onConvert`, the shared configuration hands that callback to an error whose definitions have none |
| `StackLines.Split` | src/ErrorRegistry.ts:205 | the split has at least one piece, and no piece contains a newline |
| `StackLines.Splice1` | src/ErrorRegistry.ts:206 | drops the entry at index 1 and keeps the others in order; a list of at most one entry is unchanged |
| `StackLines.JoinSplit` | src/ErrorRegistry.ts:205-207 | joining the pieces of a split gives back the string |
| `StackLines.SplitJoin` | src/ErrorRegistry.ts:205-207 | splitting joined newline-free lines gives back the lines |
| `StackLines.TrimTraceLines` | src/ErrorRegistry.ts:204-208 | the trimmed stack's lines are the original lines minus the one at index 1, in order; a one-line stack is unchanged |
| `Registry.ErrorRegistry.ReformatTrace` | src/ErrorRegistry.ts:204-208 | only the stack changes, to its trimmed form |
| `Registry.IndexSound` | src/ErrorRegistry.ts:70-72 | every index entry points to a key with that class name, and every key's class name is indexed |
| `Registry.IndexLastWins` | src/ErrorRegistry.ts:70-72 | the index sends a key's class name to that key iff no later key has the same class name |
| `Registry.ErrorRegistry.IndexClassNames` | src/ErrorRegistry.ts:70-72 | the loop builds exactly the last-writer-wins index of the keys in order |
| `Registry.SerialisedNameResolves` | src/ErrorRegistry.ts:243-247 | the name in an error's full serialisation resolves to the key whose class name it is, unless a later key shares it |
| `Registry.TypedAll` | src/ErrorRegistry.ts:75-79 | once every key is processed, the registry's dictionary equals the caller's updated table, and each entry's `type` is its key |
| `Registry.ErrorRegistry.TypeEntry` | src/ErrorRegistry.ts:76-78 | one turn writes the key as the entry's `type` in both the caller's table and the registry's dictionary |
| `Registry.ErrorRegistry.PopulateLowLevel` | src/ErrorRegistry.ts:75-79 | each of the caller's low-level entries gets its key as `type` in place, and the registry's dictionary is the updated table |
| `Registry.ErrorRegistry.constructor` | src/ErrorRegistry.ts:58-80 | the registry keeps the high-level table, builds the index, starts with an empty cache and no context, and every low-level entry's `type` is its key |
| `Registry.ErrorRegistry.GetHighLevelError` | src/ErrorRegistry.ts:86-90 | a definition is returned iff the key is defined, and it is that key's definition |
| `Registry.ErrorRegistry.GetLowLevelError` | src/ErrorRegistry.ts:96-100 | the same for low-level definitions |
| `Registry.ErrorRegistry.GetClass` | src/ErrorRegistry.ts:106-123 | throws "High level error not defined: h" iff `h` is undefined; otherwise returns the cached class, creating and caching a fresh one named after the class name on the first call; the cache only grows |
| `Registry.GetClassTwice` | src/ErrorRegistry.ts:106-123 | two calls of `getClass(h)` return the identical class, and succeed iff `h` is defined |
| `Registry.ErrorRegistry.InstanceOf` | src/ErrorRegistry.ts:128-130 | true iff the object was built by the class `getClass(h)` returns; fails like `getClass` |
| `Registry.ContextMerges` | src/ErrorRegistry.ts:213-227 | without a context an error is unchanged; with one, its metadata and then its safe metadata are merged in, and nothing else changes |
| `Registry.ErrorRegistry.AssignErrContext` | src/ErrorRegistry.ts:213-227 | performs that step on the error |
| `Registry.CreatedOnConvert` | src/ErrorRegistry.ts:185-197 | trimming the trace and adding the context leave the constructor's `onConvert` as it was |
| `Registry.ErrorRegistry.Build` | src/ErrorRegistry.ts:185-197 | a fresh error of the class, constructed with the registry's base configuration, with its trace trimmed and the context added |
| `Registry.ErrorRegistry.NewError` | src/ErrorRegistry.ts:176-198 | an unknown low-level name fails first, with the cache untouched; then an unknown high-level name fails; otherwise a fresh error of `h`'s cached class is built from both definitions; the registry's configuration is unchanged |
| `Registry.NewErrorIsInstance` | src/ErrorRegistry.ts:128-130 | `instanceOf(newError(h, l), h)` is true |
| `Registry.NewErrorIsNotOther` | src/ErrorRegistry.ts:128-130 | `instanceOf(newError(h, l), h2)` is false for every other defined `h2` |
| `Registry.OnConvertStaysOwn` | src/ErrorRegistry.ts:185-189 | after one error is created, the next error's `onConvert` comes from its own definitions, or else from the registry's configuration |
| `Registry.BareMessage` | src/ErrorRegistry.ts:144-150 | a truthy argument is the message; otherwise a missing definition throws a TypeError reading `message`; otherwise the definition's truthy message; otherwise a missing code throws a TypeError reading `toString`; otherwise the code as a string |
| `Registry.ErrorRegistry.NewBareError` | src/ErrorRegistry.ts:140-168 | the message is the truthy argument, else the definition's truthy message, else its code as a string; a falsy message for an unknown key, or a missing code, throws a TypeError; a truthy message for an unknown key fails in `getClass`; the class cache only grows |
| `Registry.ErrorRegistry.FromJSON` | src/ErrorRegistry.ts:235-261 | rejects non-objects and null; a serialised name that the index resolves to a defined key gives a fresh error of that key's class; any other name falls back to `BaseError.fromJSON`; the class cache only grows |
| `Registry.ErrorRegistry.CopyFrom` | src/ErrorRegistry.ts:273-276 | every property is copied by reference |
| `Registry.ErrorRegistry.WithContext` | src/ErrorRegistry.ts:270-281 | a fresh registry sharing the tables, the index, the configuration and the very same cache object, with the given context; the receiver is not changed |
| `Utils.NoRunsIffNoLetters` | src/utils.ts:63 | `/[a-z]+/gi` finds no match iff the string has no ASCII letter |
| `Utils.PascalIsCaseByPosition` | src/utils.ts:61-68 | capitalising the letter runs and joining them is the character-wise transform: non-letters vanish, a letter after a letter is lower-cased, and any other letter is upper-cased |
| `Utils.ToPascalCase` | src/utils.ts:61-68 | a result is a PascalCase identifier: non-empty, made only of ASCII letters, and starting with an upper-case one; the only failure is the TypeError of reading `map` from a null match |
| `Utils.ToPascalCaseSpec` | src/utils.ts:61-68 | `toPascalCase` throws a TypeError iff the string has no ASCII letter, and otherwise returns that transform |
| `Utils.DigitKeyFails` | src/utils.ts:61-68 | a digits-only key such as "123" makes `toPascalCase` throw |
| `Utils.FirstFailure` | src/utils.ts:23-35 | the position of the first entry that cannot be filled: every earlier entry can be, and that one cannot |
| `Utils.FillEntry` | src/utils.ts:25-34 | one callback turn succeeds iff the entry needs no derived class name or its key has a letter; on success it fills the class name and then the code |
| `Utils.GenerateHighLevelErrors` | src/utils.ts:16-36 | walks the keys in order, filling entries in place up to the first failing key; it succeeds iff there is no such key, then returns the same table with the same keys |
| `Utils.GeneratedHighLevelEntries` | src/utils.ts:26-32 | after a normal return, a falsy class name becomes the PascalCase key and a falsy code becomes the key unless disabled; a truthy value is never overwritten; no other field changes |
| `Utils.GenerateLowLevelErrors` | src/utils.ts:42-58 | fills every entry in place and returns the same table with the same keys |
| `Utils.GeneratedLowLevelEntries` | src/utils.ts:52-54 | a falsy sub-code becomes the key unless disabled, and a truthy one stays; message, status code and every other field are untouched |

## Left out

- Numbers are integers: fractions, `NaN` and `Infinity` are not modelled.
  Arrays and `Error` instances are plain objects, and a function's source
  text (what `String(f)` gives) is the word "function".
- Enumerability is not modelled. An `Error` instance's `fields` hold its own
  `message`, `name` and `stack`, although JavaScript does not list them as
  enumerable. The core only ever reads a cause's properties by name (the
  `message` of `causedBy(new Error('…'))`), never lists its keys.
- Property keys inherited from `Object.prototype` (`constructor`,
  `toString`, …) are not modelled. Among other things, this covers a
  serialised name that hits such a key in the class-name index.
- `Object.keys` order puts integer-like keys first. Here a table's key order
  is given as its own sequence, and the model does not derive it.
- Spreading a non-object `meta` (a string spreads its characters) is not
  modelled. A `meta` that is not an object contributes no entries.
- Table entries are values. Aliasing between a definition object the caller
  keeps and the one the registry holds is not modelled, beyond the in-place
  update of the caller's tables.
- The registry keeps the high-level table as a value. Later changes the
  caller makes to that table are not seen by the model.
- `onCreateError` (a user callback run on every new error) is not
  modelled. Its effect is unknown code.
- User callbacks (`onPreToJSONData`, `onPreToJSONSafeData`, `onConvert`),
  `vsprintf` and stack capture are parameters or uninterpreted function ids.
- The getters of `BaseError` are not separate members. They return the
  fields, and the model reads those directly.
- The `return this` chaining of the setters is not modelled.
- `Registry.ErrorRegistry.NewError` and `Registry.ErrorRegistry.NewBareError`
  leave the registry's configuration unchanged. The source mutates it: its
  `BaseRegistryError` constructor writes `onConvert` into the shared
  configuration object. See Findings.
- Where the library's other documents and the code disagree, the model
  follows the code:
  - `toJSONSafe` includes `errId` and `reqId`, though the library's own
    `SerializedErrorSafe` type (src/interfaces.ts:179-196) lists neither.
  - The safe output carries no `name`, as `toJSONSafe` builds it, though
    the test at src/error-types/__tests__/BaseError.test.ts:143-152
    expects `name: 'BaseError'` from `toJSONSafe()`.

## Findings

| source | as written | input that shows it | evidently intended | confidence | as-written member | corrected member |
|---|---|---|---|---|---|---|
| src/error-types/BaseRegistryError.ts:21-27 | the constructor assigns the definition's `onConvert` into the `config` object it receives, which is the registry's shared `baseErrorConfig` | a registry with `baseErrorConfig: {}`, where definition A has `onConvert: f` and definition B has none: `newError(A, l)` then `newError(B, l)` gives the B error `f` as its `onConvert` | each error's `onConvert` comes only from its own definitions, or else from the registry's configuration as given | not executed | `RegistryErrors.OnConvertLeaks` | `Registry.OnConvertStaysOwn` |
