/**
 * The definition helpers of src/utils.ts: `toPascalCase`, and the two
 * generators that fill missing class names, codes and sub-codes into a
 * table in place.
 */
module Utils {
  import opened JsValues
  import opened Definitions

  // ---------------------------------------------------------------------------
  // toPascalCase

  /** A character `/[a-z]/i` matches. */
  predicate IsAsciiLetter(c: char)
  {
    'a' <= c <= 'z' || 'A' <= c <= 'Z'
  }

  function ToUpper(c: char): char
  {
    if 'a' <= c <= 'z' then (c as int - 32) as char else c
  }

  function ToLower(c: char): char
  {
    if 'A' <= c <= 'Z' then (c as int + 32) as char else c
  }

  /** Every character is an ASCII letter. */
  predicate Letters(w: string)
  {
    forall i :: 0 <= i < |w| ==> IsAsciiLetter(w[i])
  }

  /** `.toLowerCase()` on ASCII: each character lower-cased where it stands. */
  function LowerAll(s: string): (r: string)
    ensures |r| == |s|
    ensures forall i :: 0 <= i < |s| ==> r[i] == ToLower(s[i])
  {
    if s == [] then [] else [ToLower(s[0])] + LowerAll(s[1..])
  }

  /** How many ASCII letters `s` starts with. */
  function RunLength(s: string): (n: nat)
    ensures n <= |s|
    ensures forall i :: 0 <= i < n ==> IsAsciiLetter(s[i])
    ensures n < |s| ==> !IsAsciiLetter(s[n])
  {
    if s == [] || !IsAsciiLetter(s[0]) then 0 else 1 + RunLength(s[1..])
  }

  /** The matches of `/[a-z]+/gi`, in order: the maximal runs of ASCII letters. */
  function LetterRuns(s: string): (runs: seq<string>)
    ensures forall i :: 0 <= i < |runs| ==> runs[i] != ""
    ensures forall i :: 0 <= i < |runs| ==> Letters(runs[i])
    decreases |s|
  {
    if s == [] then []
    else if !IsAsciiLetter(s[0]) then LetterRuns(s[1..])
    else
      var n := RunLength(s);
      [s[..n]] + LetterRuns(s[n..])
  }

  /** `word.charAt(0).toUpperCase() + word.substr(1).toLowerCase()` */
  function Capitalize(word: string): (r: string)
    ensures |r| == |word|
    ensures Letters(word) ==> Letters(r) && (r != [] ==> 'A' <= r[0] <= 'Z')
  {
    if word == [] then [] else [ToUpper(word[0])] + LowerAll(word[1..])
  }

  /** `.map(capitalize).join('')` */
  function CapitalizeAll(words: seq<string>): (r: string)
    ensures (forall i :: 0 <= i < |words| ==> Letters(words[i])) ==>
      && Letters(r)
      && (words != [] && words[0] != [] ==> r != [] && 'A' <= r[0] <= 'Z')
  {
    if words == [] then [] else Capitalize(words[0]) + CapitalizeAll(words[1..])
  }

  /** `toPascalCase(str)`. When the string holds no ASCII letter, `.match`
      returns null and reading `.map` from it throws. */
  function ToPascalCase(s: string): (r: Result<string, Thrown>)
    ensures r.Failure? ==> r.error == TypeError("map")
    ensures r.Success? ==> r.value != [] && 'A' <= r.value[0] <= 'Z'
    ensures r.Success? ==> Letters(r.value)
  {
    var runs := LetterRuns(s);
    if runs == [] then Failure(TypeError("map")) else Success(CapitalizeAll(runs))
  }

  /** An independent statement of the same transform, character by
      character: non-letters vanish, a letter that follows a letter is
      lower-cased, any other letter is upper-cased. */
  function CaseByPosition(s: string, afterLetter: bool): string
  {
    if s == [] then []
    else if IsAsciiLetter(s[0]) then
      [if afterLetter then ToLower(s[0]) else ToUpper(s[0])] + CaseByPosition(s[1..], true)
    else CaseByPosition(s[1..], false)
  }

  /** Inside a run, the character-wise transform lower-cases. */
  lemma {:induction false} CaseInsideRun(s: string, n: nat)
    requires n <= |s|
    requires forall i :: 0 <= i < n ==> IsAsciiLetter(s[i])
    ensures CaseByPosition(s, true) == LowerAll(s[..n]) + CaseByPosition(s[n..], true)
    decreases n
  {
    if n > 0 {
      CaseInsideRun(s[1..], n - 1);
      assert s[1..][..n - 1] == s[..n][1..];
      assert s[1..][n - 1..] == s[n..];
    } else {
      assert s[..0] == [];
    }
  }

  /** Where a letter run ends, what came before no longer matters. */
  lemma CaseAfterRun(s: string)
    requires s == [] || !IsAsciiLetter(s[0])
    ensures CaseByPosition(s, true) == CaseByPosition(s, false)
  {
  }

  /** Capitalising the letter runs is the character-wise transform. */
  lemma {:induction false} PascalIsCaseByPosition(s: string)
    ensures CapitalizeAll(LetterRuns(s)) == CaseByPosition(s, false)
    decreases |s|
  {
    if s == [] {
    } else if !IsAsciiLetter(s[0]) {
      PascalIsCaseByPosition(s[1..]);
    } else {
      var n := RunLength(s);
      var rest := s[n..];
      PascalIsCaseByPosition(rest);
      CaseInsideRun(s[1..], n - 1);
      assert s[1..][..n - 1] == s[..n][1..];
      assert s[1..][n - 1..] == rest;
      CaseAfterRun(rest);
      assert LetterRuns(s) == [s[..n]] + LetterRuns(rest);
      assert CapitalizeAll(LetterRuns(s)) == Capitalize(s[..n]) + CapitalizeAll(LetterRuns(rest));
      RunCase(s, n);
    }
  }

  /** One letter run of the character-wise transform is its capitalisation. */
  lemma RunCase(s: string, n: nat)
    requires 0 < n <= |s| && IsAsciiLetter(s[0])
    requires CaseByPosition(s[1..], true) == LowerAll(s[..n][1..]) + CaseByPosition(s[n..], false)
    ensures Capitalize(s[..n]) + CaseByPosition(s[n..], false) == CaseByPosition(s, false)
  {
    var w := s[..n];
    CapitalizeHead(w);
    CaseHead(s);
    Regroup([ToUpper(s[0])], LowerAll(w[1..]), CaseByPosition(s[n..], false),
            Capitalize(w), CaseByPosition(s[1..], true), CaseByPosition(s, false));
  }

  /** `(h + l) + c == h + (l + c)`, for the pieces of `RunCase`. */
  lemma Regroup(h: string, l: string, c: string, capitalized: string, tail: string, whole: string)
    requires capitalized == h + l && tail == l + c && whole == h + tail
    ensures capitalized + c == whole
  {
  }

  lemma CapitalizeHead(w: string)
    requires w != []
    ensures Capitalize(w) == [ToUpper(w[0])] + LowerAll(w[1..])
  {
  }

  lemma CaseHead(s: string)
    requires s != [] && IsAsciiLetter(s[0])
    ensures CaseByPosition(s, false) == [ToUpper(s[0])] + CaseByPosition(s[1..], true)
  {
  }

  /** `/[a-z]+/gi` finds nothing exactly when the string has no ASCII letter. */
  lemma {:induction false} NoRunsIffNoLetters(s: string)
    ensures LetterRuns(s) == [] <==> forall i :: 0 <= i < |s| ==> !IsAsciiLetter(s[i])
    decreases |s|
  {
    if s != [] {
      NoRunsIffNoLetters(s[1..]);
      if !IsAsciiLetter(s[0]) {
        assert forall i :: 1 <= i < |s| ==> s[i] == s[1..][i - 1];
      }
    }
  }

  /** `toPascalCase` fails exactly on strings without ASCII letters, and
      otherwise returns the character-wise transform. */
  lemma ToPascalCaseSpec(s: string)
    ensures ToPascalCase(s).Failure? <==> forall i :: 0 <= i < |s| ==> !IsAsciiLetter(s[i])
    ensures ToPascalCase(s).Failure? ==> ToPascalCase(s).error == TypeError("map")
    ensures ToPascalCase(s).Success? ==> ToPascalCase(s).value == CaseByPosition(s, false)
  {
    NoRunsIffNoLetters(s);
    PascalIsCaseByPosition(s);
  }

  /** A key made only of digits has no word to capitalise. */
  lemma DigitKeyFails()
    ensures ToPascalCase("123") == Failure(TypeError("map"))
  {
    NoRunsIffNoLetters("123");
  }

  // ---------------------------------------------------------------------------
  // generateHighLevelErrors

  /** GenerateHighLevelErrorOpts; each switch counts when truthy. */
  datatype HighLevelOpts = HighLevelOpts(disableGenerateClassName: Value, disableGenerateCode: Value)

  /** GenerateLowLevelErrorOpts. */
  datatype LowLevelOpts = LowLevelOpts(disableGenerateSubCode: Value)

  predicate NeedsClassName(def: HighLevelDef, opts: HighLevelOpts)
  {
    !Truthy(opts.disableGenerateClassName) && !Truthy(def.className)
  }

  predicate NeedsCode(def: HighLevelDef, opts: HighLevelOpts)
  {
    !Truthy(opts.disableGenerateCode) && !Truthy(def.code)
  }

  /** Filling this entry throws: it needs a class name and its key has no letter. */
  predicate FillFails(def: HighLevelDef, key: string, opts: HighLevelOpts)
  {
    NeedsClassName(def, opts) && ToPascalCase(key).Failure?
  }

  /** One step of the `reduce`: the entry with its class name and code filled in. */
  function FillHighLevel(def: HighLevelDef, key: string, opts: HighLevelOpts): HighLevelDef
    requires !FillFails(def, key, opts)
  {
    var named := if NeedsClassName(def, opts) then def.(className := Str(ToPascalCase(key).value)) else def;
    if NeedsCode(named, opts) then named.(code := Str(key)) else named
  }

  /** The table once the entries of `done` have been filled. */
  function FilledHighLevel(defs: map<string, HighLevelDef>, done: seq<string>, opts: HighLevelOpts): map<string, HighLevelDef>
    requires forall k :: k in done && k in defs ==> !FillFails(defs[k], k, opts)
  {
    map k | k in defs :: if k in done then FillHighLevel(defs[k], k, opts) else defs[k]
  }

  /** The position of the first key whose entry cannot be filled, or the
      number of keys when there is none. */
  function FirstFailure(keys: seq<string>, defs: map<string, HighLevelDef>, opts: HighLevelOpts): (n: nat)
    requires forall k :: k in keys ==> k in defs
    ensures n <= |keys|
    ensures forall i :: 0 <= i < n ==> !FillFails(defs[keys[i]], keys[i], opts)
    ensures n < |keys| ==> FillFails(defs[keys[n]], keys[n], opts)
  {
    if keys == [] then 0
    else if FillFails(defs[keys[0]], keys[0], opts) then 0
    else 1 + FirstFailure(keys[1..], defs, opts)
  }

  /** The `reduce` callback for one entry: fills the class name and then the
      code, or throws when the class name is needed and cannot be derived. */
  method FillEntry(def: HighLevelDef, key: string, opts: HighLevelOpts) returns (r: Result<HighLevelDef, Thrown>)
    ensures r.Success? <==> !FillFails(def, key, opts)
    ensures r.Success? ==> r.value == FillHighLevel(def, key, opts)
    ensures r.Failure? ==> r.error == TypeError("map")
  {
    var filled := def;
    if NeedsClassName(filled, opts) {
      var name := ToPascalCase(key);
      if name.Failure? {
        return Failure(name.error);
      }
      filled := filled.(className := Str(name.value));
    }
    if NeedsCode(filled, opts) {
      filled := filled.(code := Str(key));
    }
    return Success(filled);
  }

  /** `generateHighLevelErrors(errorDefs, opts)`: walks the keys in order,
      filling each entry in place; a key without letters that needs a class
      name makes it throw, leaving the earlier entries filled. On success it
      returns the very table it was given. */
  method GenerateHighLevelErrors(errorDefs: HighLevelTable, opts: HighLevelOpts) returns (r: Result<HighLevelTable, Thrown>)
    requires errorDefs.Valid()
    modifies errorDefs
    ensures errorDefs.Valid() && errorDefs.keys == old(errorDefs.keys)
    ensures var n := FirstFailure(old(errorDefs.keys), old(errorDefs.defs), opts);
      && errorDefs.defs == FilledHighLevel(old(errorDefs.defs), old(errorDefs.keys)[..n], opts)
      && (r.Success? <==> n == |errorDefs.keys|)
    ensures r.Success? ==> r.value == errorDefs
    ensures r.Failure? ==> r.error == TypeError("map")
  {
    ghost var keys := errorDefs.keys;
    ghost var start := errorDefs.defs;
    var i := 0;
    assert FilledHighLevel(start, keys[..0], opts) == start;
    while i < |errorDefs.keys|
      invariant errorDefs.keys == keys && i <= |keys|
      invariant i <= FirstFailure(keys, start, opts)
      invariant errorDefs.defs == FilledHighLevel(start, keys[..i], opts)
    {
      var key := errorDefs.keys[i];
      assert key !in keys[..i];
      assert errorDefs.defs[key] == start[key];
      var entry := FillEntry(errorDefs.defs[key], key, opts);
      if entry.Failure? {
        assert FirstFailure(keys, start, opts) == i;
        return Failure(entry.error);
      }
      assert i < FirstFailure(keys, start, opts);
      FillStep(keys, start, opts, i);
      errorDefs.defs := errorDefs.defs[key := entry.value];
      i := i + 1;
    }
    assert keys[..i] == keys;
    return Success(errorDefs);
  }

  /** Filling one more key updates only that key's entry. */
  lemma FillStep(keys: seq<string>, defs: map<string, HighLevelDef>, opts: HighLevelOpts, i: nat)
    requires Distinct(keys) && (forall k :: k in keys ==> k in defs)
    requires i < |keys|
    requires forall j :: 0 <= j <= i ==> !FillFails(defs[keys[j]], keys[j], opts)
    ensures forall k :: k in keys[..i] && k in defs ==> !FillFails(defs[k], k, opts)
    ensures forall k :: k in keys[..i + 1] && k in defs ==> !FillFails(defs[k], k, opts)
    ensures FilledHighLevel(defs, keys[..i + 1], opts)
      == FilledHighLevel(defs, keys[..i], opts)[keys[i] := FillHighLevel(defs[keys[i]], keys[i], opts)]
  {
    assert keys[..i + 1] == keys[..i] + [keys[i]];
  }

  /** What `generateHighLevelErrors` promises about every entry once it has
      returned normally: a falsy class name becomes the PascalCase key and a
      falsy code becomes the key (unless disabled), a truthy one is never
      overwritten, and nothing else in the entry changes. */
  lemma GeneratedHighLevelEntries(keys: seq<string>, defs: map<string, HighLevelDef>, opts: HighLevelOpts, k: string)
    requires forall key :: key in defs <==> key in keys
    requires FirstFailure(keys, defs, opts) == |keys|
    requires k in defs
    ensures var filled := FilledHighLevel(defs, keys[..|keys|], opts);
      && filled.Keys == defs.Keys
      && (Truthy(defs[k].className) || Truthy(opts.disableGenerateClassName) ==> filled[k].className == defs[k].className)
      && (NeedsClassName(defs[k], opts) ==> ToPascalCase(k).Success? && filled[k].className == Str(CaseByPosition(k, false)))
      && (Truthy(defs[k].code) || Truthy(opts.disableGenerateCode) ==> filled[k].code == defs[k].code)
      && (NeedsCode(defs[k], opts) ==> filled[k].code == Str(k))
      && filled[k] == defs[k].(className := filled[k].className, code := filled[k].code)
  {
    assert keys[..|keys|] == keys;
    var i :| 0 <= i < |keys| && keys[i] == k;
    assert !FillFails(defs[k], k, opts);
    ToPascalCaseSpec(k);
  }

  // ---------------------------------------------------------------------------
  // generateLowLevelErrors

  predicate NeedsSubCode(def: LowLevelDef, opts: LowLevelOpts)
  {
    !Truthy(opts.disableGenerateSubCode) && !Truthy(def.subCode)
  }

  function FillLowLevel(def: LowLevelDef, key: string, opts: LowLevelOpts): LowLevelDef
  {
    if NeedsSubCode(def, opts) then def.(subCode := Str(key)) else def
  }

  function FilledLowLevel(defs: map<string, LowLevelDef>, done: seq<string>, opts: LowLevelOpts): map<string, LowLevelDef>
  {
    map k | k in defs :: if k in done then FillLowLevel(defs[k], k, opts) else defs[k]
  }

  /** `generateLowLevelErrors(errorDefs, opts)`: fills every entry's falsy
      sub-code with its key, in place, and returns the same table. */
  method GenerateLowLevelErrors(errorDefs: LowLevelTable, opts: LowLevelOpts) returns (r: LowLevelTable)
    requires errorDefs.Valid()
    modifies errorDefs
    ensures errorDefs.Valid() && errorDefs.keys == old(errorDefs.keys)
    ensures errorDefs.defs == FilledLowLevel(old(errorDefs.defs), old(errorDefs.keys), opts)
    ensures r == errorDefs
  {
    ghost var keys := errorDefs.keys;
    ghost var start := errorDefs.defs;
    assert FilledLowLevel(start, keys[..0], opts) == start;
    for i := 0 to |errorDefs.keys|
      invariant errorDefs.keys == keys
      invariant errorDefs.defs == FilledLowLevel(start, keys[..i], opts)
    {
      var key := errorDefs.keys[i];
      assert key !in keys[..i];
      var def := errorDefs.defs[key];
      assert def == start[key];
      if NeedsSubCode(def, opts) {
        def := def.(subCode := Str(key));
      }
      assert def == FillLowLevel(start[key], key, opts);
      FillLowStep(keys, start, opts, i);
      errorDefs.defs := errorDefs.defs[key := def];
      assert errorDefs.defs == FilledLowLevel(start, keys[..i + 1], opts);
    }
    assert keys[..|keys|] == keys;
    return errorDefs;
  }

  /** Filling one more key updates only that key's entry. */
  lemma FillLowStep(keys: seq<string>, defs: map<string, LowLevelDef>, opts: LowLevelOpts, i: nat)
    requires i < |keys| && keys[i] in defs
    ensures FilledLowLevel(defs, keys[..i + 1], opts)
      == FilledLowLevel(defs, keys[..i], opts)[keys[i] := FillLowLevel(defs[keys[i]], keys[i], opts)]
  {
    assert keys[..i + 1] == keys[..i] + [keys[i]];
  }

  /** What `generateLowLevelErrors` promises about every entry: a falsy
      sub-code becomes the key unless disabled, a truthy one stays, and the
      message, status code and every other field are untouched. */
  lemma GeneratedLowLevelEntries(keys: seq<string>, defs: map<string, LowLevelDef>, opts: LowLevelOpts, k: string)
    requires forall key :: key in defs <==> key in keys
    requires k in defs
    ensures var filled := FilledLowLevel(defs, keys, opts);
      && filled.Keys == defs.Keys
      && (NeedsSubCode(defs[k], opts) ==> filled[k].subCode == Str(k))
      && (!NeedsSubCode(defs[k], opts) ==> filled[k].subCode == defs[k].subCode)
      && filled[k] == defs[k].(subCode := filled[k].subCode)
  {
  }
}
