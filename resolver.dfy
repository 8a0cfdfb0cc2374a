/**
 * The three revisions of `resolve_dependencies`, which copy a step's planned
 * input and replace references to earlier step outputs by values from the
 * execution state:
 *   - lenient (commons/engine/engine.py): a string that starts and ends with
 *     `$$` is looked up whole, and left alone when the key is missing;
 *   - strict (commons/ch9/engine.py): the same, but a missing key raises;
 *   - pattern (commons/engine/engine_k15.py): references are found by a
 *     regular expression; a string that is one reference (after stripping)
 *     is replaced by the raw value, and references embedded in text are
 *     replaced by the `str()` of their values.
 * All three walk lists and dictionaries the same way and leave numbers,
 * booleans and `None` alone.
 */
module Resolver {
  import opened Wrappers
  import opened Json
  import opened Text
  import opened Placeholder

  /** The execution state: step output keys to the outputs stored under them. */
  type State = map<string, Value>

  /** `state.get(key, default)` */
  function StateGet(state: State, key: string, default: Value): (r: Value)
    ensures key in state ==> r == state[key]
    ensures key !in state ==> r == default
  {
    if key in state then state[key] else default
  }

  // ---------------------------------------------------------------------------
  // The shared walk over lists and dictionaries.
  // ---------------------------------------------------------------------------

  /** Copies `v`, replacing every string leaf `s` by `f(s)`. */
  function MapStrings(v: Value, f: string -> Value): Value {
    match v
    case Str(s) => f(s)
    case Arr(items) => Arr(MapItems(items, f))
    case Obj(fields) => Obj(MapFields(fields, f))
    case _ => v
  }

  function MapItems(items: seq<Value>, f: string -> Value): (r: seq<Value>)
    ensures |r| == |items|
    ensures forall i :: 0 <= i < |items| ==> r[i] == MapStrings(items[i], f)
  {
    if items == [] then [] else [MapStrings(items[0], f)] + MapItems(items[1..], f)
  }

  function MapFields(fields: seq<Field>, f: string -> Value): (r: seq<Field>)
    ensures |r| == |fields|
    ensures forall i :: 0 <= i < |fields| ==> r[i] == Field(fields[i].key, MapStrings(fields[i].val, f))
  {
    if fields == [] then []
    else [Field(fields[0].key, MapStrings(fields[0].val, f))] + MapFields(fields[1..], f)
  }

  /** A walk keeps the keys of a dictionary, so a key finds the copy of the value it found before. */
  lemma {:induction false} LookupMapFields(fields: seq<Field>, f: string -> Value, key: string)
    requires HasKey(fields, key)
    ensures Lookup(MapFields(fields, f), key) == Some(MapStrings(Get(fields, key), f))
  {
    if fields[0].key != key {
      assert HasKey(fields[1..], key) by {
        var i :| 0 <= i < |fields| && fields[i].key == key;
        assert fields[1..][i - 1].key == key;
      }
      LookupMapFields(fields[1..], f, key);
      assert MapFields(fields, f)[1..] == MapFields(fields[1..], f);
    }
  }
  /** Walking a dictionary maps the value under each key. */
  lemma FieldMapped(fields: seq<Field>, f: string -> Value, key: string)
    requires HasKey(fields, key)
    ensures MapStrings(Obj(fields), f).Obj?
    ensures Get(MapStrings(Obj(fields), f).fields, key) == MapStrings(Get(fields, key), f)
  {
    LookupMapFields(fields, f, key);
  }


  /** Every string leaf of `v` satisfies `p`. */
  predicate AllStrings(v: Value, p: string -> bool) {
    match v
    case Str(s) => p(s)
    case Arr(items) => forall i :: 0 <= i < |items| ==> AllStrings(items[i], p)
    case Obj(fields) => forall i :: 0 <= i < |fields| ==> AllStrings(fields[i].val, p)
    case _ => true
  }

  /**
   * `b` is a copy of `a` in which only string leaves may have changed: lists
   * keep their lengths, dictionaries their keys in order, other scalars their values.
   */
  predicate Shaped(a: Value, b: Value) {
    match a
    case Str(_) => true
    case Arr(items) =>
      b.Arr? && |b.items| == |items| && forall i :: 0 <= i < |items| ==> Shaped(items[i], b.items[i])
    case Obj(fields) =>
      && b.Obj? && |b.fields| == |fields|
      && forall i :: 0 <= i < |fields| ==> fields[i].key == b.fields[i].key && Shaped(fields[i].val, b.fields[i].val)
    case _ => b == a
  }

  lemma {:induction false} MapStringsShaped(v: Value, f: string -> Value)
    ensures Shaped(v, MapStrings(v, f))
  {
    match v
    case Arr(items) =>
      forall i | 0 <= i < |items| ensures Shaped(items[i], MapStrings(v, f).items[i]) {
        MapStringsShaped(items[i], f);
      }
    case Obj(fields) =>
      forall i | 0 <= i < |fields| ensures Shaped(fields[i].val, MapStrings(v, f).fields[i].val) {
        MapStringsShaped(fields[i].val, f);
      }
    case _ =>
  }

  /** A walk whose leaf function leaves every leaf of `v` as it was copies `v` unchanged. */
  lemma {:induction false} MapStringsIdentity(v: Value, p: string -> bool, f: string -> Value)
    requires AllStrings(v, p)
    requires forall s :: p(s) ==> f(s) == Str(s)
    ensures MapStrings(v, f) == v
  {
    match v
    case Arr(items) =>
      forall i | 0 <= i < |items| ensures MapStrings(items[i], f) == items[i] {
        MapStringsIdentity(items[i], p, f);
      }
      assert MapItems(items, f) == items;
    case Obj(fields) =>
      forall i | 0 <= i < |fields| ensures MapStrings(fields[i].val, f) == fields[i].val {
        MapStringsIdentity(fields[i].val, p, f);
      }
      assert MapFields(fields, f) == fields;
    case _ =>
  }

  // ---------------------------------------------------------------------------
  // Lenient and strict revisions: whole-string references.
  // ---------------------------------------------------------------------------

  /** `value.startswith("$$") and value.endswith("$$")`; the two may overlap, as in `"$$$"`. */
  predicate IsRefLiteral(s: string) {
    StartsWith(s, "$$") && EndsWith(s, "$$")
  }

  /** `value[2:-2]`, which is empty for strings of two or three characters. */
  function RefKey(s: string): (k: string)
    ensures IsRefLiteral(s) && |s| >= 4 ==> Wrap(k) == s
    ensures |s| < 4 ==> k == []
  {
    if |s| >= 4 then
      assert s == s[..2] + s[2..|s| - 2] + s[|s| - 2..];
      s[2..|s| - 2]
    else []
  }

  lemma RefKeyOfWrap(k: string)
    ensures IsRefLiteral(Wrap(k)) && RefKey(Wrap(k)) == k
  {
    var w := Wrap(k);
    assert w[..2] == "$$" && w[|w| - 2..] == "$$" && w[2..|w| - 2] == k;
  }

  /** The lenient and strict revisions replace a string that is exactly a reference to a stored key by the stored value. */
  lemma LenientReferenceResolves(key: string, state: State)
    requires key in state
    ensures ResolveLenient(Str(Wrap(key)), state) == state[key]
    ensures ResolveStrict(Str(Wrap(key)), state) == Ok(state[key])
  {
    RefKeyOfWrap(key);
  }

  function LenientLeaf(s: string, state: State): (r: Value)
    ensures !IsRefLiteral(s) ==> r == Str(s)
    ensures IsRefLiteral(s) && RefKey(s) in state ==> r == state[RefKey(s)]
    ensures IsRefLiteral(s) && RefKey(s) !in state ==> r == Str(s)
  {
    if IsRefLiteral(s) then StateGet(state, RefKey(s), Str(s)) else Str(s)
  }

  /** `resolve_dependencies` of commons/engine/engine.py. */
  function ResolveLenient(v: Value, state: State): Value {
    MapStrings(v, s => LenientLeaf(s, state))
  }

  /** The error text the strict resolver raises for a missing key. */
  function MissingRefError(key: string): string {
    "Dependency Error: Reference " + key + " not found in state."
  }

  /** A string leaf the strict resolver cannot resolve. */
  predicate MissingRef(s: string, state: State) {
    IsRefLiteral(s) && RefKey(s) !in state
  }

  function StrictLeaf(s: string, state: State): (r: Result<Value>)
    ensures r.Err? <==> MissingRef(s, state)
    ensures r.Err? ==> r.error == MissingRefError(RefKey(s))
    ensures r.Ok? ==> r.value == LenientLeaf(s, state)
  {
    if IsRefLiteral(s) then
      if RefKey(s) in state then Ok(state[RefKey(s)]) else Err(MissingRefError(RefKey(s)))
    else Ok(Str(s))
  }

  /**
   * `resolve_dependencies` of commons/ch9/engine.py. Lists and dictionaries
   * are resolved left to right, so the first missing reference is the one reported.
   */
  function ResolveStrict(v: Value, state: State): Result<Value> {
    match v
    case Str(s) => StrictLeaf(s, state)
    case Arr(items) =>
      (match ResolveStrictItems(items, state)
       case Ok(xs) => Ok(Arr(xs))
       case Err(e) => Err(e))
    case Obj(fields) =>
      (match ResolveStrictFields(fields, state)
       case Ok(fs) => Ok(Obj(fs))
       case Err(e) => Err(e))
    case _ => Ok(v)
  }

  function ResolveStrictItems(items: seq<Value>, state: State): Result<seq<Value>> {
    if items == [] then Ok([])
    else
      match ResolveStrict(items[0], state)
      case Err(e) => Err(e)
      case Ok(x) =>
        match ResolveStrictItems(items[1..], state)
        case Err(e) => Err(e)
        case Ok(xs) => Ok([x] + xs)
  }

  function ResolveStrictFields(fields: seq<Field>, state: State): Result<seq<Field>> {
    if fields == [] then Ok([])
    else
      match ResolveStrict(fields[0].val, state)
      case Err(e) => Err(e)
      case Ok(x) =>
        match ResolveStrictFields(fields[1..], state)
        case Err(e) => Err(e)
        case Ok(fs) => Ok([Field(fields[0].key, x)] + fs)
  }

  /**
   * The strict resolver fails exactly when some string leaf is a reference
   * whose key is missing, and otherwise produces what the lenient one does.
   */
  lemma {:induction false} StrictMatchesLenient(v: Value, state: State)
    ensures ResolveStrict(v, state).Err? <==> !AllStrings(v, s => !MissingRef(s, state))
    ensures ResolveStrict(v, state).Ok? ==> ResolveStrict(v, state).value == ResolveLenient(v, state)
    ensures ResolveStrict(v, state).Err? ==> exists key :: ResolveStrict(v, state).error == MissingRefError(key)
  {
    match v
    case Str(s) =>
    case Arr(items) => StrictItemsMatchLenient(items, state);
    case Obj(fields) => StrictFieldsMatchLenient(fields, state);
    case _ =>
  }

  lemma {:induction false} StrictItemsMatchLenient(items: seq<Value>, state: State)
    ensures ResolveStrictItems(items, state).Err?
      <==> exists i :: 0 <= i < |items| && !AllStrings(items[i], s => !MissingRef(s, state))
    ensures ResolveStrictItems(items, state).Ok?
      ==> ResolveStrictItems(items, state).value == MapItems(items, s => LenientLeaf(s, state))
    ensures ResolveStrictItems(items, state).Err?
      ==> exists key :: ResolveStrictItems(items, state).error == MissingRefError(key)
    decreases items, 0
  {
    if items != [] {
      StrictMatchesLenient(items[0], state);
      StrictItemsMatchLenient(items[1..], state);
      var ok := (s: string) => !MissingRef(s, state);
      if exists i :: 0 <= i < |items| && !AllStrings(items[i], ok) {
        var i :| 0 <= i < |items| && !AllStrings(items[i], ok);
        if i > 0 {
          assert items[1..][i - 1] == items[i];
        }
      }
      if ResolveStrictItems(items[1..], state).Err? {
        var i :| 0 <= i < |items[1..]| && !AllStrings(items[1..][i], ok);
        assert items[i + 1] == items[1..][i];
      }
    }
  }

  lemma {:induction false} StrictFieldsMatchLenient(fields: seq<Field>, state: State)
    ensures ResolveStrictFields(fields, state).Err?
      <==> exists i :: 0 <= i < |fields| && !AllStrings(fields[i].val, s => !MissingRef(s, state))
    ensures ResolveStrictFields(fields, state).Ok?
      ==> ResolveStrictFields(fields, state).value == MapFields(fields, s => LenientLeaf(s, state))
    ensures ResolveStrictFields(fields, state).Err?
      ==> exists key :: ResolveStrictFields(fields, state).error == MissingRefError(key)
    decreases fields, 0
  {
    if fields != [] {
      StrictMatchesLenient(fields[0].val, state);
      StrictFieldsMatchLenient(fields[1..], state);
      var ok := (s: string) => !MissingRef(s, state);
      if exists i :: 0 <= i < |fields| && !AllStrings(fields[i].val, ok) {
        var i :| 0 <= i < |fields| && !AllStrings(fields[i].val, ok);
        if i > 0 {
          assert fields[1..][i - 1] == fields[i];
        }
      }
      if ResolveStrictFields(fields[1..], state).Err? {
        var i :| 0 <= i < |fields[1..]| && !AllStrings(fields[1..][i].val, ok);
        assert fields[i + 1] == fields[1..][i];
      }
    }
  }

  /** Without a reference among its strings, the input is passed through unchanged. */
  lemma LenientWithoutRefs(v: Value, state: State)
    requires AllStrings(v, s => !IsRefLiteral(s))
    ensures ResolveLenient(v, state) == v
  {
    MapStringsIdentity(v, s => !IsRefLiteral(s), s => LenientLeaf(s, state));
  }

  /** Before any step has run, the lenient resolver changes nothing. */
  lemma LenientEmptyState(v: Value)
    ensures ResolveLenient(v, map[]) == v
  {
    var p := (s: string) => true;
    AllStringsTrue(v, p);
    MapStringsIdentity(v, p, s => LenientLeaf(s, map[]));
  }

  lemma {:induction false} AllStringsTrue(v: Value, p: string -> bool)
    requires forall s :: p(s)
    ensures AllStrings(v, p)
  {
    match v
    case Arr(items) =>
      forall i | 0 <= i < |items| ensures AllStrings(items[i], p) {
        AllStringsTrue(items[i], p);
      }
    case Obj(fields) =>
      forall i | 0 <= i < |fields| ensures AllStrings(fields[i].val, p) {
        AllStringsTrue(fields[i].val, p);
      }
    case _ =>
  }

  // ---------------------------------------------------------------------------
  // Pattern revision: references found by the regular expression.
  // ---------------------------------------------------------------------------

  /** `str(state.get(key, "$$key$$"))`: what an embedded reference is replaced by. */
  function Replacement(state: State, key: string): (r: string)
    ensures key !in state ==> r == Wrap(key)
    ensures key in state && state[key].Str? ==> r == state[key].s
  {
    StrForm(StateGet(state, key, Str(Wrap(key))))
  }

  /** The replacement loop: each found key, in order, replaced everywhere in the current text. */
  function SubstituteAll(s: string, keys: seq<string>, state: State): string
    decreases |keys|
  {
    if keys == [] then s
    else SubstituteAll(Replace(s, Wrap(keys[0]), Replacement(state, keys[0])), keys[1..], state)
  }

  function PatternLeaf(s: string, state: State): Value {
    var keys := FindAll(s);
    if keys == [] then Str(s)
    else if IsPlaceholder(Strip(s)) then StateGet(state, keys[0], Str(s))
    else Str(SubstituteAll(s, keys, state))
  }

  /** `resolve_dependencies` of commons/engine/engine_k15.py. */
  function ResolvePattern(v: Value, state: State): Value {
    MapStrings(v, s => PatternLeaf(s, state))
  }

  /** The string case of the pattern resolver, with its replacement loop. */
  method ResolvePatternLeaf(s: string, state: State) returns (r: Value)
    ensures r == PatternLeaf(s, state)
  {
    var keys := FindAll(s);
    if keys == [] {
      return Str(s);
    }
    if IsPlaceholder(Strip(s)) {
      return StateGet(state, keys[0], Str(s));
    }
    var value := s;
    for i := 0 to |keys|
      invariant SubstituteAll(value, keys[i..], state) == SubstituteAll(s, keys, state)
    {
      assert keys[i..][1..] == keys[i + 1..];
      value := Replace(value, Wrap(keys[i]), Replacement(state, keys[i]));
    }
    assert keys[|keys|..] == [];
    return Str(value);
  }

  /** Keys the state does not hold are replaced by their own reference, which changes nothing. */
  lemma {:induction false} SubstituteAllMissing(s: string, keys: seq<string>, state: State)
    requires forall i :: 0 <= i < |keys| ==> keys[i] !in state
    ensures SubstituteAll(s, keys, state) == s
    decreases |keys|
  {
    if keys != [] {
      ReplaceBySelf(s, Wrap(keys[0]));
      SubstituteAllMissing(s, keys[1..], state);
    }
  }

  /** Text without a reference is passed through unchanged. */
  lemma PatternLeafWithoutRefs(s: string, state: State)
    requires !HasPlaceholder(s)
    ensures PatternLeaf(s, state) == Str(s)
  {
    FindAllEmptyIff(s);
  }

  /** Before any step has run, the pattern resolver changes nothing. */
  lemma PatternEmptyState(v: Value)
    ensures ResolvePattern(v, map[]) == v
  {
    var f := s => PatternLeaf(s, map[]);
    forall s | true ensures f(s) == Str(s) {
      var keys := FindAll(s);
      if keys != [] && !IsPlaceholder(Strip(s)) {
        SubstituteAllMissing(s, keys, map[]);
      }
    }
    var p := (s: string) => true;
    AllStringsTrue(v, p);
    MapStringsIdentity(v, p, f);
  }

  /**
   * A string that is one reference, up to surrounding whitespace, is replaced
   * by the raw stored value (which may be a list or a dictionary), and kept
   * as it is when the key is missing.
   */
  lemma PatternWholeReference(s: string, state: State)
    requires IsPlaceholder(Strip(s))
    ensures KeyOf(Strip(s)) in state ==> PatternLeaf(s, state) == state[KeyOf(Strip(s))]
    ensures KeyOf(Strip(s)) !in state ==> PatternLeaf(s, state) == Str(s)
  {
    FindAllOfPadded(s);
  }

  /**
   * One reference embedded in text free of `$` is replaced by the `str()` of
   * the stored value, and the text around it is kept.
   */
  lemma PatternEmbedded(pre: string, p: string, post: string, state: State)
    requires IsPlaceholder(p) && DollarFree(pre) && DollarFree(post)
    requires !IsPlaceholder(Strip(pre + p + post))
    ensures PatternLeaf(pre + p + post, state) == Str(pre + Replacement(state, KeyOf(p)) + post)
  {
    var s := pre + p + post;
    FindAllSingle(pre, p, post);
    WrapKeyOf(p);
    assert p[0] == '$';
    ReplaceSingle(pre, p, Replacement(state, KeyOf(p)), post);
    assert SubstituteAll(s, [KeyOf(p)], state) == Replace(s, p, Replacement(state, KeyOf(p)));
  }

  /** The pattern revision replaces a string that is exactly a reference to a stored key by the stored value. */
  lemma PatternReferenceResolves(p: string, state: State)
    requires IsPlaceholder(p) && KeyOf(p) in state
    ensures ResolvePattern(Str(p), state) == state[KeyOf(p)]
  {
    ExactReferenceLiteral(p);
    PatternWholeReference(p, state);
    ResolvePatternString(p, state);
  }

  lemma ResolvePatternString(s: string, state: State)
    ensures ResolvePattern(Str(s), state) == PatternLeaf(s, state)
  {
  }

  /** What each of `refs` is replaced by. */
  function Replacements(refs: seq<string>, state: State): (r: seq<string>)
    requires forall m :: 0 <= m < |refs| ==> IsPlaceholder(refs[m])
    ensures |r| == |refs|
    ensures forall m :: 0 <= m < |refs| ==> IsPlaceholder(refs[m]) && r[m] == Replacement(state, KeyOf(refs[m]))
  {
    if refs == [] then []
    else
      assert IsPlaceholder(refs[0]);
      [Replacement(state, KeyOf(refs[0]))] + Replacements(refs[1..], state)
  }

  /**
   * The replacement loop over text spliced from references: `pieces[m]` is
   * either already what `refs[m]` is replaced by, or still `refs[m]` with its
   * key among those left to process. Stored values must have no `$` in their
   * `str()`, and the text between two pieces must not be empty or begin with `S`.
   */
  lemma {:induction false} SubstituteSplice(gaps: seq<string>, refs: seq<string>, pieces: seq<string>, keys: seq<string>, state: State)
    requires |gaps| == |refs| + 1 && |pieces| == |refs|
    requires forall k :: 0 <= k < |gaps| ==> DollarFree(gaps[k])
    requires forall k :: 1 <= k < |refs| ==> gaps[k] != [] && gaps[k][0] != 'S'
    requires forall m :: 0 <= m < |refs| ==>
      IsPlaceholder(refs[m]) && (KeyOf(refs[m]) in state ==> DollarFree(Replacement(state, KeyOf(refs[m]))))
    requires forall i :: 0 <= i < |keys| ==> IsPlaceholder(Wrap(keys[i]))
    requires forall m :: 0 <= m < |refs| ==>
      pieces[m] == Replacements(refs, state)[m] || (pieces[m] == refs[m] && KeyOf(refs[m]) in keys)
    ensures SubstituteAll(Splice(gaps, pieces), keys, state) == Splice(gaps, Replacements(refs, state))
    decreases |keys|
  {
    var target := Replacements(refs, state);
    if keys == [] {
      assert pieces == target;
    } else {
      var k := keys[0];
      var pat, rep := Wrap(k), Replacement(state, k);
      forall m | 0 <= m < |pieces| ensures IsPlaceholder(pieces[m]) || DollarFree(pieces[m]) {
        WrapKeyOf(refs[m]);
      }
      ReplaceSplice(gaps, pieces, pat, rep);
      var next := Swap(pieces, pat, rep);
      forall m | 0 <= m < |refs|
        ensures next[m] == target[m] || (next[m] == refs[m] && KeyOf(refs[m]) in keys[1..])
      {
        var key := KeyOf(refs[m]);
        WrapKeyOf(refs[m]);
        RefKeyOfWrap(k);
        RefKeyOfWrap(key);
        PlaceholderEnds(pat);
        if pieces[m] == target[m] && target[m] == pat {
          assert !DollarFree(target[m]);
          assert key == k;
        } else if pieces[m] != target[m] && refs[m] != pat {
          assert key != k;
          assert key in keys[1..];
        }
      }
      SubstituteSplice(gaps, refs, next, keys[1..], state);
    }
  }

  /**
   * References embedded in text: each is replaced by the `str()` of its
   * stored value, or kept when its key is missing, and the text around and
   * between them is kept. Stored values must have no `$` in their `str()`,
   * and the text between two references must not be empty or begin with `S`.
   */
  lemma PatternEmbeddedMany(gaps: seq<string>, refs: seq<string>, state: State)
    requires |gaps| == |refs| + 1
    requires forall k :: 0 <= k < |gaps| ==> DollarFree(gaps[k])
    requires forall k :: 1 <= k < |refs| ==> gaps[k] != [] && gaps[k][0] != 'S'
    requires forall m :: 0 <= m < |refs| ==>
      IsPlaceholder(refs[m]) && (KeyOf(refs[m]) in state ==> DollarFree(Replacement(state, KeyOf(refs[m]))))
    requires !IsPlaceholder(Strip(Splice(gaps, refs)))
    ensures PatternLeaf(Splice(gaps, refs), state) == Str(Splice(gaps, Replacements(refs, state)))
  {
    var s := Splice(gaps, refs);
    var keys := KeysOf(refs);
    FindAllSplice(gaps, refs);
    if refs == [] {
      assert Replacements(refs, state) == [];
    } else {
      forall i | 0 <= i < |keys| ensures IsPlaceholder(Wrap(keys[i])) {
        WrapKeyOf(refs[i]);
      }
      SubstituteSplice(gaps, refs, refs, keys, state);
    }
  }

  /**
   * Why `PatternEmbeddedMany` asks the text between placeholders not to
   * begin with `S`: in `$$<k2>$$<k1>$$<k1>$$` with `k2` missing and `k1`
   * stored, `value.replace` finds `$$<k1>$$` first across the closing `$$` of
   * the missing placeholder, so that placeholder is broken and the second
   * `$$<k1>$$` is left in place instead of being replaced.
   */
  lemma PatternOverlapExample(k1: string, k2: string, state: State)
    requires IsPlaceholder(Wrap(k1)) && IsPlaceholder(Wrap(k2)) && k1 != k2
    requires k1 in state && k2 !in state && DollarFree(Replacement(state, k1))
    ensures PatternLeaf(Wrap(k2) + k1 + Wrap(k1), state) == Str("$$" + k2 + Replacement(state, k1) + k1 + "$$")
    ensures PatternLeaf(Wrap(k2) + k1 + Wrap(k1), state) != Str(Wrap(k2) + k1 + Replacement(state, k1))
  {
    var rep := Replacement(state, k1);
    assert DollarFree(k1) by {
      PlaceholderShape(Wrap(k1));
      assert forall i :: 0 <= i < |k1| ==> k1[i] == Wrap(k1)[i + 2];
    }
    OverlapFound(k1, k2);
    OverlapSubstituted(k1, k2, state);
    OverlapDiffers(k1, k2, rep);
  }

  /** The replacement loop over the overlap text, keys in the order they were found. */
  lemma OverlapSubstituted(k1: string, k2: string, state: State)
    requires IsPlaceholder(Wrap(k1)) && IsPlaceholder(Wrap(k2)) && k1 != k2 && k2 !in state
    ensures SubstituteAll(Wrap(k2) + k1 + Wrap(k1), [k2, k1], state) == "$$" + k2 + Replacement(state, k1) + k1 + "$$"
  {
    var s := Wrap(k2) + k1 + Wrap(k1);
    var rep := Replacement(state, k1);
    assert SubstituteAll(s, [k2, k1], state) == SubstituteAll(Replace(s, Wrap(k2), Wrap(k2)), [k1], state);
    ReplaceBySelf(s, Wrap(k2));
    OverlapReplaced(k1, k2, rep);
    assert SubstituteAll(s, [k1], state) == SubstituteAll("$$" + k2 + rep + k1 + "$$", [], state);
  }

  /** The result breaks the missing placeholder: it differs from the text with only the second reference replaced. */
  lemma OverlapDiffers(k1: string, k2: string, rep: string)
    requires IsPlaceholder(Wrap(k1)) && DollarFree(rep)
    ensures "$$" + k2 + rep + k1 + "$$" != Wrap(k2) + k1 + rep
  {
    var t := "$$" + k2 + rep + k1 + "$$";
    var e := Wrap(k2) + k1 + rep;
    PlaceholderShape(Wrap(k1));
    assert e[2 + |k2|] == '$';
    if rep == [] {
      assert t[2 + |k2|] == k1[0] == Wrap(k1)[2];
    } else {
      assert t[2 + |k2|] == rep[0];
    }
  }

  /** The scan of the overlap text finds the two placeholders, and the text is not one placeholder. */
  lemma OverlapFound(k1: string, k2: string)
    requires IsPlaceholder(Wrap(k1)) && IsPlaceholder(Wrap(k2)) && DollarFree(k1)
    ensures FindAll(Wrap(k2) + k1 + Wrap(k1)) == [k2, k1]
    ensures !IsPlaceholder(Strip(Wrap(k2) + k1 + Wrap(k1)))
  {
    var r1, r2 := Wrap(k1), Wrap(k2);
    var u := k1 + r1;
    var none: string := [];
    assert r2 + k1 + r1 == none + r2 + u == r2 + u;
    FindAllAfterGap(none, r2, u);
    FindAllSkipGap(k1, r1);
    FindAllExact(r1);
    RefKeyOfWrap(k1);
    RefKeyOfWrap(k2);
    assert KeyOf(r1) == k1 && KeyOf(r2) == k2;
    PlaceholderEnds(r1);
    assert u[|u| - 1] == r1[|r1| - 1];
    OverlapNotOne(r2, u);
  }

  /** The overlap text and its replacement, regrouped around the second reference. */
  lemma OverlapRegroup(k1: string, k2: string, rep: string)
    ensures Wrap(k2) + k1 + Wrap(k1) == Wrap(k2) + (k1 + Wrap(k1)) == ("$$" + k2) + (Wrap(k1) + (k1 + "$$"))
    ensures "$$" + k2 + rep + k1 + "$$" == ("$$" + k2) + (rep + (k1 + "$$"))
  {
  }

  /** `str.replace` of `$$<k1>$$` over the overlap text replaces the occurrence across the first placeholder's end. */
  lemma OverlapReplaced(k1: string, k2: string, rep: string)
    requires IsPlaceholder(Wrap(k1)) && IsPlaceholder(Wrap(k2)) && k1 != k2
    ensures Replace(Wrap(k2) + k1 + Wrap(k1), Wrap(k1), rep) == "$$" + k2 + rep + k1 + "$$"
  {
    var r1, r2 := Wrap(k1), Wrap(k2);
    var head, tail := "$$" + k2, k1 + "$$";
    var s := r2 + k1 + r1;
    OverlapRegroup(k1, k2, rep);
    PlaceholderShape(r1);
    RefKeyOfWrap(k1);
    RefKeyOfWrap(k2);
    NoMatchInsideReference(r2, k1 + r1, r1);
    ReplaceSkip(s, |head|, r1, rep);
    assert s[|head|..] == r1 + tail && s[..|head|] == head;
    ReplaceAtStart(r1, tail, rep);
    assert Replace(tail, r1, rep) == tail;
  }

  /** A reference starts and ends with `$$`, and both revisions take the same key from it. */
  lemma ExactReferenceLiteral(p: string)
    requires IsPlaceholder(p)
    ensures IsRefLiteral(p) && RefKey(p) == KeyOf(p) && Strip(p) == p
  {
    PlaceholderEnds(p);
    StripUnpadded(p);
  }

  /** On a string that is exactly one reference, the pattern and lenient revisions agree. */
  lemma PatternAgreesOnExactReference(p: string, state: State)
    requires IsPlaceholder(p)
    ensures PatternLeaf(p, state) == LenientLeaf(p, state)
  {
    FindAllExact(p);
    ExactReferenceLiteral(p);
  }
}
