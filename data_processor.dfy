/**
 * `DataProcessor` from js-to-ts-candidate.js: a filter/map/sort/limit
 * pipeline, a dotted-path extractor and a recursive structural merge, over
 * JavaScript values.
 */
module DataProcessor {
  import opened Wrappers
  import opened Sequences
  import opened Decimal

  /** A JavaScript value as far as the helpers look at it; numbers are integers here. */
  datatype Json =
    | Undefined
    | Null
    | Bool(b: bool)
    | Num(n: int)
    | Str(s: string)
    | Arr(items: seq<Json>)
    | Obj(fields: map<string, Json>)

  /** `!v`: `undefined`, `null`, `false`, `0` and `""` (NaN is not modelled). */
  predicate Falsy(v: Json) {
    v == Undefined || v == Null || v == Bool(false) || v == Num(0) || v == Str("")
  }

  predicate Nullish(v: Json) {
    v == Undefined || v == Null
  }

  /** `typeof v === 'object' && v !== null`: arrays as well as plain objects. */
  predicate IsObjectLike(v: Json) {
    v.Arr? || v.Obj?
  }

  // ---------------------------------------------------------------------------
  // Property reads and dotted paths
  // ---------------------------------------------------------------------------

  /** The array index a property key names: a canonical decimal numeral below `len`. */
  function ArrayIndex(key: string, len: nat): (r: Option<nat>)
    ensures r.Some? ==> r.value < len && key == NatToString(r.value)
  {
    if key != [] && AllDigits(key) && (|key| == 1 || key[0] != '0') && DigitsValue(key) < len then
      CanonicalNumeral(key);
      Some(DigitsValue(key))
    else None
  }

  /** A digit string without a superfluous leading zero is how its value is written. */
  lemma {:induction false} CanonicalNumeral(key: string)
    requires key != [] && AllDigits(key) && (|key| == 1 || key[0] != '0')
    ensures NatToString(DigitsValue(key)) == key
  {
    if |key| > 1 {
      var init := key[..|key| - 1];
      assert init[0] == key[0];
      CanonicalNumeral(init);
      var d := key[|key| - 1] as int - '0' as int;
      var n := DigitsValue(key);
      assert n == DigitsValue(init) * 10 + d;
      assert n / 10 == DigitsValue(init) && n % 10 == d;
      LeadingDigitPositive(init);
      assert n >= 10;
      assert key == init + [key[|key| - 1]];
    }
  }

  lemma {:induction false} LeadingDigitPositive(s: string)
    requires s != [] && AllDigits(s) && s[0] != '0'
    ensures DigitsValue(s) > 0
  {
    if |s| > 1 {
      var init := s[..|s| - 1];
      assert init[0] == s[0];
      LeadingDigitPositive(init);
    }
  }

  /** Every index is read back from the key that names it. */
  lemma ArrayIndexOfKey(i: nat, len: nat)
    requires i < len
    ensures ArrayIndex(NatToString(i), len) == Some(i)
  {
    NatToStringValue(i);
  }

  /**
   * `v[key]` for a value that is neither `null` nor `undefined`: own
   * properties of objects, indices and `length` of arrays and strings;
   * everything else reads as `undefined`.
   */
  function Get(v: Json, key: string): Json
    requires !Nullish(v)
  {
    match v
    case Obj(m) => if key in m then m[key] else Undefined
    case Arr(items) =>
      if key == "length" then Num(|items|)
      else if ArrayIndex(key, |items|).Some? then items[ArrayIndex(key, |items|).value]
      else Undefined
    case Str(s) =>
      if key == "length" then Num(|s|)
      else if ArrayIndex(key, |s|).Some? then Str([s[ArrayIndex(key, |s|).value]])
      else Undefined
    case _ => Undefined
  }

  /** `s.split(sep)`: the pieces between separators, never an empty list. */
  function Split(s: string, sep: char): (parts: seq<string>)
    ensures |parts| >= 1
    ensures forall i :: 0 <= i < |parts| ==> sep !in parts[i]
  {
    if s == [] then [""]
    else
      var rest := Split(s[1..], sep);
      if s[0] == sep then [""] + rest
      else [[s[0]] + rest[0]] + rest[1..]
  }

  /** `parts.join(sep)`. */
  function Join(parts: seq<string>, sep: char): string
    requires |parts| >= 1
  {
    if |parts| == 1 then parts[0] else parts[0] + [sep] + Join(parts[1..], sep)
  }

  /** Joining the pieces gives back the string. */
  lemma {:induction false} JoinSplit(s: string, sep: char)
    ensures Join(Split(s, sep), sep) == s
  {
    if s != [] {
      JoinSplit(s[1..], sep);
      var rest := Split(s[1..], sep);
      if s[0] != sep {
        var parts := Split(s, sep);
        assert parts[1..] == rest[1..];
        if |rest| == 1 {
          assert Join(parts, sep) == [s[0]] + rest[0];
        } else {
          assert Join(parts, sep) == [s[0]] + rest[0] + [sep] + Join(rest[1..], sep);
        }
      }
    }
  }

  /** Splitting a join of separator-free pieces gives back the pieces. */
  lemma {:induction false} SplitJoin(parts: seq<string>, sep: char)
    requires |parts| >= 1
    requires forall i :: 0 <= i < |parts| ==> sep !in parts[i]
    ensures Split(Join(parts, sep), sep) == parts
  {
    if |parts| == 1 {
      SplitPiece(parts[0], [], sep);
      assert parts[0] + [] == parts[0];
    } else {
      SplitJoin(parts[1..], sep);
      var tail := Join(parts[1..], sep);
      SplitPiece(parts[0], [sep] + tail, sep);
      assert Split([sep] + tail, sep) == [""] + parts[1..] by {
        assert ([sep] + tail)[1..] == tail;
      }
      assert parts[0] + [sep] + tail == parts[0] + ([sep] + tail);
      assert parts[0] + "" == parts[0];
      assert [parts[0]] + parts[1..] == parts;
    }
  }

  /** A separator-free piece in front of a string joins the first piece of its split. */
  lemma {:induction false} SplitPiece(piece: string, s: string, sep: char)
    requires sep !in piece
    ensures Split(piece + s, sep) == [piece + Split(s, sep)[0]] + Split(s, sep)[1..]
  {
    if piece == [] {
      assert piece + s == s;
      assert piece + Split(s, sep)[0] == Split(s, sep)[0];
      assert Split(s, sep) == [Split(s, sep)[0]] + Split(s, sep)[1..];
    } else {
      assert (piece + s)[1..] == piece[1..] + s;
      assert (piece + s)[0] == piece[0];
      SplitPiece(piece[1..], s, sep);
      assert [piece[0]] + (piece[1..] + Split(s, sep)[0]) == piece + Split(s, sep)[0];
    }
  }

  /** The `path` argument: a dotted string or an array of keys. */
  datatype Path = Dotted(s: string) | Keys(keys: seq<string>)

  function PathParts(path: Path): seq<string> {
    match path
    case Dotted(s) => Split(s, '.')
    case Keys(keys) => keys
  }

  /** Following keys from `v`: `undefined` as soon as a value on the way is `null` or `undefined`. */
  function Follow(v: Json, keys: seq<string>): Json
    decreases |keys|
  {
    if keys == [] then v
    else if Nullish(v) then Undefined
    else Follow(Get(v, keys[0]), keys[1..])
  }

  /** Following a path in two pieces is following the second from where the first ends. */
  lemma {:induction false} FollowAppend(v: Json, p: seq<string>, q: seq<string>)
    ensures Follow(v, p + q) == Follow(Follow(v, p), q)
    decreases |p|
  {
    if p == [] {
      assert p + q == q;
    } else if Nullish(v) {
      assert Follow(v, p) == Undefined;
      if q != [] {
        assert Follow(Undefined, q) == Undefined;
      }
    } else {
      assert (p + q)[1..] == p[1..] + q;
      FollowAppend(Get(v, p[0]), p[1..], q);
    }
  }

  /** From a nullish value, any non-empty path gives `undefined`. */
  lemma {:induction false} FollowFromNullish(v: Json, keys: seq<string>)
    requires Nullish(v) && keys != []
    ensures Follow(v, keys) == Undefined
  {
  }

  /**
   * What `extractValues(obj, path)` returns: `null` for a falsy object or
   * path (the empty string is the only falsy path), otherwise the value
   * reached by reading the path's keys one by one.
   */
  function Extracted(obj: Json, path: Path): Json {
    if Falsy(obj) || path == Dotted("") then Null else Follow(obj, PathParts(path))
  }

  /** `extractValues(obj, path)`: splits a dotted path, then reads one key per iteration. */
  method ExtractValues(obj: Json, path: Path) returns (r: Json)
    ensures r == Extracted(obj, path)
  {
    if Falsy(obj) || path == Dotted("") {
      return Null;
    }
    var parts := match path case Dotted(s) => Split(s, '.') case Keys(keys) => keys;
    var current := obj;
    for i := 0 to |parts|
      invariant Follow(current, parts[i..]) == Follow(obj, parts)
    {
      if current == Null || current == Undefined {
        return Undefined;
      }
      assert parts[i..][1..] == parts[i + 1..];
      current := Get(current, parts[i]);
    }
    return current;
  }

  /**
   * Once the value reached along a prefix of the key list is `null` or
   * `undefined`, any further key makes the extraction `undefined`.
   */
  lemma ExtractThroughNullish(obj: Json, p: seq<string>, q: seq<string>)
    requires !Falsy(obj) && q != [] && Nullish(Follow(obj, p))
    ensures Extracted(obj, Keys(p + q)) == Undefined
  {
    FollowAppend(obj, p, q);
    FollowFromNullish(Follow(obj, p), q);
  }

  /** A dotted path is the list of its pieces: extracting by either gives the same value. */
  lemma ExtractDottedAsKeys(obj: Json, parts: seq<string>)
    requires |parts| >= 1 && parts != [""]
    requires forall i :: 0 <= i < |parts| ==> '.' !in parts[i]
    ensures Extracted(obj, Dotted(Join(parts, '.'))) == Extracted(obj, Keys(parts))
  {
    SplitJoin(parts, '.');
  }

  // ---------------------------------------------------------------------------
  // Structural merge
  // ---------------------------------------------------------------------------

  /** The own enumerable properties of an array: its elements under the keys "0", "1", ... */
  function ArrayFields(items: seq<Json>): (m: map<string, Json>)
    ensures forall k :: k in m ==> m[k] in items
  {
    ArrayFieldsFrom(items, 0)
  }

  /** The index properties of an array from position `i` on. */
  function ArrayFieldsFrom(items: seq<Json>, i: nat): (m: map<string, Json>)
    requires i <= |items|
    ensures forall k :: k in m ==> m[k] in items
    decreases |items| - i
  {
    if i == |items| then map[] else ArrayFieldsFrom(items, i + 1)[NatToString(i) := items[i]]
  }

  /** Each element is found under the key that writes its index. */
  lemma {:induction false} ArrayFieldsFromAt(items: seq<Json>, i: nat, j: nat)
    requires i <= j < |items|
    ensures NatToString(j) in ArrayFieldsFrom(items, i)
    ensures ArrayFieldsFrom(items, i)[NatToString(j)] == items[j]
    decreases j - i
  {
    if i < j {
      ArrayFieldsFromAt(items, i + 1, j);
      if NatToString(i) == NatToString(j) {
        NatToStringInjective(i, j);
      }
    }
  }

  /**
   * The keys and values that `Object.assign({}, v)` copies and that
   * `for (key in v)` visits, for an array or a plain object.
   */
  function Fields(v: Json): (m: map<string, Json>)
    requires IsObjectLike(v)
    ensures forall k :: k in m ==> m[k] < v
  {
    match v
    case Obj(fields) => fields
    case Arr(items) =>
      ArrayFields(items)
  }

  /**
   * What `merge(target, source)` returns: `source` when `target` is falsy,
   * `target` when `source` is falsy, the concatenation of two arrays, a new
   * object from two object-like values (arrays included, as `typeof` says
   * "object" for both), and otherwise `source`. In the new object, a key of
   * `source` whose values on both sides are object-like holds their merge,
   * any other key of `source` holds the source value, and the remaining keys
   * keep the target value.
   */
  function MergeSpec(target: Json, source: Json): Json
    decreases source, 2
  {
    if Falsy(target) then source
    else if Falsy(source) then target
    else if target.Arr? && source.Arr? then Arr(target.items + source.items)
    else if IsObjectLike(target) && IsObjectLike(source) then
      Obj(Fields(target) + MergedValues(target, source))
    else source
  }

  /** The values the keys of `source` get when two object-like values merge. */
  function MergedValues(target: Json, source: Json): (m: map<string, Json>)
    requires IsObjectLike(target) && IsObjectLike(source)
    ensures m.Keys == Fields(source).Keys
    decreases source, 1
  {
    map k | k in Fields(source) :: MergedValue(target, source, k)
  }

  /** The merge of the two values when both are object-like, and otherwise the source value. */
  function MergedValue(target: Json, source: Json, k: string): Json
    requires IsObjectLike(target) && IsObjectLike(source) && k in Fields(source)
    decreases source, 0
  {
    var t, s := Fields(target), Fields(source);
    if IsObjectLike(s[k]) && k in t && IsObjectLike(t[k]) then MergeSpec(t[k], s[k]) else s[k]
  }

  /** The part of `m` on the keys in `keys`. */
  function Restrict(m: map<string, Json>, keys: set<string>): (r: map<string, Json>)
    requires keys <= m.Keys
    ensures r.Keys == keys
  {
    map k | k in keys :: m[k]
  }

  /** Assigning one more key extends the restriction by that key. */
  lemma RestrictStep(base: map<string, Json>, m: map<string, Json>, keys: set<string>, key: string)
    requires keys <= m.Keys && key in m && key !in keys
    ensures base + Restrict(m, keys + {key}) == (base + Restrict(m, keys))[key := m[key]]
  {
  }

  /** One key of the object that merging two truthy object-like values builds. */
  lemma MergeSpecField(target: Json, source: Json, k: string)
    requires !Falsy(target) && !Falsy(source) && IsObjectLike(target) && IsObjectLike(source)
    requires !(target.Arr? && source.Arr?)
    requires k in Fields(target) || k in Fields(source)
    ensures MergeSpec(target, source).Obj?
    ensures k in MergeSpec(target, source).fields
    ensures MergeSpec(target, source).fields[k]
         == if k in Fields(source) then MergedValue(target, source, k) else Fields(target)[k]
  {
  }

  /** The keys of the object that merging two truthy object-like values builds. */
  lemma MergeSpecKeys(target: Json, source: Json)
    requires !Falsy(target) && !Falsy(source) && IsObjectLike(target) && IsObjectLike(source)
    requires !(target.Arr? && source.Arr?)
    ensures MergeSpec(target, source).Obj?
    ensures MergeSpec(target, source).fields.Keys == Fields(target).Keys + Fields(source).Keys
  {
  }

  /**
   * `merge(target, source)`: the falsy and array cases, then the object case,
   * then the fallback to `source`.
   */
  method Merge(target: Json, source: Json) returns (r: Json)
    ensures r == MergeSpec(target, source)
    decreases source, 2
  {
    if Falsy(target) {
      return source;
    }
    if Falsy(source) {
      return target;
    }
    if target.Arr? && source.Arr? {
      return Arr(target.items + source.items);
    }
    if IsObjectLike(target) && IsObjectLike(source) {
      var fields := MergeObjects(target, source);
      return Obj(fields);
    }
    return source;
  }

  /**
   * The object case of `merge`: `Object.assign({}, target)`, then a
   * `for (key in source)` loop assigning each key, recursing where the values
   * on both sides are object-like.
   */
  method MergeObjects(target: Json, source: Json) returns (result: map<string, Json>)
    requires !Falsy(target) && !Falsy(source) && IsObjectLike(target) && IsObjectLike(source)
    requires !(target.Arr? && source.Arr?)
    ensures MergeSpec(target, source).Obj? && result == MergeSpec(target, source).fields
    decreases source, 1
  {
    var t := Fields(target);
    var s := Fields(source);
    ghost var values := MergedValues(target, source);
    result := t;
    var pending := s.Keys;
    assert result == t + Restrict(values, {});
    while pending != {}
      invariant pending <= s.Keys
      invariant result == t + Restrict(values, s.Keys - pending)
      decreases pending
    {
      var key :| key in pending;
      assert key in s;
      RestrictStep(t, values, s.Keys - pending, key);
      assert s.Keys - (pending - {key}) == (s.Keys - pending) + {key};
      var value := MergeKey(target, source, key);
      result := result[key := value];
      pending := pending - {key};
    }
    assert Restrict(values, s.Keys) == values;
    assert MergeSpec(target, source) == Obj(t + values);
  }

  /** The body of the `for (key in source)` loop: the value assigned to `result[key]`. */
  method MergeKey(target: Json, source: Json, key: string) returns (value: Json)
    requires IsObjectLike(target) && IsObjectLike(source) && key in Fields(source)
    ensures value == MergedValue(target, source, key)
    decreases source, 0
  {
    var t, s := Fields(target), Fields(source);
    if IsObjectLike(s[key]) && key in t && IsObjectLike(t[key]) {
      value := Merge(t[key], s[key]);
    } else {
      value := s[key];
    }
  }

  /** `typeof v !== 'object'`, or `null`/`undefined`: a value the merge does not descend into. */
  predicate IsLeaf(v: Json) {
    !IsObjectLike(v)
  }

  /** A path through plain objects of `v` that ends at a leaf. */
  predicate ObjectPathToLeaf(v: Json, keys: seq<string>)
    decreases |keys|
  {
    && keys != []
    && v.Obj?
    && keys[0] in v.fields
    && (if |keys| == 1 then IsLeaf(v.fields[keys[0]]) else ObjectPathToLeaf(v.fields[keys[0]], keys[1..]))
  }

  /**
   * The source wins at every leaf: whatever the target, reading a path that
   * leads through the source's objects to a leaf gives the source's value.
   */
  lemma {:induction false} MergeSourceWinsAtLeaves(target: Json, source: Json, keys: seq<string>)
    requires ObjectPathToLeaf(source, keys)
    ensures Follow(MergeSpec(target, source), keys) == Follow(source, keys)
    decreases |keys|
  {
    if !Falsy(target) && IsObjectLike(target) {
      var t, s := Fields(target), Fields(source);
      var k := keys[0];
      var merged := MergeSpec(target, source);
      assert merged.Obj? && k in merged.fields;
      assert Get(merged, k) == merged.fields[k];
      assert Get(source, k) == s[k];
      MergeSpecField(target, source, k);
      if |keys| > 1 && k in t && IsObjectLike(t[k]) {
        assert merged.fields[k] == MergeSpec(t[k], s[k]);
        MergeSourceWinsAtLeaves(t[k], s[k], keys[1..]);
      } else {
        assert merged.fields[k] == s[k];
      }
    }
  }

  /** A falsy operand gives the other one back unchanged. */
  lemma MergeFalsyOperand(target: Json, source: Json)
    requires Falsy(target) || Falsy(source)
    ensures MergeSpec(target, source) == if Falsy(target) then source else target
  {
  }

  /** Two truthy values that are not both objects or arrays: the source wins. */
  lemma MergeFallsBackToSource(target: Json, source: Json)
    requires !Falsy(target) && !Falsy(source)
    requires !(IsObjectLike(target) && IsObjectLike(source))
    ensures MergeSpec(target, source) == source
  {
  }

  /** A key only the target has keeps the target's value when two plain objects merge. */
  lemma MergeKeepsTargetOnlyKeys(t: map<string, Json>, s: map<string, Json>, k: string)
    requires k in t && k !in s
    ensures Get(MergeSpec(Obj(t), Obj(s)), k) == t[k]
  {
  }

  /** Merging two plain objects gives a plain object over the union of their keys. */
  lemma MergeObjectKeys(t: map<string, Json>, s: map<string, Json>)
    ensures MergeSpec(Obj(t), Obj(s)).Obj?
    ensures MergeSpec(Obj(t), Obj(s)).fields.Keys == t.Keys + s.Keys
  {
  }

  /** Merging two arrays concatenates them. */
  lemma MergeArrays(t: seq<Json>, s: seq<Json>)
    ensures MergeSpec(Arr(t), Arr(s)) == Arr(t + s)
    ensures |MergeSpec(Arr(t), Arr(s)).items| == |t| + |s|
  {
  }

  /** Two objects with disjoint keys merge into their union. */
  lemma MergeDisjointPair(k1: string, v1: Json, k2: string, v2: Json)
    requires k1 != k2
    ensures MergeSpec(Obj(map[k1 := v1]), Obj(map[k2 := v2])) == Obj(map[k1 := v1, k2 := v2])
  {
    var t, s := Obj(map[k1 := v1]), Obj(map[k2 := v2]);
    MergeSpecKeys(t, s);
    MergeSpecField(t, s, k1);
    MergeSpecField(t, s, k2);
    assert MergeSpec(t, s).fields == map[k1 := v1, k2 := v2];
  }

  /**
   * Merging {ka: va, kb: vb} with {kb: wb, ke: we}: `ka` is copied from the
   * target, `ke` from the source, and the shared key `kb` merges recursively
   * when both of its values are objects, the source's value winning otherwise.
   */
  lemma MergeOverlapping(ka: string, kb: string, ke: string, va: Json, vb: Json, wb: Json, we: Json)
    requires ka != kb && kb != ke && ka != ke
    ensures MergeSpec(Obj(map[ka := va, kb := vb]), Obj(map[kb := wb, ke := we]))
         == Obj(map[ka := va, kb := if IsObjectLike(vb) && IsObjectLike(wb) then MergeSpec(vb, wb) else wb, ke := we])
  {
    var target, source := Obj(map[ka := va, kb := vb]), Obj(map[kb := wb, ke := we]);
    var shared := if IsObjectLike(vb) && IsObjectLike(wb) then MergeSpec(vb, wb) else wb;
    var expected := map[ka := va, kb := shared, ke := we];
    MergeSpecKeys(target, source);
    var m := MergeSpec(target, source).fields;
    assert m.Keys == expected.Keys;
    assert m[ka] == va by { MergeSpecField(target, source, ka); }
    assert m[kb] == shared by { MergeSpecField(target, source, kb); }
    assert m[ke] == we by { MergeSpecField(target, source, ke); }
    assert m == expected;
  }

  /**
   * The usage example, merging {a: 1, b: {c: 2}} with {b: {d: 3}, e: 4},
   * for any values in place of 1, 2, 3 and 4: the nested objects under `b`
   * merge, and the other keys are copied.
   */
  lemma MergeExample(one: Json, two: Json, three: Json, four: Json)
    ensures MergeSpec(Obj(map["a" := one, "b" := Obj(map["c" := two])]),
                      Obj(map["b" := Obj(map["d" := three]), "e" := four]))
         == Obj(map["a" := one, "b" := Obj(map["c" := two, "d" := three]), "e" := four])
  {
    MergeDisjointPair("c", two, "d", three);
    MergeOverlapping("a", "b", "e", one, Obj(map["c" := two]), Obj(map["d" := three]), four);
  }

  /** An array merged with a plain object becomes an object keyed by index, plus the object's keys. */
  lemma MergeArrayIntoObject(x: Json, y: Json, z: Json)
    ensures MergeSpec(Arr([x, y]), Obj(map["a" := z]))
         == Obj(map["0" := x, "1" := y, "a" := z])
  {
    assert NatToString(0) == "0" && NatToString(1) == "1";
    var target, source := Arr([x, y]), Obj(map["a" := z]);
    assert ArrayFieldsFrom([x, y], 1) == map["1" := y];
    assert ArrayFields([x, y]) == map["0" := x, "1" := y];
    MergeSpecKeys(target, source);
    var merged := MergeSpec(target, source);
    MergeSpecField(target, source, "0");
    MergeSpecField(target, source, "1");
    MergeSpecField(target, source, "a");
    assert merged.fields == map["0" := x, "1" := y, "a" := z];
  }

  // ---------------------------------------------------------------------------
  // The filter / map / sort / limit pipeline
  // ---------------------------------------------------------------------------

  /** The `sort` option: a comparator function, or any other value, whose truthiness decides. */
  datatype SortOption = Comparator(cmp: (Json, Json) -> int) | Flag(v: Json)

  /** The `options` object; `None` stands for a key the caller left out. */
  datatype Options = Options(
    filter: Option<Json -> Json>,
    transform: Option<Json -> Json>,
    sort: Option<SortOption>,
    limit: Option<Json>)

  /** What `process` returns, or the TypeError `data.filter` throws for a truthy non-array. */
  datatype ProcessResult = Processed(items: seq<Json>) | TypeError

  /** `Object.assign({}, defaultOptions, options || {})`: the keys the caller gives override the defaults. */
  function Settle(options: Option<Options>): Options {
    if options.Some? then options.value else Options(None, None, None, None)
  }

  /** Which items the filter keeps: those for which the callback returns a truthy value (default: all). */
  function KeepOf(filter: Option<Json -> Json>): Json -> bool {
    if filter.Some? then (x => !Falsy(filter.value(x))) else (x => true)
  }

  /** The transform callback (default: the identity). */
  function TransformOf(transform: Option<Json -> Json>): Json -> Json {
    if transform.Some? then transform.value else (x => x)
  }

  /**
   * The order the items are ranked by, or None when `sort` is falsy. The
   * default `sort: true` and every other truthy non-function value use the
   * runtime's default order, `defaultOrder`; a comparator puts `a` before `b`
   * when `cmp(a, b)` is not positive.
   */
  function Ranking(sort: Option<SortOption>, defaultOrder: (Json, Json) -> bool): Option<(Json, Json) -> bool> {
    var s := if sort.Some? then sort.value else Flag(Bool(true));
    match s
    case Comparator(cmp) => Some((a, b) => cmp(a, b) <= 0)
    case Flag(v) => if Falsy(v) then None else Some(defaultOrder)
  }

  /**
   * `Array.prototype.sort` never hands `undefined` to the ranking: it puts
   * every `undefined` after every other item, and ranks the rest.
   */
  function UndefinedLast(leq: (Json, Json) -> bool): (Json, Json) -> bool {
    (a, b) => b == Undefined || (a != Undefined && leq(a, b))
  }

  /** The order `results.sort` puts the items in, or None when `sort` is falsy. */
  function OrderOf(sort: Option<SortOption>, defaultOrder: (Json, Json) -> bool): Option<(Json, Json) -> bool> {
    var ranking := Ranking(sort, defaultOrder);
    if ranking.Some? then Some(UndefinedLast(ranking.value)) else None
  }

  /** Putting `undefined` last keeps a total preorder a total preorder. */
  lemma UndefinedLastPreorder(leq: (Json, Json) -> bool)
    requires TotalPreorder(leq)
    ensures TotalPreorder(UndefinedLast(leq))
  {
    var order := UndefinedLast(leq);
    forall a, b ensures order(a, b) || order(b, a) {
      assert leq(a, b) || leq(b, a);
    }
    forall a, b, c | order(a, b) && order(b, c) ensures order(a, c) {
      if c != Undefined && a != Undefined && b != Undefined {
        assert leq(a, b) && leq(b, c);
      }
    }
  }

  /** In a list ordered with `undefined` last, nothing but `undefined` follows an `undefined`. */
  lemma UndefinedStaysLast(s: seq<Json>, leq: (Json, Json) -> bool, i: nat, j: nat)
    requires Sorted(s, UndefinedLast(leq))
    requires i < j < |s| && s[i] == Undefined
    ensures s[j] == Undefined
  {
    assert UndefinedLast(leq)(s[i], s[j]);
  }

  /** `options.limit && typeof options.limit === 'number'`: a non-zero number. */
  function LimitOf(limit: Option<Json>): Option<int> {
    if limit.Some? && limit.value.Num? && limit.value.n != 0 then Some(limit.value.n) else None
  }

  /** The filtered and transformed items, in input order. */
  function Selected(items: seq<Json>, o: Options): seq<Json> {
    MapSeq(Filter(items, KeepOf(o.filter)), TransformOf(o.transform))
  }

  /** The items after the optional sort, before the limit. */
  function Ordered(items: seq<Json>, o: Options, defaultOrder: (Json, Json) -> bool): (r: seq<Json>)
    ensures multiset(r) == multiset(Selected(items, o))
  {
    var selected := Selected(items, o);
    match OrderOf(o.sort, defaultOrder)
    case None => selected
    case Some(leq) => SortBy(selected, leq)
  }

  /**
   * `process(data, options)`. The runtime's default order on the items other
   * than `undefined` (comparing their string forms) is the parameter `defaultOrder`.
   */
  function Process(data: Json, options: Option<Options>, defaultOrder: (Json, Json) -> bool): (r: ProcessResult)
    ensures Falsy(data) ==> r == Processed([])
    ensures r == TypeError <==> !Falsy(data) && !data.Arr?
  {
    if Falsy(data) then Processed([])
    else if !data.Arr? then TypeError
    else
      var o := Settle(options);
      var ordered := Ordered(data.items, o, defaultOrder);
      match LimitOf(o.limit)
      case None => Processed(ordered)
      case Some(n) => Processed(JsSlice(ordered, 0, n))
  }

  /** The pipeline on an array: the ordered items, cut by the limit when there is one. */
  lemma ProcessArray(items: seq<Json>, o: Options, defaultOrder: (Json, Json) -> bool)
    ensures Process(Arr(items), Some(o), defaultOrder)
         == Processed(if LimitOf(o.limit).Some? then JsSlice(Ordered(items, o, defaultOrder), 0, LimitOf(o.limit).value)
                      else Ordered(items, o, defaultOrder))
  {
  }

  /**
   * With sorting switched off and no limit, the output is the transform of
   * the kept items in input order: processing a concatenation concatenates.
   */
  lemma ProcessInInputOrder(xs: seq<Json>, ys: seq<Json>, o: Options, defaultOrder: (Json, Json) -> bool)
    requires OrderOf(o.sort, defaultOrder).None? && LimitOf(o.limit).None?
    ensures Process(Arr(xs), Some(o), defaultOrder) == Processed(MapSeq(Filter(xs, KeepOf(o.filter)), TransformOf(o.transform)))
    ensures Process(Arr(xs + ys), Some(o), defaultOrder).items
         == Process(Arr(xs), Some(o), defaultOrder).items + Process(Arr(ys), Some(o), defaultOrder).items
  {
    ProcessArray(xs, o, defaultOrder);
    ProcessArray(ys, o, defaultOrder);
    ProcessArray(xs + ys, o, defaultOrder);
    var keep, f := KeepOf(o.filter), TransformOf(o.transform);
    FilterAppend(xs, ys, keep);
    MapSeqAppend(Filter(xs, keep), Filter(ys, keep), f);
  }

  /**
   * A consistent comparator: swapping its arguments flips the sign of the
   * answer. The sort's result is fixed only for such comparators; any other
   * one leaves the order to the runtime.
   */
  ghost predicate Consistent(cmp: (Json, Json) -> int) {
    forall a, b :: (cmp(a, b) < 0 <==> cmp(b, a) > 0) && (cmp(a, b) == 0 <==> cmp(b, a) == 0)
  }

  /**
   * With a ranking that is a total preorder (from a consistent comparator, or
   * the default order) and no limit, the output is a permutation of the
   * filtered and transformed items, ordered by the ranking with every
   * `undefined` at the end.
   */
  lemma ProcessSorted(data: Json, o: Options, defaultOrder: (Json, Json) -> bool)
    requires data.Arr?
    requires o.sort.Some? && o.sort.value.Comparator? ==> Consistent(o.sort.value.cmp)
    requires Ranking(o.sort, defaultOrder).Some? && TotalPreorder(Ranking(o.sort, defaultOrder).value)
    requires LimitOf(o.limit).None?
    ensures Process(data, Some(o), defaultOrder).Processed?
    ensures Sorted(Process(data, Some(o), defaultOrder).items, UndefinedLast(Ranking(o.sort, defaultOrder).value))
    ensures var items := Process(data, Some(o), defaultOrder).items;
            forall i, j :: 0 <= i < j < |items| && items[i] == Undefined ==> items[j] == Undefined
    ensures multiset(Process(data, Some(o), defaultOrder).items) == multiset(Selected(data.items, o))
  {
    var leq := Ranking(o.sort, defaultOrder).value;
    ProcessArray(data.items, o, defaultOrder);
    UndefinedLastPreorder(leq);
    SortBySorted(Selected(data.items, o), UndefinedLast(leq));
    var items := Process(data, Some(o), defaultOrder).items;
    forall i, j | 0 <= i < j < |items| && items[i] == Undefined ensures items[j] == Undefined {
      UndefinedStaysLast(items, leq, i, j);
    }
  }

  /** `process([undefined, x], { sort: cmp })` puts `undefined` last, whatever `cmp` says. */
  lemma UndefinedSortedLast(x: Json, cmp: (Json, Json) -> int, defaultOrder: (Json, Json) -> bool)
    requires x != Undefined
    ensures Process(Arr([Undefined, x]), Some(Options(None, None, Some(Comparator(cmp)), None)), defaultOrder)
         == Processed([x, Undefined])
  {
    var o := Options(None, None, Some(Comparator(cmp)), None);
    ProcessArray([Undefined, x], o, defaultOrder);
    var s := [Undefined, x];
    assert s[1..] == [x] && [x][1..] == [];
    assert Filter(s, KeepOf(None)) == s;
    assert Selected(s, o) == s;
    SortUndefinedFirst(x, Ranking(o.sort, defaultOrder).value);
  }

  /** Sorting `[undefined, x]` swaps the two, whatever the ranking. */
  lemma SortUndefinedFirst(x: Json, leq: (Json, Json) -> bool)
    requires x != Undefined
    ensures SortBy([Undefined, x], UndefinedLast(leq)) == [x, Undefined]
  {
    var s := [Undefined, x];
    var order := UndefinedLast(leq);
    assert order(x, Undefined) && !order(Undefined, x);
    assert s[..1] == [Undefined];
    assert SortBy([Undefined], order) == [Undefined];
    assert SortBy(s, order) == Insert(x, [Undefined], order);
  }

  /**
   * A positive limit keeps at most that many items, and keeps a prefix of
   * what the pipeline gives without the limit.
   */
  lemma ProcessPositiveLimit(data: Json, o: Options, defaultOrder: (Json, Json) -> bool, n: int)
    requires data.Arr? && o.limit == Some(Num(n)) && n > 0
    ensures Process(data, Some(o), defaultOrder).Processed?
    ensures |Process(data, Some(o), defaultOrder).items| <= n
    ensures Process(data, Some(o), defaultOrder).items <= Process(data, Some(o.(limit := None)), defaultOrder).items
    ensures |Process(data, Some(o), defaultOrder).items| == n
        || Process(data, Some(o), defaultOrder) == Process(data, Some(o.(limit := None)), defaultOrder)
  {
    ProcessArray(data.items, o, defaultOrder);
    ProcessArray(data.items, o.(limit := None), defaultOrder);
    SlicePrefix(Ordered(data.items, o, defaultOrder), n);
  }

  /** A limit of 0 is falsy: nothing is cut. */
  lemma ProcessZeroLimit(data: Json, o: Options, defaultOrder: (Json, Json) -> bool)
    requires o.limit == Some(Num(0))
    ensures Process(data, Some(o), defaultOrder) == Process(data, Some(o.(limit := None)), defaultOrder)
  {
    if data.Arr? {
      ProcessArray(data.items, o, defaultOrder);
      ProcessArray(data.items, o.(limit := None), defaultOrder);
    }
  }

  /** A negative limit drops that many items from the end, as `slice(0, n)` does. */
  lemma ProcessNegativeLimit(data: Json, o: Options, defaultOrder: (Json, Json) -> bool, n: int)
    requires data.Arr? && o.limit == Some(Num(n)) && n < 0
    ensures Process(data, Some(o), defaultOrder).Processed?
    ensures var all := Process(data, Some(o.(limit := None)), defaultOrder).items;
            Process(data, Some(o), defaultOrder).items == all[..if |all| + n < 0 then 0 else |all| + n]
  {
    ProcessArray(data.items, o, defaultOrder);
    ProcessArray(data.items, o.(limit := None), defaultOrder);
    SliceNegative(Ordered(data.items, o, defaultOrder), n);
  }

  /** The sample user records of the usage example. */
  function SampleUser(id: int, name: string, roles: seq<Json>, active: bool): Json {
    Obj(map["id" := Num(id), "name" := Str(name), "roles" := Arr(roles),
            "metadata" := Obj(map["active" := Bool(active)])])
  }

  /** `user => extractValues(user, 'metadata.active')` */
  function MetadataActive(user: Json): Json {
    Extracted(user, Dotted("metadata.active"))
  }

  /** `{ id: user.id, name: user.name }` */
  function IdAndName(user: Json): Json {
    Obj(map["id" := Follow(user, ["id"]), "name" := Follow(user, ["name"])])
  }

  /** `'metadata.active'` names the two keys `metadata` and `active`. */
  lemma ActivePath()
    ensures PathParts(Dotted("metadata.active")) == ["metadata", "active"]
  {
    assert Join(["metadata", "active"], '.') == "metadata.active";
    SplitJoin(["metadata", "active"], '.');
  }

  /** A sample user's `metadata` object. */
  lemma SampleUserMetadata(id: int, name: string, roles: seq<Json>, active: bool)
    ensures Get(SampleUser(id, name, roles, active), "metadata") == Obj(map["active" := Bool(active)])
  {
  }

  /** Reading a two-key path. */
  lemma FollowTwo(v: Json, first: string, second: string)
    requires !Nullish(v) && !Nullish(Get(v, first))
    ensures Follow(v, [first, second]) == Get(Get(v, first), second)
  {
    var keys, rest := [first, second], [second];
    assert keys[1..] == rest && rest[1..] == [];
    assert Follow(v, keys) == Follow(Get(v, first), rest);
    assert Follow(Get(v, first), rest) == Follow(Get(Get(v, first), second), []);
  }

  /** Extracting `metadata.active` from a truthy value reads the two keys. */
  lemma ExtractActive(v: Json)
    requires !Falsy(v)
    ensures Extracted(v, Dotted("metadata.active")) == Follow(v, ["metadata", "active"])
  {
    ActivePath();
  }

  /** Reading `metadata.active` of a sample user gives its flag. */
  lemma SampleUserActive(id: int, name: string, roles: seq<Json>, active: bool)
    ensures Extracted(SampleUser(id, name, roles, active), Dotted("metadata.active")) == Bool(active)
  {
    var u := SampleUser(id, name, roles, active);
    ExtractActive(u);
    SampleUserMetadata(id, name, roles, active);
    FollowTwo(u, "metadata", "active");
  }

  /** Projecting a sample user keeps its id and name. */
  lemma SampleUserIdAndName(id: int, name: string, roles: seq<Json>, active: bool)
    ensures IdAndName(SampleUser(id, name, roles, active)) == Obj(map["id" := Num(id), "name" := Str(name)])
  {
  }

  /**
   * When the runtime's default order ranks all selected items equal, none of
   * them is `undefined` and there is no limit, the stable sort leaves them in
   * input order.
   */
  lemma ProcessDefaultOrderAllEqual(items: seq<Json>, o: Options, defaultOrder: (Json, Json) -> bool)
    requires o.sort.None? && LimitOf(o.limit).None?
    requires var selected := Selected(items, o);
             forall i, j :: 0 <= i < |selected| && 0 <= j < |selected| ==> defaultOrder(selected[i], selected[j])
    requires var selected := Selected(items, o);
             forall i :: 0 <= i < |selected| ==> selected[i] != Undefined
    ensures Process(Arr(items), Some(o), defaultOrder) == Processed(Selected(items, o))
  {
    ProcessArray(items, o, defaultOrder);
    var selected := Selected(items, o);
    var leq := UndefinedLast(defaultOrder);
    assert forall i, j :: 0 <= i < |selected| && 0 <= j < |selected| ==> leq(selected[i], selected[j]);
    SortByAllEquivalent(selected, leq);
  }

  /** Filtering three items of which only the middle one is rejected keeps the outer two. */
  lemma KeepOuter(first: Json, middle: Json, last: Json, keep: Json -> bool)
    requires keep(first) && !keep(middle) && keep(last)
    ensures Filter([first, middle, last], keep) == [first, last]
  {
    var s, t, u := [first, middle, last], [middle, last], [last];
    assert s[1..] == t && t[1..] == u && u[1..] == [];
    assert Filter(u, keep) == [last];
    assert Filter(t, keep) == [last];
  }

  /** The `activeUsers` filter keeps a sample user exactly when it is active. */
  lemma SampleUserKept(id: int, name: string, roles: seq<Json>, active: bool)
    ensures KeepOf(Some(MetadataActive))(SampleUser(id, name, roles, active)) == active
  {
    var u := SampleUser(id, name, roles, active);
    assert MetadataActive(u) == Bool(active) by {
      SampleUserActive(id, name, roles, active);
    }
    var keep := KeepOf(Some(MetadataActive));
    assert keep(u) == !Falsy(MetadataActive(u));
  }

  /** The three sample users of the usage example. */
  function SampleUsers(): seq<Json> {
    [SampleUser(1, "John", [Str("admin")], true), SampleUser(2, "Jane", [Str("user")], false),
     SampleUser(3, "Bob", [Str("user"), Str("editor")], true)]
  }

  /** The `activeUsers` filter keeps John and Bob and drops Jane. */
  lemma ActiveUsersKept()
    ensures Filter(SampleUsers(), KeepOf(Some(MetadataActive)))
         == [SampleUser(1, "John", [Str("admin")], true), SampleUser(3, "Bob", [Str("user"), Str("editor")], true)]
  {
    var john, jane, bob := SampleUser(1, "John", [Str("admin")], true), SampleUser(2, "Jane", [Str("user")], false),
                           SampleUser(3, "Bob", [Str("user"), Str("editor")], true);
    SampleUserKept(1, "John", [Str("admin")], true);
    SampleUserKept(2, "Jane", [Str("user")], false);
    SampleUserKept(3, "Bob", [Str("user"), Str("editor")], true);
    KeepOuter(john, jane, bob, KeepOf(Some(MetadataActive)));
  }

  /**
   * The `activeUsers` call: keeping the users whose `metadata.active` is
   * truthy and projecting them to id and name gives John and Bob, in input
   * order, when the default order ranks all plain objects equal (they all
   * print as "[object Object]").
   */
  lemma ActiveUsersExample(defaultOrder: (Json, Json) -> bool)
    requires forall a: Json, b: Json {:trigger defaultOrder(a, b)} :: a.Obj? && b.Obj? ==> defaultOrder(a, b)
    ensures Process(Arr(SampleUsers()), Some(Options(Some(MetadataActive), Some(IdAndName), None, None)), defaultOrder)
         == Processed([Obj(map["id" := Num(1), "name" := Str("John")]), Obj(map["id" := Num(3), "name" := Str("Bob")])])
  {
    var users, options := SampleUsers(), Options(Some(MetadataActive), Some(IdAndName), None, None);
    ActiveUsersKept();
    var x, y := IdAndName(SampleUser(1, "John", [Str("admin")], true)),
                IdAndName(SampleUser(3, "Bob", [Str("user"), Str("editor")], true));
    SampleUserIdAndName(1, "John", [Str("admin")], true);
    SampleUserIdAndName(3, "Bob", [Str("user"), Str("editor")], true);
    var r := Selected(users, options);
    assert r[0] == x && r[1] == y;
    assert r == [x, y];
    ProcessDefaultOrderAllEqual(users, options, defaultOrder);
  }
}
