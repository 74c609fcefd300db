/**
 The schema vocabulary: each builder of `s.*` with the two things it makes, a published JSON Schema and a
 parser. Patterns are flag-free, so a pattern is the set of texts it matches wherever it is compiled.
 */
module Schemas {
  import opened Options
  import opened Texts

  type Pattern = Text -> bool

  /** `NotFinite` is NaN or an infinity. */
  datatype Num = Finite(r: real) | NotFinite

  /** A value of the language as the schemas see it; an object is its own enumerable properties in order. */
  datatype Data =
    | Undefined
    | Null
    | Bool(b: bool)
    | Number(n: Num)
    | Str(text: Text)
    | List(items: seq<Data>)
    | Dict(entries: seq<Keyed<Data>>)

  /** A literal is a string or a number. */
  datatype Constant = TextConstant(t: Text) | NumberConstant(r: real)

  datatype Schema =
    | StringOf(minLength: int, maxLength: int, pattern: Option<Pattern>)
    | IntegerIn(lowest: real, highest: real)
    | FiniteIn(lowest: real, highest: real)
    | Boolean
    | Enum(values: seq<Text>)
    | Literal(constant: Constant)
    | Nullable(inner: Schema)
    | Default(inner: Schema, filled: Data)
    | Optional(inner: Schema)
    | Union(first: Schema, second: Schema)
    | ArrayOf(item: Schema, minItems: int, maxItems: int)
    | RecordOf(names: Pattern, item: Schema, maxProperties: int)
    | Object(shape: seq<Keyed<Schema>>)

  const NUL: Unit := 0

  const MAX_SAFE := 9007199254740991.0

  function DataOf(c: Constant): Data {
    match c
    case TextConstant(t) => Str(t)
    case NumberConstant(r) => Number(Finite(r))
  }

  predicate SafeInteger(r: real) {
    r == r.Floor as real && -MAX_SAFE <= r <= MAX_SAFE
  }

  function Get(entries: seq<Keyed<Data>>, key: Text): Data {
    if entries == [] then Undefined else if entries[0].key == key then entries[0].value else Get(entries[1..], key)
  }

  predicate HasKey<T>(members: seq<Keyed<T>>, key: Text) {
    exists i :: 0 <= i < |members| && members[i].key == key
  }

  /** Objects of the language name each property once. */
  ghost predicate Proper(v: Data) {
    match v
    case List(items) => forall x :: x in items ==> Proper(x)
    case Dict(entries) => DistinctKeys(entries) && forall m :: m in entries ==> Proper(m.value)
    case _ => true
  }

  lemma {:induction false} EntryThere(entries: seq<Keyed<Data>>, i: nat)
    requires DistinctKeys(entries) && i < |entries|
    ensures Get(entries, entries[i].key) == entries[i].value && HasKey(entries, entries[i].key)
  {
    if i > 0 {
      assert entries[0].key != entries[i].key;
      EntryThere(entries[1..], i - 1);
    }
  }

  lemma {:induction false} GetIsProper(entries: seq<Keyed<Data>>, key: Text)
    requires forall m :: m in entries ==> Proper(m.value)
    ensures Proper(Get(entries, key))
  {
    if entries != [] {
      GetIsProper(entries[1..], key);
    }
  }

  // ------------------------------------------------------------------ published schema

  datatype Kind = StringKind | IntegerKind | NumberKind | BooleanKind | ArrayKind | ObjectKind | NullKind

  /** The keywords the builders emit and the walker reads; an absent keyword is `None`. */
  datatype Json = Json(
    kind: Option<Kind>,
    default: Option<Data>,
    anyOf: Branches,
    constant: Option<Constant>,
    listed: Option<seq<Text>>,
    minLength: Option<int>,
    maxLength: Option<int>,
    pattern: Option<Pattern>,
    minimum: Option<real>,
    maximum: Option<real>,
    minItems: Option<int>,
    maxItems: Option<int>,
    items: Option<Json>,
    properties: Properties,
    required: seq<Text>,
    additional: Option<Json>,
    names: Option<Pattern>,
    maxProperties: Option<int>)

  datatype Branches = NoBranches | AnyOf(branches: seq<Json>)

  datatype Properties = NoProperties | Properties(members: seq<Keyed<Json>>)

  const EMPTY := Json(None, None, NoBranches, None, None, None, None, None, None, None, None, None, None, NoProperties,
                      [], None, None, None)

  /** The JSON Schema a builder publishes. */
  function JsonOf(s: Schema): Json
    decreases s, 0
  {
    match s
    case StringOf(min, max, pattern) =>
      EMPTY.(kind := Some(StringKind), minLength := Some(min), maxLength := Some(max), pattern := pattern)
    case IntegerIn(min, max) => EMPTY.(kind := Some(IntegerKind), minimum := Some(min), maximum := Some(max))
    case FiniteIn(min, max) => EMPTY.(kind := Some(NumberKind), minimum := Some(min), maximum := Some(max))
    case Boolean => EMPTY.(kind := Some(BooleanKind))
    case Enum(values) => EMPTY.(kind := Some(StringKind), listed := Some(values))
    case Literal(c) => EMPTY.(constant := Some(c))
    case Nullable(inner) => EMPTY.(anyOf := AnyOf([JsonOf(inner), EMPTY.(kind := Some(NullKind))]))
    case Default(inner, filled) => JsonOf(inner).(default := Some(filled))
    case Optional(inner) => JsonOf(inner)
    case Union(a, b) => EMPTY.(anyOf := AnyOf([JsonOf(a), JsonOf(b)]))
    case ArrayOf(item, min, max) =>
      EMPTY.(kind := Some(ArrayKind), items := Some(JsonOf(item)), minItems := Some(min), maxItems := Some(max))
    case RecordOf(names, item, max) =>
      EMPTY.(kind := Some(ObjectKind), names := Some(names), additional := Some(JsonOf(item)),
          maxProperties := Some(max))
    case Object(shape) =>
      EMPTY.(kind := Some(ObjectKind), properties := Properties(PropertyJsons(shape)), required := RequiredKeys(shape))
  }

  function PropertyJsons(shape: seq<Keyed<Schema>>): (properties: seq<Keyed<Json>>)
    ensures |properties| == |shape|
    ensures forall i :: 0 <= i < |shape| ==> properties[i].key == shape[i].key
  {
    if shape == [] then [] else [Keyed(shape[0].key, JsonOf(shape[0].value))] + PropertyJsons(shape[1..])
  }

  predicate IsRequired(s: Schema)
    decreases s, 1
  {
    JsonOf(s).default.None? && !s.Optional?
  }

  function RequiredKeys(shape: seq<Keyed<Schema>>): seq<Text> {
    if shape == [] then []
    else (if IsRequired(shape[0].value) then [shape[0].key] else []) + RequiredKeys(shape[1..])
  }

  // ------------------------------------------------------------------ parser

  /** What the parser returns, or nothing where it throws a SCHEMA error. */
  function Parse(s: Schema, v: Data): Option<Data>
    decreases s, 0
  {
    match s
    case StringOf(min, max, pattern) =>
      if v.Str? && NUL !in v.text && min <= |v.text| <= max && (pattern.Some? ==> pattern.value(v.text))
      then Some(v) else None
    case IntegerIn(min, max) =>
      if v.Number? && v.n.Finite? && SafeInteger(v.n.r) && min <= v.n.r <= max then Some(v) else None
    case FiniteIn(min, max) => if v.Number? && v.n.Finite? && min <= v.n.r <= max then Some(v) else None
    case Boolean => if v.Bool? then Some(v) else None
    case Enum(values) => if v.Str? && v.text in values then Some(v) else None
    case Literal(c) => if v == DataOf(c) then Some(v) else None
    case Nullable(inner) => if v.Null? then Some(Null) else Parse(inner, v)
    case Default(inner, filled) => Parse(inner, if v.Undefined? then filled else v)
    case Optional(inner) => if v.Undefined? then Some(Undefined) else Parse(inner, v)
    case Union(a, b) => var first := Parse(a, v); if first.Some? then first else Parse(b, v)
    case ArrayOf(item, min, max) =>
      if !(v.List? && min <= |v.items| <= max) then None
      else var parsed := ParseItems(item, v.items); if parsed.None? then None else Some(List(parsed.value))
    case RecordOf(names, item, max) =>
      if !(v.Dict? && |v.entries| <= max) then None
      else var parsed := ParseEntries(names, item, v.entries); if parsed.None? then None else Some(Dict(parsed.value))
    case Object(shape) =>
      if !(v.Dict? && forall i :: 0 <= i < |v.entries| ==> HasKey(shape, v.entries[i].key)) then None
      else var parsed := ParseShape(shape, v.entries); if parsed.None? then None else Some(Dict(parsed.value))
  }

  function ParseItems(item: Schema, items: seq<Data>): Option<seq<Data>>
    decreases item, 1 + |items|
  {
    if items == [] then Some([])
    else
      var first, rest := Parse(item, items[0]), ParseItems(item, items[1..]);
      if first.None? || rest.None? then None else Some([first.value] + rest.value)
  }

  function ParseEntries(names: Pattern, item: Schema, entries: seq<Keyed<Data>>): Option<seq<Keyed<Data>>>
    decreases item, 1 + |entries|
  {
    if entries == [] then Some([])
    else
      var first, rest := Parse(item, entries[0].value), ParseEntries(names, item, entries[1..]);
      if !names(entries[0].key) || first.None? || rest.None? then None
      else Some([Keyed(entries[0].key, first.value)] + rest.value)
  }

  /** An absent value of an optional property is left out of the result. */
  predicate Kept(s: Schema, parsed: Data) {
    !parsed.Undefined? || !s.Optional?
  }

  function ParseShape(shape: seq<Keyed<Schema>>, entries: seq<Keyed<Data>>): Option<seq<Keyed<Data>>>
    decreases shape, 0
  {
    if shape == [] then Some([])
    else
      var first, rest := Parse(shape[0].value, Get(entries, shape[0].key)), ParseShape(shape[1..], entries);
      if first.None? || rest.None? then None
      else Some((if Kept(shape[0].value, first.value) then [Keyed(shape[0].key, first.value)] else []) + rest.value)
  }

  // ------------------------------------------------------------------ the same two parsers as loops

  /** The loop of a record's parser, which fills its result entry by entry and throws at the first fault. */
  method ParseRecordLoop(names: Pattern, item: Schema, entries: seq<Keyed<Data>>)
    returns (out: Option<seq<Keyed<Data>>>)
    ensures out == ParseEntries(names, item, entries)
  {
    var filled: seq<Keyed<Data>> := [];
    ghost var whole := ParseEntries(names, item, entries);
    NothingPrefixed(whole);
    assert entries[0..] == entries;
    for i := 0 to |entries|
      invariant Prefixed(filled, ParseEntries(names, item, entries[i..])) == whole
    {
      var parsed := Parse(item, entries[i].value);
      assert entries[i..][1..] == entries[i + 1..];
      if !names(entries[i].key) || parsed.None? {
        return None;
      }
      PrefixTwice(filled, [Keyed(entries[i].key, parsed.value)], ParseEntries(names, item, entries[i + 1..]));
      filled := filled + [Keyed(entries[i].key, parsed.value)];
    }
    NothingAfter(filled);
    return Some(filled);
  }

  /** The loop of an object's parser over the properties of its shape. */
  method ParseShapeLoop(shape: seq<Keyed<Schema>>, entries: seq<Keyed<Data>>) returns (out: Option<seq<Keyed<Data>>>)
    ensures out == ParseShape(shape, entries)
  {
    var filled: seq<Keyed<Data>> := [];
    ghost var whole := ParseShape(shape, entries);
    NothingPrefixed(whole);
    assert shape[0..] == shape;
    for i := 0 to |shape|
      invariant Prefixed(filled, ParseShape(shape[i..], entries)) == whole
    {
      var parsed := Parse(shape[i].value, Get(entries, shape[i].key));
      assert shape[i..][1..] == shape[i + 1..];
      if parsed.None? {
        return None;
      }
      if Kept(shape[i].value, parsed.value) {
        PrefixTwice(filled, [Keyed(shape[i].key, parsed.value)], ParseShape(shape[i + 1..], entries));
        filled := filled + [Keyed(shape[i].key, parsed.value)];
      } else {
        NothingPrefixed(ParseShape(shape[i + 1..], entries));
      }
    }
    NothingAfter(filled);
    return Some(filled);
  }

  ghost function Prefixed<T>(done: seq<T>, rest: Option<seq<T>>): Option<seq<T>> {
    if rest.None? then None else Some(done + rest.value)
  }

  lemma NothingPrefixed<T>(rest: Option<seq<T>>)
    ensures Prefixed([], rest) == rest
  {
    if rest.Some? {
      assert [] + rest.value == rest.value;
    }
  }

  lemma NothingAfter<T>(done: seq<T>)
    ensures Prefixed(done, Some([])) == Some(done)
  {
    assert done + [] == done;
  }

  lemma PrefixTwice<T>(a: seq<T>, b: seq<T>, rest: Option<seq<T>>)
    ensures Prefixed(a, Prefixed(b, rest)) == Prefixed(a + b, rest)
  {
    if rest.Some? {
      assert a + (b + rest.value) == a + b + rest.value;
    }
  }
}
