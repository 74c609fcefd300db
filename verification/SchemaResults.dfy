/**
 What parsing makes of a value: everything present comes back as it was, and only what was absent is filled in
 or left out.
 */
module SchemaResults {
  import opened Options
  import opened Texts
  import opened Schemas
  import opened SchemaParsing

  // ------------------------------------------------------------------ the result, part by part

  /** Texts, numbers, booleans and null come back unchanged, whatever the schema. */
  lemma {:induction false} ScalarUnchanged(s: Schema, v: Data)
    requires v.Null? || v.Bool? || v.Number? || v.Str?
    requires Parse(s, v).Some?
    ensures Parse(s, v).value == v
  {
    match s
    case Nullable(inner) =>
      if !v.Null? {
        ScalarUnchanged(inner, v);
      }
    case Default(inner, _) => ScalarUnchanged(inner, v);
    case Optional(inner) => ScalarUnchanged(inner, v);
    case Union(a, b) =>
      if Parse(a, v).Some? {
        ScalarUnchanged(a, v);
      } else {
        ScalarUnchanged(b, v);
      }
    case _ =>
  }

  /** The items of a list are the results of its items, in order. */
  lemma {:induction false} ItemsOneByOne(item: Schema, items: seq<Data>)
    requires ParseItems(item, items).Some?
    ensures var out := ParseItems(item, items).value;
            |out| == |items| && forall i :: 0 <= i < |items| ==> Parse(item, items[i]) == Some(out[i])
  {
    if items != [] {
      ItemsOneByOne(item, items[1..]);
      assert forall i :: 0 < i < |items| ==> items[i] == items[1..][i - 1];
    }
  }

  /** The entries of a record keep their keys and their order, and hold the results of their values. */
  lemma {:induction false} EntriesOneByOne(names: Pattern, item: Schema, entries: seq<Keyed<Data>>)
    requires ParseEntries(names, item, entries).Some?
    ensures var out := ParseEntries(names, item, entries).value;
            |out| == |entries| && forall i :: 0 <= i < |entries| ==>
              names(entries[i].key) && out[i].key == entries[i].key
                && Parse(item, entries[i].value) == Some(out[i].value)
  {
    if entries != [] {
      EntriesOneByOne(names, item, entries[1..]);
      assert forall i :: 0 < i < |entries| ==> entries[i] == entries[1..][i - 1];
    }
  }

  /** The keys of the parts that are kept, in the order of the shape. */
  function KeptKeys(shape: seq<Keyed<Schema>>, entries: seq<Keyed<Data>>): seq<Text> {
    if shape == [] then []
    else
      (if shape[0].value.Optional? && Parse(shape[0].value, Get(entries, shape[0].key)) == Some(Undefined) then []
       else [shape[0].key])
      + KeptKeys(shape[1..], entries)
  }

  function KeysOf(entries: seq<Keyed<Data>>): (keys: seq<Text>)
    ensures |keys| == |entries| && forall i :: 0 <= i < |keys| ==> keys[i] == entries[i].key
  {
    seq(|entries|, i requires 0 <= i < |entries| => entries[i].key)
  }

  lemma {:induction false} KeysInOrder(shape: seq<Keyed<Schema>>, entries: seq<Keyed<Data>>)
    requires ParseShape(shape, entries).Some?
    ensures KeysOf(ParseShape(shape, entries).value) == KeptKeys(shape, entries)
  {
    if shape != [] {
      KeysInOrder(shape[1..], entries);
    }
  }

  /**
   An object comes back with the keys of its shape, in that order, without the optional ones that are absent, and
   under each key the result of its part.
   */
  lemma ObjectPartByPart(shape: seq<Keyed<Schema>>, v: Data)
    requires DistinctKeys(shape) && Parse(Object(shape), v).Some?
    ensures v.Dict? && Parse(Object(shape), v).value.Dict?
    ensures KeysOf(Parse(Object(shape), v).value.entries) == KeptKeys(shape, v.entries)
    ensures forall i :: 0 <= i < |shape| ==>
              Parse(shape[i].value, Get(v.entries, shape[i].key))
              == Some(Get(Parse(Object(shape), v).value.entries, shape[i].key))
  {
    KeysInOrder(shape, v.entries);
    forall i | 0 <= i < |shape|
      ensures Parse(shape[i].value, Get(v.entries, shape[i].key))
           == Some(Get(Parse(Object(shape), v).value.entries, shape[i].key))
    {
      ParsedHolds(shape, v.entries, i);
    }
  }

  /** What an absent value parses to: the result of the innermost filling, absence under an optional, else nothing. */
  function AbsentGives(s: Schema): Option<Data> {
    match s
    case Default(inner, filled) => Parse(inner, filled)
    case Optional(_) => Some(Undefined)
    case Nullable(inner) => AbsentGives(inner)
    case Union(a, b) => if AbsentGives(a).Some? then AbsentGives(a) else AbsentGives(b)
    case _ => None
  }

  lemma {:induction false} AbsentParses(s: Schema)
    ensures Parse(s, Undefined) == AbsentGives(s)
  {
    match s
    case Nullable(inner) => AbsentParses(inner);
    case Union(a, b) =>
      AbsentParses(a);
      AbsentParses(b);
    case _ =>
  }

  // ------------------------------------------------------------------ nothing present is changed

  /** No shape of the schema names a key twice. */
  ghost predicate ProperShapes(s: Schema) {
    match s
    case Nullable(inner) => ProperShapes(inner)
    case Default(inner, _) => ProperShapes(inner)
    case Optional(inner) => ProperShapes(inner)
    case Union(a, b) => ProperShapes(a) && ProperShapes(b)
    case ArrayOf(item, _, _) => ProperShapes(item)
    case RecordOf(_, item, _) => ProperShapes(item)
    case Object(shape) => DistinctKeys(shape) && forall m :: m in shape ==> ProperShapes(m.value)
    case _ => true
  }

  /** Everything present in the first is in the second, unchanged and at its place; keys may be in another order. */
  predicate Preserved(v: Data, r: Data) {
    match v
    case Undefined => true
    case List(items) =>
      r.List? && |r.items| == |items| && forall i :: 0 <= i < |items| ==> Preserved(items[i], r.items[i])
    case Dict(entries) =>
      r.Dict? && forall i :: 0 <= i < |entries| ==> Preserved(entries[i].value, Get(r.entries, entries[i].key))
    case _ => r == v
  }

  lemma ItemIsProper(v: Data, i: nat)
    requires Proper(v) && v.List? && i < |v.items|
    ensures Proper(v.items[i])
  {
    assert v.items[i] in v.items;
  }

  lemma EntryIsProper(v: Data, i: nat)
    requires Proper(v) && v.Dict? && i < |v.entries|
    ensures Proper(v.entries[i].value) && Get(v.entries, v.entries[i].key) == v.entries[i].value
  {
    assert v.entries[i] in v.entries;
    EntryThere(v.entries, i);
  }

  /** Whatever the schema, a value that parses comes back with everything present in it as it was. */
  lemma {:induction false} PresentIsPreserved(s: Schema, v: Data)
    requires ProperShapes(s) && Proper(v) && Parse(s, v).Some?
    ensures Preserved(v, Parse(s, v).value)
    decreases s, 1
  {
    match s
    case Nullable(inner) =>
      if !v.Null? {
        PresentIsPreserved(inner, v);
      }
    case Default(inner, _) =>
      if !v.Undefined? {
        PresentIsPreserved(inner, v);
      }
    case Optional(inner) =>
      if !v.Undefined? {
        PresentIsPreserved(inner, v);
      }
    case Union(a, b) =>
      if Parse(a, v).Some? {
        PresentIsPreserved(a, v);
      } else {
        PresentIsPreserved(b, v);
      }
    case ArrayOf(item, _, _) =>
      ItemsOneByOne(item, v.items);
      forall i | 0 <= i < |v.items| ensures Preserved(v.items[i], Parse(s, v).value.items[i]) {
        ItemIsProper(v, i);
        PresentIsPreserved(item, v.items[i]);
      }
    case RecordOf(names, item, _) => RecordIsPreserved(s, v);
    case Object(shape) => ObjectIsPreserved(shape, v);
    case _ =>
  }

  lemma {:induction false} RecordIsPreserved(s: Schema, v: Data)
    requires s.RecordOf? && ProperShapes(s) && Proper(v) && Parse(s, v).Some?
    ensures Preserved(v, Parse(s, v).value)
    decreases s, 0
  {
    var out := Parse(s, v).value.entries;
    EntriesOneByOne(s.names, s.item, v.entries);
    forall i | 0 <= i < |v.entries| ensures Preserved(v.entries[i].value, Get(out, v.entries[i].key)) {
      EntryIsProper(v, i);
      EntryThere(out, i);
      PresentIsPreserved(s.item, v.entries[i].value);
    }
  }

  lemma {:induction false} ObjectIsPreserved(shape: seq<Keyed<Schema>>, v: Data)
    requires ProperShapes(Object(shape)) && Proper(v) && Parse(Object(shape), v).Some?
    ensures Preserved(v, Parse(Object(shape), v).value)
    decreases shape
  {
    var out := Parse(Object(shape), v).value.entries;
    ObjectPartByPart(shape, v);
    forall i | 0 <= i < |v.entries| ensures Preserved(v.entries[i].value, Get(out, v.entries[i].key)) {
      assert HasKey(shape, v.entries[i].key);
      var j :| 0 <= j < |shape| && shape[j].key == v.entries[i].key;
      assert shape[j] in shape;
      EntryIsProper(v, i);
      PresentIsPreserved(shape[j].value, v.entries[i].value);
    }
  }

  ghost predicate NoDefaults(s: Schema) {
    match s
    case Nullable(inner) => NoDefaults(inner)
    case Default(_, _) => false
    case Optional(inner) => NoDefaults(inner)
    case Union(a, b) => NoDefaults(a) && NoDefaults(b)
    case ArrayOf(item, _, _) => NoDefaults(item)
    case RecordOf(_, item, _) => NoDefaults(item)
    case Object(shape) => forall m :: m in shape ==> NoDefaults(m.value)
    case _ => true
  }

  lemma {:induction false} KeptKeysAreKeys(shape: seq<Keyed<Schema>>, entries: seq<Keyed<Data>>)
    requires DistinctKeys(shape)
    ensures forall i :: 0 <= i < |KeptKeys(shape, entries)| ==> HasKey(shape, KeptKeys(shape, entries)[i])
    ensures forall i, j :: 0 <= i < j < |KeptKeys(shape, entries)| ==>
              KeptKeys(shape, entries)[i] != KeptKeys(shape, entries)[j]
  {
    if shape != [] {
      var kept, rest := KeptKeys(shape, entries), KeptKeys(shape[1..], entries);
      KeptKeysAreKeys(shape[1..], entries);
      forall i | 0 <= i < |rest| ensures rest[i] != shape[0].key && HasKey(shape, rest[i]) {
        var j :| 0 <= j < |shape[1..]| && shape[1..][j].key == rest[i];
        assert shape[j + 1].key == rest[i];
      }
    }
  }

  /** Without defaults nothing is added either. */
  lemma {:induction false} NothingIsAdded(s: Schema, v: Data)
    requires NoDefaults(s) && ProperShapes(s) && Proper(v) && Parse(s, v).Some?
    ensures Preserved(Parse(s, v).value, v)
    decreases s, 1
  {
    match s
    case Nullable(inner) =>
      if !v.Null? {
        NothingIsAdded(inner, v);
      }
    case Optional(inner) =>
      if !v.Undefined? {
        NothingIsAdded(inner, v);
      }
    case Union(a, b) =>
      if Parse(a, v).Some? {
        NothingIsAdded(a, v);
      } else {
        NothingIsAdded(b, v);
      }
    case ArrayOf(item, _, _) =>
      ItemsOneByOne(item, v.items);
      forall i | 0 <= i < |v.items| ensures Preserved(Parse(s, v).value.items[i], v.items[i]) {
        ItemIsProper(v, i);
        NothingIsAdded(item, v.items[i]);
      }
    case RecordOf(names, item, _) => RecordGainsNothing(s, v);
    case Object(shape) => ObjectGainsNothing(shape, v);
    case _ =>
  }

  lemma {:induction false} RecordGainsNothing(s: Schema, v: Data)
    requires s.RecordOf? && NoDefaults(s) && ProperShapes(s) && Proper(v) && Parse(s, v).Some?
    ensures Preserved(Parse(s, v).value, v)
    decreases s, 0
  {
    var out := Parse(s, v).value.entries;
    EntriesOneByOne(s.names, s.item, v.entries);
    forall i | 0 <= i < |out| ensures Preserved(out[i].value, Get(v.entries, out[i].key)) {
      EntryIsProper(v, i);
      NothingIsAdded(s.item, v.entries[i].value);
    }
  }

  lemma {:induction false} ObjectGainsNothing(shape: seq<Keyed<Schema>>, v: Data)
    requires NoDefaults(Object(shape)) && ProperShapes(Object(shape)) && Proper(v) && Parse(Object(shape), v).Some?
    ensures Preserved(Parse(Object(shape), v).value, v)
    decreases shape
  {
    var out := Parse(Object(shape), v).value.entries;
    ObjectPartByPart(shape, v);
    KeptKeysAreKeys(shape, v.entries);
    assert forall i :: 0 <= i < |out| ==> KeysOf(out)[i] == out[i].key;
    forall k | 0 <= k < |out| ensures Preserved(out[k].value, Get(v.entries, out[k].key)) {
      assert HasKey(shape, KeysOf(out)[k]);
      var j :| 0 <= j < |shape| && shape[j].key == out[k].key;
      assert shape[j] in shape;
      EntryThere(out, k);
      GetIsProper(v.entries, out[k].key);
      NothingIsAdded(shape[j].value, Get(v.entries, out[k].key));
    }
  }

  /**
   What parsing makes of a value. Everything present comes back as it was; and where the schema has no defaults the
   result is the value itself up to the order of keys and to properties that are absent.
   */
  lemma ParseKeepsTheValue(s: Schema, v: Data)
    requires ProperShapes(s) && Proper(v) && Parse(s, v).Some?
    ensures Preserved(v, Parse(s, v).value)
    ensures NoDefaults(s) ==> Preserved(Parse(s, v).value, v)
  {
    PresentIsPreserved(s, v);
    if NoDefaults(s) {
      NothingIsAdded(s, v);
    }
  }

  predicate Equals(n: int, r: real) {
    n as real == r
  }

  /** Integers are the whole numbers the language holds exactly: up to two to the fifty-third, less one. */
  lemma IntegersAreSafe(lowest: real, highest: real, r: real)
    requires lowest <= r <= highest
    ensures Parse(IntegerIn(lowest, highest), Number(Finite(r))).Some? <==>
              (exists n :: Equals(n, r)) && -9007199254740991.0 <= r <= 9007199254740991.0
  {
    if n :| Equals(n, r) {
      assert r.Floor == n;
    }
    assert r == r.Floor as real ==> Equals(r.Floor, r);
  }

  // ------------------------------------------------------------------ the published type

  /** The schema under defaults and optionality, which publish their inner schema's keywords. */
  function Core(s: Schema): Schema {
    match s
    case Default(inner, _) => Core(inner)
    case Optional(inner) => Core(inner)
    case _ => s
  }

  /** The values a published type stands for. */
  predicate OfType(kind: Kind, v: Data) {
    || (kind.StringKind? && v.Str?) || (kind.BooleanKind? && v.Bool?) || (kind.NullKind? && v.Null?)
    || (kind.ArrayKind? && v.List?) || (kind.ObjectKind? && v.Dict?)
    || (kind.NumberKind? && v.Number? && v.n.Finite?)
    || (kind.IntegerKind? && v.Number? && v.n.Finite? && v.n.r == v.n.r.Floor as real)
  }

  /**
   A type is published for all but constants, nullables and unions, and everything the parser returns, apart from the
   absence an optional allows, is of it.
   */
  lemma {:induction false} PublishedTypeHolds(s: Schema, v: Data)
    ensures JsonOf(s).kind.Some? <==> !(Core(s).Literal? || Core(s).Nullable? || Core(s).Union?)
    ensures JsonOf(s).kind.Some? && Parse(s, v).Some? && !Parse(s, v).value.Undefined? ==>
              OfType(JsonOf(s).kind.value, Parse(s, v).value)
    decreases s
  {
    match s
    case Default(inner, filled) => PublishedTypeHolds(inner, if v.Undefined? then filled else v);
    case Optional(inner) => PublishedTypeHolds(inner, v);
    case _ =>
  }
}
