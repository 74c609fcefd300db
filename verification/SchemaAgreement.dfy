/** The walker and the parser accept the same values, on the schemas where that holds. */
module SchemaAgreement {
  import opened Options
  import opened Texts
  import opened Schemas
  import opened SchemaWalker

  /** Every default is a value its own schema parses, and an object names each property once. */
  ghost predicate ValidDefaults(s: Schema) {
    match s
    case Nullable(inner) => ValidDefaults(inner)
    case Default(inner, filled) => ValidDefaults(inner) && Parse(inner, filled).Some?
    case Optional(inner) => ValidDefaults(inner)
    case Union(a, b) => ValidDefaults(a) && ValidDefaults(b)
    case ArrayOf(item, _, _) => ValidDefaults(item)
    case RecordOf(_, item, _) => ValidDefaults(item)
    case Object(shape) => DistinctKeys(shape) && forall m :: m in shape ==> ValidDefaults(m.value)
    case _ => true
  }

  ghost predicate Accepted(s: Schema, v: Data, path: Path) {
    Issues(JsonOf(s), v, path) == []
  }

  // ------------------------------------------------------------------ steps shared by both directions

  lemma DefaultIgnored(json: Json, filled: Data, v: Data, path: Path)
    requires !v.Undefined?
    ensures Issues(json.(default := Some(filled)), v, path) == Issues(json, v, path)
  {
    var other := json.(default := Some(filled));
    assert ArrayIssues(other, v, path) == ArrayIssues(json, v, path);
    assert ObjectIssues(other, v, path) == ObjectIssues(json, v, path);
    assert MapIssues(other, v, path) == MapIssues(json, v, path);
  }

  lemma TwoBranches(a: Json, b: Json, v: Data, path: Path)
    ensures Issues(EMPTY.(anyOf := AnyOf([a, b])), v, path) == []
       <==> Issues(a, v, path) == [] || Issues(b, v, path) == []
  {
    var branches := [a, b];
    assert branches[1..] == [b];
    assert BranchIssues(branches, v, path) == [Issues(a, v, path)] + BranchIssues([b], v, path);
    assert BranchIssues([b], v, path) == [Issues(b, v, path)] + BranchIssues([], v, path);
    var lists := BranchIssues(branches, v, path);
    assert lists == [Issues(a, v, path), Issues(b, v, path)];
    assert [] in lists <==> lists[0] == [] || lists[1] == [];
  }

  lemma NullBranch(v: Data, path: Path)
    ensures Issues(EMPTY.(kind := Some(NullKind)), v, path) == [] <==> v.Null?
  {
  }

  /** Whether a property is required is read off its own schema. */
  lemma {:induction false} RequiredIsOwn(shape: seq<Keyed<Schema>>, i: nat)
    requires DistinctKeys(shape) && i < |shape|
    ensures shape[i].key in RequiredKeys(shape) <==> IsRequired(shape[i].value)
  {
    if i == 0 {
      NotRequiredLater(shape[1..], shape[0].key);
    } else {
      assert shape[0].key != shape[i].key;
      RequiredIsOwn(shape[1..], i - 1);
    }
  }

  lemma {:induction false} NotRequiredLater(shape: seq<Keyed<Schema>>, key: Text)
    requires forall i :: 0 <= i < |shape| ==> shape[i].key != key
    ensures key !in RequiredKeys(shape)
  {
    if shape != [] {
      NotRequiredLater(shape[1..], key);
    }
  }

  ghost predicate RequiredFits(shape: seq<Keyed<Schema>>, required: seq<Text>) {
    forall i :: 0 <= i < |shape| ==> (shape[i].key in required <==> IsRequired(shape[i].value))
  }

  lemma {:induction false} UnknownExactly(shape: seq<Keyed<Schema>>, entries: seq<Keyed<Data>>, path: Path)
    ensures UnknownIssues(PropertyJsons(shape), entries, path) == []
       <==> forall i :: 0 <= i < |entries| ==> HasKey(shape, entries[i].key)
  {
    if entries != [] {
      UnknownExactly(shape, entries[1..], path);
      SameKeys(shape, entries[0].key);
      assert forall i :: 0 < i < |entries| ==> entries[i] == entries[1..][i - 1];
      if forall i :: 0 <= i < |entries[1..]| ==> HasKey(shape, entries[1..][i].key) {
        forall i | 0 < i < |entries| ensures HasKey(shape, entries[i].key) {
          assert HasKey(shape, entries[1..][i - 1].key);
        }
      }
    }
  }

  lemma SameKeys(shape: seq<Keyed<Schema>>, key: Text)
    ensures HasKey(PropertyJsons(shape), key) <==> HasKey(shape, key)
  {
    if i :| 0 <= i < |shape| && shape[i].key == key {
      assert PropertyJsons(shape)[i].key == key;
    }
    if i :| 0 <= i < |shape| && PropertyJsons(shape)[i].key == key {
      assert shape[i].key == key;
    }
  }

  // ------------------------------------------------------------------ what the walker checks of each composite

  lemma ArrayChecks(item: Schema, min: int, max: int, v: Data, path: Path)
    ensures Accepted(ArrayOf(item, min, max), v, path)
       <==> v.List? && min <= |v.items| <= max && ItemIssues(JsonOf(item), v.items, 0, path) == []
  {
    if v.List? {
      var json, of := JsonOf(ArrayOf(item, min, max)), JsonOf(item);
      assert json.items == Some(of);
      assert Issues(json, v, path) == [] + [] + ArrayIssues(json, v, path) + [] + [];
    }
  }

  lemma RecordChecks(names: Pattern, item: Schema, max: int, v: Data, path: Path)
    ensures Accepted(RecordOf(names, item, max), v, path)
       <==> v.Dict? && |v.entries| <= max && EntryIssues(JsonOf(item), Some(names), v.entries, path) == []
  {
    if v.Dict? {
      var json, of := JsonOf(RecordOf(names, item, max)), JsonOf(item);
      assert json.additional == Some(of);
      assert Issues(json, v, path) == [] + [] + [] + [] + MapIssues(json, v, path);
    }
  }

  lemma ObjectChecks(shape: seq<Keyed<Schema>>, v: Data, path: Path)
    ensures Accepted(Object(shape), v, path)
       <==> && v.Dict?
            && (forall i :: 0 <= i < |v.entries| ==> HasKey(shape, v.entries[i].key))
            && PropertyIssues(PropertyJsons(shape), RequiredKeys(shape), v.entries, path) == []
  {
    if v.Dict? {
      UnknownExactly(shape, v.entries, path);
      var json := JsonOf(Object(shape));
      assert json.properties == Properties(PropertyJsons(shape)) && json.required == RequiredKeys(shape);
      assert Issues(json, v, path) == [] + [] + [] + ObjectIssues(json, v, path) + [];
    }
  }

  // ------------------------------------------------------------------ accepted values parse

  /** A value without issues parses, whatever the schema, as long as its defaults are valid. */
  lemma {:induction false} AcceptedParses(s: Schema, v: Data, path: Path)
    requires ValidDefaults(s) && Accepted(s, v, path)
    ensures Parse(s, v).Some?
    decreases s, 0
  {
    match s
    case Nullable(inner) =>
      TwoBranches(JsonOf(inner), EMPTY.(kind := Some(NullKind)), v, path);
      NullBranch(v, path);
      if !v.Null? {
        AcceptedParses(inner, v, path);
      }
    case Default(inner, filled) =>
      if !v.Undefined? {
        DefaultIgnored(JsonOf(inner), filled, v, path);
        AcceptedParses(inner, v, path);
      }
    case Optional(inner) =>
      if !v.Undefined? {
        AcceptedParses(inner, v, path);
      }
    case Union(a, b) =>
      TwoBranches(JsonOf(a), JsonOf(b), v, path);
      if Accepted(a, v, path) {
        AcceptedParses(a, v, path);
      } else {
        AcceptedParses(b, v, path);
      }
    case ArrayOf(item, min, max) =>
      ArrayChecks(item, min, max, v, path);
      ItemsParse(item, v.items, 0, path);
      assert v.items[0..] == v.items;
    case RecordOf(names, item, max) =>
      RecordChecks(names, item, max, v, path);
      EntriesParse(names, item, v.entries, path);
    case Object(shape) =>
      ObjectChecks(shape, v, path);
      forall i | 0 <= i < |shape| ensures shape[i].key in RequiredKeys(shape) <==> IsRequired(shape[i].value) {
        RequiredIsOwn(shape, i);
      }
      ShapeParses(shape, RequiredKeys(shape), v.entries, path);
    case _ =>
  }

  /** The items from a place on are without issues when the one there and those after it are, and parse likewise. */
  lemma FirstItem(item: Schema, items: seq<Data>, from: nat, path: Path)
    requires from < |items|
    ensures ItemIssues(JsonOf(item), items, from, path) == []
       <==> Accepted(item, items[from], path + [Index(from)]) && ItemIssues(JsonOf(item), items, from + 1, path) == []
    ensures ParseItems(item, items[from..]).Some?
       <==> Parse(item, items[from]).Some? && ParseItems(item, items[from + 1..]).Some?
  {
    hide Issues;
    hide Parse;
    assert items[from..][1..] == items[from + 1..];
  }

  lemma {:induction false} ItemsParse(item: Schema, items: seq<Data>, from: nat, path: Path)
    requires ValidDefaults(item) && from <= |items| && ItemIssues(JsonOf(item), items, from, path) == []
    ensures ParseItems(item, items[from..]).Some?
    decreases item, 1 + |items| - from
  {
    if from < |items| {
      hide *;
      FirstItem(item, items, from, path);
      AcceptedParses(item, items[from], path + [Index(from)]);
      ItemsParse(item, items, from + 1, path);
    }
  }

  lemma {:induction false} EntriesParse(names: Pattern, item: Schema, entries: seq<Keyed<Data>>, path: Path)
    requires ValidDefaults(item) && EntryIssues(JsonOf(item), Some(names), entries, path) == []
    ensures ParseEntries(names, item, entries).Some?
    decreases item, 1 + |entries|
  {
    if entries != [] {
      AcceptedParses(item, entries[0].value, path + [Property(entries[0].key)]);
      EntriesParse(names, item, entries[1..], path);
    }
  }

  lemma {:induction false} ShapeParses(shape: seq<Keyed<Schema>>, required: seq<Text>, entries: seq<Keyed<Data>>,
                                       path: Path)
    requires RequiredFits(shape, required) && forall m :: m in shape ==> ValidDefaults(m.value)
    requires PropertyIssues(PropertyJsons(shape), required, entries, path) == []
    ensures ParseShape(shape, entries).Some?
    decreases shape, 1
  {
    if shape != [] {
      var key, s := shape[0].key, shape[0].value;
      assert PropertyJsons(shape)[1..] == PropertyJsons(shape[1..]);
      assert OneProperty(key, JsonOf(s), required, Get(entries, key), path) == [];
      PropertyParses(key, s, required, Get(entries, key), path);
      ShapeParses(shape[1..], required, entries, path);
    }
  }

  lemma {:induction false} PropertyParses(key: Text, s: Schema, required: seq<Text>, v: Data, path: Path)
    requires ValidDefaults(s) && (key in required <==> IsRequired(s))
    requires OneProperty(key, JsonOf(s), required, v, path) == []
    ensures Parse(s, v).Some?
    decreases s, 1
  {
    if v.Undefined? && JsonOf(s).default.None? {
      assert s.Optional?;
    } else {
      AcceptedParses(s, v, path + [Property(key)]);
    }
  }

  // ------------------------------------------------------------------ an absent value

  /** The parser takes `undefined`. */
  predicate ParserTakesAbsent(s: Schema) {
    match s
    case Optional(_) => true
    case Default(_, _) => true
    case Nullable(inner) => ParserTakesAbsent(inner)
    case Union(a, b) => ParserTakesAbsent(a) || ParserTakesAbsent(b)
    case _ => false
  }

  /** The walker takes `undefined` where no property is expected. */
  predicate WalkerTakesAbsent(s: Schema) {
    match s
    case Optional(inner) => WalkerTakesAbsent(inner)
    case Default(_, _) => true
    case Nullable(inner) => WalkerTakesAbsent(inner)
    case Union(a, b) => WalkerTakesAbsent(a) || WalkerTakesAbsent(b)
    case _ => false
  }

  /** The walker takes an object that lacks this property. */
  predicate WalkerTakesLack(s: Schema) {
    s.Optional? || JsonOf(s).default.Some?
  }

  lemma {:induction false} ParserAbsent(s: Schema)
    requires ValidDefaults(s)
    ensures Parse(s, Undefined).Some? <==> ParserTakesAbsent(s)
  {
    match s
    case Nullable(inner) => ParserAbsent(inner);
    case Union(a, b) =>
      ParserAbsent(a);
      ParserAbsent(b);
    case _ =>
  }

  lemma {:induction false} WalkerAbsent(s: Schema, path: Path)
    ensures Accepted(s, Undefined, path) <==> WalkerTakesAbsent(s)
    ensures JsonOf(s).default.Some? ==> WalkerTakesAbsent(s)
  {
    match s
    case Nullable(inner) =>
      TwoBranches(JsonOf(inner), EMPTY.(kind := Some(NullKind)), Undefined, path);
      NullBranch(Undefined, path);
      WalkerAbsent(inner, path);
    case Optional(inner) => WalkerAbsent(inner, path);
    case Union(a, b) =>
      TwoBranches(JsonOf(a), JsonOf(b), Undefined, path);
      WalkerAbsent(a, path);
      WalkerAbsent(b, path);
    case _ =>
  }

  // ------------------------------------------------------------------ parsed values are accepted

  /**
   The schemas on which both agree: no listed text holds a NUL, and where a part may be absent, the walker
   takes its absence whenever the parser does.
   */
  ghost predicate Agreeing(s: Schema) {
    match s
    case Enum(values) => forall x :: x in values ==> NUL !in x
    case Nullable(inner) => Agreeing(inner)
    case Default(inner, _) => Agreeing(inner)
    case Optional(inner) => Agreeing(inner)
    case Union(a, b) => Agreeing(a) && Agreeing(b)
    case ArrayOf(item, _, _) => Agreeing(item) && (ParserTakesAbsent(item) ==> WalkerTakesAbsent(item))
    case RecordOf(_, item, _) => Agreeing(item) && (ParserTakesAbsent(item) ==> WalkerTakesAbsent(item))
    case Object(shape) =>
      forall m :: m in shape ==> Agreeing(m.value) && (ParserTakesAbsent(m.value) ==> WalkerTakesLack(m.value))
    case _ => true
  }

  lemma {:induction false} ParsedAccepted(s: Schema, v: Data, path: Path)
    requires Agreeing(s) && ValidDefaults(s) && Parse(s, v).Some?
    requires v.Undefined? ==> WalkerTakesAbsent(s)
    ensures Accepted(s, v, path)
    decreases s, 0
  {
    if v.Undefined? {
      WalkerAbsent(s, path);
      return;
    }
    match s
    case Nullable(inner) =>
      TwoBranches(JsonOf(inner), EMPTY.(kind := Some(NullKind)), v, path);
      NullBranch(v, path);
      if !v.Null? {
        ParsedAccepted(inner, v, path);
      }
    case Default(inner, filled) =>
      DefaultIgnored(JsonOf(inner), filled, v, path);
      ParsedAccepted(inner, v, path);
    case Optional(inner) => ParsedAccepted(inner, v, path);
    case Union(a, b) =>
      TwoBranches(JsonOf(a), JsonOf(b), v, path);
      if Parse(a, v).Some? {
        ParsedAccepted(a, v, path);
      } else {
        ParsedAccepted(b, v, path);
      }
    case ArrayOf(item, min, max) =>
      assert v.items[0..] == v.items;
      ParsedItems(item, v.items, 0, path);
      ArrayChecks(item, min, max, v, path);
    case RecordOf(names, item, max) =>
      ParsedEntries(names, item, v.entries, path);
      RecordChecks(names, item, max, v, path);
    case Object(shape) =>
      ObjectChecks(shape, v, path);
      forall i | 0 <= i < |shape| ensures shape[i].key in RequiredKeys(shape) <==> IsRequired(shape[i].value) {
        RequiredIsOwn(shape, i);
      }
      ParsedShape(shape, RequiredKeys(shape), v.entries, path);
    case _ =>
  }

  lemma {:induction false} ParsedItems(item: Schema, items: seq<Data>, from: nat, path: Path)
    requires Agreeing(item) && ValidDefaults(item) && (ParserTakesAbsent(item) ==> WalkerTakesAbsent(item))
    requires from <= |items| && ParseItems(item, items[from..]).Some?
    ensures ItemIssues(JsonOf(item), items, from, path) == []
    decreases item, 1 + |items| - from
  {
    if from < |items| {
      hide *;
      FirstItem(item, items, from, path);
      ParserAbsent(item);
      ParsedAccepted(item, items[from], path + [Index(from)]);
      ParsedItems(item, items, from + 1, path);
    }
  }

  lemma {:induction false} ParsedEntries(names: Pattern, item: Schema, entries: seq<Keyed<Data>>, path: Path)
    requires Agreeing(item) && ValidDefaults(item) && (ParserTakesAbsent(item) ==> WalkerTakesAbsent(item))
    requires ParseEntries(names, item, entries).Some?
    ensures EntryIssues(JsonOf(item), Some(names), entries, path) == []
    decreases item, 1 + |entries|
  {
    if entries != [] {
      ParserAbsent(item);
      ParsedAccepted(item, entries[0].value, path + [Property(entries[0].key)]);
      ParsedEntries(names, item, entries[1..], path);
    }
  }

  lemma {:induction false} ParsedShape(shape: seq<Keyed<Schema>>, required: seq<Text>, entries: seq<Keyed<Data>>,
                                       path: Path)
    requires forall m :: m in shape ==> Agreeing(m.value) && (ParserTakesAbsent(m.value) ==> WalkerTakesLack(m.value))
    requires RequiredFits(shape, required) && forall m :: m in shape ==> ValidDefaults(m.value)
    requires ParseShape(shape, entries).Some?
    ensures PropertyIssues(PropertyJsons(shape), required, entries, path) == []
    decreases shape, 1
  {
    if shape != [] {
      var key, s := shape[0].key, shape[0].value;
      assert PropertyJsons(shape)[1..] == PropertyJsons(shape[1..]);
      assert shape[0] in shape;
      ParsedProperty(key, s, required, Get(entries, key), path);
      ParsedShape(shape[1..], required, entries, path);
    }
  }

  lemma {:induction false} ParsedProperty(key: Text, s: Schema, required: seq<Text>, v: Data, path: Path)
    requires ValidDefaults(s) && Agreeing(s) && (ParserTakesAbsent(s) ==> WalkerTakesLack(s))
    requires (key in required <==> IsRequired(s)) && Parse(s, v).Some?
    ensures OneProperty(key, JsonOf(s), required, v, path) == []
    decreases s, 1
  {
    if v.Undefined? {
      ParserAbsent(s);
      WalkerAbsent(s, path + [Property(key)]);
    } else {
      ParsedAccepted(s, v, path + [Property(key)]);
    }
  }

  /** Walker and parser accept the same values, absent ones aside; of those each takes what is said of it. */
  lemma WalkerAgrees(s: Schema, v: Data, path: Path)
    requires Agreeing(s) && ValidDefaults(s)
    ensures !v.Undefined? ==> (Accepted(s, v, path) <==> Parse(s, v).Some?)
    ensures Accepted(s, Undefined, path) <==> WalkerTakesAbsent(s)
    ensures Parse(s, Undefined).Some? <==> ParserTakesAbsent(s)
  {
    WalkerAbsent(s, path);
    ParserAbsent(s);
    if !v.Undefined? {
      if Accepted(s, v, path) {
        AcceptedParses(s, v, path);
      }
      if Parse(s, v).Some? {
        ParsedAccepted(s, v, path);
      }
    }
  }

  // ------------------------------------------------------------------ where they must disagree

  ghost predicate UnionFree(s: Schema) {
    match s
    case Nullable(inner) => UnionFree(inner)
    case Default(inner, _) => UnionFree(inner)
    case Optional(inner) => UnionFree(inner)
    case Union(_, _) => false
    case ArrayOf(item, _, _) => UnionFree(item)
    case RecordOf(_, item, _) => UnionFree(item)
    case Object(shape) => forall m :: m in shape ==> UnionFree(m.value)
    case _ => true
  }

  /** No part of the schema is without values, so a fault in any part shows. */
  ghost predicate Living(s: Schema) {
    && (exists v: Data :: !v.Undefined? && Parse(s, v).Some?)
    && match s
       case Nullable(inner) => Living(inner)
       case Default(inner, _) => Living(inner)
       case Optional(inner) => Living(inner)
       case Union(a, b) => Living(a) && Living(b)
       case ArrayOf(item, min, max) => Living(item) && min <= max && 1 <= max
       case RecordOf(names, item, max) => Living(item) && 1 <= max && exists key: Text :: names(key)
       case Object(shape) => forall m :: m in shape ==> Living(m.value)
       case _ => true
  }

  /** A value the parser takes and the walker does not. */
  ghost predicate Disputed(s: Schema, v: Data, path: Path) {
    Parse(s, v).Some? && !Accepted(s, v, path)
  }

  lemma {:induction false} NullUndisputed(s: Schema, path: Path)
    requires UnionFree(s)
    ensures !Disputed(s, Null, path)
  {
    match s
    case Nullable(inner) =>
      TwoBranches(JsonOf(inner), EMPTY.(kind := Some(NullKind)), Null, path);
      NullBranch(Null, path);
    case Default(inner, filled) =>
      DefaultIgnored(JsonOf(inner), filled, Null, path);
      NullUndisputed(inner, path);
    case Optional(inner) => NullUndisputed(inner, path);
    case _ =>
  }

  lemma {:induction false} ItemsDisputed(item: Schema, v: Data, items: seq<Data>, from: nat, path: Path)
    requires forall p: Path :: Disputed(item, v, p)
    requires from <= |items| && forall i :: 0 <= i < |items| ==> items[i] == v
    ensures ParseItems(item, items[from..]).Some?
    ensures from < |items| ==> ItemIssues(JsonOf(item), items, from, path) != []
    decreases |items| - from
  {
    if from < |items| {
      assert items[from..][1..] == items[from + 1..];
      ItemsDisputed(item, v, items, from + 1, path);
      assert Disputed(item, v, path + [Index(from)]);
    }
  }

  lemma ArrayDisputed(item: Schema, min: int, max: int, v: Data) returns (w: Data)
    requires min <= max && 1 <= max && forall p: Path :: Disputed(item, v, p)
    ensures !w.Undefined? && forall p: Path :: Disputed(ArrayOf(item, min, max), w, p)
  {
    var items := seq(if min <= 1 then 1 else min, _ => v);
    w := List(items);
    forall p: Path ensures Disputed(ArrayOf(item, min, max), w, p) {
      ItemsDisputed(item, v, items, 0, p);
      assert items[0..] == items;
      ArrayChecks(item, min, max, w, p);
    }
  }

  lemma RecordDisputed(names: Pattern, item: Schema, max: int, v: Data) returns (w: Data)
    requires 1 <= max && (exists key: Text :: names(key)) && forall p: Path :: Disputed(item, v, p)
    ensures !w.Undefined? && forall p: Path :: Disputed(RecordOf(names, item, max), w, p)
  {
    var key: Text :| names(key);
    var entries := [Keyed(key, v)];
    w := Dict(entries);
    forall p: Path ensures Disputed(RecordOf(names, item, max), w, p) {
      assert Disputed(item, v, p + [Property(key)]);
      assert Parse(item, entries[0].value).Some? && ParseEntries(names, item, entries[1..]) == Some([]);
      RecordChecks(names, item, max, w, p);
    }
  }

  lemma {:induction false} GetAt(entries: seq<Keyed<Data>>, i: nat)
    requires i < |entries| && forall j :: 0 <= j < i ==> entries[j].key != entries[i].key
    ensures Get(entries, entries[i].key) == entries[i].value
  {
    if i > 0 {
      GetAt(entries[1..], i - 1);
    }
  }

  lemma {:induction false} ShapeTakes(shape: seq<Keyed<Schema>>, entries: seq<Keyed<Data>>)
    requires forall i :: 0 <= i < |shape| ==> Parse(shape[i].value, Get(entries, shape[i].key)).Some?
    ensures ParseShape(shape, entries).Some?
  {
    if shape != [] {
      ShapeTakes(shape[1..], entries);
    }
  }

  lemma {:induction false} PropertyDisputed(shape: seq<Keyed<Schema>>, k: nat, required: seq<Text>,
                                            entries: seq<Keyed<Data>>, path: Path)
    requires k < |shape|
    requires OneProperty(shape[k].key, JsonOf(shape[k].value), required, Get(entries, shape[k].key), path) != []
    ensures PropertyIssues(PropertyJsons(shape), required, entries, path) != []
  {
    assert PropertyJsons(shape)[1..] == PropertyJsons(shape[1..]);
    if k > 0 {
      PropertyDisputed(shape[1..], k - 1, required, entries, path);
    }
  }

  ghost function Sample(s: Schema): (v: Data)
    requires exists v: Data :: !v.Undefined? && Parse(s, v).Some?
    ensures !v.Undefined? && Parse(s, v).Some?
  {
    var v: Data :| !v.Undefined? && Parse(s, v).Some?;
    v
  }

  lemma LivingHasSample(s: Schema)
    requires Living(s)
    ensures exists v: Data :: !v.Undefined? && Parse(s, v).Some?
  {
  }

  /** A value for each property: a sample, or `v` for the k-th. */
  lemma Samples(shape: seq<Keyed<Schema>>, k: nat, v: Data) returns (values: seq<Data>)
    requires k < |shape| && Parse(shape[k].value, v).Some? && forall m :: m in shape ==> Living(m.value)
    ensures |values| == |shape| && values[k] == v
    ensures forall i :: 0 <= i < |shape| ==> Parse(shape[i].value, values[i]).Some?
  {
    hide Parse;
    hide Living;
    forall i | 0 <= i < |shape| ensures exists w: Data :: !w.Undefined? && Parse(shape[i].value, w).Some? {
      LivingHasSample(shape[i].value);
    }
    values := seq(|shape|, i requires 0 <= i < |shape| => if i == k then v else Sample(shape[i].value));
  }

  /** An object with a sample at every property but the k-th, which holds `v`. */
  lemma SampleObject(shape: seq<Keyed<Schema>>, k: nat, v: Data) returns (entries: seq<Keyed<Data>>)
    requires DistinctKeys(shape) && k < |shape| && Parse(shape[k].value, v).Some?
    requires forall m :: m in shape ==> Living(m.value)
    ensures Get(entries, shape[k].key) == v && Parse(Object(shape), Dict(entries)).Some?
  {
    var values := Samples(shape, k, v);
    entries := seq(|shape|, i requires 0 <= i < |shape| => Keyed(shape[i].key, values[i]));
    forall i | 0 <= i < |shape| ensures Get(entries, shape[i].key) == values[i] {
      GetAt(entries, i);
    }
    ShapeTakes(shape, entries);
    forall i | 0 <= i < |entries| ensures HasKey(shape, entries[i].key) {
      assert shape[i].key == entries[i].key;
    }
  }

  lemma ObjectDisputed(shape: seq<Keyed<Schema>>, k: nat, v: Data) returns (w: Data)
    requires DistinctKeys(shape) && k < |shape| && Parse(shape[k].value, v).Some?
    requires forall m :: m in shape ==> Living(m.value)
    requires if v.Undefined? then !WalkerTakesLack(shape[k].value)
             else forall p: Path :: Disputed(shape[k].value, v, p)
    ensures !w.Undefined? && forall p: Path :: Disputed(Object(shape), w, p)
  {
    var entries := SampleObject(shape, k, v);
    w := Dict(entries);
    RequiredIsOwn(shape, k);
    forall p: Path ensures Disputed(Object(shape), w, p) {
      if !v.Undefined? {
        assert Disputed(shape[k].value, v, p + [Property(shape[k].key)]);
      }
      PropertyDisputed(shape, k, RequiredKeys(shape), entries, p);
      ObjectChecks(shape, w, p);
    }
  }

  lemma {:induction false} DisputeExists(s: Schema) returns (v: Data)
    requires UnionFree(s) && ValidDefaults(s) && Living(s) && !Agreeing(s)
    ensures !v.Undefined? && forall p: Path :: Disputed(s, v, p)
    decreases s, 0
  {
    match s
    case Enum(values) =>
      var x :| x in values && NUL in x;
      v := Str(x);
      forall p: Path ensures Disputed(s, v, p) {
        assert TextIssues(JsonOf(s), v, p) != [];
      }
    case Nullable(inner) =>
      v := DisputeExists(inner);
      forall p: Path ensures Disputed(s, v, p) {
        assert Disputed(inner, v, p);
        NullUndisputed(inner, p);
        TwoBranches(JsonOf(inner), EMPTY.(kind := Some(NullKind)), v, p);
        NullBranch(v, p);
      }
    case Default(inner, filled) =>
      v := DisputeExists(inner);
      forall p: Path ensures Disputed(s, v, p) {
        assert Disputed(inner, v, p);
        DefaultIgnored(JsonOf(inner), filled, v, p);
      }
    case Optional(inner) =>
      v := DisputeExists(inner);
      forall p: Path ensures Disputed(s, v, p) {
        assert Disputed(inner, v, p);
      }
    case ArrayOf(item, min, max) =>
      v := PartDisputed(item);
      v := ArrayDisputed(item, min, max, v);
    case RecordOf(names, item, max) =>
      v := PartDisputed(item);
      v := RecordDisputed(names, item, max, v);
    case Object(shape) =>
      var m :| m in shape
        && !(Agreeing(m.value) && (ParserTakesAbsent(m.value) ==> WalkerTakesLack(m.value)));
      var k :| 0 <= k < |shape| && shape[k] == m;
      if Agreeing(m.value) {
        ParserAbsent(m.value);
        v := ObjectDisputed(shape, k, Undefined);
      } else {
        v := DisputeExists(m.value);
        assert Disputed(m.value, v, []);
        v := ObjectDisputed(shape, k, v);
      }
    case _ =>
  }

  lemma {:induction false} PartDisputed(item: Schema) returns (v: Data)
    requires UnionFree(item) && ValidDefaults(item) && Living(item)
    requires !(Agreeing(item) && (ParserTakesAbsent(item) ==> WalkerTakesAbsent(item)))
    ensures forall p: Path :: Disputed(item, v, p)
    decreases item, 1
  {
    if Agreeing(item) {
      v := Undefined;
      ParserAbsent(item);
      forall p: Path ensures Disputed(item, v, p) {
        WalkerAbsent(item, p);
      }
    } else {
      v := DisputeExists(item);
    }
  }

  /** Without unions and with values for every part, the two agree on every present value exactly on these schemas. */
  lemma AgreesExactly(s: Schema)
    requires UnionFree(s) && ValidDefaults(s) && Living(s)
    ensures Agreeing(s)
       <==> forall v: Data, p: Path :: !v.Undefined? ==> (Accepted(s, v, p) <==> Parse(s, v).Some?)
  {
    if Agreeing(s) {
      forall v: Data, p: Path | !v.Undefined? ensures Accepted(s, v, p) <==> Parse(s, v).Some? {
        WalkerAgrees(s, v, p);
      }
    } else {
      var v := DisputeExists(s);
      assert Disputed(s, v, []);
      assert !(Accepted(s, v, []) <==> Parse(s, v).Some?);
    }
  }

  // ------------------------------------------------------------------ schemas as they are meant to be built

  /** Only an object property is optional, and neither `nullable` nor `union` wraps a default. */
  ghost predicate Plain(s: Schema, asProperty: bool) {
    match s
    case Enum(values) => forall x :: x in values ==> NUL !in x
    case Nullable(inner) => !inner.Default? && Plain(inner, false)
    case Default(inner, _) => Plain(inner, false)
    case Optional(inner) => asProperty && Plain(inner, false)
    case Union(a, b) => !a.Default? && !b.Default? && Plain(a, false) && Plain(b, false)
    case ArrayOf(item, _, _) => Plain(item, false)
    case RecordOf(_, item, _) => Plain(item, false)
    case Object(shape) => forall m :: m in shape ==> Plain(m.value, true)
    case _ => true
  }

  lemma {:induction false} PlainAgrees(s: Schema, asProperty: bool)
    requires Plain(s, asProperty)
    ensures Agreeing(s)
    ensures ParserTakesAbsent(s) ==> s.Default? || s.Optional?
  {
    match s
    case Nullable(inner) => PlainAgrees(inner, false);
    case Default(inner, _) => PlainAgrees(inner, false);
    case Optional(inner) => PlainAgrees(inner, false);
    case Union(a, b) =>
      PlainAgrees(a, false);
      PlainAgrees(b, false);
    case ArrayOf(item, _, _) => PlainAgrees(item, false);
    case RecordOf(_, item, _) => PlainAgrees(item, false);
    case Object(shape) =>
      forall m | m in shape
        ensures Agreeing(m.value) && (ParserTakesAbsent(m.value) ==> WalkerTakesLack(m.value))
      {
        PlainAgrees(m.value, true);
      }
    case _ =>
  }

  /** A listed text with a NUL is parsed and yet reported. */
  lemma NulInEnumDisputed(path: Path)
    ensures Disputed(Enum([[NUL]]), Str([NUL]), path)
  {
    assert TextIssues(JsonOf(Enum([[NUL]])), Str([NUL]), path) != [];
  }

  /** A nullable optional property may be absent for the parser and not for the walker. */
  lemma NullableOptionalDisputed(key: Text, path: Path)
    ensures Disputed(Object([Keyed(key, Nullable(Optional(Boolean)))]), Dict([]), path)
  {
    LackDisputed(key, Nullable(Optional(Boolean)), path);
  }

  /** A union with a default behind one branch may be absent for the parser and not for the walker. */
  lemma UnionDefaultDisputed(key: Text, path: Path)
    ensures Disputed(Object([Keyed(key, Union(Boolean, Default(Boolean, Bool(true))))]), Dict([]), path)
  {
    LackDisputed(key, Union(Boolean, Default(Boolean, Bool(true))), path);
  }

  lemma LackDisputed(key: Text, s: Schema, path: Path)
    requires Parse(s, Undefined).Some? && !WalkerTakesLack(s)
    ensures Disputed(Object([Keyed(key, s)]), Dict([]), path)
  {
    var shape := [Keyed(key, s)];
    ShapeTakes(shape, []);
    RequiredIsOwn(shape, 0);
    PropertyDisputed(shape, 0, RequiredKeys(shape), [], path);
    ObjectChecks(shape, Dict([]), path);
  }

  // ------------------------------------------------------------------ the two in sequence

  /** The walker's issues, then the parser as a safety net: with valid defaults the net catches nothing. */
  method SchemaIssues(s: Schema, v: Data) returns (value: Option<Data>, issues: seq<Issue>, caught: bool)
    ensures value.Some? <==> issues == [] && !caught
    ensures value.Some? ==> value == Parse(s, v)
    ensures issues == Issues(JsonOf(s), v, [])
    ensures ValidDefaults(s) ==> !caught
  {
    caught := false;
    issues := ListIssues(JsonOf(s), v, []);
    if issues != [] {
      return None, issues, false;
    }
    value := Parse(s, v);
    caught := value.None?;
    assert ValidDefaults(s) ==> value.Some? by {
      if ValidDefaults(s) {
        AcceptedParses(s, v, []);
      }
    }
  }
}
