/** Parsing what was parsed. */
module SchemaParsing {
  import opened Options
  import opened Texts
  import opened Schemas
  import opened SchemaAgreement

  /** Only an absent value parses to an absent value. */
  lemma {:induction false} PresentStays(s: Schema, v: Data)
    requires !v.Undefined?
    ensures Parse(s, v) != Some(Undefined)
  {
    match s
    case Nullable(inner) => PresentStays(inner, v);
    case Default(inner, _) => PresentStays(inner, v);
    case Optional(inner) => PresentStays(inner, v);
    case Union(a, b) =>
      PresentStays(a, v);
      PresentStays(b, v);
    case _ =>
  }

  // ------------------------------------------------------------------ unions

  /** What the value parses to, if anything, parses to itself. */
  predicate SettlesAt(s: Schema, v: Data) {
    Parse(s, v).Some? ==> Parse(s, Parse(s, v).value) == Parse(s, v)
  }

  /** The first branch, which refused the value, neither takes nor changes what the second made of it. */
  predicate NotRetakenAt(a: Schema, b: Schema, v: Data) {
    Parse(a, v).None? && Parse(b, v).Some? ==>
      var r := Parse(b, v).value; Parse(a, r).None? || Parse(a, r) == Some(r)
  }

  /** No value that the first branch refuses is made by the second into one that the first takes and changes. */
  ghost predicate NoneRetaken(a: Schema, b: Schema) {
    forall v :: NotRetakenAt(a, b, v)
  }

  /** Exactly where a union of branches that settle there does: where the first does not retake the result. */
  lemma UnionSettlesAtExactly(a: Schema, b: Schema, v: Data)
    requires SettlesAt(a, v) && SettlesAt(b, v)
    ensures SettlesAt(Union(a, b), v) <==>
              || Parse(a, v).Some? || Parse(b, v).None?
              || Parse(a, Parse(b, v).value).None? || Parse(a, Parse(b, v).value) == Some(Parse(b, v).value)
  {
    assert Parse(a, v).Some? ==> Parse(Union(a, b), v) == Parse(a, v);
    assert Parse(a, v).None? ==> Parse(Union(a, b), v) == Parse(b, v);
  }

  /** A union of branches that settle everywhere does so exactly when nothing is retaken. */
  lemma UnionSettlesExactly(a: Schema, b: Schema)
    requires forall v :: SettlesAt(a, v) && SettlesAt(b, v)
    ensures (forall v :: SettlesAt(Union(a, b), v)) <==> NoneRetaken(a, b)
  {
    hide SettlesAt;
    hide NotRetakenAt;
    forall v ensures SettlesAt(Union(a, b), v) <==> NotRetakenAt(a, b, v) {
      NotRetakenSettles(a, b, v);
    }
  }

  lemma NotRetakenSettles(a: Schema, b: Schema, v: Data)
    requires SettlesAt(a, v) && SettlesAt(b, v)
    ensures SettlesAt(Union(a, b), v) <==> NotRetakenAt(a, b, v)
  {
    UnionSettlesAtExactly(a, b, v);
    hide Parse;
  }

  /** Nothing is retaken in any union of the schema. */
  ghost predicate Settling(s: Schema) {
    match s
    case Nullable(inner) => Settling(inner)
    case Default(inner, _) => Settling(inner)
    case Optional(inner) => Settling(inner)
    case Union(a, b) => Settling(a) && Settling(b) && NoneRetaken(a, b)
    case ArrayOf(item, _, _) => Settling(item)
    case RecordOf(_, item, _) => Settling(item)
    case Object(shape) => forall m :: m in shape ==> Settling(m.value)
    case _ => true
  }

  /** What kind of value a value is. */
  datatype Sort = Absent | Nil | Truth | Numeral | Chars | Items | Members

  function SortOf(v: Data): Sort {
    match v
    case Undefined => Absent
    case Null => Nil
    case Bool(_) => Truth
    case Number(_) => Numeral
    case Str(_) => Chars
    case List(_) => Items
    case Dict(_) => Members
  }

  /** The sorts of the values a schema takes. */
  function Takes(s: Schema): set<Sort> {
    match s
    case StringOf(_, _, _) => {Chars}
    case IntegerIn(_, _) => {Numeral}
    case FiniteIn(_, _) => {Numeral}
    case Boolean => {Truth}
    case Enum(_) => {Chars}
    case Literal(c) => {SortOf(DataOf(c))}
    case Nullable(inner) => {Nil} + Takes(inner)
    case Default(inner, _) => {Absent} + Takes(inner)
    case Optional(inner) => {Absent} + Takes(inner)
    case Union(a, b) => Takes(a) + Takes(b)
    case ArrayOf(_, _, _) => {Items}
    case RecordOf(_, _, _) => {Members}
    case Object(_) => {Members}
  }

  /** The sorts of what it makes of them: a default is never given back as absent. */
  function Gives(s: Schema): set<Sort> {
    match s
    case Nullable(inner) => {Nil} + Gives(inner)
    case Default(inner, _) => Gives(inner)
    case Optional(inner) => {Absent} + Gives(inner)
    case Union(a, b) => Gives(a) + Gives(b)
    case _ => Takes(s)
  }

  lemma {:induction false} ParsedSorts(s: Schema, v: Data)
    requires Parse(s, v).Some?
    ensures SortOf(v) in Takes(s) && SortOf(Parse(s, v).value) in Gives(s)
  {
    match s
    case Nullable(inner) =>
      if !v.Null? {
        ParsedSorts(inner, v);
      }
    case Default(inner, filled) => ParsedSorts(inner, if v.Undefined? then filled else v);
    case Optional(inner) =>
      if !v.Undefined? {
        ParsedSorts(inner, v);
      }
    case Union(a, b) =>
      if Parse(a, v).Some? {
        ParsedSorts(a, v);
      } else {
        ParsedSorts(b, v);
      }
    case _ =>
  }

  /** The first is an object that demands a property the second, an object too, does not know. */
  predicate Demands(a: Schema, b: Schema) {
    && a.Object? && b.Object?
    && exists i :: 0 <= i < |a.shape| && !HasKey(b.shape, a.shape[i].key) && Parse(a.shape[i].value, Undefined).None?
  }

  lemma {:induction false} LackIsRefused(shape: seq<Keyed<Schema>>, entries: seq<Keyed<Data>>, i: nat)
    requires i < |shape| && Parse(shape[i].value, Get(entries, shape[i].key)).None?
    ensures ParseShape(shape, entries).None?
  {
    if i > 0 {
      LackIsRefused(shape[1..], entries, i - 1);
    }
  }

  lemma DemandIsNotMet(a: Schema, b: Schema, v: Data)
    requires Demands(a, b) && Parse(b, v).Some?
    ensures Parse(a, Parse(b, v).value).None?
  {
    var out := ParseShape(b.shape, v.entries).value;
    var i :| 0 <= i < |a.shape| && !HasKey(b.shape, a.shape[i].key) && Parse(a.shape[i].value, Undefined).None?;
    ParsedKeys(b.shape, v.entries);
    NotHeld(out, a.shape[i].key);
    LackIsRefused(a.shape, out, i);
  }

  /** In every union, what the second branch gives is no value for the first, by its sort or for lack of a property. */
  predicate BranchesApart(s: Schema) {
    match s
    case Nullable(inner) => BranchesApart(inner)
    case Default(inner, _) => BranchesApart(inner)
    case Optional(inner) => BranchesApart(inner)
    case Union(a, b) => BranchesApart(a) && BranchesApart(b) && (Takes(a) !! Gives(b) || Demands(a, b))
    case ArrayOf(item, _, _) => BranchesApart(item)
    case RecordOf(_, item, _) => BranchesApart(item)
    case Object(shape) => forall i :: 0 <= i < |shape| ==> BranchesApart(shape[i].value)
    case _ => true
  }

  lemma ApartIsRefused(a: Schema, b: Schema, v: Data)
    requires (Takes(a) !! Gives(b) || Demands(a, b)) && Parse(b, v).Some?
    ensures Parse(a, Parse(b, v).value).None?
  {
    if Demands(a, b) {
      DemandIsNotMet(a, b, v);
    } else {
      ParsedSorts(b, v);
      if Parse(a, Parse(b, v).value).Some? {
        ParsedSorts(a, Parse(b, v).value);
      }
    }
  }

  /**
   A condition read off the schema: unions settle whose branches are of different sorts (a text or a list, a text
   or an object), or are objects of which the first demands a property that the second does not know.
   */
  lemma {:induction false} ApartSettles(s: Schema)
    requires BranchesApart(s)
    ensures Settling(s)
  {
    match s
    case Nullable(inner) => ApartSettles(inner);
    case Default(inner, _) => ApartSettles(inner);
    case Optional(inner) => ApartSettles(inner);
    case Union(a, b) =>
      ApartSettles(a);
      ApartSettles(b);
      forall v ensures NotRetakenAt(a, b, v) {
        if Parse(b, v).Some? {
          ApartIsRefused(a, b, v);
        }
      }
    case ArrayOf(item, _, _) => ApartSettles(item);
    case RecordOf(_, item, _) => ApartSettles(item);
    case Object(shape) =>
      forall i | 0 <= i < |shape| ensures Settling(shape[i].value) {
        ApartSettles(shape[i].value);
      }
    case _ =>
  }

  // ------------------------------------------------------------------ parsing settles

  /** Where no union retakes a value, a parsed value parses to itself: defaults and omissions settle at once. */
  lemma {:induction false} ParseSettles(s: Schema, v: Data)
    requires Settling(s) && ValidDefaults(s) && Parse(s, v).Some?
    ensures Parse(s, Parse(s, v).value) == Parse(s, v)
    decreases s, 0
  {
    match s
    case Nullable(inner) =>
      if !v.Null? {
        ParseSettles(inner, v);
      }
    case Default(inner, filled) =>
      ParseSettles(inner, if v.Undefined? then filled else v);
      if !v.Undefined? {
        PresentStays(inner, v);
      }
    case Optional(inner) =>
      if !v.Undefined? {
        PresentStays(inner, v);
        ParseSettles(inner, v);
      }
    case Union(a, b) =>
      if Parse(a, v).Some? {
        ParseSettles(a, v);
      } else {
        ParseSettles(b, v);
        assert NotRetakenAt(a, b, v);
      }
    case ArrayOf(item, min, max) => ItemsSettle(item, v.items);
    case RecordOf(names, item, max) => EntriesSettle(names, item, v.entries);
    case Object(shape) => ObjectSettles(shape, v);
    case _ =>
  }

  lemma {:induction false} ItemsSettle(item: Schema, items: seq<Data>)
    requires Settling(item) && ValidDefaults(item) && ParseItems(item, items).Some?
    ensures ParseItems(item, ParseItems(item, items).value) == ParseItems(item, items)
    ensures |ParseItems(item, items).value| == |items|
    decreases item, 1 + |items|
  {
    if items != [] {
      ParseSettles(item, items[0]);
      ItemsSettle(item, items[1..]);
      assert ParseItems(item, items).value[1..] == ParseItems(item, items[1..]).value;
    }
  }

  lemma {:induction false} EntriesSettle(names: Pattern, item: Schema, entries: seq<Keyed<Data>>)
    requires Settling(item) && ValidDefaults(item) && ParseEntries(names, item, entries).Some?
    ensures ParseEntries(names, item, ParseEntries(names, item, entries).value) == ParseEntries(names, item, entries)
    ensures |ParseEntries(names, item, entries).value| == |entries|
    decreases item, 1 + |entries|
  {
    if entries != [] {
      ParseSettles(item, entries[0].value);
      EntriesSettle(names, item, entries[1..]);
      assert ParseEntries(names, item, entries).value[1..] == ParseEntries(names, item, entries[1..]).value;
    }
  }

  /** What the parsed object holds under a key of its shape. */
  lemma {:induction false} ParsedHolds(shape: seq<Keyed<Schema>>, entries: seq<Keyed<Data>>, i: nat)
    requires DistinctKeys(shape) && ParseShape(shape, entries).Some? && i < |shape|
    ensures Parse(shape[i].value, Get(entries, shape[i].key))
         == Some(Get(ParseShape(shape, entries).value, shape[i].key))
  {
    var out, rest := ParseShape(shape, entries).value, ParseShape(shape[1..], entries).value;
    if i == 0 {
      ParsedKeys(shape[1..], entries);
      NotHeld(rest, shape[0].key);
      var first := Parse(shape[0].value, Get(entries, shape[0].key)).value;
      if Kept(shape[0].value, first) {
        assert out[0] == Keyed(shape[0].key, first);
      } else {
        assert out == rest;
      }
    } else {
      ParsedHolds(shape[1..], entries, i - 1);
      assert shape[0].key != shape[i].key;
      assert out == rest || out[1..] == rest;
    }
  }

  lemma {:induction false} ParsedKeys(shape: seq<Keyed<Schema>>, entries: seq<Keyed<Data>>)
    requires ParseShape(shape, entries).Some?
    ensures forall i :: 0 <= i < |ParseShape(shape, entries).value|
              ==> HasKey(shape, ParseShape(shape, entries).value[i].key)
  {
    if shape != [] {
      ParsedKeys(shape[1..], entries);
      var out, rest := ParseShape(shape, entries).value, ParseShape(shape[1..], entries).value;
      forall i | 0 <= i < |out| ensures HasKey(shape, out[i].key) {
        if out[i].key == shape[0].key {
        } else {
          var k := if out == rest then i else i - 1;
          assert out[i] == rest[k] && HasKey(shape[1..], rest[k].key);
          var j :| 0 <= j < |shape[1..]| && shape[1..][j].key == rest[k].key;
          assert shape[j + 1].key == out[i].key;
        }
      }
    }
  }

  lemma {:induction false} NotHeld(entries: seq<Keyed<Data>>, key: Text)
    requires !HasKey(entries, key)
    ensures Get(entries, key) == Undefined
  {
    if entries != [] {
      assert entries[0].key != key;
      forall i | 0 <= i < |entries[1..]| ensures entries[1..][i].key != key {
        assert entries[i + 1].key != key;
      }
      NotHeld(entries[1..], key);
    }
  }

  lemma {:induction false} SameParts(shape: seq<Keyed<Schema>>, entries: seq<Keyed<Data>>, others: seq<Keyed<Data>>)
    requires forall i :: 0 <= i < |shape| ==>
               Parse(shape[i].value, Get(entries, shape[i].key)) == Parse(shape[i].value, Get(others, shape[i].key))
    ensures ParseShape(shape, entries) == ParseShape(shape, others)
  {
    if shape != [] {
      SameParts(shape[1..], entries, others);
    }
  }

  lemma {:induction false} ObjectSettles(shape: seq<Keyed<Schema>>, v: Data)
    requires Settling(Object(shape)) && ValidDefaults(Object(shape)) && Parse(Object(shape), v).Some?
    ensures Parse(Object(shape), Parse(Object(shape), v).value) == Parse(Object(shape), v)
    decreases shape, 1
  {
    var out := ParseShape(shape, v.entries).value;
    ParsedKeys(shape, v.entries);
    forall i | 0 <= i < |shape|
      ensures Parse(shape[i].value, Get(v.entries, shape[i].key)) == Parse(shape[i].value, Get(out, shape[i].key))
    {
      ParsedHolds(shape, v.entries, i);
      assert shape[i] in shape;
      ParseSettles(shape[i].value, Get(v.entries, shape[i].key));
    }
    SameParts(shape, v.entries, out);
  }

  lemma SingleShape(key: Text, s: Schema, entries: seq<Keyed<Data>>)
    requires !s.Optional?
    ensures ParseShape([Keyed(key, s)], entries)
         == var parsed := Parse(s, Get(entries, key));
            if parsed.None? then None else Some([Keyed(key, parsed.value)])
  {
    var shape := [Keyed(key, s)];
    assert shape[1..] == [];
    assert ParseShape(shape[1..], entries) == Some([]);
    var parsed := Parse(s, Get(entries, key));
    if parsed.Some? {
      assert [Keyed(key, parsed.value)] + [] == [Keyed(key, parsed.value)];
    }
  }

  /** The first branch of the example: it fills `p` and needs `q`. */
  function NeedsQ(p: Text, q: Text): Schema {
    Object([Keyed(p, Default(Boolean, Bool(false))), Keyed(q, Boolean)])
  }

  /** Its second branch fills `q`. */
  function FillsQ(q: Text): Schema {
    Object([Keyed(q, Default(Boolean, Bool(true)))])
  }

  lemma ExampleDefaults(p: Text, q: Text)
    requires p != q
    ensures ValidDefaults(NeedsQ(p, q)) && ValidDefaults(FillsQ(q))
  {
    var filledP, filledQ := Default(Boolean, Bool(false)), Default(Boolean, Bool(true));
    assert Parse(Boolean, Bool(false)).Some? && Parse(Boolean, Bool(true)).Some?;
    assert ValidDefaults(filledP) && ValidDefaults(filledQ) && ValidDefaults(Boolean);
  }

  lemma FirstBranch(p: Text, q: Text, entries: seq<Keyed<Data>>)
    requires p != q
    ensures entries == [] ==> Parse(NeedsQ(p, q), Dict(entries)).None?
    ensures entries == [Keyed(q, Bool(true))]
        ==> Parse(NeedsQ(p, q), Dict(entries)) == Some(Dict([Keyed(p, Bool(false))] + entries))
  {
    var shape := NeedsQ(p, q).shape;
    assert shape[1..] == [Keyed(q, Boolean)] && shape[1].key == q;
    SingleShape(q, Boolean, entries);
    if entries == [Keyed(q, Bool(true))] {
      NotHeld(entries, p);
      assert Get(entries, q) == Bool(true) && ParseShape(shape[1..], entries) == Some(entries);
      assert Parse(shape[0].value, Undefined) == Some(Bool(false));
      assert ParseShape(shape, entries) == Some([Keyed(p, Bool(false))] + entries);
      assert HasKey(shape, q);
    }
  }

  lemma SecondBranch(q: Text)
    ensures Parse(FillsQ(q), Dict([])) == Some(Dict([Keyed(q, Bool(true))]))
  {
    SingleShape(q, Default(Boolean, Bool(true)), []);
  }

  /** A union need not settle: the defaults of its second branch can complete a value for the first. */
  lemma UnionUnsettled(p: Text, q: Text)
    requires p != q
    ensures ValidDefaults(Union(NeedsQ(p, q), FillsQ(q)))
    ensures !SettlesAt(Union(NeedsQ(p, q), FillsQ(q)), Dict([])) && !NoneRetaken(NeedsQ(p, q), FillsQ(q))
  {
    var s, w := Union(NeedsQ(p, q), FillsQ(q)), [Keyed(q, Bool(true))];
    ExampleDefaults(p, q);
    assert ValidDefaults(s);
    FirstBranch(p, q, []);
    SecondBranch(q);
    assert Parse(s, Dict([])) == Some(Dict(w));
    FirstBranch(p, q, w);
    assert |[Keyed(p, Bool(false))] + w| != |w|;
    assert Parse(s, Dict(w)) != Some(Dict(w));
    assert !NotRetakenAt(NeedsQ(p, q), FillsQ(q), Dict([]));
  }
}
