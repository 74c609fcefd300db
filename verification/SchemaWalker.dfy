/** The walker that lists every violation of a published schema. */
module SchemaWalker {
  import opened Options
  import opened Texts
  import opened Schemas

  datatype Step = Property(key: Text) | Index(i: nat)

  type Path = seq<Step>

  datatype Problem =
    | NoValue | WrongType(kind: Kind) | NotTheConstant | NotListed | HoldsNul | BadLength | NoMatch | OutOfRange
    | BadCount | UnknownProperty(key: Text) | MissingProperty | TooMany | BadKey(key: Text)

  datatype Issue = Issue(path: Path, problem: Problem)

  predicate TypeMatches(kind: Kind, v: Data) {
    match kind
    case StringKind => v.Str?
    case IntegerKind => v.Number? && v.n.Finite? && SafeInteger(v.n.r)
    case NumberKind => v.Number? && v.n.Finite?
    case BooleanKind => v.Bool?
    case ArrayKind => v.List?
    case ObjectKind => v.Dict?
    case NullKind => v.Null?
  }

  function When(fault: bool, path: Path, problem: Problem): seq<Issue> {
    if fault then [Issue(path, problem)] else []
  }

  predicate OutsideInt(x: int, min: Option<int>, max: Option<int>) {
    (min.Some? && x < min.value) || (max.Some? && x > max.value)
  }

  predicate OutsideReal(x: real, min: Option<real>, max: Option<real>) {
    (min.Some? && x < min.value) || (max.Some? && x > max.value)
  }

  /** Every violation of `json` by `v`, in the order the walker pushes them. */
  function Issues(json: Json, v: Data, path: Path): seq<Issue>
    decreases json, 0
  {
    if v.Undefined? && json.default.Some? then []
    else if json.anyOf.AnyOf? then ChosenBranch(json.anyOf.branches, BranchIssues(json.anyOf.branches, v, path))
    else if json.constant.Some? then When(v != DataOf(json.constant.value), path, NotTheConstant)
    else if json.kind.Some? && v.Undefined? then [Issue(path, NoValue)]
    else if json.kind.Some? && !TypeMatches(json.kind.value, v) then [Issue(path, WrongType(json.kind.value))]
    else if json.listed.Some? && !(v.Str? && v.text in json.listed.value) then [Issue(path, NotListed)]
    else
      TextIssues(json, v, path) + NumberIssues(json, v, path) + ArrayIssues(json, v, path)
      + ObjectIssues(json, v, path) + MapIssues(json, v, path)
  }

  function BranchIssues(branches: seq<Json>, v: Data, path: Path): (lists: seq<seq<Issue>>)
    ensures |lists| == |branches|
    decreases branches, 0
  {
    if branches == [] then [] else [Issues(branches[0], v, path)] + BranchIssues(branches[1..], v, path)
  }

  /** Position of the first branch that is not the null type. */
  function FirstTyped(branches: seq<Json>): (i: nat)
    ensures i <= |branches|
  {
    if branches == [] || branches[0].kind != Some(NullKind) then 0 else 1 + FirstTyped(branches[1..])
  }

  /** No issue as soon as one branch has none; otherwise those of the branch an author most likely meant. */
  function ChosenBranch(branches: seq<Json>, lists: seq<seq<Issue>>): seq<Issue>
    requires |lists| == |branches|
  {
    if [] in lists || lists == [] then []
    else var typed := FirstTyped(branches); lists[if typed < |branches| then typed else 0]
  }

  function TextIssues(json: Json, v: Data, path: Path): seq<Issue> {
    if !v.Str? then []
    else
      When(NUL in v.text, path, HoldsNul)
      + When(OutsideInt(|v.text|, json.minLength, json.maxLength), path, BadLength)
      + When(json.pattern.Some? && !json.pattern.value(v.text), path, NoMatch)
  }

  function NumberIssues(json: Json, v: Data, path: Path): seq<Issue> {
    When(v.Number? && v.n.Finite? && OutsideReal(v.n.r, json.minimum, json.maximum), path, OutOfRange)
  }

  function ArrayIssues(json: Json, v: Data, path: Path): seq<Issue>
    decreases json, 0, 0
  {
    if !v.List? then []
    else
      When(OutsideInt(|v.items|, json.minItems, json.maxItems), path, BadCount)
      + if json.items.None? then [] else ItemIssues(json.items.value, v.items, 0, path)
  }

  function ItemIssues(json: Json, items: seq<Data>, from: nat, path: Path): seq<Issue>
    requires from <= |items|
    decreases json, 1 + |items| - from
  {
    if from == |items| then []
    else Issues(json, items[from], path + [Index(from)]) + ItemIssues(json, items, from + 1, path)
  }

  function ObjectIssues(json: Json, v: Data, path: Path): seq<Issue>
    decreases json, 0, 0
  {
    if !v.Dict? || json.properties.NoProperties? then []
    else
      UnknownIssues(json.properties.members, v.entries, path)
      + PropertyIssues(json.properties.members, json.required, v.entries, path)
  }

  function UnknownIssues(properties: seq<Keyed<Json>>, entries: seq<Keyed<Data>>, path: Path): seq<Issue>
    decreases |entries|
  {
    if entries == [] then []
    else
      When(!HasKey(properties, entries[0].key), path, UnknownProperty(entries[0].key))
      + UnknownIssues(properties, entries[1..], path)
  }

  function PropertyIssues(properties: seq<Keyed<Json>>, required: seq<Text>, entries: seq<Keyed<Data>>, path: Path)
    : seq<Issue>
    decreases properties, 0
  {
    if properties == [] then []
    else
      OneProperty(properties[0].key, properties[0].value, required, Get(entries, properties[0].key), path)
      + PropertyIssues(properties[1..], required, entries, path)
  }

  function OneProperty(key: Text, json: Json, required: seq<Text>, v: Data, path: Path): seq<Issue>
    decreases json, 1
  {
    if v.Undefined? && key in required then [Issue(path + [Property(key)], MissingProperty)]
    else if v.Undefined? && json.default.None? then []
    else Issues(json, v, path + [Property(key)])
  }

  function MapIssues(json: Json, v: Data, path: Path): seq<Issue>
    decreases json, 0, 0
  {
    if !v.Dict? || json.additional.None? then []
    else
      When(json.maxProperties.Some? && |v.entries| > json.maxProperties.value, path, TooMany)
      + EntryIssues(json.additional.value, json.names, v.entries, path)
  }

  function EntryIssues(json: Json, names: Option<Pattern>, entries: seq<Keyed<Data>>, path: Path): seq<Issue>
    decreases json, 1 + |entries|
  {
    if entries == [] then []
    else
      When(names.Some? && !names.value(entries[0].key), path, BadKey(entries[0].key))
      + Issues(json, entries[0].value, path + [Property(entries[0].key)])
      + EntryIssues(json, names, entries[1..], path)
  }

  // ------------------------------------------------------------------ the walker itself

  /** The recursive walk that pushes into one list; it returns exactly the violations above. */
  method ListIssues(json: Json, v: Data, path: Path) returns (issues: seq<Issue>)
    ensures issues == Issues(json, v, path)
    decreases json, 1
  {
    issues := [];
    if v.Undefined? && json.default.Some? {
      return;
    }
    if json.anyOf.AnyOf? {
      var lists := ListBranches(json.anyOf.branches, v, path);
      if [] in lists || lists == [] {
        return;
      }
      var typed := FirstTyped(json.anyOf.branches);
      return lists[if typed < |json.anyOf.branches| then typed else 0];
    }
    if json.constant.Some? {
      if v != DataOf(json.constant.value) {
        issues := issues + [Issue(path, NotTheConstant)];
      }
      return;
    }
    if json.kind.Some? {
      if v.Undefined? {
        return [Issue(path, NoValue)];
      }
      if !TypeMatches(json.kind.value, v) {
        return [Issue(path, WrongType(json.kind.value))];
      }
    }
    if json.listed.Some? && !(v.Str? && v.text in json.listed.value) {
      return [Issue(path, NotListed)];
    }
    if v.Str? {
      if NUL in v.text {
        issues := issues + [Issue(path, HoldsNul)];
      }
      if OutsideInt(|v.text|, json.minLength, json.maxLength) {
        issues := issues + [Issue(path, BadLength)];
      }
      if json.pattern.Some? && !json.pattern.value(v.text) {
        issues := issues + [Issue(path, NoMatch)];
      }
    }
    assert issues == TextIssues(json, v, path);
    if v.Number? && v.n.Finite? && OutsideReal(v.n.r, json.minimum, json.maximum) {
      issues := issues + [Issue(path, OutOfRange)];
    }
    assert issues == TextIssues(json, v, path) + NumberIssues(json, v, path);
    var nested := ListItems(json, v, path);
    issues := issues + nested;
    nested := ListProperties(json, v, path);
    issues := issues + nested;
    nested := ListEntries(json, v, path);
    issues := issues + nested;
  }

  lemma NextBranch(branches: seq<Json>, i: nat, v: Data, path: Path)
    requires i < |branches|
    ensures BranchIssues(branches[i..], v, path)
         == [Issues(branches[i], v, path)] + BranchIssues(branches[i + 1..], v, path)
  {
    hide Issues;
    assert branches[i..][1..] == branches[i + 1..];
  }

  method ListBranches(branches: seq<Json>, v: Data, path: Path) returns (lists: seq<seq<Issue>>)
    ensures lists == BranchIssues(branches, v, path)
    decreases branches, 2
  {
    hide Issues;
    lists := [];
    assert branches[0..] == branches;
    for i := 0 to |branches|
      invariant lists + BranchIssues(branches[i..], v, path) == BranchIssues(branches, v, path)
    {
      hide BranchIssues;
      NextBranch(branches, i, v, path);
      var list := ListIssues(branches[i], v, path);
      Regroup(lists, [list], BranchIssues(branches[i + 1..], v, path));
      lists := lists + [list];
    }
  }

  method ListItems(json: Json, v: Data, path: Path) returns (issues: seq<Issue>)
    ensures issues == ArrayIssues(json, v, path)
    decreases json, 0
  {
    issues := [];
    if v.List? {
      if OutsideInt(|v.items|, json.minItems, json.maxItems) {
        issues := issues + [Issue(path, BadCount)];
      }
      if json.items.Some? {
        ghost var whole := ArrayIssues(json, v, path);
        for i := 0 to |v.items|
          invariant issues + ItemIssues(json.items.value, v.items, i, path) == whole
        {
          var list := ListIssues(json.items.value, v.items[i], path + [Index(i)]);
          issues := issues + list;
        }
      }
    }
  }

  lemma NextUnknown(properties: seq<Keyed<Json>>, entries: seq<Keyed<Data>>, i: nat, path: Path)
    requires i < |entries|
    ensures UnknownIssues(properties, entries[i..], path)
         == When(!HasKey(properties, entries[i].key), path, UnknownProperty(entries[i].key))
            + UnknownIssues(properties, entries[i + 1..], path)
  {
    assert entries[i..][1..] == entries[i + 1..];
  }

  method ListUnknown(properties: seq<Keyed<Json>>, entries: seq<Keyed<Data>>, path: Path) returns (issues: seq<Issue>)
    ensures issues == UnknownIssues(properties, entries, path)
  {
    issues := [];
    assert entries[0..] == entries;
    for i := 0 to |entries|
      invariant issues + UnknownIssues(properties, entries[i..], path) == UnknownIssues(properties, entries, path)
    {
      hide UnknownIssues;
      hide HasKey;
      NextUnknown(properties, entries, i, path);
      ghost var more := UnknownIssues(properties, entries[i + 1..], path);
      if !HasKey(properties, entries[i].key) {
        Regroup(issues, [Issue(path, UnknownProperty(entries[i].key))], more);
        issues := issues + [Issue(path, UnknownProperty(entries[i].key))];
      } else {
        assert [] + more == more;
      }
    }
  }

  method ListProperties(json: Json, v: Data, path: Path) returns (issues: seq<Issue>)
    ensures issues == ObjectIssues(json, v, path)
    decreases json, 0
  {
    issues := [];
    if v.Dict? && json.properties.Properties? {
      var properties := json.properties.members;
      issues := ListUnknown(properties, v.entries, path);
      ghost var whole := issues + PropertyIssues(properties, json.required, v.entries, path);
      assert properties[0..] == properties;
      for i := 0 to |properties|
        invariant issues + PropertyIssues(properties[i..], json.required, v.entries, path) == whole
      {
        assert properties[i..][1..] == properties[i + 1..];
        var list := ListProperty(properties[i].key, properties[i].value, json.required, v.entries, path);
        Regroup(issues, list, PropertyIssues(properties[i + 1..], json.required, v.entries, path));
        issues := issues + list;
      }
    }
  }

  method ListProperty(key: Text, json: Json, required: seq<Text>, entries: seq<Keyed<Data>>, path: Path)
    returns (issues: seq<Issue>)
    ensures issues == OneProperty(key, json, required, Get(entries, key), path)
    decreases json, 2
  {
    var value := Get(entries, key);
    if value.Undefined? && key in required {
      return [Issue(path + [Property(key)], MissingProperty)];
    }
    if value.Undefined? && json.default.None? {
      return [];
    }
    issues := ListIssues(json, value, path + [Property(key)]);
  }

  lemma Regroup<T>(a: seq<T>, b: seq<T>, c: seq<T>)
    ensures a + (b + c) == a + b + c
  {
  }

  method ListEntries(json: Json, v: Data, path: Path) returns (issues: seq<Issue>)
    ensures issues == MapIssues(json, v, path)
    decreases json, 0
  {
    issues := [];
    if v.Dict? && json.additional.Some? {
      if json.maxProperties.Some? && |v.entries| > json.maxProperties.value {
        issues := issues + [Issue(path, TooMany)];
      }
      ghost var whole := issues + EntryIssues(json.additional.value, json.names, v.entries, path);
      assert whole == MapIssues(json, v, path);
      assert v.entries[0..] == v.entries;
      for i := 0 to |v.entries|
        invariant issues + EntryIssues(json.additional.value, json.names, v.entries[i..], path) == whole
      {
        assert v.entries[i..][1..] == v.entries[i + 1..];
        ghost var later := EntryIssues(json.additional.value, json.names, v.entries[i + 1..], path);
        var list := ListEntry(json.additional.value, json.names, v.entries[i], path);
        Regroup(issues, list, later);
        issues := issues + list;
      }
    }
  }

  method ListEntry(json: Json, names: Option<Pattern>, entry: Keyed<Data>, path: Path) returns (issues: seq<Issue>)
    ensures issues == When(names.Some? && !names.value(entry.key), path, BadKey(entry.key))
                      + Issues(json, entry.value, path + [Property(entry.key)])
    decreases json, 2
  {
    issues := [];
    if names.Some? && !names.value(entry.key) {
      issues := issues + [Issue(path, BadKey(entry.key))];
    }
    var list := ListIssues(json, entry.value, path + [Property(entry.key)]);
    issues := issues + list;
  }
}
