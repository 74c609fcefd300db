/** What the walker reports: exactly the keywords that are violated, each at the place where it is. */
module SchemaPlaces {
  import opened Options
  import opened Texts
  import opened Schemas
  import opened SchemaWalker

  // ------------------------------------------------------------------ satisfaction

  predicate Excused(json: Json, v: Data) {
    v.Undefined? && json.default.Some?
  }

  /** Neither excused, nor a matter of branches or of a constant: the other keywords apply. */
  predicate Applies(json: Json, v: Data) {
    !Excused(json, v) && json.anyOf.NoBranches? && json.constant.None?
  }

  /** The value has the declared type and is among the listed ones, so its parts are looked at. */
  predicate Examined(json: Json, v: Data) {
    && Applies(json, v)
    && (json.kind.Some? ==> !v.Undefined? && TypeMatches(json.kind.value, v))
    && (json.listed.Some? ==> v.Str? && v.text in json.listed.value)
  }

  predicate TextFits(json: Json, v: Data) {
    v.Str? ==>
      && NUL !in v.text && !OutsideInt(|v.text|, json.minLength, json.maxLength)
      && (json.pattern.Some? ==> json.pattern.value(v.text))
  }

  predicate NumberFits(json: Json, v: Data) {
    v.Number? && v.n.Finite? ==> !OutsideReal(v.n.r, json.minimum, json.maximum)
  }

  /** The value satisfies the schema, keyword by keyword. */
  predicate Meets(json: Json, v: Data)
    decreases json, 1
  {
    if Excused(json, v) then true
    else if json.anyOf.AnyOf? then MeetsSome(json.anyOf.branches, v)
    else if json.constant.Some? then v == DataOf(json.constant.value)
    else
      && Examined(json, v) && TextFits(json, v) && NumberFits(json, v)
      && ArrayMeets(json, v) && ObjectMeets(json, v) && MapMeets(json, v)
  }

  predicate ArrayMeets(json: Json, v: Data)
    decreases json, 0
  {
    v.List? ==>
      && !OutsideInt(|v.items|, json.minItems, json.maxItems)
      && (json.items.Some? ==> forall i :: 0 <= i < |v.items| ==> Meets(json.items.value, v.items[i]))
  }

  /** Only known properties, and each known one as its own schema has it. */
  predicate ObjectMeets(json: Json, v: Data)
    decreases json, 0
  {
    v.Dict? && json.properties.Properties? ==>
      && (forall i :: 0 <= i < |v.entries| ==> HasKey(json.properties.members, v.entries[i].key))
      && forall i :: 0 <= i < |json.properties.members| ==>
           MeetsProperty(json.properties.members[i].value, json.properties.members[i].key in json.required,
                         Get(v.entries, json.properties.members[i].key))
  }

  predicate MapMeets(json: Json, v: Data)
    decreases json, 0
  {
    v.Dict? && json.additional.Some? ==>
      && (json.maxProperties.Some? ==> |v.entries| <= json.maxProperties.value)
      && forall i :: 0 <= i < |v.entries| ==>
           (json.names.Some? ==> json.names.value(v.entries[i].key)) && Meets(json.additional.value, v.entries[i].value)
  }

  /** Some branch is satisfied; no branches demand nothing. */
  predicate MeetsSome(branches: seq<Json>, v: Data)
    decreases branches, 0
  {
    branches == [] || exists i :: 0 <= i < |branches| && Meets(branches[i], v)
  }

  /** A required property is there; another may be absent. */
  predicate MeetsProperty(json: Json, required: bool, v: Data)
    decreases json, 2
  {
    if v.Undefined? && required then false
    else if v.Undefined? && json.default.None? then true
    else Meets(json, v)
  }

  // ------------------------------------------------------------------ violation

  /** The keyword the problem names is violated by this very value. */
  predicate Breaks(json: Json, v: Data, problem: Problem) {
    match problem
    case NotTheConstant =>
      !Excused(json, v) && json.anyOf.NoBranches? && json.constant.Some? && v != DataOf(json.constant.value)
    case NoValue => Applies(json, v) && json.kind.Some? && v.Undefined?
    case WrongType(kind) => Applies(json, v) && json.kind == Some(kind) && !v.Undefined? && !TypeMatches(kind, v)
    case NotListed =>
      Applies(json, v) && (json.kind.Some? ==> !v.Undefined? && TypeMatches(json.kind.value, v))
      && json.listed.Some? && !(v.Str? && v.text in json.listed.value)
    case HoldsNul => Examined(json, v) && v.Str? && NUL in v.text
    case BadLength => Examined(json, v) && v.Str? && OutsideInt(|v.text|, json.minLength, json.maxLength)
    case NoMatch => Examined(json, v) && v.Str? && json.pattern.Some? && !json.pattern.value(v.text)
    case OutOfRange => Examined(json, v) && v.Number? && v.n.Finite? && OutsideReal(v.n.r, json.minimum, json.maximum)
    case BadCount => Examined(json, v) && v.List? && OutsideInt(|v.items|, json.minItems, json.maxItems)
    case UnknownProperty(key) =>
      Examined(json, v) && v.Dict? && json.properties.Properties? && HasKey(v.entries, key)
      && !HasKey(json.properties.members, key)
    case TooMany =>
      Examined(json, v) && v.Dict? && json.additional.Some? && json.maxProperties.Some?
      && |v.entries| > json.maxProperties.value
    case BadKey(key) =>
      Examined(json, v) && v.Dict? && json.additional.Some? && HasKey(v.entries, key)
      && json.names.Some? && !json.names.value(key)
    case MissingProperty => false
  }

  lemma {:induction false} NullsFirst(branches: seq<Json>)
    ensures var n := FirstTyped(branches);
            && (forall j :: 0 <= j < n ==> branches[j].kind == Some(NullKind))
            && (n < |branches| ==> branches[n].kind != Some(NullKind))
  {
    if branches != [] && branches[0].kind == Some(NullKind) {
      NullsFirst(branches[1..]);
    }
  }

  /** The branch an author most likely meant: the first that is not the null type. */
  function Meant(branches: seq<Json>): (i: nat)
    requires branches != []
    ensures i < |branches| && forall j :: 0 <= j < i ==> branches[j].kind == Some(NullKind)
    ensures branches[i].kind == Some(NullKind) ==> i == 0 && forall b :: b in branches ==> b.kind == Some(NullKind)
  {
    NullsFirst(branches);
    var typed := FirstTyped(branches); if typed < |branches| then typed else 0
  }

  /**
   Following the path down from this value, and with it the properties, the items, the schema of a map's values
   and the meant one of branches none of which is satisfied, one comes to a schema and a value that breaks the
   keyword the problem names, or to a required property that is not there.
   */
  predicate Violated(json: Json, v: Data, rest: Path, problem: Problem)
    decreases json, 1
  {
    if Excused(json, v) then false
    else if json.anyOf.AnyOf? then
      && json.anyOf.branches != [] && !MeetsSome(json.anyOf.branches, v)
      && Violated(json.anyOf.branches[Meant(json.anyOf.branches)], v, rest, problem)
    else if rest == [] then Breaks(json, v, problem)
    else
      && Examined(json, v)
      && match rest[0]
         case Index(i) =>
           v.List? && json.items.Some? && i < |v.items| && Violated(json.items.value, v.items[i], rest[1..], problem)
         case Property(key) => v.Dict? && ViolatedUnder(json, v.entries, key, rest[1..], problem)
  }

  /** A property of an object, or an entry of a map. */
  predicate ViolatedUnder(json: Json, entries: seq<Keyed<Data>>, key: Text, rest: Path, problem: Problem)
    decreases json, 0
  {
    || (json.properties.Properties?
        && exists i :: 0 <= i < |json.properties.members| && json.properties.members[i].key == key
             && ViolatedProperty(json.properties.members[i].value, key in json.required, Get(entries, key), rest,
                                 problem))
    || (json.additional.Some?
        && exists i :: 0 <= i < |entries| && entries[i].key == key
             && Violated(json.additional.value, entries[i].value, rest, problem))
  }

  predicate ViolatedProperty(json: Json, required: bool, v: Data, rest: Path, problem: Problem)
    decreases json, 2
  {
    if v.Undefined? && required then rest == [] && problem.MissingProperty?
    else !(v.Undefined? && json.default.None?) && Violated(json, v, rest, problem)
  }

  // ------------------------------------------------------------------ no issue exactly when satisfied

  lemma {:induction false} NoneWhenMet(json: Json, v: Data, path: Path)
    ensures Issues(json, v, path) == [] <==> Meets(json, v)
    decreases json, 3
  {
    if json.anyOf.AnyOf? {
      SomeWhenMet(json.anyOf.branches, v, path);
    } else if Examined(json, v) {
      PartsWhenMet(json, v, path);
    }
  }

  lemma {:induction false} SomeWhenMet(branches: seq<Json>, v: Data, path: Path)
    ensures ChosenBranch(branches, BranchIssues(branches, v, path)) == [] <==> MeetsSome(branches, v)
    ensures branches != [] && !MeetsSome(branches, v) ==>
              ChosenBranch(branches, BranchIssues(branches, v, path)) == Issues(branches[Meant(branches)], v, path)
    decreases branches, 0
  {
    var lists := BranchIssues(branches, v, path);
    forall i | 0 <= i < |branches|
      ensures lists[i] == Issues(branches[i], v, path) && (lists[i] == [] <==> Meets(branches[i], v))
    {
      BranchAt(branches, v, path, i);
      NoneWhenMet(branches[i], v, path);
    }
  }

  lemma {:induction false} BranchAt(branches: seq<Json>, v: Data, path: Path, i: nat)
    requires i < |branches|
    ensures BranchIssues(branches, v, path)[i] == Issues(branches[i], v, path)
  {
    if i > 0 {
      BranchAt(branches[1..], v, path, i - 1);
    }
  }

  lemma {:induction false} PartsWhenMet(json: Json, v: Data, path: Path)
    requires Examined(json, v)
    ensures Issues(json, v, path) == [] <==> Meets(json, v)
    decreases json, 2
  {
    OwnWhenMet(json, v, path);
    ArrayWhenMet(json, v, path);
    ObjectWhenMet(json, v, path);
    MapWhenMet(json, v, path);
    hide TextIssues;
    hide NumberIssues;
    hide ArrayIssues;
    hide ObjectIssues;
    hide MapIssues;
    hide TextFits;
    hide NumberFits;
    hide ArrayMeets;
    hide ObjectMeets;
    hide MapMeets;
  }

  lemma OwnWhenMet(json: Json, v: Data, path: Path)
    ensures TextIssues(json, v, path) == [] <==> TextFits(json, v)
    ensures NumberIssues(json, v, path) == [] <==> NumberFits(json, v)
  {
  }

  lemma {:induction false} ArrayWhenMet(json: Json, v: Data, path: Path)
    ensures ArrayIssues(json, v, path) == [] <==> ArrayMeets(json, v)
    decreases json, 0, 0
  {
    if v.List? && json.items.Some? {
      ItemsWhenMet(json.items.value, v.items, 0, path);
    }
  }

  lemma {:induction false} ObjectWhenMet(json: Json, v: Data, path: Path)
    ensures ObjectIssues(json, v, path) == [] <==> ObjectMeets(json, v)
    decreases json, 0, 0
  {
    if v.Dict? && json.properties.Properties? {
      UnknownWhenMet(json.properties.members, v.entries, path);
      PropertiesWhenMet(json.properties.members, json.required, v.entries, path);
    }
  }

  lemma {:induction false} MapWhenMet(json: Json, v: Data, path: Path)
    ensures MapIssues(json, v, path) == [] <==> MapMeets(json, v)
    decreases json, 0, 0
  {
    if v.Dict? && json.additional.Some? {
      EntriesWhenMet(json.additional.value, json.names, v.entries, path);
    }
  }

  lemma {:induction false} ItemsWhenMet(json: Json, items: seq<Data>, from: nat, path: Path)
    requires from <= |items|
    ensures ItemIssues(json, items, from, path) == [] <==> forall i :: from <= i < |items| ==> Meets(json, items[i])
    decreases json, 4 + |items| - from
  {
    if from < |items| {
      NoneWhenMet(json, items[from], path + [Index(from)]);
      ItemsWhenMet(json, items, from + 1, path);
    }
  }

  lemma {:induction false} UnknownWhenMet(properties: seq<Keyed<Json>>, entries: seq<Keyed<Data>>, path: Path)
    ensures UnknownIssues(properties, entries, path) == [] <==>
              forall i :: 0 <= i < |entries| ==> HasKey(properties, entries[i].key)
  {
    if entries != [] {
      UnknownWhenMet(properties, entries[1..], path);
      assert forall i :: 0 < i < |entries| ==> entries[i] == entries[1..][i - 1];
    }
  }

  lemma {:induction false} PropertiesWhenMet(properties: seq<Keyed<Json>>, required: seq<Text>,
                                             entries: seq<Keyed<Data>>, path: Path)
    ensures PropertyIssues(properties, required, entries, path) == [] <==>
              forall i :: 0 <= i < |properties| ==>
                MeetsProperty(properties[i].value, properties[i].key in required, Get(entries, properties[i].key))
    decreases properties, 0
  {
    if properties != [] {
      NoneWhenMet(properties[0].value, Get(entries, properties[0].key), path + [Property(properties[0].key)]);
      PropertiesWhenMet(properties[1..], required, entries, path);
      assert forall i :: 0 < i < |properties| ==> properties[i] == properties[1..][i - 1];
    }
  }

  lemma {:induction false} EntriesWhenMet(json: Json, names: Option<Pattern>, entries: seq<Keyed<Data>>, path: Path)
    ensures EntryIssues(json, names, entries, path) == [] <==>
              forall i :: 0 <= i < |entries| ==>
                (names.Some? ==> names.value(entries[i].key)) && Meets(json, entries[i].value)
    decreases json, 4 + |entries|
  {
    if entries != [] {
      NoneWhenMet(json, entries[0].value, path + [Property(entries[0].key)]);
      EntriesWhenMet(json, names, entries[1..], path);
      assert forall i :: 0 < i < |entries| ==> entries[i] == entries[1..][i - 1];
    }
  }

  // ------------------------------------------------------------------ issues are the violations

  /** The issue lies at or below this place. */
  predicate Below(path: Path, issue: Issue) {
    path <= issue.path
  }

  function Rest(path: Path, issue: Issue): Path
    requires Below(path, issue)
  {
    issue.path[|path|..]
  }

  lemma OneDown(path: Path, step: Step, issue: Issue)
    ensures Below(path + [step], issue) <==>
              Below(path, issue) && Rest(path, issue) != [] && Rest(path, issue)[0] == step
    ensures Below(path + [step], issue) ==> Rest(path + [step], issue) == Rest(path, issue)[1..]
  {
  }

  lemma HereIsNoRest(path: Path, issue: Issue)
    ensures Here(path, issue) <==> Below(path, issue) && Rest(path, issue) == []
  {
  }

  lemma {:induction false} IssuesExactly(json: Json, v: Data, path: Path, issue: Issue)
    ensures issue in Issues(json, v, path) <==>
              Below(path, issue) && Violated(json, v, Rest(path, issue), issue.problem)
    decreases json, 3
  {
    HereIsNoRest(path, issue);
    if json.anyOf.AnyOf? {
      var branches := json.anyOf.branches;
      SomeWhenMet(branches, v, path);
      if branches != [] {
        IssuesExactly(branches[Meant(branches)], v, path, issue);
      }
    } else if Examined(json, v) {
      ExaminedExactly(json, v, path, issue);
    }
  }

  lemma {:induction false} ExaminedExactly(json: Json, v: Data, path: Path, issue: Issue)
    requires Examined(json, v)
    ensures issue in Issues(json, v, path) <==>
              Below(path, issue) && Violated(json, v, Rest(path, issue), issue.problem)
    decreases json, 2
  {
    OwnExactly(json, v, path, issue);
    ArrayExactly(json, v, path, issue);
    ObjectExactly(json, v, path, issue);
    MapExactly(json, v, path, issue);
    IssuesJoin(json, v, path, issue);
    PartsJoin(json, v, path, issue);
    hide *;
  }

  predicate OwnAt(json: Json, v: Data, path: Path, issue: Issue) {
    Here(path, issue) && IsOwn(issue.problem) && Breaks(json, v, issue.problem)
  }

  predicate ArrayAt(json: Json, v: Data, path: Path, issue: Issue) {
    && v.List?
    && ((Here(path, issue) && issue.problem.BadCount? && OutsideInt(|v.items|, json.minItems, json.maxItems))
        || (json.items.Some? && AtItem(json.items.value, v.items, 0, path, issue)))
  }

  predicate ObjectAt(json: Json, v: Data, path: Path, issue: Issue) {
    && v.Dict? && json.properties.Properties?
    && ((Here(path, issue) && issue.problem.UnknownProperty?
         && HasKey(v.entries, issue.problem.key) && !HasKey(json.properties.members, issue.problem.key))
        || PropertyAt(json.properties.members, json.required, v.entries, path, issue))
  }

  predicate MapAt(json: Json, v: Data, path: Path, issue: Issue) {
    && v.Dict? && json.additional.Some?
    && ((Here(path, issue) && issue.problem.TooMany?
         && json.maxProperties.Some? && |v.entries| > json.maxProperties.value)
        || BadKeyAt(json.names, v.entries, path, issue)
        || EntryAt(json.additional.value, v.entries, path, issue))
  }

  predicate SomewhereAt(json: Json, v: Data, path: Path, issue: Issue) {
    || OwnAt(json, v, path, issue) || ArrayAt(json, v, path, issue)
    || ObjectAt(json, v, path, issue) || MapAt(json, v, path, issue)
  }

  lemma PartsJoin(json: Json, v: Data, path: Path, issue: Issue)
    requires Examined(json, v)
    ensures SomewhereAt(json, v, path, issue) <==>
              Below(path, issue) && Violated(json, v, Rest(path, issue), issue.problem)
  {
    hide Violated;
    hide ViolatedUnder;
    hide Breaks;
    HereIsNoRest(path, issue);
    if Here(path, issue) {
      ViolatedOnce(json, v, [], issue.problem);
      JoinHere(json, v, path, issue);
    } else if Below(path, issue) {
      ViolatedOnce(json, v, Rest(path, issue), issue.problem);
      JoinBelow(json, v, path, issue);
    }
  }

  lemma JoinHere(json: Json, v: Data, path: Path, issue: Issue)
    requires Examined(json, v) && Here(path, issue)
    ensures SomewhereAt(json, v, path, issue) <==> Breaks(json, v, issue.problem)
  {
    hide HasKey;
    hide OutsideInt;
    hide OutsideReal;
    hide Violated;
    hide ViolatedProperty;
  }

  lemma JoinBelow(json: Json, v: Data, path: Path, issue: Issue)
    requires Below(path, issue) && Rest(path, issue) != []
    ensures var rest := Rest(path, issue);
            SomewhereAt(json, v, path, issue) <==>
              if rest[0].Index? then
                && v.List? && json.items.Some? && rest[0].i < |v.items|
                && Violated(json.items.value, v.items[rest[0].i], rest[1..], issue.problem)
              else v.Dict? && ViolatedUnder(json, v.entries, rest[0].key, rest[1..], issue.problem)
  {
    hide HasKey;
    hide Breaks;
    hide OutsideInt;
    hide Violated;
    hide ViolatedProperty;
  }

  function OwnIssues(json: Json, v: Data, path: Path): seq<Issue> {
    TextIssues(json, v, path) + NumberIssues(json, v, path)
  }

  predicate IsOwn(problem: Problem) {
    problem.HoldsNul? || problem.BadLength? || problem.NoMatch? || problem.OutOfRange?
  }

  lemma OwnExactly(json: Json, v: Data, path: Path, issue: Issue)
    requires Examined(json, v)
    ensures issue in OwnIssues(json, v, path) <==> OwnAt(json, v, path, issue)
  {
  }

  lemma IssuesJoin(json: Json, v: Data, path: Path, issue: Issue)
    requires Examined(json, v)
    ensures issue in Issues(json, v, path) <==>
              || issue in OwnIssues(json, v, path) || issue in ArrayIssues(json, v, path)
              || issue in ObjectIssues(json, v, path) || issue in MapIssues(json, v, path)
  {
    hide ArrayIssues;
    hide ObjectIssues;
    hide MapIssues;
    hide TextIssues;
    hide NumberIssues;
  }

  lemma ViolatedOnce(json: Json, v: Data, rest: Path, problem: Problem)
    requires Examined(json, v)
    ensures Violated(json, v, rest, problem) <==>
              if rest == [] then Breaks(json, v, problem)
              else if rest[0].Index? then
                && v.List? && json.items.Some? && rest[0].i < |v.items|
                && Violated(json.items.value, v.items[rest[0].i], rest[1..], problem)
              else v.Dict? && ViolatedUnder(json, v.entries, rest[0].key, rest[1..], problem)
  {
    hide Breaks;
    hide ViolatedUnder;
  }

  /** Where the step below this place leads to an item, or under a key. */
  predicate AtItem(json: Json, items: seq<Data>, from: nat, path: Path, issue: Issue) {
    && Below(path, issue) && Rest(path, issue) != [] && Rest(path, issue)[0].Index?
    && from <= Rest(path, issue)[0].i < |items|
    && Violated(json, items[Rest(path, issue)[0].i], Rest(path, issue)[1..], issue.problem)
  }

  predicate AtKey(path: Path, issue: Issue) {
    Below(path, issue) && Rest(path, issue) != [] && Rest(path, issue)[0].Property?
  }

  predicate Here(path: Path, issue: Issue) {
    issue.path == path
  }

  lemma {:induction false} ArrayExactly(json: Json, v: Data, path: Path, issue: Issue)
    ensures issue in ArrayIssues(json, v, path) <==> ArrayAt(json, v, path, issue)
    decreases json, 0, 0
  {
    if v.List? && json.items.Some? {
      ItemsExactly(json.items.value, v.items, 0, path, issue);
    }
  }

  lemma {:induction false} ItemsExactly(json: Json, items: seq<Data>, from: nat, path: Path, issue: Issue)
    requires from <= |items|
    ensures issue in ItemIssues(json, items, from, path) <==> AtItem(json, items, from, path, issue)
    decreases json, 4 + |items| - from
  {
    if from < |items| {
      IssuesExactly(json, items[from], path + [Index(from)], issue);
      OneDown(path, Index(from), issue);
      ItemsExactly(json, items, from + 1, path, issue);
    }
  }

  lemma {:induction false} UnknownExactly(properties: seq<Keyed<Json>>, entries: seq<Keyed<Data>>, path: Path,
                                          issue: Issue)
    ensures issue in UnknownIssues(properties, entries, path) <==>
              && Here(path, issue) && issue.problem.UnknownProperty?
              && HasKey(entries, issue.problem.key) && !HasKey(properties, issue.problem.key)
  {
    if entries != [] {
      UnknownExactly(properties, entries[1..], path, issue);
      if issue.problem.UnknownProperty? {
        HasKeyCons(entries, issue.problem.key);
      }
    }
  }

  lemma HasKeyCons(entries: seq<Keyed<Data>>, key: Text)
    requires entries != []
    ensures HasKey(entries, key) <==> entries[0].key == key || HasKey(entries[1..], key)
  {
    if HasKey(entries[1..], key) {
      var i :| 0 <= i < |entries[1..]| && entries[1..][i].key == key;
      assert entries[i + 1].key == key;
    }
    if i :| 0 < i < |entries| && entries[i].key == key {
      assert entries[1..][i - 1].key == key;
    }
  }

  predicate PropertyAt(properties: seq<Keyed<Json>>, required: seq<Text>, entries: seq<Keyed<Data>>, path: Path,
                       issue: Issue)
  {
    && AtKey(path, issue)
    && var key := Rest(path, issue)[0].key;
       exists i :: 0 <= i < |properties| && properties[i].key == key
         && ViolatedProperty(properties[i].value, key in required, Get(entries, key), Rest(path, issue)[1..],
                             issue.problem)
  }

  lemma {:induction false} PropertiesExactly(properties: seq<Keyed<Json>>, required: seq<Text>,
                                             entries: seq<Keyed<Data>>, path: Path, issue: Issue)
    ensures issue in PropertyIssues(properties, required, entries, path) <==>
              PropertyAt(properties, required, entries, path, issue)
    decreases properties, 0
  {
    if properties != [] {
      PropertyExactly(properties[0].key, properties[0].value, required, Get(entries, properties[0].key), path, issue);
      PropertiesExactly(properties[1..], required, entries, path, issue);
      PropertyAtCons(properties, required, entries, path, issue);
    }
  }

  predicate OnePropertyAt(key: Text, json: Json, required: seq<Text>, v: Data, path: Path, issue: Issue) {
    && AtKey(path, issue) && Rest(path, issue)[0].key == key
    && ViolatedProperty(json, key in required, v, Rest(path, issue)[1..], issue.problem)
  }

  lemma {:induction false} PropertyExactly(key: Text, json: Json, required: seq<Text>, v: Data, path: Path,
                                           issue: Issue)
    ensures issue in OneProperty(key, json, required, v, path) <==> OnePropertyAt(key, json, required, v, path, issue)
    decreases json, 4
  {
    IssuesExactly(json, v, path + [Property(key)], issue);
    OneDown(path, Property(key), issue);
    HereIsNoRest(path + [Property(key)], issue);
  }

  lemma PropertyAtCons(properties: seq<Keyed<Json>>, required: seq<Text>, entries: seq<Keyed<Data>>, path: Path,
                       issue: Issue)
    requires properties != []
    ensures PropertyAt(properties, required, entries, path, issue) <==>
              || OnePropertyAt(properties[0].key, properties[0].value, required, Get(entries, properties[0].key), path,
                               issue)
              || PropertyAt(properties[1..], required, entries, path, issue)
  {
    hide ViolatedProperty;
    if PropertyAt(properties[1..], required, entries, path, issue) {
      var key, later := Rest(path, issue)[0].key, properties[1..];
      var i :| 0 <= i < |later| && later[i].key == key
               && ViolatedProperty(later[i].value, key in required, Get(entries, key), Rest(path, issue)[1..],
                                   issue.problem);
      assert properties[i + 1] == later[i];
    }
    if PropertyAt(properties, required, entries, path, issue) {
      var key := Rest(path, issue)[0].key;
      var i :| 0 <= i < |properties| && properties[i].key == key
               && ViolatedProperty(properties[i].value, key in required, Get(entries, key), Rest(path, issue)[1..],
                                   issue.problem);
      if i > 0 {
        assert properties[1..][i - 1] == properties[i];
      }
    }
  }

  lemma {:induction false} ObjectExactly(json: Json, v: Data, path: Path, issue: Issue)
    ensures issue in ObjectIssues(json, v, path) <==> ObjectAt(json, v, path, issue)
    decreases json, 0, 0
  {
    if v.Dict? && json.properties.Properties? {
      UnknownExactly(json.properties.members, v.entries, path, issue);
      PropertiesExactly(json.properties.members, json.required, v.entries, path, issue);
    }
  }

  predicate EntryAt(json: Json, entries: seq<Keyed<Data>>, path: Path, issue: Issue) {
    && AtKey(path, issue)
    && exists i :: 0 <= i < |entries| && entries[i].key == Rest(path, issue)[0].key
         && Violated(json, entries[i].value, Rest(path, issue)[1..], issue.problem)
  }

  predicate BadKeyAt(names: Option<Pattern>, entries: seq<Keyed<Data>>, path: Path, issue: Issue) {
    && Here(path, issue) && issue.problem.BadKey? && HasKey(entries, issue.problem.key)
    && names.Some? && !names.value(issue.problem.key)
  }

  lemma {:induction false} EntriesExactly(json: Json, names: Option<Pattern>, entries: seq<Keyed<Data>>, path: Path,
                                          issue: Issue)
    ensures issue in EntryIssues(json, names, entries, path) <==>
              BadKeyAt(names, entries, path, issue) || EntryAt(json, entries, path, issue)
    decreases json, 4 + |entries|
  {
    if entries != [] {
      IssuesExactly(json, entries[0].value, path + [Property(entries[0].key)], issue);
      OneDown(path, Property(entries[0].key), issue);
      EntriesExactly(json, names, entries[1..], path, issue);
      EntryAtCons(json, entries, path, issue);
      if issue.problem.BadKey? {
        HasKeyCons(entries, issue.problem.key);
      }
    }
  }

  lemma EntryAtCons(json: Json, entries: seq<Keyed<Data>>, path: Path, issue: Issue)
    requires entries != []
    ensures EntryAt(json, entries, path, issue) <==>
              || (AtKey(path, issue) && Rest(path, issue)[0].key == entries[0].key
                  && Violated(json, entries[0].value, Rest(path, issue)[1..], issue.problem))
              || EntryAt(json, entries[1..], path, issue)
  {
    hide Violated;
    if EntryAt(json, entries[1..], path, issue) {
      var later := entries[1..];
      var i :| 0 <= i < |later| && later[i].key == Rest(path, issue)[0].key
               && Violated(json, later[i].value, Rest(path, issue)[1..], issue.problem);
      assert entries[i + 1] == later[i];
    }
    if EntryAt(json, entries, path, issue) {
      var i :| 0 <= i < |entries| && entries[i].key == Rest(path, issue)[0].key
               && Violated(json, entries[i].value, Rest(path, issue)[1..], issue.problem);
      if i > 0 {
        assert entries[1..][i - 1] == entries[i];
      }
    }
  }

  lemma {:induction false} MapExactly(json: Json, v: Data, path: Path, issue: Issue)
    ensures issue in MapIssues(json, v, path) <==> MapAt(json, v, path, issue)
    decreases json, 0, 0
  {
    if v.Dict? && json.additional.Some? {
      EntriesExactly(json.additional.value, json.names, v.entries, path, issue);
    }
  }

  // ------------------------------------------------------------------ the document

  function Inside(v: Data, step: Step): Option<Data> {
    match step
    case Property(key) => if v.Dict? then Some(Get(v.entries, key)) else None
    case Index(i) => if v.List? && i < |v.items| then Some(v.items[i]) else None
  }

  /** What a value holds at a path, `undefined` for a property that is not there. */
  function At(root: Data, path: Path): Option<Data>
    decreases |path|
  {
    if path == [] then Some(root)
    else
      var next := Inside(root, path[0]);
      if next.None? then None else At(next.value, path[1..])
  }

  /** The value the problem names has the shape the keyword is about; a missing property is not there. */
  predicate Fits(v: Data, problem: Problem) {
    match problem
    case NoValue => v.Undefined?
    case MissingProperty => v.Undefined?
    case HoldsNul => v.Str?
    case BadLength => v.Str?
    case NoMatch => v.Str?
    case OutOfRange => v.Number?
    case BadCount => v.List?
    case UnknownProperty(key) => v.Dict? && HasKey(v.entries, key)
    case BadKey(key) => v.Dict? && HasKey(v.entries, key)
    case TooMany => v.Dict?
    case _ => true
  }

  /** A violation is about the value the document holds at its path. */
  lemma {:induction false} ViolationIsThere(json: Json, v: Data, rest: Path, problem: Problem)
    requires Proper(v) && Violated(json, v, rest, problem)
    ensures At(v, rest).Some? && Fits(At(v, rest).value, problem)
    decreases json, 1
  {
    if json.anyOf.AnyOf? {
      ViolationIsThere(json.anyOf.branches[Meant(json.anyOf.branches)], v, rest, problem);
    } else if rest != [] {
      match rest[0]
      case Index(i) =>
        assert v.items[i] in v.items;
        ViolationIsThere(json.items.value, v.items[i], rest[1..], problem);
      case Property(key) => KeyIsThere(json, v, key, rest[1..], problem);
    }
  }

  lemma {:induction false} KeyIsThere(json: Json, v: Data, key: Text, rest: Path, problem: Problem)
    requires Proper(v) && v.Dict? && ViolatedUnder(json, v.entries, key, rest, problem)
    ensures At(Get(v.entries, key), rest).Some? && Fits(At(Get(v.entries, key), rest).value, problem)
    decreases json, 0
  {
    var w := Get(v.entries, key);
    GetIsProper(v.entries, key);
    if json.properties.Properties?
       && exists i :: 0 <= i < |json.properties.members| && json.properties.members[i].key == key
            && ViolatedProperty(json.properties.members[i].value, key in json.required, w, rest, problem)
    {
      var i :| 0 <= i < |json.properties.members| && json.properties.members[i].key == key
               && ViolatedProperty(json.properties.members[i].value, key in json.required, w, rest, problem);
      if !(w.Undefined? && key in json.required) {
        ViolationIsThere(json.properties.members[i].value, w, rest, problem);
      }
    } else {
      var i :| 0 <= i < |v.entries| && v.entries[i].key == key
               && Violated(json.additional.value, v.entries[i].value, rest, problem);
      EntryThere(v.entries, i);
      ViolationIsThere(json.additional.value, w, rest, problem);
    }
  }

  /**
   The issues of a document are exactly its violations: for each the path leads to a value of the document and
   a schema whose keyword it breaks, and there are none exactly when the document satisfies the schema.
   */
  lemma DocumentIssuesAreGenuine(json: Json, v: Data, issue: Issue)
    ensures issue in Issues(json, v, []) <==> Violated(json, v, issue.path, issue.problem)
    ensures Proper(v) && issue in Issues(json, v, []) ==>
              At(v, issue.path).Some? && Fits(At(v, issue.path).value, issue.problem)
    ensures Issues(json, v, []) == [] <==> Meets(json, v)
  {
    IssuesExactly(json, v, [], issue);
    assert Below([], issue) && Rest([], issue) == issue.path;
    if Proper(v) && Violated(json, v, issue.path, issue.problem) {
      ViolationIsThere(json, v, issue.path, issue.problem);
    }
    NoneWhenMet(json, v, []);
  }
}
