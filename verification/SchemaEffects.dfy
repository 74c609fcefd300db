/** What each statement leaves behind: flags, columns, indexes, keys and policies, and what it does not touch. */
module SchemaEffects {
  import opened Options
  import opened SchemaModel
  import opened SchemaIntegrity

  // ------------------------------------------------------------------ row level security

  /** The actions up to the first that throws, that one included. */
  function Performed(p: Patterns, actions: seq<Action>): seq<Action> {
    if actions == [] then []
    else if Throws(p, actions[0]) then [actions[0]]
    else [actions[0]] + Performed(p, actions[1..])
  }

  /** The last setting among the actions, or what was before. */
  function LastSecured(actions: seq<Action>, before: bool): bool {
    if actions == [] then before
    else LastSecured(actions[1..], if actions[0].SetSecured? then actions[0].on else before)
  }

  function LastForced(actions: seq<Action>, before: bool): bool {
    if actions == [] then before
    else LastForced(actions[1..], if actions[0].SetForced? then actions[0].on else before)
  }

  /** Where the table is after these actions. */
  function KeyAtEnd(key: string, actions: seq<Action>): string
    decreases |actions|
  {
    if actions == [] then key else KeyAtEnd(KeyAfter(key, actions[0]), actions[1..])
  }

  lemma ActedFlags(p: Patterns, m: Model, key: string, a: Action)
    requires key in m.tables
    ensures var m', k := Acted(p, m, key, a), KeyAfter(key, a);
            && k in m'.tables
            && m'.tables[k].secured == (if a.SetSecured? then a.on else m.tables[key].secured)
            && m'.tables[k].forced == (if a.SetForced? then a.on else m.tables[key].forced)
  {
  }

  /**
   After an `alter table` the table, wherever its renames have led, is under row level security as the last of the
   performed settings has it, and was before when there is none; likewise for its owners.
   */
  lemma {:induction false} SecurityIsTheLastSet(p: Patterns, m: Model, key: string, actions: seq<Action>)
    requires key in m.tables
    ensures var m', done := Actions(p, m, key, actions), Performed(p, actions);
            var k := KeyAtEnd(key, done);
            && k in m'.tables
            && m'.tables[k].secured == LastSecured(done, m.tables[key].secured)
            && m'.tables[k].forced == LastForced(done, m.tables[key].forced)
    decreases |actions|
  {
    if actions != [] {
      var next, k := Acted(p, m, key, actions[0]), KeyAfter(key, actions[0]);
      ActedFlags(p, m, key, actions[0]);
      if Throws(p, actions[0]) {
        assert [actions[0]][1..] == [];
      } else {
        SecurityIsTheLastSet(p, next, k, actions[1..]);
        assert ([actions[0]] + Performed(p, actions[1..]))[1..] == Performed(p, actions[1..]);
      }
    }
  }

  /** An action changes no table but its own, and the one it is renamed to. */
  lemma ActsOnOneTable(p: Patterns, m: Model, key: string, a: Action, other: string)
    requires other != key && other != KeyAfter(key, a)
    ensures var m' := Acted(p, m, key, a);
            && (other in m'.tables <==> other in m.tables)
            && (other in m.tables ==> m'.tables[other] == m.tables[other])
  {
  }

  // ------------------------------------------------------------------ columns

  /** The columns of a table after one action on it. */
  function ColumnsAfter(columns: map<string, Column>, a: Action): map<string, Column> {
    match a
    case AddColumn(ifNotExists, column, _) =>
      if ifNotExists && column.name in columns then columns else columns[column.name := column]
    case DropColumn(name) => map c | c in columns && c != name :: columns[c]
    case RenameColumn(from, column) =>
      if from in columns then (map c | c in columns && c != from :: columns[c])[column.name := column] else columns
    case _ => columns
  }

  lemma ActedColumns(p: Patterns, m: Model, key: string, a: Action)
    requires key in m.tables
    ensures var m', k := Acted(p, m, key, a), KeyAfter(key, a);
            k in m'.tables && m'.tables[k].columns == ColumnsAfter(m.tables[key].columns, a)
  {
    match a
    case DropColumn(name) => LessColumn(m.tables[key].columns, name);
    case RenameColumn(from, _) => LessColumn(m.tables[key].columns, from);
    case _ =>
  }

  lemma LessColumn(columns: map<string, Column>, name: string)
    ensures columns - {name} == map c | c in columns && c != name :: columns[c]
  {
  }

  /** A column an element defines replaces one of its name. */
  function WithElement(columns: map<string, Column>, e: Element): map<string, Column> {
    if e.ColumnElement? then columns[e.column.name := e.column] else columns
  }

  function ColumnsBy(columns: map<string, Column>, es: seq<Element>): map<string, Column>
    decreases |es|
  {
    if es == [] then columns else ColumnsBy(WithElement(columns, es[0]), es[1..])
  }

  lemma {:induction false} ColumnsBySnoc(columns: map<string, Column>, es: seq<Element>, e: Element)
    ensures ColumnsBy(columns, es + [e]) == WithElement(ColumnsBy(columns, es), e)
    decreases |es|
  {
    if es != [] {
      ColumnsBySnoc(WithElement(columns, es[0]), es[1..], e);
      assert (es + [e])[1..] == es[1..] + [e];
    }
  }

  lemma {:induction false} ColumnsByKeys(columns: map<string, Column>, es: seq<Element>)
    ensures ColumnsBy(columns, es).Keys == columns.Keys + Defined(es)
    decreases |es|
  {
    if es != [] {
      ColumnsByKeys(WithElement(columns, es[0]), es[1..]);
      assert es == [es[0]] + es[1..];
    }
  }

  lemma ElementedTable(m: Model, key: string, e: Element)
    requires key in m.tables
    ensures var table := m.tables[key];
            Elemented(m, key, e).tables == m.tables[key := table.(columns := WithElement(table.columns, e))]
    ensures Elemented(m, key, e).policies == m.policies
  {
  }

  lemma {:induction false} ElementsTable(m: Model, key: string, es: seq<Element>)
    requires key in m.tables
    ensures var table := m.tables[key];
            Elements(m, key, es).tables == m.tables[key := table.(columns := ColumnsBy(table.columns, es))]
    ensures Elements(m, key, es).policies == m.policies
    decreases |es|
  {
    if es != [] {
      var init, last := es[..|es| - 1], es[|es| - 1];
      assert es == init + [last];
      ElementsTable(m, key, init);
      ColumnsBySnoc(m.tables[key].columns, init, last);
      ElementedTable(Elements(m, key, init), key, last);
      hide Elemented;
      hide WithElement;
    }
  }

  /**
   A created table has its statement's schema, name and flags, exactly the columns defined, the last of a name where it
   is repeated, and no row level security; no other table changes. One that is there already stays when asked for.
   */
  lemma CreatedHasItsColumns(p: Patterns, m: Model, s: Statement)
    requires s.CreateTable?
    ensures var named := s.table.schema;
            var schema := if s.temporary then "pg_temp" else if named.Some? then named.value else "public";
            var key := schema + "." + s.table.name;
            if key in m.tables && s.ifNotExists then Applied(p, m, s) == m
            else
              && Applied(p, m, s).tables ==
                 m.tables[key := Table(schema, s.table.name, s.quoted, s.temporary, ColumnsBy(map[], s.elements), false,
                                       false)]
              && ColumnsBy(map[], s.elements).Keys == Defined(s.elements)
              && Applied(p, m, s).policies == m.policies
  {
    var table := NewTable(m, s.table, s.quoted, s.temporary);
    var key := TableKey(table.schema, s.table.name);
    assert Applied(p, m, s) == CreatedTable(m, key, table, s.ifNotExists, s.elements);
    hide Applied;
    ColumnsByKeys(map[], s.elements);
    if !(key in m.tables && s.ifNotExists) {
      ElementsTable(m.(tables := m.tables[key := table]), key, s.elements);
    }
    hide Elements;
    hide ColumnsBy;
    hide Defined;
  }

  // ------------------------------------------------------------------ constraints and indexes

  /** The columns in a default name come in order, one underscore between any two. */
  lemma {:induction false} ColumnsJoin(names: seq<string>, last: string)
    ensures Joined([]) == "" && Joined([last]) == last
    ensures names != [] ==> Joined(names + [last]) == Joined(names) + "_" + last
    decreases |names|
  {
    if |names| == 1 {
      assert (names + [last])[1..] == [last];
    } else if names != [] {
      ColumnsJoin(names[1..], last);
      assert (names + [last])[1..] == names[1..] + [last];
    }
  }

  /** A constraint of a table adds one index or one key, named as given or by its table and columns. */
  lemma ConstraintMakes(m: Model, key: string, c: TableConstraint)
    requires key in m.tables
    ensures var m', table := Constrained(m, key, c), m.tables[key].name;
            && m'.tables == m.tables && m'.policies == m.policies
            && match c
               case Primary(name, columns) =>
                 && m'.foreignKeys == m.foreignKeys
                 && m'.indexes == m.indexes + [Index(if name.Some? then name.value else table + "_pkey", key,
                                                     PrimaryIndex, true, columns, None)]
               case Unique(name, columns) =>
                 && m'.foreignKeys == m.foreignKeys
                 && m'.indexes == m.indexes + [Index(
                      if name.Some? then name.value else table + "_" + Joined(columns) + "_key", key,
                      UniqueIndex, true, columns, None)]
               case UniqueUsing(_, _) => m'.foreignKeys == m.foreignKeys && |m'.indexes| == |m.indexes|
               case Foreign(name, columns, ref, refColumns) =>
                 && m'.indexes == m.indexes && |m'.foreignKeys| == |m.foreignKeys| + 1
                 && m'.foreignKeys[..|m.foreignKeys|] == m.foreignKeys
                 && var fk := m'.foreignKeys[|m.foreignKeys|];
                    && fk.name == (if name.Some? then name.value else table + "_" + Joined(columns) + "_fkey")
                    && fk.table == key && fk.columns == columns && fk.refTable == Resolve(m, ref)
                    && (refColumns.Some? ==> fk.refColumns == refColumns.value)
                    && (refColumns.None? ==>
                          |fk.refColumns| == |columns| && forall i :: 0 <= i < |columns| ==> fk.refColumns[i] == "id")
               case OtherConstraint => m' == m
  {
  }

  /** The indexes that the constraints written with a column add, in order. */
  function OwnIndexes(table: string, key: string, column: string, cs: seq<ColumnConstraint>): seq<Index> {
    if cs == [] then []
    else
      (match cs[0]
       case OwnPrimary(name) =>
         [Index(if name.Some? then name.value else table + "_pkey", key, PrimaryIndex, true, [column], None)]
       case OwnUnique(name) =>
         [Index(if name.Some? then name.value else table + "_" + column + "_key", key, UniqueIndex, true, [column],
                None)]
       case OwnReference(_, _, _) => [])
      + OwnIndexes(table, key, column, cs[1..])
  }

  /** The keys they add; what they refer to is looked up among the tables of the model. */
  function OwnKeys(m: Model, table: string, key: string, column: string, cs: seq<ColumnConstraint>): seq<ForeignKey> {
    if cs == [] then []
    else
      (if cs[0].OwnReference? then
         [ForeignKey(if cs[0].name.Some? then cs[0].name.value else table + "_" + column + "_fkey", key, [column],
                     Resolve(m, cs[0].ref), if cs[0].refColumns.Some? then cs[0].refColumns.value else ["id"])]
       else [])
      + OwnKeys(m, table, key, column, cs[1..])
  }

  lemma {:induction false} OwnConstraintsMake(m: Model, key: string, column: string, cs: seq<ColumnConstraint>)
    requires key in m.tables
    ensures var m', table := OwnConstraints(m, key, column, cs), m.tables[key].name;
            && m'.indexes == m.indexes + OwnIndexes(table, key, column, cs)
            && m'.foreignKeys == m.foreignKeys + OwnKeys(m, table, key, column, cs)
    decreases |cs|
  {
    if cs != [] {
      var next := OwnConstraint(m, key, column, cs[0]);
      OwnConstraintsMake(next, key, column, cs[1..]);
      SameTablesSameKeys(m, next, m.tables[key].name, key, column, cs[1..]);
    }
  }

  lemma {:induction false} SameTablesSameKeys(m: Model, n: Model, table: string, key: string, column: string,
                                              cs: seq<ColumnConstraint>)
    requires m.tables.Keys == n.tables.Keys
    ensures OwnKeys(m, table, key, column, cs) == OwnKeys(n, table, key, column, cs)
    decreases |cs|
  {
    if cs != [] {
      SameTablesSameKeys(m, n, table, key, column, cs[1..]);
    }
  }

  /** An added column brings exactly the indexes and keys of its constraints; a setting touches none. */
  lemma ActedConstraints(p: Patterns, m: Model, key: string, a: Action)
    requires key in m.tables
    ensures a.AddColumn? && !(a.ifNotExists && a.column.name in m.tables[key].columns) ==>
              var table, m' := m.tables[key].name, Acted(p, m, key, a);
              && m'.indexes == m.indexes + OwnIndexes(table, key, a.column.name, a.constraints)
              && m'.foreignKeys == m.foreignKeys + OwnKeys(m, table, key, a.column.name, a.constraints)
    ensures a.AddColumn? && a.ifNotExists && a.column.name in m.tables[key].columns ==> Acted(p, m, key, a) == m
    ensures a.SetSecured? || a.SetForced? ==>
              var m' := Acted(p, m, key, a);
              m'.indexes == m.indexes && m'.foreignKeys == m.foreignKeys && m'.policies == m.policies
  {
    if a.AddColumn? {
      var n := WithColumns(m, key, m.tables[key].columns[a.column.name := a.column]);
      OwnConstraintsMake(n, key, a.column.name, a.constraints);
      SameTablesSameKeys(m, n, m.tables[key].name, key, a.column.name, a.constraints);
    }
  }

  /** What one element adds, but for a constraint that takes an index over. */
  function MadeIndexes(table: string, key: string, e: Element): seq<Index> {
    match e
    case ColumnElement(column, cs) => OwnIndexes(table, key, column.name, cs)
    case ConstraintElement(Primary(name, columns)) =>
      [Index(if name.Some? then name.value else table + "_pkey", key, PrimaryIndex, true, columns, None)]
    case ConstraintElement(Unique(name, columns)) =>
      [Index(if name.Some? then name.value else table + "_" + Joined(columns) + "_key", key, UniqueIndex, true, columns,
             None)]
    case _ => []
  }

  function MadeKeys(m: Model, table: string, key: string, e: Element): seq<ForeignKey> {
    match e
    case ColumnElement(column, cs) => OwnKeys(m, table, key, column.name, cs)
    case ConstraintElement(Foreign(name, columns, ref, refColumns)) =>
      [ForeignKey(if name.Some? then name.value else table + "_" + Joined(columns) + "_fkey", key, columns,
                  Resolve(m, ref), if refColumns.Some? then refColumns.value else seq(|columns|, _ => "id"))]
    case _ => []
  }

  function AllMade(table: string, key: string, es: seq<Element>): seq<Index> {
    if es == [] then [] else AllMade(table, key, es[..|es| - 1]) + MadeIndexes(table, key, es[|es| - 1])
  }

  function AllKeys(m: Model, table: string, key: string, es: seq<Element>): seq<ForeignKey> {
    if es == [] then [] else AllKeys(m, table, key, es[..|es| - 1]) + MadeKeys(m, table, key, es[|es| - 1])
  }

  predicate TakesOver(e: Element) {
    e.ConstraintElement? && e.constraint.UniqueUsing?
  }

  predicate NoneTakesOver(es: seq<Element>) {
    forall e :: e in es ==> !TakesOver(e)
  }

  lemma ElementMakes(m: Model, key: string, e: Element)
    requires key in m.tables
    ensures var m', table := Elemented(m, key, e), m.tables[key].name;
            && (!TakesOver(e) ==> m'.indexes == m.indexes + MadeIndexes(table, key, e))
            && m'.foreignKeys == m.foreignKeys + MadeKeys(m, table, key, e)
  {
    if e.ColumnElement? {
      var n := WithColumns(m, key, m.tables[key].columns[e.column.name := e.column]);
      OwnConstraintsMake(n, key, e.column.name, e.constraints);
      SameTablesSameKeys(m, n, m.tables[key].name, key, e.column.name, e.constraints);
    } else {
      hide OwnConstraints;
      hide OwnIndexes;
      hide OwnKeys;
    }
  }

  lemma MadeKeysSame(m: Model, n: Model, table: string, key: string, e: Element)
    requires m.tables.Keys == n.tables.Keys
    ensures MadeKeys(m, table, key, e) == MadeKeys(n, table, key, e)
  {
    if e.ColumnElement? {
      SameTablesSameKeys(m, n, table, key, e.column.name, e.constraints);
    }
  }

  lemma OneMoreElement(m: Model, table: string, key: string, es: seq<Element>)
    requires es != []
    ensures var init, last := es[..|es| - 1], es[|es| - 1];
            && Elements(m, key, es) == Elemented(Elements(m, key, init), key, last)
            && AllMade(table, key, es) == AllMade(table, key, init) + MadeIndexes(table, key, last)
            && AllKeys(m, table, key, es) == AllKeys(m, table, key, init) + MadeKeys(m, table, key, last)
  {
  }

  lemma NoneInFront(es: seq<Element>)
    requires es != []
    ensures NoneTakesOver(es) ==> NoneTakesOver(es[..|es| - 1]) && !TakesOver(es[|es| - 1])
  {
    hide TakesOver;
  }

  lemma {:induction false} ElementsMake(m: Model, key: string, es: seq<Element>)
    requires key in m.tables
    ensures var m', table := Elements(m, key, es), m.tables[key].name;
            && (NoneTakesOver(es) ==> m'.indexes == m.indexes + AllMade(table, key, es))
            && m'.foreignKeys == m.foreignKeys + AllKeys(m, table, key, es)
    decreases |es|
  {
    if es != [] {
      var init, last, table := es[..|es| - 1], es[|es| - 1], m.tables[key].name;
      var n := Elements(m, key, init);
      OneMoreElement(m, table, key, es);
      hide *;
      ElementsMake(m, key, init);
      ElementsTable(m, key, init);
      ElementMakes(n, key, last);
      MadeKeysSame(m, n, table, key, last);
      NoneInFront(es);
      Regrouped(m.indexes, AllMade(table, key, init), MadeIndexes(table, key, last));
      Regrouped(m.foreignKeys, AllKeys(m, table, key, init), MadeKeys(m, table, key, last));
    }
  }

  lemma Regrouped<T>(a: seq<T>, b: seq<T>, c: seq<T>)
    ensures a + b + c == a + (b + c)
  {
  }

  /** A created table brings the indexes and keys of its elements, in their order. */
  lemma CreatedHasItsConstraints(p: Patterns, m: Model, s: Statement)
    requires s.CreateTable?
    ensures var named := s.table.schema;
            var schema := if s.temporary then "pg_temp" else if named.Some? then named.value else "public";
            var key, m' := schema + "." + s.table.name, Applied(p, m, s);
            !(key in m.tables && s.ifNotExists) ==>
              && (NoneTakesOver(s.elements) ==> m'.indexes == m.indexes + AllMade(s.table.name, key, s.elements))
              && m'.foreignKeys == m.foreignKeys + AllKeys(m', s.table.name, key, s.elements)
  {
    var table := NewTable(m, s.table, s.quoted, s.temporary);
    var key := TableKey(table.schema, s.table.name);
    if !(key in m.tables && s.ifNotExists) {
      var n := m.(tables := m.tables[key := table]);
      ElementsMake(n, key, s.elements);
      ElementsTable(n, key, s.elements);
      AllKeysSame(n, Applied(p, m, s), s.table.name, key, s.elements);
    }
  }

  lemma {:induction false} AllKeysSame(m: Model, n: Model, table: string, key: string, es: seq<Element>)
    requires m.tables.Keys == n.tables.Keys
    ensures AllKeys(m, table, key, es) == AllKeys(n, table, key, es)
    decreases |es|
  {
    if es != [] {
      AllKeysSame(m, n, table, key, es[..|es| - 1]);
      MadeKeysSame(m, n, table, key, es[|es| - 1]);
    }
  }

  predicate IsClaimed(ix: Index, key: string, index: string) {
    ix.name == index && ix.table == key
  }

  lemma {:induction false} ClaimedUpTo(indexes: seq<Index>, key: string, index: string, name: Option<string>, i: nat)
    requires i < |indexes| && forall j :: 0 <= j < i ==> !IsClaimed(indexes[j], key, index)
    ensures Claimed(indexes, key, index, name)[i] ==
            if IsClaimed(indexes[i], key, index) then
              Index(if name.Some? then name.value else index, key, UniqueIndex, true, indexes[i].columns,
                    indexes[i].condition)
            else indexes[i]
  {
    if i > 0 {
      assert !IsClaimed(indexes[0], key, index);
      ClaimedUpTo(indexes[1..], key, index, name, i - 1);
    }
  }

  lemma {:induction false} ClaimedBefore(indexes: seq<Index>, key: string, index: string, name: Option<string>, j: nat,
                                         i: nat)
    requires j < i < |indexes| && IsClaimed(indexes[j], key, index)
    ensures Claimed(indexes, key, index, name)[i] == indexes[i]
  {
    if j > 0 && !IsClaimed(indexes[0], key, index) {
      ClaimedBefore(indexes[1..], key, index, name, j - 1, i - 1);
    }
  }

  /** Of the indexes of this name on the table, the first and only that one becomes a unique constraint. */
  lemma ClaimsTheFirst(indexes: seq<Index>, key: string, index: string, name: Option<string>, i: nat)
    requires i < |indexes|
    ensures Claimed(indexes, key, index, name)[i] ==
            if IsClaimed(indexes[i], key, index) && forall j :: 0 <= j < i ==> !IsClaimed(indexes[j], key, index) then
              Index(if name.Some? then name.value else index, key, UniqueIndex, true, indexes[i].columns,
                    indexes[i].condition)
            else indexes[i]
  {
    hide Claimed;
    hide IsClaimed;
    if j :| 0 <= j < i && IsClaimed(indexes[j], key, index) {
      ClaimedBefore(indexes, key, index, name, j, i);
    } else {
      ClaimedUpTo(indexes, key, index, name, i);
    }
  }

  /** Unique exactly when it is more than a plain index; a primary key has no condition. */
  predicate KindFits(ix: Index) {
    (ix.unique <==> !ix.kind.PlainIndex?) && (ix.kind.PrimaryIndex? ==> ix.condition.None?)
  }

  predicate KindsFit(m: Model) {
    forall ix :: ix in m.indexes ==> KindFits(ix)
  }

  lemma KindsAppend(m: Model, n: Model, ix: Index)
    requires KindsFit(m) && n.indexes == m.indexes + [ix] && KindFits(ix)
    ensures KindsFit(n)
  {
  }

  lemma KindsFewer(m: Model, n: Model)
    requires KindsFit(m) && forall ix :: ix in n.indexes ==> ix in m.indexes
    ensures KindsFit(n)
  {
  }

  lemma KindsMapped(m: Model, n: Model, f: Index -> Index)
    requires KindsFit(m) && n.indexes == Mapped(m.indexes, f) && forall ix :: KindFits(ix) ==> KindFits(f(ix))
    ensures KindsFit(n)
  {
  }

  lemma {:induction false} OwnConstraintsKinds(m: Model, key: string, column: string, cs: seq<ColumnConstraint>)
    requires key in m.tables && KindsFit(m)
    ensures KindsFit(OwnConstraints(m, key, column, cs))
    decreases |cs|
  {
    if cs != [] {
      OwnConstraintsKinds(OwnConstraint(m, key, column, cs[0]), key, column, cs[1..]);
    }
  }

  lemma WithColumnKinds(m: Model, key: string, column: Column, cs: seq<ColumnConstraint>)
    requires KindsFit(m)
    ensures KindsFit(WithColumn(m, key, column, cs))
  {
    if key in m.tables {
      OwnConstraintsKinds(WithColumns(m, key, m.tables[key].columns[column.name := column]), key, column.name, cs);
    }
  }

  lemma ConstrainedKinds(m: Model, key: string, c: TableConstraint)
    requires KindsFit(m)
    ensures KindsFit(Constrained(m, key, c))
  {
    if key in m.tables {
      ConstraintMakes(m, key, c);
      if c.UniqueUsing? {
        ClaimedKinds(m.indexes, key, c.index, c.name);
      }
    }
  }

  lemma ClaimedKinds(indexes: seq<Index>, key: string, index: string, name: Option<string>)
    requires forall ix :: ix in indexes ==> KindFits(ix)
    ensures forall ix :: ix in Claimed(indexes, key, index, name) ==> KindFits(ix)
  {
    var claimed := Claimed(indexes, key, index, name);
    forall i | 0 <= i < |claimed| ensures KindFits(claimed[i]) {
      ClaimsTheFirst(indexes, key, index, name, i);
      assert indexes[i] in indexes;
    }
  }

  lemma {:induction false} ElementsKinds(m: Model, key: string, es: seq<Element>)
    requires KindsFit(m)
    ensures KindsFit(Elements(m, key, es))
    decreases |es|
  {
    if es != [] {
      var init, e := Elements(m, key, es[..|es| - 1]), es[|es| - 1];
      ElementsKinds(m, key, es[..|es| - 1]);
      match e
      case ColumnElement(column, cs) => WithColumnKinds(init, key, column, cs);
      case ConstraintElement(c) => ConstrainedKinds(init, key, c);
    }
  }

  lemma ActedKinds(p: Patterns, m: Model, key: string, a: Action)
    requires KindsFit(m)
    ensures KindsFit(Acted(p, m, key, a))
  {
    match a
    case AddColumn(_, column, cs) => WithColumnKinds(m, key, column, cs);
    case AddConstraint(c) => ConstrainedKinds(m, key, c);
    case RenameTo(to) =>
      if key in m.tables {
        KindsMapped(m, Acted(p, m, key, a), MovedIndex(key, MovedTo(key, to)));
      }
    case RenameConstraint(from, to) => KindsMapped(m, Acted(p, m, key, a), RelabeledIndex(key, from, to));
    case RenameColumn(from, column) =>
      if key in m.tables {
        KindsMapped(m, Acted(p, m, key, a), RecolumnedIndex(key, from, column.name));
      }
    case DropConstraint(_) => KindsFewer(m, Acted(p, m, key, a));
    case DropColumn(_) => KindsFewer(m, Acted(p, m, key, a));
    case _ =>
  }

  lemma {:induction false} ActionsKinds(p: Patterns, m: Model, key: string, actions: seq<Action>)
    requires KindsFit(m)
    ensures KindsFit(Actions(p, m, key, actions))
    decreases |actions|
  {
    if actions != [] {
      ActedKinds(p, m, key, actions[0]);
      ActionsKinds(p, Acted(p, m, key, actions[0]), KeyAfter(key, actions[0]), actions[1..]);
    }
  }

  lemma {:induction false} DropsKinds(m: Model, names: seq<TableName>)
    requires KindsFit(m)
    ensures KindsFit(DroppedTables(m, names))
    decreases |names|
  {
    if names != [] {
      DropsKinds(DroppedTable(m, Resolve(m, names[0])), names[1..]);
    }
  }

  // ------------------------------------------------------------------ dropped columns

  /**
   What a column drop leaves: of the table's indexes those that neither list the column nor mention it in an
   expression or condition, of the keys those that do not use it at either end, and everything of other tables.
   */
  lemma DropColumnLeaves(p: Patterns, m: Model, key: string, column: string)
    requires p.compiles(column)
    ensures var n := DroppedColumn(p, m, key, column);
            && n.policies == m.policies && n.tables.Keys == m.tables.Keys
            && (forall k :: k in m.tables && k != key ==> n.tables[k] == m.tables[k])
    ensures forall ix :: ix in DroppedColumn(p, m, key, column).indexes <==>
              && ix in m.indexes
              && (ix.table == key ==>
                    && column !in ix.columns
                    && (forall c :: c in ix.columns && c != "" && c[0] == '(' ==> !p.mentions(column, c))
                    && (ix.condition.Some? ==> !p.mentions(column, ix.condition.value)))
    ensures forall fk :: fk in DroppedColumn(p, m, key, column).foreignKeys <==>
              && fk in m.foreignKeys
              && (fk.table == key ==> column !in fk.columns) && (fk.refTable == key ==> column !in fk.refColumns)
  {
  }

  // ------------------------------------------------------------------ names

  /** A name with a schema is that table's; one without is a temporary table's if there is one, else a public one's. */
  lemma ResolvesTo(m: Model, schema: string, name: string)
    ensures schema != "" ==> Resolve(m, TableName(Some(schema), name)) == schema + "." + name
    ensures Resolve(m, TableName(None, name)) ==
            if "pg_temp" + "." + name in m.tables then "pg_temp" + "." + name else "public" + "." + name
    ensures Resolve(m, TableName(Some(""), name)) == Resolve(m, TableName(None, name))
  {
  }

  /** Constraints of the name on the table, keys and indexes, get the new name; everything else stays. */
  lemma ConstraintRenamed(m: Model, key: string, from: string, to: string)
    ensures var m' := RenamedConstraint(m, key, from, to);
            && m'.tables == m.tables && m'.policies == m.policies
            && |m'.indexes| == |m.indexes| && |m'.foreignKeys| == |m.foreignKeys|
            && (forall i :: 0 <= i < |m.indexes| ==>
                  m'.indexes[i] ==
                  if m.indexes[i].table == key && m.indexes[i].name == from then m.indexes[i].(name := to)
                    else m.indexes[i])
            && forall i :: 0 <= i < |m.foreignKeys| ==>
                 m'.foreignKeys[i] ==
                 if m.foreignKeys[i].table == key && m.foreignKeys[i].name == from then m.foreignKeys[i].(name := to)
                 else m.foreignKeys[i]
  {
  }

  /** The columns with one of them renamed. */
  function Renamed(columns: seq<string>, from: string, to: string): seq<string> {
    if columns == [] then []
    else [if columns[0] == from then to else columns[0]] + Renamed(columns[1..], from, to)
  }

  lemma {:induction false} SwappedIsRenamed(columns: seq<string>, from: string, to: string)
    ensures SwappedAll(columns, from, to) == Renamed(columns, from, to)
  {
    if columns != [] {
      SwappedIsRenamed(columns[1..], from, to);
      assert SwappedAll(columns, from, to) == [Swap(columns[0], from, to)] + SwappedAll(columns[1..], from, to);
    }
  }

  /** Indexes of the table and both ends of its keys follow a renamed column; everything else stays. */
  lemma ColumnRenamedEverywhere(m: Model, key: string, from: string, column: Column)
    requires key in m.tables
    ensures var m' := RenamedColumn(m, key, from, column);
            && m'.policies == m.policies
            && |m'.indexes| == |m.indexes| && |m'.foreignKeys| == |m.foreignKeys|
    ensures forall i :: 0 <= i < |m.indexes| ==>
              var ix := m.indexes[i];
              RenamedColumn(m, key, from, column).indexes[i] ==
              if ix.table == key then ix.(columns := Renamed(ix.columns, from, column.name)) else ix
    ensures forall i :: 0 <= i < |m.foreignKeys| ==>
              var fk, fk' := m.foreignKeys[i], RenamedColumn(m, key, from, column).foreignKeys[i];
              && fk'.name == fk.name && fk'.table == fk.table && fk'.refTable == fk.refTable
              && fk'.columns == (if fk.table == key then Renamed(fk.columns, from, column.name) else fk.columns)
              && fk'.refColumns == if fk.refTable == key then Renamed(fk.refColumns, from, column.name)
                  else fk.refColumns
  {
    forall columns ensures SwappedAll(columns, from, column.name) == Renamed(columns, from, column.name) {
      SwappedIsRenamed(columns, from, column.name);
    }
    hide SwappedAll;
    hide Renamed;
  }

  // ------------------------------------------------------------------ other statements

  /** Exactly the indexes of these names go. */
  lemma {:induction false} IndexesDropped(m: Model, names: seq<string>, ix: Index)
    ensures ix in DroppedIndexes(m, names).indexes <==> ix in m.indexes && ix.name !in names
    ensures DroppedIndexes(m, names) == m.(indexes := DroppedIndexes(m, names).indexes)
    decreases |names|
  {
    if names != [] {
      var n := m.(indexes := Filtered(m.indexes, IndexNotNamed(names[0])));
      IndexesDropped(n, names[1..], ix);
      assert names == [names[0]] + names[1..];
    }
  }

  predicate IsPolicy(q: Policy, key: string, name: string) {
    q.table == key && q.name == name
  }

  lemma {:induction false} PolicyRenamedUpTo(policies: seq<Policy>, key: string, name: string, to: string, i: nat)
    requires i < |policies| && forall j :: 0 <= j < i ==> !IsPolicy(policies[j], key, name)
    ensures PolicyRenamed(policies, key, name, to)[i] ==
            if IsPolicy(policies[i], key, name) then Policy(to, key, policies[i].command, policies[i].roles)
            else policies[i]
  {
    if i > 0 {
      assert !IsPolicy(policies[0], key, name);
      PolicyRenamedUpTo(policies[1..], key, name, to, i - 1);
    }
  }

  lemma {:induction false} PolicyRenamedBefore(policies: seq<Policy>, key: string, name: string, to: string, j: nat,
                                               i: nat)
    requires j < i < |policies| && IsPolicy(policies[j], key, name)
    ensures PolicyRenamed(policies, key, name, to)[i] == policies[i]
  {
    if j > 0 && !IsPolicy(policies[0], key, name) {
      PolicyRenamedBefore(policies[1..], key, name, to, j - 1, i - 1);
    }
  }

  /** The first policy of the name on the table, and only it, has the new name. */
  lemma FirstPolicyRenamed(policies: seq<Policy>, key: string, name: string, to: string, i: nat)
    requires i < |policies|
    ensures PolicyRenamed(policies, key, name, to)[i] ==
            if IsPolicy(policies[i], key, name) && forall j :: 0 <= j < i ==> !IsPolicy(policies[j], key, name) then
              Policy(to, key, policies[i].command, policies[i].roles)
            else policies[i]
  {
    hide PolicyRenamed;
    hide IsPolicy;
    if j :| 0 <= j < i && IsPolicy(policies[j], key, name) {
      PolicyRenamedBefore(policies, key, name, to, j, i);
    } else {
      PolicyRenamedUpTo(policies, key, name, to, i);
    }
  }

  /** What a statement on an index or a policy does, and that it does nothing else. */
  lemma IndexAndPolicyEffects(p: Patterns, m: Model, s: Statement)
    requires s.CreateIndex? || s.RenameIndex? || s.DropIndex? || s.CreatePolicy? || s.RenamePolicy? || s.DropPolicy?
    ensures var m' := Applied(p, m, s);
            && m'.tables == m.tables && m'.foreignKeys == m.foreignKeys
            && (s.CreateIndex? || s.RenameIndex? || s.DropIndex? ==> m'.policies == m.policies)
            && (s.CreatePolicy? || s.RenamePolicy? || s.DropPolicy? ==> m'.indexes == m.indexes)
    ensures s.CreateIndex? ==>
              Applied(p, m, s).indexes ==
              if s.ifNotExists && exists ix :: ix in m.indexes && ix.name == s.name then m.indexes
              else m.indexes + [Index(s.name, Resolve(m, s.table), if s.unique then UniqueIndex else PlainIndex,
                                      s.unique, s.columns, s.condition)]
    ensures s.RenameIndex? ==>
              && |Applied(p, m, s).indexes| == |m.indexes|
              && forall i :: 0 <= i < |m.indexes| ==>
                   Applied(p, m, s).indexes[i] == if m.indexes[i].name == s.name
                       then m.indexes[i].(name := s.to) else m.indexes[i]
    ensures s.CreatePolicy? ==>
              Applied(p, m, s).policies == m.policies + [Policy(s.name, Resolve(m, s.table), s.command, s.roles)]
    ensures s.DropPolicy? ==>
              forall q :: q in Applied(p, m, s).policies <==>
                 q in m.policies && !IsPolicy(q, Resolve(m, s.table), s.name)
  {
    match s
    case DropIndex(names) => IndexesDropped(m, names, Index("", "", PlainIndex, false, [], None));
    case CreateIndex(_, _, _, _, _, _) =>
      assert forall ix :: ix in m.indexes <==> exists i :: 0 <= i < |m.indexes| && m.indexes[i] == ix;
    case _ =>
  }

  lemma AppliedKinds(p: Patterns, m: Model, s: Statement)
    requires KindsFit(m)
    ensures KindsFit(Applied(p, m, s))
  {
    match s
    case CreateTable(name, quoted, temporary, ifNotExists, es) =>
      var table := NewTable(m, name, quoted, temporary);
      var key := TableKey(table.schema, name.name);
      ElementsKinds(m.(tables := m.tables[key := table]), key, es);
    case AlterTable(name, actions) => ActionsKinds(p, m, Resolve(m, name), actions);
    case DropTable(names) => DropsKinds(m, names);
    case DropIndex(names) =>
      forall ix | ix in DroppedIndexes(m, names).indexes ensures KindFits(ix) {
        IndexesDropped(m, names, ix);
      }
    case RenameIndex(name, to) => KindsMapped(m, Applied(p, m, s), IndexRenamed(name, to));
    case _ => IndexAndPolicyEffects(p, m, s);
  }

  /** Over any statements, an index is unique exactly when it is more than a plain one. */
  lemma {:induction false} MigrationKeepsKinds(p: Patterns, m: Model, statements: seq<Statement>, k: nat)
    requires KindsFit(m) && k <= |statements|
    ensures KindsFit(Migrated(p, m, statements, k))
  {
    if k > 0 {
      MigrationKeepsKinds(p, m, statements, k - 1);
      AppliedKinds(p, Migrated(p, m, statements, k - 1), statements[k - 1]);
    }
  }
}
