/** The schema model never points at what is not there, as long as statements name what is. */
module SchemaIntegrity {
  import opened Options
  import opened SchemaModel

  // ------------------------------------------------------------------ integrity

  /** The table is there with these columns; `extra` are columns its own statement is still to define. */
  ghost predicate Known(m: Model, table: string, columns: seq<string>, key: string, extra: set<string>) {
    && table in m.tables
    && forall i :: 0 <= i < |columns| && !Expression(columns[i]) ==>
         columns[i] in m.tables[table].columns || (table == key && columns[i] in extra)
  }

  ghost predicate SoundIndex(m: Model, ix: Index, key: string, extra: set<string>) {
    Known(m, ix.table, ix.columns, key, extra)
  }

  ghost predicate SoundKey(m: Model, fk: ForeignKey, key: string, extra: set<string>) {
    Known(m, fk.table, fk.columns, key, extra) && Known(m, fk.refTable, fk.refColumns, key, extra)
  }

  ghost predicate Sound(m: Model, key: string, extra: set<string>) {
    && (forall ix :: ix in m.indexes ==> SoundIndex(m, ix, key, extra))
    && (forall fk :: fk in m.foreignKeys ==> SoundKey(m, fk, key, extra))
    && (forall q :: q in m.policies ==> q.table in m.tables)
  }

  /** Indexes, foreign keys and policies name present tables, and plain index and key columns are their columns. */
  ghost predicate Integrity(m: Model) {
    Sound(m, "", {})
  }

  lemma NoExtra(m: Model, key: string)
    ensures Integrity(m) <==> Sound(m, key, {})
  {
    if Integrity(m) {
      assert forall ix :: ix in m.indexes ==> SoundIndex(m, ix, "", {}) && SoundIndex(m, ix, key, {});
      assert forall fk :: fk in m.foreignKeys ==> SoundKey(m, fk, "", {}) && SoundKey(m, fk, key, {});
    }
    if Sound(m, key, {}) {
      assert forall ix :: ix in m.indexes ==> SoundIndex(m, ix, key, {}) && SoundIndex(m, ix, "", {});
      assert forall fk :: fk in m.foreignKeys ==> SoundKey(m, fk, key, {}) && SoundKey(m, fk, "", {});
    }
  }

  // ------------------------------------------------------------------ what statements must name

  ghost predicate OwnFits(m: Model, key: string, extra: set<string>, c: ColumnConstraint) {
    c.OwnReference? ==>
      Known(m, Resolve(m, c.ref), if c.refColumns.Some? then c.refColumns.value else ["id"], key, extra)
  }

  ghost predicate ConstraintFits(m: Model, key: string, extra: set<string>, c: TableConstraint) {
    match c
    case Primary(_, columns) => Known(m, key, columns, key, extra)
    case Unique(_, columns) => Known(m, key, columns, key, extra)
    case Foreign(_, columns, ref, refColumns) =>
      && Known(m, key, columns, key, extra)
      && Known(m, Resolve(m, ref), if refColumns.Some? then refColumns.value else seq(|columns|, _ => "id"), key, extra)
    case _ => true
  }

  ghost predicate ElementFits(m: Model, key: string, extra: set<string>, e: Element) {
    match e
    case ColumnElement(_, cs) => forall c :: c in cs ==> OwnFits(m, key, extra, c)
    case ConstraintElement(c) => ConstraintFits(m, key, extra, c)
  }

  /** The columns a table's own statement defines, wherever in it. */
  function Defined(es: seq<Element>): set<string> {
    set e | e in es && e.ColumnElement? :: e.column.name
  }

  ghost predicate ActionNamed(p: Patterns, m: Model, key: string, a: Action) {
    key in m.tables ==>
      match a
      case RenameTo(to) => MovedTo(key, to) !in m.tables
      case RenameColumn(from, _) => from in m.tables[key].columns
      case AddConstraint(c) => ConstraintFits(m, key, {}, c)
      case AddColumn(ifNotExists, column, cs) =>
        (ifNotExists && column.name in m.tables[key].columns)
        || forall c :: c in cs ==> OwnFits(m, key, {column.name}, c)
      case DropColumn(column) => p.compiles(column)
      case _ => true
  }

  ghost predicate ActionsNamed(p: Patterns, m: Model, key: string, actions: seq<Action>)
    decreases |actions|
  {
    actions != [] ==>
      && ActionNamed(p, m, key, actions[0])
      && (Throws(p, actions[0])
          || ActionsNamed(p, Acted(p, m, key, actions[0]), KeyAfter(key, actions[0]), actions[1..]))
  }

  /**
   A created table is new (or need not be), a renamed one gets a new name, and columns that are indexed, keyed,
   referenced or renamed are there; a dropped column's name compiles as a pattern.
   */
  ghost predicate WellNamed(p: Patterns, m: Model, s: Statement) {
    match s
    case CreateTable(name, quoted, temporary, ifNotExists, es) =>
      var table := NewTable(m, name, quoted, temporary);
      var key := TableKey(table.schema, name.name);
      if key in m.tables then ifNotExists
      else forall e :: e in es ==> ElementFits(m.(tables := m.tables[key := table]), key, Defined(es), e)
    case AlterTable(name, actions) => ActionsNamed(p, m, Resolve(m, name), actions)
    case CreateIndex(name, ifNotExists, _, table, columns, _) =>
      (ifNotExists && exists i :: 0 <= i < |m.indexes| && m.indexes[i].name == name)
      || Known(m, Resolve(m, table), columns, "", {})
    case CreatePolicy(_, table, _, _) => Resolve(m, table) in m.tables
    case _ => true
  }

  // ------------------------------------------------------------------ renames

  lemma MappedFrom<T>(xs: seq<T>, f: T -> T, y: T) returns (x: T)
    requires y in Mapped(xs, f)
    ensures x in xs && y == f(x)
  {
    var ys := Mapped(xs, f);
    var i :| 0 <= i < |ys| && ys[i] == y;
    x := xs[i];
  }

  lemma KnownMoves(m: Model, from: string, to: string, table: string, columns: seq<string>)
    requires from in m.tables && to !in m.tables && Known(m, table, columns, "", {})
    ensures Known(RenamedTable(m, from, to), Swap(table, from, to), columns, "", {})
  {
  }

  lemma RenamedTableSound(m: Model, from: string, to: string)
    requires Integrity(m) && (from in m.tables ==> to !in m.tables)
    ensures Integrity(RenamedTable(m, from, to))
  {
    if from in m.tables {
      var n := RenamedTable(m, from, to);
      forall ix | ix in n.indexes ensures SoundIndex(n, ix, "", {}) {
        var x := MappedFrom(m.indexes, MovedIndex(from, to), ix);
        assert SoundIndex(m, x, "", {});
        KnownMoves(m, from, to, x.table, x.columns);
      }
      forall fk | fk in n.foreignKeys ensures SoundKey(n, fk, "", {}) {
        var x := MappedFrom(m.foreignKeys, MovedKey(from, to), fk);
        assert SoundKey(m, x, "", {});
        KnownMoves(m, from, to, x.table, x.columns);
        KnownMoves(m, from, to, x.refTable, x.refColumns);
      }
      forall q | q in n.policies ensures q.table in n.tables {
        var x := MappedFrom(m.policies, MovedPolicy(from, to), q);
      }
    }
  }

  lemma KnownRecolumns(m: Model, key: string, from: string, column: Column, table: string, columns: seq<string>)
    requires key in m.tables && from in m.tables[key].columns && Known(m, table, columns, "", {})
    ensures Known(RenamedColumn(m, key, from, column), table,
                  if table == key then SwappedAll(columns, from, column.name) else columns, "", {})
  {
  }

  lemma RenamedColumnSound(m: Model, key: string, from: string, column: Column)
    requires Integrity(m) && (key in m.tables ==> from in m.tables[key].columns)
    ensures Integrity(RenamedColumn(m, key, from, column))
  {
    if key in m.tables {
      var n := RenamedColumn(m, key, from, column);
      forall ix | ix in n.indexes ensures SoundIndex(n, ix, "", {}) {
        var x := MappedFrom(m.indexes, RecolumnedIndex(key, from, column.name), ix);
        assert SoundIndex(m, x, "", {});
        KnownRecolumns(m, key, from, column, x.table, x.columns);
      }
      forall fk | fk in n.foreignKeys ensures SoundKey(n, fk, "", {}) {
        var x := MappedFrom(m.foreignKeys, RecolumnedKey(key, from, column.name), fk);
        assert SoundKey(m, x, "", {});
        KnownRecolumns(m, key, from, column, x.table, x.columns);
        KnownRecolumns(m, key, from, column, x.refTable, x.refColumns);
      }
    }
  }

  lemma RenamedConstraintSound(m: Model, key: string, from: string, to: string)
    requires Integrity(m)
    ensures Integrity(RenamedConstraint(m, key, from, to))
  {
    var n := RenamedConstraint(m, key, from, to);
    forall ix | ix in n.indexes ensures SoundIndex(n, ix, "", {}) {
      var i :| 0 <= i < |n.indexes| && n.indexes[i] == ix;
      assert SoundIndex(m, m.indexes[i], "", {});
    }
    forall fk | fk in n.foreignKeys ensures SoundKey(n, fk, "", {}) {
      var i :| 0 <= i < |n.foreignKeys| && n.foreignKeys[i] == fk;
      assert SoundKey(m, m.foreignKeys[i], "", {});
    }
  }

  // ------------------------------------------------------------------ drops

  lemma DroppedColumnSound(p: Patterns, m: Model, key: string, column: string)
    requires Integrity(m) && p.compiles(column)
    ensures Integrity(DroppedColumn(p, m, key, column))
  {
    var n := DroppedColumn(p, m, key, column);
    forall ix | ix in n.indexes ensures SoundIndex(n, ix, "", {}) {
      assert SoundIndex(m, ix, "", {}) && KeepsIndex(p, key, column)(ix);
    }
    forall fk | fk in n.foreignKeys ensures SoundKey(n, fk, "", {}) {
      assert SoundKey(m, fk, "", {}) && KeepsKey(key, column)(fk);
    }
  }

  /** No index or key of the table names the column. */
  ghost predicate Unused(m: Model, key: string, column: string) {
    && (forall ix :: ix in m.indexes && ix.table == key ==> column !in ix.columns)
    && (forall fk :: fk in m.foreignKeys ==>
          (fk.table == key ==> column !in fk.columns) && (fk.refTable == key ==> column !in fk.refColumns))
  }

  lemma KnownWithoutColumn(m: Model, key: string, column: string, table: string, columns: seq<string>)
    requires Known(m, table, columns, "", {}) && !Expression(column)
    ensures Known(WithoutColumn(m, key, column), table, columns, "", {}) <==> !(table == key && column in columns)
  {
    if table == key && column in columns {
      var i :| 0 <= i < |columns| && columns[i] == column;
      assert columns[i] !in WithoutColumn(m, key, column).tables[table].columns;
    }
  }

  /**
   Where a dropped column's name is no pattern, the drop throws half-way: the model keeps its integrity exactly
   when the name looks like an expression or nothing used it.
   */
  lemma DropExactly(p: Patterns, m: Model, key: string, column: string)
    requires Integrity(m)
    ensures Integrity(DroppedColumn(p, m, key, column))
       <==> p.compiles(column) || Expression(column) || Unused(m, key, column)
  {
    if p.compiles(column) {
      DroppedColumnSound(p, m, key, column);
    } else if Expression(column) {
      var n := DroppedColumn(p, m, key, column);
      assert forall ix :: ix in n.indexes ==> SoundIndex(m, ix, "", {}) && SoundIndex(n, ix, "", {});
      assert forall fk :: fk in n.foreignKeys ==> SoundKey(m, fk, "", {}) && SoundKey(n, fk, "", {});
    } else {
      UncompiledDrop(p, m, key, column);
    }
  }

  lemma UncompiledDrop(p: Patterns, m: Model, key: string, column: string)
    requires Integrity(m) && !p.compiles(column) && !Expression(column)
    ensures Integrity(DroppedColumn(p, m, key, column)) <==> Unused(m, key, column)
  {
    var n := DroppedColumn(p, m, key, column);
    forall ix | ix in m.indexes
      ensures SoundIndex(n, ix, "", {}) <==> !(ix.table == key && column in ix.columns)
    {
      assert SoundIndex(m, ix, "", {});
      KnownWithoutColumn(m, key, column, ix.table, ix.columns);
    }
    forall fk | fk in m.foreignKeys
      ensures SoundKey(n, fk, "", {})
         <==> !(fk.table == key && column in fk.columns) && !(fk.refTable == key && column in fk.refColumns)
    {
      assert SoundKey(m, fk, "", {});
      KnownWithoutColumn(m, key, column, fk.table, fk.columns);
      KnownWithoutColumn(m, key, column, fk.refTable, fk.refColumns);
    }
  }

  /** A table whose one column, named like an open group, has an index. */
  const INDEXED := Model(
    map["public.t" := Table("public", "t", false, false, map["a(" := Column("a(", true)], false, false)], [],
    [Index("i", "public.t", PlainIndex, false, ["a("], None)], [])

  /** The failing drop: where `a(` is no pattern, dropping it leaves its index behind. */
  lemma DropLeavesIndex(p: Patterns)
    requires !p.compiles("a(")
    ensures Integrity(INDEXED) && "a(" in INDEXED.tables["public.t"].columns
    ensures !Integrity(DroppedColumn(p, INDEXED, "public.t", "a("))
    ensures DroppedColumn(p, INDEXED, "public.t", "a(").indexes == INDEXED.indexes
  {
    var ix := INDEXED.indexes[0];
    assert ix in INDEXED.indexes && ix.columns[0] == "a(" && !Expression("a(");
    assert SoundIndex(INDEXED, ix, "", {});
    DropExactly(p, INDEXED, "public.t", "a(");
  }

  lemma DroppedConstraintSound(m: Model, key: string, name: string)
    requires Integrity(m)
    ensures Integrity(DroppedConstraint(m, key, name))
  {
    var n := DroppedConstraint(m, key, name);
    forall ix | ix in n.indexes ensures SoundIndex(n, ix, "", {}) {
      assert SoundIndex(m, ix, "", {});
    }
    forall fk | fk in n.foreignKeys ensures SoundKey(n, fk, "", {}) {
      assert SoundKey(m, fk, "", {});
    }
  }

  lemma DroppedTableSound(m: Model, key: string)
    requires Integrity(m)
    ensures Integrity(DroppedTable(m, key))
  {
    var n := DroppedTable(m, key);
    forall ix | ix in n.indexes ensures SoundIndex(n, ix, "", {}) {
      assert SoundIndex(m, ix, "", {});
    }
    forall fk | fk in n.foreignKeys ensures SoundKey(n, fk, "", {}) {
      assert SoundKey(m, fk, "", {});
    }
  }

  lemma {:induction false} DroppedTablesSound(m: Model, names: seq<TableName>)
    requires Integrity(m)
    ensures Integrity(DroppedTables(m, names))
    decreases |names|
  {
    if names != [] {
      DroppedTableSound(m, Resolve(m, names[0]));
      DroppedTablesSound(DroppedTable(m, Resolve(m, names[0])), names[1..]);
    }
  }

  // ------------------------------------------------------------------ additions

  /** The same tables with at least the same columns. */
  ghost predicate Grown(m: Model, n: Model) {
    && n.tables.Keys == m.tables.Keys
    && forall k :: k in m.tables ==> m.tables[k].columns.Keys <= n.tables[k].columns.Keys
  }

  lemma KnownGrows(m: Model, n: Model, table: string, columns: seq<string>, key: string, extra: set<string>)
    requires Grown(m, n) && Known(m, table, columns, key, extra)
    ensures Known(n, table, columns, key, extra)
  {
    forall i | 0 <= i < |columns| && !Expression(columns[i])
      ensures columns[i] in n.tables[table].columns || (table == key && columns[i] in extra)
    {
      assert columns[i] in m.tables[table].columns.Keys || columns[i] in extra;
    }
  }

  lemma SoundGrows(m: Model, n: Model, key: string, extra: set<string>)
    requires Sound(m, key, extra) && Grown(m, n)
    requires n.indexes == m.indexes && n.foreignKeys == m.foreignKeys && n.policies == m.policies
    ensures Sound(n, key, extra)
  {
    forall ix | ix in n.indexes ensures SoundIndex(n, ix, key, extra) {
      assert SoundIndex(m, ix, key, extra);
      KnownGrows(m, n, ix.table, ix.columns, key, extra);
    }
    forall fk | fk in n.foreignKeys ensures SoundKey(n, fk, key, extra) {
      assert SoundKey(m, fk, key, extra);
      KnownGrows(m, n, fk.table, fk.columns, key, extra);
      KnownGrows(m, n, fk.refTable, fk.refColumns, key, extra);
    }
  }

  lemma WithIndexSound(m: Model, ix: Index, key: string, extra: set<string>)
    requires Sound(m, key, extra) && SoundIndex(m, ix, key, extra)
    ensures Sound(WithIndex(m, ix), key, extra)
  {
    var n := WithIndex(m, ix);
    forall x | x in n.indexes ensures SoundIndex(n, x, key, extra) {
      assert x in m.indexes || x == ix;
      assert SoundIndex(m, x, key, extra);
    }
    forall fk | fk in n.foreignKeys ensures SoundKey(n, fk, key, extra) {
      assert SoundKey(m, fk, key, extra);
    }
  }

  lemma WithKeySound(m: Model, fk: ForeignKey, key: string, extra: set<string>)
    requires Sound(m, key, extra) && SoundKey(m, fk, key, extra)
    ensures Sound(WithKey(m, fk), key, extra)
  {
    var n := WithKey(m, fk);
    forall x | x in n.foreignKeys ensures SoundKey(n, x, key, extra) {
      assert x in m.foreignKeys || x == fk;
      assert SoundKey(m, x, key, extra);
    }
    forall ix | ix in n.indexes ensures SoundIndex(n, ix, key, extra) {
      assert SoundIndex(m, ix, key, extra);
    }
  }

  lemma FitsSameTables(m: Model, n: Model, key: string, extra: set<string>, c: ColumnConstraint)
    requires n.tables == m.tables && OwnFits(m, key, extra, c)
    ensures OwnFits(n, key, extra, c)
  {
    if c.OwnReference? {
      assert Resolve(n, c.ref) == Resolve(m, c.ref);
    }
  }

  lemma {:induction false} OwnConstraintsSound(m: Model, key: string, column: string, cs: seq<ColumnConstraint>,
                                               extra: set<string>)
    requires Sound(m, key, extra) && key in m.tables && column in m.tables[key].columns
    requires forall c :: c in cs ==> OwnFits(m, key, extra, c)
    ensures Sound(OwnConstraints(m, key, column, cs), key, extra)
    decreases |cs|
  {
    if cs != [] {
      var n := OwnConstraint(m, key, column, cs[0]);
      assert OwnFits(m, key, extra, cs[0]);
      assert Known(m, key, [column], key, extra);
      if cs[0].OwnReference? {
        WithKeySound(m, n.foreignKeys[|m.foreignKeys|], key, extra);
      } else {
        WithIndexSound(m, n.indexes[|m.indexes|], key, extra);
      }
      forall c | c in cs[1..] ensures OwnFits(n, key, extra, c) {
        assert c in cs && OwnFits(m, key, extra, c);
        FitsSameTables(m, n, key, extra, c);
      }
      OwnConstraintsSound(n, key, column, cs[1..], extra);
    }
  }

  lemma WithColumnSound(m: Model, key: string, column: Column, cs: seq<ColumnConstraint>, extra: set<string>)
    requires Sound(m, key, extra) && column.name in extra
    requires forall c :: c in cs ==> OwnFits(m, key, extra, c)
    ensures Sound(WithColumn(m, key, column, cs), key, extra) && Grown(m, WithColumn(m, key, column, cs))
    ensures key in m.tables ==> column.name in WithColumn(m, key, column, cs).tables[key].columns
  {
    if key in m.tables {
      var n := WithColumns(m, key, m.tables[key].columns[column.name := column]);
      SoundGrows(m, n, key, extra);
      forall c | c in cs ensures OwnFits(n, key, extra, c) {
        assert OwnFits(m, key, extra, c);
        if c.OwnReference? {
          KnownGrows(m, n, Resolve(m, c.ref), if c.refColumns.Some? then c.refColumns.value else ["id"], key, extra);
        }
      }
      OwnConstraintsSound(n, key, column.name, cs, extra);
    }
  }

  lemma ConstrainedSound(m: Model, key: string, c: TableConstraint, extra: set<string>)
    requires Sound(m, key, extra) && (key in m.tables ==> ConstraintFits(m, key, extra, c))
    ensures Sound(Constrained(m, key, c), key, extra) && Constrained(m, key, c).tables == m.tables
  {
    if key in m.tables {
      var n := Constrained(m, key, c);
      match c
      case Primary(_, _) => WithIndexSound(m, n.indexes[|m.indexes|], key, extra);
      case Unique(_, _) => WithIndexSound(m, n.indexes[|m.indexes|], key, extra);
      case Foreign(_, _, _, _) => WithKeySound(m, n.foreignKeys[|m.foreignKeys|], key, extra);
      case UniqueUsing(_, _) =>
        forall ix | ix in n.indexes ensures SoundIndex(n, ix, key, extra) {
          var i :| 0 <= i < |n.indexes| && n.indexes[i] == ix;
          assert SoundIndex(m, m.indexes[i], key, extra);
        }
        forall fk | fk in n.foreignKeys ensures SoundKey(n, fk, key, extra) {
          assert SoundKey(m, fk, key, extra);
        }
      case OtherConstraint =>
    }
  }

  lemma FitsGrown(m: Model, n: Model, key: string, extra: set<string>, e: Element)
    requires Grown(m, n) && ElementFits(m, key, extra, e)
    ensures ElementFits(n, key, extra, e)
  {
    match e
    case ColumnElement(_, cs) =>
      forall c | c in cs ensures OwnFits(n, key, extra, c) {
        assert OwnFits(m, key, extra, c);
        if c.OwnReference? {
          KnownGrows(m, n, Resolve(m, c.ref), if c.refColumns.Some? then c.refColumns.value else ["id"], key, extra);
        }
      }
    case ConstraintElement(Primary(_, columns)) => KnownGrows(m, n, key, columns, key, extra);
    case ConstraintElement(Unique(_, columns)) => KnownGrows(m, n, key, columns, key, extra);
    case ConstraintElement(Foreign(_, columns, ref, refColumns)) =>
      KnownGrows(m, n, key, columns, key, extra);
      KnownGrows(m, n, Resolve(m, ref), if refColumns.Some? then refColumns.value else seq(|columns|, _ => "id"), key,
                 extra);
    case _ =>
  }

  /** Element after element, references to columns still to be defined are the only ones left open. */
  lemma {:induction false} ElementsSound(m: Model, key: string, es: seq<Element>, extra: set<string>)
    requires Sound(m, key, extra) && key in m.tables && Defined(es) <= extra
    requires forall e :: e in es ==> ElementFits(m, key, extra, e)
    ensures Sound(Elements(m, key, es), key, extra) && Grown(m, Elements(m, key, es))
    ensures Defined(es) <= Elements(m, key, es).tables[key].columns.Keys
    decreases |es|
  {
    if es != [] {
      var before, e := es[..|es| - 1], es[|es| - 1];
      assert es == before + [e];
      assert Defined(before) <= Defined(es);
      ElementsSound(m, key, before, extra);
      var n := Elements(m, key, before);
      FitsGrown(m, n, key, extra, e);
      match e
      case ColumnElement(column, cs) =>
        assert column.name in Defined(es);
        WithColumnSound(n, key, column, cs, extra);
        assert Defined(es) == Defined(before) + {column.name};
      case ConstraintElement(c) =>
        ConstrainedSound(n, key, c, extra);
        assert Defined(es) == Defined(before);
    }
  }

  lemma DefinedSettles(m: Model, key: string, extra: set<string>)
    requires Sound(m, key, extra) && key in m.tables && extra <= m.tables[key].columns.Keys
    ensures Integrity(m)
  {
    assert forall ix :: ix in m.indexes ==> SoundIndex(m, ix, key, extra) && SoundIndex(m, ix, "", {});
    assert forall fk :: fk in m.foreignKeys ==> SoundKey(m, fk, key, extra) && SoundKey(m, fk, "", {});
  }

  lemma CreatedTableSound(m: Model, key: string, table: Table, ifNotExists: bool, es: seq<Element>)
    requires Integrity(m) && table.columns == map[]
    requires if key in m.tables then ifNotExists
             else forall e :: e in es ==> ElementFits(m.(tables := m.tables[key := table]), key, Defined(es), e)
    ensures Integrity(CreatedTable(m, key, table, ifNotExists, es))
  {
    if key !in m.tables {
      var n := m.(tables := m.tables[key := table]);
      assert forall ix :: ix in n.indexes ==> SoundIndex(m, ix, "", {}) && SoundIndex(n, ix, key, Defined(es));
      assert forall fk :: fk in n.foreignKeys ==> SoundKey(m, fk, "", {}) && SoundKey(n, fk, key, Defined(es));
      ElementsSound(n, key, es, Defined(es));
      DefinedSettles(Elements(n, key, es), key, Defined(es));
    }
  }

  lemma AddedColumnSound(m: Model, key: string, column: Column, cs: seq<ColumnConstraint>)
    requires Integrity(m) && (key in m.tables ==> forall c :: c in cs ==> OwnFits(m, key, {column.name}, c))
    ensures Integrity(WithColumn(m, key, column, cs))
  {
    if key in m.tables {
      assert forall ix :: ix in m.indexes ==> SoundIndex(m, ix, "", {}) && SoundIndex(m, ix, key, {column.name});
      assert forall fk :: fk in m.foreignKeys ==> SoundKey(m, fk, "", {}) && SoundKey(m, fk, key, {column.name});
      WithColumnSound(m, key, column, cs, {column.name});
      DefinedSettles(WithColumn(m, key, column, cs), key, {column.name});
    }
  }

  // ------------------------------------------------------------------ statements

  lemma WithTableSound(m: Model, key: string, f: Table -> Table)
    requires Integrity(m) && forall t :: f(t).columns == t.columns
    ensures Integrity(WithTable(m, key, f))
  {
    SoundGrows(m, WithTable(m, key, f), "", {});
  }

  lemma ActedSound(p: Patterns, m: Model, key: string, a: Action)
    requires Integrity(m) && ActionNamed(p, m, key, a) && !Throws(p, a)
    ensures Integrity(Acted(p, m, key, a))
  {
    match a
    case RenameTo(to) => RenamedTableSound(m, key, MovedTo(key, to));
    case RenameConstraint(from, to) => RenamedConstraintSound(m, key, from, to);
    case RenameColumn(from, column) => RenamedColumnSound(m, key, from, column);
    case AddConstraint(c) =>
      NoExtra(m, key);
      ConstrainedSound(m, key, c, {});
      NoExtra(Constrained(m, key, c), key);
    case AddColumn(ifNotExists, column, cs) =>
      if !(ifNotExists && key in m.tables && column.name in m.tables[key].columns) {
        AddedColumnSound(m, key, column, cs);
      }
    case DropConstraint(name) => DroppedConstraintSound(m, key, name);
    case DropColumn(column) => DroppedColumnSound(p, m, key, column);
    case SetSecured(on) => WithTableSound(m, key, (t: Table) => t.(secured := on));
    case SetForced(on) => WithTableSound(m, key, (t: Table) => t.(forced := on));
  }

  /** A drop that throws on a table that is not there changes nothing. */
  lemma ThrowingSound(p: Patterns, m: Model, key: string, a: Action)
    requires Integrity(m) && ActionNamed(p, m, key, a) && Throws(p, a)
    ensures Acted(p, m, key, a) == m
  {
  }

  lemma {:induction false} ActionsSound(p: Patterns, m: Model, key: string, actions: seq<Action>)
    requires Integrity(m) && ActionsNamed(p, m, key, actions)
    ensures Integrity(Actions(p, m, key, actions))
    decreases |actions|
  {
    if actions != [] {
      if Throws(p, actions[0]) {
        ThrowingSound(p, m, key, actions[0]);
      } else {
        ActedSound(p, m, key, actions[0]);
        ActionsSound(p, Acted(p, m, key, actions[0]), KeyAfter(key, actions[0]), actions[1..]);
      }
    }
  }

  /** Statements that only rename or remove indexes and policies, or add a policy to a present table. */
  lemma SameTablesSound(m: Model, n: Model)
    requires Integrity(m) && n.tables == m.tables && n.foreignKeys == m.foreignKeys
    requires forall ix :: ix in n.indexes ==>
               exists i :: 0 <= i < |m.indexes| && m.indexes[i].table == ix.table && m.indexes[i].columns == ix.columns
    requires forall q :: q in n.policies ==> q.table in m.tables
    ensures Integrity(n)
  {
    forall ix | ix in n.indexes ensures SoundIndex(n, ix, "", {}) {
      var i :| 0 <= i < |m.indexes| && m.indexes[i].table == ix.table && m.indexes[i].columns == ix.columns;
      assert SoundIndex(m, m.indexes[i], "", {});
    }
    forall fk | fk in n.foreignKeys ensures SoundKey(n, fk, "", {}) {
      assert SoundKey(m, fk, "", {});
    }
  }

  lemma {:induction false} DroppedIndexesSound(m: Model, names: seq<string>)
    requires Integrity(m)
    ensures Integrity(DroppedIndexes(m, names))
    decreases |names|
  {
    if names != [] {
      var n := m.(indexes := Filtered(m.indexes, IndexNotNamed(names[0])));
      forall ix | ix in n.indexes
        ensures exists i :: 0 <= i < |m.indexes| && m.indexes[i].table == ix.table && m.indexes[i].columns == ix.columns
      {
        var i :| 0 <= i < |m.indexes| && m.indexes[i] == ix;
      }
      SameTablesSound(m, n);
      DroppedIndexesSound(n, names[1..]);
    }
  }

  lemma RenamedIndexSound(m: Model, name: string, to: string)
    requires Integrity(m)
    ensures Integrity(m.(indexes := Mapped(m.indexes, IndexRenamed(name, to))))
  {
    var n := m.(indexes := Mapped(m.indexes, IndexRenamed(name, to)));
    forall ix | ix in n.indexes
      ensures exists i :: 0 <= i < |m.indexes| && m.indexes[i].table == ix.table && m.indexes[i].columns == ix.columns
    {
      var i :| 0 <= i < |n.indexes| && n.indexes[i] == ix;
      assert m.indexes[i].table == ix.table;
    }
    SameTablesSound(m, n);
  }

  lemma PoliciesSound(m: Model, policies: seq<Policy>)
    requires Integrity(m) && forall q :: q in policies ==> q.table in m.tables
    ensures Integrity(m.(policies := policies))
  {
    var n := m.(policies := policies);
    forall ix | ix in n.indexes
      ensures exists i :: 0 <= i < |m.indexes| && m.indexes[i].table == ix.table && m.indexes[i].columns == ix.columns
    {
      var i :| 0 <= i < |m.indexes| && m.indexes[i] == ix;
    }
    SameTablesSound(m, n);
  }

  lemma AppliedSound(p: Patterns, m: Model, s: Statement)
    requires Integrity(m) && WellNamed(p, m, s)
    ensures Integrity(Applied(p, m, s))
  {
    match s
    case CreateTable(name, quoted, temporary, ifNotExists, es) =>
      var table := NewTable(m, name, quoted, temporary);
      CreatedTableSound(m, TableKey(table.schema, name.name), table, ifNotExists, es);
    case AlterTable(name, actions) => ActionsSound(p, m, Resolve(m, name), actions);
    case DropTable(names) => DroppedTablesSound(m, names);
    case CreateIndex(name, ifNotExists, unique, table, columns, condition) =>
      var ix := Index(name, Resolve(m, table), if unique then UniqueIndex else PlainIndex, unique, columns, condition);
      if !(ifNotExists && exists i :: 0 <= i < |m.indexes| && m.indexes[i].name == name) {
        WithIndexSound(m, ix, "", {});
      }
    case RenameIndex(name, to) => RenamedIndexSound(m, name, to);
    case DropIndex(names) => DroppedIndexesSound(m, names);
    case CreatePolicy(name, table, command, roles) =>
      PoliciesSound(m, m.policies + [Policy(name, Resolve(m, table), command, roles)]);
    case RenamePolicy(name, table, to) =>
      var renamed := PolicyRenamed(m.policies, Resolve(m, table), name, to);
      forall q | q in renamed ensures q.table in m.tables {
        var i :| 0 <= i < |renamed| && renamed[i] == q;
        assert m.policies[i] in m.policies;
      }
      PoliciesSound(m, renamed);
    case DropPolicy(name, table) => PoliciesSound(m, Applied(p, m, s).policies);
  }

  /** Over any sequence of well-named statements, the model keeps its integrity at the end of every statement. */
  lemma {:induction false} MigrationKeepsIntegrity(p: Patterns, m: Model, statements: seq<Statement>, k: nat)
    requires Integrity(m) && k <= |statements|
    requires forall i :: 0 <= i < k ==> WellNamed(p, Migrated(p, m, statements, i), statements[i])
    ensures Integrity(Migrated(p, m, statements, k))
  {
    hide Integrity;
    hide WellNamed;
    hide Applied;
    if k > 0 {
      MigrationKeepsIntegrity(p, m, statements, k - 1);
      AppliedSound(p, Migrated(p, m, statements, k - 1), statements[k - 1]);
    }
  }

  // ------------------------------------------------------------------ what is gone, and what is not touched

  /** Nothing in the model names the table. */
  ghost predicate Forgotten(m: Model, key: string) {
    && key !in m.tables
    && (forall ix :: ix in m.indexes ==> ix.table != key)
    && (forall fk :: fk in m.foreignKeys ==> fk.table != key && fk.refTable != key)
    && (forall q :: q in m.policies ==> q.table != key)
  }

  /** Dropping a table leaves nothing that names it, and whatever did not name it. */
  lemma DropTableForgets(m: Model, key: string)
    ensures Forgotten(DroppedTable(m, key), key)
    ensures Forgotten(m, key) ==> DroppedTable(m, key) == m
    ensures forall k :: k in m.tables && k != key ==>
              k in DroppedTable(m, key).tables && DroppedTable(m, key).tables[k] == m.tables[k]
  {
    if Forgotten(m, key) {
      FilteredAll(m.indexes, IndexElsewhere(key));
      FilteredAll(m.foreignKeys, KeyElsewhere(key));
      FilteredAll(m.policies, PolicyElsewhere(key));
      assert m.tables - {key} == m.tables;
    }
  }

  lemma {:induction false} FilteredAll<T>(xs: seq<T>, p: T -> bool)
    requires forall x :: x in xs ==> p(x)
    ensures Filtered(xs, p) == xs
  {
    if xs != [] {
      assert forall x :: x in xs[1..] ==> x in xs;
      FilteredAll(xs[1..], p);
    }
  }

  /** A renamed table is named by its new key only. */
  lemma RenameForgets(m: Model, from: string, to: string)
    requires from in m.tables && from != to
    ensures Forgotten(RenamedTable(m, from, to), from)
    ensures to in RenamedTable(m, from, to).tables
    ensures RenamedTable(m, from, to).tables[to].columns == m.tables[from].columns
  {
    var n := RenamedTable(m, from, to);
    forall ix | ix in n.indexes ensures ix.table != from {
      var x := MappedFrom(m.indexes, MovedIndex(from, to), ix);
    }
    forall fk | fk in n.foreignKeys ensures fk.table != from && fk.refTable != from {
      var x := MappedFrom(m.foreignKeys, MovedKey(from, to), fk);
    }
    forall q | q in n.policies ensures q.table != from {
      var x := MappedFrom(m.policies, MovedPolicy(from, to), q);
    }
  }

  /** After a drop that does not throw, no column, index or key of the table has that column any more. */
  lemma DropColumnForgets(p: Patterns, m: Model, key: string, column: string)
    requires p.compiles(column)
    ensures var n := DroppedColumn(p, m, key, column);
            && Unused(n, key, column) && (key in n.tables ==> column !in n.tables[key].columns)
            && (Unused(m, key, column) ==> n.foreignKeys == m.foreignKeys)
  {
    var n := DroppedColumn(p, m, key, column);
    forall ix | ix in n.indexes && ix.table == key ensures column !in ix.columns {
      assert KeepsIndex(p, key, column)(ix);
      assert forall i :: 0 <= i < |ix.columns| ==> ix.columns[i] != column;
    }
    forall fk | fk in n.foreignKeys
      ensures (fk.table == key ==> column !in fk.columns) && (fk.refTable == key ==> column !in fk.refColumns)
    {
      assert KeepsKey(key, column)(fk);
    }
    if Unused(m, key, column) {
      FilteredAll(m.foreignKeys, KeepsKey(key, column));
    }
  }

  /** A dropped constraint leaves no key and no constraint index of its name; plain indexes stay. */
  lemma DropConstraintForgets(m: Model, key: string, name: string)
    ensures var n := DroppedConstraint(m, key, name);
            && (forall fk :: fk in n.foreignKeys <==> fk in m.foreignKeys && !(fk.table == key && fk.name == name))
            && (forall ix :: ix in n.indexes <==>
                  ix in m.indexes && (ix.table == key && ix.name == name ==> ix.kind.PlainIndex?))
            && n.tables == m.tables && n.policies == m.policies
  {
  }

  // ------------------------------------------------------------------ renaming and back

  lemma {:induction false} FirstDot(schema: string, name: string)
    ensures '.' !in schema ==> Dot(TableKey(schema, name)) == |schema|
    ensures '.' in schema ==> Dot(TableKey(schema, name)) < |schema|
  {
    var key := TableKey(schema, name);
    if schema != "" {
      assert key[1..] == TableKey(schema[1..], name);
      FirstDot(schema[1..], name);
      assert schema == [schema[0]] + schema[1..];
    }
  }

  lemma MappedTwice<T>(xs: seq<T>, f: T -> T, g: T -> T)
    requires forall x :: x in xs ==> g(f(x)) == x
    ensures Mapped(Mapped(xs, f), g) == xs
  {
  }

  /** A table renamed to a new key and back to its own is as it was, its name in the key being its own. */
  lemma RenamedBack(m: Model, from: string, to: string)
    requires Integrity(m) && from in m.tables && to !in m.tables && m.tables[from].name == NamePart(from)
    ensures RenamedTable(RenamedTable(m, from, to), to, from) == m
  {
    var n := RenamedTable(m, from, to);
    assert forall ix :: ix in m.indexes ==> SoundIndex(m, ix, "", {}) && ix.table != to;
    assert forall fk :: fk in m.foreignKeys ==> SoundKey(m, fk, "", {}) && fk.table != to && fk.refTable != to;
    MappedTwice(m.indexes, MovedIndex(from, to), MovedIndex(to, from));
    MappedTwice(m.foreignKeys, MovedKey(from, to), MovedKey(to, from));
    MappedTwice(m.policies, MovedPolicy(from, to), MovedPolicy(to, from));
    assert RenamedTable(n, to, from).tables == m.tables;
  }

  /** The two `rename to` actions of an `alter table` on `schema.name`, to a new name and back. */
  function ThereAndBack(p: Patterns, m: Model, schema: string, name: string, to: string): Model {
    var key := TableKey(schema, name);
    Actions(p, m, key, [RenameTo(to), RenameTo(name)])
  }

  lemma TwoActions(p: Patterns, m: Model, schema: string, name: string, to: string)
    ensures var key := TableKey(schema, name);
            var next := MovedTo(key, to);
            ThereAndBack(p, m, schema, name, to) == RenamedTable(RenamedTable(m, key, next), next, MovedTo(next, name))
  {
    var key, actions := TableKey(schema, name), [RenameTo(to), RenameTo(name)];
    assert actions[1..] == [RenameTo(name)];
    var n := RenamedTable(m, key, MovedTo(key, to));
    assert Actions(p, n, MovedTo(key, to), [RenameTo(name)])
        == RenamedTable(n, MovedTo(key, to), MovedTo(MovedTo(key, to), name)) by {
      assert [RenameTo(name)][1..] == [];
    }
  }

  /** Renaming to a new name and back restores the model exactly when the schema's name holds no dot. */
  lemma RenameBackExactly(p: Patterns, m: Model, schema: string, name: string, to: string)
    requires Integrity(m)
    requires var key := TableKey(schema, name);
             key in m.tables && m.tables[key].name == name && MovedTo(key, to) !in m.tables
    ensures ThereAndBack(p, m, schema, name, to) == m <==> '.' !in schema
  {
    var key := TableKey(schema, name);
    var next := MovedTo(key, to);
    var n, back := RenamedTable(m, key, next), MovedTo(next, name);
    TwoActions(p, m, schema, name, to);
    FirstDot(schema, name);
    FirstDot(SchemaPart(key), to);
    assert SchemaPart(next) == SchemaPart(key);
    if '.' !in schema {
      assert SchemaPart(key) == schema && NamePart(key) == name && back == key;
      RenamedBack(m, key, next);
    } else {
      assert |back| < |key|;
      assert key !in RenamedTable(n, next, back).tables;
    }
  }

  const DOTTED := Model(map["s.a.t" := Table("s.a", "t", false, false, map[], false, false)], [], [], [])

  /** The failing rename: a table of schema `s.a` comes back as one of schema `s`. */
  lemma DottedRenameMoves(p: Patterns)
    ensures Integrity(DOTTED) && TableKey("s.a", "t") in DOTTED.tables
    ensures MovedTo(TableKey("s.a", "t"), "u") !in DOTTED.tables
    ensures ThereAndBack(p, DOTTED, "s.a", "t", "u") != DOTTED
  {
    var key := TableKey("s.a", "t");
    assert key == "s.a.t";
    FirstDot("s.a", "t");
    assert MovedTo(key, "u")[|MovedTo(key, "u")| - 1] == 'u';
    assert '.' in "s.a" by {
      assert "s.a"[1] == '.';
    }
    RenameBackExactly(p, DOTTED, "s.a", "t", "u");
  }
}
