/** The parser's object, whose methods update the model in place, against what each statement does. */
module MigrationParser {
  import opened Options
  import opened SchemaModel

  lemma MapStep<T>(xs: seq<T>, ys: seq<T>, f: T -> T, i: nat)
    requires i < |xs| && |ys| == |xs| && ys[..i] == Mapped(xs, f)[..i] && ys[i..] == xs[i..]
    ensures ys[i := f(xs[i])][..i + 1] == Mapped(xs, f)[..i + 1]
    ensures ys[i := f(xs[i])][i + 1..] == xs[i + 1..]
  {
    assert ys[i] == ys[i..][0];
    assert ys[i := f(xs[i])][i + 1..] == ys[i..][1..];
  }

  class Parser {
    var tables: map<string, Table>
    var foreignKeys: seq<ForeignKey>
    var indexes: seq<Index>
    var policies: seq<Policy>
    const patterns: Patterns

    constructor (patterns: Patterns)
      ensures this.patterns == patterns && State() == Model(map[], [], [], [])
    {
      this.patterns := patterns;
      tables, foreignKeys, indexes, policies := map[], [], [], [];
    }

    function State(): Model
      reads this
    {
      Model(tables, foreignKeys, indexes, policies)
    }

    /** Moves the table to its new key, then everything that names it. */
    method RenameTable(from: string, to: string)
      modifies this
      ensures State() == RenamedTable(old(State()), from, to)
    {
      if from !in tables {
        return;
      }
      var table := tables[from];
      tables := tables - {from};
      tables := tables[to := table.(name := NamePart(to))];
      MoveKeys(from, to);
      MoveIndexes(from, to);
      MovePolicies(from, to);
    }

    method MoveKeys(from: string, to: string)
      modifies this`foreignKeys
      ensures foreignKeys == Mapped(old(foreignKeys), MovedKey(from, to))
    {
      var i := 0;
      while i < |foreignKeys|
        invariant i <= |foreignKeys| == |old(foreignKeys)|
        invariant foreignKeys[..i] == Mapped(old(foreignKeys), MovedKey(from, to))[..i]
        invariant foreignKeys[i..] == old(foreignKeys)[i..]
      {
        MapStep(old(foreignKeys), foreignKeys, MovedKey(from, to), i);
        assert foreignKeys[i] == foreignKeys[i..][0];
        var fk := foreignKeys[i];
        if fk.table == from {
          fk := fk.(table := to);
        }
        if fk.refTable == from {
          fk := fk.(refTable := to);
        }
        foreignKeys := foreignKeys[i := fk];
        i := i + 1;
      }
    }

    method MoveIndexes(from: string, to: string)
      modifies this`indexes
      ensures indexes == Mapped(old(indexes), MovedIndex(from, to))
    {
      var i := 0;
      while i < |indexes|
        invariant i <= |indexes| == |old(indexes)|
        invariant indexes[..i] == Mapped(old(indexes), MovedIndex(from, to))[..i] && indexes[i..] == old(indexes)[i..]
      {
        MapStep(old(indexes), indexes, MovedIndex(from, to), i);
        assert indexes[i] == indexes[i..][0];
        if indexes[i].table == from {
          indexes := indexes[i := indexes[i].(table := to)];
        }
        i := i + 1;
      }
    }

    method MovePolicies(from: string, to: string)
      modifies this`policies
      ensures policies == Mapped(old(policies), MovedPolicy(from, to))
    {
      var i := 0;
      while i < |policies|
        invariant i <= |policies| == |old(policies)|
        invariant policies[..i] == Mapped(old(policies), MovedPolicy(from, to))[..i]
        invariant policies[i..] == old(policies)[i..]
      {
        MapStep(old(policies), policies, MovedPolicy(from, to), i);
        assert policies[i] == policies[i..][0];
        if policies[i].table == from {
          policies := policies[i := policies[i].(table := to)];
        }
        i := i + 1;
      }
    }

    /** Renames a column in its table, in the keys from and to the table, and in its indexes. */
    method RenameColumn(key: string, from: string, column: Column)
      modifies this
      ensures State() == RenamedColumn(old(State()), key, from, column)
    {
      if key !in tables {
        return;
      }
      var table := tables[key];
      if from in table.columns {
        table := table.(columns := (table.columns - {from})[column.name := column]);
        tables := tables[key := table];
      }
      assert tables == tables[key := table];
      RecolumnKeys(key, from, column.name);
      RecolumnIndexes(key, from, column.name);
    }

    method RecolumnKeys(key: string, from: string, to: string)
      modifies this`foreignKeys
      ensures foreignKeys == Mapped(old(foreignKeys), RecolumnedKey(key, from, to))
    {
      var i := 0;
      while i < |foreignKeys|
        invariant i <= |foreignKeys| == |old(foreignKeys)|
        invariant foreignKeys[..i] == Mapped(old(foreignKeys), RecolumnedKey(key, from, to))[..i]
        invariant foreignKeys[i..] == old(foreignKeys)[i..]
      {
        MapStep(old(foreignKeys), foreignKeys, RecolumnedKey(key, from, to), i);
        assert foreignKeys[i] == foreignKeys[i..][0];
        var fk := foreignKeys[i];
        if fk.table == key {
          fk := fk.(columns := SwappedAll(fk.columns, from, to));
        }
        if fk.refTable == key {
          fk := fk.(refColumns := SwappedAll(fk.refColumns, from, to));
        }
        foreignKeys := foreignKeys[i := fk];
        i := i + 1;
      }
    }

    method RecolumnIndexes(key: string, from: string, to: string)
      modifies this`indexes
      ensures indexes == Mapped(old(indexes), RecolumnedIndex(key, from, to))
    {
      var i := 0;
      while i < |indexes|
        invariant i <= |indexes| == |old(indexes)|
        invariant indexes[..i] == Mapped(old(indexes), RecolumnedIndex(key, from, to))[..i]
        invariant indexes[i..] == old(indexes)[i..]
      {
        MapStep(old(indexes), indexes, RecolumnedIndex(key, from, to), i);
        assert indexes[i] == indexes[i..][0];
        if indexes[i].table == key {
          indexes := indexes[i := indexes[i].(columns := SwappedAll(indexes[i].columns, from, to))];
        }
        i := i + 1;
      }
    }

    /** Removes the column, then whatever used it, unless the name makes no pattern: then it throws in between. */
    method DropColumn(key: string, column: string) returns (thrown: bool)
      modifies this
      ensures State() == DroppedColumn(patterns, old(State()), key, column) && thrown == !patterns.compiles(column)
    {
      if key in tables {
        tables := tables[key := tables[key].(columns := tables[key].columns - {column})];
      }
      if !patterns.compiles(column) {
        return true;
      }
      indexes := Filtered(indexes, KeepsIndex(patterns, key, column));
      foreignKeys := Filtered(foreignKeys, KeepsKey(key, column));
      return false;
    }

    /** Sets a column on the table, then adds its constraints one after the other. */
    method ColumnDefinition(key: string, column: Column, cs: seq<ColumnConstraint>)
      modifies this
      ensures State() == WithColumn(old(State()), key, column, cs)
    {
      if key !in tables {
        return;
      }
      tables := tables[key := tables[key].(columns := tables[key].columns[column.name := column])];
      ghost var whole := OwnConstraints(State(), key, column.name, cs);
      assert cs[0..] == cs;
      for i := 0 to |cs|
        invariant key in tables && OwnConstraints(State(), key, column.name, cs[i..]) == whole
      {
        assert cs[i..][1..] == cs[i + 1..];
        AddOwnConstraint(key, column.name, cs[i]);
      }
    }

    /** Pushes the index or key that a constraint written with its column makes. */
    method AddOwnConstraint(key: string, column: string, c: ColumnConstraint)
      requires key in tables
      modifies this`indexes, this`foreignKeys
      ensures State() == OwnConstraint(old(State()), key, column, c)
    {
      var table := tables[key].name;
      match c {
        case OwnPrimary(name) =>
          indexes := indexes + [Index(NameOr(name, table + "_pkey"), key, PrimaryIndex, true, [column], None)];
        case OwnUnique(name) =>
          indexes := indexes
          + [Index(NameOr(name, table + "_" + column + "_key"), key, UniqueIndex, true, [column], None)];
        case OwnReference(name, ref, refColumns) =>
          foreignKeys := foreignKeys
          + [ForeignKey(NameOr(name, table + "_" + column + "_fkey"), key, [column], Resolve(State(), ref),
                        if refColumns.Some? then refColumns.value else ["id"])];
      }
    }

    /** Pushes or changes what a constraint of the whole table makes. */
    method TableConstraint(key: string, c: TableConstraint)
      modifies this`indexes, this`foreignKeys
      ensures State() == Constrained(old(State()), key, c)
    {
      if key !in tables {
        return;
      }
      var table := tables[key].name;
      match c {
        case Primary(name, columns) =>
          indexes := indexes + [Index(NameOr(name, table + "_pkey"), key, PrimaryIndex, true, columns, None)];
        case Unique(name, columns) =>
          indexes := indexes
          + [Index(NameOr(name, table + "_" + Joined(columns) + "_key"), key, UniqueIndex, true, columns, None)];
        case UniqueUsing(name, index) => indexes := Claimed(indexes, key, index, name);
        case Foreign(name, columns, ref, refColumns) =>
          foreignKeys := foreignKeys
          + [ForeignKey(NameOr(name, table + "_" + Joined(columns) + "_fkey"), key, columns, Resolve(State(), ref),
                        if refColumns.Some? then refColumns.value else seq(|columns|, _ => "id"))];
        case OtherConstraint =>
      }
    }

    method CreateTable(name: TableName, quoted: bool, temporary: bool, ifNotExists: bool, es: seq<Element>)
      modifies this
      ensures var was := old(State());
              var table := NewTable(was, name, quoted, temporary);
              State() == CreatedTable(was, TableKey(table.schema, name.name), table, ifNotExists, es)
    {
      var table := NewTable(State(), name, quoted, temporary);
      var key := TableKey(table.schema, name.name);
      if key in tables && ifNotExists {
        return;
      }
      tables := tables[key := table];
      ghost var start := State();
      assert es[..0] == [];
      for i := 0 to |es|
        invariant State() == Elements(start, key, es[..i])
      {
        assert es[..i + 1][..i] == es[..i];
        match es[i] {
          case ColumnElement(column, cs) => ColumnDefinition(key, column, cs);
          case ConstraintElement(c) => TableConstraint(key, c);
        }
      }
      assert es[..|es|] == es;
    }

    /** Runs the actions in turn, following the table to its new key; a throwing drop gives up the rest. */
    method AlterTable(name: TableName, actions: seq<Action>)
      modifies this
      ensures State() == Actions(patterns, old(State()), Resolve(old(State()), name), actions)
    {
      var key := Resolve(State(), name);
      ghost var whole := Actions(patterns, State(), key, actions);
      assert actions[0..] == actions;
      for i := 0 to |actions|
        invariant Actions(patterns, State(), key, actions[i..]) == whole
      {
        assert actions[i..][1..] == actions[i + 1..];
        var thrown := Act(key, actions[i]);
        if thrown {
          return;
        }
        key := KeyAfter(key, actions[i]);
      }
    }

    method Act(key: string, a: Action) returns (thrown: bool)
      modifies this
      ensures State() == Acted(patterns, old(State()), key, a) && thrown == Throws(patterns, a)
    {
      thrown := false;
      match a {
        case RenameTo(to) => RenameTable(key, MovedTo(key, to));
        case RenameColumn(from, column) => RenameColumn(key, from, column);
        case DropColumn(column) => thrown := DropColumn(key, column);
        case AddColumn(ifNotExists, column, cs) =>
          if !(ifNotExists && key in tables && column.name in tables[key].columns) {
            ColumnDefinition(key, column, cs);
          }
        case AddConstraint(c) => TableConstraint(key, c);
        case RenameConstraint(from, to) =>
          foreignKeys := Mapped(foreignKeys, RelabeledKey(key, from, to));
          indexes := Mapped(indexes, RelabeledIndex(key, from, to));
        case DropConstraint(name) =>
          foreignKeys := Filtered(foreignKeys, KeyNotNamed(key, name));
          indexes := Filtered(indexes, ConstraintNotNamed(key, name));
        case SetSecured(on) =>
          if key in tables {
            tables := tables[key := tables[key].(secured := on)];
          }
        case SetForced(on) =>
          if key in tables {
            tables := tables[key := tables[key].(forced := on)];
          }
      }
    }

    method DropTables(names: seq<TableName>)
      modifies this
      ensures State() == DroppedTables(old(State()), names)
    {
      assert names[0..] == names;
      for i := 0 to |names|
        invariant DroppedTables(State(), names[i..]) == DroppedTables(old(State()), names)
      {
        assert names[i..][1..] == names[i + 1..];
        var key := Resolve(State(), names[i]);
        tables := tables - {key};
        indexes := Filtered(indexes, IndexElsewhere(key));
        foreignKeys := Filtered(foreignKeys, KeyElsewhere(key));
        policies := Filtered(policies, PolicyElsewhere(key));
      }
    }

    method CreateIndex(name: string, ifNotExists: bool, unique: bool, table: TableName, columns: seq<string>,
                       condition: Option<string>)
      modifies this`indexes
      ensures State() == Applied(patterns, old(State()),
                                 SchemaModel.CreateIndex(name, ifNotExists, unique, table, columns, condition))
    {
      var key := Resolve(State(), table);
      if ifNotExists && exists i :: 0 <= i < |indexes| && indexes[i].name == name {
        return;
      }
      indexes := indexes + [Index(name, key, if unique then UniqueIndex else PlainIndex, unique, columns, condition)];
    }

    method DropIndexes(names: seq<string>)
      modifies this`indexes
      ensures State() == DroppedIndexes(old(State()), names)
    {
      assert names[0..] == names;
      for i := 0 to |names|
        invariant DroppedIndexes(State(), names[i..]) == DroppedIndexes(old(State()), names)
      {
        assert names[i..][1..] == names[i + 1..];
        indexes := Filtered(indexes, IndexNotNamed(names[i]));
      }
    }

    /** One statement. */
    method Statement(s: SchemaModel.Statement)
      modifies this
      ensures State() == Applied(patterns, old(State()), s)
    {
      match s {
        case CreateTable(name, quoted, temporary, ifNotExists, es) =>
          CreateTable(name, quoted, temporary, ifNotExists, es);
        case AlterTable(name, actions) => AlterTable(name, actions);
        case DropTable(names) => DropTables(names);
        case CreatePolicy(name, table, command, roles) =>
          policies := policies + [Policy(name, Resolve(State(), table), command, roles)];
        case CreateIndex(name, ifNotExists, unique, table, columns, condition) =>
          CreateIndex(name, ifNotExists, unique, table, columns, condition);
        case RenameIndex(name, to) => indexes := Mapped(indexes, IndexRenamed(name, to));
        case DropIndex(names) => DropIndexes(names);
        case RenamePolicy(name, table, to) => policies := PolicyRenamed(policies, Resolve(State(), table), name, to);
        case DropPolicy(name, table) => policies := Filtered(policies, PolicyNotNamed(Resolve(State(), table), name));
      }
    }

    /** All the statements of a migration. */
    method Parse(statements: seq<SchemaModel.Statement>)
      modifies this
      ensures State() == Migrated(patterns, old(State()), statements, |statements|)
    {
      for i := 0 to |statements|
        invariant State() == Migrated(patterns, old(State()), statements, i)
      {
        Statement(statements[i]);
      }
    }
  }
}
