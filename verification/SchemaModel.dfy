/**
 The schema model that migrations rebuild: tables, indexes, keys and policies, and what each statement does to
 them. Source locations and column types are left out; statements come parsed.
 */
module SchemaModel {
  import opened Options

  datatype Column = Column(name: string, quoted: bool)

  datatype Table = Table(schema: string, name: string, quoted: bool, temporary: bool, columns: map<string, Column>,
                         secured: bool, forced: bool)

  datatype IndexKind = PlainIndex | PrimaryIndex | UniqueIndex

  datatype Index = Index(name: string, table: string, kind: IndexKind, unique: bool, columns: seq<string>,
                         condition: Option<string>)

  datatype ForeignKey = ForeignKey(name: string, table: string, columns: seq<string>, refTable: string,
                                   refColumns: seq<string>)

  datatype Policy = Policy(name: string, table: string, command: string, roles: seq<string>)

  datatype Model = Model(tables: map<string, Table>, foreignKeys: seq<ForeignKey>, indexes: seq<Index>,
                         policies: seq<Policy>)

  /** What a regular expression made from a column's name does: whether it compiles, and where it matches. */
  datatype Patterns = Patterns(compiles: string -> bool, mentions: (string, string) -> bool)

  // ------------------------------------------------------------------ names

  datatype TableName = TableName(schema: Option<string>, name: string)

  function TableKey(schema: string, name: string): string {
    schema + "." + name
  }

  function Resolve(m: Model, n: TableName): string {
    if n.schema.Some? && n.schema.value != "" then TableKey(n.schema.value, n.name)
    else if TableKey("pg_temp", n.name) in m.tables then TableKey("pg_temp", n.name)
    else TableKey("public", n.name)
  }

  /** Place of the first dot, or the length where there is none. */
  function Dot(key: string): (i: nat)
    ensures i <= |key| && (i < |key| ==> key[i] == '.') && forall k :: 0 <= k < i ==> key[k] != '.'
  {
    if key == "" || key[0] == '.' then 0 else 1 + Dot(key[1..])
  }

  function SchemaPart(key: string): string {
    key[..Dot(key)]
  }

  function NamePart(key: string): string {
    if Dot(key) < |key| then key[Dot(key) + 1..] else key
  }

  function Joined(names: seq<string>): string {
    if names == [] then "" else if |names| == 1 then names[0] else names[0] + "_" + Joined(names[1..])
  }

  // ------------------------------------------------------------------ statements

  datatype ColumnConstraint =
    | OwnPrimary(name: Option<string>)
    | OwnUnique(name: Option<string>)
    | OwnReference(name: Option<string>, ref: TableName, refColumns: Option<seq<string>>)

  datatype TableConstraint =
    | Primary(name: Option<string>, columns: seq<string>)
    | Unique(name: Option<string>, columns: seq<string>)
    | UniqueUsing(name: Option<string>, index: string)
    | Foreign(name: Option<string>, columns: seq<string>, ref: TableName, refColumns: Option<seq<string>>)
    | OtherConstraint

  datatype Element =
    | ColumnElement(column: Column, constraints: seq<ColumnConstraint>)
    | ConstraintElement(constraint: TableConstraint)

  datatype Action =
    | RenameTo(to: string)
    | RenameConstraint(from: string, to: string)
    | RenameColumn(from: string, column: Column)
    | AddConstraint(constraint: TableConstraint)
    | AddColumn(ifNotExists: bool, column: Column, constraints: seq<ColumnConstraint>)
    | DropConstraint(name: string)
    | DropColumn(name: string)
    | SetSecured(on: bool)
    | SetForced(on: bool)

  datatype Statement =
    | CreateTable(table: TableName, quoted: bool, temporary: bool, ifNotExists: bool, elements: seq<Element>)
    | AlterTable(table: TableName, actions: seq<Action>)
    | DropTable(tables: seq<TableName>)
    | CreateIndex(name: string, ifNotExists: bool, unique: bool, table: TableName, columns: seq<string>,
                  condition: Option<string>)
    | RenameIndex(name: string, to: string)
    | DropIndex(names: seq<string>)
    | CreatePolicy(name: string, table: TableName, command: string, roles: seq<string>)
    | RenamePolicy(name: string, table: TableName, to: string)
    | DropPolicy(name: string, table: TableName)

  // ------------------------------------------------------------------ lists

  function Mapped<T>(xs: seq<T>, f: T -> T): (ys: seq<T>)
    ensures |ys| == |xs| && forall i :: 0 <= i < |xs| ==> ys[i] == f(xs[i])
  {
    seq(|xs|, i requires 0 <= i < |xs| => f(xs[i]))
  }

  function Filtered<T>(xs: seq<T>, p: T -> bool): (ys: seq<T>)
    ensures forall y :: y in ys ==> y in xs && p(y)
    ensures forall y :: y in xs && p(y) ==> y in ys
  {
    if xs == [] then []
    else
      var rest := Filtered(xs[1..], p);
      assert xs == [xs[0]] + xs[1..];
      if p(xs[0]) then [xs[0]] + rest else rest
  }

  function Swap(x: string, from: string, to: string): string {
    if x == from then to else x
  }

  // ------------------------------------------------------------------ what a statement does

  function MovedKey(from: string, to: string): ForeignKey -> ForeignKey {
    (fk: ForeignKey) => fk.(table := Swap(fk.table, from, to), refTable := Swap(fk.refTable, from, to))
  }

  function MovedIndex(from: string, to: string): Index -> Index {
    (ix: Index) => ix.(table := Swap(ix.table, from, to))
  }

  function MovedPolicy(from: string, to: string): Policy -> Policy {
    (p: Policy) => p.(table := Swap(p.table, from, to))
  }

  function RenamedTable(m: Model, from: string, to: string): Model {
    if from !in m.tables then m
    else
      Model((m.tables - {from})[to := m.tables[from].(name := NamePart(to))],
            Mapped(m.foreignKeys, MovedKey(from, to)), Mapped(m.indexes, MovedIndex(from, to)),
            Mapped(m.policies, MovedPolicy(from, to)))
  }

  function WithColumns(m: Model, key: string, columns: map<string, Column>): Model
    requires key in m.tables
  {
    m.(tables := m.tables[key := m.tables[key].(columns := columns)])
  }

  function SwappedAll(columns: seq<string>, from: string, to: string): (r: seq<string>)
    ensures |r| == |columns| && forall i :: 0 <= i < |r| ==> r[i] == Swap(columns[i], from, to)
  {
    seq(|columns|, i requires 0 <= i < |columns| => Swap(columns[i], from, to))
  }

  function RecolumnedKey(key: string, from: string, to: string): ForeignKey -> ForeignKey {
    (fk: ForeignKey) =>
      fk.(columns := if fk.table == key then SwappedAll(fk.columns, from, to) else fk.columns,
          refColumns := if fk.refTable == key then SwappedAll(fk.refColumns, from, to) else fk.refColumns)
  }

  function RecolumnedIndex(key: string, from: string, to: string): Index -> Index {
    (ix: Index) => if ix.table == key then ix.(columns := SwappedAll(ix.columns, from, to)) else ix
  }

  function RenamedColumn(m: Model, key: string, from: string, column: Column): Model {
    if key !in m.tables then m
    else
      var columns := m.tables[key].columns;
      var renamed := if from in columns then (columns - {from})[column.name := column] else columns;
      WithColumns(m, key, renamed).(foreignKeys := Mapped(m.foreignKeys, RecolumnedKey(key, from, column.name)),
                                    indexes := Mapped(m.indexes, RecolumnedIndex(key, from, column.name)))
  }

  predicate Expression(column: string) {
    column != "" && column[0] == '('
  }

  /** The index names the column, or an expression or predicate of it mentions the column. */
  predicate Uses(p: Patterns, ix: Index, column: string) {
    || (exists i :: 0 <= i < |ix.columns|
          && (ix.columns[i] == column || (Expression(ix.columns[i]) && p.mentions(column, ix.columns[i]))))
    || (ix.condition.Some? && p.mentions(column, ix.condition.value))
  }

  function KeepsIndex(p: Patterns, key: string, column: string): Index -> bool {
    (ix: Index) => !(ix.table == key && Uses(p, ix, column))
  }

  function KeepsKey(key: string, column: string): ForeignKey -> bool {
    (fk: ForeignKey) => !(fk.table == key && column in fk.columns) && !(fk.refTable == key && column in fk.refColumns)
  }

  function WithoutColumn(m: Model, key: string, column: string): Model {
    if key in m.tables then WithColumns(m, key, m.tables[key].columns - {column}) else m
  }

  /** Drops a column; a name that is no regular expression throws once the column itself is gone. */
  function DroppedColumn(p: Patterns, m: Model, key: string, column: string): Model {
    var rest := WithoutColumn(m, key, column);
    if !p.compiles(column) then rest
    else rest.(indexes := Filtered(m.indexes, KeepsIndex(p, key, column)),
               foreignKeys := Filtered(m.foreignKeys, KeepsKey(key, column)))
  }

  function KeyNotNamed(key: string, name: string): ForeignKey -> bool {
    (fk: ForeignKey) => !(fk.table == key && fk.name == name)
  }

  function ConstraintNotNamed(key: string, name: string): Index -> bool {
    (ix: Index) => !(ix.table == key && !ix.kind.PlainIndex? && ix.name == name)
  }

  function DroppedConstraint(m: Model, key: string, name: string): Model {
    m.(foreignKeys := Filtered(m.foreignKeys, KeyNotNamed(key, name)),
       indexes := Filtered(m.indexes, ConstraintNotNamed(key, name)))
  }

  function RelabeledKey(key: string, from: string, to: string): ForeignKey -> ForeignKey {
    (fk: ForeignKey) => if fk.table == key then fk.(name := Swap(fk.name, from, to)) else fk
  }

  function RelabeledIndex(key: string, from: string, to: string): Index -> Index {
    (ix: Index) => if ix.table == key then ix.(name := Swap(ix.name, from, to)) else ix
  }

  function RenamedConstraint(m: Model, key: string, from: string, to: string): Model {
    m.(foreignKeys := Mapped(m.foreignKeys, RelabeledKey(key, from, to)),
       indexes := Mapped(m.indexes, RelabeledIndex(key, from, to)))
  }

  function NameOr(name: Option<string>, other: string): string {
    if name.Some? then name.value else other
  }

  function WithIndex(m: Model, ix: Index): Model {
    m.(indexes := m.indexes + [ix])
  }

  function WithKey(m: Model, fk: ForeignKey): Model {
    m.(foreignKeys := m.foreignKeys + [fk])
  }

  function OwnConstraint(m: Model, key: string, column: string, c: ColumnConstraint): Model
    requires key in m.tables
  {
    var table := m.tables[key].name;
    match c
    case OwnPrimary(name) =>
      WithIndex(m, Index(NameOr(name, table + "_pkey"), key, PrimaryIndex, true, [column], None))
    case OwnUnique(name) =>
      WithIndex(m, Index(NameOr(name, table + "_" + column + "_key"), key, UniqueIndex, true, [column], None))
    case OwnReference(name, ref, refColumns) =>
      WithKey(m, ForeignKey(NameOr(name, table + "_" + column + "_fkey"), key, [column], Resolve(m, ref),
                            if refColumns.Some? then refColumns.value else ["id"]))
  }

  function OwnConstraints(m: Model, key: string, column: string, cs: seq<ColumnConstraint>): (r: Model)
    requires key in m.tables
    ensures r.tables == m.tables && r.policies == m.policies
    decreases |cs|
  {
    if cs == [] then m else OwnConstraints(OwnConstraint(m, key, column, cs[0]), key, column, cs[1..])
  }

  function WithColumn(m: Model, key: string, column: Column, cs: seq<ColumnConstraint>): Model {
    if key !in m.tables then m
    else OwnConstraints(WithColumns(m, key, m.tables[key].columns[column.name := column]), key, column.name, cs)
  }

  /** The first index of this name on the table takes the constraint over. */
  function Claimed(indexes: seq<Index>, key: string, index: string, name: Option<string>): (r: seq<Index>)
    ensures |r| == |indexes|
    ensures forall i :: 0 <= i < |r| ==> r[i].table == indexes[i].table && r[i].columns == indexes[i].columns
  {
    if indexes == [] then []
    else if indexes[0].name == index && indexes[0].table == key then
      [indexes[0].(kind := UniqueIndex, unique := true, name := NameOr(name, indexes[0].name))] + indexes[1..]
    else [indexes[0]] + Claimed(indexes[1..], key, index, name)
  }

  function Constrained(m: Model, key: string, c: TableConstraint): Model {
    if key !in m.tables then m
    else
      var table := m.tables[key].name;
      match c
      case Primary(name, columns) =>
        WithIndex(m, Index(NameOr(name, table + "_pkey"), key, PrimaryIndex, true, columns, None))
      case Unique(name, columns) =>
        WithIndex(m, Index(NameOr(name, table + "_" + Joined(columns) + "_key"), key, UniqueIndex, true, columns, None))
      case UniqueUsing(name, index) => m.(indexes := Claimed(m.indexes, key, index, name))
      case Foreign(name, columns, ref, refColumns) =>
        WithKey(m, ForeignKey(NameOr(name, table + "_" + Joined(columns) + "_fkey"), key, columns, Resolve(m, ref),
                              if refColumns.Some? then refColumns.value else seq(|columns|, _ => "id")))
      case OtherConstraint => m
  }

  function Elemented(m: Model, key: string, e: Element): Model {
    match e
    case ColumnElement(column, cs) => WithColumn(m, key, column, cs)
    case ConstraintElement(c) => Constrained(m, key, c)
  }

  function Elements(m: Model, key: string, es: seq<Element>): Model {
    if es == [] then m else Elemented(Elements(m, key, es[..|es| - 1]), key, es[|es| - 1])
  }

  function NewTable(m: Model, name: TableName, quoted: bool, temporary: bool): Table {
    Table(if temporary then "pg_temp" else NameOr(name.schema, "public"), name.name, quoted, temporary, map[], false,
          false)
  }

  function CreatedTable(m: Model, key: string, table: Table, ifNotExists: bool, es: seq<Element>): Model {
    if key in m.tables && ifNotExists then m else Elements(m.(tables := m.tables[key := table]), key, es)
  }

  function WithTable(m: Model, key: string, f: Table -> Table): Model {
    if key in m.tables then m.(tables := m.tables[key := f(m.tables[key])]) else m
  }

  /** The key a table of this key gets under another name. */
  function MovedTo(key: string, to: string): string {
    TableKey(SchemaPart(key), to)
  }

  function Acted(p: Patterns, m: Model, key: string, a: Action): Model {
    match a
    case RenameTo(to) => RenamedTable(m, key, MovedTo(key, to))
    case RenameConstraint(from, to) => RenamedConstraint(m, key, from, to)
    case RenameColumn(from, column) => RenamedColumn(m, key, from, column)
    case AddConstraint(c) => Constrained(m, key, c)
    case AddColumn(ifNotExists, column, cs) =>
      if ifNotExists && key in m.tables && column.name in m.tables[key].columns then m
      else WithColumn(m, key, column, cs)
    case DropConstraint(name) => DroppedConstraint(m, key, name)
    case DropColumn(column) => DroppedColumn(p, m, key, column)
    case SetSecured(on) => WithTable(m, key, (t: Table) => t.(secured := on))
    case SetForced(on) => WithTable(m, key, (t: Table) => t.(forced := on))
  }

  function KeyAfter(key: string, a: Action): string {
    if a.RenameTo? then MovedTo(key, a.to) else key
  }

  /** The action throws, and with it the rest of its statement is given up. */
  predicate Throws(p: Patterns, a: Action) {
    a.DropColumn? && !p.compiles(a.name)
  }

  function Actions(p: Patterns, m: Model, key: string, actions: seq<Action>): Model
    decreases |actions|
  {
    if actions == [] then m
    else
      var next := Acted(p, m, key, actions[0]);
      if Throws(p, actions[0]) then next else Actions(p, next, KeyAfter(key, actions[0]), actions[1..])
  }

  function KeyElsewhere(key: string): ForeignKey -> bool {
    (fk: ForeignKey) => fk.table != key && fk.refTable != key
  }

  function IndexElsewhere(key: string): Index -> bool {
    (ix: Index) => ix.table != key
  }

  function PolicyElsewhere(key: string): Policy -> bool {
    (q: Policy) => q.table != key
  }

  function DroppedTable(m: Model, key: string): Model {
    Model(m.tables - {key}, Filtered(m.foreignKeys, KeyElsewhere(key)), Filtered(m.indexes, IndexElsewhere(key)),
          Filtered(m.policies, PolicyElsewhere(key)))
  }

  function DroppedTables(m: Model, names: seq<TableName>): Model
    decreases |names|
  {
    if names == [] then m else DroppedTables(DroppedTable(m, Resolve(m, names[0])), names[1..])
  }

  function IndexNotNamed(name: string): Index -> bool {
    (ix: Index) => ix.name != name
  }

  function DroppedIndexes(m: Model, names: seq<string>): Model
    decreases |names|
  {
    if names == [] then m else DroppedIndexes(m.(indexes := Filtered(m.indexes, IndexNotNamed(names[0]))), names[1..])
  }

  function IndexRenamed(from: string, to: string): Index -> Index {
    (ix: Index) => ix.(name := Swap(ix.name, from, to))
  }

  function PolicyNotNamed(key: string, name: string): Policy -> bool {
    (q: Policy) => !(q.table == key && q.name == name)
  }

  /** The first policy of this name on the table is renamed. */
  function PolicyRenamed(policies: seq<Policy>, key: string, name: string, to: string): (r: seq<Policy>)
    ensures |r| == |policies| && forall i :: 0 <= i < |r| ==> r[i].table == policies[i].table
  {
    if policies == [] then []
    else if policies[0].table == key && policies[0].name == name then [policies[0].(name := to)] + policies[1..]
    else [policies[0]] + PolicyRenamed(policies[1..], key, name, to)
  }

  function Applied(p: Patterns, m: Model, s: Statement): Model {
    match s
    case CreateTable(name, quoted, temporary, ifNotExists, es) =>
      var table := NewTable(m, name, quoted, temporary);
      CreatedTable(m, TableKey(table.schema, name.name), table, ifNotExists, es)
    case AlterTable(name, actions) => Actions(p, m, Resolve(m, name), actions)
    case DropTable(names) => DroppedTables(m, names)
    case CreateIndex(name, ifNotExists, unique, table, columns, condition) =>
      if ifNotExists && exists i :: 0 <= i < |m.indexes| && m.indexes[i].name == name then m
      else WithIndex(m, Index(name, Resolve(m, table), if unique then UniqueIndex else PlainIndex, unique, columns,
                              condition))
    case RenameIndex(name, to) => m.(indexes := Mapped(m.indexes, IndexRenamed(name, to)))
    case DropIndex(names) => DroppedIndexes(m, names)
    case CreatePolicy(name, table, command, roles) =>
      m.(policies := m.policies + [Policy(name, Resolve(m, table), command, roles)])
    case RenamePolicy(name, table, to) => m.(policies := PolicyRenamed(m.policies, Resolve(m, table), name, to))
    case DropPolicy(name, table) => m.(policies := Filtered(m.policies, PolicyNotNamed(Resolve(m, table), name)))
  }

  /** The model after the first statements of a migration. */
  function Migrated(p: Patterns, m: Model, statements: seq<Statement>, k: nat): Model
    requires k <= |statements|
  {
    if k == 0 then m else Applied(p, Migrated(p, m, statements, k - 1), statements[k - 1])
  }
}
