/**
 Dotted property paths: the filters compile an association path into a chain of left joins. Here is
 the relational meaning of such a chain, and the chains of related records it has to find.
 */
module JoinModel {
  import opened Wrappers
  import opened Php

  datatype Cell = NullCell | IntCell(i: int) | TextCell(text: string)

  type Row = map<string, Cell>

  type Database = map<string, seq<Row>>

  /** Column `name` of a row; an absent column and the all-NULL row of a left join read as NULL. */
  function CellAt(row: Option<Row>, name: string): Cell {
    if row.Some? && name in row.value then row.value[name] else NullCell
  }

  function Rows(db: Database, table: string): seq<Row> {
    if table in db then db[table] else []
  }

  // ---------------------------------------------------------------- SQL comparisons, true or not

  predicate SqlEq(a: Cell, b: Cell) {
    a != NullCell && a == b
  }

  /** `FIND_IN_SET(needle, list) > 0` */
  predicate FindInSet(needle: string, list: string) {
    list != "" && needle in Explode(',', list)
  }

  predicate CellInSet(needle: Cell, list: Cell) {
    needle != NullCell && list != NullCell && FindInSet(CellText(needle), CellText(list))
  }

  function CellText(c: Cell): string {
    match c
    case NullCell => ""
    case IntCell(i) => Decimal(i)
    case TextCell(t) => t
  }

  // ---------------------------------------------------------------- data mapping

  datatype Relation = HasOne | HasMany | HasAndBelongsToMany | BelongsToMany

  /**
   Empty names stand for null or empty column map entries. The match fields are what else the relation
   requires: of the child record, or of the record in the relation table.
   */
  datatype ColumnMap = ColumnMap(
    relation: Relation, column: string, childTable: string,
    parentKey: string, childKey: string, relationTable: string, matchFields: map<string, string>)

  datatype Association = Association(columnMap: ColumnMap, childClass: string)

  /** Column maps and target types by class and property. */
  type DataMap = map<(string, string), Association>

  /** The child row is related to the parent row by the key columns of the column map. */
  ghost predicate Related(db: Database, cm: ColumnMap, parent: Row, child: Row) {
    match cm.relation
    case HasOne =>
      if cm.parentKey != "" then SqlEq(CellAt(Some(parent), "uid"), CellAt(Some(child), cm.parentKey))
      else SqlEq(CellAt(Some(parent), cm.column), CellAt(Some(child), "uid"))
    case HasMany =>
      if cm.parentKey != "" then SqlEq(CellAt(Some(parent), "uid"), CellAt(Some(child), cm.parentKey))
      else CellInSet(CellAt(Some(child), "uid"), CellAt(Some(parent), cm.column))
    case HasAndBelongsToMany =>
      exists mm :: mm in Rows(db, cm.relationTable) &&
                   SqlEq(CellAt(Some(parent), "uid"), CellAt(Some(mm), cm.parentKey)) &&
                   SqlEq(CellAt(Some(mm), cm.childKey), CellAt(Some(child), "uid"))
    case BelongsToMany => false
  }

  /** Associations along a path of property names, starting from a class. */
  function Resolve(dm: DataMap, class_: string, path: seq<string>): Option<seq<Association>>
    decreases |path|
  {
    if path == [] then Some([])
    else if (class_, path[0]) !in dm then None
    else
      var a := dm[(class_, path[0])];
      var rest := Resolve(dm, a.childClass, path[1..]);
      if rest.None? then None else Some([a] + rest.value)
  }

  /** Every relation but belongs-to-many can be joined. */
  predicate Joinable(path: seq<Association>) {
    forall a :: a in path ==> a.columnMap.relation != BelongsToMany
  }

  /** The associations that the names stand for, each looked up in the class that the one before leads to. */
  predicate StandsFor(dm: DataMap, class_: string, names: seq<string>, path: seq<Association>) {
    |path| == |names| && forall i :: 0 <= i < |path| ==> IsAt(dm, ClassAt(class_, path, i), names[i], path[i])
  }

  predicate IsAt(dm: DataMap, class_: string, name: string, a: Association) {
    (class_, name) in dm && dm[(class_, name)] == a
  }

  /** The class that the first associations lead to. */
  function ClassAt(class_: string, path: seq<Association>, i: nat): string
    requires i <= |path|
  {
    if i == 0 then class_ else path[i - 1].childClass
  }

  lemma {:induction false} ResolveMeaning(dm: DataMap, class_: string, names: seq<string>, path: seq<Association>)
    ensures Resolve(dm, class_, names) == Some(path) <==> StandsFor(dm, class_, names, path)
    decreases |names|
  {
    if names != [] {
      if path != [] && (class_, names[0]) in dm && path[0] == dm[(class_, names[0])] {
        ResolveMeaning(dm, path[0].childClass, names[1..], path[1..]);
        assert [path[0]] + path[1..] == path;
        StandsForRest(dm, class_, names, path);
        if StandsFor(dm, path[0].childClass, names[1..], path[1..]) {
          StandsForFirst(dm, class_, names, path);
        }
      } else if path != [] {
        StandsForHead(dm, class_, names, path);
      }
    }
  }

  lemma {:induction false} StandsForHead(dm: DataMap, class_: string, names: seq<string>, path: seq<Association>)
    requires names != [] && path != []
    ensures StandsFor(dm, class_, names, path) ==> IsAt(dm, class_, names[0], path[0])
  {
    if StandsFor(dm, class_, names, path) {
      assert IsAt(dm, ClassAt(class_, path, 0), names[0], path[0]);
    }
  }

  lemma {:induction false} StandsForFirst(dm: DataMap, class_: string, names: seq<string>, path: seq<Association>)
    requires names != [] && path != [] && (class_, names[0]) in dm && path[0] == dm[(class_, names[0])]
    requires StandsFor(dm, path[0].childClass, names[1..], path[1..])
    ensures StandsFor(dm, class_, names, path)
  {
    forall i | 0 < i < |path|
      ensures IsAt(dm, ClassAt(class_, path, i), names[i], path[i])
    {
      assert IsAt(dm, ClassAt(path[0].childClass, path[1..], i - 1), names[1..][i - 1], path[1..][i - 1]);
    }
  }

  lemma {:induction false} StandsForRest(dm: DataMap, class_: string, names: seq<string>, path: seq<Association>)
    requires names != [] && path != []
    ensures StandsFor(dm, class_, names, path) ==> StandsFor(dm, path[0].childClass, names[1..], path[1..])
  {
    if StandsFor(dm, class_, names, path) {
      forall i | 0 <= i < |path| - 1
        ensures IsAt(dm, ClassAt(path[0].childClass, path[1..], i), names[1..][i], path[1..][i])
      {
        assert IsAt(dm, ClassAt(class_, path, i + 1), names[i + 1], path[i + 1]);
      }
    }
  }

  /** Some chain of related records leads from `row` to a record with the property `goal`. */
  ghost predicate Leads(db: Database, path: seq<Association>, row: Row, goal: Option<Row> -> bool) {
    if path == [] then goal(Some(row))
    else exists child :: child in Rows(db, path[0].columnMap.childTable) &&
                         Related(db, path[0].columnMap, row, child) &&
                         Leads(db, path[1..], child, goal)
  }

  // ---------------------------------------------------------------- left joins

  /** The root alias `o`, and fresh aliases as `uniqid` gives them. */
  datatype Alias = Root | Unique(id: nat, suffix: string)

  datatype Column = Column(alias: Alias, name: string)

  datatype On = Equal(left: Column, right: Column) | InSet(list: Column, needle: Column)

  datatype Join = Join(from: Alias, table: string, alias: Alias, on: On)

  /** One row of the joined relation: a record or NULLs for each alias introduced so far. */
  type Binding = map<Alias, Option<Row>>

  function Value(b: Binding, c: Column): Cell {
    if c.alias in b then CellAt(b[c.alias], c.name) else NullCell
  }

  predicate Holds(b: Binding, on: On) {
    match on
    case Equal(l, r) => SqlEq(Value(b, l), Value(b, r))
    case InSet(list, needle) => CellInSet(Value(b, needle), Value(b, list))
  }

  ghost predicate Matches(db: Database, j: Join, b: Binding, row: Row) {
    row in Rows(db, j.table) && Holds(b[j.alias := Some(row)], j.on)
  }

  /** LEFT JOIN: b extends to each matching row, or to NULLs when there is none. */
  ghost predicate Extends(db: Database, j: Join, b: Binding, b': Binding) {
    if exists row :: Matches(db, j, b, row)
    then exists row :: Matches(db, j, b, row) && b' == b[j.alias := Some(row)]
    else b' == b[j.alias := None]
  }

  /** b' is a row of the relation that the joins make of the single row b. */
  ghost predicate Produces(db: Database, joins: seq<Join>, b: Binding, b': Binding) {
    if joins == [] then b' == b
    else exists mid :: Extends(db, joins[0], b, mid) && Produces(db, joins[1..], mid, b')
  }

  /** The uids selected by `SELECT o.uid FROM table AS o <joins> WHERE <goal on the columns of alias>`. */
  ghost predicate Selects(db: Database, table: string, joins: seq<Join>, alias: Alias, goal: Option<Row> -> bool,
                          uid: Cell)
  {
    exists root, b: Binding :: root in Rows(db, table) && Produces(db, joins, map[Root := Some(root)], b) &&
      Value(b, Column(Root, "uid")) == uid && alias in b && goal(b[alias])
  }
}
