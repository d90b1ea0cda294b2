/**
 Relations with match fields, which tell apart the records of several relations kept in one table: the
 joins compare key columns only, so they are exact for just those paths that have none.
 */
module MatchFields {
  import opened Wrappers
  import opened Php
  import opened JoinModel
  import opened JoinChain

  predicate Carries(row: Row, fields: map<string, string>) {
    forall name :: name in fields ==> CellAt(Some(row), name) == TextCell(fields[name])
  }

  /** The child row is related to the parent row by the whole column map. */
  ghost predicate FullyRelated(db: Database, cm: ColumnMap, parent: Row, child: Row) {
    if cm.relation.HasAndBelongsToMany? then
      exists mm :: mm in Rows(db, cm.relationTable) && Carries(mm, cm.matchFields) &&
                   SqlEq(CellAt(Some(parent), "uid"), CellAt(Some(mm), cm.parentKey)) &&
                   SqlEq(CellAt(Some(mm), cm.childKey), CellAt(Some(child), "uid"))
    else Related(db, cm, parent, child) && Carries(child, cm.matchFields)
  }

  ghost predicate FullyLeads(db: Database, path: seq<Association>, row: Row, goal: Option<Row> -> bool) {
    if path == [] then goal(Some(row))
    else exists child :: child in Rows(db, path[0].columnMap.childTable) &&
                         FullyRelated(db, path[0].columnMap, row, child) &&
                         FullyLeads(db, path[1..], child, goal)
  }

  ghost predicate Plain(path: seq<Association>) {
    forall i :: 0 <= i < |path| ==> path[i].columnMap.matchFields == map[]
  }

  lemma {:induction false} FullyIsRelated(db: Database, cm: ColumnMap, parent: Row, child: Row)
    ensures FullyRelated(db, cm, parent, child) ==> Related(db, cm, parent, child)
    ensures cm.matchFields == map[] && Related(db, cm, parent, child) ==> FullyRelated(db, cm, parent, child)
  {
    if cm.matchFields == map[] && cm.relation.HasAndBelongsToMany? && Related(db, cm, parent, child) {
      var mm :| mm in Rows(db, cm.relationTable) &&
                SqlEq(CellAt(Some(parent), "uid"), CellAt(Some(mm), cm.parentKey)) &&
                SqlEq(CellAt(Some(mm), cm.childKey), CellAt(Some(child), "uid"));
      assert Carries(mm, cm.matchFields);
    }
  }

  /** No record is missed, and without match fields none is found beside the related ones. */
  lemma {:induction false} FullyIsLed(db: Database, path: seq<Association>, row: Row, goal: Option<Row> -> bool)
    ensures FullyLeads(db, path, row, goal) ==> Leads(db, path, row, goal)
    ensures Plain(path) && Leads(db, path, row, goal) ==> FullyLeads(db, path, row, goal)
    decreases |path|
  {
    if path != [] {
      hide Related, FullyRelated, Rows;
      assert Plain(path) ==> path[0].columnMap.matchFields == map[] && Plain(path[1..]);
      forall child
        ensures FullyLeads(db, path[1..], child, goal) ==> Leads(db, path[1..], child, goal)
        ensures Plain(path) && Leads(db, path[1..], child, goal) ==> FullyLeads(db, path[1..], child, goal)
        ensures FullyRelated(db, path[0].columnMap, row, child) ==> Related(db, path[0].columnMap, row, child)
        ensures Plain(path) && Related(db, path[0].columnMap, row, child) ==>
          FullyRelated(db, path[0].columnMap, row, child)
      {
        FullyIsLed(db, path[1..], child, goal);
        FullyIsRelated(db, path[0].columnMap, row, child);
      }
    }
  }

  ghost predicate Found(db: Database, table: string, path: seq<Association>, goal: Option<Row> -> bool, uid: Cell) {
    exists root :: root in Rows(db, table) && CellAt(Some(root), "uid") == uid && FullyLeads(db, path, root, goal)
  }

  /** On every database the joins select the roots from which fully related records lead to the condition. */
  ghost predicate Exact(path: seq<Association>)
    requires ChainFor(path, Root, 0).Success?
  {
    var c := ChainFor(path, Root, 0).value;
    forall db: Database, table: string, goal: Option<Row> -> bool, uid: Cell :: !goal(None) ==>
      (Selects(db, table, c.joins, c.alias, goal, uid) <==> Found(db, table, path, goal, uid))
  }

  // ---------------------------------------------------------------- one record related to itself by every key

  function ColumnNames(path: seq<Association>): set<string> {
    if path == [] then {"uid"}
    else
      var cm := path[0].columnMap;
      {cm.column, cm.parentKey, cm.childKey} + ColumnNames(path[1..])
  }

  function Tables(path: seq<Association>): set<string> {
    if path == [] then {}
    else {path[0].columnMap.childTable, path[0].columnMap.relationTable} + Tables(path[1..])
  }

  function Ones(names: set<string>): Row {
    map name | name in names :: IntCell(1)
  }

  function Everywhere(tables: set<string>, row: Row): Database {
    map table | table in tables :: [row]
  }

  predicate IsThere(row: Option<Row>) {
    row.Some?
  }

  lemma {:induction false} OneInSet()
    ensures CellInSet(IntCell(1), IntCell(1))
  {
    assert Decimal(1) == "1";
    ImplodeExplode(',', "1");
    assert Explode(',', "1")[0] == "1";
  }

  lemma {:induction false} OnesRelated(cm: ColumnMap, names: set<string>, tables: set<string>)
    requires {"uid", cm.column, cm.parentKey, cm.childKey} <= names && {cm.childTable, cm.relationTable} <= tables
    requires !cm.relation.BelongsToMany?
    ensures Related(Everywhere(tables, Ones(names)), cm, Ones(names), Ones(names))
  {
    var row, db := Ones(names), Everywhere(tables, Ones(names));
    OneInSet();
    hide CellInSet;
    assert row in Rows(db, cm.relationTable);
  }

  lemma {:induction false} OnesLead(path: seq<Association>, names: set<string>, tables: set<string>, parent: Alias,
                                    id: nat)
    requires ChainFor(path, parent, id).Success? && ColumnNames(path) <= names && Tables(path) <= tables
    requires "uid" in names
    ensures Leads(Everywhere(tables, Ones(names)), path, Ones(names), IsThere)
    decreases |path|
  {
    if path != [] {
      var first := JoinsFor(parent, path[0].columnMap, id).value;
      OnesRelated(path[0].columnMap, names, tables);
      OnesLead(path[1..], names, tables, first.alias, first.nextId);
      hide Related;
      assert Ones(names) in Rows(Everywhere(tables, Ones(names)), path[0].columnMap.childTable);
    }
  }

  lemma {:induction false} OnesCarryNothing(names: set<string>, fields: map<string, string>)
    ensures Carries(Ones(names), fields) ==> fields == map[]
  {
    if name :| name in fields {
      assert CellAt(Some(Ones(names)), name) != TextCell(fields[name]);
    } else {
      assert fields == map[];
    }
  }

  lemma {:induction false} OnesNotFullyRelated(cm: ColumnMap, names: set<string>, tables: set<string>, child: Row)
    requires cm.matchFields != map[] && child == Ones(names)
    ensures !FullyRelated(Everywhere(tables, Ones(names)), cm, Ones(names), child)
  {
    OnesCarryNothing(names, cm.matchFields);
    hide Carries;
    assert forall mm :: mm in Rows(Everywhere(tables, Ones(names)), cm.relationTable) ==> mm == Ones(names);
  }

  lemma {:induction false} OnesStop(path: seq<Association>, names: set<string>, tables: set<string>)
    requires FullyLeads(Everywhere(tables, Ones(names)), path, Ones(names), IsThere)
    ensures Plain(path)
    decreases |path|
  {
    if path != [] {
      var row, db := Ones(names), Everywhere(tables, Ones(names));
      var child :| child in Rows(db, path[0].columnMap.childTable) && FullyRelated(db, path[0].columnMap, row, child) &&
                   FullyLeads(db, path[1..], child, IsThere);
      assert child == row;
      OnesStop(path[1..], names, tables);
      if path[0].columnMap.matchFields != map[] {
        OnesNotFullyRelated(path[0].columnMap, names, tables, child);
      }
    }
  }

  lemma {:induction false} ExactIsPlain(path: seq<Association>)
    requires ChainFor(path, Root, 0).Success? && Exact(path)
    ensures Plain(path)
  {
    if path != [] {
      var names, tables, table := ColumnNames(path) + {"uid"}, Tables(path), path[0].columnMap.childTable;
      var row, db := Ones(names), Everywhere(tables, Ones(names));
      OnesLead(path, names, tables, Root, 0);
      ChainSelects(db, table, path, 0, IsThere, IntCell(1));
      hide Leads, Selects, FullyLeads;
      assert row in Rows(db, table) && CellAt(Some(row), "uid") == IntCell(1);
      assert Found(db, table, path, IsThere, IntCell(1));
      var root :| root in Rows(db, table) && CellAt(Some(root), "uid") == IntCell(1) &&
                  FullyLeads(db, path, root, IsThere);
      OnesStop(path, names, tables);
    }
  }

  /**
   The joins of a path select exactly the roots from which related records lead to the condition, on
   every database, when and only when no relation of the path has match fields.
   */
  lemma {:induction false} ExactIffPlain(path: seq<Association>)
    requires ChainFor(path, Root, 0).Success?
    ensures Exact(path) <==> Plain(path)
  {
    var c := ChainFor(path, Root, 0).value;
    if Plain(path) {
      forall db: Database, table: string, goal: Option<Row> -> bool, uid: Cell | !goal(None)
        ensures Selects(db, table, c.joins, c.alias, goal, uid) <==> Found(db, table, path, goal, uid)
      {
        ChainSelects(db, table, path, 0, goal, uid);
        hide Leads, Selects, FullyLeads, Plain, Rows, CellAt, ChainFor;
        forall root
          ensures FullyLeads(db, path, root, goal) <==> Leads(db, path, root, goal)
        {
          FullyIsLed(db, path, root, goal);
        }
      }
    }
    if Exact(path) {
      ExactIsPlain(path);
    }
  }
}
