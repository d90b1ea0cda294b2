/**
 The filters that look up record ids first: what they compile, what the database selects for it, and what
 that means. Relevance of a text and the distance on the sphere are left to the database.
 */
module IdLookups {
  import opened Wrappers
  import opened Php
  import opened JoinModel
  import opened JoinChain

  /** A circle around a point, as its parameters give them; `multiplier` is the radius of the sphere. */
  datatype Circle = Circle(multiplier: int, lat: string, lng: string, radius: string)

  /**
   Where lookups search: the table and data map of the repository's class, and what the database computes,
   `relevant(text, column, record, expansion)` for MATCH AGAINST and `near` for the distance.
   */
  datatype Source = Source(
    db: Database, dataMap: DataMap, class_: string, table: string, columnOf: string -> string,
    relevant: (string, string, Row, bool) -> bool, near: (Circle, Cell, Cell) -> bool)

  // ---------------------------------------------------------------- queries

  /** `FIND_IN_SET(value, column) > 0`, `MATCH(column) AGAINST (:text_ma_placeholder)`, `distance <= radius` */
  datatype Condition =
    | Lists(value: string, column: Column)
    | MatchesText(placeholder: int, column: Column, expansion: bool)
    | Within(circle: Circle, lat: Column, lng: Column)

  /** `SELECT o.uid FROM table AS o <joins> WHERE condition OR condition ...` with texts bound to placeholders. */
  datatype IdQuery = IdQuery(joins: seq<Join>, conditions: seq<Condition>, binds: map<int, string>)

  predicate ConditionHolds(src: Source, binds: map<int, string>, b: Binding, c: Condition) {
    match c
    case Lists(value, column) => Value(b, column) != NullCell && FindInSet(value, CellText(Value(b, column)))
    case MatchesText(placeholder, column, expansion) =>
      placeholder in binds && column.alias in b && b[column.alias].Some? &&
      src.relevant(binds[placeholder], column.name, b[column.alias].value, expansion)
    case Within(circle, lat, lng) =>
      Value(b, lat) != NullCell && Value(b, lng) != NullCell && src.near(circle, Value(b, lat), Value(b, lng))
  }

  predicate SomeCondition(src: Source, q: IdQuery, b: Binding) {
    exists c :: c in q.conditions && ConditionHolds(src, q.binds, b, c)
  }

  // ---------------------------------------------------------------- what the database selects

  /** The extensions of b by the rows that match. */
  function Matching(rows: seq<Row>, j: Join, b: Binding): seq<Binding> {
    if rows == [] then []
    else
      var b' := b[j.alias := Some(rows[0])];
      (if JoinModel.Holds(b', j.on) then [b'] else []) + Matching(rows[1..], j, b)
  }

  function JoinOne(db: Database, j: Join, b: Binding): seq<Binding> {
    var matching := Matching(Rows(db, j.table), j, b);
    if matching == [] then [b[j.alias := None]] else matching
  }

  function JoinEach(db: Database, j: Join, bs: seq<Binding>): seq<Binding> {
    if bs == [] then [] else JoinOne(db, j, bs[0]) + JoinEach(db, j, bs[1..])
  }

  function JoinAll(db: Database, joins: seq<Join>, bs: seq<Binding>): seq<Binding> {
    if joins == [] then bs else JoinAll(db, joins[1..], JoinEach(db, joins[0], bs))
  }

  function Roots(rows: seq<Row>): seq<Binding> {
    seq(|rows|, i requires 0 <= i < |rows| => map[Root := Some(rows[i])])
  }

  function SelectUids(src: Source, q: IdQuery, bs: seq<Binding>): seq<int> {
    if bs == [] then []
    else
      var uid := Value(bs[0], Column(Root, "uid"));
      (if uid.IntCell? && SomeCondition(src, q, bs[0]) then [uid.i] else []) + SelectUids(src, q, bs[1..])
  }

  /** `fetchFirstColumn()` */
  function Ids(src: Source, q: IdQuery): seq<int> {
    SelectUids(src, q, JoinAll(src.db, q.joins, Roots(Rows(src.db, src.table))))
  }

  ghost predicate Selected(src: Source, q: IdQuery, uid: int) {
    exists root, b: Binding ::
      root in Rows(src.db, src.table) && Produces(src.db, q.joins, map[Root := Some(root)], b) &&
      Value(b, Column(Root, "uid")) == IntCell(uid) && SomeCondition(src, q, b)
  }

  lemma {:induction false} MatchingMember(rows: seq<Row>, j: Join, b: Binding, b': Binding)
    ensures b' in Matching(rows, j, b) <==>
            exists row :: row in rows && JoinModel.Holds(b[j.alias := Some(row)], j.on) && b' == b[j.alias := Some(row)]
  {
    if rows != [] {
      MatchingMember(rows[1..], j, b, b');
    }
  }

  lemma {:induction false} JoinOneExtends(db: Database, j: Join, b: Binding, b': Binding)
    ensures b' in JoinOne(db, j, b) <==> Extends(db, j, b, b')
  {
    var matching := Matching(Rows(db, j.table), j, b);
    hide JoinModel.Holds, Matching, Rows;
    MatchingMember(Rows(db, j.table), j, b, b');
    if row :| JoinModel.Matches(db, j, b, row) {
      MatchingMember(Rows(db, j.table), j, b, b[j.alias := Some(row)]);
    }
    if matching != [] {
      assert matching[0] in matching;
      MatchingMember(Rows(db, j.table), j, b, matching[0]);
      var row :| row in Rows(db, j.table) && JoinModel.Holds(b[j.alias := Some(row)], j.on);
      assert JoinModel.Matches(db, j, b, row);
    }
  }

  lemma {:induction false} JoinEachExtends(db: Database, j: Join, bs: seq<Binding>, b': Binding)
    ensures b' in JoinEach(db, j, bs) <==> exists b :: b in bs && Extends(db, j, b, b')
  {
    if bs != [] {
      hide Extends, JoinOne;
      JoinOneExtends(db, j, bs[0], b');
      JoinEachExtends(db, j, bs[1..], b');
    }
  }

  /** Evaluating the joins one by one gives exactly the rows of the joined relation. */
  lemma {:induction false} JoinAllProduces(db: Database, joins: seq<Join>, bs: seq<Binding>, b': Binding)
    ensures b' in JoinAll(db, joins, bs) <==> exists b :: b in bs && Produces(db, joins, b, b')
  {
    if joins != [] {
      hide Extends, JoinEach;
      JoinAllProduces(db, joins[1..], JoinEach(db, joins[0], bs), b');
      if b: Binding, mid: Binding :| b in bs && Extends(db, joins[0], b, mid) && Produces(db, joins[1..], mid, b') {
        JoinEachExtends(db, joins[0], bs, mid);
        assert mid in JoinEach(db, joins[0], bs);
      }
      if mid :| mid in JoinEach(db, joins[0], bs) && Produces(db, joins[1..], mid, b') {
        JoinEachExtends(db, joins[0], bs, mid);
        var b :| b in bs && Extends(db, joins[0], b, mid);
        assert Produces(db, joins, b, b');
      }
    }
  }

  lemma {:induction false} SelectUidsMember(src: Source, q: IdQuery, bs: seq<Binding>, uid: int)
    ensures uid in SelectUids(src, q, bs) <==>
            exists b :: b in bs && Value(b, Column(Root, "uid")) == IntCell(uid) && SomeCondition(src, q, b)
  {
    if bs != [] {
      hide SomeCondition, Value;
      SelectUidsMember(src, q, bs[1..], uid);
    }
  }

  /** The ids fetched are those of the rows of the joined relation on which a condition holds. */
  lemma {:induction false} IdsMeaning(src: Source, q: IdQuery, uid: int)
    ensures uid in Ids(src, q) <==> Selected(src, q, uid)
  {
    var rows := Rows(src.db, src.table);
    var bs := Roots(rows);
    var all := JoinAll(src.db, q.joins, bs);
    SelectUidsMember(src, q, all, uid);
    hide SomeCondition, Value, JoinAll, Rows;
    forall b
      ensures b in all <==> exists root :: root in rows && Produces(src.db, q.joins, map[Root := Some(root)], b)
    {
      JoinAllProduces(src.db, q.joins, bs, b);
      if root :| root in rows && Produces(src.db, q.joins, map[Root := Some(root)], b) {
        var i :| 0 <= i < |rows| && rows[i] == root;
        assert bs[i] in bs;
      }
    }
  }

  // ---------------------------------------------------------------- the column of a property

  datatype Target = Target(joins: seq<Join>, column: Column, nextId: nat)

  /** The associations of a property and the name of its last part. */
  function PathOf(src: Source, property: string): (Option<seq<Association>>, string) {
    var parts := Explode('.', property);
    (Resolve(src.dataMap, src.class_, parts[..|parts| - 1]), parts[|parts| - 1])
  }

  /** The parts of a property path in front of its last dot are associations, the part behind it is the name. */
  lemma {:induction false} PathOfNames(src: Source, names: seq<string>, field: string)
    requires '.' !in field && forall name :: name in names ==> '.' !in name
    ensures PathOf(src, Implode(".", names + [field])) == (Resolve(src.dataMap, src.class_, names), field)
  {
    var parts := names + [field];
    ExplodeImplode('.', parts);
    assert parts[..|parts| - 1] == names;
  }

  /** The associations of the property are mapped, and none of them is belongs-to-many. */
  predicate CanJoin(src: Source, property: string) {
    var path := PathOf(src, property).0;
    path.Some? && Joinable(path.value)
  }

  /** The joins from the root to the record of a property, nested or not, and its column there. */
  function TargetOf(src: Source, property: string, id: nat): (r: Result<Target>)
    ensures r.Success? <==> CanJoin(src, property)
  {
    var (path, name) := PathOf(src, property);
    if path.None? then Failure("No column map")
    else
      var c :- ChainFor(path.value, Root, id);
      Success(Target(c.joins, Column(c.alias, src.columnOf(name)), c.nextId))
  }

  method AddTarget(src: Source, property: string, builder: QueryBuilder) returns (r: Result<Column>)
    modifies builder
    ensures r.Success? <==> CanJoin(src, property)
    ensures r.Success? ==>
      var target := TargetOf(src, property, old(builder.nextId)).value;
      && builder.joins == old(builder.joins) + target.joins && builder.nextId == target.nextId
      && r.value == target.column
  {
    ImplodeExplode('.', property);
    if '.' in property {
      var target :- builder.AddJoinsForNestedProperty(src.dataMap, src.class_, property);
      r := Success(Column(target.0, src.columnOf(target.1)));
    } else {
      var parts := Explode('.', property);
      assert parts[..|parts| - 1] == [];
      assert parts[|parts| - 1] == property;
      r := Success(Column(Root, src.columnOf(property)));
    }
  }

  // ---------------------------------------------------------------- the contain filter

  function ListConditions(column: Column, values: seq<string>): seq<Condition> {
    seq(|values|, i requires 0 <= i < |values| => Lists(values[i], column))
  }

  function ContainQuery(src: Source, property: string, values: seq<string>): (r: Result<IdQuery>)
    ensures r.Success? <==> CanJoin(src, property)
  {
    var target :- TargetOf(src, property, 0);
    Success(IdQuery(target.joins, ListConditions(target.column, values), map[]))
  }

  method FindContainingIds(src: Source, property: string, values: seq<string>) returns (r: Result<seq<int>>)
    ensures r.Success? <==> CanJoin(src, property)
    ensures r.Success? ==> r.value == Ids(src, ContainQuery(src, property, values).value)
  {
    hide TargetOf, Ids;
    var builder := new QueryBuilder();
    var column :- AddTarget(src, property, builder);
    var conditions := [];
    for i := 0 to |values|
      invariant conditions == ListConditions(column, values[..i])
    {
      conditions := conditions + [Lists(values[i], column)];
    }
    assert values[..|values|] == values;
    assert builder.joins == TargetOf(src, property, 0).value.joins;
    r := Success(Ids(src, IdQuery(builder.joins, conditions, map[])));
  }

  // ---------------------------------------------------------------- full-text search

  /** One condition for each entry, its placeholder named by the integer cast of the key. */
  function TextConditions(column: Column, entries: seq<(string, string)>, expansion: bool): seq<Condition> {
    seq(|entries|, i requires 0 <= i < |entries| => MatchesText(IntCast(entries[i].0), column, expansion))
  }

  /** The texts bound to the placeholders; a later entry with the same cast takes the place of an earlier one. */
  function Binds(entries: seq<(string, string)>): (r: map<int, string>)
    ensures forall k :: k in r <==> exists e :: e in entries && IntCast(e.0) == k
  {
    if entries == [] then map[]
    else
      var last := entries[|entries| - 1];
      assert entries == entries[..|entries| - 1] + [last];
      Binds(entries[..|entries| - 1])[IntCast(last.0) := last.1]
  }

  function TextQuery(src: Source, property: string, entries: seq<(string, string)>, expansion: bool)
      : (r: Result<IdQuery>)
    ensures r.Success? <==> CanJoin(src, property)
  {
    var target :- TargetOf(src, property, 0);
    Success(IdQuery(target.joins, TextConditions(target.column, entries, expansion), Binds(entries)))
  }

  method MatchAgainstFindIds(src: Source, property: string, entries: seq<(string, string)>, expansion: bool)
      returns (r: Result<seq<int>>)
    ensures r.Success? <==> CanJoin(src, property)
    ensures r.Success? ==> r.value == Ids(src, TextQuery(src, property, entries, expansion).value)
  {
    hide TargetOf, Ids, IntCast;
    var builder := new QueryBuilder();
    var column :- AddTarget(src, property, builder);
    var conditions, binds := [], map[];
    for i := 0 to |entries|
      invariant conditions == TextConditions(column, entries[..i], expansion) && binds == Binds(entries[..i])
    {
      var (key, value) := entries[i];
      assert entries[..i + 1][..i] == entries[..i];
      conditions := conditions + [MatchesText(IntCast(key), column, expansion)];
      binds := binds[IntCast(key) := value];
    }
    assert entries[..|entries|] == entries;
    assert builder.joins == TargetOf(src, property, 0).value.joins;
    r := Success(Ids(src, IdQuery(builder.joins, conditions, binds)));
  }

  /** The texts that are searched. */
  function Texts(entries: seq<(string, string)>): set<string> {
    Binds(entries).Values
  }

  // ---------------------------------------------------------------- distance

  function DistanceQuery(src: Source, latProperty: string, lngProperty: string, circle: Circle): (r: Result<IdQuery>)
    ensures r.Success? <==> CanJoin(src, latProperty) && CanJoin(src, lngProperty)
  {
    var lat :- TargetOf(src, latProperty, 0);
    var lng :- TargetOf(src, lngProperty, lat.nextId);
    Success(IdQuery(lat.joins + lng.joins, [Within(circle, lat.column, lng.column)], map[]))
  }

  /** The joins of both coordinates are added to one query builder, one chain after the other. */
  method FindNearIds(src: Source, latProperty: string, lngProperty: string, circle: Circle)
      returns (r: Result<seq<int>>)
    ensures r.Success? <==> CanJoin(src, latProperty) && CanJoin(src, lngProperty)
    ensures r.Success? ==> r.value == Ids(src, DistanceQuery(src, latProperty, lngProperty, circle).value)
  {
    hide TargetOf, Ids;
    var builder := new QueryBuilder();
    var lat :- AddTarget(src, latProperty, builder);
    assert builder.joins == TargetOf(src, latProperty, 0).value.joins;
    var lng :- AddTarget(src, lngProperty, builder);
    r := Success(Ids(src, IdQuery(builder.joins, [Within(circle, lat, lng)], map[])));
  }
}
