/** What the id lookups find, in terms of related records. */
module IdMeanings {
  import opened Wrappers
  import opened Php
  import opened JoinModel
  import opened JoinChain
  import opened IdLookups

  /** The row is the only one of the repository's table with this uid. */
  ghost predicate IsRecord(src: Source, row: Row, uid: int) {
    && row in Rows(src.db, src.table) && CellAt(Some(row), "uid") == IntCell(uid)
    && forall other :: other in Rows(src.db, src.table) && CellAt(Some(other), "uid") == IntCell(uid) ==> other == row
  }

  /** The query has the joins of the property, and its conditions say of a row what the goal says of the record. */
  ghost predicate Asks(src: Source, q: IdQuery, target: Target, goal: Option<Row> -> bool) {
    && q.joins == target.joins && !goal(None)
    && forall b :: SomeCondition(src, q, b) <==> target.column.alias in b && goal(b[target.column.alias])
  }

  lemma {:induction false} SelectedIsSelects(src: Source, q: IdQuery, target: Target, goal: Option<Row> -> bool,
                                             uid: int)
    requires Asks(src, q, target, goal)
    ensures Selected(src, q, uid) <==>
            Selects(src.db, src.table, q.joins, target.column.alias, goal, IntCell(uid))
  {
    hide Produces, SomeCondition, Value;
  }

  /** A lookup through one property finds a record exactly when related records lead to one that meets the goal. */
  lemma {:induction false} AsksMeaning(src: Source, property: string, q: IdQuery, goal: Option<Row> -> bool, row: Row,
                                       uid: int)
    requires TargetOf(src, property, 0).Success? && Asks(src, q, TargetOf(src, property, 0).value, goal)
    requires IsRecord(src, row, uid)
    ensures uid in Ids(src, q) <==> Leads(src.db, PathOf(src, property).0.value, row, goal)
  {
    var path := PathOf(src, property).0.value;
    IdsMeaning(src, q, uid);
    SelectedIsSelects(src, q, TargetOf(src, property, 0).value, goal, uid);
    ChainSelects(src.db, src.table, path, 0, goal, IntCell(uid));
    hide Ids, Selected, Asks, Selects, Leads, PathOf;
  }

  // ---------------------------------------------------------------- the contain filter

  /** The column of the record lists one of the values. */
  ghost function ListsAny(column: string, values: seq<string>): Option<Row> -> bool {
    (row: Option<Row>) =>
      exists v :: v in values && CellAt(row, column) != NullCell && FindInSet(v, CellText(CellAt(row, column)))
  }

  lemma {:induction false} ListConditionsAsk(src: Source, target: Target, values: seq<string>)
    ensures Asks(src, IdQuery(target.joins, ListConditions(target.column, values), map[]), target,
                 ListsAny(target.column.name, values))
  {
    var q := IdQuery(target.joins, ListConditions(target.column, values), map[]);
    var goal, alias := ListsAny(target.column.name, values), target.column.alias;
    hide FindInSet;
    forall b: Binding
      ensures SomeCondition(src, q, b) <==> alias in b && goal(b[alias])
    {
      if alias in b && goal(b[alias]) {
        var cell := CellAt(b[alias], target.column.name);
        var v :| v in values && cell != NullCell && FindInSet(v, CellText(cell));
        var i :| 0 <= i < |values| && values[i] == v;
        assert q.conditions[i] in q.conditions && ConditionHolds(src, q.binds, b, q.conditions[i]);
      }
    }
  }

  /** A list of texts without commas holds exactly these texts; an empty column holds none. */
  lemma {:induction false} ListHolds(parts: seq<string>, v: string)
    requires forall part :: part in parts ==> ',' !in part
    requires Implode(",", parts) != ""
    ensures FindInSet(v, Implode(",", parts)) <==> v in parts
    ensures !FindInSet(v, "")
  {
    ExplodeImplode(',', parts);
  }

  /** The column that a property ends in. */
  function ColumnName(src: Source, property: string): string {
    src.columnOf(PathOf(src, property).1)
  }

  lemma {:induction false} ContainMeaning(src: Source, property: string, values: seq<string>, row: Row, uid: int)
    requires ContainQuery(src, property, values).Success? && IsRecord(src, row, uid)
    ensures uid in Ids(src, ContainQuery(src, property, values).value) <==>
            Leads(src.db, PathOf(src, property).0.value, row, ListsAny(ColumnName(src, property), values))
  {
    var target := TargetOf(src, property, 0).value;
    ListConditionsAsk(src, target, values);
    hide Asks, Ids, Leads, ListsAny;
    AsksMeaning(src, property, ContainQuery(src, property, values).value, ListsAny(target.column.name, values), row,
                uid);
  }

  // ---------------------------------------------------------------- full-text search

  /** One of the texts is relevant to the column of the record. */
  ghost function RelevantToAny(src: Source, column: string, texts: set<string>, expansion: bool): Option<Row> -> bool {
    (row: Option<Row>) => row.Some? && exists text :: text in texts && src.relevant(text, column, row.value, expansion)
  }

  lemma {:induction false} TextConditionsAsk(src: Source, target: Target, entries: seq<(string, string)>,
                                             expansion: bool)
    ensures Asks(src, IdQuery(target.joins, TextConditions(target.column, entries, expansion), Binds(entries)), target,
                 RelevantToAny(src, target.column.name, Texts(entries), expansion))
  {
    var q := IdQuery(target.joins, TextConditions(target.column, entries, expansion), Binds(entries));
    var goal, alias := RelevantToAny(src, target.column.name, Texts(entries), expansion), target.column.alias;
    hide IntCast;
    forall b: Binding
      ensures SomeCondition(src, q, b) <==> alias in b && goal(b[alias])
    {
      if c :| c in q.conditions && ConditionHolds(src, q.binds, b, c) {
        assert q.binds[c.placeholder] in Texts(entries);
      }
      if alias in b && goal(b[alias]) {
        var text :| text in Texts(entries) && src.relevant(text, target.column.name, b[alias].value, expansion);
        var k :| k in q.binds && q.binds[k] == text;
        var i :| 0 <= i < |entries| && IntCast(entries[i].0) == k;
        assert q.conditions[i] in q.conditions && ConditionHolds(src, q.binds, b, q.conditions[i]);
      }
    }
  }

  lemma {:induction false} TextMeaning(src: Source, property: string, entries: seq<(string, string)>, expansion: bool,
                                       row: Row, uid: int)
    requires TextQuery(src, property, entries, expansion).Success? && IsRecord(src, row, uid)
    ensures uid in Ids(src, TextQuery(src, property, entries, expansion).value) <==>
            Leads(src.db, PathOf(src, property).0.value, row,
                  RelevantToAny(src, ColumnName(src, property), Texts(entries), expansion))
  {
    var target := TargetOf(src, property, 0).value;
    TextConditionsAsk(src, target, entries, expansion);
    hide Asks, Ids, Leads, RelevantToAny;
    AsksMeaning(src, property, TextQuery(src, property, entries, expansion).value,
                RelevantToAny(src, target.column.name, Texts(entries), expansion), row, uid);
  }

  // ---------------------------------------------------------------- distance

  ghost function Is(row: Row): Option<Row> -> bool {
    (other: Option<Row>) => other == Some(row)
  }

  ghost predicate NearAt(src: Source, circle: Circle, lat: Cell, lng: Cell) {
    lat != NullCell && lng != NullCell && src.near(circle, lat, lng)
  }

  /**
   Some record related through the one path and some record related through the other, which need not be
   the same even when the paths are, have coordinates within the circle.
   */
  ghost predicate LeadsNear(src: Source, latProperty: string, lngProperty: string, circle: Circle, row: Row)
    requires PathOf(src, latProperty).0.Some? && PathOf(src, lngProperty).0.Some?
  {
    exists a, c :: Leads(src.db, PathOf(src, latProperty).0.value, row, Is(a)) &&
                   Leads(src.db, PathOf(src, lngProperty).0.value, row, Is(c)) &&
                   NearAt(src, circle, CellAt(Some(a), ColumnName(src, latProperty)),
                          CellAt(Some(c), ColumnName(src, lngProperty)))
  }

  lemma {:induction false} TwoChains(src: Source, latProperty: string, lngProperty: string, circle: Circle, row: Row,
                                     b: Binding)
    requires DistanceQuery(src, latProperty, lngProperty, circle).Success?
    requires var q := DistanceQuery(src, latProperty, lngProperty, circle).value;
             Produces(src.db, q.joins, map[Root := Some(row)], b) && SomeCondition(src, q, b)
    ensures Root in b && b[Root] == Some(row) && LeadsNear(src, latProperty, lngProperty, circle, row)
  {
    var lat := TargetOf(src, latProperty, 0).value;
    var lng := TargetOf(src, lngProperty, lat.nextId).value;
    var start: Binding := map[Root := Some(row)];
    var q := DistanceQuery(src, latProperty, lngProperty, circle).value;
    var c :| c in q.conditions && ConditionHolds(src, q.binds, b, c);
    hide Produces, Leads, ConditionHolds;
    var mid := ProducesSplit(src.db, lat.joins, lng.joins, start, b);
    WithinHolds(src, q, b, circle, lat.column, lng.column);
    var there := b[lng.column.alias].value;
    ChainKeeps(src.db, PathOf(src, latProperty).0.value, Root, 0, start, mid);
    ChainKeeps(src.db, PathOf(src, lngProperty).0.value, Root, lat.nextId, mid, b);
    ChainOnlyRelated(src.db, PathOf(src, lngProperty).0.value, Root, lat.nextId, mid, b, Is(there));
    var here := mid[lat.column.alias].value;
    ChainOnlyRelated(src.db, PathOf(src, latProperty).0.value, Root, 0, start, mid, Is(here));
  }

  lemma {:induction false} WithinHolds(src: Source, q: IdQuery, b: Binding, circle: Circle, lat: Column, lng: Column)
    requires q.conditions == [Within(circle, lat, lng)] && SomeCondition(src, q, b)
    ensures lat.alias in b && b[lat.alias].Some? && lng.alias in b && b[lng.alias].Some?
    ensures NearAt(src, circle, CellAt(b[lat.alias], lat.name), CellAt(b[lng.alias], lng.name))
  {
  }

  lemma {:induction false} NearIsWithin(src: Source, q: IdQuery, b: Binding, circle: Circle, lat: Column, lng: Column)
    requires q.conditions == [Within(circle, lat, lng)] && lat.alias in b && lng.alias in b
    requires NearAt(src, circle, CellAt(b[lat.alias], lat.name), CellAt(b[lng.alias], lng.name))
    ensures SomeCondition(src, q, b)
  {
    assert q.conditions[0] in q.conditions;
  }

  lemma {:induction false} BothReached(src: Source, latProperty: string, lngProperty: string, circle: Circle, row: Row)
      returns (b: Binding)
    requires DistanceQuery(src, latProperty, lngProperty, circle).Success?
    requires LeadsNear(src, latProperty, lngProperty, circle, row)
    ensures var q := DistanceQuery(src, latProperty, lngProperty, circle).value;
            Produces(src.db, q.joins, map[Root := Some(row)], b) && SomeCondition(src, q, b)
    ensures Root in b && b[Root] == Some(row)
  {
    var lat := TargetOf(src, latProperty, 0).value;
    var lng := TargetOf(src, lngProperty, lat.nextId).value;
    var start: Binding := map[Root := Some(row)];
    var q := DistanceQuery(src, latProperty, lngProperty, circle).value;
    var a, c :| Leads(src.db, PathOf(src, latProperty).0.value, row, Is(a)) &&
                Leads(src.db, PathOf(src, lngProperty).0.value, row, Is(c)) &&
                NearAt(src, circle, CellAt(Some(a), ColumnName(src, latProperty)),
                       CellAt(Some(c), ColumnName(src, lngProperty)));
    hide Produces, Leads, SomeCondition;
    var mid := ChainReaches(src.db, PathOf(src, latProperty).0.value, Root, 0, start, row, Is(a));
    b := ChainReaches(src.db, PathOf(src, lngProperty).0.value, Root, lat.nextId, mid, row, Is(c));
    ProducesConcat(src.db, lat.joins, lng.joins, start, mid, b);
    assert lat.column.alias in mid;
    NearIsWithin(src, q, b, circle, lat.column, lng.column);
  }

  /** The distance filter finds a record exactly when related records have a latitude and a longitude in the circle. */
  lemma {:induction false} DistanceMeaning(src: Source, latProperty: string, lngProperty: string, circle: Circle,
                                           row: Row, uid: int)
    requires DistanceQuery(src, latProperty, lngProperty, circle).Success? && IsRecord(src, row, uid)
    ensures PathOf(src, latProperty).0.Some? && PathOf(src, lngProperty).0.Some?
    ensures uid in Ids(src, DistanceQuery(src, latProperty, lngProperty, circle).value) <==>
            LeadsNear(src, latProperty, lngProperty, circle, row)
  {
    var q := DistanceQuery(src, latProperty, lngProperty, circle).value;
    IdsMeaning(src, q, uid);
    hide Ids, LeadsNear, SomeCondition, Produces;
    if Selected(src, q, uid) {
      var root, b: Binding :|
        root in Rows(src.db, src.table) && Produces(src.db, q.joins, map[Root := Some(root)], b) &&
        Value(b, Column(Root, "uid")) == IntCell(uid) && SomeCondition(src, q, b);
      TwoChains(src, latProperty, lngProperty, circle, root, b);
    }
    if LeadsNear(src, latProperty, lngProperty, circle, row) {
      var b := BothReached(src, latProperty, lngProperty, circle, row);
      assert Value(b, Column(Root, "uid")) == IntCell(uid);
    }
  }

  // ---------------------------------------------------------------- coordinates of different records

  lemma {:induction false} ExplodeTwo(a: string, b: string)
    requires '.' !in a && '.' !in b
    ensures Explode('.', a + "." + b) == [a, b]
  {
    var s := a + "." + b;
    if a == "" {
      assert s[1..] == b;
      ImplodeExplode('.', b);
      assert Explode('.', b) == [b];
    } else {
      assert s[1..] == a[1..] + "." + b;
      ExplodeTwo(a[1..], b);
      assert [s[0]] + a[1..] == a;
    }
  }

  /** A place has two spots: one with the right latitude, the other with the right longitude. */
  const PLACE: Row := map["uid" := IntCell(1)]
  const SPOTS: seq<Row> := [map["place" := IntCell(1), "lat" := IntCell(1), "lng" := IntCell(0)],
                            map["place" := IntCell(1), "lat" := IntCell(0), "lng" := IntCell(1)]]
  const PLACE_SPOTS := Association(ColumnMap(HasMany, "spots", "spot", "place", "", "", map[]), "Spot")

  const PLACES := Source(
    map["place" := [PLACE], "spot" := SPOTS], map[("Place", "spots") := PLACE_SPOTS], "Place", "place",
    (name: string) => name, (text: string, column: string, row: Row, expansion: bool) => false,
    (circle: Circle, lat: Cell, lng: Cell) => lat == IntCell(1) && lng == IntCell(1))

  lemma {:induction false} SpotLeads(i: nat)
    requires i < 2
    ensures Leads(PLACES.db, [PLACE_SPOTS], PLACE, Is(SPOTS[i]))
  {
    assert SPOTS[i] in Rows(PLACES.db, "spot") && Related(PLACES.db, PLACE_SPOTS.columnMap, PLACE, SPOTS[i]);
    assert [PLACE_SPOTS][1..] == [];
    assert Leads(PLACES.db, [], SPOTS[i], Is(SPOTS[i]));
  }

  lemma {:induction false} SpotPath(property: string, name: string)
    requires property == "spots" + "." + name && '.' !in name
    ensures PathOf(PLACES, property) == (Some([PLACE_SPOTS]), name)
  {
    ExplodeTwo("spots", name);
    var parts := Explode('.', property);
    assert parts == ["spots", name] && parts[..1] == ["spots"] && ["spots"][1..] == [];
    var key := ("Place", "spots");
    assert key in PLACES.dataMap && PLACES.dataMap[key] == PLACE_SPOTS && PLACE_SPOTS.childClass == "Spot";
    assert Resolve(PLACES.dataMap, "Spot", parts[..1][1..]) == Some([]);
    assert [PLACE_SPOTS] + [] == [PLACE_SPOTS];
    assert Resolve(PLACES.dataMap, "Place", parts[..1]) == Some([PLACE_SPOTS]);
  }

  lemma {:induction false} SpotsApart(circle: Circle)
    ensures NearAt(PLACES, circle, CellAt(Some(SPOTS[0]), "lat"), CellAt(Some(SPOTS[1]), "lng"))
    ensures forall spot :: spot in SPOTS ==>
      !NearAt(PLACES, circle, CellAt(Some(spot), "lat"), CellAt(Some(spot), "lng"))
  {
  }

  /** The place is found although neither of its spots is in the circle. */
  lemma {:induction false} CoordinatesMixed(latProperty: string, lngProperty: string, circle: Circle)
    requires latProperty == "spots" + "." + "lat" && lngProperty == "spots" + "." + "lng"
    ensures PathOf(PLACES, latProperty).0.Some? && PathOf(PLACES, lngProperty).0.Some?
    ensures LeadsNear(PLACES, latProperty, lngProperty, circle, PLACE)
    ensures forall spot :: spot in SPOTS ==>
      !NearAt(PLACES, circle, CellAt(Some(spot), "lat"), CellAt(Some(spot), "lng"))
  {
    SpotPath(latProperty, "lat");
    SpotPath(lngProperty, "lng");
    SpotLeads(0);
    SpotLeads(1);
    SpotsApart(circle);
    hide Leads, PathOf, NearAt, Is, CellAt;
  }
}
