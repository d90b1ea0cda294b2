/** The join chain of an association path selects exactly the roots with a matching chain of records. */
module JoinChain {
  import opened Wrappers
  import opened Php
  import opened JoinModel

  datatype Chain = Chain(joins: seq<Join>, alias: Alias, nextId: nat)

  /** The joins of one association: the child gets the fresh id, a relation table the one after it. */
  function JoinsFor(parent: Alias, cm: ColumnMap, id: nat): (r: Result<Chain>)
    ensures r.Success? <==> cm.relation != BelongsToMany
  {
    var alias := Unique(id, "");
    var byParentKey := Equal(Column(parent, "uid"), Column(alias, cm.parentKey));
    match cm.relation
    case HasOne =>
      var on := if cm.parentKey != "" then byParentKey else Equal(Column(parent, cm.column), Column(alias, "uid"));
      Success(Chain([Join(parent, cm.childTable, alias, on)], alias, id + 1))
    case HasMany =>
      var on := if cm.parentKey != "" then byParentKey else InSet(Column(parent, cm.column), Column(alias, "uid"));
      Success(Chain([Join(parent, cm.childTable, alias, on)], alias, id + 1))
    case HasAndBelongsToMany =>
      var mm := Unique(id + 1, "_mm");
      Success(Chain(
        [Join(parent, cm.relationTable, mm, Equal(Column(parent, "uid"), Column(mm, cm.parentKey))),
         Join(parent, cm.childTable, alias, Equal(Column(mm, cm.childKey), Column(alias, "uid")))],
        alias, id + 2))
    case BelongsToMany => Failure("Could not determine relation")
  }

  function ChainFor(path: seq<Association>, parent: Alias, id: nat): (r: Result<Chain>)
    ensures r.Success? <==> Joinable(path)
    decreases |path|
  {
    if path == [] then Success(Chain([], parent, id))
    else
      var first :- JoinsFor(parent, path[0].columnMap, id);
      var rest :- ChainFor(path[1..], first.alias, first.nextId);
      Success(Chain(first.joins + rest.joins, rest.alias, rest.nextId))
  }

  // ---------------------------------------------------------------- aliases

  predicate Older(a: Alias, id: nat) {
    a == Root || a.id < id
  }

  function ColumnsOf(on: On): seq<Column> {
    match on
    case Equal(l, r) => [l, r]
    case InSet(l, n) => [l, n]
  }

  /** Each join starts from a known alias, compares known aliases with its own, and introduces a new one. */
  ghost predicate WellScoped(joins: seq<Join>, known: set<Alias>) {
    joins == [] ||
    (&& joins[0].from in known
     && joins[0].alias !in known
     && (forall c :: c in ColumnsOf(joins[0].on) ==> c.alias in known + {joins[0].alias})
     && WellScoped(joins[1..], known + {joins[0].alias}))
  }

  lemma {:induction false} WellScopedOne(j: Join, rest: seq<Join>, known: set<Alias>)
    requires j.from in known && j.alias !in known
    requires forall c :: c in ColumnsOf(j.on) ==> c.alias in known + {j.alias}
    requires WellScoped(rest, known + {j.alias})
    ensures WellScoped([j] + rest, known)
  {
  }

  /** The aliases known after the joins of one association. */
  function KnownAfter(joins: seq<Join>, known: set<Alias>): set<Alias> {
    if joins == [] then known else KnownAfter(joins[1..], known + {joins[0].alias})
  }

  lemma {:induction false} KnownAfterTwo(joins: seq<Join>, known: set<Alias>)
    requires |joins| == 2
    ensures KnownAfter(joins, known) == known + {joins[0].alias} + {joins[1].alias}
  {
    assert KnownAfter(joins[1..], known + {joins[0].alias}) == known + {joins[0].alias} + {joins[1].alias};
  }

  lemma {:induction false} StepIsWellScoped(parent: Alias, cm: ColumnMap, id: nat, known: set<Alias>, rest: seq<Join>)
    requires JoinsFor(parent, cm, id).Success?
    requires parent in known && forall a :: a in known ==> Older(a, id)
    requires WellScoped(rest, KnownAfter(JoinsFor(parent, cm, id).value.joins, known))
    ensures WellScoped(JoinsFor(parent, cm, id).value.joins + rest, known)
  {
    var joins := JoinsFor(parent, cm, id).value.joins;
    assert !Older(Unique(id, ""), id) && !Older(Unique(id + 1, "_mm"), id);
    hide Older, WellScoped;
    if |joins| == 1 {
      WellScopedOne(joins[0], rest, known);
      assert joins == [joins[0]];
    } else {
      KnownAfterTwo(joins, known);
      WellScopedOne(joins[1], rest, known + {joins[0].alias});
      WellScopedOne(joins[0], [joins[1]] + rest, known);
      assert joins + rest == [joins[0]] + ([joins[1]] + rest);
    }
  }

  lemma {:induction false} StepKnows(parent: Alias, cm: ColumnMap, id: nat, known: set<Alias>)
    requires JoinsFor(parent, cm, id).Success? && forall a :: a in known ==> Older(a, id)
    ensures var c := JoinsFor(parent, cm, id).value;
            var after := KnownAfter(c.joins, known);
            c.nextId > id && c.alias in after && forall a :: a in after ==> Older(a, c.nextId)
  {
    var joins := JoinsFor(parent, cm, id).value.joins;
    if |joins| == 1 {
      assert KnownAfter(joins[1..], known + {joins[0].alias}) == known + {joins[0].alias};
    } else {
      KnownAfterTwo(joins, known);
    }
  }

  /** A chain uses only fresh aliases, each once, and joins only from aliases introduced before. */
  lemma {:induction false} ChainIsWellScoped(path: seq<Association>, parent: Alias, id: nat, known: set<Alias>)
    requires ChainFor(path, parent, id).Success?
    requires parent in known && forall a :: a in known ==> Older(a, id)
    ensures var c := ChainFor(path, parent, id).value;
            c.nextId >= id && Older(c.alias, c.nextId) && WellScoped(c.joins, known)
    decreases |path|
  {
    if path == [] {
      assert Older(parent, id);
    } else {
      hide JoinsFor, KnownAfter, Older;
      var first := JoinsFor(parent, path[0].columnMap, id).value;
      StepKnows(parent, path[0].columnMap, id, known);
      ChainIsWellScoped(path[1..], first.alias, first.nextId, KnownAfter(first.joins, known));
      StepIsWellScoped(parent, path[0].columnMap, id, known,
                       ChainFor(path[1..], first.alias, first.nextId).value.joins);
    }
  }

  // ---------------------------------------------------------------- meaning

  ghost predicate AllOlder(b: Binding, id: nat) {
    forall a :: a in b ==> Older(a, id)
  }

  lemma {:induction false} ProducesConcat(db: Database, js: seq<Join>, ks: seq<Join>, b: Binding, mid: Binding,
                                          b': Binding)
    requires Produces(db, js, b, mid) && Produces(db, ks, mid, b')
    ensures Produces(db, js + ks, b, b')
  {
    if js == [] {
      assert js + ks == ks;
    } else {
      var m: Binding :| Extends(db, js[0], b, m) && Produces(db, js[1..], m, mid);
      ProducesConcat(db, js[1..], ks, m, mid, b');
      assert (js + ks)[1..] == js[1..] + ks;
    }
  }

  lemma {:induction false} ProducesSplit(db: Database, js: seq<Join>, ks: seq<Join>, b: Binding, b': Binding)
      returns (mid: Binding)
    requires Produces(db, js + ks, b, b')
    ensures Produces(db, js, b, mid) && Produces(db, ks, mid, b')
  {
    if js == [] {
      assert js + ks == ks;
      mid := b;
    } else {
      assert (js + ks)[1..] == js[1..] + ks;
      var m: Binding :| Extends(db, js[0], b, m) && Produces(db, js[1..] + ks, m, b');
      mid := ProducesSplit(db, js[1..], ks, m, b');
    }
  }

  /** A step keeps what was bound before. */
  ghost predicate Keeps(b: Binding, b': Binding) {
    forall a :: a in b ==> a in b' && b'[a] == b[a]
  }

  lemma {:induction false} ProducesOne(db: Database, j: Join, b: Binding, b': Binding)
    ensures Produces(db, [j], b, b') <==> Extends(db, j, b, b')
  {
  }

  lemma {:induction false} ProducesTwo(db: Database, j: Join, k: Join, b: Binding, mid: Binding, b': Binding)
    requires Extends(db, j, b, mid) && Extends(db, k, mid, b')
    ensures Produces(db, [j, k], b, b')
  {
    ProducesOne(db, k, mid, b');
    assert [j, k][1..] == [k];
  }

  lemma {:induction false} TwoProduced(db: Database, j: Join, k: Join, b: Binding, b': Binding) returns (mid: Binding)
    requires Produces(db, [j, k], b, b')
    ensures Extends(db, j, b, mid) && Extends(db, k, mid, b')
  {
    assert [j, k][1..] == [k];
    mid :| Extends(db, j, b, mid) && Produces(db, [k], mid, b');
    ProducesOne(db, k, mid, b');
  }

  /** The joins of one association reach every related child. */
  lemma {:induction false} StepReaches(db: Database, cm: ColumnMap, parent: Alias, id: nat, b: Binding, row: Row,
                                       child: Row) returns (b': Binding)
    requires JoinsFor(parent, cm, id).Success?
    requires parent in b && b[parent] == Some(row) && AllOlder(b, id)
    requires child in Rows(db, cm.childTable) && Related(db, cm, row, child)
    ensures var c := JoinsFor(parent, cm, id).value;
            Produces(db, c.joins, b, b') && Keeps(b, b') && c.alias in b' && b'[c.alias] == Some(child) &&
              AllOlder(b', c.nextId)
  {
    var c := JoinsFor(parent, cm, id).value;
    assert Unique(id, "") !in b && Unique(id + 1, "_mm") !in b;
    if cm.relation.HasAndBelongsToMany? {
      var mm :| mm in Rows(db, cm.relationTable) &&
                SqlEq(CellAt(Some(row), "uid"), CellAt(Some(mm), cm.parentKey)) &&
                SqlEq(CellAt(Some(mm), cm.childKey), CellAt(Some(child), "uid"));
      var mid: Binding := b[c.joins[0].alias := Some(mm)];
      b' := mid[c.alias := Some(child)];
      assert Matches(db, c.joins[0], b, mm) && Matches(db, c.joins[1], mid, child);
      ProducesTwo(db, c.joins[0], c.joins[1], b, mid, b');
    } else {
      b' := b[c.alias := Some(child)];
      assert Matches(db, c.joins[0], b, child);
      ProducesOne(db, c.joins[0], b, b');
    }
  }

  lemma {:induction false} ExtendsOnly(db: Database, j: Join, b: Binding, b': Binding)
    requires Extends(db, j, b, b') && j.alias !in b
    ensures Keeps(b, b') && j.alias in b' && b'.Keys == b.Keys + {j.alias}
    ensures b'[j.alias].Some? ==> Matches(db, j, b, b'[j.alias].value)
  {
  }

  /** A join never matches on NULL: the record it compares with is there. */
  lemma {:induction false} MatchedOn(db: Database, j: Join, b: Binding, row: Row, from: Alias, column: string,
                                     own: string)
    requires Matches(db, j, b, row) && from in b && from != j.alias
    requires j.on == Equal(Column(from, column), Column(j.alias, own)) ||
      j.on == InSet(Column(from, column), Column(j.alias, own))
    ensures row in Rows(db, j.table) && b[from].Some?
    ensures j.on.Equal? ==> SqlEq(CellAt(b[from], column), CellAt(Some(row), own))
    ensures j.on.InSet? ==> CellInSet(CellAt(Some(row), own), CellAt(b[from], column))
  {
  }

  lemma {:induction false} TwoExtends(db: Database, j: Join, k: Join, b: Binding, mid: Binding, b': Binding)
    requires Extends(db, j, b, mid) && Extends(db, k, mid, b') && j.alias !in b && k.alias !in b && j.alias != k.alias
    ensures Keeps(b, b') && k.alias in b' && b'.Keys == b.Keys + {j.alias, k.alias}
    ensures b'[k.alias].Some? ==> Matches(db, k, mid, b'[k.alias].value)
    ensures j.alias in mid && (mid[j.alias].Some? ==> Matches(db, j, b, mid[j.alias].value))
  {
    hide Extends, Matches;
    ExtendsOnly(db, j, b, mid);
    ExtendsOnly(db, k, mid, b');
  }

  lemma {:induction false} ThroughRelationTable(db: Database, cm: ColumnMap, parent: Alias, id: nat, b: Binding,
                                                b': Binding)
    requires cm.relation.HasAndBelongsToMany?
    requires parent in b && AllOlder(b, id)
    requires Produces(db, JoinsFor(parent, cm, id).value.joins, b, b')
    ensures var c := JoinsFor(parent, cm, id).value;
            && Keeps(b, b') && c.alias in b' && AllOlder(b', c.nextId)
            && (b'[c.alias].Some? ==>
                  b[parent].Some? && b'[c.alias].value in Rows(db, cm.childTable) &&
                  Related(db, cm, b[parent].value, b'[c.alias].value))
  {
    var c := JoinsFor(parent, cm, id).value;
    var j, k := c.joins[0], c.joins[1];
    hide Extends, Produces, Matches, SqlEq, Rows, CellAt, Keeps;
    var mid := TwoProduced(db, j, k, b, b');
    TwoExtends(db, j, k, b, mid, b');
    if b'[k.alias].Some? {
      MatchedOn(db, k, mid, b'[k.alias].value, j.alias, cm.childKey, "uid");
      MatchedOn(db, j, b, mid[j.alias].value, parent, "uid", cm.parentKey);
    }
  }

  /** The joins of one association bind the child alias to a related child of the parent, or to NULLs. */
  lemma {:induction false} StepOnlyRelated(db: Database, cm: ColumnMap, parent: Alias, id: nat, b: Binding, b': Binding)
    requires JoinsFor(parent, cm, id).Success?
    requires parent in b && AllOlder(b, id)
    requires Produces(db, JoinsFor(parent, cm, id).value.joins, b, b')
    ensures var c := JoinsFor(parent, cm, id).value;
            && Keeps(b, b') && c.alias in b' && AllOlder(b', c.nextId)
            && (b'[c.alias].Some? ==>
                  b[parent].Some? && b'[c.alias].value in Rows(db, cm.childTable) &&
                  Related(db, cm, b[parent].value, b'[c.alias].value))
  {
    if cm.relation.HasAndBelongsToMany? {
      ThroughRelationTable(db, cm, parent, id, b, b');
    } else {
      hide Extends, Produces, Matches, SqlEq, CellInSet, Rows, CellAt;
      var c := JoinsFor(parent, cm, id).value;
      var j := c.joins[0];
      assert j.alias == Unique(id, "") && j.alias !in b;
      ProducesOne(db, j, b, b');
      ExtendsOnly(db, j, b, b');
      if b'[j.alias].Some? {
        var from, own := if j.on.Equal? then j.on.left else j.on.list, if j.on.Equal? then j.on.right else j.on.needle;
        MatchedOn(db, j, b, b'[j.alias].value, parent, from.name, own.name);
      }
    }
  }

  /** Whatever the chain binds, it keeps what was bound before and binds its own aliases below the next id. */
  lemma {:induction false} ChainKeeps(db: Database, path: seq<Association>, parent: Alias, id: nat, b: Binding,
                                      b': Binding)
    requires ChainFor(path, parent, id).Success? && parent in b && AllOlder(b, id)
    requires Produces(db, ChainFor(path, parent, id).value.joins, b, b')
    ensures var c := ChainFor(path, parent, id).value;
            Keeps(b, b') && c.alias in b' && AllOlder(b', c.nextId)
    decreases |path|
  {
    if path != [] {
      hide Related, Rows;
      var first := JoinsFor(parent, path[0].columnMap, id).value;
      var rest := ChainFor(path[1..], first.alias, first.nextId).value;
      var mid := ProducesSplit(db, first.joins, rest.joins, b, b');
      StepOnlyRelated(db, path[0].columnMap, parent, id, b, mid);
      ChainKeeps(db, path[1..], first.alias, first.nextId, mid, b');
    }
  }

  lemma {:induction false} ChainReaches(db: Database, path: seq<Association>, parent: Alias, id: nat, b: Binding,
                                        row: Row, goal: Option<Row> -> bool) returns (b': Binding)
    requires ChainFor(path, parent, id).Success?
    requires parent in b && b[parent] == Some(row) && AllOlder(b, id)
    requires Leads(db, path, row, goal)
    ensures var c := ChainFor(path, parent, id).value;
            Produces(db, c.joins, b, b') && Keeps(b, b') && c.alias in b' && goal(b'[c.alias]) && AllOlder(b', c.nextId)
    decreases |path|
  {
    if path == [] {
      b' := b;
    } else {
      var first := JoinsFor(parent, path[0].columnMap, id).value;
      var rest := ChainFor(path[1..], first.alias, first.nextId).value;
      var child :| child in Rows(db, path[0].columnMap.childTable) && Related(db, path[0].columnMap, row, child) &&
                   Leads(db, path[1..], child, goal);
      var mid := StepReaches(db, path[0].columnMap, parent, id, b, row, child);
      b' := ChainReaches(db, path[1..], first.alias, first.nextId, mid, child, goal);
      ProducesConcat(db, first.joins, rest.joins, b, mid, b');
    }
  }

  lemma {:induction false} ChainOnlyRelated(db: Database, path: seq<Association>, parent: Alias, id: nat, b: Binding,
                                            b': Binding, goal: Option<Row> -> bool)
    requires ChainFor(path, parent, id).Success?
    requires parent in b && AllOlder(b, id) && !goal(None)
    requires var c := ChainFor(path, parent, id).value;
             Produces(db, c.joins, b, b') && c.alias in b' && goal(b'[c.alias])
    ensures Keeps(b, b') && b[parent].Some? && Leads(db, path, b[parent].value, goal)
    decreases |path|
  {
    if path != [] {
      var first := JoinsFor(parent, path[0].columnMap, id).value;
      var rest := ChainFor(path[1..], first.alias, first.nextId).value;
      var mid := ProducesSplit(db, first.joins, rest.joins, b, b');
      StepOnlyRelated(db, path[0].columnMap, parent, id, b, mid);
      ChainOnlyRelated(db, path[1..], first.alias, first.nextId, mid, b', goal);
    }
  }

  /**
   For a condition that is false on NULL, the left-join chain of an association path selects the
   uid of exactly those roots from which some chain of related records reaches a record that
   satisfies the condition.
   */
  lemma {:induction false} ChainSelects(db: Database, table: string, path: seq<Association>, id: nat,
                                        goal: Option<Row> -> bool, uid: Cell)
    requires ChainFor(path, Root, id).Success? && !goal(None)
    ensures var c := ChainFor(path, Root, id).value;
            Selects(db, table, c.joins, c.alias, goal, uid) <==>
            exists root :: root in Rows(db, table) && CellAt(Some(root), "uid") == uid && Leads(db, path, root, goal)
  {
    var c := ChainFor(path, Root, id).value;
    if exists root :: root in Rows(db, table) && CellAt(Some(root), "uid") == uid && Leads(db, path, root, goal) {
      var root :| root in Rows(db, table) && CellAt(Some(root), "uid") == uid && Leads(db, path, root, goal);
      var start: Binding := map[Root := Some(root)];
      var b := ChainReaches(db, path, Root, id, start, root, goal);
      assert b[Root] == Some(root);
    }
    if Selects(db, table, c.joins, c.alias, goal, uid) {
      var root, b: Binding :| root in Rows(db, table) && Produces(db, c.joins, map[Root := Some(root)], b) &&
        Value(b, Column(Root, "uid")) == uid && c.alias in b && goal(b[c.alias]);
      var start: Binding := map[Root := Some(root)];
      ChainOnlyRelated(db, path, Root, id, start, b, goal);
      assert Root in start && b[Root] == Some(root);
    }
  }

  // ---------------------------------------------------------------- the query builder

  class QueryBuilder {
    var joins: seq<Join>
    /** The next number of the alias source; `uniqid` never repeats one. */
    var nextId: nat

    constructor ()
      ensures joins == [] && nextId == 0
    {
      joins := [];
      nextId := 0;
    }

    method GetUniqueAlias(suffix: string) returns (alias: Alias)
      modifies `nextId
      ensures alias == Unique(old(nextId), suffix) && nextId == old(nextId) + 1
    {
      alias := Unique(nextId, suffix);
      nextId := nextId + 1;
    }

    method LeftJoin(from: Alias, table: string, alias: Alias, on: On)
      modifies `joins
      ensures joins == old(joins) + [Join(from, table, alias, on)]
    {
      joins := joins + [Join(from, table, alias, on)];
    }

    method AddJoin(parentAlias: Alias, cm: ColumnMap) returns (r: Result<Alias>)
      modifies this
      ensures r.Success? <==> cm.relation != BelongsToMany
      ensures r.Success? ==>
        var c := JoinsFor(parentAlias, cm, old(nextId)).value;
        joins == old(joins) + c.joins && r.value == c.alias && nextId == c.nextId
    {
      var alias := GetUniqueAlias("");
      var on;
      match cm.relation {
        case HasOne =>
          if cm.parentKey != "" {
            on := Equal(Column(parentAlias, "uid"), Column(alias, cm.parentKey));
          } else {
            on := Equal(Column(parentAlias, cm.column), Column(alias, "uid"));
          }
        case HasMany =>
          if cm.parentKey != "" {
            on := Equal(Column(parentAlias, "uid"), Column(alias, cm.parentKey));
          } else {
            on := InSet(Column(parentAlias, cm.column), Column(alias, "uid"));
          }
        case HasAndBelongsToMany =>
          var relationalAlias := GetUniqueAlias("_mm");
          LeftJoin(parentAlias, cm.relationTable, relationalAlias,
                   Equal(Column(parentAlias, "uid"), Column(relationalAlias, cm.parentKey)));
          on := Equal(Column(relationalAlias, cm.childKey), Column(alias, "uid"));
        case BelongsToMany =>
          return Failure("Could not determine relation");
      }
      LeftJoin(parentAlias, cm.childTable, alias, on);
      r := Success(alias);
    }

    /** The alias and the field at the end of a nested property; its chain follows the joins already there. */
    method AddJoinsForNestedProperty(dm: DataMap, class_: string, property: string) returns (r: Result<(Alias, string)>)
      modifies this
      ensures
        var parts := Explode('.', property);
        var path := Resolve(dm, class_, parts[..|parts| - 1]);
        && (r.Success? <==> '.' in property && path.Some? && Joinable(path.value))
        && (r.Success? ==>
              var c := ChainFor(path.value, Root, old(nextId)).value;
              joins == old(joins) + c.joins && nextId == c.nextId && r.value == (c.alias, parts[|parts| - 1]))
    {
      ghost var before, start := joins, nextId;
      var parts := Explode('.', property);
      ImplodeExplode('.', property);
      var associations, field := parts[..|parts| - 1], parts[|parts| - 1];
      var parentClass, parentAlias := class_, Root;
      var i := 0;
      StartsResumed(dm, class_, associations, before, start);
      hide Resumes;
      while i < |associations|
        invariant 0 <= i <= |associations|
        invariant Resumes(dm, class_, associations, before, start, parentClass, i, joins, parentAlias, nextId)
      {
        ResumeStep(dm, class_, associations, before, start, parentClass, i, joins, parentAlias, nextId);
        if (parentClass, associations[i]) !in dm {
          return Failure("No column map");
        }
        var a := dm[(parentClass, associations[i])];
        var alias :- AddJoin(parentAlias, a.columnMap);
        parentClass := a.childClass;
        parentAlias := alias;
        i := i + 1;
      }
      ResumeEnd(dm, class_, associations, before, start, parentClass, joins, parentAlias, nextId);
      if |associations| == 0 {
        return Failure("property is not nested");
      }
      r := Success((parentAlias, field));
    }
  }

  /** What is left to do from the i-th association completes what has been done to the whole chain. */
  ghost predicate Resumes(dm: DataMap, class_: string, associations: seq<string>, before: seq<Join>, start: nat,
                          parentClass: string, i: nat, joins: seq<Join>, parentAlias: Alias, id: nat)
    requires i <= |associations|
  {
    var whole, rest := Resolve(dm, class_, associations), Resolve(dm, parentClass, associations[i..]);
    && (whole.Some? <==> rest.Some?)
    && (whole.Some? ==>
          var c, d := ChainFor(whole.value, Root, start), ChainFor(rest.value, parentAlias, id);
          && (c.Success? <==> d.Success?)
          && (c.Success? ==>
                && before + c.value.joins == joins + d.value.joins
                && c.value.alias == d.value.alias && c.value.nextId == d.value.nextId))
  }

  lemma {:induction false} StartsResumed(dm: DataMap, class_: string, associations: seq<string>, before: seq<Join>,
                                         start: nat)
    ensures Resumes(dm, class_, associations, before, start, class_, 0, before, Root, start)
  {
  }

  /** One association: it fails as the whole path does, or its joins bring the chain one step further. */
  lemma {:induction false} ResumeStep(dm: DataMap, class_: string, associations: seq<string>, before: seq<Join>,
                                      start: nat, parentClass: string, i: nat, joins: seq<Join>, parentAlias: Alias,
                                      id: nat)
    requires i < |associations|
    requires Resumes(dm, class_, associations, before, start, parentClass, i, joins, parentAlias, id)
    ensures (parentClass, associations[i]) !in dm ==> Resolve(dm, class_, associations).None?
    ensures (parentClass, associations[i]) in dm ==>
      var a := dm[(parentClass, associations[i])];
      var first := JoinsFor(parentAlias, a.columnMap, id);
      && (first.Failure? ==>
            Resolve(dm, class_, associations).None? ||
              ChainFor(Resolve(dm, class_, associations).value, Root, start).Failure?)
      && (first.Success? ==>
            Resumes(dm, class_, associations, before, start, a.childClass, i + 1,
                    joins + first.value.joins, first.value.alias, first.value.nextId))
  {
    assert associations[i..][0] == associations[i] && associations[i..][1..] == associations[i + 1..];
    if (parentClass, associations[i]) in dm {
      var a := dm[(parentClass, associations[i])];
      var rest := Resolve(dm, a.childClass, associations[i + 1..]);
      if rest.Some? {
        var whole := Resolve(dm, parentClass, associations[i..]);
        assert whole.value[0] == a && whole.value[1..] == rest.value;
        hide Resolve, JoinsFor;
        ChainStep(whole.value, parentAlias, id, joins);
      }
    }
  }

  lemma {:induction false} ChainStep(path: seq<Association>, parent: Alias, id: nat, joins: seq<Join>)
    requires path != []
    ensures var first := JoinsFor(parent, path[0].columnMap, id);
      && (first.Failure? ==> ChainFor(path, parent, id).Failure?)
      && (first.Success? ==>
            var rest := ChainFor(path[1..], first.value.alias, first.value.nextId);
            && (ChainFor(path, parent, id).Success? <==> rest.Success?)
            && (rest.Success? ==>
                  var c := ChainFor(path, parent, id).value;
                  && joins + c.joins == joins + first.value.joins + rest.value.joins
                  && c.alias == rest.value.alias && c.nextId == rest.value.nextId))
  {
  }

  lemma {:induction false} ResumeEnd(dm: DataMap, class_: string, associations: seq<string>, before: seq<Join>,
                                     start: nat, parentClass: string, joins: seq<Join>, parentAlias: Alias, id: nat)
    requires Resumes(dm, class_, associations, before, start, parentClass, |associations|, joins, parentAlias, id)
    ensures Resolve(dm, class_, associations).Some?
    ensures var c := ChainFor(Resolve(dm, class_, associations).value, Root, start);
            c.Success? && joins == before + c.value.joins && parentAlias == c.value.alias && id == c.value.nextId
  {
    assert associations[|associations|..] == [];
    assert joins + [] == joins;
  }
}
