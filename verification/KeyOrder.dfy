/** When the order of the keys of a full-text parameter decides which records match. */
module KeyOrder {
  import opened Wrappers
  import opened Php
  import opened OrderedMap
  import opened JoinModel
  import opened JoinChain
  import opened IdLookups
  import opened IdMeanings
  import opened TextKeys
  import Filters
  import FilteredQuery
  import Reordering
  import Repository

  // ---------------------------------------------------------------- a database of one record

  const RECORD: Row := map["uid" := IntCell(1)]

  const ITSELF := Association(ColumnMap(HasOne, "uid", "record", "", "", "", map[]), "Record")

  /** Every association leads from the record to itself. */
  function ItselfBy(names: seq<string>): DataMap {
    map name | name in names :: ("Record", name) := ITSELF
  }

  /** One record, to every column of which one text is relevant. */
  function OneRecord(names: seq<string>, text: string): Source {
    Source(map["record" := [RECORD]], ItselfBy(names), "Record", "record", (name: string) => name,
           (searched: string, column: string, row: Row, expansion: bool) => searched == text,
           (circle: Circle, lat: Cell, lng: Cell) => false)
  }

  function Loop(n: nat): seq<Association> {
    seq(n, i => ITSELF)
  }

  lemma {:induction false} LoopResolved(names: seq<string>, parts: seq<string>)
    requires forall part :: part in parts ==> part in names
    ensures Resolve(ItselfBy(names), "Record", parts) == Some(Loop(|parts|))
    decreases |parts|
  {
    if parts == [] {
    } else {
      assert parts[0] in parts;
      LoopResolved(names, parts[1..]);
      assert [ITSELF] + Loop(|parts| - 1) == Loop(|parts|);
    }
  }

  lemma {:induction false} LoopCompiles(n: nat, parent: Alias, id: nat)
    ensures ChainFor(Loop(n), parent, id).Success?
  {
    if n == 0 {
    } else {
      assert Loop(n)[1..] == Loop(n - 1);
      LoopCompiles(n - 1, Unique(id, ""), id + 1);
    }
  }

  lemma {:induction false} LoopLeads(n: nat, goal: Option<Row> -> bool)
    ensures Leads(map["record" := [RECORD]], Loop(n), RECORD, goal) <==> goal(Some(RECORD))
  {
    if n == 0 {
    } else {
      assert Loop(n)[1..] == Loop(n - 1) && Loop(n)[0] == ITSELF;
      LoopLeads(n - 1, goal);
      assert Rows(map["record" := [RECORD]], "record") == [RECORD];
      assert Related(map["record" := [RECORD]], ITSELF.columnMap, RECORD, RECORD);
    }
  }

  /** The record is found exactly when its text is among those searched. */
  lemma {:induction false} FoundIff(property: string, entries: seq<Entry>, text: string, expansion: bool)
    ensures var src := OneRecord(Explode('.', property), text);
            var q := TextQuery(src, property, entries, expansion);
            q.Success? && (1 in Ids(src, q.value) <==> text in Texts(entries))
  {
    var parts := Explode('.', property);
    var src := OneRecord(parts, text);
    LoopResolved(parts, parts[..|parts| - 1]);
    LoopCompiles(|parts| - 1, Root, 0);
    assert IsRecord(src, RECORD, 1);
    TextMeaning(src, property, entries, expansion, RECORD, 1);
    LoopLeads(|parts| - 1, RelevantToAny(src, ColumnName(src, property), Texts(entries), expansion));
  }

  // ---------------------------------------------------------------- the exact condition

  ghost predicate IsFullText(f: Filters.ApiFilter) {
    f.kind == Filters.SearchFilter && f.strategy == "matchAgainst"
  }

  /** Whatever the database, the filter does the same for every order of the keys. */
  ghost predicate OrderFree(f: Filters.ApiFilter, entries: seq<Entry>) {
    forall env, entries' :: Reordered(entries, entries') ==>
      Reordering.SameEffect(Filters.Apply(env, f, Filters.Assoc(entries)),
                            Filters.Apply(env, f, Filters.Assoc(entries')))
  }

  function FindsOnly(f: Filters.ApiFilter, text: string): Filters.Env {
    Filters.Env((s: string) => None, OneRecord(Explode('.', f.property), text))
  }

  const FOUND: Filters.Record := map["uid" := Filters.IntDatum(1)]

  lemma {:induction false} FullTextFinds(f: Filters.ApiFilter, entries: seq<Entry>, text: string)
    requires IsFullText(f)
    ensures var r := Filters.Apply(FindsOnly(f, text), f, Filters.Assoc(entries));
            r.Success? && r.value.Constrain? && (Filters.Holds(r.value.c, FOUND) <==> text in Texts(entries))
  {
    var src := OneRecord(Explode('.', f.property), text);
    var q := TextQuery(src, f.property, entries, f.arguments.expansion);
    FoundIff(f.property, entries, text, f.arguments.expansion);
    hide TextQuery, Ids, Texts;
    Filters.IntDataMember(PlusZero(Ids(src, q.value)), Filters.IntDatum(1));
  }

  lemma {:induction false} DifferentTexts(f: Filters.ApiFilter, entries: seq<Entry>, entries': seq<Entry>, text: string)
    requires IsFullText(f) && text in Texts(entries) && text !in Texts(entries')
    ensures !Reordering.SameEffect(Filters.Apply(FindsOnly(f, text), f, Filters.Assoc(entries)),
                                   Filters.Apply(FindsOnly(f, text), f, Filters.Assoc(entries')))
    ensures !Reordering.SameEffect(Filters.Apply(FindsOnly(f, text), f, Filters.Assoc(entries')),
                                   Filters.Apply(FindsOnly(f, text), f, Filters.Assoc(entries)))
  {
    FullTextFinds(f, entries, text);
    FullTextFinds(f, entries', text);
    hide Texts, FindsOnly, Filters.Apply, Filters.Holds;
  }

  /**
   A full-text filter finds the same records for every order of the keys of its parameter, on every
   database, exactly when each text is asked for under some integer cast that no other text has.
   */
  lemma {:induction false} KeyOrderIff(f: Filters.ApiFilter, entries: seq<Entry>)
    requires IsFullText(f)
    ensures OrderFree(f, entries) <==> AllUndisplaced(entries)
  {
    hide Filters.Apply, Texts, Reordering.SameEffect, AllUndisplaced, FindsOnly;
    SameTextsIff(entries);
    if SameTexts(entries) {
      forall env: Filters.Env, entries' | Reordered(entries, entries')
        ensures Reordering.SameEffect(Filters.Apply(env, f, Filters.Assoc(entries)),
                                      Filters.Apply(env, f, Filters.Assoc(entries')))
      {
        FullTextApplies(env, f, entries);
        FullTextApplies(env, f, entries');
        Reordering.SameText(env, f, Filters.Assoc(entries), Filters.Assoc(entries'));
      }
    } else {
      var entries' :| Reordered(entries, entries') && Texts(entries') != Texts(entries);
      if text :| text in Texts(entries) && text !in Texts(entries') {
        DifferentTexts(f, entries, entries', text);
      } else {
        var text :| text in Texts(entries') && text !in Texts(entries);
        DifferentTexts(f, entries', entries, text);
      }
    }
  }

  lemma {:induction false} FullTextApplies(env: Filters.Env, f: Filters.ApiFilter, entries: seq<Entry>)
    requires IsFullText(f)
    ensures Filters.Apply(env, f, Filters.Assoc(entries)) == Filters.TextEffect(env, f, Filters.Assoc(entries))
    ensures Filters.Entries(Filters.Assoc(entries)) == entries
  {
  }

  /** A query of one filter matches where the filter's constraint holds. */
  lemma {:induction false} OneFilter(env: Filters.Env, params: Filters.QueryParams, f: Filters.ApiFilter,
                                     c: Filters.Constraint, record: Filters.Record)
    requires Repository.IsRequested(params, f) && Repository.AllRequested(params, [f])
    requires Filters.Apply(env, f, Repository.ValueFor(params, f)) == Success(Filters.Constrain(c))
    ensures FilteredQuery.Effects(env, params, [f]).Success?
    ensures var effects := FilteredQuery.Effects(env, params, [f]).value;
            FilteredQuery.Matches(FilteredQuery.Conjunction(FilteredQuery.Groups([f], effects)), record) <==>
            Filters.Holds(c, record)
  {
    hide Filters.Apply, Filters.Holds, Repository.ValueFor;
    assert [f][..0] == [];
    assert FilteredQuery.Effects(env, params, [f]).Success?;
    hide FilteredQuery.Effects, FilteredQuery.Groups, FilteredQuery.Conjunction;
    FilteredQuery.CompiledMeaning(env, params, [f], record);
    assert FilteredQuery.Constrains(env, params, f, c);
    assert FilteredQuery.HasConstraint(env, params, [f], Filters.ParameterName(f));
  }

  // ---------------------------------------------------------------- an example

  const TITLE := Filters.ApiFilter(Filters.SearchFilter, "title", "matchAgainst", None,
                                   Filters.Arguments(false, "", "", false, None, false))

  const FOO_BAR: Filters.QueryParams := [("title", Filters.Assoc([("a", "foo"), ("b", "bar")]))]
  const BAR_FOO: Filters.QueryParams := [("title", Filters.Assoc([("b", "bar"), ("a", "foo")]))]

  lemma {:induction false} OneParameter(f: Filters.ApiFilter, name: string, v: Filters.ParamValue)
    requires Filters.ParameterName(f) == name
    ensures Repository.IsRequested([(name, v)], f) && Repository.AllRequested([(name, v)], [f])
    ensures Repository.ValueFor([(name, v)], f) == v
  {
    hide Filters.ParameterName;
    assert [(name, v)][0].0 == name;
    LookupAt([(name, v)], 0);
  }

  lemma {:induction false} TitleParameter()
    ensures Filters.ParameterName(TITLE) == "title"
  {
  }

  lemma {:induction false} TitleRequested()
    ensures Repository.AllRequested(FOO_BAR, [TITLE]) && Repository.AllRequested(BAR_FOO, [TITLE])
    ensures Repository.ValueFor(FOO_BAR, TITLE) == Filters.Assoc([("a", "foo"), ("b", "bar")])
    ensures Repository.ValueFor(BAR_FOO, TITLE) == Filters.Assoc([("b", "bar"), ("a", "foo")])
  {
    TitleParameter();
    OneParameter(TITLE, "title", FOO_BAR[0].1);
    OneParameter(TITLE, "title", BAR_FOO[0].1);
    assert FOO_BAR == [("title", FOO_BAR[0].1)] && BAR_FOO == [("title", BAR_FOO[0].1)];
    assert Repository.AllRequested(FOO_BAR, [TITLE]) && Repository.AllRequested(BAR_FOO, [TITLE]);
  }

  lemma {:induction false} SwappedKeys(a: Entry, b: Entry)
    requires a.0 != b.0
    ensures Reordering.SameValue(Filters.Assoc([a, b]), Filters.Assoc([b, a]))
  {
    assert multiset([a, b]) == multiset{a, b} == multiset([b, a]);
  }

  lemma {:induction false} OtherMatches(f: Filters.ApiFilter, params: Filters.QueryParams, params': Filters.QueryParams,
                                        text: string)
    requires IsFullText(f) && Repository.AllRequested(params, [f]) && Repository.AllRequested(params', [f])
    requires Repository.IsRequested(params, f) && Repository.IsRequested(params', f)
    requires var v, v' := Repository.ValueFor(params, f), Repository.ValueFor(params', f);
             v.Assoc? && v'.Assoc? && text !in Texts(v.entries) && text in Texts(v'.entries)
    ensures !Reordering.SameQuery(FindsOnly(f, text), params, [f], params', [f], FOUND)
  {
    hide Filters.Apply, Filters.Holds, FindsOnly, Texts, FilteredQuery.Matches, FilteredQuery.Effects,
      FilteredQuery.Groups, FilteredQuery.Conjunction, Repository.ValueFor;
    var env, v, v' := FindsOnly(f, text), Repository.ValueFor(params, f), Repository.ValueFor(params', f);
    FullTextFinds(f, v.entries, text);
    FullTextFinds(f, v'.entries, text);
    OneFilter(env, params, f, Filters.Apply(env, f, v).value.c, FOUND);
    OneFilter(env, params', f, Filters.Apply(env, f, v').value.c, FOUND);
  }

  /** `title[a]=foo&title[b]=bar` does not match a record to which foo is relevant; `title[b]=bar&title[a]=foo` does. */
  lemma {:induction false} KeyOrderDecides()
    ensures Repository.AllRequested(FOO_BAR, [TITLE]) && Repository.AllRequested(BAR_FOO, [TITLE])
    ensures Reordering.SameValue(Repository.ValueFor(FOO_BAR, TITLE), Repository.ValueFor(BAR_FOO, TITLE))
    ensures !Reordering.SameQuery(FindsOnly(TITLE, "foo"), FOO_BAR, [TITLE], BAR_FOO, [TITLE], FOUND)
  {
    TitleRequested();
    LaterDisplaces();
    SwappedKeys(("a", "foo"), ("b", "bar"));
    hide Texts, Reordering.SameQuery;
    assert "foo"[0] != "bar"[0];
    OtherMatches(TITLE, FOO_BAR, BAR_FOO, "foo");
    assert !Reordering.SameQuery(FindsOnly(TITLE, "foo"), FOO_BAR, [TITLE], BAR_FOO, [TITLE], FOUND);
    assert Reordering.SameValue(Repository.ValueFor(FOO_BAR, TITLE), Repository.ValueFor(BAR_FOO, TITLE));
  }
}
