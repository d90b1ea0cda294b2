/**
 Neither the order of the query parameters nor that of the registered filters decides which records a
 compiled query matches; nor does that of the keys inside a parameter, as long as a full-text filter
 searches for the same texts.
 */
module Reordering {
  import opened Wrappers
  import opened Php
  import opened OrderedMap
  import opened IdLookups
  import opened IdMeanings
  import opened Filters
  import opened Repository
  import opened FilteredQuery
  import JoinModel
  import TextKeys

  // ---------------------------------------------------------------- one filter

  /** The same value, or the same array with its keys in another order. */
  ghost predicate SameValue(v: ParamValue, v': ParamValue) {
    v == v' ||
    (v.Assoc? && v'.Assoc? && Distinct(v.entries) && Distinct(v'.entries) &&
      multiset(v.entries) == multiset(v'.entries))
  }

  /** A full-text filter searches for the same texts. */
  ghost predicate SearchesAlike(f: ApiFilter, v: ParamValue, v': ParamValue) {
    f.kind == SearchFilter && f.strategy == "matchAgainst" ==> Texts(Entries(v)) == Texts(Entries(v'))
  }

  ghost predicate SameConstraint(c: Constraint, c': Constraint) {
    forall record :: Holds(c, record) <==> Holds(c', record)
  }

  ghost predicate SameEffect(r: Result<Effect>, r': Result<Effect>) {
    match (r, r')
    case (Failure(_), Failure(_)) => true
    case (Success(Constrain(c)), Success(Constrain(c'))) => SameConstraint(c, c')
    case (Success(e), Success(e')) => e == e'
    case _ => false
  }

  lemma {:induction false} SameEntries(entries: seq<(string, string)>, entries': seq<(string, string)>,
                                       e: (string, string))
    requires multiset(entries) == multiset(entries')
    ensures e in entries <==> e in entries'
  {
    assert e in entries <==> e in multiset(entries);
    assert e in entries' <==> e in multiset(entries');
  }

  lemma {:induction false} ValueIn(entries: seq<(string, string)>, x: string)
    ensures x in Values(Assoc(entries)) <==> exists e :: e in entries && e.1 == x
  {
    if e :| e in entries && e.1 == x {
      var i :| 0 <= i < |entries| && entries[i] == e;
      assert Values(Assoc(entries))[i] == x;
    }
  }

  lemma {:induction false} SameValues(v: ParamValue, v': ParamValue, x: string)
    requires SameValue(v, v')
    ensures x in Values(v) <==> x in Values(v')
  {
    if v != v' {
      ValueIn(v.entries, x);
      ValueIn(v'.entries, x);
      forall e
        ensures e in v.entries <==> e in v'.entries
      {
        SameEntries(v.entries, v'.entries, e);
      }
    }
  }

  lemma {:induction false} RangeSucceeds(env: Env, f: ApiFilter, entries: seq<(string, string)>)
    ensures RangeConstraints(env, f, entries).Success? <==>
            forall e :: e in entries ==> RangeConstraint(env, f, e.0, e.1).Success?
  {
    if entries != [] {
      var init, last := entries[..|entries| - 1], entries[|entries| - 1];
      RangeSucceeds(env, f, init);
      assert entries == init + [last];
    }
  }

  ghost predicate RangeAsked(env: Env, f: ApiFilter, entries: seq<(string, string)>, n: int) {
    exists e :: e in entries && RangeAsks(env, f, e.0, e.1, n)
  }

  lemma {:induction false} RangeMeaning(env: Env, f: ApiFilter, entries: seq<(string, string)>, record: Record)
    requires f.kind == RangeFilter && entries != [] && Apply(env, f, Assoc(entries)).Success?
    ensures Apply(env, f, Assoc(entries)).value.Constrain?
    ensures Holds(Apply(env, f, Assoc(entries)).value.c, record) <==>
            Get(record, f.property).IntDatum? && RangeAsked(env, f, entries, Get(record, f.property).i)
  {
    RangeIsDisjunction(env, f, entries, record);
    hide Apply, Holds, RangeAsks;
    if Get(record, f.property).IntDatum? {
      var n := Get(record, f.property).i;
      if e :| e in entries && RangeAsks(env, f, e.0, e.1, n) {
        var i :| 0 <= i < |entries| && entries[i] == e;
        assert RangeAsks(env, f, entries[i].0, entries[i].1, n);
      }
    }
  }

  lemma {:induction false} RangeApplies(env: Env, f: ApiFilter, entries: seq<(string, string)>)
    requires f.kind == RangeFilter
    ensures Apply(env, f, Assoc(entries)).Success? <==> RangeConstraints(env, f, entries).Success?
    ensures entries == [] ==> Apply(env, f, Assoc(entries)) == Success(Nothing)
  {
  }

  lemma {:induction false} SameRange(env: Env, f: ApiFilter, es: seq<(string, string)>, es': seq<(string, string)>)
    requires f.kind == RangeFilter && multiset(es) == multiset(es')
    ensures SameEffect(Apply(env, f, Assoc(es)), Apply(env, f, Assoc(es')))
  {
    hide Apply, Holds, RangeConstraint, RangeAsks, RangeConstraints;
    forall e
      ensures e in es <==> e in es'
    {
      SameEntries(es, es', e);
    }
    RangeSucceeds(env, f, es);
    RangeSucceeds(env, f, es');
    RangeApplies(env, f, es);
    RangeApplies(env, f, es');
    assert |es| == |multiset(es)| == |es'|;
    if es != [] && Apply(env, f, Assoc(es)).Success? {
      forall record
        ensures Apply(env, f, Assoc(es)).value.Constrain? && Apply(env, f, Assoc(es')).value.Constrain?
        ensures Holds(Apply(env, f, Assoc(es)).value.c, record) <==> Holds(Apply(env, f, Assoc(es')).value.c, record)
      {
        RangeMeaning(env, f, es, record);
        RangeMeaning(env, f, es', record);
      }
      var record: Record := map[];
      RangeMeaning(env, f, es, record);
      RangeMeaning(env, f, es', record);
    }
  }

  lemma {:induction false} SameIn(property: string, values: seq<Datum>, values': seq<Datum>)
    requires forall datum :: datum in values <==> datum in values'
    ensures SameConstraint(In(property, values), In(property, values'))
  {
  }

  lemma {:induction false} LikesMeaning(property: string, values: seq<string>, record: Record)
    ensures Holds(LogicalOr(Likes(property, values)), record) <==>
            exists x :: x in values && Holds(Like(property, "%" + x + "%"), record)
  {
    if x :| x in values && Holds(Like(property, "%" + x + "%"), record) {
      var i :| 0 <= i < |values| && values[i] == x;
      assert Holds(Likes(property, values)[i], record);
    }
  }

  lemma {:induction false} SameLikes(property: string, values: seq<string>, values': seq<string>)
    requires forall x :: x in values <==> x in values'
    ensures SameConstraint(LogicalOr(Likes(property, values)), LogicalOr(Likes(property, values')))
  {
    forall record
      ensures Holds(LogicalOr(Likes(property, values)), record) <==> Holds(LogicalOr(Likes(property, values')), record)
    {
      LikesMeaning(property, values, record);
      LikesMeaning(property, values', record);
    }
  }

  lemma {:induction false} NotEmpty(ids: seq<int>, ids': seq<int>)
    requires forall id :: id in ids ==> id in ids'
    ensures ids != [] ==> ids' != []
  {
    if ids != [] {
      var id := ids[0];
      assert id in ids;
    }
  }

  lemma {:induction false} SameIdData(ids: seq<int>, ids': seq<int>)
    requires forall id :: id in ids <==> id in ids'
    ensures SameConstraint(In("uid", IntData(PlusZero(ids))), In("uid", IntData(PlusZero(ids'))))
  {
    NotEmpty(ids, ids');
    NotEmpty(ids', ids);
    forall datum
      ensures datum in IntData(PlusZero(ids)) <==> datum in IntData(PlusZero(ids'))
    {
      IntDataMember(PlusZero(ids), datum);
      IntDataMember(PlusZero(ids'), datum);
    }
    SameIn("uid", IntData(PlusZero(ids)), IntData(PlusZero(ids')));
  }

  /** Two queries whose conditions hold of the same rows select the same ids. */
  lemma {:induction false} SameIds(src: Source, q: IdQuery, q': IdQuery, target: Target,
                                   goal: Option<JoinModel.Row> -> bool, goal': Option<JoinModel.Row> -> bool)
    requires Asks(src, q, target, goal) && Asks(src, q', target, goal')
    requires forall row :: goal(row) <==> goal'(row)
    ensures forall id :: id in Ids(src, q) <==> id in Ids(src, q')
  {
    hide SomeCondition, Ids, JoinModel.Produces;
    forall id
      ensures id in Ids(src, q) <==> id in Ids(src, q')
    {
      IdsMeaning(src, q, id);
      IdsMeaning(src, q', id);
    }
  }

  lemma {:induction false} SameIdEffect(ids: seq<int>, ids': seq<int>)
    requires forall id :: id in ids <==> id in ids'
    ensures SameEffect(Success(UidIn(PlusZero(ids))), Success(UidIn(PlusZero(ids'))))
  {
    hide PlusZero, SameConstraint;
    SameIdData(ids, ids');
  }

  lemma {:induction false} SameContain(env: Env, f: ApiFilter, v: ParamValue, v': ParamValue)
    requires SameValue(v, v')
    ensures SameEffect(ContainEffect(env, f, v), ContainEffect(env, f, v'))
  {
    var target := TargetOf(env.source, f.property, 0);
    if v.Assoc? && target.Success? {
      forall x
        ensures x in Values(v) <==> x in Values(v')
      {
        SameValues(v, v', x);
      }
      hide TargetOf, Asks, Ids, Values, SameValue, SameEffect, PlusZero, JoinModel.CellAt, JoinModel.FindInSet;
      var q := ContainQuery(env.source, f.property, Values(v)).value;
      var q' := ContainQuery(env.source, f.property, Values(v')).value;
      var column := target.value.column.name;
      ListConditionsAsk(env.source, target.value, Values(v));
      ListConditionsAsk(env.source, target.value, Values(v'));
      SameIds(env.source, q, q', target.value, ListsAny(column, Values(v)), ListsAny(column, Values(v')));
      SameIdEffect(Ids(env.source, q), Ids(env.source, q'));
    }
  }

  lemma {:induction false} SameText(env: Env, f: ApiFilter, v: ParamValue, v': ParamValue)
    requires Texts(Entries(v)) == Texts(Entries(v'))
    ensures SameEffect(TextEffect(env, f, v), TextEffect(env, f, v'))
  {
    var target, expansion := TargetOf(env.source, f.property, 0), f.arguments.expansion;
    if target.Success? {
      hide TargetOf, Asks, Ids, Entries, Texts, SameEffect, PlusZero, RelevantToAny, TextConditions;
      var q := TextQuery(env.source, f.property, Entries(v), expansion).value;
      var q' := TextQuery(env.source, f.property, Entries(v'), expansion).value;
      TextConditionsAsk(env.source, target.value, Entries(v), expansion);
      TextConditionsAsk(env.source, target.value, Entries(v'), expansion);
      var goal := RelevantToAny(env.source, target.value.column.name, Texts(Entries(v)), expansion);
      SameIds(env.source, q, q', target.value, goal, goal);
      SameIdEffect(Ids(env.source, q), Ids(env.source, q'));
    }
  }

  lemma {:induction false} SameDistance(env: Env, f: ApiFilter, v: ParamValue, v': ParamValue)
    requires SameValue(v, v')
    ensures DistanceEffect(env, f, v) == DistanceEffect(env, f, v')
  {
    hide SameValue, DistanceQuery, Ids, UidIn;
    SameLookup(v, v', "lat");
    SameLookup(v, v', "lng");
    SameLookup(v, v', "radius");
  }

  lemma {:induction false} SameSearch(env: Env, f: ApiFilter, v: ParamValue, v': ParamValue)
    requires SameValue(v, v') && SearchesAlike(f, v, v') && f.kind == SearchFilter
    ensures SameEffect(Apply(env, f, v), Apply(env, f, v'))
  {
    hide Holds, SameConstraint, TextEffect;
    forall x
      ensures x in Values(v) <==> x in Values(v')
    {
      SameValues(v, v', x);
    }
    hide SameValue, Values, Texts, Entries;
    if f.strategy == "matchAgainst" {
      SameText(env, f, v, v');
    } else if f.strategy == "partial" {
      SameLikes(f.property, Values(v), Values(v'));
    } else {
      forall datum
        ensures datum in TextData(Values(v)) <==> datum in TextData(Values(v'))
      {
        TextDataMember(Values(v), datum);
        TextDataMember(Values(v'), datum);
      }
      SameIn(f.property, TextData(Values(v)), TextData(Values(v')));
    }
  }

  lemma {:induction false} SameNumeric(v: ParamValue, v': ParamValue, property: string)
    requires SameValue(v, v')
    ensures SameConstraint(In(property, CastData(Values(v))), In(property, CastData(Values(v'))))
  {
    hide SameConstraint, Values, CastData;
    forall datum
      ensures datum in CastData(Values(v)) <==> datum in CastData(Values(v'))
    {
      CastDataMember(Values(v), datum);
      CastDataMember(Values(v'), datum);
      forall x
        ensures x in Values(v) <==> x in Values(v')
      {
        SameValues(v, v', x);
      }
    }
    SameIn(property, CastData(Values(v)), CastData(Values(v')));
  }

  lemma {:induction false} SameLookup(v: ParamValue, v': ParamValue, key: string)
    requires SameValue(v, v')
    ensures v.Scalar? <==> v'.Scalar?
    ensures if v.Scalar? then v == v' else Lookup(v.entries, key) == Lookup(v'.entries, key)
  {
    if v != v' {
      PermutedLookup(v.entries, v'.entries, key);
    }
  }

  /** Reordering the keys of its parameter changes what a filter does only if other texts are searched. */
  lemma {:induction false} SameApply(env: Env, f: ApiFilter, v: ParamValue, v': ParamValue)
    requires SameValue(v, v') && SearchesAlike(f, v, v')
    ensures SameEffect(Apply(env, f, v), Apply(env, f, v'))
  {
    hide Holds, SameConstraint, PlusZero, Values, SameValue, RangeConstraints, ContainEffect, TextEffect,
      DistanceEffect;
    match f.kind {
      case RangeFilter =>
        if v.Assoc? && v != v' {
          SameRangeValue(env, f, v, v');
        } else {
          SameEffectSelf(v, v', Apply(env, f, v));
        }
      case SearchFilter => SameSearch(env, f, v, v');
      case NumericFilter => SameNumeric(v, v', f.property);
      case BooleanFilter =>
        SameLookup(v, v', "0");
        SameEffectSelf(v, v, Apply(env, f, v));
      case ContainFilter => SameContain(env, f, v, v');
      case DistanceFilter =>
        SameDistance(env, f, v, v');
        SameEffectSelf(v, v, Apply(env, f, v));
      case OrderFilter =>
        SameLookup(v, v', f.property);
        SameEffectSelf(v, v, Apply(env, f, v));
    }
  }

  lemma {:induction false} SameRangeValue(env: Env, f: ApiFilter, v: ParamValue, v': ParamValue)
    requires SameValue(v, v') && v != v' && f.kind == RangeFilter
    ensures SameEffect(Apply(env, f, v), Apply(env, f, v'))
  {
    SameRange(env, f, v.entries, v'.entries);
  }

  lemma {:induction false} SameEffectSelf(v: ParamValue, v': ParamValue, r: Result<Effect>)
    requires SameValue(v, v')
    ensures v.Scalar? <==> v'.Scalar?
    ensures v.Scalar? ==> v == v'
    ensures SameEffect(r, r)
  {
  }

  // ---------------------------------------------------------------- whole queries

  /** The same parameters, in whatever order, with arrays of the same keys and values, in whatever order. */
  ghost predicate SameParams(params: QueryParams, params': QueryParams) {
    && Distinct(params) && Distinct(params')
    && forall name :: SameOptional(Lookup(params, name), Lookup(params', name))
  }

  ghost predicate SameOptional(v: Option<ParamValue>, v': Option<ParamValue>) {
    (v == None && v' == None) || (v.Some? && v'.Some? && SameValue(v.value, v'.value))
  }

  /** Permuting the parameters, and nothing else, is a special case. */
  lemma {:induction false} PermutedParams(params: QueryParams, params': QueryParams)
    requires Distinct(params) && Distinct(params') && multiset(params) == multiset(params')
    ensures SameParams(params, params')
  {
    forall name
      ensures SameOptional(Lookup(params, name), Lookup(params', name))
    {
      PermutedLookup(params, params', name);
    }
  }

  /** Two lists of filters that have the same members, with the same parameter values and the same texts to search. */
  ghost predicate SameMembers(params: QueryParams, fs: seq<ApiFilter>, params': QueryParams, fs': seq<ApiFilter>)
    requires AllRequested(params, fs) && AllRequested(params', fs')
  {
    && (forall f :: f in fs <==> f in fs')
    && (forall f :: f in fs ==> SameValue(ValueFor(params, f), ValueFor(params', f)))
    && (forall f :: f in fs ==> SearchesAlike(f, ValueFor(params, f), ValueFor(params', f)))
  }

  /** The filters that are applied search for the same texts. */
  ghost predicate AllAlike(isGranted: ApiFilter -> bool, filters: seq<ApiFilter>, params: QueryParams,
                           params': QueryParams)
  {
    forall f :: f in filters && isGranted(f) && IsRequested(params, f) && IsRequested(params', f) ==>
      SearchesAlike(f, ValueFor(params, f), ValueFor(params', f))
  }

  lemma {:induction false} SameApplied(isGranted: ApiFilter -> bool, filters: seq<ApiFilter>, params: QueryParams,
                                       filters': seq<ApiFilter>, params': QueryParams)
    requires multiset(filters) == multiset(filters') && SameParams(params, params')
    requires AllAlike(isGranted, filters, params, params')
    ensures SameMembers(params, Applied(filters, isGranted, params), params', Applied(filters', isGranted, params'))
  {
    var fs, fs' := Applied(filters, isGranted, params), Applied(filters', isGranted, params');
    hide SameValue, SearchesAlike;
    forall f
      ensures f in fs <==> f in fs'
      ensures f in fs ==> SameValue(ValueFor(params, f), ValueFor(params', f))
      ensures f in fs ==> SearchesAlike(f, ValueFor(params, f), ValueFor(params', f))
    {
      assert f in filters <==> f in multiset(filters);
      assert f in filters' <==> f in multiset(filters');
      assert SameOptional(Lookup(params, ParameterName(f)), Lookup(params', ParameterName(f)));
    }
  }

  lemma {:induction false} SameParamsSymmetric(params: QueryParams, params': QueryParams)
    requires SameParams(params, params')
    ensures SameParams(params', params)
  {
    forall name
      ensures SameOptional(Lookup(params', name), Lookup(params, name))
    {
      assert SameOptional(Lookup(params, name), Lookup(params', name));
    }
  }

  lemma {:induction false} SameSuccess(env: Env, params: QueryParams, fs: seq<ApiFilter>, params': QueryParams,
                                       fs': seq<ApiFilter>)
    requires AllRequested(params, fs) && AllRequested(params', fs') && SameMembers(params, fs, params', fs')
    requires Effects(env, params, fs).Success?
    ensures Effects(env, params', fs').Success?
  {
    forall f | f in fs'
      ensures Apply(env, f, ValueFor(params', f)).Success?
    {
      var i :| 0 <= i < |fs| && fs[i] == f;
      SameApply(env, f, ValueFor(params, f), ValueFor(params', f));
    }
  }

  /** A constraint of a filter for one order of keys has an equivalent for any other. */
  lemma {:induction false} SameConstrains(env: Env, params: QueryParams, params': QueryParams, f: ApiFilter,
                                          c: Constraint) returns (c': Constraint)
    requires IsRequested(params, f) && IsRequested(params', f) && SameValue(ValueFor(params, f), ValueFor(params', f))
    requires SearchesAlike(f, ValueFor(params, f), ValueFor(params', f)) && Constrains(env, params, f, c)
    ensures Constrains(env, params', f, c') && SameConstraint(c, c')
  {
    SameApply(env, f, ValueFor(params, f), ValueFor(params', f));
    c' := Apply(env, f, ValueFor(params', f)).value.c;
  }

  lemma {:induction false} SameMeaning(env: Env, params: QueryParams, fs: seq<ApiFilter>, params': QueryParams,
                                       fs': seq<ApiFilter>, name: string, record: Record)
    requires AllRequested(params, fs) && AllRequested(params', fs') && SameMembers(params, fs, params', fs')
    ensures HasConstraint(env, params, fs, name) ==> HasConstraint(env, params', fs', name)
    ensures Satisfied(env, params, fs, name, record) ==> Satisfied(env, params', fs', name, record)
  {
    hide Apply, Holds, SameValue, SearchesAlike;
    if f, c :| f in fs && ParameterName(f) == name && Constrains(env, params, f, c) {
      var c' := SameConstrains(env, params, params', f, c);
      assert f in fs' && Constrains(env, params', f, c');
    }
    if f, c :| f in fs && ParameterName(f) == name && Constrains(env, params, f, c) && Holds(c, record) {
      var c' := SameConstrains(env, params, params', f, c);
      assert f in fs' && Constrains(env, params', f, c') && Holds(c', record);
    }
  }

  lemma {:induction false} AllAlikeSymmetric(isGranted: ApiFilter -> bool, filters: seq<ApiFilter>,
                                             params: QueryParams, filters': seq<ApiFilter>, params': QueryParams)
    requires multiset(filters) == multiset(filters') && AllAlike(isGranted, filters, params, params')
    ensures AllAlike(isGranted, filters', params', params)
  {
    hide ValueFor, IsRequested, Texts, Entries;
    forall f | f in filters'
      ensures f in filters
    {
      assert f in multiset(filters');
    }
  }

  /** Neither is refused while the other is not, and both match the same records. */
  ghost predicate SameQuery(env: Env, params: QueryParams, fs: seq<ApiFilter>, params': QueryParams,
                            fs': seq<ApiFilter>, record: Record)
    requires AllRequested(params, fs) && AllRequested(params', fs')
  {
    var es, es' := Effects(env, params, fs), Effects(env, params', fs');
    && (es.Success? <==> es'.Success?)
    && (es.Success? ==>
          (Matches(Conjunction(Groups(fs, es.value)), record) <==>
            Matches(Conjunction(Groups(fs', es'.value)), record)))
  }

  lemma {:induction false} SameMembersSameQuery(env: Env, params: QueryParams, fs: seq<ApiFilter>, params': QueryParams,
                                                fs': seq<ApiFilter>, record: Record)
    requires AllRequested(params, fs) && AllRequested(params', fs')
    requires SameMembers(params, fs, params', fs') && SameMembers(params', fs', params, fs)
    ensures SameQuery(env, params, fs, params', fs', record)
  {
    hide SameMembers, Apply, Holds, Effects, Groups, Conjunction, Matches, Constrains;
    if Effects(env, params, fs).Success? {
      SameSuccess(env, params, fs, params', fs');
    }
    if Effects(env, params', fs').Success? {
      SameSuccess(env, params', fs', params, fs);
      CompiledMeaning(env, params, fs, record);
      CompiledMeaning(env, params', fs', record);
      forall name
        ensures HasConstraint(env, params, fs, name) <==> HasConstraint(env, params', fs', name)
        ensures Satisfied(env, params, fs, name, record) <==> Satisfied(env, params', fs', name, record)
      {
        SameMeaning(env, params, fs, params', fs', name, record);
        SameMeaning(env, params', fs', params, fs, name, record);
      }
    }
  }

  /**
   As long as each full-text filter that is applied searches for the same texts, neither whether a query is
   refused nor which records it matches depends on the order of the query parameters, of the keys inside
   them, or of the registered filters.
   */
  lemma {:induction false} ReorderingKeepsMatches(env: Env, isGranted: ApiFilter -> bool, filters: seq<ApiFilter>,
                                                  params: QueryParams, filters': seq<ApiFilter>, params': QueryParams,
                                                  record: Record)
    requires multiset(filters) == multiset(filters') && SameParams(params, params')
    requires AllAlike(isGranted, filters, params, params')
    ensures SameQuery(env, params, Applied(filters, isGranted, params), params', Applied(filters', isGranted, params'),
                      record)
  {
    hide SameQuery, SameMembers, SameParams, AllAlike, Applied;
    SameApplied(isGranted, filters, params, filters', params');
    SameParamsSymmetric(params, params');
    AllAlikeSymmetric(isGranted, filters, params, filters', params');
    SameApplied(isGranted, filters', params', filters, params);
    SameMembersSameQuery(env, params, Applied(filters, isGranted, params), params',
                         Applied(filters', isGranted, params'), record);
  }

  lemma {:induction false} PermutedAlike(isGranted: ApiFilter -> bool, filters: seq<ApiFilter>, params: QueryParams,
                                         params': QueryParams)
    requires Distinct(params) && Distinct(params') && multiset(params) == multiset(params')
    ensures AllAlike(isGranted, filters, params, params')
  {
    hide Texts, Entries, Distinct;
    forall f | IsRequested(params, f) && IsRequested(params', f)
      ensures ValueFor(params, f) == ValueFor(params', f)
    {
      PermutedLookup(params, params', ParameterName(f));
    }
  }

  /** Permuting whole parameters and registered filters never changes refusal or the matched records. */
  lemma {:induction false} PermutationKeepsMatches(env: Env, isGranted: ApiFilter -> bool, filters: seq<ApiFilter>,
                                                   params: QueryParams, filters': seq<ApiFilter>, params': QueryParams,
                                                   record: Record)
    requires multiset(filters) == multiset(filters')
    requires Distinct(params) && Distinct(params') && multiset(params) == multiset(params')
    ensures SameQuery(env, params, Applied(filters, isGranted, params), params', Applied(filters', isGranted, params'),
                      record)
  {
    hide SameQuery, SameParams, AllAlike, Distinct;
    PermutedParams(params, params');
    PermutedAlike(isGranted, filters, params, params');
    ReorderingKeepsMatches(env, isGranted, filters, params, filters', params', record);
  }

  // ---------------------------------------------------------------- the keys of full-text parameters

  /** No full-text parameter has a text that another one can displace. */
  ghost predicate TextsUndisplaced(isGranted: ApiFilter -> bool, filters: seq<ApiFilter>, params: QueryParams) {
    forall f :: f in filters && isGranted(f) && IsRequested(params, f) &&
                f.kind == SearchFilter && f.strategy == "matchAgainst" ==>
      TextKeys.AllUndisplaced(Entries(ValueFor(params, f)))
  }

  lemma {:induction false} UndisplacedAlike(isGranted: ApiFilter -> bool, filters: seq<ApiFilter>, params: QueryParams,
                                            params': QueryParams)
    requires SameParams(params, params') && TextsUndisplaced(isGranted, filters, params)
    ensures AllAlike(isGranted, filters, params, params')
  {
    hide Texts, TextKeys.AllUndisplaced, ParameterName;
    forall f | f in filters && isGranted(f) && IsRequested(params, f) && IsRequested(params', f)
      ensures SearchesAlike(f, ValueFor(params, f), ValueFor(params', f))
    {
      assert SameOptional(Lookup(params, ParameterName(f)), Lookup(params', ParameterName(f)));
      if f.kind == SearchFilter && f.strategy == "matchAgainst" {
        var v, v' := ValueFor(params, f), ValueFor(params', f);
        TextKeys.AllSearched(Entries(v), Entries(v'));
      }
    }
  }

  /** A query whose full-text parameters displace no text may be reordered in any way. */
  lemma {:induction false} UndisplacedKeepsMatches(env: Env, isGranted: ApiFilter -> bool, filters: seq<ApiFilter>,
                                                   params: QueryParams, filters': seq<ApiFilter>, params': QueryParams,
                                                   record: Record)
    requires multiset(filters) == multiset(filters') && SameParams(params, params')
    requires TextsUndisplaced(isGranted, filters, params)
    ensures SameQuery(env, params, Applied(filters, isGranted, params), params', Applied(filters', isGranted, params'),
                      record)
  {
    hide SameQuery, SameParams, AllAlike, TextsUndisplaced;
    UndisplacedAlike(isGranted, filters, params, params');
    ReorderingKeepsMatches(env, isGranted, filters, params, filters', params', record);
  }
}
