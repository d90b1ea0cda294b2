/** What a compiled query asks of a record and of the records related to it, for every kind of filter. */
module QueryMeaning {
  import opened Wrappers
  import opened Php
  import opened IdLookups
  import opened IdMeanings
  import opened Filters
  import opened Repository
  import opened FilteredQuery
  import JoinModel

  /** The record is that of a row of the repository's table. */
  ghost predicate Represents(env: Env, record: Record, row: JoinModel.Row) {
    && Get(record, "uid").IntDatum? && Get(record, "uid").i > 0
    && IsRecord(env.source, row, Get(record, "uid").i)
  }

  /** Related records lead from the row along a property to one that meets the goal. */
  ghost predicate Leads(env: Env, property: string, row: JoinModel.Row, goal: Option<JoinModel.Row> -> bool) {
    var path := PathOf(env.source, property).0;
    path.Some? && JoinModel.Leads(env.source.db, path.value, row, goal)
  }

  ghost predicate DistanceAsked(env: Env, f: ApiFilter, v: ParamValue, row: JoinModel.Row) {
    && v.Assoc? && CircleOf(f.arguments, v.entries).Success?
    && PathOf(env.source, f.arguments.latProperty).0.Some? && PathOf(env.source, f.arguments.lngProperty).0.Some?
    && LeadsNear(env.source, f.arguments.latProperty, f.arguments.lngProperty,
                 CircleOf(f.arguments, v.entries).value, row)
  }

  ghost predicate SearchAsked(env: Env, f: ApiFilter, v: ParamValue, record: Record, row: JoinModel.Row) {
    var datum, column := Get(record, f.property), ColumnName(env.source, f.property);
    if f.strategy == "matchAgainst" then
      Leads(env, f.property, row, RelevantToAny(env.source, column, Texts(Entries(v)), f.arguments.expansion))
    else if f.strategy == "partial" then
      datum.TextDatum? && exists x :: x in Values(v) && LikeMatches("%" + x + "%", datum.s)
    else datum.TextDatum? && datum.s in Values(v)
  }

  ghost predicate RangeAsked(env: Env, f: ApiFilter, v: ParamValue, record: Record) {
    var datum := Get(record, f.property);
    && v.Assoc? && datum.IntDatum?
    && exists i :: 0 <= i < |v.entries| && RangeAsks(env, f, v.entries[i].0, v.entries[i].1, datum.i)
  }

  /** What the value of its parameter asks of a record through a filter. */
  ghost predicate Asked(env: Env, f: ApiFilter, v: ParamValue, record: Record, row: JoinModel.Row) {
    var datum := Get(record, f.property);
    match f.kind
    case RangeFilter => RangeAsked(env, f, v, record)
    case SearchFilter => SearchAsked(env, f, v, record, row)
    case NumericFilter => datum.IntDatum? && exists x :: x in Values(v) && datum.i == IntCast(x)
    case BooleanFilter => datum == IntDatum(if ToBoolean(FirstOf(v)) then 1 else 0)
    case ContainFilter =>
      Leads(env, f.property, row, ListsAny(ColumnName(env.source, f.property), Values(v)))
    case DistanceFilter => DistanceAsked(env, f, v, row)
    case OrderFilter => true
  }

  lemma {:induction false} UidInMeaning(env: Env, ids: seq<int>, record: Record)
    requires Get(record, "uid").IntDatum?
    ensures Holds(UidIn(ids).c, record) <==> Get(record, "uid").i in ids
  {
    IntDataMember(ids, Get(record, "uid"));
  }

  lemma {:induction false} ContainAsked(env: Env, f: ApiFilter, v: ParamValue, record: Record, row: JoinModel.Row)
    requires f.kind == ContainFilter && Apply(env, f, v).Success? && Represents(env, record, row)
    ensures Holds(Apply(env, f, v).value.c, record) <==> Asked(env, f, v, record, row)
  {
    var q := ContainQuery(env.source, f.property, Values(v)).value;
    hide Ids, Holds, JoinModel.Leads, ListsAny;
    UidInMeaning(env, PlusZero(Ids(env.source, q)), record);
    ContainMeaning(env.source, f.property, Values(v), row, Get(record, "uid").i);
  }

  lemma {:induction false} TextAsked(env: Env, f: ApiFilter, v: ParamValue, record: Record, row: JoinModel.Row)
    requires f.kind == SearchFilter && f.strategy == "matchAgainst"
    requires Apply(env, f, v).Success? && Represents(env, record, row)
    ensures Holds(Apply(env, f, v).value.c, record) <==> Asked(env, f, v, record, row)
  {
    var q := TextQuery(env.source, f.property, Entries(v), f.arguments.expansion).value;
    hide Ids, Holds, JoinModel.Leads, RelevantToAny, Texts;
    UidInMeaning(env, PlusZero(Ids(env.source, q)), record);
    TextMeaning(env.source, f.property, Entries(v), f.arguments.expansion, row, Get(record, "uid").i);
  }

  lemma {:induction false} NearAsked(env: Env, f: ApiFilter, v: ParamValue, record: Record, row: JoinModel.Row)
    requires f.kind == DistanceFilter && Apply(env, f, v).Success? && Represents(env, record, row)
    ensures Holds(Apply(env, f, v).value.c, record) <==> Asked(env, f, v, record, row)
  {
    var circle := CircleOf(f.arguments, v.entries).value;
    var lat, lng := f.arguments.latProperty, f.arguments.lngProperty;
    var q := DistanceQuery(env.source, lat, lng, circle).value;
    hide Ids, Holds, LeadsNear, CircleOf;
    UidInMeaning(env, Ids(env.source, q) + [0], record);
    DistanceMeaning(env.source, lat, lng, circle, row, Get(record, "uid").i);
  }

  lemma {:induction false} WordsAsked(env: Env, f: ApiFilter, v: ParamValue, record: Record, row: JoinModel.Row)
    requires f.kind == SearchFilter && f.strategy != "matchAgainst"
    ensures Apply(env, f, v).Success? && Apply(env, f, v).value.Constrain?
    ensures Holds(Apply(env, f, v).value.c, record) <==> Asked(env, f, v, record, row)
  {
    var datum := Get(record, f.property);
    if f.strategy == "partial" {
      hide LikeMatches;
      var likes := Likes(f.property, Values(v));
      forall i | 0 <= i < |Values(v)|
        ensures Holds(likes[i], record) <==> datum.TextDatum? && LikeMatches("%" + Values(v)[i] + "%", datum.s)
      {
      }
    } else {
      TextDataMember(Values(v), datum);
    }
  }

  lemma {:induction false} NumbersAsked(env: Env, f: ApiFilter, v: ParamValue, record: Record, row: JoinModel.Row)
    requires f.kind == NumericFilter
    ensures Apply(env, f, v).Success? && Apply(env, f, v).value.Constrain?
    ensures Holds(Apply(env, f, v).value.c, record) <==> Asked(env, f, v, record, row)
  {
    hide IntCast;
    CastDataMember(Values(v), Get(record, f.property));
  }

  /** A constraint holds of a record exactly when the filter's parameter asks for it. */
  lemma {:induction false} ConstraintMeaning(env: Env, f: ApiFilter, v: ParamValue, record: Record,
                                             row: JoinModel.Row)
    requires Apply(env, f, v).Success? && Apply(env, f, v).value.Constrain? && Represents(env, record, row)
    ensures Holds(Apply(env, f, v).value.c, record) <==> Asked(env, f, v, record, row)
  {
    match f.kind {
      case RangeFilter => RangeIsDisjunction(env, f, v.entries, record);
      case SearchFilter =>
        if f.strategy == "matchAgainst" {
          TextAsked(env, f, v, record, row);
        } else {
          WordsAsked(env, f, v, record, row);
        }
      case NumericFilter => NumbersAsked(env, f, v, record, row);
      case BooleanFilter =>
      case ContainFilter => ContainAsked(env, f, v, record, row);
      case DistanceFilter => NearAsked(env, f, v, record, row);
      case OrderFilter =>
    }
  }

  /** Some filter of the parameter constrains the query, and one such filter's value asks for the record. */
  ghost predicate ParameterAsks(env: Env, params: QueryParams, fs: seq<ApiFilter>, name: string, record: Record,
                                row: JoinModel.Row)
    requires AllRequested(params, fs)
  {
    exists f, c :: f in fs && ParameterName(f) == name && Constrains(env, params, f, c) &&
                   Asked(env, f, ValueFor(params, f), record, row)
  }

  /**
   A compiled query matches a record exactly when, for every parameter that constrains it, one of the
   parameter's filters asks for the record: of its own fields, or of the records related to it.
   */
  lemma {:induction false} QueryAsks(env: Env, params: QueryParams, fs: seq<ApiFilter>, record: Record,
                                     row: JoinModel.Row)
    requires AllRequested(params, fs) && Effects(env, params, fs).Success? && Represents(env, record, row)
    ensures FilteredQuery.Matches(Conjunction(Groups(fs, Effects(env, params, fs).value)), record) <==>
            forall name :: HasConstraint(env, params, fs, name) ==> ParameterAsks(env, params, fs, name, record, row)
  {
    CompiledMeaning(env, params, fs, record);
    hide Apply, Holds, Asked, Effects, Groups, Conjunction, Represents;
    forall name
      ensures Satisfied(env, params, fs, name, record) <==> ParameterAsks(env, params, fs, name, record, row)
    {
      forall f, c | f in fs && Constrains(env, params, f, c)
        ensures Holds(c, record) <==> Asked(env, f, ValueFor(params, f), record, row)
      {
        ConstraintMeaning(env, f, ValueFor(params, f), record, row);
      }
    }
  }
}
