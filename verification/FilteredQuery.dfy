/** The compiled query: constraints grouped by parameter name, AND over OR, and the ordered map of orderings. */
module FilteredQuery {
  import opened Wrappers
  import opened Php
  import opened OrderedMap
  import opened IdLookups
  import opened Filters
  import opened Repository

  // ---------------------------------------------------------------- specification

  /** The effects of the filters, in the order in which they are applied. */
  function Effects(env: Env, params: QueryParams, fs: seq<ApiFilter>): (r: Result<seq<Effect>>)
    requires AllRequested(params, fs)
    ensures r.Success? ==> |r.value| == |fs|
    ensures r.Success? ==> forall i :: 0 <= i < |fs| ==>
      Apply(env, fs[i], ValueFor(params, fs[i])) == Success(r.value[i])
    ensures r.Failure? ==> exists f :: f in fs && Apply(env, f, ValueFor(params, f)).Failure?
  {
    if fs == [] then Success([])
    else
      var init :- Effects(env, params, fs[..|fs| - 1]);
      var last :- Apply(env, fs[|fs| - 1], ValueFor(params, fs[|fs| - 1]));
      Success(init + [last])
  }

  /** `$constraintGroups` */
  function Groups(fs: seq<ApiFilter>, effects: seq<Effect>): seq<(string, seq<Constraint>)>
    requires |fs| == |effects|
  {
    if fs == [] then []
    else
      var n := |fs| - 1;
      var init := Groups(fs[..n], effects[..n]);
      if effects[n].Constrain? then Append(init, ParameterName(fs[n]), effects[n].c) else init
  }

  function GroupConstraints(groups: seq<(string, seq<Constraint>)>): seq<Constraint> {
    if groups == [] then []
    else GroupConstraints(groups[..|groups| - 1]) + [LogicalOr(groups[|groups| - 1].1)]
  }

  function Conjunction(groups: seq<(string, seq<Constraint>)>): Option<Constraint> {
    if groups == [] then None else Some(LogicalAnd(GroupConstraints(groups)))
  }

  function Orderings(effects: seq<Effect>): seq<(string, Direction)> {
    if effects == [] then []
    else
      var init, last := Orderings(effects[..|effects| - 1]), effects[|effects| - 1];
      if last.Order? then Put(init, last.property, last.direction) else init
  }

  /** The filters in the order in which they are applied. */
  function Applied(filters: seq<ApiFilter>, isGranted: ApiFilter -> bool, params: QueryParams): (r: seq<ApiFilter>)
    ensures AllRequested(params, r)
    ensures forall f :: f in r <==> f in filters && isGranted(f) && IsRequested(params, f)
  {
    Usort(params, Requested(Granted(filters, isGranted), params))
  }

  // ---------------------------------------------------------------- the query as the source builds it

  class Query {
    var matching: Option<Constraint>
    var orderings: seq<(string, Direction)>

    constructor ()
      ensures matching == None && orderings == []
    {
      matching := None;
      orderings := [];
    }
  }

  method RangeFilterProperty(env: Env, f: ApiFilter, v: ParamValue) returns (r: Result<Option<Constraint>>)
    requires f.kind == RangeFilter
    ensures r.Success? <==> Apply(env, f, v).Success?
    ensures r.Success? ==> Apply(env, f, v).value == if r.value.Some? then Constrain(r.value.value) else Nothing
  {
    if v.Scalar? {
      return Failure("operator must be a string");
    }
    var constraints := [];
    var i := 0;
    while i < |v.entries|
      invariant 0 <= i <= |v.entries|
      invariant RangeConstraints(env, f, v.entries[..i]) == Success(constraints)
    {
      assert v.entries[..i + 1][..i] == v.entries[..i];
      var constraint := RangeConstraint(env, f, v.entries[i].0, v.entries[i].1);
      if constraint.Failure? {
        RangeFailsAt(env, f, v.entries, i);
        return Failure(constraint.error);
      }
      constraints := constraints + [constraint.value];
      i := i + 1;
    }
    assert v.entries[..i] == v.entries;
    r := Success(if constraints == [] then None else Some(LogicalOr(constraints)));
  }

  lemma {:induction false} RangeFailsAt(env: Env, f: ApiFilter, entries: seq<(string, string)>, i: nat)
    requires i < |entries| && RangeConstraint(env, f, entries[i].0, entries[i].1).Failure?
    ensures RangeConstraints(env, f, entries).Failure?
  {
    if RangeConstraints(env, f, entries).Success? {
      RangeConstraintsAt(env, f, entries, i);
    }
  }

  /** The filters that look up ids first: the contain filter, full-text search and the distance filter. */
  method IdFilterProperty(env: Env, f: ApiFilter, v: ParamValue) returns (r: Result<Option<Constraint>>)
    requires LooksUp(f)
    ensures r.Success? <==> Apply(env, f, v).Success?
    ensures r.Success? ==> r.value.Some? && Apply(env, f, v).value == Constrain(r.value.value)
  {
    hide ContainQuery, TextQuery, DistanceQuery, CircleOf, Ids;
    if f.kind == ContainFilter {
      if v.Scalar? {
        return Failure("values must be an array");
      }
      var ids :- FindContainingIds(env.source, f.property, Values(v));
      r := Success(Some(UidIn(PlusZero(ids)).c));
    } else if f.kind == SearchFilter {
      var ids :- MatchAgainstFindIds(env.source, f.property, Entries(v), f.arguments.expansion);
      r := Success(Some(UidIn(PlusZero(ids)).c));
    } else {
      if v.Scalar? {
        return Failure("values must be an array");
      }
      var circle :- CircleOf(f.arguments, v.entries);
      var ids :- FindNearIds(env.source, f.arguments.latProperty, f.arguments.lngProperty, circle);
      r := Success(Some(UidIn(ids + [0]).c));
    }
  }

  predicate LooksUp(f: ApiFilter) {
    f.kind in {ContainFilter, DistanceFilter} || (f.kind == SearchFilter && f.strategy == "matchAgainst")
  }

  /** What applying an effect returns, and what it makes of the orderings. */
  ghost predicate TakesEffect(effect: Effect, before: seq<(string, Direction)>, r: Option<Constraint>,
                              after: seq<(string, Direction)>)
  {
    match effect
    case Constrain(c) => r == Some(c) && after == before
    case Order(p, d) => r == None && after == Put(before, p, d)
    case Nothing => r == None && after == before
  }

  /** filterProperty: constraints are returned, orderings are merged into the query. */
  method FilterProperty(env: Env, f: ApiFilter, v: ParamValue, query: Query) returns (r: Result<Option<Constraint>>)
    modifies query`orderings
    ensures r.Success? <==> Apply(env, f, v).Success?
    ensures r.Success? ==> TakesEffect(Apply(env, f, v).value, old(query.orderings), r.value, query.orderings)
  {
    if f.kind == RangeFilter {
      r := RangeFilterProperty(env, f, v);
    } else if LooksUp(f) {
      r := IdFilterProperty(env, f, v);
    } else {
      var effect :- Apply(env, f, v);
      match effect {
        case Constrain(c) => r := Success(Some(c));
        case Order(p, d) =>
          query.orderings := Put(query.orderings, p, d);
          r := Success(None);
        case Nothing => r := Success(None);
      }
    }
  }

  method FindFiltered(env: Env, filters: seq<ApiFilter>, isGranted: ApiFilter -> bool, params: QueryParams)
      returns (r: Result<Query>)
    ensures
      var applied := Applied(filters, isGranted, params);
      var effects := Effects(env, params, applied);
      && (r.Success? <==> effects.Success?)
      && (r.Success? ==>
            && fresh(r.value)
            && r.value.matching == Conjunction(Groups(applied, effects.value))
            && r.value.orderings == Orderings(effects.value))
  {
    var query := new Query();
    var constraintGroups := [];
    var apiFilters := Applied(filters, isGranted, params);
    NothingCompiled(env, params, apiFilters);
    hide Compiled, Apply, Append, Applied, TakesEffect, Effects;
    var i := 0;
    while i < |apiFilters|
      invariant 0 <= i <= |apiFilters|
      invariant fresh(query) && query.matching == None
      invariant Compiled(env, params, apiFilters, i, constraintGroups, query.orderings)
    {
      var apiFilter := apiFilters[i];
      ghost var groups, before := constraintGroups, query.orderings;
      var constraint := FilterProperty(env, apiFilter, ValueFor(params, apiFilter), query);
      if constraint.Failure? {
        EffectsFailAt(env, params, apiFilters, i);
        return Failure(constraint.error);
      }
      if constraint.value.Some? {
        constraintGroups := Append(constraintGroups, ParameterName(apiFilter), constraint.value.value);
      }
      CompileStep(env, params, apiFilters, i, groups, before, constraint.value, query.orderings);
      i := i + 1;
    }
    AllCompiled(env, params, apiFilters, constraintGroups, query.orderings);
    query.matching := BuildMatching(constraintGroups);
    r := Success(query);
  }

  /** The loop over the constraint groups and the final matching. */
  method BuildMatching(constraintGroups: seq<(string, seq<Constraint>)>) returns (matching: Option<Constraint>)
    ensures matching == Conjunction(constraintGroups)
  {
    var constraints := [];
    var j := 0;
    while j < |constraintGroups|
      invariant 0 <= j <= |constraintGroups| && |constraints| == j
      invariant constraints == GroupConstraints(constraintGroups[..j])
    {
      assert constraintGroups[..j + 1][..j] == constraintGroups[..j];
      constraints := constraints + [LogicalOr(constraintGroups[j].1)];
      j := j + 1;
    }
    assert constraintGroups[..j] == constraintGroups;
    matching := if constraints == [] then None else Some(LogicalAnd(constraints));
  }

  /** The state of the compiling loop after the first i filters. */
  ghost predicate Compiled(env: Env, params: QueryParams, fs: seq<ApiFilter>, i: nat,
                           groups: seq<(string, seq<Constraint>)>, orderings: seq<(string, Direction)>)
    requires AllRequested(params, fs) && i <= |fs|
  {
    var effects := Effects(env, params, fs[..i]);
    effects.Success? && groups == Groups(fs[..i], effects.value) && orderings == Orderings(effects.value)
  }

  lemma {:induction false} NothingCompiled(env: Env, params: QueryParams, fs: seq<ApiFilter>)
    requires AllRequested(params, fs)
    ensures Compiled(env, params, fs, 0, [], [])
  {}

  lemma {:induction false} AllCompiled(env: Env, params: QueryParams, fs: seq<ApiFilter>,
                                       groups: seq<(string, seq<Constraint>)>, orderings: seq<(string, Direction)>)
    requires AllRequested(params, fs) && Compiled(env, params, fs, |fs|, groups, orderings)
    ensures Effects(env, params, fs).Success?
    ensures groups == Groups(fs, Effects(env, params, fs).value) &&
      orderings == Orderings(Effects(env, params, fs).value)
  {
    assert fs[..|fs|] == fs;
  }

  lemma {:induction false} CompileStep(env: Env, params: QueryParams, fs: seq<ApiFilter>, i: nat,
                                       groups: seq<(string, seq<Constraint>)>, before: seq<(string, Direction)>,
                                       constraint: Option<Constraint>, after: seq<(string, Direction)>)
    requires AllRequested(params, fs) && i < |fs| && Compiled(env, params, fs, i, groups, before)
    requires Apply(env, fs[i], ValueFor(params, fs[i])).Success?
    requires TakesEffect(Apply(env, fs[i], ValueFor(params, fs[i])).value, before, constraint, after)
    ensures Compiled(env, params, fs, i + 1,
                     if constraint.Some? then Append(groups, ParameterName(fs[i]), constraint.value) else groups, after)
  {
    var effect := Apply(env, fs[i], ValueFor(params, fs[i])).value;
    var effects := Effects(env, params, fs[..i]).value;
    EffectsNext(env, params, fs, i, effect);
    GroupsNext(fs, effects, i, effect);
    hide Apply, Append, Put, Effects, Groups, Orderings;
  }

  lemma {:induction false} EffectsNext(env: Env, params: QueryParams, fs: seq<ApiFilter>, i: nat, effect: Effect)
    requires AllRequested(params, fs) && i < |fs| && Effects(env, params, fs[..i]).Success?
    requires Apply(env, fs[i], ValueFor(params, fs[i])) == Success(effect)
    ensures Effects(env, params, fs[..i + 1]) == Success(Effects(env, params, fs[..i]).value + [effect])
  {
    hide Apply;
    assert fs[..i + 1][..i] == fs[..i];
  }

  lemma {:induction false} GroupsNext(fs: seq<ApiFilter>, effects: seq<Effect>, i: nat, effect: Effect)
    requires i < |fs| && |effects| == i
    ensures Groups(fs[..i + 1], effects + [effect]) ==
            if effect.Constrain?
            then Append(Groups(fs[..i], effects), ParameterName(fs[i]), effect.c)
            else Groups(fs[..i], effects)
    ensures Orderings(effects + [effect]) ==
            if effect.Order? then Put(Orderings(effects), effect.property, effect.direction) else Orderings(effects)
  {
    hide Append, Put;
    assert fs[..i + 1][..i] == fs[..i];
    assert (effects + [effect])[..i] == effects;
  }

  lemma {:induction false} EffectsFailAt(env: Env, params: QueryParams, fs: seq<ApiFilter>, i: nat)
    requires AllRequested(params, fs) && i < |fs| && Apply(env, fs[i], ValueFor(params, fs[i])).Failure?
    ensures Effects(env, params, fs).Failure?
  {
  }

  // ---------------------------------------------------------------- meaning

  ghost predicate Matches(matching: Option<Constraint>, record: Record) {
    matching.Some? ==> Holds(matching.value, record)
  }

  /** The constraint that a filter makes of its parameter. */
  ghost predicate Constrains(env: Env, params: QueryParams, f: ApiFilter, c: Constraint)
    requires IsRequested(params, f)
  {
    Apply(env, f, ValueFor(params, f)) == Success(Constrain(c))
  }

  ghost predicate HasConstraint(env: Env, params: QueryParams, fs: seq<ApiFilter>, name: string)
    requires AllRequested(params, fs)
  {
    exists f, c :: f in fs && ParameterName(f) == name && Constrains(env, params, f, c)
  }

  ghost predicate Satisfied(env: Env, params: QueryParams, fs: seq<ApiFilter>, name: string, record: Record)
    requires AllRequested(params, fs)
  {
    exists f, c :: f in fs && ParameterName(f) == name && Constrains(env, params, f, c) && Holds(c, record)
  }

  /** The constraints of the group of a parameter, none when there is no group. */
  function GroupOf(groups: seq<(string, seq<Constraint>)>, name: string): seq<Constraint> {
    Lookup(groups, name).GetOr([])
  }

  ghost predicate GoodGroups(groups: seq<(string, seq<Constraint>)>) {
    Distinct(groups) && forall i :: 0 <= i < |groups| ==> groups[i].1 != []
  }

  lemma {:induction false} AppendGood(groups: seq<(string, seq<Constraint>)>, name: string, c: Constraint)
    requires GoodGroups(groups)
    ensures GoodGroups(Append(groups, name, c))
    ensures forall other ::
      GroupOf(Append(groups, name, c), other) == GroupOf(groups, other) + if other == name then [c] else []
  {
    var value := GroupOf(groups, name) + [c];
    PutKeys(groups, name, value);
    PutDistinct(groups, name, value);
    var r := Append(groups, name, c);
    forall other
      ensures GroupOf(r, other) == GroupOf(groups, other) + if other == name then [c] else []
    {
      PutLookup(groups, name, value, other);
    }
    forall i | 0 <= i < |r|
      ensures r[i].1 != []
    {
      LookupAt(r, i);
      PutLookup(groups, name, value, r[i].0);
      if r[i].0 != name {
        var k :| 0 <= k < |groups| && groups[k] == (r[i].0, r[i].1);
      }
    }
  }

  lemma {:induction false} GroupsGood(fs: seq<ApiFilter>, effects: seq<Effect>)
    requires |fs| == |effects|
    ensures GoodGroups(Groups(fs, effects))
  {
    if fs != [] {
      var n := |fs| - 1;
      GroupsGood(fs[..n], effects[..n]);
      if effects[n].Constrain? {
        AppendGood(Groups(fs[..n], effects[..n]), ParameterName(fs[n]), effects[n].c);
      }
    }
  }

  ghost predicate SomeEffect(fs: seq<ApiFilter>, effects: seq<Effect>, name: string, c: Constraint)
    requires |fs| == |effects|
  {
    exists i :: 0 <= i < |fs| && ParameterName(fs[i]) == name && effects[i] == Constrain(c)
  }

  lemma {:induction false} SomeEffectLast(fs: seq<ApiFilter>, effects: seq<Effect>, name: string, c: Constraint)
    requires |fs| == |effects| && fs != []
    ensures var n := |fs| - 1;
            SomeEffect(fs, effects, name, c) <==>
            SomeEffect(fs[..n], effects[..n], name, c) || (ParameterName(fs[n]) == name && effects[n] == Constrain(c))
  {
  }

  /** A group holds exactly the constraints of the filters with its parameter name. */
  lemma {:induction false} GroupMembers(fs: seq<ApiFilter>, effects: seq<Effect>, name: string, c: Constraint)
    requires |fs| == |effects|
    ensures c in GroupOf(Groups(fs, effects), name) <==> SomeEffect(fs, effects, name, c)
  {
    if fs != [] {
      var n := |fs| - 1;
      SomeEffectLast(fs, effects, name, c);
      GroupMembers(fs[..n], effects[..n], name, c);
      GroupsGood(fs[..n], effects[..n]);
      if effects[n].Constrain? {
        AppendGood(Groups(fs[..n], effects[..n]), ParameterName(fs[n]), effects[n].c);
      }
    }
  }

  lemma {:induction false} GroupConstraintsAt(groups: seq<(string, seq<Constraint>)>)
    ensures |GroupConstraints(groups)| == |groups|
    ensures forall i :: 0 <= i < |groups| ==> GroupConstraints(groups)[i] == LogicalOr(groups[i].1)
  {
    if groups != [] {
      GroupConstraintsAt(groups[..|groups| - 1]);
    }
  }

  ghost predicate SomeHolds(constraints: seq<Constraint>, record: Record) {
    exists c :: c in constraints && Holds(c, record)
  }

  lemma {:induction false} OrMeaning(constraints: seq<Constraint>, record: Record)
    ensures Holds(LogicalOr(constraints), record) <==> SomeHolds(constraints, record)
  {
  }

  lemma {:induction false} ConjunctionMeaning(groups: seq<(string, seq<Constraint>)>, record: Record)
    requires GoodGroups(groups)
    ensures Matches(Conjunction(groups), record) <==>
            forall name :: GroupOf(groups, name) != [] ==> SomeHolds(GroupOf(groups, name), record)
  {
    GroupConstraintsAt(groups);
    if Matches(Conjunction(groups), record) {
      forall name | GroupOf(groups, name) != []
        ensures SomeHolds(GroupOf(groups, name), record)
      {
        var i :| 0 <= i < |groups| && groups[i].0 == name;
        LookupAt(groups, i);
        assert Holds(GroupConstraints(groups)[i], record);
        OrMeaning(groups[i].1, record);
      }
    }
    if forall name :: GroupOf(groups, name) != [] ==> SomeHolds(GroupOf(groups, name), record) {
      forall i | 0 <= i < |groups|
        ensures Holds(GroupConstraints(groups)[i], record)
      {
        LookupAt(groups, i);
        assert GroupOf(groups, groups[i].0) == groups[i].1;
        OrMeaning(groups[i].1, record);
      }
    }
  }

  lemma {:induction false} GroupMeaning(env: Env, params: QueryParams, fs: seq<ApiFilter>, name: string, record: Record)
    requires AllRequested(params, fs) && Effects(env, params, fs).Success?
    ensures var group := GroupOf(Groups(fs, Effects(env, params, fs).value), name);
            && (group != [] <==> HasConstraint(env, params, fs, name))
            && (SomeHolds(group, record) <==> Satisfied(env, params, fs, name, record))
  {
    var effects := Effects(env, params, fs).value;
    var group := GroupOf(Groups(fs, effects), name);
    forall c
      ensures c in group <==> exists f :: f in fs && ParameterName(f) == name && Constrains(env, params, f, c)
    {
      GroupMembers(fs, effects, name, c);
      if f :| f in fs && ParameterName(f) == name && Constrains(env, params, f, c) {
        var i :| 0 <= i < |fs| && fs[i] == f;
        assert effects[i] == Constrain(c);
      }
    }
    if group != [] {
      var c := group[0];
      assert c in group;
      var f :| f in fs && ParameterName(f) == name && Constrains(env, params, f, c);
      assert HasConstraint(env, params, fs, name);
    }
    if HasConstraint(env, params, fs, name) {
      var f, c :| f in fs && ParameterName(f) == name && Constrains(env, params, f, c);
      assert c in group;
    }
  }

  /**
   The compiled query matches a record exactly when, for every parameter name for which some applied
   filter produced a constraint, one of the constraints of that name holds of the record.
   */
  lemma {:induction false} CompiledMeaning(env: Env, params: QueryParams, fs: seq<ApiFilter>, record: Record)
    requires AllRequested(params, fs) && Effects(env, params, fs).Success?
    ensures Matches(Conjunction(Groups(fs, Effects(env, params, fs).value)), record) <==>
            forall name :: HasConstraint(env, params, fs, name) ==> Satisfied(env, params, fs, name, record)
  {
    var groups := Groups(fs, Effects(env, params, fs).value);
    GroupsGood(fs, Effects(env, params, fs).value);
    ConjunctionMeaning(groups, record);
    forall name
      ensures GroupOf(groups, name) != [] <==> HasConstraint(env, params, fs, name)
      ensures SomeHolds(GroupOf(groups, name), record) <==> Satisfied(env, params, fs, name, record)
    {
      GroupMeaning(env, params, fs, name, record);
    }
  }
}
