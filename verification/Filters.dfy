/** What each filter makes of its request parameter, and what the resulting constraints mean. */
module Filters {
  import opened Wrappers
  import opened Php
  import opened OrderedMap
  import opened IdLookups

  /** A request parameter as parse_str yields it, one level deep. */
  datatype ParamValue = Scalar(s: string) | Assoc(entries: seq<(string, string)>)

  type QueryParams = seq<(string, ParamValue)>

  // ---------------------------------------------------------------- constraints

  datatype Datum = NullDatum | IntDatum(i: int) | TextDatum(s: string)

  /** A record by property path; an absent property is NULL. */
  type Record = map<string, Datum>

  datatype CompareOp = Greater | GreaterOrEqual | Less | LessOrEqual

  datatype Constraint =
    | Compare(property: string, op: CompareOp, bound: int)
    | Equals(property: string, datum: Datum)
    | In(property: string, values: seq<Datum>)
    | Like(property: string, pattern: string)
    | LogicalAnd(parts: seq<Constraint>)
    | LogicalOr(parts: seq<Constraint>)

  function Get(record: Record, property: string): Datum {
    if property in record then record[property] else NullDatum
  }

  predicate Compares(op: CompareOp, a: int, b: int) {
    match op
    case Greater => a > b
    case GreaterOrEqual => a >= b
    case Less => a < b
    case LessOrEqual => a <= b
  }

  /** SQL LIKE with the wildcards % and _ and backslash as escape. */
  predicate LikeMatches(pattern: string, text: string)
    decreases |pattern|
  {
    if pattern == "" then text == ""
    else if pattern[0] == '%' then exists i :: 0 <= i <= |text| && LikeMatches(pattern[1..], text[i..])
    else if pattern[0] == '\\' && |pattern| > 1 then
      text != "" && text[0] == pattern[1] && LikeMatches(pattern[2..], text[1..])
    else text != "" && (pattern[0] == '_' || text[0] == pattern[0]) && LikeMatches(pattern[1..], text[1..])
  }

  predicate Holds(c: Constraint, record: Record) {
    match c
    case Compare(p, op, bound) => Get(record, p).IntDatum? && Compares(op, Get(record, p).i, bound)
    case Equals(p, datum) => Get(record, p) != NullDatum && Get(record, p) == datum
    case In(p, values) => Get(record, p) != NullDatum && Get(record, p) in values
    case Like(p, pattern) => Get(record, p).TextDatum? && LikeMatches(pattern, Get(record, p).s)
    case LogicalAnd(parts) => forall i :: 0 <= i < |parts| ==> Holds(parts[i], record)
    case LogicalOr(parts) => exists i :: 0 <= i < |parts| && Holds(parts[i], record)
  }

  // ---------------------------------------------------------------- filters

  datatype Kind =
    | RangeFilter | SearchFilter | NumericFilter | BooleanFilter | ContainFilter | DistanceFilter | OrderFilter

  /** The arguments of full-text search and distance filters: `withQueryExpansion`, `unit` and the others by name. */
  datatype Arguments = Arguments(
    expansion: bool, latProperty: string, lngProperty: string, miles: bool, radius: Option<string>,
    allowClientRadius: bool)

  /** `parameterName` is the order parameter name of an order filter, the parameter name of any other, if configured. */
  datatype ApiFilter = ApiFilter(
    kind: Kind, property: string, strategy: string, parameterName: Option<string>, arguments: Arguments)

  function ParameterName(f: ApiFilter): string {
    var plain := if f.kind == OrderFilter then f.parameterName.GetOr("order") else f.parameterName.GetOr(f.property);
    ReplaceChar(plain, '.', '_')
  }

  /** Date parsing (None throws), and where record ids are looked up. */
  datatype Env = Env(date: string -> Option<int>, source: Source)

  datatype Direction = ASC | DESC

  /** What a filter does to the query. */
  datatype Effect = Constrain(c: Constraint) | Order(property: string, direction: Direction) | Nothing

  function Values(v: ParamValue): seq<string> {
    match v
    case Scalar(s) => [s]
    case Assoc(entries) => seq(|entries|, i requires 0 <= i < |entries| => entries[i].1)
  }

  /** `(array)$value` */
  function Entries(v: ParamValue): seq<(string, string)> {
    match v
    case Scalar(s) => [("0", s)]
    case Assoc(entries) => entries
  }

  // ------------------------------------------------ range filter

  function RangeBound(env: Env, f: ApiFilter, value: Option<string>): Result<int> {
    if Lower(f.strategy) == "datetime" then
      var instant := if value.None? then None else env.date(value.value);
      if instant.None? then Failure("invalid date") else Success(instant.value)
    else Success(IntCast(value.GetOr("")))
  }

  /** The part of s before the first "..", and the text after it when there is one. */
  function CutDots(s: string): (r: (string, Option<string>))
    ensures r.1.None? ==> r.0 == s
    ensures r.1.Some? ==> s == r.0 + ".." + r.1.value
  {
    if |s| < 2 then (s, None)
    else if s[0] == '.' && s[1] == '.' then ("", Some(s[2..]))
    else
      var (head, tail) := CutDots(s[1..]);
      ([s[0]] + head, tail)
  }

  /** The first two parts of `explode('..', $s)`. */
  function BetweenParts(s: string): (string, Option<string>) {
    var (low, rest) := CutDots(s);
    (low, if rest.None? then None else Some(CutDots(rest.value).0))
  }

  function RangeConstraint(env: Env, f: ApiFilter, operator: string, value: string): Result<Constraint> {
    match operator
    case "between" =>
      var (low, high) := BetweenParts(value);
      var min :- RangeBound(env, f, Some(low));
      var max :- RangeBound(env, f, high);
      Success(LogicalAnd([Compare(f.property, GreaterOrEqual, min), Compare(f.property, LessOrEqual, max)]))
    case _ =>
      var op :- RangeOperator(operator);
      var bound :- RangeBound(env, f, Some(value));
      Success(Compare(f.property, op, bound))
  }

  function RangeOperator(operator: string): Result<CompareOp> {
    if operator == "gt" then Success(Greater)
    else if operator == "gte" then Success(GreaterOrEqual)
    else if operator == "lt" then Success(Less)
    else if operator == "lte" then Success(LessOrEqual)
    else Failure("Unknown operator of range filter")
  }

  function RangeConstraints(env: Env, f: ApiFilter, entries: seq<(string, string)>): (r: Result<seq<Constraint>>)
    ensures r.Success? ==> |r.value| == |entries|
  {
    if entries == [] then Success([])
    else
      var init :- RangeConstraints(env, f, entries[..|entries| - 1]);
      var last :- RangeConstraint(env, f, entries[|entries| - 1].0, entries[|entries| - 1].1);
      Success(init + [last])
  }

  // ------------------------------------------------ other filters

  /** `filter_var($s, FILTER_VALIDATE_BOOLEAN)` */
  predicate ToBoolean(s: string) {
    Lower(TrimEnd(TrimStart(s))) in ["1", "true", "on", "yes"]
  }

  /** `((array)$value)[0]` */
  function FirstOf(v: ParamValue): string {
    if v.Scalar? then v.s else Lookup(v.entries, "0").GetOr("")
  }

  function OrderEffect(f: ApiFilter, v: ParamValue): Result<Effect> {
    if v.Scalar? || Lookup(v.entries, f.property).None? then Success(Nothing)
    else
      var requested := Lookup(v.entries, f.property).value;
      var direction := Upper(if requested != "" then requested else f.strategy);
      if direction == "" then Success(Nothing)
      else if direction == "ASC" then Success(Order(f.property, ASC))
      else if direction == "DESC" then Success(Order(f.property, DESC))
      else Failure("Unknown order direction")
  }

  function IntData(ids: seq<int>): seq<Datum> {
    seq(|ids|, i requires 0 <= i < |ids| => IntDatum(ids[i]))
  }

  function TextData(values: seq<string>): seq<Datum> {
    seq(|values|, i requires 0 <= i < |values| => TextDatum(values[i]))
  }

  function CastData(values: seq<string>): seq<Datum> {
    seq(|values|, i requires 0 <= i < |values| => IntDatum(IntCast(values[i])))
  }

  function Likes(property: string, values: seq<string>): seq<Constraint> {
    seq(|values|, i requires 0 <= i < |values| => Like(property, "%" + values[i] + "%"))
  }

  function UidIn(ids: seq<int>): Effect {
    Constrain(In("uid", IntData(ids)))
  }

  function ContainEffect(env: Env, f: ApiFilter, v: ParamValue): Result<Effect> {
    if v.Scalar? then Failure("values must be an array")
    else
      var q :- ContainQuery(env.source, f.property, Values(v));
      Success(UidIn(PlusZero(Ids(env.source, q))))
  }

  function TextEffect(env: Env, f: ApiFilter, v: ParamValue): Result<Effect> {
    var q :- TextQuery(env.source, f.property, Entries(v), f.arguments.expansion);
    Success(UidIn(PlusZero(Ids(env.source, q))))
  }

  const MILES_MULTIPLIER := 3959
  const KILOMETERS_MULTIPLIER := 6371
  const DEFAULT_RADIUS := "100"

  function CircleOf(a: Arguments, entries: seq<(string, string)>): Result<Circle> {
    var lat, lng, radius := Lookup(entries, "lat"), Lookup(entries, "lng"), Lookup(entries, "radius");
    if lat.None? || lng.None? then Failure("Parameters lat and lng are required")
    else
      var radius := if radius.Some? && a.allowClientRadius then radius.value else a.radius.GetOr(DEFAULT_RADIUS);
      Success(Circle(if a.miles then MILES_MULTIPLIER else KILOMETERS_MULTIPLIER, lat.value, lng.value, radius))
  }

  function DistanceEffect(env: Env, f: ApiFilter, v: ParamValue): Result<Effect> {
    if v.Scalar? then Failure("values must be an array")
    else
      var circle :- CircleOf(f.arguments, v.entries);
      var q :- DistanceQuery(env.source, f.arguments.latProperty, f.arguments.lngProperty, circle);
      Success(UidIn(Ids(env.source, q) + [0]))
  }

  function Apply(env: Env, f: ApiFilter, v: ParamValue): Result<Effect> {
    match f.kind
    case RangeFilter =>
      if v.Scalar? then Failure("operator must be a string")
      else
        var constraints :- RangeConstraints(env, f, v.entries);
        Success(if constraints == [] then Nothing else Constrain(LogicalOr(constraints)))
    case SearchFilter =>
      if f.strategy == "matchAgainst" then TextEffect(env, f, v)
      else if f.strategy == "partial" then Success(Constrain(LogicalOr(Likes(f.property, Values(v)))))
      else Success(Constrain(In(f.property, TextData(Values(v)))))
    case NumericFilter =>
      Success(Constrain(In(f.property, CastData(Values(v)))))
    case BooleanFilter =>
      Success(Constrain(Equals(f.property, IntDatum(if ToBoolean(FirstOf(v)) then 1 else 0))))
    case ContainFilter => ContainEffect(env, f, v)
    case DistanceFilter => DistanceEffect(env, f, v)
    case OrderFilter => OrderEffect(f, v)
  }

  // ---------------------------------------------------------------- meaning of the constraints

  predicate WildcardFree(v: string) {
    forall i :: 0 <= i < |v| ==> v[i] != '%' && v[i] != '_' && v[i] != '\\'
  }

  lemma {:induction false} LikePrefix(v: string, text: string)
    requires WildcardFree(v)
    ensures LikeMatches(v + "%", text) <==> v <= text
  {
    if v == "" {
      assert v + "%" == "%" && "%"[1..] == "";
      assert LikeMatches("", text[|text|..]);
    } else {
      assert (v + "%")[1..] == v[1..] + "%" && (v + "%")[0] == v[0];
      if text != "" {
        LikePrefix(v[1..], text[1..]);
        assert v <= text <==> v[0] == text[0] && v[1..] <= text[1..];
      }
    }
  }

  /** The partial strategy finds exactly the texts that contain the value, when it holds no wildcard. */
  lemma {:induction false} PartialIsContains(v: string, text: string)
    requires WildcardFree(v)
    ensures LikeMatches("%" + v + "%", text) <==> Contains(text, v)
  {
    assert ("%" + v + "%")[1..] == v + "%" && ("%" + v + "%")[0] == '%';
    forall i | 0 <= i <= |text|
      ensures LikeMatches(v + "%", text[i..]) <==> v <= text[i..]
    {
      LikePrefix(v, text[i..]);
    }
  }

  /**
   A full-text search finds the records of the ids looked up. Any other search matches one of its values:
   contained in the text for the partial strategy, equal to it otherwise.
   */
  lemma {:induction false} SearchMeaning(env: Env, f: ApiFilter, v: ParamValue, record: Record)
    requires f.kind == SearchFilter
    requires f.strategy == "partial" ==> forall x :: x in Values(v) ==> WildcardFree(x)
    ensures Apply(env, f, v).Success? <==>
            f.strategy != "matchAgainst" ||
            CanJoin(env.source, f.property)
    ensures Apply(env, f, v).Success? ==> Apply(env, f, v).value.Constrain?
    ensures Apply(env, f, v).Success? ==>
      (Holds(Apply(env, f, v).value.c, record) <==>
         if f.strategy == "matchAgainst"
         then
           var q := TextQuery(env.source, f.property, Entries(v), f.arguments.expansion).value;
           Get(record, "uid").IntDatum? && Get(record, "uid").i in PlusZero(Ids(env.source, q))
         else
           Get(record, f.property).TextDatum? &&
           exists x :: x in Values(v) &&
             if f.strategy == "partial" then Contains(Get(record, f.property).s, x) else Get(record, f.property).s == x)
  {
    var datum := Get(record, f.property);
    if f.strategy == "matchAgainst" {
      var q := TextQuery(env.source, f.property, Entries(v), f.arguments.expansion);
      if q.Success? {
        hide TextQuery, Ids;
        IntDataMember(PlusZero(Ids(env.source, q.value)), Get(record, "uid"));
      }
    } else if f.strategy == "partial" {
      var likes := Likes(f.property, Values(v));
      forall i | 0 <= i < |Values(v)|
        ensures Holds(likes[i], record) <==> datum.TextDatum? && Contains(datum.s, Values(v)[i])
      {
        if datum.TextDatum? {
          PartialIsContains(Values(v)[i], datum.s);
        }
      }
    } else {
      TextDataMember(Values(v), datum);
    }
  }

  lemma {:induction false} IntDataMember(ids: seq<int>, datum: Datum)
    ensures datum in IntData(ids) <==> datum.IntDatum? && datum.i in ids
  {
    if datum.IntDatum? && datum.i in ids {
      var i :| 0 <= i < |ids| && ids[i] == datum.i;
      assert IntData(ids)[i] == datum;
    }
  }

  lemma {:induction false} TextDataMember(values: seq<string>, datum: Datum)
    ensures datum in TextData(values) <==> datum.TextDatum? && datum.s in values
  {
    if datum.TextDatum? && datum.s in values {
      var i :| 0 <= i < |values| && values[i] == datum.s;
      assert TextData(values)[i] == datum;
    }
  }

  lemma {:induction false} CastDataMember(values: seq<string>, datum: Datum)
    ensures datum in CastData(values) <==> exists x :: x in values && datum == IntDatum(IntCast(x))
  {
    if x :| x in values && datum == IntDatum(IntCast(x)) {
      var i :| 0 <= i < |values| && values[i] == x;
      assert CastData(values)[i] == datum;
    }
  }

  /** What one operator of a range parameter asks of a number. */
  ghost predicate RangeAsks(env: Env, f: ApiFilter, operator: string, value: string, n: int) {
    var bound := RangeBound(env, f, Some(value));
    match operator
    case "between" =>
      var (low, high) := BetweenParts(value);
      var min, max := RangeBound(env, f, Some(low)), RangeBound(env, f, high);
      min.Success? && max.Success? && min.value <= n <= max.value
    case "gt" => bound.Success? && n > bound.value
    case "gte" => bound.Success? && n >= bound.value
    case "lt" => bound.Success? && n < bound.value
    case "lte" => bound.Success? && n <= bound.value
    case _ => false
  }

  lemma {:induction false} RangeConstraintMeaning(env: Env, f: ApiFilter, operator: string, value: string,
                                                  record: Record)
    requires RangeConstraint(env, f, operator, value).Success?
    ensures Holds(RangeConstraint(env, f, operator, value).value, record) <==>
            Get(record, f.property).IntDatum? && RangeAsks(env, f, operator, value, Get(record, f.property).i)
  {
    var c := RangeConstraint(env, f, operator, value).value;
    if operator == "between" {
      assert Holds(c, record) <==> Holds(c.parts[0], record) && Holds(c.parts[1], record);
    }
  }

  lemma {:induction false} RangeConstraintsAt(env: Env, f: ApiFilter, entries: seq<(string, string)>, i: nat)
    requires RangeConstraints(env, f, entries).Success? && i < |entries|
    ensures RangeConstraint(env, f, entries[i].0, entries[i].1) == Success(RangeConstraints(env, f, entries).value[i])
  {
    if i < |entries| - 1 {
      RangeConstraintsAt(env, f, entries[..|entries| - 1], i);
    }
  }

  /** Several operators of one range parameter are alternatives: one of them holding is enough. */
  lemma {:induction false} RangeIsDisjunction(env: Env, f: ApiFilter, entries: seq<(string, string)>, record: Record)
    requires f.kind == RangeFilter && entries != [] && Apply(env, f, Assoc(entries)).Success?
    ensures Apply(env, f, Assoc(entries)).value.Constrain?
    ensures Holds(Apply(env, f, Assoc(entries)).value.c, record) <==>
            Get(record, f.property).IntDatum? &&
            exists i :: 0 <= i < |entries| && RangeAsks(env, f, entries[i].0, entries[i].1, Get(record, f.property).i)
  {
    var cs := RangeConstraints(env, f, entries).value;
    forall i | 0 <= i < |entries|
      ensures Holds(cs[i], record) <==>
              Get(record, f.property).IntDatum? &&
                RangeAsks(env, f, entries[i].0, entries[i].1, Get(record, f.property).i)
    {
      RangeConstraintsAt(env, f, entries, i);
      RangeConstraintMeaning(env, f, entries[i].0, entries[i].1, record);
    }
  }
}
