/** What filters make of the text of their parameter, and which texts they refuse. */
module FilterTexts {
  import opened Wrappers
  import opened Php
  import opened OrderedMap
  import opened IdLookups
  import opened Filters
  import opened Repository

  // ---------------------------------------------------------------- ranges of integers

  predicate IsDate(f: ApiFilter) {
    Lower(f.strategy) == "datetime"
  }

  ghost predicate HasInt(record: Record, property: string) {
    Get(record, property).IntDatum?
  }

  lemma {:induction false} WrittenBound(env: Env, f: ApiFilter, a: int)
    requires !IsDate(f)
    ensures RangeBound(env, f, Some(Decimal(a))) == Success(a)
  {
    IntCastDecimal(a);
  }

  /** An integer bound written in decimal: each operator compares as its name says. */
  lemma {:induction false} IntegerBound(env: Env, f: ApiFilter, a: int, record: Record)
    requires !IsDate(f)
    ensures RangeConstraint(env, f, "gt", Decimal(a)).Success? && RangeConstraint(env, f, "gte", Decimal(a)).Success?
    ensures RangeConstraint(env, f, "lt", Decimal(a)).Success? && RangeConstraint(env, f, "lte", Decimal(a)).Success?
    ensures Holds(RangeConstraint(env, f, "gt", Decimal(a)).value, record) <==>
            HasInt(record, f.property) && Get(record, f.property).i > a
    ensures Holds(RangeConstraint(env, f, "gte", Decimal(a)).value, record) <==>
            HasInt(record, f.property) && Get(record, f.property).i >= a
    ensures Holds(RangeConstraint(env, f, "lt", Decimal(a)).value, record) <==>
            HasInt(record, f.property) && Get(record, f.property).i < a
    ensures Holds(RangeConstraint(env, f, "lte", Decimal(a)).value, record) <==>
            HasInt(record, f.property) && Get(record, f.property).i <= a
  {
    WrittenBound(env, f, a);
    hide RangeBound, Decimal;
  }

  /** No two dots stand side by side. */
  predicate NoDoubleDot(s: string) {
    forall i :: 0 <= i < |s| - 1 ==> !(s[i] == '.' && s[i + 1] == '.')
  }

  lemma {:induction false} NoDoubleDotRest(s: string)
    requires s != "" && NoDoubleDot(s)
    ensures NoDoubleDot(s[1..])
  {
    forall i | 0 <= i < |s[1..]| - 1
      ensures !(s[1..][i] == '.' && s[1..][i + 1] == '.')
    {
      assert !(s[i + 1] == '.' && s[i + 1 + 1] == '.');
    }
  }

  lemma {:induction false} UncutDots(s: string)
    requires NoDoubleDot(s)
    ensures CutDots(s) == (s, None)
  {
    if |s| >= 2 {
      NoDoubleDotRest(s);
      UncutDots(s[1..]);
      assert !(s[0] == '.' && s[0 + 1] == '.');
      assert [s[0]] + s[1..] == s;
    }
  }

  lemma {:induction false} CutDotsAt(low: string, rest: string)
    requires NoDoubleDot(low) && (low != "" ==> low[|low| - 1] != '.')
    ensures CutDots(low + ".." + rest) == (low, Some(rest))
  {
    var s := low + ".." + rest;
    if low == "" {
      assert s[2..] == rest;
    } else {
      NoDoubleDotRest(low);
      CutDotsAt(low[1..], rest);
      assert s[1..] == low[1..] + ".." + rest;
      assert [low[0]] + low[1..] == low;
      assert |low| > 1 ==> !(low[0] == '.' && low[0 + 1] == '.');
    }
  }

  /** Two texts joined by two dots are the two ends, the first one the lower. */
  lemma {:induction false} EndsOfBetween(low: string, high: string)
    requires NoDoubleDot(low) && NoDoubleDot(high) && (low != "" ==> low[|low| - 1] != '.')
    ensures BetweenParts(low + ".." + high) == (low, Some(high))
  {
    CutDotsAt(low, high);
    UncutDots(high);
  }

  lemma {:induction false} DecimalHasNoDoubleDot(i: int)
    ensures NoDoubleDot(Decimal(i)) && Decimal(i)[|Decimal(i)| - 1] != '.'
  {
    DecimalHasNoDot(i);
    hide Decimal;
    var s := Decimal(i);
    assert forall k :: 0 <= k < |s| ==> s[k] in s;
  }

  /** `a..b` asks for the integers from a to b, both included. */
  lemma {:induction false} IntegerBetween(env: Env, f: ApiFilter, a: int, b: int, record: Record)
    requires !IsDate(f)
    ensures RangeConstraint(env, f, "between", Decimal(a) + ".." + Decimal(b)).Success?
    ensures Holds(RangeConstraint(env, f, "between", Decimal(a) + ".." + Decimal(b)).value, record) <==>
            HasInt(record, f.property) && a <= Get(record, f.property).i <= b
  {
    DecimalHasNoDoubleDot(a);
    DecimalHasNoDoubleDot(b);
    EndsOfBetween(Decimal(a), Decimal(b));
    WrittenBound(env, f, a);
    WrittenBound(env, f, b);
    hide RangeBound, Decimal, BetweenParts, NoDoubleDot;
    var c := RangeConstraint(env, f, "between", Decimal(a) + ".." + Decimal(b)).value;
    assert Holds(c, record) <==> Holds(c.parts[0], record) && Holds(c.parts[1], record);
  }

  /** With the datetime strategy the ends are the dates of the two texts. */
  lemma {:induction false} DateBetween(env: Env, f: ApiFilter, low: string, high: string, record: Record)
    requires IsDate(f) && NoDoubleDot(low) && NoDoubleDot(high) && (low != "" ==> low[|low| - 1] != '.')
    ensures var r := RangeConstraint(env, f, "between", low + ".." + high);
      && (r.Success? <==> env.date(low).Some? && env.date(high).Some?)
      && (r.Success? ==>
            (Holds(r.value, record) <==>
               HasInt(record, f.property) &&
               env.date(low).value <= Get(record, f.property).i <= env.date(high).value))
  {
    EndsOfBetween(low, high);
    hide BetweenParts, NoDoubleDot;
    var r := RangeConstraint(env, f, "between", low + ".." + high);
    if r.Success? {
      assert Holds(r.value, record) <==> Holds(r.value.parts[0], record) && Holds(r.value.parts[1], record);
    }
  }

  // ---------------------------------------------------------------- booleans and numbers

  /** A boolean filter asks for 1 for the words 1, true, on and yes, in any case and between blanks; else for 0. */
  lemma {:induction false} BooleanWords(env: Env, f: ApiFilter, front: string, word: string, back: string,
                                        record: Record)
    requires f.kind == BooleanFilter && AllTrimmed(front) && AllTrimmed(back)
    requires word != "" ==> !IsTrimmed(word[0]) && !IsTrimmed(word[|word| - 1])
    ensures var r := Apply(env, f, Scalar(front + word + back));
      && r.Success? && r.value.Constrain?
      && (Holds(r.value.c, record) <==>
            Get(record, f.property) ==
              IntDatum(if Lower(word) == "1" || Lower(word) == "true" || Lower(word) == "on" || Lower(word) == "yes"
                       then 1 else 0))
  {
    TrimmedWord(front, word, back);
    hide TrimStart, TrimEnd, Lower;
  }

  predicate IsTrimmed(c: char) {
    c == ' ' || c == '\t' || c == '\n' || c == '\r' || c == 11 as char
  }

  predicate AllTrimmed(s: string) {
    forall i :: 0 <= i < |s| ==> IsTrimmed(s[i])
  }

  lemma {:induction false} TrimmedWord(front: string, word: string, back: string)
    requires AllTrimmed(front) && AllTrimmed(back)
    requires word != "" ==> !IsTrimmed(word[0]) && !IsTrimmed(word[|word| - 1])
    ensures TrimEnd(TrimStart(front + word + back)) == word
  {
    TrimmedFront(front, word + back);
    assert front + word + back == front + (word + back);
    if word == "" {
      assert word + back == back;
      TrimmedFront(back, "");
      assert back + "" == back;
    } else {
      assert TrimStart(word + back) == word + back;
      TrimmedBack(word, back);
    }
  }

  lemma {:induction false} TrimmedFront(front: string, s: string)
    requires AllTrimmed(front)
    ensures TrimStart(front + s) == TrimStart(s)
  {
    if front == "" {
      assert front + s == s;
    } else {
      assert (front + s)[1..] == front[1..] + s;
      TrimmedFront(front[1..], s);
    }
  }

  lemma {:induction false} TrimmedBack(s: string, back: string)
    requires AllTrimmed(back) && s != "" && !IsTrimmed(s[|s| - 1])
    ensures TrimEnd(s + back) == s
  {
    if back == "" {
      assert s + back == s;
    } else {
      var n := |back| - 1;
      assert (s + back)[..|s + back| - 1] == s + back[..n] && (s + back)[|s + back| - 1] == back[n];
      TrimmedBack(s, back[..n]);
    }
  }

  /** A boolean array parameter counts for its entry 0 alone; without one it asks for 0. */
  lemma {:induction false} BooleanArray(env: Env, f: ApiFilter, entries: seq<(string, string)>, text: string,
                                        record: Record)
    requires f.kind == BooleanFilter && Distinct(entries)
    ensures ("0", text) in entries ==> Apply(env, f, Assoc(entries)) == Apply(env, f, Scalar(text))
    ensures (forall e :: e in entries ==> e.0 != "0") ==> Apply(env, f, Assoc(entries)) == Apply(env, f, Scalar(""))
  {
    if ("0", text) in entries {
      var i :| 0 <= i < |entries| && entries[i] == ("0", text);
      LookupAt(entries, i);
    }
    hide ToBoolean;
  }

  /** The texts that a parameter gives: itself, or those of its entries. */
  ghost predicate GivesText(v: ParamValue, text: string) {
    v == Scalar(text) || (v.Assoc? && exists key :: (key, text) in v.entries)
  }

  lemma {:induction false} ValuesGiven(v: ParamValue, text: string)
    ensures text in Values(v) <==> GivesText(v, text)
  {
    if v.Assoc? {
      if key :| (key, text) in v.entries {
        var i :| 0 <= i < |v.entries| && v.entries[i] == (key, text);
        assert Values(v)[i] == text;
      }
      if text in Values(v) {
        var i :| 0 <= i < |v.entries| && Values(v)[i] == text;
        assert (v.entries[i].0, text) in v.entries;
      }
    }
  }

  ghost predicate GivesDecimals(v: ParamValue) {
    forall text :: GivesText(v, text) ==> exists n :: text == Decimal(n)
  }

  /** A numeric filter finds the integers that its texts are, written in decimal. */
  lemma {:induction false} NumericAsks(env: Env, f: ApiFilter, v: ParamValue, record: Record)
    requires f.kind == NumericFilter && GivesDecimals(v)
    ensures var r := Apply(env, f, v);
      && r.Success? && r.value.Constrain?
      && (Holds(r.value.c, record) <==>
            HasInt(record, f.property) && GivesText(v, Decimal(Get(record, f.property).i)))
  {
    hide IntCast, Decimal, GivesText, Values;
    var datum := Get(record, f.property);
    CastDataMember(Values(v), datum);
    hide CastData;
    forall x | x in Values(v)
      ensures GivesText(v, x) && x == Decimal(IntCast(x))
    {
      ValuesGiven(v, x);
      var n :| x == Decimal(n);
      IntCastDecimal(n);
    }
    if datum.IntDatum? {
      ValuesGiven(v, Decimal(datum.i));
      IntCastDecimal(datum.i);
    }
  }

  /** A search for words finds the texts given, or those that contain one of them. */
  lemma {:induction false} WordsAsked(env: Env, f: ApiFilter, v: ParamValue, record: Record)
    requires f.kind == SearchFilter && f.strategy != "matchAgainst"
    requires f.strategy == "partial" ==> forall text :: GivesText(v, text) ==> WildcardFree(text)
    ensures var r := Apply(env, f, v);
      && r.Success? && r.value.Constrain?
      && (Holds(r.value.c, record) <==>
            Get(record, f.property).TextDatum? &&
            var found := Get(record, f.property).s;
            if f.strategy == "partial" then exists text :: GivesText(v, text) && Contains(found, text)
            else GivesText(v, found))
  {
    hide Values, GivesText, WildcardFree, Contains, Holds, Apply;
    forall text
      ensures text in Values(v) <==> GivesText(v, text)
    {
      ValuesGiven(v, text);
    }
    SearchMeaning(env, f, v, record);
  }

  // ---------------------------------------------------------------- orderings

  predicate Word(s: string, word: string) {
    Lower(s) == word
  }

  lemma {:induction false} UpperWords(s: string)
    ensures Upper(s) == "ASC" <==> Word(s, "asc")
    ensures Upper(s) == "DESC" <==> Word(s, "desc")
    ensures Upper(s) == "" <==> s == ""
  {
    SameInAnyCase(s, "asc");
    SameInAnyCase(s, "desc");
    assert Lower("asc") == "asc" && Upper("asc") == "ASC";
    assert Lower("desc") == "desc" && Upper("desc") == "DESC";
  }

  /**
   An order filter orders by its property when the parameter has it as a key: ascending for asc and
   descending for desc, in any case, the strategy standing in for an empty text. Nothing is asked where
   neither says anything, and any other word is refused.
   */
  lemma {:induction false} OrderAsks(env: Env, f: ApiFilter, entries: seq<(string, string)>, requested: string)
    requires f.kind == OrderFilter && Distinct(entries) && (f.property, requested) in entries
    ensures var r := Apply(env, f, Assoc(entries));
      var word := if requested == "" then f.strategy else requested;
      && (Lower(word) == "asc" ==> r == Success(Order(f.property, ASC)))
      && (Lower(word) == "desc" ==> r == Success(Order(f.property, DESC)))
      && (word == "" ==> r == Success(Nothing))
      && (word != "" && Lower(word) != "asc" && Lower(word) != "desc" ==> r.Failure?)
  {
    var i :| 0 <= i < |entries| && entries[i] == (f.property, requested);
    LookupAt(entries, i);
    UpperWords(if requested == "" then f.strategy else requested);
    assert "ASC" != "" && "DESC" != "";
    hide Upper, Lower, Lookup;
  }

  lemma {:induction false} OrderNotAsked(env: Env, f: ApiFilter, v: ParamValue)
    requires f.kind == OrderFilter
    requires v.Scalar? || forall e :: e in v.entries ==> e.0 != f.property
    ensures Apply(env, f, v) == Success(Nothing)
  {
  }

  // ---------------------------------------------------------------- the circle of a distance filter

  /**
   Latitude and longitude are the entries of these names, both required. The client's radius counts only
   where it is allowed; otherwise the configured one, or 100. The sphere is measured in miles or kilometers.
   */
  lemma {:induction false} CircleAsked(a: Arguments, entries: seq<(string, string)>)
    requires Distinct(entries)
    ensures CircleOf(a, entries).Success? <==>
            (exists e :: e in entries && e.0 == "lat") && (exists e :: e in entries && e.0 == "lng")
    ensures CircleOf(a, entries).Success? ==>
      var circle := CircleOf(a, entries).value;
      && ("lat", circle.lat) in entries && ("lng", circle.lng) in entries
      && circle.multiplier == (if a.miles then 3959 else 6371)
      && (forall text :: a.allowClientRadius && ("radius", text) in entries ==> circle.radius == text)
      && (!a.allowClientRadius || (forall e :: e in entries ==> e.0 != "radius") ==>
            circle.radius == if a.radius.Some? then a.radius.value else "100")
  {
    forall text | ("radius", text) in entries
      ensures Lookup(entries, "radius") == Some(text)
    {
      var i :| 0 <= i < |entries| && entries[i] == ("radius", text);
      LookupAt(entries, i);
    }
  }

  // ---------------------------------------------------------------- parameter names

  /** The name configured, by default `order` for order filters and the property for others; dots become underscores. */
  lemma {:induction false} ParameterNameIs(f: ApiFilter, i: nat)
    ensures var plain :=
              if f.parameterName.Some? then f.parameterName.value
              else if f.kind == OrderFilter then "order" else f.property;
      && |ParameterName(f)| == |plain|
      && (i < |plain| ==> ParameterName(f)[i] == if plain[i] == '.' then '_' else plain[i])
  {
  }

  // ---------------------------------------------------------------- refused parameters

  predicate IsOperator(operator: string) {
    operator == "between" || operator == "gt" || operator == "gte" || operator == "lt" || operator == "lte"
  }

  /** For integers, a range parameter is refused exactly for a value that is no array or an operator that is unknown. */
  lemma {:induction false} IntegerRangeAccepted(env: Env, f: ApiFilter, v: ParamValue)
    requires f.kind == RangeFilter && !IsDate(f)
    ensures Apply(env, f, v).Success? <==> v.Assoc? && forall e :: e in v.entries ==> IsOperator(e.0)
    ensures Apply(env, f, v).Success? ==> (Apply(env, f, v).value.Constrain? <==> v.entries != [])
  {
    if v.Assoc? {
      OperatorsAccepted(env, f, v.entries);
      hide RangeConstraints;
    }
  }

  lemma {:induction false} OperatorsAccepted(env: Env, f: ApiFilter, entries: seq<(string, string)>)
    requires !IsDate(f)
    ensures RangeConstraints(env, f, entries).Success? <==> forall e :: e in entries ==> IsOperator(e.0)
  {
    if entries != [] {
      var init, last := entries[..|entries| - 1], entries[|entries| - 1];
      OperatorsAccepted(env, f, init);
      assert entries == init + [last];
      assert RangeConstraint(env, f, last.0, last.1).Success? <==> IsOperator(last.0);
    }
  }

  /**
   The other filters: a search is refused when its joins cannot be made, a contain or distance filter also
   when the value is no array, a distance filter also without a coordinate. Numbers and booleans never are.
   */
  lemma {:induction false} OthersAccepted(env: Env, f: ApiFilter, v: ParamValue)
    requires f.kind != RangeFilter && f.kind != OrderFilter
    ensures Apply(env, f, v).Success? <==>
      match f.kind
      case SearchFilter => f.strategy == "matchAgainst" ==> CanJoin(env.source, f.property)
      case ContainFilter => v.Assoc? && CanJoin(env.source, f.property)
      case DistanceFilter =>
        v.Assoc? && Has(v.entries, "lat") && Has(v.entries, "lng") &&
        CanJoin(env.source, f.arguments.latProperty) && CanJoin(env.source, f.arguments.lngProperty)
      case _ => true
    ensures Apply(env, f, v).Success? ==> Apply(env, f, v).value.Constrain?
  {
    hide CanJoin, Ids;
  }

  /** A filter is applied when it is granted and the request has its parameter, and then to the value there. */
  lemma {:induction false} RequestedIs(params: QueryParams, f: ApiFilter, v: ParamValue)
    requires Distinct(params)
    ensures IsRequested(params, f) <==> exists e :: e in params && e.0 == ParameterName(f)
    ensures (ParameterName(f), v) in params ==> IsRequested(params, f) && ValueFor(params, f) == v
  {
    hide ParameterName;
    if (ParameterName(f), v) in params {
      var i :| 0 <= i < |params| && params[i] == (ParameterName(f), v);
      LookupAt(params, i);
    }
  }
}
