/** The filter compiler: granted and requested filters, sorted, become one constraint and one ORDER BY list. */
module Repository {
  import opened OrderedMap
  import opened Filters

  // ---------------------------------------------------------------- choosing and sorting filters

  function Granted(filters: seq<ApiFilter>, isGranted: ApiFilter -> bool): (r: seq<ApiFilter>)
    ensures forall f :: f in r <==> f in filters && isGranted(f)
  {
    if filters == [] then []
    else Granted(filters[..|filters| - 1], isGranted) +
         if isGranted(filters[|filters| - 1]) then [filters[|filters| - 1]] else []
  }

  predicate IsRequested(params: QueryParams, f: ApiFilter) {
    Has(params, ParameterName(f))
  }

  function Requested(filters: seq<ApiFilter>, params: QueryParams): (r: seq<ApiFilter>)
    ensures forall f :: f in r <==> f in filters && IsRequested(params, f)
  {
    Granted(filters, f => IsRequested(params, f))
  }

  function ValueFor(params: QueryParams, f: ApiFilter): ParamValue
    requires IsRequested(params, f)
  {
    Lookup(params, ParameterName(f)).value
  }

  /** The comparator passed to usort. */
  function Comparator(params: QueryParams, a: ApiFilter, b: ApiFilter): int
    requires IsRequested(params, a) && IsRequested(params, b)
  {
    var value := ValueFor(params, a);
    if value.Assoc? && ParameterName(a) == ParameterName(b) && a.property != b.property
    then Position(value.entries, a.property) - Position(value.entries, b.property)
    else Position(params, ParameterName(a)) - Position(params, ParameterName(b))
  }

  /** Position of the parameter, then position of the property inside an array value. */
  function SortKey(params: QueryParams, f: ApiFilter): (nat, nat)
    requires IsRequested(params, f)
  {
    var value := ValueFor(params, f);
    (Position(params, ParameterName(f)), if value.Assoc? then Position(value.entries, f.property) else 0)
  }

  predicate AtMost(a: (nat, nat), b: (nat, nat)) {
    a.0 < b.0 || (a.0 == b.0 && a.1 <= b.1)
  }

  lemma {:induction false} SamePositionSameName(params: QueryParams, a: ApiFilter, b: ApiFilter)
    requires IsRequested(params, a) && IsRequested(params, b)
    requires Position(params, ParameterName(a)) == Position(params, ParameterName(b))
    ensures ParameterName(a) == ParameterName(b)
  {
  }

  /** The comparator compares filters by their keys, lexicographically; so it is a total preorder. */
  lemma {:induction false} ComparatorIsLexicographic(params: QueryParams, a: ApiFilter, b: ApiFilter)
    requires IsRequested(params, a) && IsRequested(params, b)
    ensures Comparator(params, a, b) <= 0 <==> AtMost(SortKey(params, a), SortKey(params, b))
    ensures Comparator(params, a, b) == 0 <==> SortKey(params, a) == SortKey(params, b)
  {
    if Position(params, ParameterName(a)) == Position(params, ParameterName(b)) {
      SamePositionSameName(params, a, b);
    }
  }

  ghost predicate AllRequested(params: QueryParams, fs: seq<ApiFilter>) {
    forall f :: f in fs ==> IsRequested(params, f)
  }

  ghost predicate Sorted(params: QueryParams, fs: seq<ApiFilter>)
    requires AllRequested(params, fs)
  {
    forall i, j :: 0 <= i < j < |fs| ==> Comparator(params, fs[i], fs[j]) <= 0
  }

  /** The filters with one key, in order. */
  function WithKey(params: QueryParams, fs: seq<ApiFilter>, key: (nat, nat)): (r: seq<ApiFilter>)
    requires AllRequested(params, fs)
    ensures forall f :: f in r <==> f in fs && SortKey(params, f) == key
  {
    if fs == [] then []
    else (if SortKey(params, fs[0]) == key then [fs[0]] else []) + WithKey(params, fs[1..], key)
  }

  /** A sort of fs that keeps the order of filters with equal keys, and so is a permutation. */
  ghost predicate IsStableSort(params: QueryParams, sorted: seq<ApiFilter>, fs: seq<ApiFilter>)
    requires AllRequested(params, fs)
  {
    && AllRequested(params, sorted)
    && Sorted(params, sorted)
    && multiset(sorted) == multiset(fs)
    && forall key :: WithKey(params, sorted, key) == WithKey(params, fs, key)
  }

  function Insert(params: QueryParams, s: seq<ApiFilter>, f: ApiFilter): (r: seq<ApiFilter>)
    requires AllRequested(params, s) && IsRequested(params, f)
    ensures multiset(r) == multiset(s) + multiset{f}
    ensures forall g :: g in r <==> g in s || g == f
  {
    if s == [] || Comparator(params, s[|s| - 1], f) <= 0 then s + [f]
    else
      var init, last := s[..|s| - 1], s[|s| - 1];
      assert s == init + [last];
      Insert(params, init, f) + [last]
  }

  /** usort is stable, so its result is this one whatever algorithm it uses (see StableSortUnique). */
  function Usort(params: QueryParams, fs: seq<ApiFilter>): (r: seq<ApiFilter>)
    requires AllRequested(params, fs)
    ensures multiset(r) == multiset(fs)
    ensures forall g :: g in r <==> g in fs
  {
    if fs == [] then []
    else
      assert fs == fs[..|fs| - 1] + [fs[|fs| - 1]];
      Insert(params, Usort(params, fs[..|fs| - 1]), fs[|fs| - 1])
  }

  lemma {:induction false} WithKeyConcat(params: QueryParams, a: seq<ApiFilter>, b: seq<ApiFilter>, key: (nat, nat))
    requires AllRequested(params, a) && AllRequested(params, b)
    ensures AllRequested(params, a + b)
    ensures WithKey(params, a + b, key) == WithKey(params, a, key) + WithKey(params, b, key)
  {
    if a == [] {
      assert a + b == b;
    } else {
      assert (a + b)[1..] == a[1..] + b;
      WithKeyConcat(params, a[1..], b, key);
    }
  }

  lemma {:induction false} AppendSorted(params: QueryParams, s: seq<ApiFilter>, f: ApiFilter)
    requires AllRequested(params, s) && IsRequested(params, f) && Sorted(params, s)
    requires forall g :: g in s ==> Comparator(params, g, f) <= 0
    ensures AllRequested(params, s + [f]) && Sorted(params, s + [f])
  {
    assert forall i :: 0 <= i < |s| ==> s[i] in s;
  }

  lemma {:induction false} AllBeforeLast(params: QueryParams, s: seq<ApiFilter>, f: ApiFilter)
    requires s != [] && AllRequested(params, s) && IsRequested(params, f) && Sorted(params, s)
    requires Comparator(params, s[|s| - 1], f) <= 0
    ensures forall g :: g in s ==> Comparator(params, g, f) <= 0
  {
    var last := s[|s| - 1];
    forall g | g in s
      ensures Comparator(params, g, f) <= 0
    {
      var i :| 0 <= i < |s| && s[i] == g;
      ComparatorIsLexicographic(params, g, f);
      ComparatorIsLexicographic(params, g, last);
      ComparatorIsLexicographic(params, last, f);
      assert i < |s| - 1 ==> Comparator(params, s[i], s[|s| - 1]) <= 0;
    }
  }

  lemma {:induction false} InsertSorts(params: QueryParams, s: seq<ApiFilter>, f: ApiFilter)
    requires AllRequested(params, s) && IsRequested(params, f) && Sorted(params, s)
    ensures Sorted(params, Insert(params, s, f))
  {
    if s == [] {
      AppendSorted(params, s, f);
    } else if Comparator(params, s[|s| - 1], f) <= 0 {
      AllBeforeLast(params, s, f);
      AppendSorted(params, s, f);
    } else {
      var init, last := s[..|s| - 1], s[|s| - 1];
      InsertSorts(params, init, f);
      ComparatorIsLexicographic(params, f, last);
      ComparatorIsLexicographic(params, last, f);
      assert forall g :: g in init ==> Comparator(params, g, last) <= 0;
      AppendSorted(params, Insert(params, init, f), last);
    }
  }

  lemma {:induction false} WithKeyOne(params: QueryParams, f: ApiFilter, key: (nat, nat))
    requires IsRequested(params, f)
    ensures AllRequested(params, [f])
    ensures WithKey(params, [f], key) == if SortKey(params, f) == key then [f] else []
  {
  }

  /** Moving f in front of a filter with another key does not change the filters with one key. */
  lemma {:induction false} SwapKeepsKeys(params: QueryParams, init: seq<ApiFilter>, last: ApiFilter, f: ApiFilter,
                                         key: (nat, nat))
    requires AllRequested(params, init) && IsRequested(params, last) && IsRequested(params, f)
    requires SortKey(params, last) != SortKey(params, f)
    ensures AllRequested(params, init + [last])
    ensures WithKey(params, init, key) + WithKey(params, [f], key) + WithKey(params, [last], key) ==
            WithKey(params, init + [last], key) + WithKey(params, [f], key)
  {
    WithKeyConcat(params, init, [last], key);
    WithKeyOne(params, last, key);
    WithKeyOne(params, f, key);
    SwapEmpty(WithKey(params, init, key), WithKey(params, [f], key), WithKey(params, [last], key));
  }

  /** Inserting keeps the order among filters with equal keys. */
  lemma {:induction false} InsertKeepsKeys(params: QueryParams, s: seq<ApiFilter>, f: ApiFilter, key: (nat, nat))
    requires AllRequested(params, s) && IsRequested(params, f)
    ensures WithKey(params, Insert(params, s, f), key) == WithKey(params, s, key) + WithKey(params, [f], key)
  {
    hide Comparator, SortKey, WithKey;
    if s == [] {
      WithKeyConcat(params, s, [f], key);
    } else if Comparator(params, s[|s| - 1], f) <= 0 {
      WithKeyConcat(params, s, [f], key);
    } else {
      var init, last := s[..|s| - 1], s[|s| - 1];
      InsertKeepsKeys(params, init, f, key);
      WithKeyConcat(params, Insert(params, init, f), [last], key);
      ComparatorIsLexicographic(params, last, f);
      SwapKeepsKeys(params, init, last, f, key);
      assert s == init + [last];
    }
  }

  lemma {:induction false} SwapEmpty<T>(a: seq<T>, b: seq<T>, c: seq<T>)
    requires b == [] || c == []
    ensures a + b + c == a + c + b
  {
  }

  lemma {:induction false} UsortIsStableSort(params: QueryParams, fs: seq<ApiFilter>)
    requires AllRequested(params, fs)
    ensures IsStableSort(params, Usort(params, fs), fs)
  {
    if fs != [] {
      var init, last := fs[..|fs| - 1], fs[|fs| - 1];
      assert fs == init + [last];
      UsortIsStableSort(params, init);
      InsertSorts(params, Usort(params, init), last);
      forall key
        ensures WithKey(params, Usort(params, fs), key) == WithKey(params, fs, key)
      {
        InsertKeepsKeys(params, Usort(params, init), last, key);
        WithKeyConcat(params, init, [last], key);
      }
    }
  }

  lemma {:induction false} SameFirst(params: QueryParams, a: seq<ApiFilter>, b: seq<ApiFilter>)
    requires AllRequested(params, a) && AllRequested(params, b) && Sorted(params, a) && Sorted(params, b)
    requires forall key :: WithKey(params, a, key) == WithKey(params, b, key)
    requires a != []
    ensures b != [] && a[0] == b[0]
  {
    var k := SortKey(params, a[0]);
    assert a[0] in WithKey(params, a, k);
    assert a[0] in WithKey(params, b, k);
    var l := SortKey(params, b[0]);
    assert b[0] in WithKey(params, b, l);
    assert b[0] in WithKey(params, a, l);
    var i :| 0 <= i < |b| && b[i] == a[0];
    var j :| 0 <= j < |a| && a[j] == b[0];
    ComparatorIsLexicographic(params, b[0], a[0]);
    ComparatorIsLexicographic(params, a[0], b[0]);
    assert k == l;
    assert WithKey(params, a, k)[0] == a[0];
    assert WithKey(params, b, k)[0] == b[0];
  }

  /** Any stable sort by the comparator is the same list. */
  lemma {:induction false} StableSortUnique(params: QueryParams, a: seq<ApiFilter>, b: seq<ApiFilter>)
    requires AllRequested(params, a) && AllRequested(params, b) && Sorted(params, a) && Sorted(params, b)
    requires forall key :: WithKey(params, a, key) == WithKey(params, b, key)
    ensures a == b
    decreases |a|
  {
    if a == [] {
      if b != [] {
        SameFirst(params, b, a);
      }
    } else {
      SameFirst(params, a, b);
      forall key
        ensures WithKey(params, a[1..], key) == WithKey(params, b[1..], key)
      {
        assert WithKey(params, a, key) == WithKey(params, b, key);
        var head := if SortKey(params, a[0]) == key then [a[0]] else [];
        assert (head + WithKey(params, a[1..], key))[|head|..] == WithKey(params, a[1..], key);
        assert (head + WithKey(params, b[1..], key))[|head|..] == WithKey(params, b[1..], key);
      }
      StableSortUnique(params, a[1..], b[1..]);
    }
  }
}
