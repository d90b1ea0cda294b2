/** PHP arrays with string keys: ordered maps as sequences of pairs. */
module OrderedMap {
  import opened Wrappers

  predicate Has<V>(m: seq<(string, V)>, key: string) {
    exists i :: 0 <= i < |m| && m[i].0 == key
  }

  ghost predicate Distinct<V>(m: seq<(string, V)>) {
    forall i, j :: 0 <= i < j < |m| ==> m[i].0 != m[j].0
  }

  function Lookup<V>(m: seq<(string, V)>, key: string): (r: Option<V>)
    ensures r.Some? <==> Has(m, key)
    ensures r.Some? ==> (key, r.value) in m
  {
    if m == [] then None
    else if m[0].0 == key then Some(m[0].1)
    else Lookup(m[1..], key)
  }

  /** `array_search($key, array_keys($m), true)`, where the result false counts as 0 in arithmetic. */
  function Position<V>(m: seq<(string, V)>, key: string): (i: nat)
    ensures Has(m, key) ==> i < |m| && m[i].0 == key
    ensures !Has(m, key) ==> i == 0
  {
    if !Has(m, key) || m[0].0 == key then 0
    else
      assert Has(m[1..], key) by {
        var i :| 0 <= i < |m| && m[i].0 == key;
        assert m[1..][i - 1].0 == key;
      }
      1 + Position(m[1..], key)
  }

  /** `$m[$key] = $value`: an existing entry keeps its place. */
  function Put<V>(m: seq<(string, V)>, key: string, value: V): seq<(string, V)> {
    if m == [] then [(key, value)]
    else if m[0].0 == key then [(key, value)] + m[1..]
    else [m[0]] + Put(m[1..], key, value)
  }

  /** `$m[$key][] = $value`, with an empty list when there is no entry yet. */
  function Append<V>(m: seq<(string, seq<V>)>, key: string, value: V): seq<(string, seq<V>)> {
    Put(m, key, Lookup(m, key).GetOr([]) + [value])
  }

  lemma {:induction false} PutLookup<V>(m: seq<(string, V)>, key: string, value: V, other: string)
    ensures Lookup(Put(m, key, value), other) == if other == key then Some(value) else Lookup(m, other)
  {
    if m != [] {
      PutLookup(m[1..], key, value, other);
    }
  }

  lemma {:induction false} PutKeys<V>(m: seq<(string, V)>, key: string, value: V)
    ensures |Put(m, key, value)| == if Has(m, key) then |m| else |m| + 1
    ensures forall i :: 0 <= i < |m| ==> Put(m, key, value)[i].0 == m[i].0
    ensures !Has(m, key) ==> Put(m, key, value) == m + [(key, value)]
  {
    if m != [] {
      PutKeys(m[1..], key, value);
      assert m == [m[0]] + m[1..];
    }
  }

  lemma {:induction false} PutDistinct<V>(m: seq<(string, V)>, key: string, value: V)
    requires Distinct(m)
    ensures Distinct(Put(m, key, value))
  {
    hide Put;
    PutKeys(m, key, value);
  }

  lemma {:induction false} PutTwice<V>(m: seq<(string, V)>, key: string, a: V, b: V)
    ensures Put(Put(m, key, a), key, b) == Put(m, key, b)
  {
    if m != [] && m[0].0 != key {
      PutTwice(m[1..], key, a, b);
    }
  }

  lemma {:induction false} PermutedHas<V>(m: seq<(string, V)>, m': seq<(string, V)>, key: string)
    requires Distinct(m) && Distinct(m') && multiset(m) == multiset(m') && Has(m, key)
    ensures Has(m', key) && Lookup(m, key) == Lookup(m', key)
  {
    var i :| 0 <= i < |m| && m[i].0 == key;
    assert m[i] in multiset(m');
    var j :| 0 <= j < |m'| && m'[j] == m[i];
    LookupAt(m, i);
    LookupAt(m', j);
  }

  /** Looking up a key does not depend on the order of the entries. */
  lemma {:induction false} PermutedLookup<V>(m: seq<(string, V)>, m': seq<(string, V)>, key: string)
    requires Distinct(m) && Distinct(m') && multiset(m) == multiset(m')
    ensures Lookup(m, key) == Lookup(m', key)
  {
    if Has(m, key) {
      PermutedHas(m, m', key);
    }
    if Has(m', key) {
      PermutedHas(m', m, key);
    }
  }

  lemma {:induction false} LookupAt<V>(m: seq<(string, V)>, i: nat)
    requires i < |m| && Distinct(m)
    ensures Lookup(m, m[i].0) == Some(m[i].1)
  {
    if i > 0 {
      LookupAt(m[1..], i - 1);
    }
  }

  lemma {:induction false} PositionAt<V>(m: seq<(string, V)>, i: nat)
    requires i < |m| && Distinct(m)
    ensures Position(m, m[i].0) == i
  {
  }
}
