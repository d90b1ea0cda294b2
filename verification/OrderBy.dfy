/**
 The ORDER BY list. Requested orderings are slots: a parameter and a key of its array value, in the order of
 the request. A property is ordered at its first slot, in the direction given at its last one.
 */
module OrderBy {
  import opened Wrappers
  import opened OrderedMap
  import opened Filters
  import opened Repository
  import opened FilteredQuery

  /** A parameter name and a key of its value. */
  type Slot = (string, string)

  function SlotsOf(name: string, v: ParamValue): seq<Slot> {
    if v.Scalar? then [] else seq(|v.entries|, i requires 0 <= i < |v.entries| => (name, v.entries[i].0))
  }

  /** All slots of a request, in its order. */
  function Slots(params: QueryParams): seq<Slot> {
    if params == [] then []
    else
      var n := |params| - 1;
      Slots(params[..n]) + SlotsOf(params[n].0, params[n].1)
  }

  /** The direction that a filter gives at a slot: the requested one, or its default. */
  function DirectionOf(f: ApiFilter, params: QueryParams, slot: Slot): Option<Direction> {
    if f.kind != OrderFilter || ParameterName(f) != slot.0 || f.property != slot.1 || !Has(params, slot.0) then None
    else match OrderEffect(f, Lookup(params, slot.0).value)
      case Success(Order(_, d)) => Some(d)
      case _ => None
  }

  /** The direction given at a slot by the last filter that gives one. */
  function LastDirection(fs: seq<ApiFilter>, params: QueryParams, slot: Slot): Option<Direction> {
    if fs == [] then None
    else
      var last := DirectionOf(fs[|fs| - 1], params, slot);
      if last.Some? then last else LastDirection(fs[..|fs| - 1], params, slot)
  }

  /** Slot by slot: a property keeps its place and takes the later direction. */
  function Merged(slots: seq<Slot>, fs: seq<ApiFilter>, params: QueryParams): seq<(string, Direction)> {
    if slots == [] then []
    else
      var init, slot := slots[..|slots| - 1], slots[|slots| - 1];
      var d := LastDirection(fs, params, slot);
      if d.Some? then Put(Merged(init, fs, params), slot.1, d.value) else Merged(init, fs, params)
  }

  /** The parameters of a request as PHP keeps them: no name twice, and no key twice in an array. */
  ghost predicate IsRequest(params: QueryParams) {
    Distinct(params) && forall i :: 0 <= i < |params| && params[i].1.Assoc? ==> Distinct(params[i].1.entries)
  }

  // ---------------------------------------------------------------- what the merged list is

  /** The properties ordered at some slot, each where it first occurs. */
  function FirstKeys(slots: seq<Slot>, fs: seq<ApiFilter>, params: QueryParams): seq<string> {
    if slots == [] then []
    else
      var init, slot := slots[..|slots| - 1], slots[|slots| - 1];
      var keys := FirstKeys(init, fs, params);
      if LastDirection(fs, params, slot).Some? && slot.1 !in keys then keys + [slot.1] else keys
  }

  /** The direction given at the last slot of a property that has one. */
  function LastSlotDirection(slots: seq<Slot>, fs: seq<ApiFilter>, params: QueryParams, key: string)
      : Option<Direction>
  {
    if slots == [] then None
    else
      var slot := slots[|slots| - 1];
      var d := LastDirection(fs, params, slot);
      if slot.1 == key && d.Some? then d else LastSlotDirection(slots[..|slots| - 1], fs, params, key)
  }

  ghost predicate HasKeys(m: seq<(string, Direction)>, keys: seq<string>) {
    |m| == |keys| && forall i :: 0 <= i < |m| ==> m[i].0 == keys[i]
  }

  lemma {:induction false} PutKeepsKeys(m: seq<(string, Direction)>, keys: seq<string>, key: string, d: Direction)
    requires HasKeys(m, keys)
    ensures Has(m, key) <==> key in keys
    ensures HasKeys(Put(m, key, d), if key in keys then keys else keys + [key])
  {
    hide Put;
    PutKeys(m, key, d);
    if key in keys {
      var i :| 0 <= i < |keys| && keys[i] == key;
      assert m[i].0 == key;
    }
  }

  /** Each property once, at its first slot with a direction, in the direction of its last such slot. */
  lemma {:induction false} MergedMeaning(slots: seq<Slot>, fs: seq<ApiFilter>, params: QueryParams, key: string)
    ensures HasKeys(Merged(slots, fs, params), FirstKeys(slots, fs, params))
    ensures Distinct(Merged(slots, fs, params))
    ensures Lookup(Merged(slots, fs, params), key) == LastSlotDirection(slots, fs, params, key)
  {
    if slots != [] {
      var init, slot := slots[..|slots| - 1], slots[|slots| - 1];
      MergedMeaning(init, fs, params, key);
      var d := LastDirection(fs, params, slot);
      hide LastDirection, Put, Lookup, Distinct, HasKeys;
      if d.Some? {
        PutKeepsKeys(Merged(init, fs, params), FirstKeys(init, fs, params), slot.1, d.value);
        PutDistinct(Merged(init, fs, params), slot.1, d.value);
        PutLookup(Merged(init, fs, params), slot.1, d.value, key);
      }
    }
  }

  // ---------------------------------------------------------------- slots and sort keys

  /** The index of the parameter of the x-th slot, and of its key in the array. */
  function SlotIndex(params: QueryParams, x: nat): (nat, nat)
    requires x < |Slots(params)|
  {
    var n := |params| - 1;
    if x < |Slots(params[..n])| then SlotIndex(params[..n], x) else (n, x - |Slots(params[..n])|)
  }

  lemma {:induction false} SlotAt(params: QueryParams, x: nat)
    requires x < |Slots(params)|
    ensures var (i, e) := SlotIndex(params, x);
      && i < |params| && params[i].1.Assoc? && e < |params[i].1.entries|
      && Slots(params)[x] == (params[i].0, params[i].1.entries[e].0)
  {
    assert params != [];
    var n := |params| - 1;
    var init, own := Slots(params[..n]), SlotsOf(params[n].0, params[n].1);
    assert Slots(params) == init + own;
    if x < |init| {
      SlotAt(params[..n], x);
      var (i, e) := SlotIndex(params[..n], x);
      assert SlotIndex(params, x) == (i, e) && params[..n][i] == params[i];
    } else {
      assert Slots(params)[x] == own[x - |init|];
    }
  }

  predicate Before(a: (nat, nat), b: (nat, nat)) {
    a.0 < b.0 || (a.0 == b.0 && a.1 < b.1)
  }

  lemma {:induction false} SlotsInOrder(params: QueryParams, x: nat, y: nat)
    requires x < y < |Slots(params)|
    ensures Before(SlotIndex(params, x), SlotIndex(params, y))
  {
    var n := |params| - 1;
    if y < |Slots(params[..n])| {
      SlotsInOrder(params[..n], x, y);
    } else if x < |Slots(params[..n])| {
      SlotAt(params[..n], x);
    }
  }

  /** A filter that gives a direction at the x-th slot is sorted by the slot's indices. */
  lemma {:induction false} SlotIsSortKey(params: QueryParams, f: ApiFilter, x: nat)
    requires IsRequest(params) && x < |Slots(params)| && DirectionOf(f, params, Slots(params)[x]).Some?
    ensures IsRequested(params, f) && SortKey(params, f) == SlotIndex(params, x)
  {
    SlotAt(params, x);
    var (i, e) := SlotIndex(params, x);
    PositionAt(params, i);
    LookupAt(params, i);
    PositionAt(params[i].1.entries, e);
  }

  lemma {:induction false} SlotsDistinct(params: QueryParams, x: nat, y: nat)
    requires IsRequest(params) && x < y < |Slots(params)|
    ensures Slots(params)[x] != Slots(params)[y]
  {
    SlotAt(params, x);
    SlotAt(params, y);
    SlotsInOrder(params, x, y);
  }

  /** A filter that orders has its slot in the request. */
  lemma {:induction false} SlotExists(params: QueryParams, f: ApiFilter) returns (x: nat)
    requires DirectionOf(f, params, (ParameterName(f), f.property)).Some?
    ensures x < |Slots(params)| && Slots(params)[x] == (ParameterName(f), f.property)
  {
    var v := Lookup(params, ParameterName(f)).value;
    var i :| 0 <= i < |params| && params[i] == (ParameterName(f), v);
    var e :| 0 <= e < |v.entries| && v.entries[e].0 == f.property;
    x := SlotOffset(params, i, e);
  }

  lemma {:induction false} SlotOffset(params: QueryParams, i: nat, e: nat) returns (x: nat)
    requires i < |params| && params[i].1.Assoc? && e < |params[i].1.entries|
    ensures x < |Slots(params)| && Slots(params)[x] == (params[i].0, params[i].1.entries[e].0)
  {
    var n := |params| - 1;
    if i == n {
      x := |Slots(params[..n])| + e;
    } else {
      x := SlotOffset(params[..n], i, e);
    }
  }

  // ---------------------------------------------------------------- one more filter

  lemma {:induction false} LastDirectionSnoc(fs: seq<ApiFilter>, f: ApiFilter, params: QueryParams, slot: Slot)
    ensures LastDirection(fs + [f], params, slot) ==
            if DirectionOf(f, params, slot).Some? then DirectionOf(f, params, slot) else LastDirection(fs, params, slot)
  {
    assert (fs + [f])[..|fs|] == fs;
  }

  lemma {:induction false} LastDirectionGiver(fs: seq<ApiFilter>, params: QueryParams, slot: Slot)
    ensures LastDirection(fs, params, slot).Some? ==> exists g :: g in fs && DirectionOf(g, params, slot).Some?
  {
    if fs != [] {
      LastDirectionGiver(fs[..|fs| - 1], params, slot);
      assert fs[|fs| - 1] in fs;
    }
  }

  lemma {:induction false} MergedSame(slots: seq<Slot>, fs: seq<ApiFilter>, gs: seq<ApiFilter>, params: QueryParams)
    requires forall i :: 0 <= i < |slots| ==> LastDirection(fs, params, slots[i]) == LastDirection(gs, params, slots[i])
    ensures Merged(slots, fs, params) == Merged(slots, gs, params)
  {
    hide LastDirection, Put;
    if slots != [] {
      MergedSame(slots[..|slots| - 1], fs, gs, params);
    }
  }

  /** Slots without a direction do not count. */
  lemma {:induction false} MergedPrefix(slots: seq<Slot>, fs: seq<ApiFilter>, params: QueryParams, n: nat)
    requires n <= |slots| && forall i :: n <= i < |slots| ==> LastDirection(fs, params, slots[i]) == None
    ensures Merged(slots, fs, params) == Merged(slots[..n], fs, params)
    decreases |slots|
  {
    hide LastDirection, Put;
    if n == |slots| {
      assert slots[..n] == slots;
    } else {
      var init := slots[..|slots| - 1];
      MergedPrefix(init, fs, params, n);
      assert init[..n] == slots[..n];
    }
  }

  /** In sorted order, no filter orders at a slot after that of the next one. */
  lemma {:induction false} NothingLater(params: QueryParams, fs: seq<ApiFilter>, f: ApiFilter, x: nat, y: nat)
    requires IsRequest(params) && AllRequested(params, fs + [f]) && Sorted(params, fs + [f])
    requires x < y < |Slots(params)| && DirectionOf(f, params, Slots(params)[x]).Some?
    ensures LastDirection(fs, params, Slots(params)[y]) == None
  {
    LastDirectionGiver(fs, params, Slots(params)[y]);
    if g :| g in fs && DirectionOf(g, params, Slots(params)[y]).Some? {
      SlotIsSortKey(params, f, x);
      SlotIsSortKey(params, g, y);
      SlotsInOrder(params, x, y);
      var i :| 0 <= i < |fs| && fs[i] == g;
      assert (fs + [f])[i] == g && (fs + [f])[|fs|] == f;
      ComparatorIsLexicographic(params, g, f);
      assert false;
    }
  }

  /** A filter that gives direction d at the x-th slot: the directions at the other slots stay. */
  lemma {:induction false} OtherSlots(params: QueryParams, fs: seq<ApiFilter>, f: ApiFilter, x: nat, y: nat)
    requires IsRequest(params) && x < |Slots(params)| && y < |Slots(params)| && x != y
    requires DirectionOf(f, params, Slots(params)[x]).Some?
    ensures LastDirection(fs + [f], params, Slots(params)[y]) == LastDirection(fs, params, Slots(params)[y])
  {
    LastDirectionSnoc(fs, f, params, Slots(params)[y]);
    SlotsDistinct(params, if x < y then x else y, if x < y then y else x);
  }

  lemma {:induction false} MergeStep(params: QueryParams, fs: seq<ApiFilter>, f: ApiFilter, d: Direction)
    requires IsRequest(params) && AllRequested(params, fs + [f]) && Sorted(params, fs + [f])
    requires DirectionOf(f, params, (ParameterName(f), f.property)) == Some(d)
    ensures Put(Merged(Slots(params), fs, params), f.property, d) == Merged(Slots(params), fs + [f], params)
  {
    var slots := Slots(params);
    var x := SlotExists(params, f);
    forall y | x < y < |slots|
      ensures LastDirection(fs, params, slots[y]) == None && LastDirection(fs + [f], params, slots[y]) == None
    {
      NothingLater(params, fs, f, x, y);
      OtherSlots(params, fs, f, x, y);
    }
    forall y | 0 <= y < x
      ensures LastDirection(fs + [f], params, slots[..x][y]) == LastDirection(fs, params, slots[..x][y])
    {
      OtherSlots(params, fs, f, x, y);
    }
    LastDirectionSnoc(fs, f, params, slots[x]);
    MergeAt(params, slots, fs, fs + [f], x, d);
  }

  /** Two lists of filters that differ at one slot, after which neither has a direction. */
  lemma {:induction false} MergeAt(params: QueryParams, slots: seq<Slot>, fs: seq<ApiFilter>, gs: seq<ApiFilter>,
                                   x: nat, d: Direction)
    requires x < |slots| && LastDirection(gs, params, slots[x]) == Some(d)
    requires forall y :: x < y < |slots| ==>
      LastDirection(fs, params, slots[y]) == None && LastDirection(gs, params, slots[y]) == None
    requires forall y :: 0 <= y < x ==>
      LastDirection(gs, params, slots[..x][y]) == LastDirection(fs, params, slots[..x][y])
    ensures Put(Merged(slots, fs, params), slots[x].1, d) == Merged(slots, gs, params)
  {
    hide LastDirection, Put;
    MergedPrefix(slots, fs, params, x + 1);
    MergedPrefix(slots, gs, params, x + 1);
    MergedSame(slots[..x], fs, gs, params);
    var init := slots[..x];
    assert slots[..x + 1][..x] == init;
    var before := LastDirection(fs, params, slots[x]);
    if before.Some? {
      PutTwice(Merged(init, fs, params), slots[x].1, before.value, d);
    }
  }

  // ---------------------------------------------------------------- all filters

  /** What the effect of a filter says about its slot. */
  lemma {:induction false} EffectDirection(env: Env, f: ApiFilter, params: QueryParams)
    requires IsRequested(params, f) && Apply(env, f, ValueFor(params, f)).Success?
    ensures match Apply(env, f, ValueFor(params, f)).value
            case Order(p, d) => p == f.property && DirectionOf(f, params, (ParameterName(f), p)) == Some(d)
            case _ => forall slot :: DirectionOf(f, params, slot) == None
  {
  }

  lemma {:induction false} EffectsLast(env: Env, params: QueryParams, init: seq<ApiFilter>, f: ApiFilter)
      returns (effect: Effect)
    requires AllRequested(params, init + [f]) && Effects(env, params, init + [f]).Success?
    ensures f in init + [f] && Apply(env, f, ValueFor(params, f)) == Success(effect)
    ensures Effects(env, params, init).Success?
    ensures Effects(env, params, init + [f]).value == Effects(env, params, init).value + [effect]
  {
    assert f in init + [f];
    assert (init + [f])[..|init|] == init;
    effect := Apply(env, f, ValueFor(params, f)).value;
  }

  lemma {:induction false} OrderingsLast(init: seq<Effect>, effect: Effect)
    ensures Orderings(init + [effect]) ==
            if effect.Order? then Put(Orderings(init), effect.property, effect.direction) else Orderings(init)
  {
    assert (init + [effect])[..|init|] == init;
  }

  lemma {:induction false} EffectMerges(env: Env, params: QueryParams, fs: seq<ApiFilter>, f: ApiFilter, effect: Effect)
    requires IsRequest(params) && AllRequested(params, fs + [f]) && Sorted(params, fs + [f]) && IsRequested(params, f)
    requires Apply(env, f, ValueFor(params, f)) == Success(effect)
    ensures Merged(Slots(params), fs + [f], params) ==
      if effect.Order? then Put(Merged(Slots(params), fs, params), effect.property, effect.direction)
      else Merged(Slots(params), fs, params)
  {
    EffectDirection(env, f, params);
    hide Apply, DirectionOf, LastDirection, Put, Merged;
    if effect.Order? {
      MergeStep(params, fs, f, effect.direction);
    } else {
      forall i | 0 <= i < |Slots(params)|
        ensures LastDirection(fs + [f], params, Slots(params)[i]) == LastDirection(fs, params, Slots(params)[i])
      {
        LastDirectionSnoc(fs, f, params, Slots(params)[i]);
      }
      MergedSame(Slots(params), fs + [f], fs, params);
    }
  }

  lemma {:induction false} SortedInit(params: QueryParams, fs: seq<ApiFilter>)
    requires fs != [] && AllRequested(params, fs) && Sorted(params, fs)
    ensures AllRequested(params, fs[..|fs| - 1]) && Sorted(params, fs[..|fs| - 1])
  {
  }

  /** After every prefix of the applied filters the orderings are those requested from that prefix. */
  lemma {:induction false} OrderingsFollowRequest(env: Env, params: QueryParams, fs: seq<ApiFilter>)
    requires IsRequest(params) && AllRequested(params, fs) && Sorted(params, fs) && Effects(env, params, fs).Success?
    ensures Orderings(Effects(env, params, fs).value) == Merged(Slots(params), fs, params)
  {
    if fs == [] {
      MergedPrefix(Slots(params), fs, params, 0);
    } else {
      var init, f := fs[..|fs| - 1], fs[|fs| - 1];
      assert fs == init + [f];
      SortedInit(params, fs);
      var effect := EffectsLast(env, params, init, f);
      hide Sorted, Merged, Orderings, Put, Apply, Effects;
      OrderingsFollowRequest(env, params, init);
      OrderingsLast(Effects(env, params, init).value, effect);
      EffectMerges(env, params, init, f, effect);
    }
  }

  lemma {:induction false} LastDirectionConcat(a: seq<ApiFilter>, b: seq<ApiFilter>, params: QueryParams, slot: Slot)
    ensures LastDirection(a + b, params, slot) ==
            if LastDirection(b, params, slot).Some?
            then LastDirection(b, params, slot)
            else LastDirection(a, params, slot)
  {
    if b == [] {
      assert a + b == a;
    } else {
      assert (a + b)[..|a + b| - 1] == a + b[..|b| - 1];
      LastDirectionConcat(a, b[..|b| - 1], params, slot);
    }
  }

  lemma {:induction false} LastDirectionOne(f: ApiFilter, params: QueryParams, slot: Slot)
    ensures LastDirection([f], params, slot) == DirectionOf(f, params, slot)
  {
    assert [f][..0] == [];
  }

  /** Only the filters with one sort key decide the direction at a slot. */
  lemma {:induction false} LastDirectionWithKey(params: QueryParams, fs: seq<ApiFilter>, x: nat)
    requires IsRequest(params) && AllRequested(params, fs) && x < |Slots(params)|
    ensures LastDirection(fs, params, Slots(params)[x]) ==
            LastDirection(WithKey(params, fs, SlotIndex(params, x)), params, Slots(params)[x])
  {
    var key, slot := SlotIndex(params, x), Slots(params)[x];
    if fs != [] {
      var head := if SortKey(params, fs[0]) == key then [fs[0]] else [];
      LastDirectionWithKey(params, fs[1..], x);
      assert fs == [fs[0]] + fs[1..];
      if DirectionOf(fs[0], params, slot).Some? {
        SlotIsSortKey(params, fs[0], x);
      }
      hide SortKey, LastDirection, DirectionOf, Slots, SlotIndex;
      LastDirectionOne(fs[0], params, slot);
      LastDirectionConcat([fs[0]], fs[1..], params, slot);
      LastDirectionConcat(head, WithKey(params, fs[1..], key), params, slot);
      LastDirectionNone(params, slot);
    }
  }

  lemma {:induction false} LastDirectionNone(params: QueryParams, slot: Slot)
    ensures LastDirection([], params, slot) == None
  {
  }

  /** Dropping filters that give no direction at a slot does not change its direction. */
  lemma {:induction false} LastDirectionKept(fs: seq<ApiFilter>, keep: ApiFilter -> bool, params: QueryParams,
                                             slot: Slot)
    requires forall f :: f in fs && !keep(f) ==> DirectionOf(f, params, slot) == None
    ensures LastDirection(Granted(fs, keep), params, slot) == LastDirection(fs, params, slot)
  {
    if fs != [] {
      var init, f := fs[..|fs| - 1], fs[|fs| - 1];
      LastDirectionKept(init, keep, params, slot);
      hide DirectionOf;
      if keep(f) {
        LastDirectionSnoc(Granted(init, keep), f, params, slot);
      } else {
        assert Granted(fs, keep) == Granted(init, keep);
      }
    }
  }

  /** The direction at a slot does not depend on the sorting. */
  lemma {:induction false} LastOrderSorted(params: QueryParams, requested: seq<ApiFilter>, x: nat)
    requires IsRequest(params) && AllRequested(params, requested) && x < |Slots(params)|
    ensures LastDirection(Usort(params, requested), params, Slots(params)[x]) ==
            LastDirection(requested, params, Slots(params)[x])
  {
    hide LastDirection, Slots, SlotIndex, Sorted, SortKey;
    UsortIsStableSort(params, requested);
    LastDirectionWithKey(params, Usort(params, requested), x);
    LastDirectionWithKey(params, requested, x);
  }

  /**
   In whatever order the filters are registered, and on however many parameters, the ORDER BY list merges
   the requested slots in request order, each in the direction of the last granted filter for it.
   */
  lemma {:induction false} OrderByFollowsRequest(env: Env, isGranted: ApiFilter -> bool, filters: seq<ApiFilter>,
                                                 params: QueryParams)
    requires IsRequest(params) && Effects(env, params, Applied(filters, isGranted, params)).Success?
    ensures Orderings(Effects(env, params, Applied(filters, isGranted, params)).value) ==
            Merged(Slots(params), Granted(filters, isGranted), params)
  {
    var granted, fs := Granted(filters, isGranted), Applied(filters, isGranted, params);
    UsortIsStableSort(params, Requested(granted, params));
    OrderingsFollowRequest(env, params, fs);
    forall i | 0 <= i < |Slots(params)|
      ensures LastDirection(fs, params, Slots(params)[i]) == LastDirection(granted, params, Slots(params)[i])
    {
      LastOrderSorted(params, Requested(granted, params), i);
      LastDirectionKept(granted, f => IsRequested(params, f), params, Slots(params)[i]);
    }
    MergedSame(Slots(params), fs, granted, params);
  }

  // ---------------------------------------------------------------- order filters on one parameter

  /** The requested keys that some filter orders by, in request order, each with its last direction. */
  function RequestedOrder(name: string, entries: seq<(string, string)>, fs: seq<ApiFilter>, params: QueryParams)
      : (r: seq<(string, Direction)>)
    ensures forall i :: 0 <= i < |r| ==> Has(entries, r[i].0)
  {
    if entries == [] then []
    else
      var n := |entries| - 1;
      var d := LastDirection(fs, params, (name, entries[n].0));
      var init := RequestedOrder(name, entries[..n], fs, params);
      assert forall key :: Has(entries[..n], key) ==> Has(entries, key);
      assert Has(entries, entries[n].0);
      if d.Some? then init + [(entries[n].0, d.value)] else init
  }

  ghost predicate OneOrderParameter(fs: seq<ApiFilter>, name: string) {
    forall f :: f in fs && f.kind == OrderFilter ==> ParameterName(f) == name
  }

  function OwnSlots(slots: seq<Slot>, name: string): seq<Slot> {
    if slots == [] then []
    else
      var n := |slots| - 1;
      OwnSlots(slots[..n], name) + if slots[n].0 == name then [slots[n]] else []
  }

  lemma {:induction false} OwnSlotsConcat(a: seq<Slot>, b: seq<Slot>, name: string)
    ensures OwnSlots(a + b, name) == OwnSlots(a, name) + OwnSlots(b, name)
  {
    if b == [] {
      assert a + b == a;
    } else {
      assert (a + b)[..|a + b| - 1] == a + b[..|b| - 1];
      OwnSlotsConcat(a, b[..|b| - 1], name);
    }
  }

  lemma {:induction false} OwnSlotsAll(slots: seq<Slot>, name: string, own: bool)
    requires forall i :: 0 <= i < |slots| ==> (slots[i].0 == name <==> own)
    ensures OwnSlots(slots, name) == if own then slots else []
  {
    if slots != [] {
      var n := |slots| - 1;
      OwnSlotsAll(slots[..n], name, own);
      assert slots[n].0 == name <==> own;
      assert slots[..n] + [slots[n]] == slots;
    }
  }

  lemma {:induction false} NoOwnSlots(params: QueryParams, name: string)
    requires params == []
    ensures OwnSlots(Slots(params), name) == [] && !Has(params, name)
  {
  }

  lemma {:induction false} LookupSnoc(params: QueryParams, name: string)
    requires Distinct(params) && params != []
    ensures var n := |params| - 1;
      && (Has(params, name) <==> params[n].0 == name || Has(params[..n], name))
      && (params[n].0 == name ==> !Has(params[..n], name))
      && Lookup(params, name) == if params[n].0 == name then Some(params[n].1) else Lookup(params[..n], name)
  {
    var n := |params| - 1;
    LookupAt(params, n);
    if i :| 0 <= i < n && params[i].0 == name {
      LookupAt(params, i);
      assert params[..n][i] == params[i];
      LookupAt(params[..n], i);
    }
  }

  lemma {:induction false} OwnSlotsOf(params: QueryParams, name: string)
    requires Distinct(params)
    ensures OwnSlots(Slots(params), name) == if Has(params, name) then SlotsOf(name, Lookup(params, name).value) else []
  {
    hide Lookup, Has, OwnSlots;
    if params == [] {
      NoOwnSlots(params, name);
    } else {
      var n := |params| - 1;
      var init, own := params[..n], SlotsOf(params[n].0, params[n].1);
      OwnSlotsOf(init, name);
      OwnSlotsConcat(Slots(init), own, name);
      OwnSlotsAll(own, name, params[n].0 == name);
      LookupSnoc(params, name);
    }
  }

  /** Slots of other parameters do not count. */
  lemma {:induction false} MergedOwn(slots: seq<Slot>, fs: seq<ApiFilter>, params: QueryParams, name: string)
    requires OneOrderParameter(fs, name)
    ensures Merged(slots, fs, params) == Merged(OwnSlots(slots, name), fs, params)
  {
    if slots != [] {
      var n := |slots| - 1;
      MergedOwn(slots[..n], fs, params, name);
      if slots[n].0 == name {
        assert OwnSlots(slots, name)[..|OwnSlots(slots, name)| - 1] == OwnSlots(slots[..n], name);
      } else {
        LastDirectionGiver(fs, params, slots[n]);
        assert OwnSlots(slots, name) == OwnSlots(slots[..n], name);
      }
    }
  }

  lemma {:induction false} MergedRequested(name: string, entries: seq<(string, string)>, fs: seq<ApiFilter>,
                                           params: QueryParams)
    requires Distinct(entries)
    ensures Merged(SlotsOf(name, Assoc(entries)), fs, params) == RequestedOrder(name, entries, fs, params)
  {
    if entries != [] {
      var n := |entries| - 1;
      var init, key := entries[..n], entries[n].0;
      MergedRequested(name, init, fs, params);
      var slots := SlotsOf(name, Assoc(entries));
      assert slots[..n] == SlotsOf(name, Assoc(init)) && slots[n] == (name, key);
      var d := LastDirection(fs, params, (name, key));
      hide LastDirection, Put, SlotsOf;
      if d.Some? {
        PutKeys(RequestedOrder(name, init, fs, params), key, d.value);
      }
    }
  }

  /**
   With all order filters on one parameter the ORDER BY list holds the requested keys that have a granted
   order filter with a direction: in request order, each once, in the direction of the last filter for it.
   */
  lemma {:induction false} OneParameterOrder(env: Env, isGranted: ApiFilter -> bool, filters: seq<ApiFilter>,
                                             params: QueryParams, entries: seq<(string, string)>, name: string)
    requires IsRequest(params) && OneOrderParameter(filters, name) && Lookup(params, name) == Some(Assoc(entries))
    requires Effects(env, params, Applied(filters, isGranted, params)).Success?
    ensures Orderings(Effects(env, params, Applied(filters, isGranted, params)).value) ==
            RequestedOrder(name, entries, Granted(filters, isGranted), params)
  {
    OrderByFollowsRequest(env, isGranted, filters, params);
    MergedOwn(Slots(params), Granted(filters, isGranted), params, name);
    OwnSlotsOf(params, name);
    var i :| 0 <= i < |params| && params[i] == (name, Assoc(entries));
    MergedRequested(name, entries, Granted(filters, isGranted), params);
  }
}
