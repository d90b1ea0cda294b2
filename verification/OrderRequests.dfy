/** The ORDER BY list in terms of the request: which keys of which parameters order, in which order and direction. */
module OrderRequests {
  import opened Wrappers
  import opened Php
  import opened OrderedMap
  import opened Filters
  import opened Repository
  import opened FilteredQuery
  import opened FilterTexts
  import opened OrderBy

  /** The e-th entry of the i-th parameter. */
  predicate IsEntry(params: QueryParams, i: nat, e: nat) {
    i < |params| && params[i].1.Assoc? && e < |params[i].1.entries|
  }

  function KeyAt(params: QueryParams, i: nat, e: nat): string
    requires IsEntry(params, i, e)
  {
    params[i].1.entries[e].0
  }

  predicate Earlier(i: nat, e: nat, j: nat, k: nat) {
    i < j || (i == j && e < k)
  }

  /** The filter orders by this entry: its text, or else the strategy, names the direction. */
  predicate AsksAt(f: ApiFilter, params: QueryParams, i: nat, e: nat, d: Direction) {
    && IsEntry(params, i, e) && f.kind == OrderFilter
    && ParameterName(f) == params[i].0 && f.property == KeyAt(params, i, e)
    && var text := params[i].1.entries[e].1;
       Lower(if text == "" then f.strategy else text) == if d == ASC then "asc" else "desc"
  }

  /** The last granted filter that orders by the entry gives this direction. */
  ghost predicate OrdersAt(filters: seq<ApiFilter>, isGranted: ApiFilter -> bool, params: QueryParams, i: nat, e: nat,
                           d: Direction)
  {
    exists n :: 0 <= n < |filters| && LastAsks(filters, isGranted, params, i, e, d, n)
  }

  ghost predicate LastAsks(filters: seq<ApiFilter>, isGranted: ApiFilter -> bool, params: QueryParams, i: nat, e: nat,
                           d: Direction, n: nat)
    requires n < |filters|
  {
    && isGranted(filters[n]) && AsksAt(filters[n], params, i, e, d)
    && forall m, d' :: n < m < |filters| && isGranted(filters[m]) ==> !AsksAt(filters[m], params, i, e, d')
  }

  ghost predicate Orders(filters: seq<ApiFilter>, isGranted: ApiFilter -> bool, params: QueryParams, i: nat, e: nat) {
    exists d :: OrdersAt(filters, isGranted, params, i, e, d)
  }

  /** The first entry of a key that orders. */
  ghost predicate FirstEntry(filters: seq<ApiFilter>, isGranted: ApiFilter -> bool, params: QueryParams, key: string,
                          i: nat, e: nat)
  {
    && IsEntry(params, i, e) && KeyAt(params, i, e) == key && Orders(filters, isGranted, params, i, e)
    && forall j: nat, k: nat :: IsEntry(params, j, k) && Earlier(j, k, i, e) && KeyAt(params, j, k) == key ==>
         !Orders(filters, isGranted, params, j, k)
  }

  /** The last entry of a key that orders, and its direction. */
  ghost predicate LastEntry(filters: seq<ApiFilter>, isGranted: ApiFilter -> bool, params: QueryParams, key: string,
                         d: Direction, i: nat, e: nat)
  {
    && IsEntry(params, i, e) && KeyAt(params, i, e) == key && OrdersAt(filters, isGranted, params, i, e, d)
    && forall j: nat, k: nat :: IsEntry(params, j, k) && Earlier(i, e, j, k) && KeyAt(params, j, k) == key ==>
         !Orders(filters, isGranted, params, j, k)
  }

  /**
   Each key that some entry orders by, once: in the order of their first entries that do, each in the
   direction of its last one.
   */
  ghost predicate FollowsRequest(orderings: seq<(string, Direction)>, filters: seq<ApiFilter>,
                                 isGranted: ApiFilter -> bool, params: QueryParams)
  {
    && Distinct(orderings)
    && (forall key, d ::
          (key, d) in orderings <==> exists i: nat, e: nat :: LastEntry(filters, isGranted, params, key, d, i, e))
    && (forall a: nat, b: nat, i: nat, e: nat, j: nat, k: nat ::
          a < b < |orderings| && FirstEntry(filters, isGranted, params, orderings[a].0, i, e) &&
          FirstEntry(filters, isGranted, params, orderings[b].0, j, k) ==>
            Earlier(i, e, j, k))
  }

  // ---------------------------------------------------------------- slots

  lemma {:induction false} EntrySlot(params: QueryParams, i: nat, e: nat) returns (x: nat)
    requires IsEntry(params, i, e)
    ensures x < |Slots(params)| && SlotIndex(params, x) == (i, e)
  {
    var n := |params| - 1;
    if i == n {
      x := |Slots(params[..n])| + e;
    } else {
      x := EntrySlot(params[..n], i, e);
    }
  }

  lemma {:induction false} DirectionAsks(f: ApiFilter, params: QueryParams, x: nat, d: Direction)
    requires IsRequest(params) && x < |Slots(params)|
    ensures var (i, e) := SlotIndex(params, x);
      DirectionOf(f, params, Slots(params)[x]) == Some(d) <==> AsksAt(f, params, i, e, d)
  {
    SlotAt(params, x);
    var (i, e) := SlotIndex(params, x);
    LookupAt(params, i);
    LookupAt(params[i].1.entries, e);
    var text := params[i].1.entries[e].1;
    UpperWords(if text == "" then f.strategy else text);
    hide Upper, Lower, Slots, SlotIndex, Lookup, ParameterName;
  }

  lemma {:induction false} LastDirectionAsks(filters: seq<ApiFilter>, isGranted: ApiFilter -> bool,
                                             params: QueryParams, x: nat, d: Direction)
    requires IsRequest(params) && x < |Slots(params)|
    ensures var (i, e) := SlotIndex(params, x);
      LastDirection(Granted(filters, isGranted), params, Slots(params)[x]) == Some(d) <==>
      OrdersAt(filters, isGranted, params, i, e, d)
  {
    hide DirectionOf, Slots, SlotIndex, AsksAt, IsRequest, OrdersAt, LastDirection;
    var (i, e) := SlotIndex(params, x);
    if filters == [] {
      NothingOrders(isGranted, params, i, e, d);
      LastDirectionNone(params, Slots(params)[x]);
    } else {
      var n := |filters| - 1;
      var f, granted := filters[n], Granted(filters[..n], isGranted);
      assert Granted(filters, isGranted) == if isGranted(f) then granted + [f] else granted;
      LastDirectionAsks(filters[..n], isGranted, params, x, d);
      forall d'
        ensures DirectionOf(f, params, Slots(params)[x]) == Some(d') <==> AsksAt(f, params, i, e, d')
      {
        DirectionAsks(f, params, x, d');
      }
      hide Granted;
      LastDirectionSnoc(granted, f, params, Slots(params)[x]);
      LastAsksMore(filters, isGranted, params, i, e, d);
    }
  }

  lemma {:induction false} NothingOrders(isGranted: ApiFilter -> bool, params: QueryParams, i: nat, e: nat,
                                         d: Direction)
    ensures !OrdersAt([], isGranted, params, i, e, d)
  {
  }

  lemma {:induction false} LastAsksMore(filters: seq<ApiFilter>, isGranted: ApiFilter -> bool, params: QueryParams,
                                        i: nat, e: nat, d: Direction)
    requires filters != []
    ensures var n := |filters| - 1;
      OrdersAt(filters, isGranted, params, i, e, d) <==>
        if isGranted(filters[n]) && exists d' :: AsksAt(filters[n], params, i, e, d')
        then AsksAt(filters[n], params, i, e, d) else OrdersAt(filters[..n], isGranted, params, i, e, d)
  {
    hide AsksAt;
    var n := |filters| - 1;
    var init := filters[..n];
    var asks := isGranted(filters[n]) && exists d' :: AsksAt(filters[n], params, i, e, d');
    if asks && AsksAt(filters[n], params, i, e, d) {
      assert LastAsks(filters, isGranted, params, i, e, d, n);
    }
    if m: nat :| m < |filters| && LastAsks(filters, isGranted, params, i, e, d, m) {
      if m < n {
        assert !asks && LastAsks(init, isGranted, params, i, e, d, m);
      }
    }
    if !asks {
      if m: nat :| m < |init| && LastAsks(init, isGranted, params, i, e, d, m) {
        assert LastAsks(filters, isGranted, params, i, e, d, m);
      }
    }
  }

  // ---------------------------------------------------------------- merged slots

  predicate HasDirection(slots: seq<Slot>, fs: seq<ApiFilter>, params: QueryParams, key: string, x: nat) {
    x < |slots| && slots[x].1 == key && LastDirection(fs, params, slots[x]).Some?
  }

  ghost predicate FirstSlot(slots: seq<Slot>, fs: seq<ApiFilter>, params: QueryParams, key: string, x: nat) {
    HasDirection(slots, fs, params, key, x) && forall y: nat :: y < x ==> !HasDirection(slots, fs, params, key, y)
  }

  ghost predicate LastSlot(slots: seq<Slot>, fs: seq<ApiFilter>, params: QueryParams, key: string, d: Direction, x: nat)
  {
    && HasDirection(slots, fs, params, key, x) && LastDirection(fs, params, slots[x]) == Some(d)
    && forall y: nat :: y > x ==> !HasDirection(slots, fs, params, key, y)
  }

  lemma {:induction false} LastSlotIs(slots: seq<Slot>, fs: seq<ApiFilter>, params: QueryParams, key: string,
                                      d: Direction)
    ensures LastSlotDirection(slots, fs, params, key) == Some(d) <==>
            exists x: nat :: LastSlot(slots, fs, params, key, d, x)
  {
    hide LastDirection;
    if slots != [] {
      var n := |slots| - 1;
      var init := slots[..n];
      LastSlotIs(init, fs, params, key, d);
      assert forall y: nat :: HasDirection(init, fs, params, key, y) <==>
        y < n && HasDirection(slots, fs, params, key, y);
      if HasDirection(slots, fs, params, key, n) {
        if LastDirection(fs, params, slots[n]) == Some(d) {
          assert LastSlot(slots, fs, params, key, d, n);
        }
      } else {
        if x: nat :| LastSlot(init, fs, params, key, d, x) {
          assert LastSlot(slots, fs, params, key, d, x);
        }
        if x: nat :| LastSlot(slots, fs, params, key, d, x) {
          assert LastSlot(init, fs, params, key, d, x);
        }
      }
    }
  }

  /** The keys stand in the order of their first slots with a direction. */
  lemma {:induction false} FirstKeysIn(slots: seq<Slot>, fs: seq<ApiFilter>, params: QueryParams, a: nat)
    returns (x: nat)
    requires a < |FirstKeys(slots, fs, params)|
    ensures FirstSlot(slots, fs, params, FirstKeys(slots, fs, params)[a], x)
  {
    hide LastDirection;
    var n := |slots| - 1;
    var init, keys := slots[..n], FirstKeys(slots[..n], fs, params);
    if a < |keys| {
      x := FirstKeysIn(init, fs, params, a);
      FirstSlotMore(slots, fs, params, keys[a], x);
    } else {
      x := n;
      forall y: nat | y < n
        ensures !HasDirection(slots, fs, params, slots[n].1, y)
      {
        KeyHasSlot(init, fs, params, slots[n].1, y);
        assert init[y] == slots[y];
      }
    }
  }

  lemma {:induction false} FirstSlotMore(slots: seq<Slot>, fs: seq<ApiFilter>, params: QueryParams, key: string,
                                         x: nat)
    requires slots != [] && FirstSlot(slots[..|slots| - 1], fs, params, key, x)
    ensures FirstSlot(slots, fs, params, key, x)
  {
    hide LastDirection;
    forall y: nat | y < x
      ensures !HasDirection(slots, fs, params, key, y)
    {
      assert !HasDirection(slots[..|slots| - 1], fs, params, key, y);
    }
  }

  lemma {:induction false} KeyHasSlot(slots: seq<Slot>, fs: seq<ApiFilter>, params: QueryParams, key: string, x: nat)
    ensures HasDirection(slots, fs, params, key, x) ==> key in FirstKeys(slots, fs, params)
  {
    hide LastDirection;
    if HasDirection(slots, fs, params, key, x) && x < |slots| - 1 {
      KeyHasSlot(slots[..|slots| - 1], fs, params, key, x);
    }
  }

  lemma {:induction false} FirstKeysOrdered(slots: seq<Slot>, fs: seq<ApiFilter>, params: QueryParams, a: nat, b: nat,
                                            x: nat, y: nat)
    requires a < b < |FirstKeys(slots, fs, params)|
    requires FirstSlot(slots, fs, params, FirstKeys(slots, fs, params)[a], x)
    requires FirstSlot(slots, fs, params, FirstKeys(slots, fs, params)[b], y)
    ensures x < y
  {
    hide LastDirection;
    var n := |slots| - 1;
    var init, keys := slots[..n], FirstKeys(slots[..n], fs, params);
    var v := FirstKeysIn(init, fs, params, a);
    FirstSlotMore(slots, fs, params, keys[a], v);
    SameFirstSlot(slots, fs, params, keys[a], v, x);
    if b < |keys| {
      var w := FirstKeysIn(init, fs, params, b);
      FirstSlotMore(slots, fs, params, keys[b], w);
      SameFirstSlot(slots, fs, params, keys[b], w, y);
      FirstKeysOrdered(init, fs, params, a, b, x, y);
    } else {
      assert y == n by {
        var w := FirstKeysIn(slots, fs, params, b);
        SameFirstSlot(slots, fs, params, slots[n].1, w, y);
        if y < n {
          assert init[y] == slots[y];
          KeyHasSlot(init, fs, params, slots[n].1, y);
        }
      }
    }
  }

  lemma {:induction false} SameFirstSlot(slots: seq<Slot>, fs: seq<ApiFilter>, params: QueryParams, key: string, x: nat,
                                         y: nat)
    requires FirstSlot(slots, fs, params, key, x) && FirstSlot(slots, fs, params, key, y)
    ensures x == y
  {
  }

  // ---------------------------------------------------------------- slots as entries

  lemma {:induction false} SlotOrders(filters: seq<ApiFilter>, isGranted: ApiFilter -> bool, params: QueryParams,
                                      key: string, x: nat, i: nat, e: nat)
    requires IsRequest(params) && x < |Slots(params)| && SlotIndex(params, x) == (i, e)
    ensures IsEntry(params, i, e) && Slots(params)[x].1 == KeyAt(params, i, e)
    ensures HasDirection(Slots(params), Granted(filters, isGranted), params, key, x) <==>
            KeyAt(params, i, e) == key && Orders(filters, isGranted, params, i, e)
  {
    SlotAt(params, x);
    hide Slots, SlotIndex, OrdersAt, LastDirection, Granted, IsRequest;
    var direction := LastDirection(Granted(filters, isGranted), params, Slots(params)[x]);
    forall d
      ensures direction == Some(d) <==> OrdersAt(filters, isGranted, params, i, e, d)
    {
      LastDirectionAsks(filters, isGranted, params, x, d);
    }
    assert direction.Some? ==> OrdersAt(filters, isGranted, params, i, e, direction.value);
  }

  lemma {:induction false} EarlierSlot(params: QueryParams, x: nat, y: nat, i: nat, e: nat, j: nat, k: nat)
    requires x < |Slots(params)| && SlotIndex(params, x) == (i, e)
    requires y < |Slots(params)| && SlotIndex(params, y) == (j, k)
    ensures Earlier(i, e, j, k) <==> x < y
  {
    if x < y {
      SlotsInOrder(params, x, y);
    } else if y < x {
      SlotsInOrder(params, y, x);
    }
  }

  /** A slot before that of the first entry of a key has no direction for it. */
  lemma {:induction false} NoneBefore(filters: seq<ApiFilter>, isGranted: ApiFilter -> bool, params: QueryParams,
                                      key: string, i: nat, e: nat, x: nat, y: nat)
    requires IsRequest(params) && FirstEntry(filters, isGranted, params, key, i, e)
    requires y < x < |Slots(params)| && SlotIndex(params, x) == (i, e)
    ensures !HasDirection(Slots(params), Granted(filters, isGranted), params, key, y)
  {
    hide Slots, SlotIndex, HasDirection, Granted, Orders, IsRequest, Earlier;
    var (j, k) := SlotIndex(params, y);
    SlotOrders(filters, isGranted, params, key, y, j, k);
    EarlierSlot(params, y, x, j, k, i, e);
  }

  lemma {:induction false} NoneBehind(filters: seq<ApiFilter>, isGranted: ApiFilter -> bool, params: QueryParams,
                                      key: string, d: Direction, i: nat, e: nat, x: nat, y: nat)
    requires IsRequest(params) && LastEntry(filters, isGranted, params, key, d, i, e)
    requires x < y < |Slots(params)| && SlotIndex(params, x) == (i, e)
    ensures !HasDirection(Slots(params), Granted(filters, isGranted), params, key, y)
  {
    hide Slots, SlotIndex, HasDirection, Granted, Orders, OrdersAt, IsRequest, Earlier;
    var (j, k) := SlotIndex(params, y);
    SlotOrders(filters, isGranted, params, key, y, j, k);
    EarlierSlot(params, x, y, i, e, j, k);
  }

  lemma {:induction false} FirstIsSlot(filters: seq<ApiFilter>, isGranted: ApiFilter -> bool, params: QueryParams,
                                       key: string, i: nat, e: nat)
    returns (x: nat)
    requires IsRequest(params) && FirstEntry(filters, isGranted, params, key, i, e)
    ensures x < |Slots(params)| && SlotIndex(params, x) == (i, e)
    ensures FirstSlot(Slots(params), Granted(filters, isGranted), params, key, x)
  {
    hide Slots, SlotIndex, HasDirection, Granted, Orders, IsRequest;
    x := EntrySlot(params, i, e);
    SlotOrders(filters, isGranted, params, key, x, i, e);
    forall y: nat | y < x
      ensures !HasDirection(Slots(params), Granted(filters, isGranted), params, key, y)
    {
      NoneBefore(filters, isGranted, params, key, i, e, x, y);
    }
  }

  lemma {:induction false} LastIsSlot(filters: seq<ApiFilter>, isGranted: ApiFilter -> bool, params: QueryParams,
                                      key: string, d: Direction, i: nat, e: nat)
    returns (x: nat)
    requires IsRequest(params) && LastEntry(filters, isGranted, params, key, d, i, e)
    ensures LastSlot(Slots(params), Granted(filters, isGranted), params, key, d, x)
  {
    hide Slots, SlotIndex, Granted, IsRequest, OrdersAt, LastDirection, HasDirection;
    x := EntrySlot(params, i, e);
    assert Orders(filters, isGranted, params, i, e);
    SlotOrders(filters, isGranted, params, key, x, i, e);
    LastDirectionAsks(filters, isGranted, params, x, d);
    forall y: nat | y > x
      ensures !HasDirection(Slots(params), Granted(filters, isGranted), params, key, y)
    {
      if y < |Slots(params)| {
        NoneBehind(filters, isGranted, params, key, d, i, e, x, y);
      } else {
        NoSlot(Slots(params), Granted(filters, isGranted), params, key, y);
      }
    }
  }

  lemma {:induction false} NoSlot(slots: seq<Slot>, fs: seq<ApiFilter>, params: QueryParams, key: string, y: nat)
    requires y >= |slots|
    ensures !HasDirection(slots, fs, params, key, y)
  {
  }

  lemma {:induction false} SlotIsLast(filters: seq<ApiFilter>, isGranted: ApiFilter -> bool, params: QueryParams,
                                      key: string, d: Direction, x: nat)
    requires IsRequest(params) && LastSlot(Slots(params), Granted(filters, isGranted), params, key, d, x)
    ensures LastEntry(filters, isGranted, params, key, d, SlotIndex(params, x).0, SlotIndex(params, x).1)
  {
    hide Slots, SlotIndex, Granted, IsRequest, Earlier, OrdersAt, LastDirection, Orders;
    var (i, e) := SlotIndex(params, x);
    SlotOrders(filters, isGranted, params, key, x, i, e);
    LastDirectionAsks(filters, isGranted, params, x, d);
    forall j: nat, k: nat | IsEntry(params, j, k) && Earlier(i, e, j, k) && KeyAt(params, j, k) == key
      ensures !Orders(filters, isGranted, params, j, k)
    {
      var y := EntrySlot(params, j, k);
      SlotOrders(filters, isGranted, params, key, y, j, k);
      EarlierSlot(params, x, y, i, e, j, k);
    }
  }

  lemma {:induction false} DirectionIsLast(filters: seq<ApiFilter>, isGranted: ApiFilter -> bool, params: QueryParams,
                                           key: string, d: Direction)
    requires IsRequest(params)
    ensures LastSlotDirection(Slots(params), Granted(filters, isGranted), params, key) == Some(d) <==>
            exists i: nat, e: nat :: LastEntry(filters, isGranted, params, key, d, i, e)
  {
    hide Slots, SlotIndex, Granted, IsRequest, LastEntry, LastSlot, LastSlotDirection;
    var granted := Granted(filters, isGranted);
    LastSlotIs(Slots(params), granted, params, key, d);
    if x: nat :| LastSlot(Slots(params), granted, params, key, d, x) {
      SlotIsLast(filters, isGranted, params, key, d, x);
    }
    if i: nat, e: nat :| LastEntry(filters, isGranted, params, key, d, i, e) {
      var x := LastIsSlot(filters, isGranted, params, key, d, i, e);
    }
  }

  lemma {:induction false} MemberIsLookup(m: seq<(string, Direction)>, key: string, d: Direction)
    requires Distinct(m)
    ensures (key, d) in m <==> Lookup(m, key) == Some(d)
  {
    if (key, d) in m {
      var i :| 0 <= i < |m| && m[i] == (key, d);
      LookupAt(m, i);
    }
  }

  /** The ORDER BY list follows the request, whatever the order in which the filters are registered. */
  lemma {:induction false} OrderingsFollow(env: Env, isGranted: ApiFilter -> bool, filters: seq<ApiFilter>,
                                           params: QueryParams)
    requires IsRequest(params) && Effects(env, params, Applied(filters, isGranted, params)).Success?
    ensures FollowsRequest(Orderings(Effects(env, params, Applied(filters, isGranted, params)).value), filters,
                           isGranted, params)
  {
    OrderByFollowsRequest(env, isGranted, filters, params);
    hide Effects, Applied, Orderings, IsRequest;
    MergedFollows(filters, isGranted, params);
  }

  lemma {:induction false} MergedFollows(filters: seq<ApiFilter>, isGranted: ApiFilter -> bool, params: QueryParams)
    requires IsRequest(params)
    ensures FollowsRequest(Merged(Slots(params), Granted(filters, isGranted), params), filters, isGranted, params)
  {
    hide Slots, SlotIndex, Granted, IsRequest, LastEntry, FirstEntry, LastSlotDirection, FirstKeys, Merged, FirstSlot,
      Distinct, Lookup, Earlier;
    var slots, granted := Slots(params), Granted(filters, isGranted);
    var merged := Merged(slots, granted, params);
    MergedMeaning(slots, granted, params, "");
    forall key, d
      ensures (key, d) in merged <==> exists i: nat, e: nat :: LastEntry(filters, isGranted, params, key, d, i, e)
    {
      MergedMeaning(slots, granted, params, key);
      MemberIsLookup(merged, key, d);
      DirectionIsLast(filters, isGranted, params, key, d);
    }
    forall a: nat, b: nat, i: nat, e: nat, j: nat, k: nat |
      a < b < |merged| && FirstEntry(filters, isGranted, params, merged[a].0, i, e) &&
      FirstEntry(filters, isGranted, params, merged[b].0, j, k)
      ensures Earlier(i, e, j, k)
    {
      var x := FirstIsSlot(filters, isGranted, params, merged[a].0, i, e);
      var y := FirstIsSlot(filters, isGranted, params, merged[b].0, j, k);
      FirstKeysOrdered(slots, granted, params, a, b, x, y);
      EarlierSlot(params, x, y, i, e, j, k);
    }
  }
}
