/**
 What a cascade makes of a payload, element by element and property by property: which payloads are
 accepted, what a collection holds afterwards and in which order, and what becomes of each field.
 */
module CascadeMeaning {
  import opened Wrappers
  import opened Php
  import opened Sequences
  import opened Cascade

  // ---------------------------------------------------------------- reading payloads

  /** The i-th field is the last one of the name. */
  predicate GivesAt(fields: seq<Field>, name: string, value: Payload, i: nat) {
    i < |fields| && fields[i] == Field(name, value) && forall j :: i < j < |fields| ==> fields[j].name != name
  }

  ghost predicate Gives(data: Payload, name: string, value: Payload) {
    data.Object? && exists i: nat :: GivesAt(data.fields, name, value, i)
  }

  lemma {:induction false} FieldOfIs(fields: seq<Field>, name: string)
    ensures FieldOf(fields, name).None? <==> forall i :: 0 <= i < |fields| ==> fields[i].name != name
    ensures FieldOf(fields, name).Some? ==> exists i: nat :: GivesAt(fields, name, FieldOf(fields, name).value, i)
  {
    if fields != [] {
      var rest := fields[1..];
      FieldOfIs(rest, name);
      if FieldOf(rest, name).Some? {
        var i: nat :| GivesAt(rest, name, FieldOf(rest, name).value, i);
        assert fields[i + 1] == rest[i];
        assert forall j :: i + 1 < j < |fields| ==> fields[j] == rest[j - 1];
        assert GivesAt(fields, name, FieldOf(fields, name).value, i + 1);
      } else {
        assert forall j :: 0 < j < |fields| ==> fields[j] == rest[j - 1];
        if fields[0].name == name {
          assert GivesAt(fields, name, fields[0].data, 0);
        }
      }
    }
  }

  /** A payload has the value of its last field of a name. */
  lemma {:induction false} GetIs(data: Payload, name: string, value: Payload)
    ensures Get(data, name) == Some(value) <==> Gives(data, name, value)
  {
    if data.Object? {
      FieldOfIs(data.fields, name);
      if i: nat :| GivesAt(data.fields, name, value, i) {
        var found: nat :| GivesAt(data.fields, name, FieldOf(data.fields, name).value, found);
      }
    }
  }

  /** The elements of a list, or the values of an object, in their order. */
  lemma {:induction false} ElementsAre(data: Payload, i: nat)
    ensures data.Items? ==> Elements(data) == data.items
    ensures data.Object? ==>
      |Elements(data)| == |data.fields| && (i < |data.fields| ==> Elements(data)[i] == data.fields[i].data)
  {
    if data.Object? {
      FieldValuesAt(data.fields, i);
    }
  }

  lemma {:induction false} FieldValuesAt(fields: seq<Field>, i: nat)
    ensures |FieldValues(fields)| == |fields| && (i < |fields| ==> FieldValues(fields)[i] == fields[i].data)
  {
    if fields != [] {
      FieldValuesAt(fields[1..], if i == 0 then 0 else i - 1);
    }
  }

  /** A uid is given unless it is absent or null. */
  lemma {:induction false} GivesUidIs(data: Payload)
    ensures GivesUid(data) <==> exists value :: Gives(data, "uid", value) && value != NullData
  {
    hide Gives, Get;
    if GivesUid(data) {
      GetIs(data, "uid", Get(data, "uid").value);
    }
    if value :| Gives(data, "uid", value) && value != NullData {
      GetIs(data, "uid", value);
    }
  }

  lemma {:induction false} NothingInFront(s: string, t: string)
    ensures "" + s + t == s + t
  {
    assert "" + s == s;
  }

  /** A uid is the number given, or the integer that a text starts with. */
  lemma {:induction false} UidIs(n: int, rest: string)
    requires rest == "" || !IsDigit(rest[0])
    ensures UidOf(Numeric(n)) == n && UidOf(Text(Decimal(n) + rest)) == n
  {
    hide IntCast, Decimal;
    IntCastReads("", n, rest);
    NothingInFront(Decimal(n), rest);
  }

  // ---------------------------------------------------------------- collections

  predicate FirstAt(refs: seq<nat>, o: nat, i: nat) {
    i < |refs| && refs[i] == o && o !in refs[..i]
  }

  /** Each of the references once, in the order of their first occurrences. */
  ghost predicate InFirstOrder(refs: seq<nat>, objects: seq<nat>) {
    && NoDuplicates(objects)
    && (forall o :: o in objects <==> o in refs)
    && (forall i: nat, j: nat, a: nat, b: nat ::
          i < j < |objects| && FirstAt(refs, objects[i], a) && FirstAt(refs, objects[j], b) ==> a < b)
  }

  ghost predicate Accepts(w: World, data: Payload, t: PropertyType, ctx: Context, property: Option<Property>,
                          st: Store, out: Outcome)
  {
    WellFormed(w, st) && TargetKnown(ctx, st) && Accept(w, data, t, false, ctx, property, st) == Success(out)
  }

  function StoreAfter(st: Store, outs: seq<Outcome>, n: nat): Store
    requires n <= |outs|
  {
    if n == 0 then st else outs[n - 1].store
  }

  /** One element after another is accepted as an object, each in the store that the ones before it left. */
  ghost predicate Attached(w: World, items: seq<Payload>, class_: string, ctx: Context, property: Option<Property>,
                           st: Store, outs: seq<Outcome>)
  {
    && |outs| == |items|
    && forall i :: 0 <= i < |items| ==>
         && Accepts(w, items[i], EntityType(class_), ctx, property, StoreAfter(st, outs, i), outs[i])
         && outs[i].value.Reference?
  }

  function References(outs: seq<Outcome>): seq<nat>
    requires forall i :: 0 <= i < |outs| ==> outs[i].value.Reference?
  {
    seq(|outs|, i requires 0 <= i < |outs| => outs[i].value.object_)
  }

  lemma {:induction false} AttachedMore(w: World, items: seq<Payload>, class_: string, ctx: Context,
                                        property: Option<Property>, st: Store, first: Outcome, rest: seq<Outcome>)
    requires items != [] && Accepts(w, items[0], EntityType(class_), ctx, property, st, first)
    requires first.value.Reference?
    ensures Attached(w, items[1..], class_, ctx, property, first.store, rest) ==>
      Attached(w, items, class_, ctx, property, st, [first] + rest)
    ensures |rest| == |items| - 1 ==>
      StoreAfter(st, [first] + rest, |items|) == StoreAfter(first.store, rest, |items| - 1)
  {
    hide Accepts;
    if Attached(w, items[1..], class_, ctx, property, first.store, rest) {
      var outs := [first] + rest;
      forall i | 0 <= i < |items|
        ensures Accepts(w, items[i], EntityType(class_), ctx, property, StoreAfter(st, outs, i), outs[i])
        ensures outs[i].value.Reference?
      {
        if i > 0 {
          assert items[i] == items[1..][i - 1];
          assert StoreAfter(st, outs, i) == StoreAfter(first.store, rest, i - 1);
        }
      }
    }
  }

  lemma {:induction false} AttachedRest(w: World, items: seq<Payload>, class_: string, ctx: Context,
                                        property: Option<Property>, st: Store, outs: seq<Outcome>)
    requires items != [] && Attached(w, items, class_, ctx, property, st, outs)
    ensures Accepts(w, items[0], EntityType(class_), ctx, property, st, outs[0]) && outs[0].value.Reference?
    ensures Attached(w, items[1..], class_, ctx, property, outs[0].store, outs[1..])
  {
    hide Accepts;
    assert Accepts(w, items[0], EntityType(class_), ctx, property, StoreAfter(st, outs, 0), outs[0]);
    forall i | 0 <= i < |items[1..]|
      ensures Accepts(w, items[1..][i], EntityType(class_), ctx, property, StoreAfter(outs[0].store, outs[1..], i),
                      outs[1..][i])
      ensures outs[1..][i].value.Reference?
    {
      assert Accepts(w, items[i + 1], EntityType(class_), ctx, property, StoreAfter(st, outs, i + 1), outs[i + 1]);
      assert StoreAfter(st, outs, i + 1) == StoreAfter(outs[0].store, outs[1..], i);
    }
  }

  lemma {:induction false} WithoutNoDuplicates(objects: seq<nat>, o: nat)
    requires NoDuplicates(objects)
    ensures NoDuplicates(Without(objects, o))
  {
    if objects != [] {
      WithoutNoDuplicates(objects[1..], o);
      assert objects[0] !in objects[1..];
    }
  }

  /** Where two of the objects that are kept stood before. */
  lemma {:induction false} WithoutKeepsOrder(objects: seq<nat>, o: nat, i: nat, j: nat)
    returns (a: nat, b: nat)
    requires i < j < |Without(objects, o)|
    ensures a < b < |objects| && objects[a] == Without(objects, o)[i] && objects[b] == Without(objects, o)[j]
  {
    var rest := objects[1..];
    if objects[0] == o {
      assert [] + Without(rest, o) == Without(rest, o);
      a, b := WithoutKeepsOrder(rest, o, i, j);
      a, b := a + 1, b + 1;
    } else if i > 0 {
      a, b := WithoutKeepsOrder(rest, o, i - 1, j - 1);
      a, b := a + 1, b + 1;
    } else {
      assert Without(objects, o)[j] == Without(rest, o)[j - 1];
      assert Without(rest, o)[j - 1] in rest;
      var k :| 0 <= k < |rest| && rest[k] == Without(rest, o)[j - 1];
      a, b := 0, k + 1;
    }
  }

  lemma {:induction false} HeadInPrefix(s: seq<nat>, n: nat)
    requires n <= |s|
    ensures n > 0 ==> s[0] in s[..n]
  {
    if n > 0 {
      assert s[..n][0] == s[0];
    }
  }

  lemma {:induction false} FirstAtRest(refs: seq<nat>, first: nat, o: nat, a: nat)
    requires FirstAt([first] + refs, o, a)
    ensures if o == first then a == 0 else a > 0 && FirstAt(refs, o, a - 1)
  {
    var all := [first] + refs;
    if o == first {
      HeadInPrefix(all, a);
    } else {
      assert all[..a][1..] == refs[..a - 1];
    }
  }

  lemma {:induction false} NoDuplicatesMore(objects: seq<nat>, o: nat)
    requires NoDuplicates(objects) && o !in objects
    ensures NoDuplicates([o] + objects)
  {
    assert forall k :: 0 <= k < |objects| ==> objects[k] in objects;
  }

  lemma {:induction false} SameElements(refs: seq<nat>, objects: seq<nat>, o: nat, kept: seq<nat>)
    requires forall x :: x in objects <==> x in refs
    requires forall x :: x in kept <==> x in objects && x != o
    ensures forall x :: x in [o] + kept <==> x in [o] + refs
  {
  }

  lemma {:induction false} FirstOrderMore(refs: seq<nat>, objects: seq<nat>, o: nat)
    requires InFirstOrder(refs, objects)
    ensures InFirstOrder([o] + refs, [o] + Without(objects, o))
  {
    var refs', kept := [o] + refs, Without(objects, o);
    var objects' := [o] + kept;
    WithoutNoDuplicates(objects, o);
    NoDuplicatesMore(kept, o);
    SameElements(refs, objects, o, kept);
    hide Without, FirstAt, NoDuplicates;
    forall i: nat, j: nat, a: nat, b: nat |
      i < j < |objects'| && FirstAt(refs', objects'[i], a) && FirstAt(refs', objects'[j], b)
      ensures a < b
    {
      FirstAtRest(refs, o, objects'[i], a);
      FirstAtRest(refs, o, objects'[j], b);
      assert kept[j - 1] in kept;
      if i > 0 {
        assert kept[i - 1] in kept;
        var c, d := WithoutKeepsOrder(objects, o, i - 1, j - 1);
      }
    }
  }

  lemma {:induction false} ReferencesMore(first: Outcome, rest: seq<Outcome>)
    requires first.value.Reference? && forall i :: 0 <= i < |rest| ==> rest[i].value.Reference?
    ensures var outs := [first] + rest;
      && (forall i :: 0 <= i < |outs| ==> outs[i].value.Reference?)
      && References(outs) == [first.value.object_] + References(rest)
  {
  }

  /** What attaching the elements one after another leads to. */
  ghost predicate AttachedTo(w: World, items: seq<Payload>, class_: string, ctx: Context, property: Option<Property>,
                             st: Store, outs: seq<Outcome>, value: Value, after: Store)
  {
    && Attached(w, items, class_, ctx, property, st, outs)
    && value.Storage? && InFirstOrder(References(outs), value.objects)
    && after == StoreAfter(st, outs, |items|)
  }

  /** The elements of a collection but for the first, and then all of them. */
  lemma {:induction false} AttachesFirst(w: World, items: seq<Payload>, class_: string, ctx: Context,
                                         property: Option<Property>, st: Store, first: Outcome, outs: seq<Outcome>,
                                         rest: seq<nat>, after: Store)
    requires items != [] && Accepts(w, items[0], EntityType(class_), ctx, property, st, first)
    requires first.value.Reference?
    requires AttachedTo(w, items[1..], class_, ctx, property, first.store, outs, Storage(rest), after)
    ensures AttachedTo(w, items, class_, ctx, property, st, [first] + outs,
                       Storage([first.value.object_] + Without(rest, first.value.object_)), after)
  {
    hide Accepts, Attached, InFirstOrder, Without;
    AttachedAll(w, items[1..], class_, ctx, property, first.store, outs);
    AttachedMore(w, items, class_, ctx, property, st, first, outs);
    AttachedAll(w, items, class_, ctx, property, st, [first] + outs);
    ReferencesMore(first, outs);
    FirstOrderMore(References(outs), rest, first.value.object_);
  }

  lemma {:induction false} AcceptAllParts(w: World, items: seq<Payload>, class_: string, ctx: Context,
                                          property: Option<Property>, st: Store)
      returns (first: Outcome, rest: Outcome)
    requires WellFormed(w, st) && TargetKnown(ctx, st) && ctx.depth >= 1 && items != []
    requires AcceptAll(w, items, class_, ctx, property, st).Success?
    ensures Accepts(w, items[0], EntityType(class_), ctx, property, st, first) && first.value.Reference?
    ensures WellFormed(w, first.store) && TargetKnown(ctx, first.store)
    ensures AcceptAll(w, items[1..], class_, ctx, property, first.store) == Success(rest) && rest.value.Storage?
    ensures var r := AcceptAll(w, items, class_, ctx, property, st).value;
      && r.value == Storage([first.value.object_] + Without(rest.value.objects, first.value.object_))
      && r.store == rest.store
  {
    hide Without;
    first := Accept(w, items[0], EntityType(class_), false, ctx, property, st).value;
    rest := AcceptAll(w, items[1..], class_, ctx, property, first.store).value;
  }

  lemma {:induction false} AttachesAll(w: World, items: seq<Payload>, class_: string, ctx: Context,
                                       property: Option<Property>, st: Store)
    requires WellFormed(w, st) && TargetKnown(ctx, st) && ctx.depth >= 1
    requires AcceptAll(w, items, class_, ctx, property, st).Success?
    ensures var r := AcceptAll(w, items, class_, ctx, property, st).value;
      exists outs :: AttachedTo(w, items, class_, ctx, property, st, outs, r.value, r.store)
    decreases |items|
  {
    if items == [] {
      assert AttachedTo(w, items, class_, ctx, property, st, [], Storage([]), st);
    } else {
      hide AcceptAll, Without, AttachedTo, WellFormed, TargetKnown, Accepts;
      var first, rest := AcceptAllParts(w, items, class_, ctx, property, st);
      AttachesAll(w, items[1..], class_, ctx, property, first.store);
      var outs :| AttachedTo(w, items[1..], class_, ctx, property, first.store, outs, rest.value, rest.store);
      assert rest.value == Storage(rest.value.objects);
      AttachesFirst(w, items, class_, ctx, property, st, first, outs, rest.value.objects, rest.store);
    }
  }

  lemma {:induction false} AttachedAll(w: World, items: seq<Payload>, class_: string, ctx: Context,
                                       property: Option<Property>, st: Store, outs: seq<Outcome>)
    requires Attached(w, items, class_, ctx, property, st, outs)
    ensures |outs| == |items| && forall i :: 0 <= i < |outs| ==> outs[i].value.Reference?
  {
    hide Accepts;
  }

  lemma {:induction false} AttachedSucceeds(w: World, items: seq<Payload>, class_: string, ctx: Context,
                                            property: Option<Property>, st: Store, outs: seq<Outcome>)
    requires WellFormed(w, st) && TargetKnown(ctx, st) && ctx.depth >= 1
    requires Attached(w, items, class_, ctx, property, st, outs)
    ensures AcceptAll(w, items, class_, ctx, property, st).Success?
    decreases |items|
  {
    if items != [] {
      AttachedRest(w, items, class_, ctx, property, st, outs);
      hide Attached;
      var first := Accept(w, items[0], EntityType(class_), false, ctx, property, st);
      assert first == Success(outs[0]);
      AttachedSucceeds(w, items[1..], class_, ctx, property, outs[0].store, outs[1..]);
    }
  }

  /**
   A collection: no array is accepted but an empty value, which stands for no elements; an array is
   accepted exactly when its elements are, one after another, each as an object. It then holds these
   objects, each once, in the order of the payload.
   */
  lemma {:induction false} CollectionAttaches(w: World, data: Payload, class_: string, ctx: Context,
                                              property: Option<Property>, st: Store)
    requires WellFormed(w, st) && TargetKnown(ctx, st) && data != NullData
    ensures var r := Accept(w, data, StorageType(class_), false, ctx, property, st);
      var nested := Context(ctx.target, ctx.depth + 1);
      && (data.Text? ==> (r.Success? <==> data.s == ""))
      && (data.Numeric? ==> (r.Success? <==> data.n == 0))
      && (IsArray(data) ==>
            (r.Success? <==> exists outs :: Attached(w, Elements(data), class_, nested, property, st, outs)))
      && (IsArray(data) && r.Success? ==> exists outs ::
            AttachedTo(w, Elements(data), class_, nested, property, st, outs, r.value.value, r.value.store))
      && (!IsArray(data) && r.Success? ==> r.value.value == Storage([]) && r.value.store == st)
  {
    var r := Accept(w, data, StorageType(class_), false, ctx, property, st);
    var nested := Context(ctx.target, ctx.depth + 1);
    if IsArray(data) {
      var items := Elements(data);
      var all := AcceptAll(w, items, class_, nested, property, st);
      assert items == [] <==> IsEmpty(data);
      assert r.Success? <==> all.Success?;
      assert r.Success? ==> r.value.value == all.value.value && r.value.store == all.value.store;
      hide Accept, AcceptAll, Good, Attached;
      if all.Success? {
        AttachesAll(w, items, class_, nested, property, st);
      }
      forall outs | Attached(w, items, class_, nested, property, st, outs)
        ensures r.Success?
      {
        AttachedSucceeds(w, items, class_, nested, property, st, outs);
      }
      if r.Success? {
        var outs :| AttachedTo(w, items, class_, nested, property, st, outs, all.value.value, all.value.store);
        assert Attached(w, items, class_, nested, property, st, outs);
      }
    }
  }

  predicate AllPersisted(w: World, class_: string, uids: seq<int>) {
    forall i :: 0 <= i < |uids| ==> (class_, uids[i]) in w.persisted
  }

  function PersistedObjects(w: World, class_: string, uids: seq<int>): seq<nat>
    requires AllPersisted(w, class_, uids)
  {
    seq(|uids|, i requires 0 <= i < |uids| => w.persisted[(class_, uids[i])])
  }

  function Found(w: World, class_: string, uid: int, st: Store): Outcome
    requires (class_, uid) in w.persisted
  {
    Outcome(Reference(w.persisted[(class_, uid)]), st, [])
  }

  lemma {:induction false} UidAccepted(w: World, uid: int, class_: string, ctx: Context, property: Option<Property>,
                                       st: Store, out: Outcome)
    requires WellFormed(w, st) && TargetKnown(ctx, st) && ctx.depth >= 1 && (class_, uid) in w.persisted
    ensures Accepts(w, Numeric(uid), EntityType(class_), ctx, property, st, out) <==> out == Found(w, class_, uid, st)
  {
  }

  lemma {:induction false} UidsAttach(w: World, uids: seq<int>, items: seq<Payload>, class_: string, ctx: Context,
                                      property: Option<Property>, st: Store, outs: seq<Outcome>)
    requires WellFormed(w, st) && TargetKnown(ctx, st) && ctx.depth >= 1 && AllPersisted(w, class_, uids)
    requires |items| == |uids| && forall i :: 0 <= i < |uids| ==> items[i] == Numeric(uids[i])
    requires |outs| == |uids| && forall i :: 0 <= i < |uids| ==> outs[i] == Found(w, class_, uids[i], st)
    ensures Attached(w, items, class_, ctx, property, st, outs)
  {
    hide Accepts, WellFormed, TargetKnown;
    forall i | 0 <= i < |items|
      ensures Accepts(w, items[i], EntityType(class_), ctx, property, StoreAfter(st, outs, i), outs[i])
    {
      UidAccepted(w, uids[i], class_, ctx, property, st, outs[i]);
    }
  }

  lemma {:induction false} AttachedAt(w: World, items: seq<Payload>, class_: string, ctx: Context,
                                      property: Option<Property>, st: Store, outs: seq<Outcome>, i: nat)
    requires Attached(w, items, class_, ctx, property, st, outs) && i < |items|
    ensures Accepts(w, items[i], EntityType(class_), ctx, property, StoreAfter(st, outs, i), outs[i])
  {
    hide Accepts;
  }

  lemma {:induction false} UidsFound(w: World, uids: seq<int>, items: seq<Payload>, class_: string, ctx: Context,
                                     property: Option<Property>, st: Store, outs: seq<Outcome>, n: nat)
    requires WellFormed(w, st) && TargetKnown(ctx, st) && ctx.depth >= 1 && AllPersisted(w, class_, uids)
    requires |items| == |uids| && forall i :: 0 <= i < |uids| ==> items[i] == Numeric(uids[i])
    requires Attached(w, items, class_, ctx, property, st, outs) && n <= |uids|
    ensures StoreAfter(st, outs, n) == st
    ensures n > 0 ==> outs[n - 1] == Found(w, class_, uids[n - 1], st)
  {
    hide Accepts, WellFormed, TargetKnown, Attached;
    AttachedAll(w, items, class_, ctx, property, st, outs);
    if n > 0 {
      UidsFound(w, uids, items, class_, ctx, property, st, outs, n - 1);
      AttachedAt(w, items, class_, ctx, property, st, outs, n - 1);
      UidAccepted(w, uids[n - 1], class_, ctx, property, st, outs[n - 1]);
    }
  }

  lemma {:induction false} UidsReferences(w: World, uids: seq<int>, items: seq<Payload>, class_: string, ctx: Context,
                                          property: Option<Property>, st: Store, outs: seq<Outcome>)
    requires WellFormed(w, st) && TargetKnown(ctx, st) && ctx.depth >= 1 && AllPersisted(w, class_, uids)
    requires |items| == |uids| && forall i :: 0 <= i < |uids| ==> items[i] == Numeric(uids[i])
    requires Attached(w, items, class_, ctx, property, st, outs)
    ensures StoreAfter(st, outs, |uids|) == st
    ensures forall i :: 0 <= i < |outs| ==> outs[i].value.Reference?
    ensures References(outs) == PersistedObjects(w, class_, uids)
  {
    UidsFound(w, uids, items, class_, ctx, property, st, outs, |uids|);
    AttachedAll(w, items, class_, ctx, property, st, outs);
    hide Attached, WellFormed, TargetKnown;
    forall i | 0 <= i < |uids|
      ensures References(outs)[i] == PersistedObjects(w, class_, uids)[i]
    {
      UidsFound(w, uids, items, class_, ctx, property, st, outs, i + 1);
    }
  }

  /** A list of uids attaches the persisted objects of these uids and changes nothing else. */
  lemma {:induction false} UidsAttached(w: World, uids: seq<int>, items: seq<Payload>, class_: string, ctx: Context,
                                        property: Option<Property>, st: Store)
    requires WellFormed(w, st) && TargetKnown(ctx, st) && AllPersisted(w, class_, uids)
    requires |items| == |uids| && forall i :: 0 <= i < |uids| ==> items[i] == Numeric(uids[i])
    ensures var r := Accept(w, Items(items), StorageType(class_), false, ctx, property, st);
      && r.Success? && r.value.store == st && r.value.value.Storage?
      && InFirstOrder(PersistedObjects(w, class_, uids), r.value.value.objects)
  {
    hide Accept, InFirstOrder, WellFormed, Accepts, Attached, Good, Found;
    var nested, data := Context(ctx.target, ctx.depth + 1), Items(items);
    CollectionAttaches(w, data, class_, ctx, property, st);
    var found := seq(|uids|, i requires 0 <= i < |uids| => Found(w, class_, uids[i], st));
    UidsAttach(w, uids, items, class_, nested, property, st, found);
    assert Elements(data) == items && Attached(w, Elements(data), class_, nested, property, st, found);
    var r := Accept(w, data, StorageType(class_), false, ctx, property, st);
    assert r.Success?;
    var outs :| AttachedTo(w, items, class_, nested, property, st, outs, r.value.value, r.value.store);
    UidsReferences(w, uids, items, class_, nested, property, st, outs);
  }

  // ---------------------------------------------------------------- entities

  /** A writable property that the payload has takes the value accepted for it; another one is passed over. */
  ghost predicate PropertyStep(w: World, o: nat, data: Payload, p: Property, ctx: Context, before: Store,
                               after: Store)
  {
    if p.readOnly || Get(data, p.name).None? then after == before
    else exists out ::
      && Accepts(w, Get(data, p.name).value, p.ptype, ctx, Some(p), before, out)
      && o in out.store.objects && after == SetField(out.store, o, p.name, out.value)
  }

  /** One property after another, in metadata order. */
  ghost predicate PropertySteps(w: World, o: nat, data: Payload, properties: seq<Property>, ctx: Context,
                                stores: seq<Store>)
  {
    && |stores| == |properties| + 1
    && forall i :: 0 <= i < |properties| ==>
         PropertyStep(w, o, data, properties[i], ctx, stores[i], stores[i + 1])
  }

  ghost predicate WritesInto(w: World, o: nat, data: Payload, properties: seq<Property>, ctx: Context, st: Store,
                             after: Store)
  {
    exists stores :: PropertySteps(w, o, data, properties, ctx, stores) && stores[0] == st &&
                     stores[|properties|] == after
  }

  lemma {:induction false} StepsMore(w: World, o: nat, data: Payload, properties: seq<Property>, ctx: Context,
                                     st: Store, mid: Store, after: Store)
    requires properties != [] && PropertyStep(w, o, data, properties[0], ctx, st, mid)
    requires WritesInto(w, o, data, properties[1..], ctx, mid, after)
    ensures WritesInto(w, o, data, properties, ctx, st, after)
  {
    hide PropertyStep;
    var rest :| PropertySteps(w, o, data, properties[1..], ctx, rest) && rest[0] == mid &&
                rest[|properties| - 1] == after;
    var stores := [st] + rest;
    forall i | 0 <= i < |properties|
      ensures PropertyStep(w, o, data, properties[i], ctx, stores[i], stores[i + 1])
    {
      if i > 0 {
        assert PropertyStep(w, o, data, properties[1..][i - 1], ctx, rest[i - 1], rest[i - 1 + 1]);
      }
    }
    assert PropertySteps(w, o, data, properties, ctx, stores);
  }

  lemma {:induction false} StepsRest(w: World, o: nat, data: Payload, properties: seq<Property>, ctx: Context,
                                     st: Store, after: Store)
    returns (mid: Store)
    requires properties != [] && WritesInto(w, o, data, properties, ctx, st, after)
    ensures PropertyStep(w, o, data, properties[0], ctx, st, mid)
    ensures WritesInto(w, o, data, properties[1..], ctx, mid, after)
  {
    hide PropertyStep;
    var stores :| PropertySteps(w, o, data, properties, ctx, stores) && stores[0] == st &&
                  stores[|properties|] == after;
    mid := stores[1];
    assert PropertyStep(w, o, data, properties[0], ctx, stores[0], stores[0 + 1]);
    forall i | 0 <= i < |properties[1..]|
      ensures PropertyStep(w, o, data, properties[1..][i], ctx, stores[1..][i], stores[1..][i + 1])
    {
      assert PropertyStep(w, o, data, properties[i + 1], ctx, stores[i + 1], stores[i + 1 + 1]);
    }
    assert PropertySteps(w, o, data, properties[1..], ctx, stores[1..]);
  }

  /** The first property of an array, in terms of its step. */
  lemma {:induction false} VisitFirst(w: World, o: nat, data: Payload, properties: seq<Property>, ctx: Context,
                                      st: Store, mid: Store)
    requires WellFormed(w, st) && TargetKnown(ctx, st) && ctx.depth >= 1 && o in st.objects
    requires properties != [] && IsArray(data)
    requires PropertyStep(w, o, data, properties[0], ctx, st, mid)
    ensures WellFormed(w, mid) && TargetKnown(ctx, mid) && o in mid.objects
    ensures var rest := VisitProperties(w, o, data, properties[1..], ctx, mid);
      var all := VisitProperties(w, o, data, properties, ctx, st);
      && (all.Success? <==> rest.Success?)
      && (all.Success? ==> all.value.store == rest.value.store)
  {
  }

  lemma {:induction false} VisitSteps(w: World, o: nat, data: Payload, properties: seq<Property>, ctx: Context,
                                      st: Store)
    returns (mid: Store)
    requires WellFormed(w, st) && TargetKnown(ctx, st) && ctx.depth >= 1 && o in st.objects
    requires properties != [] && VisitProperties(w, o, data, properties, ctx, st).Success?
    ensures PropertyStep(w, o, data, properties[0], ctx, st, mid)
  {
    var p := properties[0];
    if p.readOnly || Get(data, p.name).None? {
      mid := st;
    } else {
      var out := Accept(w, Get(data, p.name).value, p.ptype, false, ctx, Some(p), st).value;
      assert Accepts(w, Get(data, p.name).value, p.ptype, ctx, Some(p), st, out);
      mid := SetField(out.store, o, p.name, out.value);
    }
  }

  /** An object is written exactly when each step can be taken. */
  lemma {:induction false} PropertiesWritten(w: World, o: nat, data: Payload, properties: seq<Property>, ctx: Context,
                                             st: Store)
    requires WellFormed(w, st) && TargetKnown(ctx, st) && ctx.depth >= 1 && o in st.objects
    ensures var r := VisitProperties(w, o, data, properties, ctx, st);
      && (r.Success? <==> IsArray(data) && exists after :: WritesInto(w, o, data, properties, ctx, st, after))
      && (r.Success? ==> WritesInto(w, o, data, properties, ctx, st, r.value.store))
    decreases |properties|
  {
    var r := VisitProperties(w, o, data, properties, ctx, st);
    if IsArray(data) {
      if properties == [] {
        assert PropertySteps(w, o, data, properties, ctx, [st]);
        assert WritesInto(w, o, data, properties, ctx, st, st);
      } else {
        if r.Success? {
          var mid := VisitSteps(w, o, data, properties, ctx, st);
          VisitFirst(w, o, data, properties, ctx, st, mid);
          hide VisitProperties, PropertyStep, WritesInto;
          PropertiesWritten(w, o, data, properties[1..], ctx, mid);
          StepsMore(w, o, data, properties, ctx, st, mid, r.value.store);
        }
        hide VisitProperties, PropertyStep, WritesInto;
        if after :| WritesInto(w, o, data, properties, ctx, st, after) {
          var mid := StepsRest(w, o, data, properties, ctx, st, after);
          VisitFirst(w, o, data, properties, ctx, st, mid);
          PropertiesWritten(w, o, data, properties[1..], ctx, mid);
        }
      }
    }
  }

  ghost predicate WritesEntity(w: World, o: nat, data: Payload, class_: string, ctx: Context, st: Store, after: Store)
  {
    class_ in w.metadata && IsArray(data) && WritesInto(w, o, data, w.metadata[class_], ctx, st, after)
  }

  ghost predicate CanWriteEntity(w: World, o: nat, data: Payload, class_: string, ctx: Context, st: Store) {
    exists after :: WritesEntity(w, o, data, class_, ctx, st, after)
  }

  lemma {:induction false} EntityVisited(w: World, data: Payload, class_: string, skip: bool, ctx: Context,
                                         property: Option<Property>, st: Store)
    requires WellFormed(w, st) && TargetKnown(ctx, st) && data != NullData && (skip || ctx.depth == 0)
    ensures var r := Accept(w, data, EntityType(class_), skip, ctx, property, st);
      var reuse, inner := ctx.target.Some? && ctx.depth == 0, Context(ctx.target, ctx.depth + 1);
      var o, start := if reuse then ctx.target.value else st.next, if reuse then st else Create(st, class_);
      && WellFormed(w, start) && TargetKnown(inner, start) && o in start.objects
      && (class_ !in w.metadata ==> r.Failure?)
      && (class_ in w.metadata ==>
            var visited := VisitProperties(w, o, data, w.metadata[class_], inner, start);
            && (r.Success? <==> visited.Success?) && (r.Success? ==> r.value.store == visited.value.store))
  {
    hide VisitProperties, Good;
  }

  /**
   At the root, or in an unwrapped transport, an entity is accepted exactly when its class has metadata and
   the payload is an array whose properties can be written: into the target at depth 1, or into a new object.
   */
  lemma {:induction false} EntityWritten(w: World, data: Payload, class_: string, skip: bool, ctx: Context,
                                         property: Option<Property>, st: Store)
    requires WellFormed(w, st) && TargetKnown(ctx, st) && data != NullData && (skip || ctx.depth == 0)
    ensures var r := Accept(w, data, EntityType(class_), skip, ctx, property, st);
      var reuse, inner := ctx.target.Some? && ctx.depth == 0, Context(ctx.target, ctx.depth + 1);
      var o, start := if reuse then ctx.target.value else st.next, if reuse then st else Create(st, class_);
      && (r.Success? <==> CanWriteEntity(w, o, data, class_, inner, start))
      && (r.Success? ==> WritesEntity(w, o, data, class_, inner, start, r.value.store))
  {
    hide Accept, VisitProperties, WritesInto, Good, WellFormed, Create;
    var reuse, inner := ctx.target.Some? && ctx.depth == 0, Context(ctx.target, ctx.depth + 1);
    var o, start := if reuse then ctx.target.value else st.next, if reuse then st else Create(st, class_);
    EntityVisited(w, data, class_, skip, ctx, property, st);
    var r := Accept(w, data, EntityType(class_), skip, ctx, property, st);
    if class_ in w.metadata {
      PropertiesWritten(w, o, data, w.metadata[class_], inner, start);
      if r.Success? {
        assert WritesEntity(w, o, data, class_, inner, start, r.value.store);
      }
    }
  }

  /** The payload of a nested entity may be updated: its uid is that of a persisted object in scope of the target. */
  ghost predicate MayUpdate(w: World, class_: string, uid: int, ctx: Context, property: Property, st: Store) {
    && (class_, uid) in w.persisted && ctx.target.Some?
    && InScope(st, ctx.target.value, property, w.persisted[(class_, uid)])
  }

  /** Below the root a number is always accepted, any other scalar never, an array only where the property cascades. */
  lemma {:induction false} NestedAccepted(w: World, data: Payload, class_: string, ctx: Context,
                                          property: Option<Property>, st: Store)
    requires WellFormed(w, st) && TargetKnown(ctx, st) && ctx.depth >= 1 && data != NullData
    ensures var r := Accept(w, data, EntityType(class_), false, ctx, property, st);
      && (!IsArray(data) ==> (r.Success? <==> data.Numeric?))
      && (IsArray(data) && (property.None? || !property.value.cascade) ==> r.Failure?)
  {
    var inner := Context(ctx.target, ctx.depth + 1);
    assert Accept(w, data, EntityType(class_), false, ctx, property, st) ==
           DeserializeTransport(w, data, class_, inner, property, st);
  }

  /** An array with a uid is accepted exactly when that object may be updated and can be written, as the new target. */
  lemma {:induction false} UpdateAccepted(w: World, data: Payload, class_: string, ctx: Context, property: Property,
                                          st: Store)
    requires WellFormed(w, st) && TargetKnown(ctx, st) && ctx.depth >= 1
    requires IsArray(data) && property.cascade && GivesUid(data)
    ensures var r := Accept(w, data, EntityType(class_), false, ctx, Some(property), st);
      var uid := UidOf(Get(data, "uid").value);
      if MayUpdate(w, class_, uid, ctx, property, st) then
        var o := w.persisted[(class_, uid)];
        && (r.Success? <==> CanWriteEntity(w, o, data, class_, Context(Some(o), 1), st))
        && (r.Success? ==> WritesEntity(w, o, data, class_, Context(Some(o), 1), st, r.value.store))
      else r.Failure?
  {
    var inner, uid := Context(ctx.target, ctx.depth + 1), UidOf(Get(data, "uid").value);
    var r := Accept(w, data, EntityType(class_), false, ctx, Some(property), st);
    assert r == DeserializeTransport(w, data, class_, inner, Some(property), st);
    assert r == ProcessCascadePersistence(w, data, class_, inner, Some(property), st);
    assert r == ProcessCascadeUpdate(w, uid, data, class_, inner, property, st);
    hide CanWriteEntity, WritesEntity, InScope, Good;
    if MayUpdate(w, class_, uid, ctx, property, st) {
      EntityWritten(w, data, class_, false, Context(Some(w.persisted[(class_, uid)]), 0), None, st);
    }
  }

  /** An array without a uid is accepted exactly when a new object can be written. */
  lemma {:induction false} InsertAccepted(w: World, data: Payload, class_: string, ctx: Context, property: Property,
                                          st: Store)
    requires WellFormed(w, st) && TargetKnown(ctx, st) && ctx.depth >= 1
    requires IsArray(data) && property.cascade && !GivesUid(data)
    ensures var r := Accept(w, data, EntityType(class_), false, ctx, Some(property), st);
      var nested := Context(ctx.target, ctx.depth + 2);
      && (r.Success? <==> CanWriteEntity(w, st.next, data, class_, nested, Create(st, class_)))
      && (r.Success? ==> WritesEntity(w, st.next, data, class_, nested, Create(st, class_), r.value.store))
  {
    var inner := Context(ctx.target, ctx.depth + 1);
    var r := Accept(w, data, EntityType(class_), false, ctx, Some(property), st);
    assert r == DeserializeTransport(w, data, class_, inner, Some(property), st);
    assert r == ProcessCascadePersistence(w, data, class_, inner, Some(property), st);
    hide CanWriteEntity, WritesEntity, Good;
    EntityWritten(w, data, class_, true, inner, Some(property), st);
  }

  // ---------------------------------------------------------------- plain payloads

  /** Each writable property is given null, or a scalar where it is a scalar. */
  ghost predicate GivesPlain(data: Payload, properties: seq<Property>) {
    IsArray(data) && forall p, value :: p in properties && !p.readOnly && Gives(data, p.name, value) ==>
      value == NullData || (p.ptype == ScalarType && (value.Text? || value.Numeric?))
  }

  lemma {:induction false} GivesPlainIsAllPlain(data: Payload, properties: seq<Property>)
    requires GivesPlain(data, properties)
    ensures AllPlain(data, properties)
  {
    hide Gives;
    forall p | p in properties && Writes(data, p)
      ensures IsPlain(p, Get(data, p.name).value)
    {
      GetIs(data, p.name, Get(data, p.name).value);
    }
  }

  ghost predicate IsWritten(data: Payload, properties: seq<Property>, name: string, value: Payload) {
    Gives(data, name, value) && exists p :: p in properties && p.name == name && !p.readOnly
  }

  /**
   The fields of an object before and after: one that a writable property is given for holds the text, the
   number in decimal, or null; any other is as before.
   */
  ghost predicate FieldsAfter(data: Payload, properties: seq<Property>, before: map<string, Value>,
                              after: map<string, Value>)
  {
    && (forall name, value :: IsWritten(data, properties, name, value) ==>
          && name in after
          && (value == NullData ==> after[name] == NullValue)
          && (value.Text? ==> after[name] == ScalarValue(value.s))
          && (value.Numeric? ==> after[name] == ScalarValue(Decimal(value.n))))
    && (forall name :: (forall value :: !IsWritten(data, properties, name, value)) ==>
          (name in after <==> name in before) && (name in before ==> after[name] == before[name]))
  }

  lemma {:induction false} WrittenName(data: Payload, properties: seq<Property>, name: string, value: Payload)
    ensures IsWritten(data, properties, name, value) <==>
      name in WrittenNames(data, properties) && Get(data, name) == Some(value)
  {
    hide Gives;
    GetIs(data, name, value);
  }

  lemma {:induction false} UpdatingFields(before: map<string, Value>, data: Payload, properties: seq<Property>)
    requires AllPlain(data, properties)
    ensures FieldsAfter(data, properties, before, Updating(before, data, properties))
  {
    hide Gives, IsWritten, AllPlain, WrittenNames, Decimal, Get;
    WrittenIsPlain(data, properties);
    forall name, value
      ensures IsWritten(data, properties, name, value) ==>
        name in WrittenNames(data, properties) && Get(data, name) == Some(value)
    {
      WrittenName(data, properties, name, value);
    }
    forall name | name in WrittenNames(data, properties)
      ensures IsWritten(data, properties, name, Get(data, name).value)
    {
      WrittenName(data, properties, name, Get(data, name).value);
    }
  }

  /**
   A payload of plain values is accepted at the root. Its fields go to the target, or to a new object of
   the class without one, and nothing else changes.
   */
  lemma {:induction false} PlainFields(w: World, data: Payload, class_: string, target: Option<nat>, st: Store)
    requires WellFormed(w, st) && TargetKnown(Context(target, 0), st)
    requires class_ in w.metadata && GivesPlain(data, w.metadata[class_])
    ensures var r := Accept(w, data, EntityType(class_), false, Context(target, 0), None, st);
      && r.Success?
      && (target.Some? ==>
            var o, after := target.value, r.value.store;
            && after.objects.Keys == st.objects.Keys && after.next == st.next
            && (forall x :: x in st.objects && x != o ==> after.objects[x] == st.objects[x])
            && after.objects[o].class_ == st.objects[o].class_ && after.objects[o].uid == st.objects[o].uid
            && FieldsAfter(data, w.metadata[class_], st.objects[o].fields, after.objects[o].fields))
      && (target.None? ==>
            var o, after := st.next, r.value.store;
            && after.objects.Keys == st.objects.Keys + {o} && after.next == st.next + 1
            && (forall x :: x in st.objects ==> after.objects[x] == st.objects[x])
            && after.objects[o].class_ == class_ && after.objects[o].uid == None
            && FieldsAfter(data, w.metadata[class_], map[], after.objects[o].fields))
  {
    GivesPlainIsAllPlain(data, w.metadata[class_]);
    PlainPayload(w, data, class_, target, st);
    UpdatingFields(if target.Some? then st.objects[target.value].fields else map[], data, w.metadata[class_]);
    hide Accept, FieldsAfter, Updating, AllPlain, Good;
  }
}
