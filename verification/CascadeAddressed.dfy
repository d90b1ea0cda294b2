/** The updates that a payload asks for, and those that a successful call makes: the same ones, in the same order. */
module CascadeAddressed {
  import opened Wrappers
  import opened Cascade

  type Metadata = map<string, seq<Property>>

  // ---------------------------------------------------------------- steps of a successful call

  /** A nested array with uid: the check, then the update with the object as new target. */
  lemma {:induction false} UpdateStep(w: World, data: Payload, c: string, ctx: Context, property: Option<Property>,
                                      st: Store)
    requires WellFormed(w, st) && TargetKnown(ctx, st) && ctx.depth >= 1 && IsArray(data) && GivesUid(data)
    requires DeserializeTransport(w, data, c, ctx, property, st).Success?
    ensures ctx.target.Some? && property.Some? && property.value.cascade && c in w.metadata
    ensures var uid := UidOf(Get(data, "uid").value);
      && (c, uid) in w.persisted
      && var o, t := w.persisted[(c, uid)], ctx.target.value;
         InScope(st, t, property.value, o) &&
         var inner := VisitProperties(w, o, data, w.metadata[c], Context(Some(o), 1), st);
         inner.Success? &&
         DeserializeTransport(w, data, c, ctx, property, st).value ==
           Outcome(Reference(o), inner.value.store, [Updated(o, t, property.value, st)] + inner.value.log)
  {
    hide Good, InScope;
    assert DeserializeTransport(w, data, c, ctx, property, st) ==
           ProcessCascadePersistence(w, data, c, ctx, property, st);
    var uid := UidOf(Get(data, "uid").value);
    assert ProcessCascadePersistence(w, data, c, ctx, property, st) ==
           ProcessCascadeUpdate(w, uid, data, c, ctx, property.value, st);
    var o := w.persisted[(c, uid)];
    assert Accept(w, data, EntityType(c), false, Context(Some(o), 0), None, st).Success?;
    assert c in w.metadata;
    assert Accept(w, data, EntityType(c), false, Context(Some(o), 0), None, st) ==
           VisitProperties(w, o, data, w.metadata[c], Context(Some(o), 1), st);
  }

  /** A nested array without uid: a fresh object, written under the same target. */
  lemma {:induction false} InsertStep(w: World, data: Payload, c: string, ctx: Context, property: Option<Property>,
                                      st: Store)
    requires WellFormed(w, st) && TargetKnown(ctx, st) && ctx.depth >= 1 && IsArray(data) && !GivesUid(data)
    requires DeserializeTransport(w, data, c, ctx, property, st).Success?
    ensures property.Some? && property.value.cascade && c in w.metadata
    ensures var created := Create(st, c);
      && WellFormed(w, created)
      && var inner := VisitProperties(w, st.next, data, w.metadata[c], Context(ctx.target, ctx.depth + 1), created);
         inner.Success? &&
         DeserializeTransport(w, data, c, ctx, property, st).value ==
           Outcome(Reference(st.next), inner.value.store, [Inserted(st.next, c)] + inner.value.log)
  {
    hide Good, InScope;
    assert DeserializeTransport(w, data, c, ctx, property, st) ==
           ProcessCascadePersistence(w, data, c, ctx, property, st);
    assert ProcessCascadePersistence(w, data, c, ctx, property, st) ==
           Accept(w, data, EntityType(c), true, ctx, property, st);
  }

  /** A property that the payload writes. */
  lemma {:induction false} WriteStep(w: World, o: nat, data: Payload, properties: seq<Property>, ctx: Context,
                                     st: Store)
    requires WellFormed(w, st) && TargetKnown(ctx, st) && ctx.depth >= 1 && o in st.objects
    requires properties != [] && Writes(data, properties[0])
    requires VisitProperties(w, o, data, properties, ctx, st).Success?
    ensures IsArray(data)
    ensures var p := properties[0];
      var first := Accept(w, Get(data, p.name).value, p.ptype, false, ctx, Some(p), st);
      && first.Success? && Good(w, st, ctx, None, first.value) && o in first.value.store.objects
      && var set_ := SetField(first.value.store, o, p.name, first.value.value);
         var wrote := Wrote(o, p.name, first.value.value);
         WellFormed(w, set_) && TargetKnown(ctx, set_) &&
         Good(w, st, ctx, Some(o), Outcome(Reference(o), set_, first.value.log + [wrote])) &&
         var rest := VisitProperties(w, o, data, properties[1..], ctx, set_);
         rest.Success? && Good(w, set_, ctx, Some(o), rest.value) &&
         VisitProperties(w, o, data, properties, ctx, st).value ==
           Outcome(Reference(o), rest.value.store, first.value.log + [wrote] + rest.value.log)
  {
    hide Justified, Replay;
    var p := properties[0];
    var out := Accept(w, Get(data, p.name).value, p.ptype, false, ctx, Some(p), st).value;
    var set_ := SetField(out.store, o, p.name, out.value);
    GoodSetField(w, out.store, ctx, o, p.name, out.value);
    GoodWeaken(w, st, ctx, Some(o), out, out.value);
    GoodThen(w, st, ctx, ctx, Some(o), out, Outcome(Reference(o), set_, [Wrote(o, p.name, out.value)]));
  }

  /** The first element of a collection, and the others. */
  lemma {:induction false} ElementStep(w: World, items: seq<Payload>, c: string, ctx: Context,
                                       property: Option<Property>, st: Store)
    requires WellFormed(w, st) && TargetKnown(ctx, st) && ctx.depth >= 1 && items != []
    requires AcceptAll(w, items, c, ctx, property, st).Success?
    ensures var first := Accept(w, items[0], EntityType(c), false, ctx, property, st);
      && first.Success? && Good(w, st, ctx, None, first.value) && first.value.value.Reference?
      && TargetKnown(ctx, first.value.store)
      && var rest := AcceptAll(w, items[1..], c, ctx, property, first.value.store);
         rest.Success? && rest.value.value.Storage? &&
         AcceptAll(w, items, c, ctx, property, st).value ==
           Outcome(Storage([first.value.value.object_] + Without(rest.value.value.objects, first.value.value.object_)),
                   rest.value.store, first.value.log + rest.value.log)
  {
    hide Justified, Replay;
  }

  // ---------------------------------------------------------------- the updates of a log

  function UpdatesIn(log: seq<Event>): (r: seq<Event>)
    ensures forall e :: e in r ==> e in log && e.Updated?
  {
    if log == [] then [] else (if log[0].Updated? then [log[0]] else []) + UpdatesIn(log[1..])
  }

  /** The objects of a log's updates, in order. */
  function Updates(log: seq<Event>): seq<nat> {
    if log == [] then []
    else (if log[0].Updated? then [log[0].object_] else []) + Updates(log[1..])
  }

  lemma {:induction false} UpdatesLength(log: seq<Event>)
    ensures |Updates(log)| == |UpdatesIn(log)|
  {
    if log != [] {
      UpdatesLength(log[1..]);
    }
  }

  lemma {:induction false} UpdatesAt(log: seq<Event>, i: nat)
    requires i < |UpdatesIn(log)|
    ensures i < |Updates(log)| && Updates(log)[i] == UpdatesIn(log)[i].object_
  {
    UpdatesLength(log);
    if !log[0].Updated? {
      UpdatesAt(log[1..], i);
    } else if i > 0 {
      UpdatesAt(log[1..], i - 1);
    }
  }

  lemma {:induction false} UpdatesConcat(a: seq<Event>, b: seq<Event>)
    ensures Updates(a + b) == Updates(a) + Updates(b)
  {
    if a == [] {
      assert a + b == b;
    } else {
      assert (a + b)[0] == a[0] && (a + b)[1..] == a[1..] + b;
      UpdatesConcat(a[1..], b);
      var head := if a[0].Updated? then [a[0].object_] else [];
      assert head + (Updates(a[1..]) + Updates(b)) == head + Updates(a[1..]) + Updates(b);
    }
  }

  lemma {:induction false} UpdatesInConcat(a: seq<Event>, b: seq<Event>)
    ensures UpdatesIn(a + b) == UpdatesIn(a) + UpdatesIn(b)
  {
    if a == [] {
      assert a + b == b;
    } else {
      assert (a + b)[0] == a[0] && (a + b)[1..] == a[1..] + b;
      UpdatesInConcat(a[1..], b);
      var head := if a[0].Updated? then [a[0]] else [];
      assert head + (UpdatesIn(a[1..]) + UpdatesIn(b)) == head + UpdatesIn(a[1..]) + UpdatesIn(b);
    }
  }

  lemma {:induction false} UpdatesMember(log: seq<Event>, o: nat)
    ensures o in Updates(log) <==> UpdatedIn(log, o)
  {
    if log != [] {
      UpdatesMember(log[1..], o);
      assert log == [log[0]] + log[1..];
      UpdatedInConcat([log[0]], log[1..], o);
    }
  }

  lemma {:induction false} UpdatesOne(e: Event)
    ensures UpdatesIn([e]) == if e.Updated? then [e] else []
    ensures Updates([e]) == if e.Updated? then [e.object_] else []
  {
    assert [e][1..] == [];
  }

  // ---------------------------------------------------------------- what a payload addresses

  /** Class and uid. */
  type Key = (string, int)

  /** An update of the object of a key, through a property, under the object of another key or under the root. */
  datatype Address = Address(under: Option<Key>, property: Property, key: Key)

  /** The updates that a payload of a type addresses, in the order of deserialization. */
  function Addressed(m: Metadata, data: Payload, t: PropertyType, property: Option<Property>, under: Option<Key>)
      : seq<Address>
    decreases Size(data), 3, 0
  {
    if data == NullData then []
    else match t
      case ScalarType => []
      case StorageType(c) => if IsArray(data) then AddressedAll(m, Elements(data), c, property, under) else []
      case EntityType(c) =>
        if !IsArray(data) || c !in m then []
        else if property.Some? && GivesUid(data) then
          var key := (c, UidOf(Get(data, "uid").value));
          [Address(under, property.value, key)] + AddressedIn(m, data, m[c], Some(key))
        else AddressedIn(m, data, m[c], under)
  }

  function AddressedAll(m: Metadata, items: seq<Payload>, c: string, property: Option<Property>, under: Option<Key>)
      : seq<Address>
    decreases SizeOfItems(items), 0, 0
  {
    if items == [] then []
    else Addressed(m, items[0], EntityType(c), property, under) + AddressedAll(m, items[1..], c, property, under)
  }

  function AddressedIn(m: Metadata, data: Payload, properties: seq<Property>, under: Option<Key>): seq<Address>
    decreases Size(data), 1, |properties|
  {
    if properties == [] then []
    else
      var p := properties[0];
      (if Writes(data, p) then Addressed(m, Get(data, p.name).value, p.ptype, Some(p), under) else []) +
      AddressedIn(m, data, properties[1..], under)
  }

  function KeysOf(addresses: seq<Address>): seq<Key> {
    seq(|addresses|, i requires 0 <= i < |addresses| => addresses[i].key)
  }

  /** The object of a key, or the root target. */
  function TargetFor(w: World, root: Option<nat>, under: Option<Key>): Option<nat> {
    match under
    case None => root
    case Some(key) => if key in w.persisted then Some(w.persisted[key]) else None
  }

  /** The update is of the addressed object, checked through the addressed property against the enclosing target. */
  ghost predicate Performs(w: World, root: Option<nat>, e: Event, a: Address) {
    && e.Updated? && a.key in w.persisted && e.object_ == w.persisted[a.key]
    && e.property == a.property && TargetFor(w, root, a.under) == Some(e.target)
  }

  ghost predicate AllPerformed(w: World, root: Option<nat>, updates: seq<Event>, addresses: seq<Address>) {
    && |updates| == |addresses|
    && forall i :: 0 <= i < |updates| ==> Performs(w, root, updates[i], addresses[i])
  }

  lemma {:induction false} UpdatesThen(w: World, root: Option<nat>, a: seq<Event>, b: seq<Event>, as_: seq<Address>,
                                       bs: seq<Address>)
    requires AllPerformed(w, root, UpdatesIn(a), as_) && AllPerformed(w, root, UpdatesIn(b), bs)
    ensures AllPerformed(w, root, UpdatesIn(a + b), as_ + bs)
  {
    hide UpdatesIn, Performs;
    UpdatesInConcat(a, b);
  }

  lemma {:induction false} CollectionStep(w: World, data: Payload, c: string, ctx: Context, property: Option<Property>,
                                          st: Store)
    requires WellFormed(w, st) && TargetKnown(ctx, st) && data != NullData
    ensures var r := Accept(w, data, StorageType(c), false, ctx, property, st);
      if IsEmpty(data) then r == Success(Outcome(Storage([]), st, []))
      else if IsArray(data) then
        r == AcceptAll(w, Elements(data), c, Context(ctx.target, ctx.depth + 1), property, st)
      else r.Failure?
    ensures IsEmpty(data) ==> Elements(data) == []
  {
    hide Good;
  }

  lemma {:induction false} NestedStep(w: World, data: Payload, c: string, ctx: Context, property: Option<Property>,
                                      st: Store)
    requires WellFormed(w, st) && TargetKnown(ctx, st) && data != NullData && ctx.depth >= 1
    ensures Accept(w, data, EntityType(c), false, ctx, property, st) ==
            DeserializeTransport(w, data, c, Context(ctx.target, ctx.depth + 1), property, st)
  {
    hide Good;
  }

  lemma {:induction false} NothingLogged(w: World, data: Payload, t: PropertyType, ctx: Context,
                                         property: Option<Property>, st: Store)
    requires WellFormed(w, st) && TargetKnown(ctx, st) && (data == NullData || t.ScalarType?)
    requires Accept(w, data, t, false, ctx, property, st).Success?
    ensures Accept(w, data, t, false, ctx, property, st).value.log == []
  {
    hide Good;
  }

  /** The updates made are those the payload addresses, in its order, each against the target that encloses it. */
  lemma {:induction false} UpdatesAddressed(w: World, data: Payload, t: PropertyType, ctx: Context,
                                            property: Option<Property>, st: Store, root: Option<nat>,
                                            under: Option<Key>)
    requires WellFormed(w, st) && TargetKnown(ctx, st) && Accept(w, data, t, false, ctx, property, st).Success?
    requires ctx.target == TargetFor(w, root, under) && (ctx.depth > 0 || property.None?)
    ensures AllPerformed(w, root, UpdatesIn(Accept(w, data, t, false, ctx, property, st).value.log),
                         Addressed(w.metadata, data, t, property, under))
    decreases Size(data), 6, 0
  {
    hide Accept, Good, IsEmpty;
    if data == NullData || t.ScalarType? {
      NothingLogged(w, data, t, ctx, property, st);
    } else {
      var inner := Context(ctx.target, ctx.depth + 1);
      match t {
        case StorageType(c) =>
          CollectionStep(w, data, c, ctx, property, st);
          if !IsEmpty(data) {
            UpdatesAddressedAll(w, Elements(data), c, inner, property, st, root, under);
          }
        case EntityType(c) =>
          if ctx.depth > 0 {
            NestedStep(w, data, c, ctx, property, st);
            UpdatesAddressedNested(w, data, c, inner, property, st, root, under);
          } else {
            UpdatesAddressedRoot(w, data, c, ctx, st, root, under);
          }
      }
    }
  }

  lemma {:induction false} UpdatesAddressedRoot(w: World, data: Payload, c: string, ctx: Context, st: Store,
                                                root: Option<nat>, under: Option<Key>)
    requires WellFormed(w, st) && TargetKnown(ctx, st) && ctx.depth == 0 && data != NullData
    requires Accept(w, data, EntityType(c), false, ctx, None, st).Success? && ctx.target == TargetFor(w, root, under)
    ensures AllPerformed(w, root, UpdatesIn(Accept(w, data, EntityType(c), false, ctx, None, st).value.log),
                         Addressed(w.metadata, data, EntityType(c), None, under))
    decreases Size(data), 2, 0
  {
    hide Justified, Replay;
    if ctx.target.Some? {
      UpdatesAddressedIn(w, ctx.target.value, data, w.metadata[c], Context(ctx.target, 1), st, root, under);
    } else {
      UpdatesAddressedFresh(w, data, w.metadata[c], c, Context(None, 1), st, root, under);
    }
  }

  /** Below a fresh object. */
  lemma {:induction false} UpdatesAddressedFresh(w: World, data: Payload, properties: seq<Property>, c: string,
                                                 ctx: Context, st: Store, root: Option<nat>, under: Option<Key>)
    requires WellFormed(w, st) && WellFormed(w, Create(st, c)) && TargetKnown(ctx, st) && ctx.depth >= 1
    requires VisitProperties(w, st.next, data, properties, ctx, Create(st, c)).Success?
    requires ctx.target == TargetFor(w, root, under)
    ensures var log := VisitProperties(w, st.next, data, properties, ctx, Create(st, c)).value.log;
      AllPerformed(w, root, UpdatesIn([Inserted(st.next, c)] + log), AddressedIn(w.metadata, data, properties, under))
    decreases Size(data), 1, |properties| + 1
  {
    hide Good, VisitProperties, AddressedIn, UpdatesIn, Performs, Replay;
    var created := [Inserted(st.next, c)];
    UpdatesAddressedIn(w, st.next, data, properties, ctx, Create(st, c), root, under);
    UpdatesOne(created[0]);
    var addresses := AddressedIn(w.metadata, data, properties, under);
    UpdatesThen(w, root, created, VisitProperties(w, st.next, data, properties, ctx, Create(st, c)).value.log, [],
                addresses);
    assert [] + addresses == addresses;
  }

  lemma {:induction false} UpdatesAddressedAll(w: World, items: seq<Payload>, c: string, ctx: Context,
                                               property: Option<Property>, st: Store, root: Option<nat>,
                                               under: Option<Key>)
    requires WellFormed(w, st) && TargetKnown(ctx, st) && ctx.depth >= 1
    requires AcceptAll(w, items, c, ctx, property, st).Success? && ctx.target == TargetFor(w, root, under)
    ensures AllPerformed(w, root, UpdatesIn(AcceptAll(w, items, c, ctx, property, st).value.log),
                         AddressedAll(w.metadata, items, c, property, under))
    decreases SizeOfItems(items), 0, 0
  {
    if items != [] {
      ElementStep(w, items, c, ctx, property, st);
      hide AcceptAll, Accept, Justified, Replay;
      var first := Accept(w, items[0], EntityType(c), false, ctx, property, st).value;
      UpdatesAddressed(w, items[0], EntityType(c), ctx, property, st, root, under);
      UpdatesAddressedAll(w, items[1..], c, ctx, property, first.store, root, under);
      UpdatesThen(w, root, first.log, AcceptAll(w, items[1..], c, ctx, property, first.store).value.log,
                  Addressed(w.metadata, items[0], EntityType(c), property, under),
                  AddressedAll(w.metadata, items[1..], c, property, under));
    }
  }

  lemma {:induction false} UpdatesAddressedNested(w: World, data: Payload, c: string, ctx: Context,
                                                  property: Option<Property>, st: Store, root: Option<nat>,
                                                  under: Option<Key>)
    requires WellFormed(w, st) && TargetKnown(ctx, st) && ctx.depth >= 1 && data != NullData
    requires DeserializeTransport(w, data, c, ctx, property, st).Success? && ctx.target == TargetFor(w, root, under)
    ensures AllPerformed(w, root, UpdatesIn(DeserializeTransport(w, data, c, ctx, property, st).value.log),
                         Addressed(w.metadata, data, EntityType(c), property, under))
    decreases Size(data), 5, 0
  {
    hide DeserializeTransport, Good, InScope;
    if IsArray(data) {
      var m := w.metadata;
      if GivesUid(data) {
        UpdateStep(w, data, c, ctx, property, st);
        var key := (c, UidOf(Get(data, "uid").value));
        var o := w.persisted[key];
        var updated := [Updated(o, ctx.target.value, property.value, st)];
        UpdatesAddressedIn(w, o, data, m[c], Context(Some(o), 1), st, root, Some(key));
        UpdatesOne(updated[0]);
        UpdatesThen(w, root, updated, VisitProperties(w, o, data, m[c], Context(Some(o), 1), st).value.log,
                    [Address(under, property.value, key)], AddressedIn(m, data, m[c], Some(key)));
      } else {
        InsertStep(w, data, c, ctx, property, st);
        UpdatesAddressedFresh(w, data, m[c], c, Context(ctx.target, ctx.depth + 1), st, root, under);
      }
    }
  }

  lemma {:induction false} UpdatesAddressedIn(w: World, o: nat, data: Payload, properties: seq<Property>, ctx: Context,
                                              st: Store, root: Option<nat>, under: Option<Key>)
    requires WellFormed(w, st) && TargetKnown(ctx, st) && ctx.depth >= 1 && o in st.objects
    requires VisitProperties(w, o, data, properties, ctx, st).Success? && ctx.target == TargetFor(w, root, under)
    ensures AllPerformed(w, root, UpdatesIn(VisitProperties(w, o, data, properties, ctx, st).value.log),
                         AddressedIn(w.metadata, data, properties, under))
    decreases Size(data), 1, |properties|
  {
    if properties != [] {
      var p, addresses := properties[0], AddressedIn(w.metadata, data, properties[1..], under);
      if Writes(data, p) {
        WriteStep(w, o, data, properties, ctx, st);
        hide VisitProperties, Accept, Justified, Replay;
        var field := Get(data, p.name).value;
        var out := Accept(w, field, p.ptype, false, ctx, Some(p), st).value;
        var set_ := SetField(out.store, o, p.name, out.value);
        UpdatesAddressed(w, field, p.ptype, ctx, Some(p), st, root, under);
        UpdatesAddressedIn(w, o, data, properties[1..], ctx, set_, root, under);
        UpdatesAddressedWrite(w, root, out.log, Addressed(w.metadata, field, p.ptype, Some(p), under),
                              Wrote(o, p.name, out.value),
                              VisitProperties(w, o, data, properties[1..], ctx, set_).value.log, addresses);
      } else {
        UpdatesAddressedIn(w, o, data, properties[1..], ctx, st, root, under);
        assert [] + addresses == addresses;
      }
    }
  }

  lemma {:induction false} UpdatesAddressedWrite(w: World, root: Option<nat>, a: seq<Event>, as_: seq<Address>,
                                                 wrote: Event, b: seq<Event>, bs: seq<Address>)
    requires AllPerformed(w, root, UpdatesIn(a), as_) && wrote.Wrote? && AllPerformed(w, root, UpdatesIn(b), bs)
    ensures AllPerformed(w, root, UpdatesIn(a + [wrote] + b), as_ + bs)
  {
    UpdatesOne(wrote);
    UpdatesThen(w, root, a, [wrote], as_, []);
    assert as_ + [] == as_;
    UpdatesThen(w, root, a + [wrote], b, as_, bs);
  }

  lemma {:induction false} UpdateIsIn(log: seq<Event>, e: Event)
    requires e in log && e.Updated?
    ensures e in UpdatesIn(log)
  {
    if e != log[0] {
      UpdateIsIn(log[1..], e);
    }
  }

  /**
   Every update of a call is one that the payload addresses, and its object was in scope of the target that
   encloses it in the payload, in the store to which the call had led by then.
   */
  lemma {:induction false} CheckedUnderEnclosing(w: World, data: Payload, class_: string, root: nat, st: Store, n: nat)
    requires WellFormed(w, st) && root in st.objects
    requires Accept(w, data, EntityType(class_), false, Context(Some(root), 0), None, st).Success?
    requires var log := Accept(w, data, EntityType(class_), false, Context(Some(root), 0), None, st).value.log;
      n < |log| && log[n].Updated?
    ensures var log := Accept(w, data, EntityType(class_), false, Context(Some(root), 0), None, st).value.log;
      exists a :: a in Addressed(w.metadata, data, EntityType(class_), None, None) &&
                  Performs(w, Some(root), log[n], a) &&
                  InScope(Replay(st, log[..n]), log[n].target, a.property, log[n].object_)
  {
    var log := Accept(w, data, EntityType(class_), false, Context(Some(root), 0), None, st).value.log;
    var addresses := Addressed(w.metadata, data, EntityType(class_), None, None);
    UpdatesAddressed(w, data, EntityType(class_), Context(Some(root), 0), None, st, Some(root), None);
    assert JustifiedEvent(w, st, Some(root), Some(root), log[..n], log[n]);
    hide Accept, Addressed, Replay, InScope;
    UpdateIsIn(log, log[n]);
    var i :| 0 <= i < |UpdatesIn(log)| && UpdatesIn(log)[i] == log[n];
    assert Performs(w, Some(root), log[n], addresses[i]) && addresses[i] in addresses;
  }
}
