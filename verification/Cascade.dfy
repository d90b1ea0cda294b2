/**
 Cascade deserialization: a payload tree is written into a graph of domain objects. Nested entities
 travel through a transport type, whose handler finds, inserts or updates an object.
 */
module Cascade {
  import opened Wrappers
  import opened Php

  // ---------------------------------------------------------------- payloads

  /** A decoded payload. Numeric strings count as Numeric, as is_numeric has it. */
  datatype Payload =
    | NullData
    | Text(s: string)
    | Numeric(n: int)
    | Items(items: seq<Payload>)
    | Object(fields: seq<Field>)

  datatype Field = Field(name: string, data: Payload)

  function Size(p: Payload): nat
    decreases p, 1
  {
    match p
    case Items(items) => 1 + SizeOfItems(items)
    case Object(fields) => 1 + SizeOfFields(fields)
    case _ => 1
  }

  function SizeOfItems(items: seq<Payload>): nat
    decreases items, 0
  {
    if items == [] then 0 else Size(items[0]) + 1 + SizeOfItems(items[1..])
  }

  function SizeOfField(f: Field): nat
    decreases f, 2
  {
    Size(f.data)
  }

  function SizeOfFields(fields: seq<Field>): nat
    decreases fields, 0
  {
    if fields == [] then 0 else SizeOfField(fields[0]) + 1 + SizeOfFields(fields[1..])
  }

  predicate IsArray(p: Payload) {
    p.Items? || p.Object?
  }

  /** The field of a name; the last one wins, as in a decoded JSON object. */
  function FieldOf(fields: seq<Field>, name: string): (r: Option<Payload>)
    ensures r.Some? ==> Size(r.value) < SizeOfFields(fields)
  {
    if fields == [] then None
    else
      var later := FieldOf(fields[1..], name);
      if later.Some? then later
      else if fields[0].name == name then
        assert Size(fields[0].data) == SizeOfField(fields[0]);
        Some(fields[0].data)
      else None
  }

  function Get(p: Payload, name: string): (r: Option<Payload>)
    ensures r.Some? ==> Size(r.value) < Size(p)
  {
    if p.Object? then FieldOf(p.fields, name) else None
  }

  function Elements(p: Payload): (r: seq<Payload>)
    ensures SizeOfItems(r) < Size(p)
  {
    match p
    case Items(items) => items
    case Object(fields) => FieldValues(fields)
    case _ => []
  }

  function FieldValues(fields: seq<Field>): (r: seq<Payload>)
    ensures SizeOfItems(r) == SizeOfFields(fields)
  {
    if fields == [] then []
    else
      var rest := FieldValues(fields[1..]);
      assert ([fields[0].data] + rest)[1..] == rest;
      assert Size(fields[0].data) == SizeOfField(fields[0]);
      [fields[0].data] + rest
  }

  // ---------------------------------------------------------------- metadata and objects

  datatype PropertyType = ScalarType | EntityType(class_: string) | StorageType(class_: string)

  datatype Property = Property(name: string, ptype: PropertyType, readOnly: bool, cascade: bool)

  datatype Value = NullValue | ScalarValue(s: string) | Reference(object_: nat) | Storage(objects: seq<nat>)

  datatype DomainObject = DomainObject(class_: string, uid: Option<int>, fields: map<string, Value>)

  /** The objects in memory; `next` is not in use yet. */
  datatype Store = Store(objects: map<nat, DomainObject>, next: nat)

  /** Serializer metadata by class, and the persisted objects by class and uid. */
  datatype World = World(metadata: map<string, seq<Property>>, persisted: map<(string, int), nat>)

  /** The context attribute `target`, and the visiting depth. */
  datatype Context = Context(target: Option<nat>, depth: nat)

  function SetField(st: Store, o: nat, name: string, value: Value): Store
    requires o in st.objects
  {
    st.(objects := st.objects[o := st.objects[o].(fields := st.objects[o].fields[name := value])])
  }

  /** A new object of a class. */
  function Create(st: Store, class_: string): Store {
    Store(st.objects[st.next := DomainObject(class_, None, map[])], st.next + 1)
  }

  /** What happened, in order: an object created, a property set, and the check of an object about to be updated. */
  datatype Event =
    | Inserted(object_: nat, class_: string)
    | Wrote(object_: nat, name: string, value: Value)
    | Updated(object_: nat, target: nat, property: Property, before: Store)

  datatype Outcome = Outcome(value: Value, store: Store, log: seq<Event>)

  ghost predicate WellFormed(w: World, st: Store) {
    && (forall o :: o in st.objects ==> o < st.next)
    && (forall k :: k in w.persisted ==>
          w.persisted[k] in st.objects && st.objects[w.persisted[k]].class_ == k.0 &&
            st.objects[w.persisted[k]].uid == Some(k.1))
  }

  /** The same-named property of the target holds the object: by identity in a storage, by uid in a reference. */
  predicate InScope(st: Store, target: nat, p: Property, o: nat) {
    && target in st.objects && o in st.objects
    && p.name in st.objects[target].fields
    && var held := st.objects[target].fields[p.name];
       if p.ptype.StorageType? then held.Storage? && o in held.objects
       else held.Reference? && held.object_ in st.objects && st.objects[held.object_].uid == st.objects[o].uid
  }

  // ---------------------------------------------------------------- guarantees

  /** Objects keep their class and uid, and new ones are fresh. */
  ghost predicate Grows(st: Store, st': Store) {
    && st.next <= st'.next
    && (forall o :: o in st.objects ==>
      o in st'.objects && st'.objects[o].class_ == st.objects[o].class_ && st'.objects[o].uid == st.objects[o].uid)
    && (forall o :: o in st'.objects && o !in st.objects ==> st.next <= o)
  }

  predicate UpdatedIn(log: seq<Event>, o: nat) {
    exists e :: e in log && e.Updated? && e.object_ == o
  }

  function FieldAt(st: Store, o: nat, name: string): Option<Value> {
    if o in st.objects && name in st.objects[o].fields then Some(st.objects[o].fields[name]) else None
  }

  function Step(st: Store, e: Event): Store {
    match e
    case Inserted(_, class_) => Create(st, class_)
    case Wrote(o, name, value) => if o in st.objects then SetField(st, o, name, value) else st
    case Updated(_, _, _, _) => st
  }

  /** The store to which events lead. */
  function Replay(st: Store, log: seq<Event>): Store
    decreases |log|
  {
    if log == [] then st else Replay(Step(st, log[0]), log[1..])
  }

  lemma {:induction false} ReplayConcat(st: Store, a: seq<Event>, b: seq<Event>)
    ensures Replay(st, a + b) == Replay(Replay(st, a), b)
    decreases |a|
  {
    if a == [] {
      assert a + b == b;
    } else {
      assert (a + b)[0] == a[0] && (a + b)[1..] == a[1..] + b;
      ReplayConcat(Step(st, a[0]), a[1..], b);
    }
  }

  lemma {:induction false} ReplayOne(st: Store, e: Event)
    ensures Replay(st, [e]) == Step(st, e)
  {
    assert [e][1..] == [];
  }

  predicate WrittenIn(log: seq<Event>, o: nat, name: string) {
    exists e :: e in log && e.Wrote? && e.object_ == o && e.name == name
  }

  lemma {:induction false} WrittenInConcat(a: seq<Event>, b: seq<Event>, o: nat, name: string)
    ensures WrittenIn(a + b, o, name) <==> WrittenIn(a, o, name) || WrittenIn(b, o, name)
  {
    if e :| e in a && e.Wrote? && e.object_ == o && e.name == name {
      assert e in a + b;
    }
    if e :| e in b && e.Wrote? && e.object_ == o && e.name == name {
      assert e in a + b;
    }
  }

  /** Of the objects that existed before, events change only properties that they set. */
  lemma {:induction false} ReplayChanges(st: Store, log: seq<Event>, o: nat, name: string)
    requires o in st.objects && o < st.next && !WrittenIn(log, o, name)
    ensures FieldAt(Replay(st, log), o, name) == FieldAt(st, o, name)
    decreases |log|
  {
    if log != [] {
      assert log[0] in log && forall e :: e in log[1..] ==> e in log;
      ReplayChanges(Step(st, log[0]), log[1..], o, name);
    }
  }

  /** The store mid is the one to which the events so far have led from st. */
  ghost predicate Between(w: World, st: Store, mid: Store, log: seq<Event>) {
    WellFormed(w, mid) && Grows(st, mid) && mid == Replay(st, log)
  }

  /**
   Inserted objects are fresh. Properties are set on the owner, on fresh objects and on objects under
   update. An update is of a persisted object that was in scope of its target, which is the given one
   or was updated before, in the store `before`, which is the one that the events so far have led to.
   */
  ghost predicate JustifiedEvent(w: World, st: Store, target: Option<nat>, owner: Option<nat>, earlier: seq<Event>,
                                 e: Event)
  {
    match e
    case Inserted(o, _) => st.next <= o && o == Replay(st, earlier).next
    case Wrote(o, _, _) => owner == Some(o) || st.next <= o || UpdatedIn(earlier, o)
    case Updated(o, t, p, before) =>
      && p.cascade && InScope(before, t, p, o)
      && (target == Some(t) || UpdatedIn(earlier, t))
      && (exists k :: k in w.persisted && w.persisted[k] == o)
      && Between(w, st, before, earlier)
  }

  ghost predicate Justified(w: World, st: Store, target: Option<nat>, owner: Option<nat>, log: seq<Event>) {
    forall i :: 0 <= i < |log| ==> JustifiedEvent(w, st, target, owner, log[..i], log[i])
  }

  ghost predicate Good(w: World, st: Store, ctx: Context, owner: Option<nat>, out: Outcome) {
    Between(w, st, out.store, out.log) && Justified(w, st, ctx.target, owner, out.log)
  }

  lemma {:induction false} UpdatedInConcat(a: seq<Event>, b: seq<Event>, o: nat)
    ensures UpdatedIn(a + b, o) <==> UpdatedIn(a, o) || UpdatedIn(b, o)
  {
    if e :| e in a && e.Updated? && e.object_ == o {
      assert e in a + b;
    }
    if e :| e in b && e.Updated? && e.object_ == o {
      assert e in a + b;
    }
  }

  lemma {:induction false} BetweenThen(w: World, st: Store, mid: Store, st': Store, a: seq<Event>, b: seq<Event>)
    requires Between(w, st, mid, a) && Between(w, mid, st', b)
    ensures Between(w, st, st', a + b)
  {
    ReplayConcat(st, a, b);
  }

  /** Who may write in a second step: the same owner, a fresh object, or one that the first step updated. */
  ghost predicate OwnerAfter(st: Store, owner: Option<nat>, a: seq<Event>, owner': Option<nat>) {
    owner' == owner || owner' == None || st.next <= owner'.value || UpdatedIn(a, owner'.value)
  }

  /** Logs of consecutive steps; the second step may run for a target that the first one updated. */
  lemma {:induction false} JustifiedConcat(w: World, st: Store, mid: Store, target: Option<nat>, target': Option<nat>,
                                           owner: Option<nat>, owner': Option<nat>, a: seq<Event>, b: seq<Event>)
    requires Justified(w, st, target, owner, a) && Between(w, st, mid, a)
    requires Justified(w, mid, target', owner', b) && OwnerAfter(st, owner, a, owner')
    requires target' == target || (target'.Some? && UpdatedIn(a, target'.value))
    ensures Justified(w, st, target, owner, a + b)
  {
    forall i | 0 <= i < |a + b|
      ensures JustifiedEvent(w, st, target, owner, (a + b)[..i], (a + b)[i])
    {
      if i < |a| {
        assert (a + b)[..i] == a[..i];
        assert JustifiedEvent(w, st, target, owner, a[..i], a[i]);
      } else {
        var j := i - |a|;
        assert (a + b)[..i] == a + b[..j];
        assert JustifiedEvent(w, mid, target', owner', b[..j], b[j]);
        JustifiedLater(w, st, mid, target, target', owner, owner', a, b[..j], b[j]);
      }
    }
  }

  lemma {:induction false} JustifiedLater(w: World, st: Store, mid: Store, target: Option<nat>, target': Option<nat>,
                                          owner: Option<nat>, owner': Option<nat>, a: seq<Event>, b: seq<Event>,
                                          e: Event)
    requires Between(w, st, mid, a) && OwnerAfter(st, owner, a, owner')
    requires JustifiedEvent(w, mid, target', owner', b, e)
    requires target' == target || (target'.Some? && UpdatedIn(a, target'.value))
    ensures JustifiedEvent(w, st, target, owner, a + b, e)
  {
    UpdatedInConcat(a, b, e.object_);
    ReplayConcat(st, a, b);
    if e.Updated? {
      UpdatedInConcat(a, b, e.target);
      BetweenThen(w, st, mid, e.before, a, b);
    }
  }

  /** One step after another. */
  lemma {:induction false} GoodThen(w: World, st: Store, ctx: Context, ctx': Context, owner: Option<nat>,
                                    first: Outcome, second: Outcome)
    requires ctx.target == ctx'.target
    requires Good(w, st, ctx, owner, first) && Good(w, first.store, ctx', owner, second)
    ensures Good(w, st, ctx, owner, Outcome(second.value, second.store, first.log + second.log))
  {
    JustifiedConcat(w, st, first.store, ctx.target, ctx.target, owner, owner, first.log, second.log);
    BetweenThen(w, st, first.store, second.store, first.log, second.log);
  }

  lemma {:induction false} GoodNothing(w: World, st: Store, ctx: Context, owner: Option<nat>, value: Value)
    requires WellFormed(w, st)
    ensures Good(w, st, ctx, owner, Outcome(value, st, []))
  {
  }

  lemma {:induction false} GoodWeaken(w: World, st: Store, ctx: Context, owner: Option<nat>, out: Outcome, value: Value)
    requires Good(w, st, ctx, None, out)
    ensures Good(w, st, ctx, owner, Outcome(value, out.store, out.log))
  {
    forall i | 0 <= i < |out.log|
      ensures JustifiedEvent(w, st, ctx.target, owner, out.log[..i], out.log[i])
    {
      assert JustifiedEvent(w, st, ctx.target, None, out.log[..i], out.log[i]);
    }
  }

  lemma {:induction false} GoodSetField(w: World, st: Store, ctx: Context, o: nat, name: string, value: Value)
    requires WellFormed(w, st) && o in st.objects
    ensures Good(w, st, ctx, Some(o), Outcome(Reference(o), SetField(st, o, name, value), [Wrote(o, name, value)]))
  {
    ReplayOne(st, Wrote(o, name, value));
  }

  lemma {:induction false} GoodInsert(w: World, st: Store, ctx: Context, ctx': Context, class_: string, out: Outcome)
    requires WellFormed(w, st) && ctx.target == ctx'.target
    requires Good(w, Create(st, class_), ctx', Some(st.next), out)
    ensures WellFormed(w, Create(st, class_))
    ensures Good(w, st, ctx, None, Outcome(Reference(st.next), out.store, [Inserted(st.next, class_)] + out.log))
  {
    var created := [Inserted(st.next, class_)];
    ReplayOne(st, created[0]);
    assert JustifiedEvent(w, st, ctx.target, None, created[..0], created[0]);
    assert Between(w, st, Create(st, class_), created);
    JustifiedConcat(w, st, Create(st, class_), ctx.target, ctx.target, None, Some(st.next), created, out.log);
    BetweenThen(w, st, Create(st, class_), out.store, created, out.log);
  }

  lemma {:induction false} GoodUpdate(w: World, st: Store, ctx: Context, o: nat, t: nat, p: Property,
                                      key: (string, int), out: Outcome)
    requires WellFormed(w, st) && ctx.target == Some(t) && p.cascade && InScope(st, t, p, o)
    requires key in w.persisted && w.persisted[key] == o
    requires Good(w, st, Context(Some(o), 0), Some(o), out)
    ensures Good(w, st, ctx, None, Outcome(out.value, out.store, [Updated(o, t, p, st)] + out.log))
  {
    var updated := [Updated(o, t, p, st)];
    ReplayOne(st, updated[0]);
    assert Between(w, st, st, []);
    assert Between(w, st, st, updated);
    assert JustifiedEvent(w, st, ctx.target, None, updated[..0], updated[0]);
    assert updated[0] in updated && updated[0].Updated? && updated[0].object_ == o;
    JustifiedConcat(w, st, st, ctx.target, Some(o), None, Some(o), updated, out.log);
    BetweenThen(w, st, st, out.store, updated, out.log);
  }

  // ---------------------------------------------------------------- deserialization

  /** `(int)$data['uid']` */
  function UidOf(p: Payload): int {
    match p
    case Numeric(n) => n
    case Text(s) => IntCast(s)
    case NullData => 0
    case Items(items) => if items == [] then 0 else 1
    case Object(fields) => if fields == [] then 0 else 1
  }

  /** `isset($data['uid'])` */
  predicate GivesUid(data: Payload) {
    Get(data, "uid").Some? && Get(data, "uid").value != NullData
  }

  predicate IsEmpty(p: Payload) {
    p == NullData || p == Text("") || p == Numeric(0) || p == Items([]) || p == Object([])
  }

  /** A constructor reuses the target at depth 1 only. */
  predicate ReusesTarget(ctx: Context, depth: nat) {
    ctx.target.Some? && depth == 1
  }

  ghost predicate TargetKnown(ctx: Context, st: Store) {
    ctx.target.Some? ==> ctx.target.value in st.objects
  }

  /** Who may change besides updated objects: the target, when the navigator is at the root. */
  ghost function OwnerAt(ctx: Context): Option<nat> {
    if ctx.depth == 0 then ctx.target else None
  }

  /** The navigator. `skip` is the marker of a transport type that has been unwrapped. */
  function Accept(w: World, data: Payload, t: PropertyType, skip: bool, ctx: Context, property: Option<Property>,
                  st: Store): (r: Result<Outcome>)
    requires WellFormed(w, st) && TargetKnown(ctx, st)
    ensures r.Success? ==> Good(w, st, ctx, OwnerAt(ctx), r.value)
    ensures r.Success? && t.EntityType? && data != NullData && (skip || ctx.depth == 0) ==>
      r.value.value == Reference(if ctx.depth == 0 && ctx.target.Some? then ctx.target.value else st.next)
    decreases Size(data), if skip || ctx.depth == 0 then 2 else 6, 0
  {
    if data == NullData then
      GoodNothing(w, st, ctx, OwnerAt(ctx), NullValue);
      Success(Outcome(NullValue, st, []))
    else match t
      case ScalarType =>
        if IsArray(data) then Failure("unexpected array")
        else
          var value := ScalarValue(if data.Text? then data.s else Decimal(data.n));
          GoodNothing(w, st, ctx, OwnerAt(ctx), value);
          Success(Outcome(value, st, []))
      case StorageType(class_) =>
        if IsEmpty(data) then
          GoodNothing(w, st, ctx, OwnerAt(ctx), Storage([]));
          Success(Outcome(Storage([]), st, []))
        else if !IsArray(data) then Failure("data can not be converted to an object storage")
        else
          var out :- AcceptAll(w, Elements(data), class_, Context(ctx.target, ctx.depth + 1), property, st);
          GoodWeaken(w, st, ctx, OwnerAt(ctx), out, out.value);
          Success(out)
      case EntityType(class_) =>
        var depth := ctx.depth + 1;
        if !skip && depth > 1 then
          DeserializeTransport(w, data, class_, Context(ctx.target, depth), property, st)
        else if class_ !in w.metadata then Failure("no metadata")
        else if ReusesTarget(ctx, depth) then
          VisitProperties(w, ctx.target.value, data, w.metadata[class_], Context(ctx.target, depth), st)
        else
          var created := Create(st, class_);
          var out :- VisitProperties(w, st.next, data, w.metadata[class_], Context(ctx.target, depth), created);
          GoodInsert(w, st, ctx, Context(ctx.target, depth), class_, out);
          var result := Outcome(Reference(st.next), out.store, [Inserted(st.next, class_)] + out.log);
          GoodWeaken(w, st, ctx, OwnerAt(ctx), result, result.value);
          Success(result)
  }

  function Without(objects: seq<nat>, o: nat): (r: seq<nat>)
    ensures forall x :: x in r <==> x in objects && x != o
  {
    if objects == [] then []
    else (if objects[0] == o then [] else [objects[0]]) + Without(objects[1..], o)
  }

  /** The elements of a collection, attached to an object storage. */
  function AcceptAll(w: World, items: seq<Payload>, class_: string, ctx: Context, property: Option<Property>, st: Store)
      : (r: Result<Outcome>)
    requires WellFormed(w, st) && TargetKnown(ctx, st) && ctx.depth >= 1
    ensures r.Success? ==> Good(w, st, ctx, None, r.value) && r.value.value.Storage?
    decreases SizeOfItems(items), 0, 0
  {
    if items == [] then
      GoodNothing(w, st, ctx, None, Storage([]));
      Success(Outcome(Storage([]), st, []))
    else
      var first :- Accept(w, items[0], EntityType(class_), false, ctx, property, st);
      if !first.value.Reference? then Failure("only objects can be attached")
      else
        var rest :- AcceptAll(w, items[1..], class_, ctx, property, first.store);
        GoodThen(w, st, ctx, ctx, None, first, rest);
        var objects := [first.value.object_] + Without(rest.value.objects, first.value.object_);
        GoodWeaken(w, st, ctx, None, Outcome(rest.value, rest.store, first.log + rest.log), Storage(objects));
        Success(Outcome(Storage(objects), rest.store, first.log + rest.log))
  }

  /** The handler of the transport type. */
  function DeserializeTransport(w: World, data: Payload, class_: string, ctx: Context, property: Option<Property>,
                                st: Store): (r: Result<Outcome>)
    requires WellFormed(w, st) && TargetKnown(ctx, st) && ctx.depth >= 1
    ensures r.Success? ==> Good(w, st, ctx, None, r.value)
    ensures data.Numeric? ==>
      var known := (class_, data.n) in w.persisted;
      r == Success(Outcome(if known then Reference(w.persisted[(class_, data.n)]) else NullValue, st, []))
    ensures IsArray(data) && r.Success? ==>
      && property.Some? && property.value.cascade
      && (GivesUid(data) ==> (class_, UidOf(Get(data, "uid").value)) in w.persisted)
      && r.value.value ==
           Reference(if GivesUid(data) then w.persisted[(class_, UidOf(Get(data, "uid").value))] else st.next)
    ensures !data.Numeric? && !IsArray(data) ==> r.Failure?
    decreases Size(data), 5, 0
  {
    if data.Numeric? then
      var value := if (class_, data.n) in w.persisted then Reference(w.persisted[(class_, data.n)]) else NullValue;
      GoodNothing(w, st, ctx, None, value);
      Success(Outcome(value, st, []))
    else if IsArray(data) then ProcessCascadePersistence(w, data, class_, ctx, property, st)
    else Failure("It was not possible to deserialize")
  }

  function ProcessCascadePersistence(w: World, data: Payload, class_: string, ctx: Context, property: Option<Property>,
                                     st: Store): (r: Result<Outcome>)
    requires WellFormed(w, st) && TargetKnown(ctx, st) && ctx.depth >= 1
    ensures r.Success? ==> Good(w, st, ctx, None, r.value)
    ensures r.Success? && data != NullData ==>
      && property.Some? && property.value.cascade
      && (GivesUid(data) ==> (class_, UidOf(Get(data, "uid").value)) in w.persisted)
      && r.value.value ==
        Reference(if GivesUid(data) then w.persisted[(class_, UidOf(Get(data, "uid").value))] else st.next)
    decreases Size(data), 4, 0
  {
    if property.None? then Failure("It was not possible to check if property allows cascade persistence")
    else if !property.value.cascade then Failure("Property does not allow cascade persistence")
    else
      if GivesUid(data)
      then ProcessCascadeUpdate(w, UidOf(Get(data, "uid").value), data, class_, ctx, property.value, st)
      else Accept(w, data, EntityType(class_), true, ctx, property, st)
  }

  function ProcessCascadeUpdate(w: World, uid: int, data: Payload, class_: string, ctx: Context, property: Property,
                                st: Store): (r: Result<Outcome>)
    requires WellFormed(w, st) && TargetKnown(ctx, st) && ctx.depth >= 1 && property.cascade
    ensures r.Success? ==> Good(w, st, ctx, None, r.value)
    ensures r.Success? ==>
      && (class_, uid) in w.persisted && ctx.target.Some?
      && var o, t := w.persisted[(class_, uid)], ctx.target.value;
         InScope(st, t, property, o) && r.value.log != [] && r.value.log[0] == Updated(o, t, property, st)
    ensures r.Success? && data != NullData ==> r.value.value == Reference(w.persisted[(class_, uid)])
    decreases Size(data), 3, 0
  {
    if (class_, uid) !in w.persisted then Failure("Entity could not be found")
    else
      var o := w.persisted[(class_, uid)];
      if ctx.target.None? then Failure("It is not possible to check the context scope without parent object")
      else if !InScope(st, ctx.target.value, property, o) then Failure("Object is out of scope")
      else
        var out :- Accept(w, data, EntityType(class_), false, Context(Some(o), 0), None, st);
        GoodUpdate(w, st, ctx, o, ctx.target.value, property, (class_, uid), out);
        Success(Outcome(out.value, out.store, [Updated(o, ctx.target.value, property, st)] + out.log))
  }

  /** Writes the properties present in the payload to the object, in metadata order. */
  function VisitProperties(w: World, o: nat, data: Payload, properties: seq<Property>, ctx: Context, st: Store)
      : (r: Result<Outcome>)
    requires WellFormed(w, st) && TargetKnown(ctx, st) && ctx.depth >= 1 && o in st.objects
    ensures r.Success? ==> Good(w, st, ctx, Some(o), r.value) && r.value.value == Reference(o)
    decreases Size(data), 1, |properties|
  {
    if !IsArray(data) then Failure("Invalid data")
    else if properties == [] then
      GoodNothing(w, st, ctx, Some(o), Reference(o));
      Success(Outcome(Reference(o), st, []))
    else
      var p, field := properties[0], Get(data, properties[0].name);
      if p.readOnly || field.None? then VisitProperties(w, o, data, properties[1..], ctx, st)
      else
        var out :- Accept(w, field.value, p.ptype, false, ctx, Some(p), st);
        var set_ := SetField(out.store, o, p.name, out.value);
        var rest :- VisitProperties(w, o, data, properties[1..], ctx, set_);
        GoodSetField(w, out.store, ctx, o, p.name, out.value);
        GoodWeaken(w, st, ctx, Some(o), out, out.value);
        GoodThen(w, st, ctx, ctx, Some(o), out, Outcome(Reference(o), set_, [Wrote(o, p.name, out.value)]));
        GoodThen(w, st, ctx, ctx, Some(o), Outcome(Reference(o), set_, out.log + [Wrote(o, p.name, out.value)]), rest);
        Success(Outcome(Reference(o), rest.store, out.log + [Wrote(o, p.name, out.value)] + rest.log))
  }

  // ---------------------------------------------------------------- what is written

  /** A value without nested objects: null, or a scalar for a scalar property. */
  predicate IsPlain(p: Property, data: Payload) {
    !IsArray(data) && (data == NullData || p.ptype == ScalarType)
  }

  /** The value that a property takes from it. */
  function Converted(data: Payload): Value
    requires !IsArray(data)
  {
    match data
    case NullData => NullValue
    case Text(s) => ScalarValue(s)
    case Numeric(n) => ScalarValue(Decimal(n))
  }

  /** The payload writes the property. */
  predicate Writes(data: Payload, p: Property) {
    !p.readOnly && Get(data, p.name).Some?
  }

  ghost predicate AllPlain(data: Payload, properties: seq<Property>) {
    IsArray(data) && forall p :: p in properties && Writes(data, p) ==> IsPlain(p, Get(data, p.name).value)
  }

  function WrittenNames(data: Payload, properties: seq<Property>): set<string> {
    set p | p in properties && Writes(data, p) :: p.name
  }

  ghost predicate PlainNames(data: Payload, names: set<string>) {
    forall name :: name in names ==> Get(data, name).Some? && !IsArray(Get(data, name).value)
  }

  /** The fields after writing the named parts of a payload over them. */
  ghost function Overlaid(fields: map<string, Value>, data: Payload, names: set<string>): map<string, Value>
    requires PlainNames(data, names)
  {
    fields + map name | name in names :: Converted(Get(data, name).value)
  }

  ghost function WriteLog(o: nat, data: Payload, properties: seq<Property>): seq<Event>
    requires AllPlain(data, properties)
  {
    if properties == [] then []
    else
      var p := properties[0];
      (if Writes(data, p) then [Wrote(o, p.name, Converted(Get(data, p.name).value))] else []) +
      WriteLog(o, data, properties[1..])
  }

  function WithFields(st: Store, o: nat, fields: map<string, Value>): Store
    requires o in st.objects
  {
    st.(objects := st.objects[o := st.objects[o].(fields := fields)])
  }

  lemma {:induction false} OverlaidOne(fields: map<string, Value>, data: Payload, name: string, names: set<string>)
    requires PlainNames(data, {name} + names)
    ensures Overlaid(fields, data, {name} + names) ==
            Overlaid(fields[name := Converted(Get(data, name).value)], data, names)
  {
  }

  lemma {:induction false} WrittenFirst(data: Payload, properties: seq<Property>)
    requires properties != [] && AllPlain(data, properties)
    ensures AllPlain(data, properties[1..]) && PlainNames(data, WrittenNames(data, properties))
    ensures WrittenNames(data, properties) ==
      (if Writes(data, properties[0]) then {properties[0].name} else {}) + WrittenNames(data, properties[1..])
  {
    assert properties == [properties[0]] + properties[1..];
  }

  lemma {:induction false} WrittenIsPlain(data: Payload, properties: seq<Property>)
    requires AllPlain(data, properties)
    ensures PlainNames(data, WrittenNames(data, properties))
  {
  }

  /** The fields of an object after a payload of plain values. */
  ghost function Updating(fields: map<string, Value>, data: Payload, properties: seq<Property>): map<string, Value>
    requires AllPlain(data, properties)
  {
    WrittenIsPlain(data, properties);
    Overlaid(fields, data, WrittenNames(data, properties))
  }

  /** Writing plain values sets exactly the writable properties that the payload has, and nothing else anywhere. */
  lemma {:induction false} PlainWritten(w: World, o: nat, data: Payload, properties: seq<Property>, ctx: Context,
                                        st: Store)
    requires WellFormed(w, st) && TargetKnown(ctx, st) && ctx.depth >= 1 && o in st.objects
    requires AllPlain(data, properties)
    ensures VisitProperties(w, o, data, properties, ctx, st) ==
      Success(Outcome(Reference(o), WithFields(st, o, Updating(st.objects[o].fields, data, properties)),
                      WriteLog(o, data, properties)))
    decreases |properties|
  {
    var fields := st.objects[o].fields;
    if properties == [] {
      assert Updating(fields, data, properties) == fields;
      assert st.objects[o := st.objects[o]] == st.objects;
    } else {
      var p, names := properties[0], WrittenNames(data, properties[1..]);
      WrittenFirst(data, properties);
      WrittenIsPlain(data, properties[1..]);
      hide WrittenNames, Overlaid, WellFormed, Good;
      if Writes(data, p) {
        OverlaidOne(fields, data, p.name, names);
        var value := Converted(Get(data, p.name).value);
        PlainStep(w, o, data, properties, ctx, st);
        PlainWritten(w, o, data, properties[1..], ctx, SetField(st, o, p.name, value));
        SetThenWith(st, o, p.name, value, Overlaid(fields[p.name := value], data, names));
      } else {
        assert {} + names == names;
        PlainWritten(w, o, data, properties[1..], ctx, st);
        assert [] + WriteLog(o, data, properties[1..]) == WriteLog(o, data, properties[1..]);
      }
    }
  }

  lemma {:induction false} SetThenWith(st: Store, o: nat, name: string, value: Value, fields: map<string, Value>)
    requires o in st.objects
    ensures SetField(st, o, name, value).objects[o].fields == st.objects[o].fields[name := value]
    ensures WithFields(SetField(st, o, name, value), o, fields) == WithFields(st, o, fields)
  {
  }

  lemma {:induction false} PlainStep(w: World, o: nat, data: Payload, properties: seq<Property>, ctx: Context,
                                     st: Store)
    requires WellFormed(w, st) && TargetKnown(ctx, st) && ctx.depth >= 1 && o in st.objects
    requires properties != [] && IsArray(data) && Writes(data, properties[0])
    requires IsPlain(properties[0], Get(data, properties[0].name).value)
    ensures var p := properties[0];
      var set_ := SetField(st, o, p.name, Converted(Get(data, p.name).value));
      && WellFormed(w, set_)
      && var rest := VisitProperties(w, o, data, properties[1..], ctx, set_);
         VisitProperties(w, o, data, properties, ctx, st) ==
           if rest.Failure? then rest
           else
             var wrote := Wrote(o, p.name, Converted(Get(data, p.name).value));
             Success(Outcome(Reference(o), rest.value.store, [wrote] + rest.value.log))
  {
    var p := properties[0];
    var data' := Get(data, p.name).value;
    assert Accept(w, data', p.ptype, false, ctx, Some(p), st) == Success(Outcome(Converted(data'), st, []));
    assert [] + [Wrote(o, p.name, Converted(data'))] == [Wrote(o, p.name, Converted(data'))];
  }

  /** A payload of plain values, at the root: the target, or a new object without one, gets exactly its values. */
  lemma {:induction false} PlainPayload(w: World, data: Payload, class_: string, target: Option<nat>, st: Store)
    requires WellFormed(w, st) && TargetKnown(Context(target, 0), st)
    requires class_ in w.metadata && AllPlain(data, w.metadata[class_])
    ensures var r := Accept(w, data, EntityType(class_), false, Context(target, 0), None, st);
      r.Success? && r.value.store ==
        if target.Some?
        then WithFields(st, target.value, Updating(st.objects[target.value].fields, data, w.metadata[class_]))
        else WithFields(Create(st, class_), st.next, Updating(map[], data, w.metadata[class_]))
  {
    var ctx := Context(target, 1);
    if target.Some? {
      PlainWritten(w, target.value, data, w.metadata[class_], ctx, st);
    } else {
      PlainWritten(w, st.next, data, w.metadata[class_], ctx, Create(st, class_));
    }
  }

  /**
   A nested entity: a number refers to the persisted object of that uid and changes nothing; an array,
   where the property cascades, yields the persisted object of its uid, or a fresh one without uid.
   */
  lemma {:induction false} NestedEntity(w: World, data: Payload, class_: string, ctx: Context,
                                        property: Option<Property>, st: Store)
    requires WellFormed(w, st) && TargetKnown(ctx, st) && ctx.depth >= 1 && data != NullData
    requires Accept(w, data, EntityType(class_), false, ctx, property, st).Success?
    ensures var out := Accept(w, data, EntityType(class_), false, ctx, property, st).value;
      if data.Numeric? then
        out == Outcome(
          if (class_, data.n) in w.persisted then Reference(w.persisted[(class_, data.n)]) else NullValue, st, [])
      else
        && IsArray(data) && property.Some? && property.value.cascade
        && (GivesUid(data) ==> (class_, UidOf(Get(data, "uid").value)) in w.persisted)
        && out.value ==
          Reference(if GivesUid(data) then w.persisted[(class_, UidOf(Get(data, "uid").value))] else st.next)
  {
    var nested := Context(ctx.target, ctx.depth + 1);
    assert Accept(w, data, EntityType(class_), false, ctx, property, st) ==
           DeserializeTransport(w, data, class_, nested, property, st);
  }

  // ---------------------------------------------------------------- consequences

  lemma {:induction false} SameObject(st: Store, st': Store, o: nat)
    requires o in st.objects && Grows(st, st') && forall name :: FieldAt(st', o, name) == FieldAt(st, o, name)
    ensures st'.objects[o] == st.objects[o]
  {
    var a, b := st.objects[o].fields, st'.objects[o].fields;
    forall name
      ensures name in a <==> name in b
      ensures name in a ==> a[name] == b[name]
    {
      assert FieldAt(st', o, name) == FieldAt(st, o, name);
    }
    assert a == b;
  }

  /** Without a target no event is an update, the first one would lack a target; and only fresh objects are written. */
  lemma {:induction false} NoTargetNoUpdate(w: World, st: Store, log: seq<Event>, n: nat)
    requires Justified(w, st, None, None, log) && n <= |log|
    ensures forall i :: 0 <= i < n ==> !log[i].Updated? && st.next <= log[i].object_
  {
    if n > 0 {
      NoTargetNoUpdate(w, st, log, n - 1);
      assert JustifiedEvent(w, st, None, None, log[..n - 1], log[n - 1]);
    }
  }

  /** A payload for a new entity changes no object that exists already. */
  lemma {:induction false} CreatingChangesNothing(w: World, data: Payload, class_: string, st: Store)
    requires WellFormed(w, st)
    requires Accept(w, data, EntityType(class_), false, Context(None, 0), None, st).Success?
    ensures var out := Accept(w, data, EntityType(class_), false, Context(None, 0), None, st).value;
      forall o :: o in st.objects ==> o in out.store.objects && out.store.objects[o] == st.objects[o]
  {
    var out := Accept(w, data, EntityType(class_), false, Context(None, 0), None, st).value;
    NoTargetNoUpdate(w, st, out.log, |out.log|);
    forall o | o in st.objects
      ensures out.store.objects[o] == st.objects[o]
    {
      assert forall e :: e in out.log ==> st.next <= e.object_;
      forall name
        ensures FieldAt(out.store, o, name) == FieldAt(st, o, name)
      {
        ReplayChanges(st, out.log, o, name);
      }
      SameObject(st, out.store, o);
    }
  }

  /** The n-th event is an update that was checked on the store to which the events before it have led. */
  ghost predicate CheckedUpdate(w: World, st: Store, root: nat, log: seq<Event>, n: nat) {
    n < |log| && log[n].Updated? && JustifiedEvent(w, st, Some(root), Some(root), log[..n], log[n])
  }

  /** A chain of scope checks from the root target, as the indices of updates. */
  ghost predicate Chain(w: World, st: Store, root: nat, log: seq<Event>, chain: seq<nat>) {
    && chain != []
    && (forall k :: 0 <= k < |chain| ==> CheckedUpdate(w, st, root, log, chain[k]))
    && log[chain[0]].target == root
    && (forall k :: 0 < k < |chain| ==>
          chain[k - 1] < chain[k] && log[chain[k]].target == log[chain[k - 1]].object_)
  }

  lemma {:induction false} ExtendChain(w: World, st: Store, root: nat, log: seq<Event>, chain: seq<nat>, n: nat)
    requires Chain(w, st, root, log, chain) && CheckedUpdate(w, st, root, log, n)
    requires chain[|chain| - 1] < n && log[n].target == log[chain[|chain| - 1]].object_
    ensures Chain(w, st, root, log, chain + [n])
  {
    hide CheckedUpdate;
    assert forall k :: 0 <= k < |chain| ==> (chain + [n])[k] == chain[k];
  }

  lemma {:induction false} UpdateHasChain(w: World, st: Store, root: nat, log: seq<Event>, n: nat)
      returns (chain: seq<nat>)
    requires Justified(w, st, Some(root), Some(root), log) && n < |log| && log[n].Updated?
    ensures Chain(w, st, root, log, chain) && chain[|chain| - 1] == n
    decreases n
  {
    assert CheckedUpdate(w, st, root, log, n);
    if log[n].target == root {
      chain := [n];
    } else {
      var e :| e in log[..n] && e.Updated? && e.object_ == log[n].target;
      hide InScope, Between;
      var m :| 0 <= m < n && log[..n][m] == e;
      var prefix := UpdateHasChain(w, st, root, log, m);
      ExtendChain(w, st, root, log, prefix, n);
      chain := prefix + [n];
    }
  }

  /** An object that changed was written to. */
  lemma {:induction false} ChangedIsWritten(w: World, st: Store, st': Store, log: seq<Event>, o: nat) returns (i: nat)
    requires Between(w, st, st', log) && o in st.objects && o < st.next && st'.objects[o] != st.objects[o]
    ensures i < |log| && log[i].Wrote? && log[i].object_ == o
  {
    if forall name :: !WrittenIn(log, o, name) {
      forall name
        ensures FieldAt(st', o, name) == FieldAt(st, o, name)
      {
        ReplayChanges(st, log, o, name);
      }
      SameObject(st, st', o);
    }
    var name :| WrittenIn(log, o, name);
    var e :| e in log && e.Wrote? && e.object_ == o && e.name == name;
    i :| 0 <= i < |log| && log[i] == e;
  }

  lemma {:induction false} ChangedHasChain(w: World, st: Store, root: nat, out: Outcome, o: nat)
      returns (chain: seq<nat>)
    requires Good(w, st, Context(Some(root), 0), Some(root), out)
    requires o in st.objects && o != root && out.store.objects[o] != st.objects[o] && o < st.next
    ensures Chain(w, st, root, out.log, chain) && out.log[chain[|chain| - 1]].object_ == o
  {
    var i := ChangedIsWritten(w, st, out.store, out.log, o);
    assert JustifiedEvent(w, st, Some(root), Some(root), out.log[..i], out.log[i]);
    var e :| e in out.log[..i] && e.Updated? && e.object_ == o;
    var n :| 0 <= n < i && out.log[n] == e;
    chain := UpdateHasChain(w, st, root, out.log, n);
  }

  /**
   Deserializing into a target changes, of the objects that existed before, only the target and
   objects that a chain of scope checks connects to it, each check made on the store of its time.
   */
  lemma {:induction false} UpdatingStaysInScope(w: World, data: Payload, class_: string, root: nat, st: Store, o: nat)
    requires WellFormed(w, st) && root in st.objects
    requires Accept(w, data, EntityType(class_), false, Context(Some(root), 0), None, st).Success?
    requires var out := Accept(w, data, EntityType(class_), false, Context(Some(root), 0), None, st).value;
             o in st.objects && (o !in out.store.objects || out.store.objects[o] != st.objects[o])
    ensures var out := Accept(w, data, EntityType(class_), false, Context(Some(root), 0), None, st).value;
      o == root || exists chain :: Chain(w, st, root, out.log, chain) && out.log[chain[|chain| - 1]].object_ == o
  {
    var out := Accept(w, data, EntityType(class_), false, Context(Some(root), 0), None, st).value;
    if o != root {
      hide Justified;
      var chain := ChangedHasChain(w, st, root, out, o);
    }
  }
}
