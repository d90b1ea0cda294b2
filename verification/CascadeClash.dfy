/**
 With a clash in the metadata, some payload updates an object that nothing held when the call began: being
 free of clashes is exactly what makes the scope check right for payloads that address no object twice.
 */
module CascadeClash {
  import opened Wrappers
  import opened Cascade
  import opened CascadeAddressed
  import opened CascadeScope
  import opened CascadeHeld

  // ---------------------------------------------------------------- running a call forwards

  lemma {:induction false} VisitNone(w: World, o: nat, data: Payload, properties: seq<Property>, ctx: Context,
                                     st: Store)
    requires WellFormed(w, st) && TargetKnown(ctx, st) && ctx.depth >= 1 && o in st.objects && IsArray(data)
    requires forall p :: p in properties ==> !Writes(data, p)
    ensures VisitProperties(w, o, data, properties, ctx, st) == Success(Outcome(Reference(o), st, []))
    decreases |properties|
  {
    hide Good;
    if properties != [] {
      assert !Writes(data, properties[0]);
      VisitNone(w, o, data, properties[1..], ctx, st);
    }
  }

  /** The first property that the payload writes is the k-th. */
  lemma {:induction false} VisitTo(w: World, o: nat, data: Payload, properties: seq<Property>, ctx: Context, st: Store,
                                   k: nat)
    requires WellFormed(w, st) && TargetKnown(ctx, st) && ctx.depth >= 1 && o in st.objects && IsArray(data)
    requires k < |properties| && Writes(data, properties[k]) && forall j :: 0 <= j < k ==> !Writes(data, properties[j])
    requires var p := properties[k];
      Accept(w, Get(data, p.name).value, p.ptype, false, ctx, Some(p), st).Success?
    ensures var p := properties[k];
      var first := Accept(w, Get(data, p.name).value, p.ptype, false, ctx, Some(p), st).value;
      && Between(w, st, first.store, first.log)
      && var set_ := SetField(first.store, o, p.name, first.value);
         WellFormed(w, set_) && TargetKnown(ctx, set_) &&
         var rest := VisitProperties(w, o, data, properties[k + 1..], ctx, set_);
         VisitProperties(w, o, data, properties, ctx, st) ==
           if rest.Failure? then rest
           else
             var wrote := Wrote(o, p.name, first.value);
             Success(Outcome(Reference(o), rest.value.store, first.log + [wrote] + rest.value.log))
    decreases k
  {
    hide Justified, Replay;
    if k == 0 {
      var p := properties[0];
      var first := Accept(w, Get(data, p.name).value, p.ptype, false, ctx, Some(p), st).value;
      GoodSetField(w, first.store, ctx, o, p.name, first.value);
    } else {
      assert properties[1..][k - 1] == properties[k] && properties[1..][k..] == properties[k + 1..];
      VisitTo(w, o, data, properties[1..], ctx, st, k - 1);
    }
  }

  /** The payload writes the k-th property alone. */
  lemma {:induction false} VisitOnly(w: World, o: nat, data: Payload, properties: seq<Property>, ctx: Context,
                                     st: Store, k: nat)
    requires WellFormed(w, st) && TargetKnown(ctx, st) && ctx.depth >= 1 && o in st.objects && IsArray(data)
    requires k < |properties| && Writes(data, properties[k])
    requires forall j :: 0 <= j < |properties| && j != k ==> !Writes(data, properties[j])
    requires var p := properties[k];
      Accept(w, Get(data, p.name).value, p.ptype, false, ctx, Some(p), st).Success?
    ensures var p := properties[k];
      var first := Accept(w, Get(data, p.name).value, p.ptype, false, ctx, Some(p), st).value;
      && o in first.store.objects
      && VisitProperties(w, o, data, properties, ctx, st) ==
         Success(Outcome(Reference(o), SetField(first.store, o, p.name, first.value),
                         first.log + [Wrote(o, p.name, first.value)]))
  {
    hide Justified, Replay, Accept;
    VisitTo(w, o, data, properties, ctx, st, k);
    var p := properties[k];
    var first := Accept(w, Get(data, p.name).value, p.ptype, false, ctx, Some(p), st).value;
    forall p' | p' in properties[k + 1..]
      ensures !Writes(data, p')
    {
      var j :| 0 <= j < |properties[k + 1..]| && properties[k + 1..][j] == p';
      assert properties[k + 1 + j] == p';
    }
    VisitNone(w, o, data, properties[k + 1..], ctx, SetField(first.store, o, p.name, first.value));
    var wrote := Wrote(o, p.name, first.value);
    assert first.log + [wrote] + [] == first.log + [wrote];
  }

  /** An update succeeds when its check does and visiting the properties of the object does. */
  lemma {:induction false} UpdatingRuns(w: World, data: Payload, c: string, ctx: Context, p: Property, st: Store,
                                        o: nat)
    requires WellFormed(w, st) && TargetKnown(ctx, st) && ctx.depth >= 1 && IsArray(data) && GivesUid(data)
    requires p.cascade && ctx.target.Some? && c in w.metadata
    requires var key := (c, UidOf(Get(data, "uid").value)); key in w.persisted && w.persisted[key] == o
    requires InScope(st, ctx.target.value, p, o)
    requires VisitProperties(w, o, data, w.metadata[c], Context(Some(o), 1), st).Success?
    ensures var inner := VisitProperties(w, o, data, w.metadata[c], Context(Some(o), 1), st).value;
      DeserializeTransport(w, data, c, ctx, Some(p), st) ==
        Success(Outcome(Reference(o), inner.store, [Updated(o, ctx.target.value, p, st)] + inner.log))
  {
    hide VisitProperties, InScope, Good;
    var uid := UidOf(Get(data, "uid").value);
    assert Accept(w, data, EntityType(c), false, Context(Some(o), 0), None, st) ==
           VisitProperties(w, o, data, w.metadata[c], Context(Some(o), 1), st);
    assert ProcessCascadePersistence(w, data, c, ctx, Some(p), st) == ProcessCascadeUpdate(w, uid, data, c, ctx, p, st);
    assert DeserializeTransport(w, data, c, ctx, Some(p), st) ==
      ProcessCascadePersistence(w, data, c, ctx, Some(p), st);
  }

  /** Inserting succeeds when visiting the properties of the fresh object does. */
  lemma {:induction false} InsertingRuns(w: World, data: Payload, c: string, ctx: Context, p: Property, st: Store)
    requires WellFormed(w, st) && TargetKnown(ctx, st) && ctx.depth >= 1 && IsArray(data) && !GivesUid(data)
    requires p.cascade && c in w.metadata && WellFormed(w, Create(st, c))
    requires VisitProperties(w, st.next, data, w.metadata[c], Context(ctx.target, ctx.depth + 1),
                             Create(st, c)).Success?
    ensures var inner := VisitProperties(w, st.next, data, w.metadata[c], Context(ctx.target, ctx.depth + 1),
                                         Create(st, c)).value;
      DeserializeTransport(w, data, c, ctx, Some(p), st) ==
        Success(Outcome(Reference(st.next), inner.store, [Inserted(st.next, c)] + inner.log))
  {
    hide VisitProperties, Good;
    assert DeserializeTransport(w, data, c, ctx, Some(p), st) ==
      ProcessCascadePersistence(w, data, c, ctx, Some(p), st);
    assert ProcessCascadePersistence(w, data, c, ctx, Some(p), st) ==
           Accept(w, data, EntityType(c), true, ctx, Some(p), st);
  }

  // ---------------------------------------------------------------- a payload along a path

  /** Classes are known, and a property named uid is scalar. */
  ghost predicate Closed(m: Metadata) {
    forall c, p :: c in m && p in m[c] ==>
      if p.ptype.ScalarType? then true else p.ptype.class_ in m && p.name != "uid"
  }

  const UID := 5

  /** What to put under the first property of a path to address the object of uid 5 under the last one. */
  function PathData(path: seq<Property>): Payload
    requires path != []
  {
    if path[0].ptype.StorageType? then Items([PathElement(path)]) else PathElement(path)
  }

  function PathElement(path: seq<Property>): Payload
    requires path != []
    decreases |path|, 0
  {
    if |path| == 1 then Object([Field("uid", Numeric(UID))])
    else
      var rest := path[1..];
      Object([Field(rest[0].name,
                    if rest[0].ptype.StorageType? then Items([PathElement(rest)]) else PathElement(rest))])
  }

  lemma {:induction false} OneField(name: string, value: Payload)
    ensures Get(Object([Field(name, value)]), name) == Some(value)
    ensures forall other :: other != name ==> Get(Object([Field(name, value)]), other) == None
  {
    var fields := [Field(name, value)];
    assert fields[1..] == [];
  }

  lemma {:induction false} PathDataIsArray(path: seq<Property>)
    requires path != []
    ensures IsArray(PathElement(path)) && IsArray(PathData(path))
    ensures |path| > 1 ==> PathElement(path) == Object([Field(path[1].name, PathData(path[1..]))])
  {
  }

  /** The object o stands for the class and uid that the path ends in, and t holds it under the path's last name. */
  ghost predicate Addressable(w: World, st: Store, ctx: Context, t: nat, c: string, path: seq<Property>, o: nat) {
    && WellFormed(w, st) && ctx.depth >= 1 && ctx.target == Some(t) && t in st.objects
    && IsPath(w.metadata, c, path) && path != []
    && var q := path[|path| - 1];
       && Cascades(q) && InScope(st, t, q, o)
       && (q.ptype.class_, UID) in w.persisted && w.persisted[(q.ptype.class_, UID)] == o
  }

  /** The object o is updated, checked against t. */
  ghost predicate UpdatedAgainst(log: seq<Event>, t: nat, q: Property, o: nat) {
    exists e :: e in log && e.Updated? && e.target == t && e.property == q && e.object_ == o
  }

  /** The one update of a log is of o, checked against t. */
  ghost predicate OneUpdate(log: seq<Event>, t: nat, q: Property, o: nat) {
    Updates(log) == [o] && UpdatedAgainst(log, t, q, o)
  }

  lemma {:induction false} OneUpdateWithin(a: seq<Event>, log: seq<Event>, b: seq<Event>, t: nat, q: Property, o: nat)
    requires OneUpdate(log, t, q, o) && Updates(a) == [] && Updates(b) == []
    ensures OneUpdate(a + log + b, t, q, o)
  {
    UpdatesConcat(a, log);
    UpdatesConcat(a + log, b);
    var e :| e in log && e.Updated? && e.target == t && e.property == q && e.object_ == o;
    assert e in a + log + b;
  }

  lemma {:induction false} WriteLogUpdates(o: nat, data: Payload, properties: seq<Property>)
    requires AllPlain(data, properties)
    ensures Updates(WriteLog(o, data, properties)) == []
  {
    if properties != [] {
      WriteLogUpdates(o, data, properties[1..]);
      if Writes(data, properties[0]) {
        var wrote := Wrote(o, properties[0].name, Converted(Get(data, properties[0].name).value));
        UpdatesOne(wrote);
        UpdatesConcat([wrote], WriteLog(o, data, properties[1..]));
      }
      assert [] + WriteLog(o, data, properties[1..]) == WriteLog(o, data, properties[1..]);
    }
  }

  /** At the end of the path: the update, which writes no more than a scalar named uid. */
  lemma {:induction false} EndUpdates(w: World, ctx: Context, st: Store, t: nat, c: string, q: Property, o: nat)
    requires Closed(w.metadata) && Addressable(w, st, ctx, t, c, [q], o)
    ensures var r := DeserializeTransport(w, PathElement([q]), q.ptype.class_, ctx, Some(q), st);
      r.Success? && r.value.value == Reference(o) && OneUpdate(r.value.log, t, q, o)
  {
    var data, cls := PathElement([q]), q.ptype.class_;
    OneField("uid", Numeric(UID));
    assert AllPlain(data, w.metadata[cls]);
    PlainWritten(w, o, data, w.metadata[cls], Context(Some(o), 1), st);
    hide VisitProperties, InScope, Good, DeserializeTransport;
    UpdatingRuns(w, data, cls, ctx, q, st, o);
    var e, writes := Updated(o, t, q, st), WriteLog(o, data, w.metadata[cls]);
    WriteLogUpdates(o, data, w.metadata[cls]);
    UpdatesConcat([e], writes);
    UpdatesOne(e);
    assert e in [e] + writes;
  }

  lemma {:induction false} TransportUpdates(w: World, ctx: Context, st: Store, t: nat, c: string, path: seq<Property>,
                                            o: nat)
    requires Closed(w.metadata) && DistinctNames(w.metadata) && Addressable(w, st, ctx, t, c, path, o)
    ensures var q := path[|path| - 1];
      var r := DeserializeTransport(w, PathElement(path), path[0].ptype.class_, ctx, Some(path[0]), st);
      r.Success? && r.value.value.Reference? && OneUpdate(r.value.log, t, q, o)
    decreases |path|, 1
  {
    if |path| == 1 {
      assert path == [path[0]];
      EndUpdates(w, ctx, st, t, c, path[0], o);
    } else {
      InsertUpdates(w, ctx, st, t, c, path, o);
    }
  }

  lemma {:induction false} PathTail(m: Metadata, c: string, path: seq<Property>)
    requires IsPath(m, c, path) && |path| > 1 && Cascades(path[|path| - 1])
    ensures Cascades(path[0]) && !path[0].readOnly && IsPath(m, path[0].ptype.class_, path[1..])
    ensures Cascades(path[1]) && path[1..][|path[1..]| - 1] == path[|path| - 1]
  {
  }

  lemma {:induction false} AddressableBelow(w: World, st: Store, ctx: Context, t: nat, c: string, path: seq<Property>,
                                            o: nat)
    requires Closed(w.metadata) && Addressable(w, st, ctx, t, c, path, o) && |path| > 1
    ensures Cascades(path[0]) && Cascades(path[1]) && !path[0].readOnly && !path[1].readOnly && path[1].name != "uid"
    ensures path[0].ptype.class_ in w.metadata && path[1] in w.metadata[path[0].ptype.class_]
    ensures path[1..][|path[1..]| - 1] == path[|path| - 1]
    ensures WellFormed(w, st) && TargetKnown(ctx, st) && ctx.depth >= 1
    ensures var created, inner := Create(st, path[0].ptype.class_), Context(ctx.target, ctx.depth + 1);
      && WellFormed(w, created) && TargetKnown(inner, created)
      && Addressable(w, created, inner, t, path[0].ptype.class_, path[1..], o)
  {
    PathTail(w.metadata, c, path);
    assert path[1..][0] == path[1];
  }

  /** Below an inserted object that the payload gives one property. */
  lemma {:induction false} InsertUpdates(w: World, ctx: Context, st: Store, t: nat, c: string, path: seq<Property>,
                                         o: nat)
    requires Closed(w.metadata) && DistinctNames(w.metadata) && Addressable(w, st, ctx, t, c, path, o) && |path| > 1
    ensures var q := path[|path| - 1];
      var r := DeserializeTransport(w, PathElement(path), path[0].ptype.class_, ctx, Some(path[0]), st);
      r.Success? && r.value.value.Reference? && OneUpdate(r.value.log, t, q, o)
    decreases |path|, 0
  {
    hide PathData, Accept, DeserializeTransport, VisitProperties, Good, Addressable, InScope, OneUpdate, IsPath,
      WellFormed;
    PathDataIsArray(path);
    AddressableBelow(w, st, ctx, t, c, path, o);
    var m, cls, data, rest := w.metadata, path[0].ptype.class_, PathElement(path), path[1..];
    var q := path[|path| - 1];
    OneField(rest[0].name, PathData(rest));
    var created, inner := Create(st, cls), Context(ctx.target, ctx.depth + 1);
    PathUpdates(w, inner, created, t, cls, rest, o);
    var k :| 0 <= k < |m[cls]| && m[cls][k] == rest[0];
    VisitOnly(w, st.next, data, m[cls], inner, created, k);
    var first := Accept(w, PathData(rest), rest[0].ptype, false, inner, Some(rest[0]), created).value;
    InsertingRuns(w, data, cls, ctx, path[0], st);
    Around(Inserted(st.next, cls), first.log, Wrote(st.next, rest[0].name, first.value), t, q, o);
  }

  /** Events before and after that are no updates. */
  lemma {:induction false} Around(before: Event, log: seq<Event>, after: Event, t: nat, q: Property, o: nat)
    requires OneUpdate(log, t, q, o) && !before.Updated? && !after.Updated?
    ensures OneUpdate([before] + (log + [after]), t, q, o)
  {
    UpdatesOne(before);
    UpdatesOne(after);
    OneUpdateWithin([before], log, [after], t, q, o);
    assert [before] + (log + [after]) == [before] + log + [after];
  }

  /** A collection succeeds when its first element gives an object and the others succeed. */
  lemma {:induction false} AttachRuns(w: World, items: seq<Payload>, c: string, ctx: Context, p: Property, st: Store)
    requires WellFormed(w, st) && TargetKnown(ctx, st) && ctx.depth >= 1 && items != []
    requires var r := Accept(w, items[0], EntityType(c), false, ctx, Some(p), st);
             r.Success? && r.value.value.Reference?
    ensures var first := Accept(w, items[0], EntityType(c), false, ctx, Some(p), st).value;
      && WellFormed(w, first.store) && TargetKnown(ctx, first.store)
      && var rest := AcceptAll(w, items[1..], c, ctx, Some(p), first.store);
         AcceptAll(w, items, c, ctx, Some(p), st) ==
           if rest.Failure? then rest
           else Success(Outcome(Storage([first.value.object_] + Without(rest.value.value.objects, first.value.object_)),
                                rest.value.store, first.log + rest.value.log))
  {
    hide Justified, Replay, Without, Accept;
  }

  lemma {:induction false} AttachNone(w: World, c: string, ctx: Context, p: Property, st: Store)
    requires WellFormed(w, st) && TargetKnown(ctx, st) && ctx.depth >= 1
    ensures AcceptAll(w, [], c, ctx, Some(p), st) == Success(Outcome(Storage([]), st, []))
  {
    hide Good;
  }

  /** A collection of one element. */
  lemma {:induction false} AcceptItem(w: World, element: Payload, c: string, ctx: Context, p: Property, st: Store)
    requires WellFormed(w, st) && TargetKnown(ctx, st) && ctx.depth >= 1
    requires var r := Accept(w, element, EntityType(c), false, Context(ctx.target, ctx.depth + 1), Some(p), st);
      r.Success? && r.value.value.Reference?
    ensures var first :=
              Accept(w, element, EntityType(c), false, Context(ctx.target, ctx.depth + 1), Some(p), st).value;
      Accept(w, Items([element]), StorageType(c), false, ctx, Some(p), st) ==
        Success(Outcome(Storage([first.value.object_]), first.store, first.log))
  {
    hide Accept, AcceptAll, WellFormed;
    var inner := Context(ctx.target, ctx.depth + 1);
    var first := Accept(w, element, EntityType(c), false, inner, Some(p), st).value;
    CollectionStep(w, Items([element]), c, ctx, Some(p), st);
    AttachRuns(w, [element], c, inner, p, st);
    assert [element][1..] == [];
    AttachNone(w, c, inner, p, first.store);
    assert first.log + [] == first.log &&
      [first.value.object_] + Without([], first.value.object_) == [first.value.object_];
  }

  lemma {:induction false} AddressableDeeper(w: World, st: Store, ctx: Context, t: nat, c: string, path: seq<Property>,
                                             o: nat)
    requires Addressable(w, st, ctx, t, c, path, o)
    ensures WellFormed(w, st) && TargetKnown(ctx, st) && ctx.depth >= 1 && path != []
    ensures Addressable(w, st, Context(ctx.target, ctx.depth + 1), t, c, path, o)
  {
  }

  lemma {:induction false} PathUpdates(w: World, ctx: Context, st: Store, t: nat, c: string, path: seq<Property>,
                                       o: nat)
    requires Closed(w.metadata) && DistinctNames(w.metadata) && Addressable(w, st, ctx, t, c, path, o)
    requires Cascades(path[0])
    ensures var r := Accept(w, PathData(path), path[0].ptype, false, ctx, Some(path[0]), st);
      r.Success? && OneUpdate(r.value.log, t, path[|path| - 1], o)
    decreases |path|, 2
  {
    hide DeserializeTransport, Accept, PathElement, OneUpdate, Addressable, WellFormed, DistinctNames, Closed, IsArray;
    AddressableDeeper(w, st, ctx, t, c, path, o);
    var p, element, cls := path[0], PathElement(path), path[0].ptype.class_;
    var inner := Context(ctx.target, ctx.depth + 1);
    PathDataIsArray(path);
    if p.ptype.EntityType? {
      TransportUpdates(w, inner, st, t, c, path, o);
      NestedStep(w, element, cls, ctx, Some(p), st);
    } else {
      AddressableDeeper(w, st, inner, t, c, path, o);
      TransportUpdates(w, Context(ctx.target, ctx.depth + 2), st, t, c, path, o);
      NestedStep(w, element, cls, inner, Some(p), st);
      AcceptItem(w, element, cls, ctx, p, st);
    }
  }

  // ---------------------------------------------------------------- a clash is harmful

  /** A call on an object with a payload that addresses no object twice, on objects as they are kept. */
  ghost predicate Applies(w: World, data: Payload, class_: string, root: nat, st: Store) {
    && Consistent(w, st) && root in st.objects && st.objects[root].class_ == class_
    && AddressesOnce(w, data, class_, root)
    && Accept(w, data, EntityType(class_), false, Context(Some(root), 0), None, st).Success?
  }

  ghost function LogOf(w: World, data: Payload, class_: string, root: nat, st: Store): seq<Event>
    requires Applies(w, data, class_, root, st)
  {
    Accept(w, data, EntityType(class_), false, Context(Some(root), 0), None, st).value.log
  }

  /** Whatever is updated was held by its target when the call began. */
  ghost predicate UpdatesHeld(w: World, data: Payload, class_: string, root: nat, st: Store)
    requires Applies(w, data, class_, root, st)
  {
    forall e :: e in LogOf(w, data, class_, root, st) && e.Updated? ==> Holds(st, e.target, e.property.name, e.object_)
  }

  ghost predicate AlwaysHeld(m: Metadata) {
    forall w: World, data, class_, root, st ::
      w.metadata == m && Applies(w, data, class_, root, st) ==> UpdatesHeld(w, data, class_, root, st)
  }

  /** Nothing holds the object. */
  ghost predicate HeldByNone(st: Store, o: nat) {
    forall t, name :: !Holds(st, t, name, o)
  }

  /** An object of a class with a uid. */
  function Persisted(c: string, uid: int, fields: map<string, Value>): DomainObject {
    DomainObject(c, Some(uid), fields)
  }

  /** A root object, and one or two others of uid 5. */
  function NamesakeStore(c: string, held: string, other: string, name: string): Store {
    Store(map[0 := Persisted(c, 1, map[name := Reference(1)]), 1 := Persisted(held, UID, map[]),
              2 := Persisted(other, UID, map[])], 3)
  }

  function NamesakeWorld(m: Metadata, c: string, held: string, other: string): World {
    World(m, map[(c, 1) := 0, (held, UID) := 1, (other, UID) := 2])
  }

  lemma {:induction false} NamesakeConsistent(m: Metadata, c: string, d: Property, other: string)
    requires c in m && d in m[c] && d.ptype.EntityType? && d.ptype.class_ != other
    ensures Consistent(NamesakeWorld(m, c, d.ptype.class_, other), NamesakeStore(c, d.ptype.class_, other, d.name))
  {
    var w, st := NamesakeWorld(m, c, d.ptype.class_, other), NamesakeStore(c, d.ptype.class_, other, d.name);
    assert HasProperty(m, c, d.name, d.ptype) && Fits(st, d.ptype, Reference(1));
    forall o, name | o in st.objects && st.objects[o].class_ in m && FieldAt(st, o, name).Some?
      ensures exists t :: HasProperty(m, st.objects[o].class_, name, t) && Fits(st, t, FieldAt(st, o, name).value)
    {
      assert o == 0 && name == d.name;
    }
  }

  /** A root object that holds nothing, and one other. */
  function BareStore(c: string, other: string): Store {
    Store(map[0 := Persisted(c, 1, map[]), 1 := Persisted(other, UID, map[])], 2)
  }

  function BareWorld(m: Metadata, c: string, other: string): World {
    World(m, map[(c, 1) := 0, (other, UID) := 1])
  }

  lemma {:induction false} BareConsistent(m: Metadata, c: string, other: string)
    ensures Consistent(BareWorld(m, c, other), BareStore(c, other))
  {
  }

  /** A payload for the root that leads to one update of o. */
  lemma {:induction false} OneAddressed(w: World, data: Payload, class_: string, root: nat, st: Store, q: Property,
                                        o: nat)
    requires Consistent(w, st) && root in st.objects && st.objects[root].class_ == class_ && root != o
    requires Accept(w, data, EntityType(class_), false, Context(Some(root), 0), None, st).Success?
    requires OneUpdate(
               Accept(w, data, EntityType(class_), false, Context(Some(root), 0), None, st).value.log, root, q, o)
    ensures Applies(w, data, class_, root, st)
    ensures UpdatedAgainst(LogOf(w, data, class_, root, st), root, q, o)
  {
    hide Accept, Addressed, Good, Typed, UniqueUids, ReferencesKnown;
    var log := Accept(w, data, EntityType(class_), false, Context(Some(root), 0), None, st).value.log;
    var addresses := Addressed(w.metadata, data, EntityType(class_), None, None);
    UpdatesAddressed(w, data, EntityType(class_), Context(Some(root), 0), None, st, Some(root), None);
    UpdatesLength(log);
    UpdatesAt(log, 0);
    assert Performs(w, Some(root), UpdatesIn(log)[0], addresses[0]);
    var keys := KeysOf(addresses);
    assert |keys| == 1;
    forall k | k in keys && k in w.persisted
      ensures w.persisted[k] != root
    {
      assert k == keys[0];
    }
  }

  lemma {:induction false} RootVisits(w: World, data: Payload, class_: string, root: nat, st: Store)
    requires WellFormed(w, st) && root in st.objects && class_ in w.metadata && IsArray(data)
    ensures Accept(w, data, EntityType(class_), false, Context(Some(root), 0), None, st) ==
            VisitProperties(w, root, data, w.metadata[class_], Context(Some(root), 1), st)
  {
    hide VisitProperties, Good;
  }

  /** The payload that gives the i-th property of the root what addresses o along the path. */
  lemma {:induction false} RootPathUpdates(w: World, st: Store, c: string, i: nat, path: seq<Property>, o: nat)
    requires DistinctNames(w.metadata) && Closed(w.metadata) && |path| > 1 && Below(w.metadata, c, i, path)
    requires Addressable(w, st, Context(Some(0), 1), 0, c, path, o)
    ensures var data := Object([Field(path[0].name, PathData(path))]);
      var r := VisitProperties(w, 0, data, w.metadata[c], Context(Some(0), 1), st);
      r.Success? && OneUpdate(r.value.log, 0, path[|path| - 1], o)
  {
    hide PathData, Accept, VisitProperties, Good, OneUpdate, InScope, IsPath, WellFormed;
    var ctx, data := Context(Some(0), 1), Object([Field(path[0].name, PathData(path))]);
    AddressableBelow(w, st, ctx, 0, c, path, o);
    PathUpdates(w, ctx, st, 0, c, path, o);
    OneField(path[0].name, PathData(path));
    VisitOnly(w, 0, data, w.metadata[c], ctx, st, i);
    var out := Accept(w, PathData(path), path[0].ptype, false, ctx, Some(path[0]), st).value;
    var wrote := Wrote(0, path[0].name, out.value);
    UpdatesOne(wrote);
    OneUpdateWithin([], out.log, [wrote], 0, path[|path| - 1], o);
    assert [] + out.log + [wrote] == out.log + [wrote];
  }

  lemma {:induction false} NotHeld(w: World, data: Payload, class_: string, st: Store, q: Property, o: nat)
    requires Consistent(w, st) && 0 in st.objects && st.objects[0].class_ == class_ && o != 0
    requires class_ in w.metadata && IsArray(data) && !Holds(st, 0, q.name, o)
    requires var r := VisitProperties(w, 0, data, w.metadata[class_], Context(Some(0), 1), st);
      r.Success? && OneUpdate(r.value.log, 0, q, o)
    ensures Applies(w, data, class_, 0, st) && !UpdatesHeld(w, data, class_, 0, st)
    ensures UpdatedAgainst(LogOf(w, data, class_, 0, st), 0, q, o)
    ensures LogOf(w, data, class_, 0, st) ==
            VisitProperties(w, 0, data, w.metadata[class_], Context(Some(0), 1), st).value.log
  {
    RootVisits(w, data, class_, 0, st);
    hide VisitProperties, Accept, Consistent;
    OneAddressed(w, data, class_, 0, st, q, o);
  }

  /** The setting of a clash of classes. */
  lemma {:induction false} NamesakeClash(m: Metadata, c: string, i: nat, path: seq<Property>, j: nat)
    requires DistinctNames(m) && Closed(m) && Clash(m, c, i, path, j)
    requires path[|path| - 1].ptype.EntityType? && m[c][j].ptype.EntityType? && path[|path| - 1].ptype != m[c][j].ptype
    ensures var q, d := path[|path| - 1], m[c][j];
      var w, st := NamesakeWorld(m, c, d.ptype.class_, q.ptype.class_),
                   NamesakeStore(c, d.ptype.class_, q.ptype.class_, d.name);
      && Consistent(w, st) && Addressable(w, st, Context(Some(0), 1), 0, c, path, 2)
      && FieldAt(st, 0, d.name) == Some(Reference(1)) && HeldByNone(st, 2) && q.name == d.name && |path| > 1
      && d.ptype.class_ != q.ptype.class_
  {
    var q, d := path[|path| - 1], m[c][j];
    var st := NamesakeStore(c, d.ptype.class_, q.ptype.class_, d.name);
    NamesakeConsistent(m, c, d, q.ptype.class_);
    hide Consistent;
    assert FieldAt(st, 0, q.name) == Some(Reference(1));
    assert InScope(st, 0, q, 2);
  }

  /**
   A clash of classes: a call on the object 0, whose property j holds the object 1, updates the object 2,
   which has the same uid, another class, and is held by nothing.
   */
  lemma {:induction false} NamesakeUpdated(m: Metadata, c: string, i: nat, path: seq<Property>, j: nat)
      returns (w: World, data: Payload, st: Store)
    requires DistinctNames(m) && Closed(m) && Clash(m, c, i, path, j)
    requires path[|path| - 1].ptype.EntityType? && m[c][j].ptype.EntityType? && path[|path| - 1].ptype != m[c][j].ptype
    ensures w.metadata == m && Applies(w, data, c, 0, st) && !UpdatesHeld(w, data, c, 0, st)
    ensures UpdatedAgainst(LogOf(w, data, c, 0, st), 0, path[|path| - 1], 2)
    ensures FieldAt(st, 0, m[c][j].name) == Some(Reference(1)) && 1 in st.objects && 2 in st.objects
    ensures st.objects[1].class_ != st.objects[2].class_ && st.objects[1].uid == st.objects[2].uid
    ensures HeldByNone(st, 2)
  {
    var q, d := path[|path| - 1], m[c][j];
    w := NamesakeWorld(m, c, d.ptype.class_, q.ptype.class_);
    st := NamesakeStore(c, d.ptype.class_, q.ptype.class_, d.name);
    data := Object([Field(path[0].name, PathData(path))]);
    NamesakeClash(m, c, i, path, j);
    hide Consistent, Addressable, InScope, VisitProperties, HeldByNone, Closed, DistinctNames, Clash, IsPath, PathData;
    assert Below(m, c, i, path) && !Holds(st, 0, q.name, 2);
    RootPathUpdates(w, st, c, i, path, 2);
    NotHeld(w, data, c, st, q, 2);
  }

  // ---------------------------------------------------------------- linked first, updated afterwards

  /** A value that links the object of a uid by number. */
  function LinkData(t: PropertyType): Payload {
    if t.StorageType? then Items([Numeric(UID)]) else Numeric(UID)
  }

  function LinkValue(t: PropertyType, o: nat): Value {
    if t.StorageType? then Storage([o]) else Reference(o)
  }

  lemma {:induction false} Linked(w: World, ctx: Context, d: Property, st: Store, o: nat)
    requires WellFormed(w, st) && TargetKnown(ctx, st) && ctx.depth >= 1 && !d.ptype.ScalarType?
    requires (d.ptype.class_, UID) in w.persisted && w.persisted[(d.ptype.class_, UID)] == o
    ensures Accept(w, LinkData(d.ptype), d.ptype, false, ctx, Some(d), st) ==
      Success(Outcome(LinkValue(d.ptype, o), st, []))
  {
    hide Good;
    if d.ptype.StorageType? {
      var inner := Context(ctx.target, ctx.depth + 1);
      assert Accept(w, Numeric(UID), EntityType(d.ptype.class_), false, inner, Some(d), st) ==
             Success(Outcome(Reference(o), st, []));
      AcceptItem(w, Numeric(UID), d.ptype.class_, ctx, d, st);
    }
  }

  /** Two fields of different names. */
  lemma {:induction false} TwoFields(a: string, x: Payload, b: string, y: Payload)
    requires a != b
    ensures var data := Object([Field(a, x), Field(b, y)]);
      Get(data, a) == Some(x) && Get(data, b) == Some(y) && forall c :: c != a && c != b ==> Get(data, c) == None
  {
    var fields := [Field(a, x), Field(b, y)];
    OneField(b, y);
    assert fields[1..] == [Field(b, y)];
    forall c
      ensures FieldOf(fields, c) == if c == b then Some(y) else if c == a then Some(x) else None
    {
      assert FieldOf(fields[1..], c) == Get(Object([Field(b, y)]), c);
    }
  }

  /** Once linked, the object is addressable under the linking property's name. */
  lemma {:induction false} AddressableLinked(w: World, st: Store, c: string, i: nat, path: seq<Property>, d: Property,
                                             o: nat)
    requires WellFormed(w, st) && 0 in st.objects && o in st.objects && Below(w.metadata, c, i, path)
    requires var q := path[|path| - 1];
      && q.ptype == d.ptype && q.name == d.name && Cascades(q) && st.objects[o].class_ == q.ptype.class_
      && (q.ptype.class_, UID) in w.persisted && w.persisted[(q.ptype.class_, UID)] == o
    ensures var mid := SetField(st, 0, d.name, LinkValue(d.ptype, o));
      WellFormed(w, mid) && Addressable(w, mid, Context(Some(0), 1), 0, c, path, o)
  {
  }

  /** Visiting a property that links o, and then the property that leads to the check. */
  lemma {:induction false} LinkThenUpdate(w: World, st: Store, c: string, i: nat, path: seq<Property>, j: nat, o: nat)
    requires DistinctNames(w.metadata) && Closed(w.metadata) && Clash(w.metadata, c, i, path, j) && WellFormed(w, st)
    requires var q, d := path[|path| - 1], w.metadata[c][j]; q.ptype == d.ptype && j < i && !d.readOnly
    requires 0 in st.objects && o in st.objects && st.objects[o].class_ == path[|path| - 1].ptype.class_
    requires var key := (path[|path| - 1].ptype.class_, UID); key in w.persisted && w.persisted[key] == o
    ensures var q, d := path[|path| - 1], w.metadata[c][j];
      var data := Object([Field(d.name, LinkData(d.ptype)), Field(path[0].name, PathData(path))]);
      var r := VisitProperties(w, 0, data, w.metadata[c], Context(Some(0), 1), st);
      r.Success? && OneUpdate(r.value.log, 0, q, o) && r.value.log != [] &&
      r.value.log[0] == Wrote(0, d.name, LinkValue(d.ptype, o))
  {
    hide PathData, LinkData, Accept, VisitProperties, Good, OneUpdate, InScope, Addressable, WellFormed, Closed, IsPath;
    var m, q, d, p := w.metadata, path[|path| - 1], w.metadata[c][j], path[0];
    var ctx, data := Context(Some(0), 1), Object([Field(d.name, LinkData(d.ptype)), Field(p.name, PathData(path))]);
    PathTail(m, c, path);
    TwoFields(d.name, LinkData(d.ptype), p.name, PathData(path));
    Linked(w, ctx, d, st, o);
    var mid := SetField(st, 0, d.name, LinkValue(d.ptype, o));
    AddressableLinked(w, st, c, i, path, d, o);
    PathUpdates(w, ctx, mid, 0, c, path, o);
    SecondVisit(w, data, c, i, j, ctx, st, mid, LinkValue(d.ptype, o));
    var out := Accept(w, PathData(path), p.ptype, false, ctx, Some(p), mid).value;
    Around(Wrote(0, d.name, LinkValue(d.ptype, o)), out.log, Wrote(0, p.name, out.value), 0, q, o);
  }

  /** The payload writes the j-th property, whose log is empty, and the i-th. */
  lemma {:induction false} SecondVisit(w: World, data: Payload, c: string, i: nat, j: nat, ctx: Context, st: Store,
                                       mid: Store, value: Value)
    requires DistinctNames(w.metadata) && WellFormed(w, st) && ctx.target == Some(0) && ctx.depth >= 1 &&
      0 in st.objects
    requires c in w.metadata && j < i < |w.metadata[c]| && IsArray(data)
    requires var m := w.metadata[c];
      && Writes(data, m[i]) && Writes(data, m[j])
      && (forall n :: 0 <= n < |m| && n != i && n != j ==> !Writes(data, m[n]))
      && Accept(w, Get(data, m[j].name).value, m[j].ptype, false, ctx, Some(m[j]), st) ==
        Success(Outcome(value, st, []))
      && mid == SetField(st, 0, m[j].name, value) && WellFormed(w, mid)
      && Accept(w, Get(data, m[i].name).value, m[i].ptype, false, ctx, Some(m[i]), mid).Success?
    ensures var m := w.metadata[c];
      var r, second := VisitProperties(w, 0, data, m, ctx, st),
                       Accept(w, Get(data, m[i].name).value, m[i].ptype, false, ctx, Some(m[i]), mid);
      && 0 in second.value.store.objects
      && r == Success(Outcome(Reference(0), SetField(second.value.store, 0, m[i].name, second.value.value),
                              [Wrote(0, m[j].name, value)] +
                              (second.value.log + [Wrote(0, m[i].name, second.value.value)])))
  {
    hide Accept, WellFormed, Good, VisitProperties, Writes, IsArray, DistinctNames, Between;
    var m := w.metadata[c];
    var rest := m[j + 1..];
    VisitTo(w, 0, data, m, ctx, st, j);
    assert rest[i - j - 1] == m[i];
    forall n | 0 <= n < |rest| && n != i - j - 1
      ensures !Writes(data, rest[n])
    {
      assert rest[n] == m[n + j + 1];
    }
    VisitOnly(w, 0, data, rest, ctx, mid, i - j - 1);
    assert [] + [Wrote(0, m[j].name, value)] == [Wrote(0, m[j].name, value)];
  }

  /** The setting of a clash with a property written before. */
  lemma {:induction false} LinkedClash(m: Metadata, c: string, i: nat, path: seq<Property>, j: nat)
    requires Clash(m, c, i, path, j)
    ensures var q, d := path[|path| - 1], m[c][j];
      var w, st := BareWorld(m, c, q.ptype.class_), BareStore(c, q.ptype.class_);
      && Consistent(w, st) && WellFormed(w, st) && 0 in st.objects && 1 in st.objects && q.name == d.name
      && FieldAt(st, 0, d.name) == None && HeldByNone(st, 1) && c in m && !Holds(st, 0, q.name, 1)
      && st.objects[0].class_ == c && st.objects[1].class_ == q.ptype.class_
      && var key := (q.ptype.class_, UID); key in w.persisted && w.persisted[key] == 1
  {
    BareConsistent(m, c, path[|path| - 1].ptype.class_);
  }

  /**
   A clash with a property written before: a call on the object 0, whose property holds nothing, links the
   object 1, which is held by nothing, and updates it afterwards.
   */
  lemma {:induction false} LinkedUpdated(m: Metadata, c: string, i: nat, path: seq<Property>, j: nat)
      returns (w: World, data: Payload, st: Store)
    requires DistinctNames(m) && Closed(m) && Clash(m, c, i, path, j)
    requires path[|path| - 1].ptype == m[c][j].ptype && j < i && !m[c][j].readOnly
    ensures w.metadata == m && Applies(w, data, c, 0, st) && !UpdatesHeld(w, data, c, 0, st)
    ensures UpdatedAgainst(LogOf(w, data, c, 0, st), 0, path[|path| - 1], 1)
    ensures var log := LogOf(w, data, c, 0, st);
            log != [] && log[0] == Wrote(0, m[c][j].name, LinkValue(m[c][j].ptype, 1))
    ensures FieldAt(st, 0, m[c][j].name) == None && HeldByNone(st, 1)
  {
    var q, d := path[|path| - 1], m[c][j];
    w, st := BareWorld(m, c, q.ptype.class_), BareStore(c, q.ptype.class_);
    data := Object([Field(d.name, LinkData(d.ptype)), Field(path[0].name, PathData(path))]);
    LinkedClash(m, c, i, path, j);
    hide Consistent, WellFormed, VisitProperties, HeldByNone, Holds, OneUpdate, LinkData, PathData, Closed,
      DistinctNames;
    LinkThenUpdate(w, st, c, i, path, j, 1);
    NotHeld(w, data, c, st, q, 1);
  }

  /**
   For every metadata with distinct names and known classes: freedom from clashes is exactly what makes
   every payload that addresses no object twice update only objects held when the call began.
   */
  lemma {:induction false} ClashFreeIffHeld(m: Metadata)
    requires DistinctNames(m) && Closed(m)
    ensures ClashFree(m) <==> AlwaysHeld(m)
  {
    if ClashFree(m) {
      forall w: World, data, class_, root, st | w.metadata == m && Applies(w, data, class_, root, st)
        ensures UpdatesHeld(w, data, class_, root, st)
      {
        forall e | e in LogOf(w, data, class_, root, st) && e.Updated?
          ensures Holds(st, e.target, e.property.name, e.object_)
        {
          var n :| 0 <= n < |LogOf(w, data, class_, root, st)| && LogOf(w, data, class_, root, st)[n] == e;
          UpdatedWereHeld(w, data, class_, root, st, n);
        }
      }
    } else {
      var c, i: nat, path: seq<Property>, j: nat :| Clash(m, c, i, path, j);
      if path[|path| - 1].ptype == m[c][j].ptype {
        var w, data, st := LinkedUpdated(m, c, i, path, j);
        assert !UpdatesHeld(w, data, c, 0, st);
      } else {
        var w, data, st := NamesakeUpdated(m, c, i, path, j);
        assert !UpdatesHeld(w, data, c, 0, st);
      }
    }
  }
}
