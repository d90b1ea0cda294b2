/**
 When an update through a nested payload is of an object that its target held from the start. What the
 scope check compares is the state of the moment, so this depends on the metadata and on the payload.
 */
module CascadeScope {
  import opened Wrappers
  import opened Cascade
  import opened CascadeAddressed

  // ---------------------------------------------------------------- types

  /** The names of a class are distinct. */
  ghost predicate DistinctNames(m: Metadata) {
    forall c, i, j :: c in m && 0 <= i < j < |m[c]| ==> m[c][i].name != m[c][j].name
  }

  /** The value is null or of the type. */
  predicate Fits(st: Store, t: PropertyType, v: Value) {
    match v
    case NullValue => true
    case ScalarValue(_) => t.ScalarType?
    case Reference(o) => t.EntityType? && o in st.objects && st.objects[o].class_ == t.class_
    case Storage(objects) =>
      t.StorageType? && forall o :: o in objects ==> o in st.objects && st.objects[o].class_ == t.class_
  }

  ghost predicate HasProperty(m: Metadata, c: string, name: string, t: PropertyType) {
    c in m && exists p :: p in m[c] && p.name == name && p.ptype == t
  }

  /** Objects have the properties of their class, with values of their types. */
  ghost predicate Typed(m: Metadata, st: Store) {
    forall o, name :: o in st.objects && st.objects[o].class_ in m && FieldAt(st, o, name).Some? ==>
      exists t :: HasProperty(m, st.objects[o].class_, name, t) && Fits(st, t, FieldAt(st, o, name).value)
  }

  lemma {:induction false} FitsLater(st: Store, st': Store, t: PropertyType, v: Value)
    requires Fits(st, t, v) && Grows(st, st')
    ensures Fits(st', t, v)
  {
  }

  lemma {:induction false} TypedCreate(m: Metadata, st: Store, c: string)
    requires Typed(m, st) && forall o :: o in st.objects ==> o < st.next
    ensures Typed(m, Create(st, c))
  {
    var st' := Create(st, c);
    forall o, name | o in st'.objects && st'.objects[o].class_ in m && FieldAt(st', o, name).Some?
      ensures exists t :: HasProperty(m, st'.objects[o].class_, name, t) && Fits(st', t, FieldAt(st', o, name).value)
    {
      assert FieldAt(st, o, name) == FieldAt(st', o, name);
      var t :| HasProperty(m, st.objects[o].class_, name, t) && Fits(st, t, FieldAt(st, o, name).value);
      FitsLater(st, st', t, FieldAt(st, o, name).value);
    }
  }

  lemma {:induction false} TypedSet(m: Metadata, st: Store, o: nat, p: Property, v: Value)
    requires Typed(m, st) && o in st.objects && st.objects[o].class_ in m && p in m[st.objects[o].class_]
    requires Fits(st, p.ptype, v)
    ensures Typed(m, SetField(st, o, p.name, v))
  {
    var st' := SetField(st, o, p.name, v);
    forall x, name | x in st'.objects && st'.objects[x].class_ in m && FieldAt(st', x, name).Some?
      ensures exists t :: HasProperty(m, st'.objects[x].class_, name, t) && Fits(st', t, FieldAt(st', x, name).value)
    {
      if x == o && name == p.name {
        assert HasProperty(m, st'.objects[x].class_, name, p.ptype);
        FitsLater(st, st', p.ptype, v);
      } else {
        assert FieldAt(st, x, name) == FieldAt(st', x, name);
        var t :| HasProperty(m, st.objects[x].class_, name, t) && Fits(st, t, FieldAt(st, x, name).value);
        FitsLater(st, st', t, FieldAt(st, x, name).value);
      }
    }
  }

  // ---------------------------------------------------------------- clashes

  predicate Cascades(p: Property) {
    p.cascade && !p.ptype.ScalarType?
  }

  /** Writable properties, each of the class of the one before, which cascades. */
  ghost predicate IsPath(m: Metadata, c: string, path: seq<Property>)
    decreases |path|
  {
    path != [] ==>
      && c in m && path[0] in m[c] && !path[0].readOnly
      && (|path| > 1 ==> Cascades(path[0]) && IsPath(m, path[0].ptype.class_, path[1..]))
  }

  lemma {:induction false} PathSnoc(m: Metadata, c: string, path: seq<Property>, q: Property)
    requires IsPath(m, c, path) && path != [] && Cascades(path[|path| - 1])
    requires path[|path| - 1].ptype.class_ in m && q in m[path[|path| - 1].ptype.class_] && !q.readOnly
    ensures IsPath(m, c, path + [q])
    decreases |path|
  {
    assert (path + [q])[1..] == path[1..] + [q];
    if |path| > 1 {
      PathSnoc(m, path[0].ptype.class_, path[1..], q);
    } else {
      assert (path + [q])[1..] == [q] && [q][1..] == [];
    }
  }

  /** What deserializing the i-th property of class c reaches through objects that are inserted. */
  ghost predicate Below(m: Metadata, c: string, i: nat, path: seq<Property>) {
    c in m && i < |m[c]| && path != [] && path[0] == m[c][i] && IsPath(m, c, path)
  }

  /**
   A property below the i-th one is named like the j-th one, and either holds another class or is reached
   after the j-th has been written.
   */
  ghost predicate Clash(m: Metadata, c: string, i: nat, path: seq<Property>, j: nat) {
    && Below(m, c, i, path) && |path| >= 2 && j < |m[c]|
    && var q, d := path[|path| - 1], m[c][j];
       && Cascades(q) && d.name == q.name
       && ((q.ptype.EntityType? && d.ptype.EntityType? && q.ptype != d.ptype) ||
           (q.ptype == d.ptype && j < i && !d.readOnly))
  }

  ghost predicate ClashFree(m: Metadata) {
    forall c, i, path, j :: !Clash(m, c, i, path, j)
  }

  /** A property of that name has been written before the i-th property of class c is visited. */
  ghost predicate WrittenBefore(m: Metadata, c: string, i: nat, name: string) {
    c in m && exists j :: 0 <= j < i && j < |m[c]| && m[c][j].name == name && !m[c][j].readOnly
  }

  /** The same-named property of the class has the type of p, and is not written before the i-th one. */
  ghost predicate Agrees(m: Metadata, c: string, i: nat, p: Property) {
    HasProperty(m, c, p.name, p.ptype) && !WrittenBefore(m, c, i, p.name)
  }

  /**
   Without clashes, a scope check can succeed only on the same-named property of the same type, when that
   is not written before.
   */
  lemma {:induction false} CheckAgrees(w: World, st: Store, t: nat, c: string, i: nat, path: seq<Property>, o: nat)
    requires DistinctNames(w.metadata) && ClashFree(w.metadata) && Typed(w.metadata, st)
    requires t in st.objects && st.objects[t].class_ == c && Below(w.metadata, c, i, path)
    requires var p := path[|path| - 1];
      Cascades(p) && InScope(st, t, p, o) && o in st.objects && st.objects[o].class_ == p.ptype.class_
    ensures Agrees(w.metadata, c, i, path[|path| - 1])
  {
    var m, p := w.metadata, path[|path| - 1];
    var held := FieldAt(st, t, p.name).value;
    var t': PropertyType :| HasProperty(m, c, p.name, t') && Fits(st, t', held);
    var d: Property :| d in m[c] && d.name == p.name && d.ptype == t';
    var j :| 0 <= j < |m[c]| && m[c][j] == d;
    if |path| == 1 {
      assert j == i;
    } else {
      assert !Clash(m, c, i, path, j);
    }
  }

  // ---------------------------------------------------------------- what held at the start

  /** The property of the object holds the other object itself. */
  predicate Holds(st: Store, t: nat, name: string, o: nat) {
    match FieldAt(st, t, name)
    case Some(Reference(x)) => x == o
    case Some(Storage(objects)) => o in objects
    case _ => false
  }

  /** The identity map: one object for each class and uid. */
  ghost predicate UniqueUids(w: World, st: Store) {
    forall o :: o in st.objects && st.objects[o].uid.Some? ==>
      var key := (st.objects[o].class_, st.objects[o].uid.value); key in w.persisted && w.persisted[key] == o
  }

  ghost predicate ReferencesKnown(st: Store) {
    forall o, name, x :: o in st.objects && FieldAt(st, o, name) == Some(Reference(x)) ==> x in st.objects
  }

  /** The target's property was set earlier in the call. */
  predicate Overwritten(log: seq<Event>, n: nat)
    requires n < |log| && log[n].Updated?
  {
    WrittenIn(log[..n], log[n].target, log[n].property.name)
  }

  /** The target's property held an object of another class with the uid of the updated one. */
  ghost predicate HeldNamesake(st: Store, e: Event)
    requires e.Updated?
  {
    && FieldAt(st, e.target, e.property.name).Some?
    && var held := FieldAt(st, e.target, e.property.name).value;
       && held.Reference? && held.object_ in st.objects && e.object_ in st.objects
       && st.objects[held.object_].class_ != st.objects[e.object_].class_
       && st.objects[held.object_].uid == st.objects[e.object_].uid
  }

  /** The check on a reference compares uids; it finds the very object held exactly when the classes agree. */
  lemma {:induction false} ScopeByUid(w: World, st: Store, target: nat, p: Property, o: nat)
    requires WellFormed(w, st) && InScope(st, target, p, o) && !p.ptype.StorageType?
    requires exists k :: k in w.persisted && w.persisted[k] == o
    requires exists k :: k in w.persisted && w.persisted[k] == st.objects[target].fields[p.name].object_
    ensures st.objects[target].fields[p.name] == Reference(o) <==>
            st.objects[st.objects[target].fields[p.name].object_].class_ == st.objects[o].class_
  {
  }

  /**
   Whatever the payload, an update is of an object that its target's property held at the start, unless
   that property was set earlier in the call or held an object of another class with the same uid.
   */
  lemma {:induction false} HeldUnlessOverwritten(w: World, data: Payload, class_: string, root: nat, st: Store, n: nat)
    requires WellFormed(w, st) && UniqueUids(w, st) && ReferencesKnown(st) && root in st.objects
    requires Accept(w, data, EntityType(class_), false, Context(Some(root), 0), None, st).Success?
    requires var log := Accept(w, data, EntityType(class_), false, Context(Some(root), 0), None, st).value.log;
      n < |log| && log[n].Updated?
    ensures var log := Accept(w, data, EntityType(class_), false, Context(Some(root), 0), None, st).value.log;
      Holds(st, log[n].target, log[n].property.name, log[n].object_) || Overwritten(log, n) || HeldNamesake(st, log[n])
  {
    var log := Accept(w, data, EntityType(class_), false, Context(Some(root), 0), None, st).value.log;
    hide Accept;
    HeldOrOverwritten(w, st, root, log, n);
  }

  lemma {:induction false} HeldOrOverwritten(w: World, st: Store, root: nat, log: seq<Event>, n: nat)
    requires WellFormed(w, st) && UniqueUids(w, st) && ReferencesKnown(st) && root in st.objects
    requires Justified(w, st, Some(root), Some(root), log) && n < |log| && log[n].Updated?
    ensures log[n].target in st.objects && log[n].object_ in st.objects
    ensures Holds(st, log[n].target, log[n].property.name, log[n].object_) || Overwritten(log, n) ||
      HeldNamesake(st, log[n])
  {
    var e := log[n];
    assert JustifiedEvent(w, st, Some(root), Some(root), log[..n], e);
    TargetKnownInLog(w, st, root, log, n);
    if !Overwritten(log, n) {
      ReplayChanges(st, log[..n], e.target, e.property.name);
    }
  }

  lemma {:induction false} TargetKnownInLog(w: World, st: Store, root: nat, log: seq<Event>, n: nat)
    requires WellFormed(w, st) && root in st.objects
    requires Justified(w, st, Some(root), Some(root), log) && n < |log| && log[n].Updated?
    ensures log[n].target in st.objects && log[n].object_ in st.objects
  {
    assert JustifiedEvent(w, st, Some(root), Some(root), log[..n], log[n]);
    if log[n].target != root {
      var e :| e in log[..n] && e.Updated? && e.object_ == log[n].target;
      var m :| 0 <= m < n && log[m] == e;
      assert JustifiedEvent(w, st, Some(root), Some(root), log[..m], log[m]);
    }
  }
}
