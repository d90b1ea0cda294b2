/**
 Without clashes in the metadata, and when a payload addresses no object twice, every object that is
 updated was held by its target when the call began.
 */
module CascadeHeld {
  import opened Wrappers
  import opened Sequences
  import opened Cascade
  import opened CascadeAddressed
  import opened CascadeScope

  /** No object is updated twice, and t is not updated. */
  ghost predicate Once(log: seq<Event>, t: nat) {
    NoDuplicates(Updates(log)) && t !in Updates(log)
  }

  lemma {:induction false} OnceParts(a: seq<Event>, b: seq<Event>, t: nat)
    requires Once(a + b, t)
    ensures Once(a, t) && Once(b, t)
    ensures forall o :: UpdatedIn(a, o) ==> !UpdatedIn(b, o)
  {
    UpdatesConcat(a, b);
    NoDuplicatesParts(Updates(a), Updates(b));
    forall o | UpdatedIn(a, o)
      ensures !UpdatedIn(b, o)
    {
      UpdatesMember(a, o);
      UpdatesMember(b, o);
    }
  }

  ghost predicate NoneOverwritten(log: seq<Event>) {
    forall n :: 0 <= n < |log| && log[n].Updated? ==> !Overwritten(log, n)
  }

  /** The i-th property of class c is visited on t: properties set before do not matter to checks on t. */
  ghost predicate TargetAgrees(m: Metadata, log: seq<Event>, t: nat, c: string, i: nat) {
    forall e :: e in log && e.Updated? && e.target == t ==> Agrees(m, c, i, e.property)
  }

  /** Checks are of the types of the target's class. */
  ghost predicate AllTyped(m: Metadata, log: seq<Event>) {
    forall e :: e in log && e.Updated? ==>
      && e.target in e.before.objects && e.object_ in e.before.objects
      && HasProperty(m, e.before.objects[e.target].class_, e.property.name, e.property.ptype)
      && !e.property.ptype.ScalarType? && e.before.objects[e.object_].class_ == e.property.ptype.class_
  }

  /** A property is set on the owner, on a fresh object or on one under update. */
  lemma {:induction false} WrittenTo(w: World, st: Store, target: Option<nat>, owner: Option<nat>, log: seq<Event>,
                                     t: nat, name: string)
    requires Justified(w, st, target, owner, log)
    ensures WrittenIn(log, t, name) ==> owner == Some(t) || st.next <= t || UpdatedIn(log, t)
  {
    if wrote :| wrote in log && wrote.Wrote? && wrote.object_ == t && wrote.name == name {
      var i :| 0 <= i < |log| && log[i] == wrote;
      assert JustifiedEvent(w, st, target, owner, log[..i], log[i]);
      assert UpdatedIn(log[..i], t) ==> UpdatedIn(log, t) by {
        if e :| e in log[..i] && e.Updated? && e.object_ == t {
          assert e in log;
        }
      }
    }
  }

  lemma {:induction false} PersistedIsOld(w: World, st: Store, target: Option<nat>, owner: Option<nat>, log: seq<Event>,
                                          o: nat)
    requires WellFormed(w, st) && Justified(w, st, target, owner, log) && UpdatedIn(log, o)
    ensures o in st.objects && o < st.next && o in w.persisted.Values
  {
    var e :| e in log && e.Updated? && e.object_ == o;
    var i :| 0 <= i < |log| && log[i] == e;
    assert JustifiedEvent(w, st, target, owner, log[..i], log[i]);
    var k :| k in w.persisted && w.persisted[k] == o;
    assert w.persisted[k] in w.persisted.Values;
  }

  lemma {:induction false} OverwrittenConcat(a: seq<Event>, b: seq<Event>, n: nat)
    requires n < |a + b| && (a + b)[n].Updated?
    ensures Overwritten(a + b, n) <==>
      if n < |a| then Overwritten(a, n)
      else Overwritten(b, n - |a|) || WrittenIn(a, (a + b)[n].target, (a + b)[n].property.name)
  {
    if n < |a| {
      assert (a + b)[..n] == a[..n];
    } else {
      assert (a + b)[..n] == a + b[..n - |a|];
      WrittenInConcat(a, b[..n - |a|], (a + b)[n].target, (a + b)[n].property.name);
    }
  }

  lemma {:induction false} NoneOverwrittenConcat(a: seq<Event>, b: seq<Event>)
    requires NoneOverwritten(a) && NoneOverwritten(b)
    requires forall k :: 0 <= k < |b| && b[k].Updated? ==> !WrittenIn(a, b[k].target, b[k].property.name)
    ensures NoneOverwritten(a + b)
  {
    hide WrittenIn, Overwritten;
    forall n | 0 <= n < |a + b| && (a + b)[n].Updated?
      ensures !Overwritten(a + b, n)
    {
      OverwrittenConcat(a, b, n);
    }
  }

  lemma {:induction false} NotWrittenBefore(w: World, st: Store, mid: Store, t: nat, owner: Option<nat>,
                                            owner': Option<nat>, a: seq<Event>, b: seq<Event>, k: nat)
    requires WellFormed(w, st) && WellFormed(w, mid) && k < |b| && b[k].Updated?
    requires Justified(w, st, Some(t), owner, a) && Justified(w, mid, Some(t), owner', b)
    requires forall o :: UpdatedIn(a, o) ==> !UpdatedIn(b, o)
    requires owner.Some? ==> owner.value == t || owner.value !in w.persisted.Values
    requires forall e :: e in b && e.Updated? && e.target == t ==> !WrittenIn(a, t, e.property.name)
    ensures !WrittenIn(a, b[k].target, b[k].property.name)
  {
    assert JustifiedEvent(w, mid, Some(t), owner', b[..k], b[k]);
    var t' := b[k].target;
    if t' != t {
      var e :| e in b[..k] && e.Updated? && e.object_ == t';
      assert e in b;
      PersistedIsOld(w, mid, Some(t), owner', b, t');
      var key :| key in w.persisted && w.persisted[key] == t';
      WrittenTo(w, st, Some(t), owner, a, t', b[k].property.name);
    }
  }

  /** What one step under target t leaves to say about a later one. */
  lemma {:induction false} NoneOverwrittenThen(w: World, st: Store, mid: Store, t: nat, owner: Option<nat>,
                                               owner': Option<nat>, a: seq<Event>, b: seq<Event>)
    requires WellFormed(w, st) && WellFormed(w, mid) && Once(a + b, t)
    requires Justified(w, st, Some(t), owner, a) && Justified(w, mid, Some(t), owner', b)
    requires owner.Some? ==> owner.value == t || owner.value !in w.persisted.Values
    requires NoneOverwritten(a) && NoneOverwritten(b)
    requires forall e :: e in b && e.Updated? && e.target == t ==> !WrittenIn(a, t, e.property.name)
    ensures NoneOverwritten(a + b)
  {
    OnceParts(a, b, t);
    hide *;
    forall k | 0 <= k < |b| && b[k].Updated?
      ensures !WrittenIn(a, b[k].target, b[k].property.name)
    {
      NotWrittenBefore(w, st, mid, t, owner, owner', a, b, k);
    }
    NoneOverwrittenConcat(a, b);
  }

  /** Everything that is to be shown of a call below target t, visited at the i-th property of its class c. */
  ghost predicate Clean(m: Metadata, log: seq<Event>, t: nat, c: string, i: nat) {
    AllTyped(m, log) && (Once(log, t) ==> NoneOverwritten(log) && TargetAgrees(m, log, t, c, i))
  }

  lemma {:induction false} CleanThen(w: World, st: Store, mid: Store, t: nat, c: string, i: nat, owner: Option<nat>,
                                     owner': Option<nat>, a: seq<Event>, b: seq<Event>)
    requires WellFormed(w, st) && WellFormed(w, mid) && t in st.objects
    requires Justified(w, st, Some(t), owner, a) && Justified(w, mid, Some(t), owner', b)
    requires owner.Some? ==> owner.value != t && owner.value !in w.persisted.Values
    requires Clean(w.metadata, a, t, c, i) && Clean(w.metadata, b, t, c, i)
    ensures Clean(w.metadata, a + b, t, c, i)
  {
    if Once(a + b, t) {
      OnceParts(a, b, t);
      UpdatesMember(a, t);
      forall e | e in b && e.Updated? && e.target == t
        ensures !WrittenIn(a, t, e.property.name)
      {
        WrittenTo(w, st, Some(t), owner, a, t, e.property.name);
      }
      NoneOverwrittenThen(w, st, mid, t, owner, owner', a, b);
    }
  }

  // ---------------------------------------------------------------- steps of a clean call

  lemma {:induction false} CleanWrote(m: Metadata, log: seq<Event>, t: nat, c: string, i: nat, e: Event)
    requires Clean(m, log, t, c, i) && !e.Updated?
    ensures Clean(m, log + [e], t, c, i)
  {
    if Once(log + [e], t) {
      OnceParts(log, [e], t);
      hide Once, Overwritten;
      forall n | 0 <= n < |log + [e]| && (log + [e])[n].Updated?
        ensures !Overwritten(log + [e], n)
      {
        OverwrittenConcat(log, [e], n);
      }
    }
  }

  lemma {:induction false} CleanInserted(m: Metadata, e: Event, log: seq<Event>, t: nat, c: string, i: nat)
    requires Clean(m, log, t, c, i) && e.Inserted?
    ensures Clean(m, [e] + log, t, c, i)
  {
    var all := [e] + log;
    if Once(all, t) {
      OnceParts([e], log, t);
      hide Once, Overwritten;
      forall n | 0 <= n < |all| && all[n].Updated?
        ensures !Overwritten(all, n)
      {
        OverwrittenConcat([e], log, n);
      }
    }
  }

  /** An update: its own check agrees with the class of t, and what follows is clean for the updated object. */
  lemma {:induction false} CleanUpdated(w: World, st: Store, t: nat, c: string, i: nat, p: Property, o: nat,
                                        log: seq<Event>)
    requires t in st.objects && st.objects[t].class_ == c && Agrees(w.metadata, c, i, p)
    requires o in st.objects && !p.ptype.ScalarType? && st.objects[o].class_ == p.ptype.class_
    requires Justified(w, st, Some(o), Some(o), log) && Clean(w.metadata, log, o, p.ptype.class_, 0)
    ensures Clean(w.metadata, [Updated(o, t, p, st)] + log, t, c, i)
  {
    var e := Updated(o, t, p, st);
    var all := [e] + log;
    if Once(all, t) {
      UpdatesConcat([e], log);
      assert [e][1..] == [] && Updates([e]) == [o];
      NoDuplicatesParts([o], Updates(log));
      assert o in [o] && Once(log, o);
      assert [o] + Updates(log) == Updates(all) && o in Updates(all) && t != o;
      forall n | 0 <= n < |all| && all[n].Updated?
        ensures !Overwritten(all, n)
      {
        OverwrittenConcat([e], log, n);
      }
      forall e' | e' in all && e'.Updated? && e'.target == t
        ensures Agrees(w.metadata, c, i, e'.property)
      {
        if e' in log {
          TargetOf(w, st, o, log, e');
        }
      }
    }
  }

  /** The target of an update is the given one, or was itself updated. */
  lemma {:induction false} TargetOf(w: World, st: Store, o: nat, log: seq<Event>, e: Event)
    requires Justified(w, st, Some(o), Some(o), log) && e in log && e.Updated?
    ensures e.target == o || e.target in Updates(log)
  {
    var n :| 0 <= n < |log| && log[n] == e;
    assert JustifiedEvent(w, st, Some(o), Some(o), log[..n], log[n]);
    if e.target != o {
      var d :| d in log[..n] && d.Updated? && d.object_ == e.target;
      assert d in log;
      UpdatesMember(log, e.target);
    }
  }

  // ---------------------------------------------------------------- every call is clean

  /** Metadata under which a scope check means what it says. */
  ghost predicate Sound(m: Metadata) {
    DistinctNames(m) && ClashFree(m)
  }

  /** A call under target t, below the i-th property of its class c along the path. */
  ghost predicate Setting(w: World, st: Store, ctx: Context, t: nat, c: string, i: nat, path: seq<Property>) {
    && WellFormed(w, st) && Typed(w.metadata, st) && ctx.depth >= 1 && ctx.target == Some(t)
    && t in st.objects && st.objects[t].class_ == c && Below(w.metadata, c, i, path)
  }

  ghost predicate CleanResult(m: Metadata, out: Outcome, t: nat, c: string, i: nat) {
    Typed(m, out.store) && Clean(m, out.log, t, c, i)
  }

  lemma {:induction false} SettingLater(w: World, st: Store, st': Store, ctx: Context, ctx': Context, t: nat, c: string,
                                        i: nat, path: seq<Property>)
    requires Setting(w, st, ctx, t, c, i, path) && WellFormed(w, st') && Typed(w.metadata, st') && Grows(st, st')
    requires ctx'.depth >= 1 && ctx'.target == Some(t)
    ensures Setting(w, st', ctx', t, c, i, path)
  {
  }

  lemma {:induction false} NothingClean(m: Metadata, t: nat, c: string, i: nat)
    ensures Clean(m, [], t, c, i)
  {
  }

  lemma {:induction false} NestedClean(w: World, data: Payload, type_: PropertyType, ctx: Context, st: Store, t: nat,
                                       c: string, i: nat, path: seq<Property>)
    requires Sound(w.metadata) && Setting(w, st, ctx, t, c, i, path)
    requires var p := path[|path| - 1];
      && (type_ == p.ptype || (!p.ptype.ScalarType? && type_ == EntityType(p.ptype.class_)))
      && Accept(w, data, type_, false, ctx, Some(p), st).Success?
    ensures var out := Accept(w, data, type_, false, ctx, Some(path[|path| - 1]), st).value;
      CleanResult(w.metadata, out, t, c, i) && Fits(out.store, type_, out.value)
    decreases Size(data), 6, 0
  {
    hide Sound, Clean, Typed, Good, Below;
    NothingClean(w.metadata, t, c, i);
    var inner := Context(ctx.target, ctx.depth + 1);
    SettingLater(w, st, st, ctx, inner, t, c, i, path);
    if data != NullData {
      match type_ {
        case ScalarType =>
        case StorageType(cls) =>
          if !IsEmpty(data) {
            AllClean(w, Elements(data), inner, st, t, c, i, path);
          }
        case EntityType(cls) =>
          TransportClean(w, data, inner, st, t, c, i, path);
      }
    }
  }

  lemma {:induction false} AllClean(w: World, items: seq<Payload>, ctx: Context, st: Store, t: nat, c: string, i: nat,
                                    path: seq<Property>)
    requires Sound(w.metadata) && Setting(w, st, ctx, t, c, i, path)
    requires var p := path[|path| - 1];
      !p.ptype.ScalarType? && AcceptAll(w, items, p.ptype.class_, ctx, Some(p), st).Success?
    ensures var p := path[|path| - 1];
      var out := AcceptAll(w, items, p.ptype.class_, ctx, Some(p), st).value;
      CleanResult(w.metadata, out, t, c, i) && Fits(out.store, StorageType(p.ptype.class_), out.value)
    decreases SizeOfItems(items), 0, 0
  {
    hide AcceptAll, Accept, Sound, Typed, Clean, Replay, Justified, WellFormed, Fits, Without;
    var p := path[|path| - 1];
    var cls := p.ptype.class_;
    if items == [] {
      NoItems(w, cls, ctx, Some(p), st);
      NothingClean(w.metadata, t, c, i);
    } else {
      ElementStep(w, items, cls, ctx, Some(p), st);
      var first := Accept(w, items[0], EntityType(cls), false, ctx, Some(p), st).value;
      NestedClean(w, items[0], EntityType(cls), ctx, st, t, c, i, path);
      SettingLater(w, st, first.store, ctx, ctx, t, c, i, path);
      AllClean(w, items[1..], ctx, first.store, t, c, i, path);
      var rest := AcceptAll(w, items[1..], cls, ctx, Some(p), first.store).value;
      CleanThen(w, st, first.store, t, c, i, None, None, first.log, rest.log);
      FitsAttached(first, rest, cls);
    }
  }

  lemma {:induction false} NoItems(w: World, c: string, ctx: Context, property: Option<Property>, st: Store)
    requires WellFormed(w, st) && TargetKnown(ctx, st) && ctx.depth >= 1
    ensures AcceptAll(w, [], c, ctx, property, st) == Success(Outcome(Storage([]), st, []))
    ensures Fits(st, StorageType(c), Storage([]))
  {
  }

  lemma {:induction false} FitsAttached(first: Outcome, rest: Outcome, c: string)
    requires first.value.Reference? && Fits(first.store, EntityType(c), first.value) && Grows(first.store, rest.store)
    requires rest.value.Storage? && Fits(rest.store, StorageType(c), rest.value)
    ensures Fits(rest.store, StorageType(c),
                 Storage([first.value.object_] + Without(rest.value.objects, first.value.object_)))
  {
  }

  lemma {:induction false} TransportClean(w: World, data: Payload, ctx: Context, st: Store, t: nat, c: string, i: nat,
                                          path: seq<Property>)
    requires Sound(w.metadata) && Setting(w, st, ctx, t, c, i, path) && data != NullData
    requires var p := path[|path| - 1];
      !p.ptype.ScalarType? && DeserializeTransport(w, data, p.ptype.class_, ctx, Some(p), st).Success?
    ensures var p := path[|path| - 1];
      var out := DeserializeTransport(w, data, p.ptype.class_, ctx, Some(p), st).value;
      CleanResult(w.metadata, out, t, c, i) && Fits(out.store, EntityType(p.ptype.class_), out.value)
    decreases Size(data), 5, 0
  {
    NothingClean(w.metadata, t, c, i);
    var p := path[|path| - 1];
    var cls := p.ptype.class_;
    if IsArray(data) {
      if GivesUid(data) {
        UpdateStep(w, data, cls, ctx, Some(p), st);
        hide DeserializeTransport, Typed, Clean, Below, InScope;
        var o := w.persisted[(cls, UidOf(Get(data, "uid").value))];
        var inner := VisitProperties(w, o, data, w.metadata[cls], Context(Some(o), 1), st).value;
        CheckAgrees(w, st, t, c, i, path, o);
        assert w.metadata[cls][0..] == w.metadata[cls];
        TargetClean(w, o, data, cls, 0, Context(Some(o), 1), st);
        hide VisitProperties;
        CleanUpdated(w, st, t, c, i, p, o, inner.log);
      } else {
        InsertStep(w, data, cls, ctx, Some(p), st);
        hide DeserializeTransport, Clean, Below, InScope;
        var created, inner := Create(st, cls), Context(ctx.target, ctx.depth + 1);
        TypedCreate(w.metadata, st, cls);
        SettingLater(w, st, created, ctx, inner, t, c, i, path);
        assert w.metadata[cls][0..] == w.metadata[cls];
        FreshClean(w, st.next, data, 0, inner, created, t, c, i, path);
        CleanInserted(w.metadata, Inserted(st.next, cls),
                      VisitProperties(w, st.next, data, w.metadata[cls], inner, created).value.log, t, c, i);
      }
    }
  }

  /** The properties of an inserted object, from the k-th on. */
  lemma {:induction false} FreshClean(w: World, o: nat, data: Payload, k: nat, ctx: Context, st: Store, t: nat,
                                      c: string, i: nat, path: seq<Property>)
    requires Sound(w.metadata) && Setting(w, st, ctx, t, c, i, path) && Cascades(path[|path| - 1])
    requires o in st.objects && o != t && o !in w.persisted.Values
    requires var cls := path[|path| - 1].ptype.class_;
      && cls in w.metadata && st.objects[o].class_ == cls && k <= |w.metadata[cls]|
      && VisitProperties(w, o, data, w.metadata[cls][k..], ctx, st).Success?
    ensures var cls := path[|path| - 1].ptype.class_;
      CleanResult(w.metadata, VisitProperties(w, o, data, w.metadata[cls][k..], ctx, st).value, t, c, i)
    decreases Size(data), 1, |w.metadata[path[|path| - 1].ptype.class_]| - k
  {
    NothingClean(w.metadata, t, c, i);
    var m, cls := w.metadata, path[|path| - 1].ptype.class_;
    var properties := m[cls][k..];
    if k < |m[cls]| {
      var q := m[cls][k];
      assert properties[0] == q && properties[1..] == m[cls][k + 1..];
      if Writes(data, q) {
        WriteStep(w, o, data, properties, ctx, st);
        var first := Accept(w, Get(data, q.name).value, q.ptype, false, ctx, Some(q), st).value;
        var set_ := SetField(first.store, o, q.name, first.value);
        var rest := VisitProperties(w, o, data, properties[1..], ctx, set_).value;
        PathSnoc(m, c, path, q);
        hide VisitProperties, Accept, Sound, Clean, Typed, Replay, Justified;
        NestedClean(w, Get(data, q.name).value, q.ptype, ctx, st, t, c, i, path + [q]);
        TypedSet(m, first.store, o, q, first.value);
        SettingLater(w, st, set_, ctx, ctx, t, c, i, path);
        FreshClean(w, o, data, k + 1, ctx, set_, t, c, i, path);
        var wrote := Wrote(o, q.name, first.value);
        CleanWrote(m, first.log, t, c, i, wrote);
        CleanThen(w, st, set_, t, c, i, Some(o), Some(o), first.log + [wrote], rest.log);
      } else {
        FreshClean(w, o, data, k + 1, ctx, st, t, c, i, path);
      }
    }
  }

  /** The properties of a target, from the k-th on. */
  lemma {:induction false} TargetClean(w: World, t: nat, data: Payload, c: string, k: nat, ctx: Context, st: Store)
    requires Sound(w.metadata) && WellFormed(w, st) && Typed(w.metadata, st) && ctx.depth >= 1 && ctx.target == Some(t)
    requires t in st.objects && st.objects[t].class_ == c && c in w.metadata && k <= |w.metadata[c]|
    requires VisitProperties(w, t, data, w.metadata[c][k..], ctx, st).Success?
    ensures CleanResult(w.metadata, VisitProperties(w, t, data, w.metadata[c][k..], ctx, st).value, t, c, k)
    decreases Size(data), 1, |w.metadata[c]| - k
  {
    hide Accept, Sound, Clean, Replay, Justified, InScope;
    NothingClean(w.metadata, t, c, k);
    var m := w.metadata;
    var properties := m[c][k..];
    if k < |m[c]| {
      var q := m[c][k];
      assert properties[0] == q && properties[1..] == m[c][k + 1..];
      if Writes(data, q) {
        WriteStep(w, t, data, properties, ctx, st);
        var first := Accept(w, Get(data, q.name).value, q.ptype, false, ctx, Some(q), st).value;
        var set_ := SetField(first.store, t, q.name, first.value);
        var rest := VisitProperties(w, t, data, properties[1..], ctx, set_).value;
        assert Below(m, c, k, [q]);
        hide VisitProperties, Accept, Sound, Clean, Typed, Replay, Justified;
        NestedClean(w, Get(data, q.name).value, q.ptype, ctx, st, t, c, k, [q]);
        TypedSet(m, first.store, t, q, first.value);
        TargetClean(w, t, data, c, k + 1, ctx, set_);
        CleanNext(w, st, set_, t, c, k, first, rest);
      } else {
        TargetClean(w, t, data, c, k + 1, ctx, st);
        LaterAgrees(m, VisitProperties(w, t, data, properties, ctx, st).value.log, t, c, k);
      }
    }
  }

  lemma {:induction false} LaterAgrees(m: Metadata, log: seq<Event>, t: nat, c: string, k: nat)
    requires Clean(m, log, t, c, k + 1)
    ensures Clean(m, log, t, c, k)
  {
    forall p | Agrees(m, c, k + 1, p)
      ensures Agrees(m, c, k, p)
    {
    }
  }

  /** The k-th property of a target has been written; no later check is on it. */
  lemma {:induction false} CleanNext(w: World, st: Store, mid: Store, t: nat, c: string, k: nat, first: Outcome,
                                     rest: Outcome)
    requires c in w.metadata && k < |w.metadata[c]| && !w.metadata[c][k].readOnly
    requires WellFormed(w, st) && WellFormed(w, mid) && t in st.objects
    requires Justified(w, st, Some(t), None, first.log) && Justified(w, mid, Some(t), Some(t), rest.log)
    requires Justified(w, st, Some(t), Some(t), first.log + [Wrote(t, w.metadata[c][k].name, first.value)])
    requires Clean(w.metadata, first.log, t, c, k) && Clean(w.metadata, rest.log, t, c, k + 1)
    ensures Clean(w.metadata, first.log + [Wrote(t, w.metadata[c][k].name, first.value)] + rest.log, t, c, k)
  {
    var m, wrote := w.metadata, Wrote(t, w.metadata[c][k].name, first.value);
    var a := first.log + [wrote];
    CleanWrote(m, first.log, t, c, k, wrote);
    if Once(a + rest.log, t) {
      OnceParts(a, rest.log, t);
      OnceParts(first.log, [wrote], t);
      UpdatesMember(first.log, t);
      forall e | e in rest.log && e.Updated? && e.target == t
        ensures !WrittenIn(a, t, e.property.name)
      {
        WrittenTo(w, st, Some(t), None, first.log, t, e.property.name);
        WrittenInConcat(first.log, [wrote], t, e.property.name);
        assert Agrees(m, c, k + 1, e.property);
      }
      NoneOverwrittenThen(w, st, mid, t, Some(t), Some(t), a, rest.log);
      LaterAgrees(m, rest.log, t, c, k);
    }
  }

  // ---------------------------------------------------------------- the theorem

  /** Objects as the persistence layer keeps them: one for each class and uid, holding objects that it knows. */
  ghost predicate Consistent(w: World, st: Store) {
    WellFormed(w, st) && Typed(w.metadata, st) && UniqueUids(w, st) && ReferencesKnown(st)
  }

  /** A payload that addresses no object twice, and not the one it is written to. */
  ghost predicate AddressesOnce(w: World, data: Payload, class_: string, root: nat) {
    var keys := KeysOf(Addressed(w.metadata, data, EntityType(class_), None, None));
    NoDuplicates(keys) && forall k :: k in keys && k in w.persisted ==> w.persisted[k] != root
  }

  lemma {:induction false} AddressedOnce(w: World, st: Store, log: seq<Event>, addresses: seq<Address>, root: nat)
    requires WellFormed(w, st) && AllPerformed(w, Some(root), UpdatesIn(log), addresses)
    requires NoDuplicates(KeysOf(addresses))
    requires forall k :: k in KeysOf(addresses) && k in w.persisted ==> w.persisted[k] != root
    ensures Once(log, root)
  {
    var objects, keys := Updates(log), KeysOf(addresses);
    UpdatesLength(log);
    forall i, j | 0 <= i < j < |objects|
      ensures objects[i] != objects[j]
    {
      UpdatesAt(log, i);
      UpdatesAt(log, j);
      assert Performs(w, Some(root), UpdatesIn(log)[i], addresses[i]);
      assert Performs(w, Some(root), UpdatesIn(log)[j], addresses[j]);
      assert keys[i] != keys[j];
    }
    forall i | 0 <= i < |objects|
      ensures objects[i] != root
    {
      UpdatesAt(log, i);
      assert Performs(w, Some(root), UpdatesIn(log)[i], addresses[i]);
      assert keys[i] in keys;
    }
  }

  lemma {:induction false} RootClean(w: World, data: Payload, class_: string, root: nat, st: Store)
    requires Sound(w.metadata) && WellFormed(w, st) && Typed(w.metadata, st)
    requires root in st.objects && st.objects[root].class_ == class_
    requires Accept(w, data, EntityType(class_), false, Context(Some(root), 0), None, st).Success?
    ensures Clean(w.metadata, Accept(w, data, EntityType(class_), false, Context(Some(root), 0), None, st).value.log,
                  root, class_, 0)
  {
    NothingClean(w.metadata, root, class_, 0);
    if data != NullData {
      hide Clean, Sound, Typed;
      var properties := w.metadata[class_];
      assert properties[0..] == properties;
      TargetClean(w, root, data, class_, 0, Context(Some(root), 1), st);
    }
  }

  lemma {:induction false} HeldFits(m: Metadata, st: Store, t: nat, name: string, type_: PropertyType)
    requires DistinctNames(m) && Typed(m, st) && t in st.objects && HasProperty(m, st.objects[t].class_, name, type_)
    ensures FieldAt(st, t, name).Some? ==> Fits(st, type_, FieldAt(st, t, name).value)
  {
    if FieldAt(st, t, name).Some? {
      var t': PropertyType :| HasProperty(m, st.objects[t].class_, name, t') &&
        Fits(st, t', FieldAt(st, t, name).value);
      assert t' == type_;
    }
  }

  /** An update whose property has not been set before is of an object that the property held at the start. */
  lemma {:induction false} CleanIsHeld(w: World, st: Store, root: nat, log: seq<Event>, n: nat)
    requires DistinctNames(w.metadata) && Consistent(w, st) && root in st.objects
    requires Justified(w, st, Some(root), Some(root), log) && n < |log| && log[n].Updated? && !Overwritten(log, n)
    requires AllTyped(w.metadata, log)
    ensures Holds(st, log[n].target, log[n].property.name, log[n].object_)
  {
    var e := log[n];
    HeldOrOverwritten(w, st, root, log, n);
    TargetKnownInLog(w, st, root, log, n);
    assert JustifiedEvent(w, st, Some(root), Some(root), log[..n], e);
    HeldFits(w.metadata, st, e.target, e.property.name, e.property.ptype);
  }

  /**
   Without clashes in the metadata, a payload that addresses no object twice updates only objects that
   the same-named property of their target held, as the very object, when the call began.
   */
  lemma {:induction false} UpdatedWereHeld(w: World, data: Payload, class_: string, root: nat, st: Store, n: nat)
    requires Sound(w.metadata) && Consistent(w, st) && root in st.objects && st.objects[root].class_ == class_
    requires AddressesOnce(w, data, class_, root)
    requires Accept(w, data, EntityType(class_), false, Context(Some(root), 0), None, st).Success?
    requires var log := Accept(w, data, EntityType(class_), false, Context(Some(root), 0), None, st).value.log;
      n < |log| && log[n].Updated?
    ensures var log := Accept(w, data, EntityType(class_), false, Context(Some(root), 0), None, st).value.log;
      Holds(st, log[n].target, log[n].property.name, log[n].object_)
  {
    var ctx := Context(Some(root), 0);
    var log := Accept(w, data, EntityType(class_), false, ctx, None, st).value.log;
    UpdatesAddressed(w, data, EntityType(class_), ctx, None, st, Some(root), None);
    AddressedOnce(w, st, log, Addressed(w.metadata, data, EntityType(class_), None, None), root);
    RootClean(w, data, class_, root, st);
    assert Justified(w, st, Some(root), Some(root), log);
    hide Accept, Justified, Typed, Holds, Overwritten, Consistent;
    CleanIsHeld(w, st, root, log, n);
  }

  /** A chain of checks, each of an object that its target held when the call began. */
  ghost predicate HeldChain(w: World, st: Store, root: nat, log: seq<Event>, chain: seq<nat>) {
    && Chain(w, st, root, log, chain)
    && forall k :: 0 <= k < |chain| ==>
         Holds(st, log[chain[k]].target, log[chain[k]].property.name, log[chain[k]].object_)
  }

  /** So an object that changed is the root, or was related to it from the start. */
  lemma {:induction false} ChangedWereRelated(w: World, data: Payload, class_: string, root: nat, st: Store, o: nat)
    requires Sound(w.metadata) && Consistent(w, st) && root in st.objects && st.objects[root].class_ == class_
    requires AddressesOnce(w, data, class_, root)
    requires Accept(w, data, EntityType(class_), false, Context(Some(root), 0), None, st).Success?
    requires var out := Accept(w, data, EntityType(class_), false, Context(Some(root), 0), None, st).value;
             o in st.objects && (o !in out.store.objects || out.store.objects[o] != st.objects[o])
    ensures var out := Accept(w, data, EntityType(class_), false, Context(Some(root), 0), None, st).value;
      o == root || exists chain :: HeldChain(w, st, root, out.log, chain) && out.log[chain[|chain| - 1]].object_ == o
  {
    var out := Accept(w, data, EntityType(class_), false, Context(Some(root), 0), None, st).value;
    UpdatingStaysInScope(w, data, class_, root, st, o);
    if o != root {
      var chain :| Chain(w, st, root, out.log, chain) && out.log[chain[|chain| - 1]].object_ == o;
      hide Accept, Holds, Sound, Consistent, AddressesOnce;
      forall k | 0 <= k < |chain|
        ensures Holds(st, out.log[chain[k]].target, out.log[chain[k]].property.name, out.log[chain[k]].object_)
      {
        assert CheckedUpdate(w, st, root, out.log, chain[k]);
        UpdatedWereHeld(w, data, class_, root, st, chain[k]);
      }
    }
  }
}
