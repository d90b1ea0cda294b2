/**
 The builder as the source writes it: static fields that the methods push, pop and reassign.
 The static stack of processed classes outlives a build that throws, so a build is specified
 for every stack it may start from.
 */
module ComponentWalk {
  import opened Wrappers
  import opened Sequences
  import opened OpenApiModel
  import opened SchemaMeaning

  type Key = (string, Mode)

  /** PHP class names contain no dots. */
  ghost predicate WellNamed(w: World) {
    && (forall c :: c in w.types.classes ==> DotFree(c))
    && (forall c :: c in w.metadata ==> DotFree(c))
    && (forall r :: r in w.resources ==> DotFree(r.entity))
  }

  /** The class and mode pairs that a walk from `c` has to define. */
  ghost predicate Visits(w: World, stack: seq<string>, c: string, mode: Mode, k: Key) {
    k.1 == mode && if mode == Read then Reaches(w, stack, c, k.0) else k.0 == c && c !in stack
  }

  ghost predicate DocVisits(w: World, stack: seq<string>, entity: string, op: Operation, k: Key) {
    Visits(w, stack, entity, Read, k) || (HasBody(op) && Visits(w, stack, entity, Write, k))
  }

  /** READ of everything reachable from an entity with an operation, WRITE of every entity with a body. */
  ghost predicate Expected(w: World, stack: seq<string>, k: Key) {
    exists r, op :: r in w.resources && op in r.operations && DocVisits(w, stack, r.entity, op, k)
  }

  ghost predicate ExpectedComponent(w: World, stack: seq<string>, component: Component) {
    exists k: Key {:trigger Expected(w, stack, k)} ::
      Expected(w, stack, k) && k.0 in w.metadata && component == ComponentOf(w, k.0, k.1)
  }

  ghost predicate TableIs(w: World, stack: seq<string>, components: seq<Component>) {
    && DistinctIds(components)
    && (forall i :: 0 <= i < |components| ==> ExpectedComponent(w, stack, components[i]))
    && (forall k {:trigger Expected(w, stack, k)} :: Expected(w, stack, k) ==>
          k.0 in w.metadata && ComponentOf(w, k.0, k.1) in components)
  }

  /** A component of the class and mode, as its metadata says. */
  ghost predicate DescribesKey(w: World, k: Key, component: Component) {
    k.0 in w.metadata && DescribesClass(w, k.0, k.1, component)
  }

  ghost predicate DescribesExpected(w: World, stack: seq<string>, component: Component) {
    exists k: Key {:trigger Expected(w, stack, k)} :: Expected(w, stack, k) && DescribesKey(w, k, component)
  }

  /** Each component describes an expected class and mode; each expected class and mode is described. */
  ghost predicate DescribesTable(w: World, stack: seq<string>, components: seq<Component>) {
    && (forall i :: 0 <= i < |components| ==> DescribesExpected(w, stack, components[i]))
    && (forall k {:trigger Expected(w, stack, k)} :: Expected(w, stack, k) ==>
          exists component :: component in components && DescribesKey(w, k, component))
  }

  lemma {:induction false} TableDescribes(w: World, stack: seq<string>, components: seq<Component>)
    requires TableIs(w, stack, components)
    ensures DescribesTable(w, stack, components)
  {
    hide Expected, DescribesClass, ComponentOf, DistinctIds;
    forall k: Key | k.0 in w.metadata
      ensures DescribesKey(w, k, ComponentOf(w, k.0, k.1))
    {
      ComponentDescribes(w, k.0, k.1);
    }
    forall i | 0 <= i < |components|
      ensures DescribesExpected(w, stack, components[i])
    {
      assert ExpectedComponent(w, stack, components[i]);
    }
  }

  function ArraySearch(s: seq<string>, x: string): (i: nat)
    requires x in s
    ensures i < |s| && s[i] == x && x !in s[..i]
  {
    if s[0] == x then 0 else 1 + ArraySearch(s[1..], x)
  }

  /** `unset($s[array_search($x, $s, true)])` */
  function Unset(s: seq<string>, x: string): (r: seq<string>)
    requires x in s
  {
    var position := ArraySearch(s, x);
    s[..position] + s[position + 1..]
  }

  lemma {:induction false} UnsetTop(stack: seq<string>, c: string)
    requires c !in stack
    ensures Unset(stack + [c], c) == stack
  {
    assert (stack + [c])[|stack|] == c;
    assert forall i :: 0 <= i < |stack| ==> (stack + [c])[i] == stack[i] && stack[i] != c;
    assert ArraySearch(stack + [c], c) == |stack|;
  }

  /** `keys` names the class and mode of each component of the table. */
  ghost predicate Table(w: World, components: seq<Component>, keys: seq<Key>) {
    && |keys| == |components|
    && (forall i :: 0 <= i < |keys| ==>
          keys[i].0 in w.metadata && components[i] == ComponentOf(w, keys[i].0, keys[i].1))
    && NoDuplicates(keys)
  }

  /** The class a READ schema of the type refers to is defined or on the stack. */
  ghost predicate Covered(w: World, stack: seq<string>, keys: seq<Key>, t: PropertyType) {
    Target(w, t).Some? ==> (Target(w, t).value, Read) in keys || Target(w, t).value in stack
  }

  /** What one walk from `c` adds. */
  ghost predicate Grown(w: World, stack: seq<string>, before: seq<Key>, after: seq<Key>, c: string, mode: Mode) {
    && before <= after
    && (forall i :: |before| <= i < |after| ==> Visits(w, stack, c, mode, after[i]))
  }

  /** What walking through a type adds. */
  ghost predicate GrownByType(w: World, stack: seq<string>, before: seq<Key>, after: seq<Key>, t: PropertyType,
                              mode: Mode)
  {
    if mode == Read && Target(w, t).Some?
    then Grown(w, stack, before, after, Target(w, t).value, Read) && Covered(w, stack, after, t)
    else after == before
  }

  /**
   What a failed walk from `c` leaves on the stack: the walk itself, a path of the class graph that avoids
   the stack it started from and ends in a class whose metadata cannot be loaded.
   */
  ghost predicate Abandoned(w: World, stack: seq<string>, c: string, mode: Mode, after: seq<string>) {
    && stack <= after && |stack| < |after|
    && var path := after[|stack|..];
       && IsPath(w, stack, path) && path[0] == c && path[|path| - 1] !in w.metadata
       && (mode == Write ==> |path| == 1)
  }

  ghost predicate AbandonedByType(w: World, stack: seq<string>, t: PropertyType, mode: Mode, after: seq<string>) {
    mode == Read && Target(w, t).Some? && Abandoned(w, stack, Target(w, t).value, Read, after)
  }

  lemma {:induction false} VisitsThroughEdge(w: World, stack: seq<string>, c: string, d: string, k: Key)
    requires c !in stack && Edge(w, c, d) && Visits(w, stack + [c], d, Read, k)
    ensures Visits(w, stack, c, Read, k) && k.0 != c
  {
    ReachesViaEdge(w, stack, c, d, k.0);
    ReachesAvoids(w, stack + [c], d, k.0);
  }

  lemma {:induction false} GrownThroughEdge(w: World, stack: seq<string>, before: seq<Key>, mid: seq<Key>,
                                            after: seq<Key>, c: string, t: PropertyType, mode: Mode)
    requires c !in stack
    requires Target(w, t).Some? ==> Edge(w, c, Target(w, t).value)
    requires Grown(w, stack, before, mid, c, mode)
    requires GrownByType(w, stack + [c], mid, after, t, mode)
    ensures Grown(w, stack, before, after, c, mode)
    ensures forall i :: |mid| <= i < |after| ==> after[i].0 != c
  {
    if mode == Read && Target(w, t).Some? {
      forall i | |mid| <= i < |after|
        ensures Visits(w, stack, c, mode, after[i]) && after[i].0 != c
      {
        VisitsThroughEdge(w, stack, c, Target(w, t).value, after[i]);
      }
    }
  }

  lemma {:induction false} AbandonedThroughEdge(w: World, stack: seq<string>, c: string, t: PropertyType, mode: Mode,
                                                after: seq<string>)
    requires c !in stack
    requires Target(w, t).Some? ==> Edge(w, c, Target(w, t).value)
    requires AbandonedByType(w, stack + [c], t, mode, after)
    ensures Abandoned(w, stack, c, mode, after)
  {
    var path, rest := after[|stack|..], after[|stack| + 1..];
    assert after[..|stack| + 1] == stack + [c];
    assert path == [c] + rest;
    assert forall x :: x in stack ==> x in stack + [c];
  }

  /** What the loop over the properties of `c` has done after the properties `done`. */
  ghost predicate Collected(w: World, stack: seq<string>, before: seq<Key>, keys: seq<Key>, c: string, mode: Mode,
                            properties: seq<PropertySchema>, done: seq<Property>)
  {
    && properties == PropertySchemas(w, mode, c, done)
    && Grown(w, stack, before, keys, c, mode)
    && (c, mode) !in keys
    && (mode == Write ==> keys == before)
    && (mode == Read ==> forall p :: p in done && p.declaringClass == c ==> Covered(w, stack + [c], keys, p.ptype))
  }

  lemma {:induction false} CollectNone(w: World, stack: seq<string>, keys: seq<Key>, c: string, mode: Mode)
    requires (c, mode) !in keys
    ensures Collected(w, stack, keys, keys, c, mode, [], [])
  {}

  lemma {:induction false} SkipInherited(w: World, stack: seq<string>, before: seq<Key>, keys: seq<Key>, c: string,
                                         mode: Mode, properties: seq<PropertySchema>, done: seq<Property>, p: Property)
    requires Collected(w, stack, before, keys, c, mode, properties, done) && p.declaringClass != c
    ensures Collected(w, stack, before, keys, c, mode, properties, done + [p])
  {
    assert (done + [p])[..|done|] == done;
    assert properties + [] == properties;
  }

  lemma {:induction false} CollectOne(w: World, stack: seq<string>, before: seq<Key>, mid: seq<Key>, keys: seq<Key>,
                                      c: string, mode: Mode, properties: seq<PropertySchema>, done: seq<Property>,
                                      p: Property)
    requires Collected(w, stack, before, mid, c, mode, properties, done)
    requires c !in stack && c in w.metadata && p in w.metadata[c] && p.declaringClass == c
    requires mid <= keys && GrownByType(w, stack + [c], mid, keys, p.ptype, mode)
    ensures Collected(w, stack, before, keys, c, mode,
                      properties + [PropertySchema(p.serializedName, p.readOnly, SchemaOf(w, mode, p.ptype))],
                      done + [p])
  {
    assert (done + [p])[..|done|] == done;
    GrownThroughEdge(w, stack, before, mid, keys, c, p.ptype, mode);
    assert forall q :: q in done && Covered(w, stack + [c], mid, q.ptype) ==> Covered(w, stack + [c], keys, q.ptype);
  }

  /** Popping a class whose own edges are covered keeps the table closed up to the stack. */
  lemma {:induction false} ClosedAfterPop(w: World, stack: seq<string>, keys: seq<Key>, c: string, mode: Mode)
    requires ClosedUpTo(w, stack + [c], keys)
    requires c in w.metadata
    requires mode == Read ==> forall p :: p in w.metadata[c] && p.declaringClass == c ==>
      Covered(w, stack + [c], keys, p.ptype)
    requires mode == Write ==> ClosedUpTo(w, stack, keys)
    ensures ClosedUpTo(w, stack, keys + [(c, mode)])
  {
    forall a, b {:trigger Edge(w, a, b)} | (a, Read) in keys + [(c, mode)] && Edge(w, a, b)
      ensures (b, Read) in keys + [(c, mode)] || b in stack
    {
      if mode == Read {
        assert (c, Read) in keys + [(c, mode)];
        if (a, Read) !in keys {
          assert a == c;
          var p :| p in w.metadata[c] && p.declaringClass == c && Target(w, p.ptype) == Some(b);
          assert Covered(w, stack + [c], keys, p.ptype);
        }
      }
    }
  }

  lemma {:induction false} TableAfterPush(w: World, components: seq<Component>, keys: seq<Key>, c: string, mode: Mode)
    requires Table(w, components, keys) && c in w.metadata && (c, mode) !in keys
    ensures Table(w, components + [ComponentOf(w, c, mode)], keys + [(c, mode)])
  {
    assert forall i :: 0 <= i < |keys| ==> keys[i] in keys;
  }

  lemma {:induction false} GrownAfterPush(w: World, stack: seq<string>, before: seq<Key>, keys: seq<Key>, c: string,
                                          mode: Mode)
    requires Grown(w, stack, before, keys, c, mode) && c !in stack
    ensures Grown(w, stack, before, keys + [(c, mode)], c, mode)
  {
    ReachesSelf(w, stack, c);
  }

  /** Popping a class, with its component in the table, completes the walk from it. */
  lemma {:induction false} FinishClass(w: World, stack: seq<string>, before: seq<Key>, keys: seq<Key>,
                                       components: seq<Component>, c: string, mode: Mode,
                                       properties: seq<PropertySchema>)
    requires c !in stack && c in w.metadata
    requires Table(w, components, keys) && ClosedUpTo(w, stack + [c], keys) && ClosedUpTo(w, stack, before)
    requires Collected(w, stack, before, keys, c, mode, properties, w.metadata[c])
    ensures Table(w, components + [ComponentOf(w, c, mode)], keys + [(c, mode)])
    ensures ClosedUpTo(w, stack, keys + [(c, mode)])
    ensures Grown(w, stack, before, keys + [(c, mode)], c, mode)
    ensures ComponentOf(w, c, mode) == Component(Identifier(c, mode),
              properties + if IsApiResource(w, c) && mode == Read then [PropertySchema("@id", false, Text)] else [])
  {
    ClosedAfterPop(w, stack, keys, c, mode);
    TableAfterPush(w, components, keys, c, mode);
    GrownAfterPush(w, stack, before, keys, c, mode);
  }

  lemma {:induction false} PushClass(w: World, stack: seq<string>, keys: seq<Key>, c: string)
    requires c !in stack && NoDuplicates(stack) && ClosedUpTo(w, stack, keys)
    ensures NoDuplicates(stack + [c]) && ClosedUpTo(w, stack + [c], keys)
  {}

  lemma {:induction false} AbandonsItself(w: World, stack: seq<string>, c: string, mode: Mode)
    requires c !in stack && c !in w.metadata
    ensures Abandoned(w, stack, c, mode, stack + [c])
  {
    assert (stack + [c])[|stack|..] == [c];
  }

  // ---------------------------------------------------------------- whole builds

  /** The walks that one operation starts are done. */
  ghost predicate OperationCovered(stack: seq<string>, keys: seq<Key>, entity: string, op: Operation) {
    && ((entity, Read) in keys || entity in stack)
    && (HasBody(op) ==> (entity, Write) in keys || entity in stack)
  }

  /** A failed build leaves the walk from an entity with an operation. */
  ghost predicate BuildAbandoned(w: World, stack: seq<string>, after: seq<string>) {
    exists r, op :: r in w.resources && op in r.operations && Abandoned(w, stack, r.entity, Read, after)
  }

  ghost predicate AllExpected(w: World, stack: seq<string>, keys: seq<Key>) {
    forall i :: 0 <= i < |keys| ==> Expected(w, stack, keys[i])
  }

  ghost predicate Loadable(w: World, stack: seq<string>) {
    forall k {:trigger Expected(w, stack, k)} :: Expected(w, stack, k) ==> k.0 in w.metadata
  }

  lemma {:induction false} AbandonedNotLoadable(w: World, stack: seq<string>, after: seq<string>)
    requires BuildAbandoned(w, stack, after)
    ensures !Loadable(w, stack)
  {
    var r, op :| r in w.resources && op in r.operations && Abandoned(w, stack, r.entity, Read, after);
    var path := after[|stack|..];
    var missing := path[|path| - 1];
    assert PathBetween(w, stack, r.entity, missing, path);
    assert Visits(w, stack, r.entity, Read, (missing, Read));
    assert Expected(w, stack, (missing, Read));
  }

  /** Every operation of the listed resources has been walked. */
  ghost predicate ResourcesCovered(stack: seq<string>, keys: seq<Key>, done: seq<Resource>) {
    forall r, op :: r in done && op in r.operations ==> OperationCovered(stack, keys, r.entity, op)
  }

  ghost predicate Arranged(paths: seq<PathItem>, docs: seq<OperationDoc>) {
    exists listing :: Arranges(paths, docs, listing)
  }

  lemma {:induction false} ArrangedStep(paths: seq<PathItem>, docs: seq<OperationDoc>, doc: OperationDoc)
    requires Arranged(paths, docs)
    ensures Arranged(AddToPath(paths, doc), docs + [doc])
  {
    hide Arranges;
    var listing :| Arranges(paths, docs, listing);
    var _ := ArrangesOneMore(paths, docs, listing, doc);
  }

  lemma {:induction false} ArrangedAll(resources: seq<Resource>, paths: seq<PathItem>)
    requires Arranged(paths, DocsOf(resources))
    ensures DescribesOperations(resources, paths)
  {
    hide Arranges, Enumerates;
    var listing :| Arranges(paths, DocsOf(resources), listing);
    var _ := ResourcesEnumerated(resources);
  }

  ghost predicate Progress(w: World, stack: seq<string>, keys: seq<Key>, paths: seq<PathItem>, done: seq<Resource>) {
    && GroupsByRoute(paths, DocsOf(done))
    && Arranged(paths, DocsOf(done))
    && AllExpected(w, stack, keys)
    && ResourcesCovered(stack, keys, done)
  }

  /** The resources done after j operations of resource i. */
  ghost function Partial(w: World, i: nat, j: nat): seq<Resource>
    requires i < |w.resources| && j <= |w.resources[i].operations|
  {
    w.resources[..i] + [Resource(w.resources[i].entity, w.resources[i].operations[..j])]
  }

  lemma {:induction false} EnterResource(w: World, stack: seq<string>, keys: seq<Key>, paths: seq<PathItem>, i: nat)
    requires i < |w.resources|
    requires Progress(w, stack, keys, paths, w.resources[..i])
    ensures Progress(w, stack, keys, paths, Partial(w, i, 0))
  {
    assert Partial(w, i, 0)[..i] == w.resources[..i];
    assert DocsOf(Partial(w, i, 0)) == DocsOf(w.resources[..i]);
  }

  lemma {:induction false} LeaveResource(w: World, i: nat)
    requires i < |w.resources|
    ensures Partial(w, i, |w.resources[i].operations|) == w.resources[..i + 1]
  {
    var r := w.resources[i];
    assert r.operations[..|r.operations|] == r.operations;
  }

  lemma {:induction false} PartialStep(w: World, i: nat, j: nat)
    requires i < |w.resources| && j < |w.resources[i].operations|
    ensures DocsOf(Partial(w, i, j + 1)) ==
            DocsOf(Partial(w, i, j)) + [DocOf(w.resources[i].entity, w.resources[i].operations[j])]
  {
    var r := w.resources[i];
    assert Partial(w, i, j)[..i] == w.resources[..i] == Partial(w, i, j + 1)[..i];
    assert r.operations[..j + 1][..j] == r.operations[..j];
  }

  lemma {:induction false} CoveredStep(w: World, stack: seq<string>, before: seq<Key>, after: seq<Key>, i: nat, j: nat)
    requires i < |w.resources| && j < |w.resources[i].operations| && before <= after
    requires ResourcesCovered(stack, before, Partial(w, i, j))
    requires OperationCovered(stack, after, w.resources[i].entity, w.resources[i].operations[j])
    ensures ResourcesCovered(stack, after, Partial(w, i, j + 1))
  {
    var old_, new_ := Partial(w, i, j), Partial(w, i, j + 1);
    forall s, o | s in new_ && o in s.operations
      ensures OperationCovered(stack, after, s.entity, o)
    {
      if s in w.resources[..i] {
        assert s in old_;
      } else if o != w.resources[i].operations[j] {
        assert old_[i] in old_ && o in old_[i].operations;
      }
    }
  }

  lemma {:induction false} FinishOperation(w: World, stack: seq<string>, before: seq<Key>, after: seq<Key>,
                                           paths: seq<PathItem>, i: nat, j: nat)
    requires i < |w.resources| && j < |w.resources[i].operations|
    requires Progress(w, stack, before, paths, Partial(w, i, j))
    requires before <= after
    requires forall n :: |before| <= n < |after| ==>
      DocVisits(w, stack, w.resources[i].entity, w.resources[i].operations[j], after[n])
    requires OperationCovered(stack, after, w.resources[i].entity, w.resources[i].operations[j])
    ensures Progress(w, stack, after, AddToPath(paths, DocOf(w.resources[i].entity, w.resources[i].operations[j])),
                     Partial(w, i, j + 1))
  {
    hide GroupsByRoute, Arranged, DocsOf, AddToPath, DocOf, DocVisits, OperationCovered, ResourcesCovered, Partial;
    var r, op := w.resources[i], w.resources[i].operations[j];
    assert r in w.resources && op in r.operations;
    PartialStep(w, i, j);
    GroupsByRouteStep(paths, DocsOf(Partial(w, i, j)), DocOf(r.entity, op));
    ArrangedStep(paths, DocsOf(Partial(w, i, j)), DocOf(r.entity, op));
    CoveredStep(w, stack, before, after, i, j);
  }

  lemma {:induction false} ExpectedInKeys(w: World, stack: seq<string>, keys: seq<Key>, k: Key)
    requires ClosedUpTo(w, stack, keys)
    requires ResourcesCovered(stack, keys, w.resources)
    requires Expected(w, stack, k)
    ensures k in keys
  {
    var r, op :| r in w.resources && op in r.operations && DocVisits(w, stack, r.entity, op, k);
    if Visits(w, stack, r.entity, Read, k) {
      var path :| PathBetween(w, stack, r.entity, k.0, path);
      ClosedContainsReachable(w, stack, keys, r.entity, k.0, path);
    }
  }

  /** A closed table whose keys are all expected and whose operations are covered is the expected one. */
  lemma {:induction false} TableComplete(w: World, stack: seq<string>, components: seq<Component>, keys: seq<Key>)
    requires WellNamed(w) && Table(w, components, keys) && ClosedUpTo(w, stack, keys) && AllExpected(w, stack, keys)
    requires ResourcesCovered(stack, keys, w.resources)
    ensures TableIs(w, stack, components) && Loadable(w, stack)
  {
    forall k | Expected(w, stack, k)
      ensures k.0 in w.metadata && ComponentOf(w, k.0, k.1) in components
    {
      ExpectedInKeys(w, stack, keys, k);
      var i :| 0 <= i < |keys| && keys[i] == k;
      assert components[i] == ComponentOf(w, k.0, k.1);
    }
    forall i | 0 <= i < |components|
      ensures ExpectedComponent(w, stack, components[i])
    {
      assert Expected(w, stack, keys[i]);
    }
    forall i, j | 0 <= i < j < |components|
      ensures components[i].objectId != components[j].objectId
    {
      if components[i].objectId == components[j].objectId {
        IdentifierInjective(keys[i].0, keys[i].1, keys[j].0, keys[j].1);
      }
    }
  }

  class OpenApiBuilder {
    var world: World
    var components: seq<Component>
    var processed: seq<string>
    /** The class and mode of each component. */
    ghost var keys: seq<Key>

    /** The static stack is empty when the process starts. */
    constructor (w: World)
      ensures world == w && processed == [] && components == [] && keys == []
    {
      world := w;
      components, processed, keys := [], [], [];
    }

    ghost predicate Valid()
      reads this
    {
      && WellNamed(world)
      && Table(world, components, keys)
      && NoDuplicates(processed)
      && ClosedUpTo(world, processed, keys)
    }

    ghost function Unprocessed(): set<string>
      reads this
    {
      world.metadata.Keys - set c | c in processed
    }

    method GetComponentsSchemaReference(c: string, mode: Mode) returns (r: Result<string>)
      requires Valid() && DotFree(c)
      modifies `components, `processed, `keys
      ensures r.Success? ==>
        && Valid() && processed == old(processed) && r.value == Reference(c, mode)
        && Grown(world, processed, old(keys), keys, c, mode)
        && ((c, mode) in keys || c in processed)
      ensures r.Failure? ==> NoDuplicates(processed) && Abandoned(world, old(processed), c, mode, processed)
      decreases Unprocessed(), 2, 0
    {
      var schemaIdentifier := Identifier(c, mode);
      var referencePath := REFERENCE_PREFIX + schemaIdentifier;
      if exists i :: 0 <= i < |components| && components[i].objectId == schemaIdentifier {
        var i :| 0 <= i < |components| && components[i].objectId == schemaIdentifier;
        IdentifierInjective(keys[i].0, keys[i].1, c, mode);
      } else {
        forall i | 0 <= i < |keys|
          ensures keys[i] != (c, mode)
        {
          assert components[i].objectId != schemaIdentifier;
        }
        var _ :- SetComponentsSchema(schemaIdentifier, c, mode);
      }
      r := Success(referencePath);
    }

    method SetComponentsSchema(name: string, c: string, mode: Mode) returns (r: Result<()>)
      requires Valid() && DotFree(c)
      requires name == Identifier(c, mode) && (c, mode) !in keys
      modifies `components, `processed, `keys
      ensures r.Success? ==>
        && Valid() && processed == old(processed)
        && Grown(world, processed, old(keys), keys, c, mode)
        && ((c, mode) in keys || c in processed)
      ensures r.Failure? ==> NoDuplicates(processed) && Abandoned(world, old(processed), c, mode, processed)
      decreases Unprocessed(), 1, 0
    {
      if c in processed {
        return Success(());
      }
      ghost var stack, before := processed, keys;
      PushClass(world, stack, keys, c);
      processed := processed + [c];
      if c !in world.metadata {
        AbandonsItself(world, stack, c, mode);
        return Failure("An error occurred while generating metadata for class");
      }
      assert c in old(Unprocessed()) && c !in Unprocessed();
      hide ClosedUpTo, Table, Grown, Collected, NoDuplicates, Abandoned, ComponentOf, Identifier, Unset, WellNamed,
        IsApiResource, DotFree;
      var properties :- CollectProperties(c, mode, stack);
      FinishClass(world, stack, before, keys, components, c, mode, properties);
      if IsApiResource(world, c) && mode == Read {
        properties := properties + [PropertySchema("@id", false, Text)];
      } else {
        assert properties + [] == properties;
      }
      UnsetTop(stack, c);
      var schemas := components + [Component(name, properties)];
      processed := Unset(processed, c);
      components := schemas;
      keys := keys + [(c, mode)];
      r := Success(());
    }

    /** The loop of SetComponentsSchema over the metadata of the class on top of the stack. */
    method CollectProperties(c: string, mode: Mode, ghost stack: seq<string>) returns (r: Result<seq<PropertySchema>>)
      requires Valid() && processed == stack + [c] && c !in stack && c in world.metadata && (c, mode) !in keys
      modifies `components, `processed, `keys
      ensures r.Success? ==>
        && Valid() && processed == old(processed)
        && Collected(world, stack, old(keys), keys, c, mode, r.value, world.metadata[c])
      ensures r.Failure? ==> NoDuplicates(processed) && Abandoned(world, stack, c, mode, processed)
      decreases Unprocessed(), 4, 0
    {
      hide Valid, Collected, GrownByType, SchemaOf, Abandoned, AbandonedByType, NoDuplicates;
      var metadata := world.metadata[c];
      var properties := [];
      CollectNone(world, stack, keys, c, mode);
      var i := 0;
      while i < |metadata|
        invariant 0 <= i <= |metadata|
        invariant Valid() && processed == stack + [c]
        invariant Collected(world, stack, old(keys), keys, c, mode, properties, metadata[..i])
      {
        var p := metadata[i];
        assert metadata[..i + 1] == metadata[..i] + [p];
        if p.declaringClass != c {
          SkipInherited(world, stack, old(keys), keys, c, mode, properties, metadata[..i], p);
        } else {
          ghost var mid := keys;
          var schema := GetPropertySchemaFromPropertyType(p.ptype, mode);
          if schema.Failure? {
            AbandonedThroughEdge(world, stack, c, p.ptype, mode, processed);
            return Failure(schema.error);
          }
          CollectOne(world, stack, old(keys), mid, keys, c, mode, properties, metadata[..i], p);
          properties := properties + [PropertySchema(p.serializedName, p.readOnly, schema.value)];
        }
        i := i + 1;
      }
      assert metadata[..i] == metadata;
      r := Success(properties);
    }

    method GetPropertySchemaFromPropertyType(t: PropertyType, mode: Mode) returns (r: Result<Schema>)
      requires Valid()
      modifies `components, `processed, `keys
      ensures r.Success? ==>
        && Valid() && processed == old(processed) && r.value == SchemaOf(world, mode, t)
        && Describes(world, mode, t, r.value)
        && old(keys) <= keys && GrownByType(world, processed, old(keys), keys, t, mode)
      ensures r.Failure? ==> NoDuplicates(processed) && AbandonedByType(world, old(processed), t, mode, processed)
      decreases Unprocessed(), 3, t.param != ""
    {
      if t.name in world.types.storages && HasParam(t) {
        var items :- GetPropertySchemaFromPropertyType(PropertyType(t.param, ""), mode);
        r := Success(ArrayOf(items));
      } else if t.name in world.types.dates {
        r := Success(DateTimeText);
      } else if t.name in world.types.classes {
        if mode == Write {
          r := Success(Number);
        } else {
          var ref :- GetComponentsSchemaReference(t.name, mode);
          r := Success(Ref(ref));
        }
      } else {
        r := Success(ScalarSchema(t.name));
      }
      DescribesIff(world, mode, t, r.value);
    }

    method GetOperation(entity: string, op: Operation) returns (r: Result<OperationDoc>)
      requires Valid() && DotFree(entity)
      modifies `components, `processed, `keys
      ensures r.Success? ==>
        && Valid() && processed == old(processed) && r.value == DocOf(entity, op)
        && old(keys) <= keys
        && (forall i :: |old(keys)| <= i < |keys| ==> DocVisits(world, processed, entity, op, keys[i]))
        && OperationCovered(processed, keys, entity, op)
      ensures r.Failure? ==> NoDuplicates(processed) && Abandoned(world, old(processed), entity, Read, processed)
    {
      var ref :- GetComponentsSchemaReference(entity, Read);
      var response := Response(op.isCollection && op.verb == GET, ref);
      var requestBody := None;
      if op.verb != GET && op.verb != DELETE {
        // the walk for the response has loaded the same metadata already
        var bodyRef := GetComponentsSchemaReference(entity, Write);
        requestBody := Some(bodyRef.value);
      }
      r := Success(OperationDoc(op, response, requestBody));
    }

    method GetPaths() returns (r: Result<seq<PathItem>>)
      requires Valid() && keys == []
      modifies `components, `processed, `keys
      ensures r.Success? ==>
        && processed == old(processed)
        && GroupsByRoute(r.value, DocsOf(world.resources))
        && DescribesOperations(world.resources, r.value)
        && TableIs(world, processed, components)
        && Loadable(world, processed)
      ensures r.Failure? ==> NoDuplicates(processed) && BuildAbandoned(world, old(processed), processed)
    {
      ghost var stack := processed;
      var paths := [];
      assert Arranges(paths, DocsOf([]), []);
      var i := 0;
      while i < |world.resources|
        invariant 0 <= i <= |world.resources|
        invariant Valid() && processed == stack
        invariant Progress(world, stack, keys, paths, world.resources[..i])
      {
        var resource := world.resources[i];
        assert resource in world.resources;
        EnterResource(world, stack, keys, paths, i);
        var j := 0;
        while j < |resource.operations|
          invariant 0 <= j <= |resource.operations|
          invariant Valid() && processed == stack
          invariant Progress(world, stack, keys, paths, Partial(world, i, j))
        {
          var op := resource.operations[j];
          ghost var before := keys;
          var doc := GetOperation(resource.entity, op);
          if doc.Failure? {
            assert op in resource.operations && Abandoned(world, stack, resource.entity, Read, processed);
            return Failure(doc.error);
          }
          FinishOperation(world, stack, before, keys, paths, i, j);
          paths := AddToPath(paths, doc.value);
          j := j + 1;
        }
        LeaveResource(world, i);
        i := i + 1;
      }
      assert world.resources[..i] == world.resources;
      TableComplete(world, stack, components, keys);
      ArrangedAll(world.resources, paths);
      r := Success(paths);
    }

    /**
     Builds the document for the resources of `w`, from whatever stack earlier builds left behind.
     It succeeds exactly when every class it has to define can be loaded; a build that fails leaves
     the walk to the class that cannot.
     */
    method Build(w: World) returns (r: Result<Document>)
      requires WellNamed(w) && NoDuplicates(processed)
      modifies this
      ensures r.Success? <==> Loadable(w, old(processed))
      ensures r.Success? ==>
        && processed == old(processed)
        && GroupsByRoute(r.value.paths, DocsOf(w.resources))
        && DescribesOperations(w.resources, r.value.paths)
        && TableIs(w, old(processed), r.value.components)
        && DescribesTable(w, old(processed), r.value.components)
      ensures r.Failure? ==> NoDuplicates(processed) && BuildAbandoned(w, old(processed), processed)
    {
      world := w;
      components := [];
      keys := [];
      var paths := GetPaths();
      if paths.Failure? {
        AbandonedNotLoadable(w, old(processed), processed);
        return Failure(paths.error);
      }
      TableDescribes(w, old(processed), components);
      r := Success(Document(paths.value, components));
    }
  }
}
