/** When the references of a built document resolve, for whatever stack the build started from. */
module OpenApiReferences {
  import opened Wrappers
  import opened Sequences
  import opened OpenApiModel
  import opened ComponentWalk

  ghost predicate RefInProperties(properties: seq<PropertySchema>, ref: string) {
    exists p :: p in properties && ref in RefsIn(p.schema)
  }

  ghost predicate RefOfClass(w: World, properties: seq<Property>, c: string, ref: string) {
    exists p :: p in properties && p.declaringClass == c && Target(w, p.ptype).Some? &&
                ref == Reference(Target(w, p.ptype).value, Read)
  }

  lemma {:induction false} RefsOfType(w: World, mode: Mode, t: PropertyType, ref: string)
    ensures ref in RefsIn(SchemaOf(w, mode, t)) <==>
            mode == Read && Target(w, t).Some? && ref == Reference(Target(w, t).value, Read)
  {
  }

  lemma {:induction false} RefsOfProperties(w: World, mode: Mode, c: string, properties: seq<Property>, ref: string)
    ensures RefInProperties(PropertySchemas(w, mode, c, properties), ref) <==>
      mode == Read && RefOfClass(w, properties, c, ref)
  {
    if properties != [] {
      var init, p := properties[..|properties| - 1], properties[|properties| - 1];
      RefsOfProperties(w, mode, c, init, ref);
      RefsOfType(w, mode, p.ptype, ref);
      var front := PropertySchemas(w, mode, c, init);
      var added :=
        if p.declaringClass == c
        then [PropertySchema(p.serializedName, p.readOnly, SchemaOf(w, mode, p.ptype))]
        else [];
      assert forall q :: q in front + added <==> q in front || q in added;
      assert forall q :: q in properties <==> q in init || q == p;
    }
  }

  /** A component refers to exactly the READ schemas of the classes its class has an edge to. */
  lemma {:induction false} RefsOfComponent(w: World, k: Key, ref: string)
    requires k.0 in w.metadata
    ensures RefInProperties(ComponentOf(w, k.0, k.1).properties, ref) <==>
            k.1 == Read && exists d :: Edge(w, k.0, d) && ref == Reference(d, Read)
  {
    var own := PropertySchemas(w, k.1, k.0, w.metadata[k.0]);
    RefsOfProperties(w, k.1, k.0, w.metadata[k.0], ref);
    assert forall q :: q in ComponentOf(w, k.0, k.1).properties ==> q in own || q.schema == Text;
    assert forall q :: q in own ==> q in ComponentOf(w, k.0, k.1).properties;
    if k.1 == Read && exists d :: Edge(w, k.0, d) && ref == Reference(d, Read) {
      var d :| Edge(w, k.0, d) && ref == Reference(d, Read);
      var p :| p in w.metadata[k.0] && p.declaringClass == k.0 && Target(w, p.ptype) == Some(d);
      assert RefOfClass(w, w.metadata[k.0], k.0, ref);
    }
    if RefOfClass(w, w.metadata[k.0], k.0, ref) {
      var p :| p in w.metadata[k.0] && p.declaringClass == k.0 && Target(w, p.ptype).Some? &&
               ref == Reference(Target(w, p.ptype).value, Read);
      assert Edge(w, k.0, Target(w, p.ptype).value);
    }
  }

  // ---------------------------------------------------------------- references in paths

  ghost predicate RefOfOperation(entity: string, op: Operation, ref: string) {
    ref == Reference(entity, Read) || (HasBody(op) && ref == Reference(entity, Write))
  }

  lemma {:induction false} OperationDocs(entity: string, ops: seq<Operation>, doc: OperationDoc)
    ensures doc in DocsOfOperations(entity, ops) <==> exists op :: op in ops && doc == DocOf(entity, op)
  {
    if ops != [] {
      OperationDocs(entity, ops[..|ops| - 1], doc);
      assert ops == ops[..|ops| - 1] + [ops[|ops| - 1]];
    }
  }

  lemma {:induction false} ResourceDocs(resources: seq<Resource>, doc: OperationDoc)
    ensures doc in DocsOf(resources) <==>
            exists r, op :: r in resources && op in r.operations && doc == DocOf(r.entity, op)
  {
    if resources != [] {
      var last := resources[|resources| - 1];
      ResourceDocs(resources[..|resources| - 1], doc);
      OperationDocs(last.entity, last.operations, doc);
      assert resources == resources[..|resources| - 1] + [last];
    }
  }

  lemma {:induction false} AtMember(paths: seq<PathItem>, i: nat)
    requires i < |paths| && DistinctRoutes(paths)
    ensures At(paths, paths[i].route) == paths[i].operations
  {
    if i > 0 {
      AtMember(paths[1..], i - 1);
    }
  }

  lemma {:induction false} AtListed(paths: seq<PathItem>, route: string)
    requires At(paths, route) != []
    ensures exists i :: 0 <= i < |paths| && At(paths, route) == paths[i].operations
  {
    if paths[0].route != route {
      AtListed(paths[1..], route);
      var i :| 0 <= i < |paths[1..]| && At(paths[1..], route) == paths[1..][i].operations;
      assert paths[i + 1].operations == At(paths, route);
    }
  }

  lemma {:induction false} DocsAtMember(docs: seq<OperationDoc>, route: string, doc: OperationDoc)
    ensures doc in DocsAt(docs, route) <==> doc in docs && doc.operation.path == route
  {
    if docs != [] {
      DocsAtMember(docs[..|docs| - 1], route, doc);
      assert docs == docs[..|docs| - 1] + [docs[|docs| - 1]];
    }
  }

  /** Grouping by route neither loses a document nor invents one. */
  lemma {:induction false} GroupingKeepsDocs(paths: seq<PathItem>, docs: seq<OperationDoc>, doc: OperationDoc)
    requires GroupsByRoute(paths, docs)
    ensures (exists p :: p in paths && doc in p.operations) <==> doc in docs
  {
    DocsAtMember(docs, doc.operation.path, doc);
    if doc in docs {
      assert doc in At(paths, doc.operation.path);
      AtListed(paths, doc.operation.path);
    }
    forall i | 0 <= i < |paths| && doc in paths[i].operations
      ensures doc in docs
    {
      AtMember(paths, i);
      DocsAtMember(docs, paths[i].route, doc);
    }
  }

  lemma {:induction false} RefsOfPaths(w: World, paths: seq<PathItem>, ref: string)
    requires GroupsByRoute(paths, DocsOf(w.resources))
    ensures RefInPaths(paths, ref) <==>
            exists r, op :: r in w.resources && op in r.operations && RefOfOperation(r.entity, op, ref)
  {
    hide GroupsByRoute, DocsOf, Reference;
    if RefInPaths(paths, ref) {
      var p :| p in paths && RefInDocs(p.operations, ref);
      var doc :| doc in p.operations && (doc.response.ref == ref || doc.requestBody == Some(ref));
      GroupingKeepsDocs(paths, DocsOf(w.resources), doc);
      ResourceDocs(w.resources, doc);
      var r, op :| r in w.resources && op in r.operations && doc == DocOf(r.entity, op);
      assert RefOfOperation(r.entity, op, ref);
    }
    if exists r, op :: r in w.resources && op in r.operations && RefOfOperation(r.entity, op, ref) {
      var r, op :| r in w.resources && op in r.operations && RefOfOperation(r.entity, op, ref);
      var doc := DocOf(r.entity, op);
      ResourceDocs(w.resources, doc);
      GroupingKeepsDocs(paths, DocsOf(w.resources), doc);
      var p :| p in paths && doc in p.operations;
      assert RefInDocs(p.operations, ref);
    }
  }

  // ---------------------------------------------------------------- resolution

  lemma {:induction false} ResolvesExpected(w: World, stack: seq<string>, components: seq<Component>, k: Key)
    requires WellNamed(w) && TableIs(w, stack, components) && DotFree(k.0)
    ensures Resolves(components, Reference(k.0, k.1)) <==> Expected(w, stack, k)
  {
    if Expected(w, stack, k) {
      assert ComponentOf(w, k.0, k.1) in components;
      var i :| 0 <= i < |components| && components[i] == ComponentOf(w, k.0, k.1);
      assert Reference(k.0, k.1) == REFERENCE_PREFIX + components[i].objectId;
    }
    if Resolves(components, Reference(k.0, k.1)) {
      var i :| 0 <= i < |components| && Reference(k.0, k.1) == REFERENCE_PREFIX + components[i].objectId;
      assert ExpectedComponent(w, stack, components[i]);
      var l: Key :| Expected(w, stack, l) && l.0 in w.metadata && components[i] == ComponentOf(w, l.0, l.1);
      ReferenceInjective(k.0, k.1, l.0, l.1);
    }
  }

  lemma {:induction false} EdgeIsNamed(w: World, c: string, d: string)
    requires WellNamed(w) && Edge(w, c, d)
    ensures DotFree(d)
  {
  }

  lemma {:induction false} ReachesSnoc(w: World, avoid: seq<string>, c: string, d: string, e: string)
    requires Reaches(w, avoid, c, d) && Edge(w, d, e) && e !in avoid
    ensures Reaches(w, avoid, c, e)
  {
    var path :| PathBetween(w, avoid, c, d, path);
    assert PathBetween(w, avoid, c, e, path + [e]);
  }

  lemma {:induction false} ReachesAvoidingLess(w: World, avoid: seq<string>, c: string, d: string)
    requires Reaches(w, avoid, c, d)
    ensures Reaches(w, [], c, d)
  {
    var path :| PathBetween(w, avoid, c, d, path);
    assert PathBetween(w, [], c, d, path);
  }

  /** A class of the stack is met on some walk from an entity with an operation. */
  ghost predicate StackReached(w: World, stack: seq<string>) {
    exists r, op, s :: r in w.resources && op in r.operations && s in stack && Reaches(w, [], r.entity, s)
  }

  ghost predicate EdgeIntoStack(w: World, stack: seq<string>, c: string) {
    exists d, s :: Reaches(w, stack, c, d) && Edge(w, d, s) && s in stack
  }

  /** A path from outside the stack into it has a first class on the stack. */
  lemma {:induction false} FirstOnStack(w: World, stack: seq<string>, c: string, path: seq<string>)
    requires path != [] && path[0] == c && c !in stack && IsPath(w, [], path)
    requires path[|path| - 1] in stack
    ensures EdgeIntoStack(w, stack, c)
    decreases |path|
  {
    var init := path[..|path| - 1];
    if j :| 0 <= j < |init| && init[j] in stack {
      FirstOnStack(w, stack, c, path[..j + 1]);
    } else {
      assert PathBetween(w, stack, c, init[|init| - 1], init);
    }
  }

  lemma {:induction false} PathRefResolves(w: World, stack: seq<string>, doc: Document, ref: string)
    requires WellNamed(w)
    requires GroupsByRoute(doc.paths, DocsOf(w.resources)) && TableIs(w, stack, doc.components)
    requires !StackReached(w, stack) && RefInPaths(doc.paths, ref)
    ensures Resolves(doc.components, ref)
  {
    RefsOfPaths(w, doc.paths, ref);
    var r, op :| r in w.resources && op in r.operations && RefOfOperation(r.entity, op, ref);
    ReachesSelf(w, [], r.entity);
    assert r.entity !in stack;
    ReachesSelf(w, stack, r.entity);
    var mode := if ref == Reference(r.entity, Read) then Read else Write;
    assert Visits(w, stack, r.entity, mode, (r.entity, mode));
    assert Expected(w, stack, (r.entity, mode));
    hide TableIs, GroupsByRoute, Resolves;
    ResolvesExpected(w, stack, doc.components, (r.entity, mode));
  }

  lemma {:induction false} EdgeIsExpected(w: World, stack: seq<string>, c: string, d: string)
    requires !StackReached(w, stack) && Edge(w, c, d)
    requires exists r, op :: r in w.resources && op in r.operations && Reaches(w, stack, r.entity, c)
    ensures Expected(w, stack, (d, Read))
  {
    var r, op :| r in w.resources && op in r.operations && Reaches(w, stack, r.entity, c);
    if d in stack {
      ReachesAvoidingLess(w, stack, r.entity, c);
      ReachesSnoc(w, [], r.entity, c, d);
    }
    assert d !in stack;
    ReachesSnoc(w, stack, r.entity, c, d);
    assert Visits(w, stack, r.entity, Read, (d, Read));
    assert DocVisits(w, stack, r.entity, op, (d, Read));
  }

  lemma {:induction false} ExpectedIsReached(w: World, stack: seq<string>, k: Key)
    requires Expected(w, stack, k)
    ensures exists r, op :: r in w.resources && op in r.operations && Reaches(w, stack, r.entity, k.0)
  {
    var r, op :| r in w.resources && op in r.operations && DocVisits(w, stack, r.entity, op, k);
    if r.entity !in stack {
      ReachesSelf(w, stack, r.entity);
    }
    assert Reaches(w, stack, r.entity, k.0);
  }

  lemma {:induction false} ComponentRefResolves(w: World, stack: seq<string>, components: seq<Component>, i: nat,
                                                ref: string)
    requires WellNamed(w) && TableIs(w, stack, components)
    requires !StackReached(w, stack) && i < |components| && RefInProperties(components[i].properties, ref)
    ensures Resolves(components, ref)
  {
    assert ExpectedComponent(w, stack, components[i]);
    var k: Key :| Expected(w, stack, k) && k.0 in w.metadata && components[i] == ComponentOf(w, k.0, k.1);
    hide TableIs, Expected, StackReached, Resolves, Edge;
    RefsOfComponent(w, k, ref);
    var d :| Edge(w, k.0, d) && ref == Reference(d, Read);
    ExpectedIsReached(w, stack, k);
    EdgeIsExpected(w, stack, k.0, d);
    EdgeIsNamed(w, k.0, d);
    ResolvesExpected(w, stack, components, (d, Read));
  }

  lemma {:induction false} ResolvesWhenStackUnreached(w: World, stack: seq<string>, doc: Document, ref: string)
    requires WellNamed(w)
    requires GroupsByRoute(doc.paths, DocsOf(w.resources)) && TableIs(w, stack, doc.components)
    requires !StackReached(w, stack) && Emitted(doc, ref)
    ensures Resolves(doc.components, ref)
  {
    hide TableIs, GroupsByRoute, StackReached, Resolves, RefInPaths;
    if RefInPaths(doc.paths, ref) {
      PathRefResolves(w, stack, doc, ref);
    } else {
      var i, j :| 0 <= i < |doc.components| && 0 <= j < |doc.components[i].properties| &&
                  ref in RefsIn(doc.components[i].properties[j].schema);
      assert RefInProperties(doc.components[i].properties, ref);
      ComponentRefResolves(w, stack, doc.components, i, ref);
    }
  }

  lemma {:induction false} StackIsNotExpected(w: World, stack: seq<string>, s: string)
    requires s in stack
    ensures !Expected(w, stack, (s, Read))
  {
  }

  /** An entity on the stack is referred to by its operation but never defined. */
  lemma {:induction false} DanglingEntity(w: World, stack: seq<string>, doc: Document, r: Resource, op: Operation)
      returns (ref: string)
    requires WellNamed(w)
    requires GroupsByRoute(doc.paths, DocsOf(w.resources)) && TableIs(w, stack, doc.components)
    requires r in w.resources && op in r.operations && r.entity in stack
    ensures Emitted(doc, ref) && !Resolves(doc.components, ref)
  {
    ref := Reference(r.entity, Read);
    assert RefOfOperation(r.entity, op, ref);
    RefsOfPaths(w, doc.paths, ref);
    StackIsNotExpected(w, stack, r.entity);
    ResolvesExpected(w, stack, doc.components, (r.entity, Read));
  }

  lemma {:induction false} ComponentRefIsEmitted(w: World, doc: Document, c: string, d: string)
    requires c in w.metadata && ComponentOf(w, c, Read) in doc.components && Edge(w, c, d)
    ensures Emitted(doc, Reference(d, Read))
  {
    var ref := Reference(d, Read);
    var i :| 0 <= i < |doc.components| && doc.components[i] == ComponentOf(w, c, Read);
    RefsOfComponent(w, (c, Read), ref);
    var p :| p in doc.components[i].properties && ref in RefsIn(p.schema);
    var j :| 0 <= j < |doc.components[i].properties| && doc.components[i].properties[j] == p;
  }

  lemma {:induction false} DanglesWhenStackReached(w: World, stack: seq<string>, doc: Document) returns (ref: string)
    requires WellNamed(w)
    requires GroupsByRoute(doc.paths, DocsOf(w.resources)) && TableIs(w, stack, doc.components)
    requires StackReached(w, stack)
    ensures Emitted(doc, ref) && !Resolves(doc.components, ref)
  {
    var r, op, s :| r in w.resources && op in r.operations && s in stack && Reaches(w, [], r.entity, s);
    if r.entity in stack {
      ref := DanglingEntity(w, stack, doc, r, op);
    } else {
      var path :| PathBetween(w, [], r.entity, s, path);
      FirstOnStack(w, stack, r.entity, path);
      var d, t :| Reaches(w, stack, r.entity, d) && Edge(w, d, t) && t in stack;
      assert Visits(w, stack, r.entity, Read, (d, Read)) && Expected(w, stack, (d, Read));
      ref := Reference(t, Read);
      ComponentRefIsEmitted(w, doc, d, t);
      StackIsNotExpected(w, stack, t);
      EdgeIsNamed(w, d, t);
      ResolvesExpected(w, stack, doc.components, (t, Read));
    }
  }

  /**
   Every `$ref` of a built document names a schema of its table exactly when no class left on the
   stack by an earlier, failed build can be reached from an entity with an operation. A build that
   starts from the empty stack has no dangling reference.
   */
  lemma {:induction false} ReferencesResolve(w: World, stack: seq<string>, doc: Document)
    requires WellNamed(w)
    requires GroupsByRoute(doc.paths, DocsOf(w.resources)) && TableIs(w, stack, doc.components)
    ensures (forall ref :: Emitted(doc, ref) ==> Resolves(doc.components, ref)) <==> !StackReached(w, stack)
    ensures stack == [] ==> forall ref :: Emitted(doc, ref) ==> Resolves(doc.components, ref)
  {
    if StackReached(w, stack) {
      var ref := DanglesWhenStackReached(w, stack, doc);
    } else {
      forall ref | Emitted(doc, ref)
        ensures Resolves(doc.components, ref)
      {
        ResolvesWhenStackUnreached(w, stack, doc, ref);
      }
    }
  }

  /** The table is determined by the resources and the metadata: two builds agree on every schema. */
  lemma {:induction false} TableUnique(w: World, stack: seq<string>, a: seq<Component>, b: seq<Component>,
                                       component: Component)
    requires TableIs(w, stack, a) && TableIs(w, stack, b)
    ensures component in a <==> component in b
  {
  }

  /** A stack with a class that has an operation is reached. */
  lemma {:induction false} OwnStackReached(w: World, stack: seq<string>, r: Resource, op: Operation)
    requires r in w.resources && op in r.operations && r.entity in stack
    ensures StackReached(w, stack)
  {
    ReachesSelf(w, [], r.entity);
  }

  /** Some reference of the document names no schema of its table. */
  ghost predicate Dangles(doc: Document) {
    exists ref :: Emitted(doc, ref) && !Resolves(doc.components, ref)
  }

  /**
   A build that fails leaves the walk from an entity with an operation to a class that cannot be loaded.
   The next build dangles exactly when it reaches a class left behind; so it does whenever it succeeds
   and that entity still has an operation, whatever else has changed.
   */
  method BuildAfterFailure(builder: OpenApiBuilder, broken: World, fixed: World)
      returns (r: Result<Document>, ghost stale: seq<string>)
    requires WellNamed(broken) && WellNamed(fixed)
    requires NoDuplicates(builder.processed) && !Loadable(broken, builder.processed)
    modifies builder
    ensures BuildAbandoned(broken, old(builder.processed), stale)
    ensures r.Success? <==> Loadable(fixed, stale)
    ensures r.Success? ==> (Dangles(r.value) <==> StackReached(fixed, stale))
    ensures forall s, op ::
              s in fixed.resources && op in s.operations && s.entity == stale[|old(builder.processed)|] ==>
                r.Success? ==> Dangles(r.value)
  {
    ghost var start := builder.processed;
    r := builder.Build(broken);
    stale := builder.processed;
    r := builder.Build(fixed);
    if r.Success? {
      ReferencesResolve(fixed, stale, r.value);
      forall s, op | s in fixed.resources && op in s.operations && s.entity == stale[|start|]
        ensures StackReached(fixed, stale)
      {
        OwnStackReached(fixed, stale, s, op);
      }
    }
  }

  // ---------------------------------------------------------------- runs of builds

  /** One build over the static stack: its document, and the stack it leaves. */
  ghost predicate BuildStep(w: World, before: seq<string>, after: seq<string>, r: Result<Document>) {
    && (r.Success? <==> Loadable(w, before))
    && (r.Success? ==> after == before && (Dangles(r.value) <==> StackReached(w, before)))
    && (r.Failure? ==> BuildAbandoned(w, before, after))
  }

  ghost predicate IsRun(worlds: seq<World>, stacks: seq<seq<string>>, rs: seq<Result<Document>>) {
    && |rs| == |worlds| && |stacks| == |worlds| + 1
    && forall i :: 0 <= i < |worlds| ==> BuildStep(worlds[i], stacks[i], stacks[i + 1], rs[i])
  }

  /** Any number of builds in one process, failed ones included. */
  method BuildAll(builder: OpenApiBuilder, worlds: seq<World>)
      returns (rs: seq<Result<Document>>, ghost stacks: seq<seq<string>>)
    requires NoDuplicates(builder.processed) && forall w :: w in worlds ==> WellNamed(w)
    modifies builder
    ensures IsRun(worlds, stacks, rs)
    ensures stacks[0] == old(builder.processed) && stacks[|worlds|] == builder.processed
  {
    hide Loadable, Dangles, StackReached, BuildAbandoned, NoDuplicates, TableIs, GroupsByRoute, WellNamed;
    rs, stacks := [], [builder.processed];
    for i := 0 to |worlds|
      invariant IsRun(worlds[..i], stacks, rs) && NoDuplicates(builder.processed)
      invariant stacks[0] == old(builder.processed) && stacks[i] == builder.processed
    {
      var r := builder.Build(worlds[i]);
      if r.Success? {
        BuiltDangles(worlds[i], stacks[i], r.value);
      }
      assert BuildStep(worlds[i], stacks[i], builder.processed, r);
      RunExtends(worlds, i, stacks, rs, builder.processed, r);
      rs, stacks := rs + [r], stacks + [builder.processed];
    }
    assert worlds[..|worlds|] == worlds;
  }

  lemma {:induction false} BuiltDangles(w: World, stack: seq<string>, doc: Document)
    requires WellNamed(w) && GroupsByRoute(doc.paths, DocsOf(w.resources)) && TableIs(w, stack, doc.components)
    ensures Dangles(doc) <==> StackReached(w, stack)
  {
    hide StackReached, TableIs, GroupsByRoute, Emitted, Resolves, WellNamed;
    ReferencesResolve(w, stack, doc);
  }

  lemma {:induction false} RunExtends(worlds: seq<World>, i: nat, stacks: seq<seq<string>>, rs: seq<Result<Document>>,
                                      after: seq<string>, r: Result<Document>)
    requires i < |worlds| && IsRun(worlds[..i], stacks, rs) && BuildStep(worlds[i], stacks[i], after, r)
    ensures IsRun(worlds[..i + 1], stacks + [after], rs + [r])
  {
    hide BuildStep;
    assert forall k :: 0 <= k < i ==> worlds[..i][k] == worlds[..i + 1][k];
  }

  /** The stack only grows. */
  lemma {:induction false} StackGrows(worlds: seq<World>, stacks: seq<seq<string>>, rs: seq<Result<Document>>, i: nat,
                                      j: nat)
    requires IsRun(worlds, stacks, rs) && i <= j <= |worlds|
    ensures stacks[i] <= stacks[j]
    decreases j - i
  {
    if i < j {
      assert BuildStep(worlds[i], stacks[i], stacks[i + 1], rs[i]);
      StackGrows(worlds, stacks, rs, i + 1, j);
    }
  }

  /**
   A build that fails leaves an entity of its resources on the stack for good: every later build that
   succeeds dangles, as long as it documents an operation of that entity, whatever happened in between.
   */
  lemma {:induction false} FailureLasts(worlds: seq<World>, stacks: seq<seq<string>>, rs: seq<Result<Document>>, i: nat)
      returns (entity: string)
    requires IsRun(worlds, stacks, rs) && i < |worlds| && rs[i].Failure?
    ensures exists r, op :: r in worlds[i].resources && op in r.operations && r.entity == entity
    ensures forall j, r, op ::
              i < j < |worlds| && r in worlds[j].resources && op in r.operations && r.entity == entity ==>
                rs[j].Success? ==> Dangles(rs[j].value)
  {
    assert BuildStep(worlds[i], stacks[i], stacks[i + 1], rs[i]);
    var r, op :| r in worlds[i].resources && op in r.operations &&
                 Abandoned(worlds[i], stacks[i], r.entity, Read, stacks[i + 1]);
    entity := r.entity;
    var n := |stacks[i]|;
    assert stacks[i + 1][n] == entity;
    hide Dangles, StackReached, Loadable, Abandoned, BuildAbandoned;
    forall j, r', op' | i < j < |worlds| && r' in worlds[j].resources && op' in r'.operations && r'.entity == entity &&
                        rs[j].Success?
      ensures Dangles(rs[j].value)
    {
      StackGrows(worlds, stacks, rs, i + 1, j);
      assert stacks[j][n] == entity;
      assert BuildStep(worlds[j], stacks[j], stacks[j + 1], rs[j]);
      OwnStackReached(worlds[j], stacks[j], r', op');
    }
  }

  // ---------------------------------------------------------------- an example

  const GET_NEWS := Operation("/news", GET, true)

  const NEWS_WORLD := World(TypeSystem({}, {}, {"News"}), map["News" := []], [Resource("News", [GET_NEWS])])

  const NEWS_DOCUMENT := Document([PathItem("/news", [DocOf("News", GET_NEWS)])], [])

  lemma {:induction false} NewsPaths()
    ensures GroupsByRoute(NEWS_DOCUMENT.paths, DocsOf(NEWS_WORLD.resources))
  {
    var doc := DocOf("News", GET_NEWS);
    assert DocsOfOperations("News", [GET_NEWS]) == [] + [doc];
    assert DocsOf(NEWS_WORLD.resources) == [] + [doc];
    assert AddToPath([], doc) == NEWS_DOCUMENT.paths;
    GroupsByRouteStep([], [], doc);
  }

  lemma {:induction false} NewsTable()
    ensures TableIs(NEWS_WORLD, ["News"], [])
  {
  }

  lemma {:induction false} NewsReachesItself(d: string)
    requires Reaches(NEWS_WORLD, [], "News", d)
    ensures d == "News"
  {
    var path :| PathBetween(NEWS_WORLD, [], "News", d, path);
    assert |path| > 1 ==> Edge(NEWS_WORLD, path[0], path[1]);
  }

  /** One resource whose metadata loads, documented while its own class is still on the stack. */
  lemma {:induction false} StaleStackDangles()
    ensures WellNamed(NEWS_WORLD) && Loadable(NEWS_WORLD, [])
    ensures GroupsByRoute(NEWS_DOCUMENT.paths, DocsOf(NEWS_WORLD.resources)) && TableIs(NEWS_WORLD, ["News"], [])
    ensures Dangles(NEWS_DOCUMENT)
  {
    NewsPaths();
    NewsTable();
    var news := NEWS_WORLD.resources[0];
    assert news in NEWS_WORLD.resources && GET_NEWS in news.operations && "News" in ["News"];
    var ref := DanglingEntity(NEWS_WORLD, ["News"], NEWS_DOCUMENT, news, GET_NEWS);
    forall k | Expected(NEWS_WORLD, [], k)
      ensures k.0 in NEWS_WORLD.metadata
    {
      if Reaches(NEWS_WORLD, [], "News", k.0) {
        NewsReachesItself(k.0);
      }
    }
  }

  /** The same resource before its metadata can be loaded. */
  const BROKEN_WORLD := NEWS_WORLD.(metadata := map[])

  lemma {:induction false} BrokenFails()
    ensures WellNamed(BROKEN_WORLD) && !Loadable(BROKEN_WORLD, [])
  {
    var news := BROKEN_WORLD.resources[0];
    assert news in BROKEN_WORLD.resources && GET_NEWS in news.operations;
    ReachesSelf(BROKEN_WORLD, [], "News");
    assert Visits(BROKEN_WORLD, [], "News", Read, ("News", Read));
    assert Expected(BROKEN_WORLD, [], ("News", Read));
  }

  /** What the failed build leaves starts with the resource's class, so that the next build expects nothing. */
  lemma {:induction false} NewsLeft(stale: seq<string>)
    requires BuildAbandoned(BROKEN_WORLD, [], stale)
    ensures stale[0] == "News" && WellNamed(NEWS_WORLD) && Loadable(NEWS_WORLD, stale)
  {
    forall k
      ensures !Expected(NEWS_WORLD, stale, k)
    {
      if Reaches(NEWS_WORLD, stale, "News", k.0) {
        ReachesAvoids(NEWS_WORLD, stale, "News", k.0);
      }
    }
  }

  /** A run: a build that fails, then one of the same resource that succeeds, and dangles. */
  method RunAfterFailure() returns (second: Result<Document>)
    ensures second.Success? && Dangles(second.value)
  {
    var builder := new OpenApiBuilder(BROKEN_WORLD);
    BrokenFails();
    ghost var stale;
    second, stale := BuildAfterFailure(builder, BROKEN_WORLD, NEWS_WORLD);
    NewsLeft(stale);
    assert NEWS_WORLD.resources[0] in NEWS_WORLD.resources && GET_NEWS in NEWS_WORLD.resources[0].operations;
  }
}
