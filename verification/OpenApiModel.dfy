/**
 The OpenAPI component builder: a mutually recursive depth-first walk over the class graph of
 the serializer metadata. Its state is a static stack of classes being processed and a growing
 static component table.
 */
module OpenApiModel {
  import opened Wrappers

  datatype Mode = Read | Write

  /** Answers of `is_a` and `class_exists` for type names. */
  datatype TypeSystem = TypeSystem(storages: set<string>, dates: set<string>, classes: set<string>)

  /** `param` is `params[0]['name']`, empty when there is none. */
  datatype PropertyType = PropertyType(name: string, param: string)

  datatype Property = Property(declaringClass: string, serializedName: string, readOnly: bool, ptype: PropertyType)

  datatype Method = GET | POST | PUT | PATCH | DELETE

  datatype Operation = Operation(path: string, verb: Method, isCollection: bool)

  datatype Resource = Resource(entity: string, operations: seq<Operation>)

  /** Class metadata that can be loaded; loading the metadata of any other class throws. */
  datatype World = World(types: TypeSystem, metadata: map<string, seq<Property>>, resources: seq<Resource>)

  datatype Schema = Ref(path: string) | ArrayOf(items: Schema) | DateTimeText | Text | Integer | Number | Boolean

  datatype PropertySchema = PropertySchema(objectId: string, readOnly: bool, schema: Schema)

  datatype Component = Component(objectId: string, properties: seq<PropertySchema>)

  /** `members` tells the Hydra collection schema, whose `hydra:member` items are the reference. */
  datatype Response = Response(members: bool, ref: string)

  datatype OperationDoc = OperationDoc(operation: Operation, response: Response, requestBody: Option<string>)

  datatype PathItem = PathItem(route: string, operations: seq<OperationDoc>)

  datatype Document = Document(paths: seq<PathItem>, components: seq<Component>)

  // ---------------------------------------------------------------- identifiers

  function ReplaceBackslashes(s: string): (r: string)
    ensures |r| == |s|
    ensures forall i :: 0 <= i < |s| ==> r[i] == if s[i] == '\\' then '.' else s[i]
  {
    if s == "" then "" else [if s[0] == '\\' then '.' else s[0]] + ReplaceBackslashes(s[1..])
  }

  function ModeName(mode: Mode): string {
    match mode
    case Read => "READ"
    case Write => "WRITE"
  }

  function Identifier(class_: string, mode: Mode): string {
    ReplaceBackslashes(class_) + "__" + ModeName(mode)
  }

  const REFERENCE_PREFIX := "#/components/schemas/"

  function Reference(class_: string, mode: Mode): string {
    REFERENCE_PREFIX + Identifier(class_, mode)
  }

  predicate DotFree(s: string) {
    '.' !in s
  }

  lemma {:induction false} IdentifierInjective(c: string, m: Mode, d: string, n: Mode)
    requires DotFree(c) && DotFree(d)
    requires Identifier(c, m) == Identifier(d, n)
    ensures c == d && m == n
  {
    var x, y := Identifier(c, m), Identifier(d, n);
    assert x[|x| - 1] == ModeName(m)[|ModeName(m)| - 1];
    assert y[|y| - 1] == ModeName(n)[|ModeName(n)| - 1];
    assert m == n;
    assert |c| == |d|;
    forall i | 0 <= i < |c|
      ensures c[i] == d[i]
    {
      assert x[i] == ReplaceBackslashes(c)[i] && y[i] == ReplaceBackslashes(d)[i];
      assert c[i] in c && d[i] in d;
    }
  }

  lemma {:induction false} ReferenceInjective(c: string, m: Mode, d: string, n: Mode)
    requires DotFree(c) && DotFree(d)
    requires Reference(c, m) == Reference(d, n)
    ensures c == d && m == n
  {
    assert Identifier(c, m) == Reference(c, m)[|REFERENCE_PREFIX|..];
    assert Identifier(d, n) == Reference(d, n)[|REFERENCE_PREFIX|..];
    IdentifierInjective(c, m, d, n);
  }

  // ---------------------------------------------------------------- the class graph

  predicate HasParam(t: PropertyType) {
    t.param != "" && t.param != "0"
  }

  /** The type whose schema stands for `t`: an object storage with a parameter yields the parameter. */
  function ElementType(w: World, t: PropertyType): PropertyType {
    if t.name in w.types.storages && HasParam(t) then PropertyType(t.param, "") else t
  }

  /** The class that a READ schema of type `t` refers to. */
  function Target(w: World, t: PropertyType): Option<string> {
    var name := ElementType(w, t).name;
    if name !in w.types.dates && name in w.types.classes then Some(name) else None
  }

  ghost predicate Edge(w: World, c: string, d: string) {
    c in w.metadata &&
    exists p :: p in w.metadata[c] && p.declaringClass == c && Target(w, p.ptype) == Some(d)
  }

  /** A path of the class graph that meets no class of `avoid`. */
  ghost predicate IsPath(w: World, avoid: seq<string>, path: seq<string>) {
    && path != []
    && (forall i :: 0 <= i < |path| ==> path[i] !in avoid)
    && (forall i :: 0 <= i < |path| - 1 ==> Edge(w, path[i], path[i + 1]))
  }

  ghost predicate PathBetween(w: World, avoid: seq<string>, c: string, d: string, path: seq<string>) {
    IsPath(w, avoid, path) && path[0] == c && path[|path| - 1] == d
  }

  ghost predicate Reaches(w: World, avoid: seq<string>, c: string, d: string) {
    exists path :: PathBetween(w, avoid, c, d, path)
  }

  lemma {:induction false} ReachesSelf(w: World, avoid: seq<string>, c: string)
    requires c !in avoid
    ensures Reaches(w, avoid, c, c)
  {
    assert PathBetween(w, avoid, c, c, [c]);
  }

  lemma {:induction false} ReachesAvoids(w: World, avoid: seq<string>, c: string, d: string)
    requires Reaches(w, avoid, c, d)
    ensures c !in avoid && d !in avoid
  {
  }

  lemma {:induction false} ReachesViaEdge(w: World, avoid: seq<string>, c: string, d: string, e: string)
    requires c !in avoid && Edge(w, c, d) && Reaches(w, avoid + [c], d, e)
    ensures Reaches(w, avoid, c, e)
  {
    var path :| PathBetween(w, avoid + [c], d, e, path);
    assert forall x :: x in avoid ==> x in avoid + [c];
    assert PathBetween(w, avoid, c, e, [c] + path);
  }

  /** A set of classes that contains c and is closed up to `avoid` contains all that c reaches. */
  lemma {:induction false} ClosedContainsReachable(w: World, avoid: seq<string>, keys: seq<(string, Mode)>, c: string,
                                                   d: string, path: seq<string>)
    requires (c, Read) in keys || c in avoid
    requires ClosedUpTo(w, avoid, keys)
    requires PathBetween(w, avoid, c, d, path)
    ensures (d, Read) in keys
    decreases |path|
  {
    if |path| > 1 {
      assert Edge(w, path[0], path[1]);
      assert PathBetween(w, avoid, path[1], d, path[1..]);
      ClosedContainsReachable(w, avoid, keys, path[1], d, path[1..]);
    }
  }

  ghost predicate ClosedUpTo(w: World, stack: seq<string>, keys: seq<(string, Mode)>) {
    forall c, d {:trigger Edge(w, c, d)} ::
      (c, Read) in keys && Edge(w, c, d) ==> (d, Read) in keys || d in stack
  }

  // ---------------------------------------------------------------- schemas as values

  function ScalarSchema(name: string): Schema {
    if name in ["int", "integer"] then Integer
    else if name == "string" then Text
    else if name in ["double", "float"] then Number
    else if name in ["boolean", "bool"] then Boolean
    else Text
  }

  function SchemaOfElement(w: World, mode: Mode, t: PropertyType): Schema {
    if t.name in w.types.dates then DateTimeText
    else if t.name in w.types.classes then
      if mode == Write then Number else Ref(Reference(t.name, mode))
    else ScalarSchema(t.name)
  }

  function SchemaOf(w: World, mode: Mode, t: PropertyType): Schema {
    if t.name in w.types.storages && HasParam(t)
    then ArrayOf(SchemaOfElement(w, mode, PropertyType(t.param, "")))
    else SchemaOfElement(w, mode, t)
  }

  function PropertySchemas(w: World, mode: Mode, c: string, properties: seq<Property>): seq<PropertySchema> {
    if properties == [] then []
    else
      var init, p := properties[..|properties| - 1], properties[|properties| - 1];
      PropertySchemas(w, mode, c, init) +
      if p.declaringClass == c then [PropertySchema(p.serializedName, p.readOnly, SchemaOf(w, mode, p.ptype))] else []
  }

  predicate IsApiResource(w: World, c: string) {
    exists r :: r in w.resources && r.entity == c
  }

  function ComponentOf(w: World, c: string, mode: Mode): Component
    requires c in w.metadata
  {
    Component(Identifier(c, mode),
              PropertySchemas(w, mode, c, w.metadata[c]) +
              if IsApiResource(w, c) && mode == Read then [PropertySchema("@id", false, Text)] else [])
  }

  // ---------------------------------------------------------------- operations and paths

  predicate HasBody(op: Operation) {
    op.verb != GET && op.verb != DELETE
  }

  function DocOf(entity: string, op: Operation): OperationDoc {
    OperationDoc(op,
                 Response(op.isCollection && op.verb == GET, Reference(entity, Read)),
                 if HasBody(op) then Some(Reference(entity, Write)) else None)
  }

  function DocsOfOperations(entity: string, ops: seq<Operation>): seq<OperationDoc> {
    if ops == [] then []
    else DocsOfOperations(entity, ops[..|ops| - 1]) + [DocOf(entity, ops[|ops| - 1])]
  }

  function DocsOf(resources: seq<Resource>): seq<OperationDoc> {
    if resources == [] then []
    else
      var last := resources[|resources| - 1];
      DocsOf(resources[..|resources| - 1]) + DocsOfOperations(last.entity, last.operations)
  }

  /** The operations listed under a route. */
  function At(paths: seq<PathItem>, route: string): seq<OperationDoc> {
    if paths == [] then []
    else if paths[0].route == route then paths[0].operations
    else At(paths[1..], route)
  }

  /** `$paths[$route]['operations'][] = $doc`, creating the entry when it is missing. */
  function AddToPath(paths: seq<PathItem>, doc: OperationDoc): seq<PathItem> {
    if paths == [] then [PathItem(doc.operation.path, [doc])]
    else if paths[0].route == doc.operation.path then
      [paths[0].(operations := paths[0].operations + [doc])] + paths[1..]
    else [paths[0]] + AddToPath(paths[1..], doc)
  }

  function DocsAt(docs: seq<OperationDoc>, route: string): seq<OperationDoc> {
    if docs == [] then []
    else
      var last := docs[|docs| - 1];
      DocsAt(docs[..|docs| - 1], route) + if last.operation.path == route then [last] else []
  }

  ghost predicate DistinctRoutes(paths: seq<PathItem>) {
    forall i, j :: 0 <= i < j < |paths| ==> paths[i].route != paths[j].route
  }

  /** `paths` lists the documents by route: every route once, every document once, in order. */
  ghost predicate GroupsByRoute(paths: seq<PathItem>, docs: seq<OperationDoc>) {
    && DistinctRoutes(paths)
    && (forall i :: 0 <= i < |paths| ==> paths[i].operations != [])
    && (forall route :: At(paths, route) == DocsAt(docs, route))
  }

  lemma {:induction false} AddToPathRoutes(paths: seq<PathItem>, doc: OperationDoc, route: string)
    requires exists p :: p in AddToPath(paths, doc) && p.route == route
    ensures route == doc.operation.path || exists p :: p in paths && p.route == route
  {
    if paths != [] && paths[0].route != doc.operation.path {
      var p :| p in AddToPath(paths, doc) && p.route == route;
      if p != paths[0] {
        assert p in AddToPath(paths[1..], doc);
        AddToPathRoutes(paths[1..], doc, route);
      }
    } else if paths != [] {
      var p :| p in AddToPath(paths, doc) && p.route == route;
      if p.route != doc.operation.path {
        assert p in paths[1..];
      }
    }
  }

  lemma {:induction false} AddToPathCorrect(paths: seq<PathItem>, doc: OperationDoc, route: string)
    requires DistinctRoutes(paths)
    requires forall i :: 0 <= i < |paths| ==> paths[i].operations != []
    ensures DistinctRoutes(AddToPath(paths, doc))
    ensures forall i :: 0 <= i < |AddToPath(paths, doc)| ==> AddToPath(paths, doc)[i].operations != []
    ensures At(AddToPath(paths, doc), route) == At(paths, route) + if doc.operation.path == route then [doc] else []
  {
    if paths != [] && paths[0].route != doc.operation.path {
      var tail := AddToPath(paths[1..], doc);
      AddToPathCorrect(paths[1..], doc, route);
      forall j | 0 <= j < |tail|
        ensures tail[j].route != paths[0].route
      {
        assert tail[j] in tail;
        AddToPathRoutes(paths[1..], doc, tail[j].route);
      }
      assert AddToPath(paths, doc)[1..] == tail;
    } else if paths != [] {
      var r := AddToPath(paths, doc);
      assert r[1..] == paths[1..];
    }
  }

  lemma {:induction false} GroupsByRouteStep(paths: seq<PathItem>, docs: seq<OperationDoc>, doc: OperationDoc)
    requires GroupsByRoute(paths, docs)
    ensures GroupsByRoute(AddToPath(paths, doc), docs + [doc])
  {
    forall route
      ensures At(AddToPath(paths, doc), route) == DocsAt(docs + [doc], route)
    {
      AddToPathCorrect(paths, doc, route);
      assert (docs + [doc])[..|docs|] == docs;
    }
    AddToPathCorrect(paths, doc, "");
  }

  // ---------------------------------------------------------------- references

  function RefsIn(s: Schema): set<string> {
    match s
    case Ref(path) => {path}
    case ArrayOf(items) => RefsIn(items)
    case _ => {}
  }

  ghost predicate RefInComponents(components: seq<Component>, ref: string) {
    exists i, j :: 0 <= i < |components| && 0 <= j < |components[i].properties| &&
                   ref in RefsIn(components[i].properties[j].schema)
  }

  ghost predicate RefInDocs(docs: seq<OperationDoc>, ref: string) {
    exists doc :: doc in docs && (doc.response.ref == ref || doc.requestBody == Some(ref))
  }

  ghost predicate RefInPaths(paths: seq<PathItem>, ref: string) {
    exists p :: p in paths && RefInDocs(p.operations, ref)
  }

  /** A `$ref` occurs somewhere in the document. */
  ghost predicate Emitted(doc: Document, ref: string) {
    RefInPaths(doc.paths, ref) || RefInComponents(doc.components, ref)
  }

  ghost predicate Resolves(components: seq<Component>, ref: string) {
    exists i :: 0 <= i < |components| && ref == REFERENCE_PREFIX + components[i].objectId
  }

  ghost predicate DistinctIds(components: seq<Component>) {
    forall i, j :: 0 <= i < j < |components| ==> components[i].objectId != components[j].objectId
  }
}
