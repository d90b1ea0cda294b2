/**
 What a document says about the classes and operations it describes, in terms of their types, their
 metadata and their order alone.
 */
module SchemaMeaning {
  import opened Wrappers
  import opened OpenApiModel

  // ---------------------------------------------------------------- types

  /** Each name of a scalar type has its own schema; any other name is a text. */
  predicate DescribesScalar(name: string, schema: Schema) {
    && (schema == Integer <==> name == "int" || name == "integer")
    && (schema == Number <==> name == "double" || name == "float")
    && (schema == Boolean <==> name == "boolean" || name == "bool")
    && (schema == Text <==> name !in ["int", "integer", "double", "float", "boolean", "bool"])
  }

  /** A date is a date text; a class is a reference to be read and a number to be written. */
  predicate DescribesOne(w: World, mode: Mode, name: string, schema: Schema) {
    && (name in w.types.dates <==> schema == DateTimeText)
    && (name !in w.types.dates && name in w.types.classes ==>
          (mode == Read ==> schema == Ref("#/components/schemas/" + Identifier(name, Read))) &&
          (mode == Write ==> schema == Number))
    && (name !in w.types.dates && name !in w.types.classes ==> DescribesScalar(name, schema))
  }

  /** The schema is an array exactly for a storage with a parameter, and its items are as the parameter says. */
  predicate Describes(w: World, mode: Mode, t: PropertyType, schema: Schema) {
    if t.name in w.types.storages && t.param != "" && t.param != "0"
    then schema.ArrayOf? && DescribesOne(w, mode, t.param, schema.items)
    else !schema.ArrayOf? && DescribesOne(w, mode, t.name, schema)
  }

  lemma {:induction false} DescribesIff(w: World, mode: Mode, t: PropertyType, schema: Schema)
    ensures Describes(w, mode, t, schema) <==> schema == SchemaOf(w, mode, t)
  {
    var name := if t.name in w.types.storages && HasParam(t) then t.param else t.name;
    assert DescribesOne(w, mode, name, SchemaOfElement(w, mode, PropertyType(name, t.param)));
    if Describes(w, mode, t, schema) {
      OneDescription(w, mode, name, if schema.ArrayOf? then schema.items else schema,
                     SchemaOfElement(w, mode, PropertyType(name, t.param)));
    }
  }

  lemma {:induction false} OneDescription(w: World, mode: Mode, name: string, a: Schema, b: Schema)
    requires DescribesOne(w, mode, name, a) && DescribesOne(w, mode, name, b)
    ensures a == b
  {
  }

  /** Class names keep their letters, with dots for backslashes, and the mode stands behind. */
  lemma {:induction false} IdentifierText(class_: string)
    ensures Identifier(class_, Read) == ReplaceBackslashes(class_) + "__READ"
    ensures Identifier(class_, Write) == ReplaceBackslashes(class_) + "__WRITE"
    ensures Reference("A\\B", Read) == "#/components/schemas/A.B__READ"
    ensures '\\' !in class_ ==> ReplaceBackslashes(class_) == class_
  {
    assert ReplaceBackslashes("A\\B") == "A.B";
    assert Reference("A\\B", Read) == "#/components/schemas/" + "A.B" + "__READ";
  }

  // ---------------------------------------------------------------- classes

  predicate Ascending(positions: seq<nat>) {
    forall i, j :: 0 <= i < j < |positions| ==> positions[i] < positions[j]
  }

  predicate ShowsProperty(w: World, mode: Mode, p: Property, shown: PropertySchema) {
    && shown.objectId == p.serializedName
    && shown.readOnly == p.readOnly
    && Describes(w, mode, p.ptype, shown.schema)
  }

  /** The entries show the properties at the positions, which are those of the properties that `c` declares. */
  ghost predicate ShowsAt(w: World, mode: Mode, c: string, properties: seq<Property>, shown: seq<PropertySchema>,
                          positions: seq<nat>)
  {
    && |positions| == |shown| && Ascending(positions)
    && (forall k :: 0 <= k < |positions| ==> positions[k] < |properties|)
    && (forall k :: 0 <= k < |positions| ==>
          properties[positions[k]].declaringClass == c &&
          ShowsProperty(w, mode, properties[positions[k]], shown[k]))
    && (forall i :: 0 <= i < |properties| && properties[i].declaringClass == c ==> i in positions)
  }

  /** One entry for each property that the class declares, in their order. */
  ghost predicate ShowsOwn(w: World, mode: Mode, c: string, properties: seq<Property>, shown: seq<PropertySchema>) {
    exists positions :: ShowsAt(w, mode, c, properties, shown, positions)
  }

  /** The own properties, and behind them `@id` exactly when a resource is read. */
  ghost predicate DescribesClass(w: World, c: string, mode: Mode, component: Component)
    requires c in w.metadata
  {
    && component.objectId == Identifier(c, mode)
    && if mode == Read && (exists r :: r in w.resources && r.entity == c)
       then
         var n := |component.properties| - 1;
         n >= 0 && component.properties[n] == PropertySchema("@id", false, Text) &&
         ShowsOwn(w, mode, c, w.metadata[c], component.properties[..n])
       else ShowsOwn(w, mode, c, w.metadata[c], component.properties)
  }

  lemma {:induction false} ShowsOneMore(w: World, mode: Mode, c: string, properties: seq<Property>,
                                        shown: seq<PropertySchema>, positions: seq<nat>, p: Property,
                                        more: PropertySchema)
    requires ShowsAt(w, mode, c, properties, shown, positions)
    requires p.declaringClass == c && ShowsProperty(w, mode, p, more)
    ensures ShowsAt(w, mode, c, properties + [p], shown + [more], positions + [|properties|])
  {
    hide ShowsProperty;
    var all, found := properties + [p], positions + [|properties|];
    forall i | 0 <= i < |all| && all[i].declaringClass == c
      ensures i in found
    {
      if i == |properties| {
        assert found[|positions|] == i;
      } else {
        var k :| 0 <= k < |positions| && positions[k] == i;
        assert found[k] == i;
      }
    }
  }

  lemma {:induction false} ShowsInherited(w: World, mode: Mode, c: string, properties: seq<Property>,
                                          shown: seq<PropertySchema>, positions: seq<nat>, p: Property)
    requires ShowsAt(w, mode, c, properties, shown, positions) && p.declaringClass != c
    ensures ShowsAt(w, mode, c, properties + [p], shown, positions)
  {
    hide ShowsProperty;
  }

  lemma {:induction false} PropertiesShown(w: World, mode: Mode, c: string, properties: seq<Property>)
    ensures ShowsOwn(w, mode, c, properties, PropertySchemas(w, mode, c, properties))
  {
    if properties == [] {
      assert ShowsAt(w, mode, c, properties, [], []);
    } else {
      hide ShowsAt, Describes, SchemaOf;
      var init, p := properties[..|properties| - 1], properties[|properties| - 1];
      PropertiesShown(w, mode, c, init);
      var shown := PropertySchemas(w, mode, c, init);
      var positions :| ShowsAt(w, mode, c, init, shown, positions);
      assert properties == init + [p];
      if p.declaringClass == c {
        DescribesIff(w, mode, p.ptype, SchemaOf(w, mode, p.ptype));
        ShowsOneMore(w, mode, c, init, shown, positions, p,
                     PropertySchema(p.serializedName, p.readOnly, SchemaOf(w, mode, p.ptype)));
      } else {
        ShowsInherited(w, mode, c, init, shown, positions, p);
        assert shown + [] == shown;
      }
    }
  }

  lemma {:induction false} ComponentDescribes(w: World, c: string, mode: Mode)
    requires c in w.metadata
    ensures DescribesClass(w, c, mode, ComponentOf(w, c, mode))
  {
    hide ShowsOwn, PropertySchemas;
    PropertiesShown(w, mode, c, w.metadata[c]);
    var shown, properties := PropertySchemas(w, mode, c, w.metadata[c]), ComponentOf(w, c, mode).properties;
    if IsApiResource(w, c) && mode == Read {
      assert properties[..|properties| - 1] == shown;
    } else {
      assert properties == shown;
    }
  }

  // ---------------------------------------------------------------- operations

  /** The place of an operation: the position of its resource, and its own among the operations there. */
  datatype Place = Place(resource: nat, operation: nat)

  predicate Before(p: Place, q: Place) {
    p.resource < q.resource || (p.resource == q.resource && p.operation < q.operation)
  }

  predicate IsPlace(resources: seq<Resource>, p: Place) {
    p.resource < |resources| && p.operation < |resources[p.resource].operations|
  }

  /** The answer refers to what is read, listed as members for the GET of a collection; a body to what is written. */
  predicate Documents(entity: string, op: Operation, doc: OperationDoc) {
    && doc.operation == op
    && doc.response == Response(op.verb == GET && op.isCollection, Reference(entity, Read))
    && doc.requestBody == if op.verb == POST || op.verb == PUT || op.verb == PATCH
                          then Some(Reference(entity, Write)) else None
  }

  predicate DocumentsPlace(resources: seq<Resource>, p: Place, doc: OperationDoc)
    requires IsPlace(resources, p)
  {
    Documents(resources[p.resource].entity, resources[p.resource].operations[p.operation], doc)
  }

  /** Every operation once, in the order of the resources and of the operations of each. */
  ghost predicate Enumerates(resources: seq<Resource>, docs: seq<OperationDoc>, places: seq<Place>) {
    && |places| == |docs|
    && (forall i, j :: 0 <= i < j < |places| ==> Before(places[i], places[j]))
    && (forall i :: 0 <= i < |places| ==> IsPlace(resources, places[i]))
    && (forall i :: 0 <= i < |places| ==> DocumentsPlace(resources, places[i], docs[i]))
    && (forall p :: IsPlace(resources, p) ==> p in places)
  }

  /** The operations of a route are documents of that route, in their order; every document is listed. */
  ghost predicate Arranges(paths: seq<PathItem>, docs: seq<OperationDoc>, listing: seq<seq<nat>>) {
    && |listing| == |paths|
    && (forall i :: 0 <= i < |paths| ==> ListsRoute(paths[i], docs, listing[i]))
    && (forall i, j :: 0 <= i < j < |paths| ==> paths[i].route != paths[j].route && listing[i][0] < listing[j][0])
    && (forall k :: 0 <= k < |docs| ==> Listed(listing, k))
  }

  ghost predicate ListsRoute(item: PathItem, docs: seq<OperationDoc>, positions: seq<nat>) {
    && positions != [] && |positions| == |item.operations| && Ascending(positions)
    && forall j :: 0 <= j < |positions| ==>
         positions[j] < |docs| && docs[positions[j]] == item.operations[j] &&
         docs[positions[j]].operation.path == item.route
  }

  ghost predicate Listed(listing: seq<seq<nat>>, k: nat) {
    exists i :: 0 <= i < |listing| && k in listing[i]
  }

  /**
   Each route once, in the order of their first operations, with the operations of that route in the
   order of the resources.
   */
  ghost predicate DescribesOperations(resources: seq<Resource>, paths: seq<PathItem>) {
    exists docs, places, listing :: Enumerates(resources, docs, places) && Arranges(paths, docs, listing)
  }

  lemma {:induction false} DocDocuments(entity: string, op: Operation)
    ensures Documents(entity, op, DocOf(entity, op))
  {
  }

  /** The places of a list of resources whose last one has n operations listed. */
  lemma {:induction false} OperationsEnumerated(resources: seq<Resource>, entity: string, ops: seq<Operation>)
    returns (places: seq<Place>)
    ensures Enumerates(resources + [Resource(entity, ops)], DocsOf(resources) + DocsOfOperations(entity, ops), places)
    decreases |resources|, |ops| + 1
  {
    if ops != [] {
      var n := |ops| - 1;
      var before := OperationsEnumerated(resources, entity, ops[..n]);
      places := before + [Place(|resources|, n)];
      DocDocuments(entity, ops[n]);
      assert ops[..n] + [ops[n]] == ops;
      EnumeratesOneMore(resources, entity, ops[..n], ops[n], DocsOf(resources) + DocsOfOperations(entity, ops[..n]),
                        before, DocOf(entity, ops[n]));
      assert DocsOf(resources) + DocsOfOperations(entity, ops) ==
             DocsOf(resources) + DocsOfOperations(entity, ops[..n]) + [DocOf(entity, ops[n])];
    } else {
      places := ResourcesEnumerated(resources);
      assert DocsOf(resources) + DocsOfOperations(entity, ops) == DocsOf(resources);
      EnumeratesNoMore(resources, entity, DocsOf(resources), places);
    }
  }

  lemma {:induction false} ResourcesEnumerated(resources: seq<Resource>) returns (places: seq<Place>)
    ensures Enumerates(resources, DocsOf(resources), places)
    decreases |resources|, 0
  {
    if resources == [] {
      places := [];
    } else {
      hide Enumerates;
      var init, last := resources[..|resources| - 1], resources[|resources| - 1];
      assert resources == init + [Resource(last.entity, last.operations)];
      places := OperationsEnumerated(init, last.entity, last.operations);
    }
  }

  lemma {:induction false} EnumeratesNoMore(resources: seq<Resource>, entity: string, docs: seq<OperationDoc>,
                                            places: seq<Place>)
    requires Enumerates(resources, docs, places)
    ensures Enumerates(resources + [Resource(entity, [])], docs, places)
  {
    hide Documents;
    forall p | IsPlace(resources + [Resource(entity, [])], p)
      ensures p in places
    {
      assert IsPlace(resources, p);
    }
  }

  lemma {:induction false} EnumeratesOneMore(resources: seq<Resource>, entity: string, ops: seq<Operation>,
                                             op: Operation, docs: seq<OperationDoc>, places: seq<Place>,
                                             doc: OperationDoc)
    requires Enumerates(resources + [Resource(entity, ops)], docs, places)
    requires Documents(entity, op, doc)
    ensures Enumerates(resources + [Resource(entity, ops + [op])], docs + [doc],
                       places + [Place(|resources|, |ops|)])
  {
    hide Documents;
    var before, after := resources + [Resource(entity, ops)], resources + [Resource(entity, ops + [op])];
    var last := Place(|resources|, |ops|);
    var all := places + [last];
    forall i | 0 <= i < |places|
      ensures IsPlace(after, places[i]) && Before(places[i], last)
      ensures DocumentsPlace(after, places[i], docs[i])
    {
      assert IsPlace(before, places[i]) && DocumentsPlace(before, places[i], docs[i]);
      assert before[places[i].resource].entity == after[places[i].resource].entity;
    }
    forall p | IsPlace(after, p)
      ensures p in all
    {
      if p != last {
        assert IsPlace(before, p);
      }
    }
  }

  /** Where a document goes: to the end of the operations of its route, or into a new route at the end. */
  lemma {:induction false} AddToPathAt(paths: seq<PathItem>, doc: OperationDoc, i: nat)
    requires i <= |paths| && forall k :: 0 <= k < i ==> paths[k].route != doc.operation.path
    requires i < |paths| ==> paths[i].route == doc.operation.path
    ensures AddToPath(paths, doc) ==
            if i == |paths| then paths + [PathItem(doc.operation.path, [doc])]
            else paths[i := PathItem(doc.operation.path, paths[i].operations + [doc])]
  {
    if i > 0 {
      forall k | 0 <= k < i - 1
        ensures paths[1..][k].route != doc.operation.path
      {
        assert paths[k + 1].route != doc.operation.path;
      }
      AddToPathAt(paths[1..], doc, i - 1);
    }
  }

  lemma {:induction false} ListedMore(listing: seq<seq<nat>>, more: seq<seq<nat>>, k: nat)
    requires Listed(listing, k) && |listing| <= |more|
    requires forall i :: 0 <= i < |listing| ==> listing[i] <= more[i]
    ensures Listed(more, k)
  {
    var i :| 0 <= i < |listing| && k in listing[i];
    var j :| 0 <= j < |listing[i]| && listing[i][j] == k;
    assert more[i][j] == k;
  }

  lemma {:induction false} ListsRouteMore(item: PathItem, docs: seq<OperationDoc>, positions: seq<nat>,
                                          doc: OperationDoc)
    requires ListsRoute(item, docs, positions)
    ensures ListsRoute(item, docs + [doc], positions)
    ensures doc.operation.path == item.route ==>
      ListsRoute(PathItem(item.route, item.operations + [doc]), docs + [doc], positions + [|docs|])
  {
  }

  lemma {:induction false} FirstListed(paths: seq<PathItem>, docs: seq<OperationDoc>, listing: seq<seq<nat>>, i: nat)
    requires Arranges(paths, docs, listing) && i < |paths|
    ensures listing[i] != [] && listing[i][0] < |docs|
  {
    assert ListsRoute(paths[i], docs, listing[i]);
  }

  lemma {:induction false} AllListed(docs: seq<OperationDoc>, listing: seq<seq<nat>>, doc: OperationDoc,
                                     more: seq<seq<nat>>, i: nat)
    requires forall k :: 0 <= k < |docs| ==> Listed(listing, k)
    requires |listing| <= |more| && forall j :: 0 <= j < |listing| ==> listing[j] <= more[j]
    requires i < |more| && |docs| in more[i]
    ensures forall k :: 0 <= k < |docs + [doc]| ==> Listed(more, k)
  {
    forall k | 0 <= k < |docs + [doc]|
      ensures Listed(more, k)
    {
      if k < |docs| {
        ListedMore(listing, more, k);
      }
    }
  }

  lemma {:induction false} ArrangesNewRoute(paths: seq<PathItem>, docs: seq<OperationDoc>, listing: seq<seq<nat>>,
                                            doc: OperationDoc)
    requires Arranges(paths, docs, listing)
    requires forall k :: 0 <= k < |paths| ==> paths[k].route != doc.operation.path
    ensures Arranges(paths + [PathItem(doc.operation.path, [doc])], docs + [doc], listing + [[|docs|]])
  {
    var item, more := PathItem(doc.operation.path, [doc]), listing + [[|docs|]];
    forall k | 0 <= k < |paths|
      ensures ListsRoute(paths[k], docs + [doc], listing[k]) && listing[k] != [] && listing[k][0] < |docs|
    {
      ListsRouteMore(paths[k], docs, listing[k], doc);
      FirstListed(paths, docs, listing, k);
    }
    assert ListsRoute(item, docs + [doc], [|docs|]);
    hide ListsRoute, Listed;
    assert more[|listing|] == [|docs|];
    AllListed(docs, listing, doc, more, |listing|);
  }

  lemma {:induction false} ArrangesKnownRoute(paths: seq<PathItem>, docs: seq<OperationDoc>, listing: seq<seq<nat>>,
                                              doc: OperationDoc, i: nat)
    requires Arranges(paths, docs, listing)
    requires i < |paths| && paths[i].route == doc.operation.path
    ensures Arranges(paths[i := PathItem(doc.operation.path, paths[i].operations + [doc])], docs + [doc],
                     listing[i := listing[i] + [|docs|]])
  {
    var after := paths[i := PathItem(doc.operation.path, paths[i].operations + [doc])];
    var more := listing[i := listing[i] + [|docs|]];
    forall k | 0 <= k < |paths|
      ensures ListsRoute(after[k], docs + [doc], more[k])
      ensures listing[k] != [] && more[k][0] == listing[k][0]
    {
      ListsRouteMore(paths[k], docs, listing[k], doc);
      FirstListed(paths, docs, listing, k);
    }
    hide ListsRoute, Listed;
    assert more[i][|listing[i]|] == |docs|;
    AllListed(docs, listing, doc, more, i);
    forall j, k | 0 <= j < k < |after|
      ensures after[j].route != after[k].route && more[j][0] < more[k][0]
    {
      assert paths[j].route != paths[k].route && listing[j][0] < listing[k][0];
      assert after[j].route == paths[j].route && after[k].route == paths[k].route;
    }
  }

  lemma {:induction false} ArrangesOneMore(paths: seq<PathItem>, docs: seq<OperationDoc>, listing: seq<seq<nat>>,
                                           doc: OperationDoc)
    returns (more: seq<seq<nat>>)
    requires Arranges(paths, docs, listing)
    ensures Arranges(AddToPath(paths, doc), docs + [doc], more)
  {
    var i := 0;
    while i < |paths| && paths[i].route != doc.operation.path
      invariant 0 <= i <= |paths| && forall k :: 0 <= k < i ==> paths[k].route != doc.operation.path
    {
      i := i + 1;
    }
    AddToPathAt(paths, doc, i);
    if i == |paths| {
      ArrangesNewRoute(paths, docs, listing, doc);
      more := listing + [[|docs|]];
    } else {
      ArrangesKnownRoute(paths, docs, listing, doc, i);
      more := listing[i := listing[i] + [|docs|]];
    }
  }
}
