/** Concrete payloads that update an object which nothing held when the call began. */
module CascadeExamples {
  import opened Wrappers
  import opened Cascade
  import opened CascadeAddressed
  import opened CascadeScope
  import opened CascadeHeld
  import opened CascadeClash

  const NAME := Property("name", ScalarType, false, false)
  const POSTS := Property("posts", StorageType("Post"), false, true)

  /** The author of a post, which cascades. */
  function Author(c: string): Property {
    Property("author", EntityType(c), false, true)
  }

  /** The author of a category, which does not. */
  const CATEGORY_AUTHOR := Property("author", EntityType("User"), false, false)

  function Metadata_(postAuthor: string): Metadata {
    map["Category" := [CATEGORY_AUTHOR, POSTS], "Post" := [Author(postAuthor)], "User" := [NAME], "Admin" := [NAME]]
  }

  /** `{uid: 5, name: "x"}` */
  const RENAMED := Object([Field("uid", Numeric(UID)), Field("name", Text("x"))])

  /** `[{author: {uid: 5, name: "x"}}]` */
  const NEW_POSTS := Items([NEW_POST])
  const NEW_POST := Object([Field("author", RENAMED)])

  /** The object o is renamed after the call. */
  ghost predicate Renaming(r: Result<Outcome>, o: nat, name: string) {
    r.Success? && o in r.value.store.objects && FieldAt(r.value.store, o, name) == Some(ScalarValue("x"))
  }

  // ---------------------------------------------------------------- the steps, for any names

  /** The payload addresses uid 5 and sets one scalar property. */
  ghost predicate Renames(data: Payload, name: Property) {
    && IsArray(data) && GivesUid(data) && UidOf(Get(data, "uid").value) == UID
    && name.ptype == ScalarType && !name.readOnly && Get(data, name.name) == Some(Text("x"))
  }

  lemma {:induction false} ScalarRuns(w: World, ctx: Context, name: Property, st: Store)
    requires WellFormed(w, st) && TargetKnown(ctx, st) && name.ptype == ScalarType
    ensures Accept(w, Text("x"), ScalarType, false, ctx, Some(name), st) == Success(Outcome(ScalarValue("x"), st, []))
  {
    hide Good;
  }

  lemma {:induction false} RenameVisits(w: World, data: Payload, st: Store, name: Property, o: nat)
    requires WellFormed(w, st) && o in st.objects && Renames(data, name)
    ensures VisitProperties(w, o, data, [name], Context(Some(o), 1), st) ==
            Success(Outcome(Reference(o), SetField(st, o, name.name, ScalarValue("x")),
                            [Wrote(o, name.name, ScalarValue("x"))]))
  {
    hide Accept, VisitProperties, WellFormed, GivesUid, UidOf;
    ScalarRuns(w, Context(Some(o), 1), name, st);
    VisitOnly(w, o, data, [name], Context(Some(o), 1), st, 0);
    assert [] + [Wrote(o, name.name, ScalarValue("x"))] == [Wrote(o, name.name, ScalarValue("x"))];
  }

  /** Updating an object with a payload that renames it. */
  lemma {:induction false} RenameRuns(w: World, data: Payload, ctx: Context, st: Store, p: Property, c: string,
                                      name: Property, o: nat)
    requires WellFormed(w, st) && TargetKnown(ctx, st) && ctx.target.Some? && ctx.depth >= 1 && p.cascade
    requires c in w.metadata && w.metadata[c] == [name] && (c, UID) in w.persisted && w.persisted[(c, UID)] == o
    requires InScope(st, ctx.target.value, p, o) && Renames(data, name)
    ensures DeserializeTransport(w, data, c, ctx, Some(p), st) ==
      Success(Outcome(Reference(o), SetField(st, o, name.name, ScalarValue("x")),
                      [Updated(o, ctx.target.value, p, st), Wrote(o, name.name, ScalarValue("x"))]))
  {
    hide DeserializeTransport, InScope, VisitProperties, SetField;
    RenameVisits(w, data, st, name, o);
    UpdatingRuns(w, data, c, ctx, p, st, o);
    assert [Updated(o, ctx.target.value, p, st)] + [Wrote(o, name.name, ScalarValue("x"))] ==
           [Updated(o, ctx.target.value, p, st), Wrote(o, name.name, ScalarValue("x"))];
  }

  lemma {:induction false} Creating(w: World, st: Store, c: string, q: Property, o: nat)
    requires WellFormed(w, st) && 0 in st.objects && o in st.objects && InScope(st, 0, q, o)
    ensures var created := Create(st, c);
      && WellFormed(w, created) && InScope(created, 0, q, o) && o in created.objects && o != st.next
      && st.next in created.objects
      && forall depth :: TargetKnown(Context(Some(0), depth), created) && TargetKnown(Context(Some(0), depth), st)
  {
  }

  lemma {:induction false} PostFields(post: Payload, author: Property, data: Payload, name: Property)
    requires Get(post, author.name) == Some(data) && !author.readOnly && Renames(data, name)
    ensures Writes(post, author) && IsArray(data)
  {
  }

  /** The author of a fresh post x is renamed. */
  lemma {:induction false} AuthorVisits(w: World, st: Store, author: Property, name: Property, o: nat, x: nat,
                                        post: Payload, data: Payload)
    requires WellFormed(w, st) && 0 in st.objects && o in st.objects && x in st.objects && o != x && Renames(data, name)
    requires author.ptype.EntityType? && author.cascade && !author.readOnly && IsArray(post)
    requires var c := author.ptype.class_;
      c in w.metadata && w.metadata[c] == [name] && (c, UID) in w.persisted && w.persisted[(c, UID)] == o
    requires Get(post, author.name) == Some(data) && InScope(st, 0, author, o)
    ensures var r := VisitProperties(w, x, post, [author], Context(Some(0), 4), st);
      r.Success? && o in r.value.store.objects && FieldAt(r.value.store, o, name.name) == Some(ScalarValue("x"))
  {
    hide *;
    PostFields(post, author, data, name);
    KnownTarget(st, 0, 4);
    KnownTarget(st, 0, 5);
    RenameRuns(w, data, Context(Some(0), 5), st, author, author.ptype.class_, name, o);
    NestedStep(w, data, author.ptype.class_, Context(Some(0), 4), Some(author), st);
    VisitOnly(w, x, post, [author], Context(Some(0), 4), st, 0);
    FieldStays(st, o, name.name, x, author.name, Reference(o));
  }

  lemma {:induction false} KnownTarget(st: Store, t: nat, depth: nat)
    requires t in st.objects
    ensures TargetKnown(Context(Some(t), depth), st)
  {
  }

  /** A property set on one object stays when another object is written. */
  lemma {:induction false} FieldStays(st: Store, o: nat, name: string, x: nat, other: string, v: Value)
    requires o in st.objects && x in st.objects && x != o
    ensures var renamed := SetField(st, o, name, ScalarValue("x"));
      && x in renamed.objects && o in SetField(renamed, x, other, v).objects
      && FieldAt(SetField(renamed, x, other, v), o, name) == Some(ScalarValue("x"))
  {
  }

  /** The element of a collection of new posts: a fresh post, whose author is renamed. */
  lemma {:induction false} PostRuns(w: World, st: Store, posts: Property, author: Property, name: Property, o: nat,
                                    post: Payload, data: Payload)
    requires WellFormed(w, st) && 0 in st.objects && o in st.objects && Renames(data, name)
    requires posts.ptype.StorageType? && posts.cascade && author.ptype.EntityType? && author.cascade && !author.readOnly
    requires var c, p := author.ptype.class_, posts.ptype.class_;
      && c in w.metadata && w.metadata[c] == [name] && p in w.metadata && w.metadata[p] == [author]
      && (c, UID) in w.persisted && w.persisted[(c, UID)] == o
    requires IsArray(post) && !GivesUid(post) && Get(post, author.name) == Some(data)
    requires InScope(st, 0, author, o)
    ensures var r := DeserializeTransport(w, post, posts.ptype.class_, Context(Some(0), 3), Some(posts), st);
      && r.Success? && r.value.value.Reference? && o in r.value.store.objects
      && FieldAt(r.value.store, o, name.name) == Some(ScalarValue("x"))
  {
    hide *;
    var p := posts.ptype.class_;
    Creating(w, st, p, author, o);
    AuthorVisits(w, Create(st, p), author, name, o, st.next, post, data);
    InsertingRuns(w, post, p, Context(Some(0), 3), posts, st);
  }

  lemma {:induction false} NewPostRuns(w: World, st: Store, posts: Property, author: Property, name: Property, o: nat,
                                       post: Payload, data: Payload)
    requires WellFormed(w, st) && 0 in st.objects && o in st.objects && Renames(data, name)
    requires posts.ptype.StorageType? && posts.cascade && author.ptype.EntityType? && author.cascade && !author.readOnly
    requires var c, p := author.ptype.class_, posts.ptype.class_;
      && c in w.metadata && w.metadata[c] == [name] && p in w.metadata && w.metadata[p] == [author]
      && (c, UID) in w.persisted && w.persisted[(c, UID)] == o
    requires IsArray(post) && !GivesUid(post) && Get(post, author.name) == Some(data)
    requires InScope(st, 0, author, o)
    ensures Renaming(Accept(w, Items([post]), posts.ptype, false, Context(Some(0), 1), Some(posts), st), o, name.name)
  {
    var p := posts.ptype.class_;
    PostRuns(w, st, posts, author, name, o, post, data);
    hide InScope, DeserializeTransport, Accept, WellFormed, Renames, Get, GivesUid;
    NestedStep(w, post, p, Context(Some(0), 2), Some(posts), st);
    AcceptItem(w, post, p, Context(Some(0), 1), posts, st);
  }

  lemma {:induction false} RenamingLater(out: Outcome, o: nat, name: string, x: nat, other: string, log: seq<Event>)
    requires Renaming(Success(out), o, name) && x in out.store.objects && x != o
    ensures Renaming(Success(Outcome(Reference(x), SetField(out.store, x, other, out.value), log)), o, name)
  {
  }

  /** A root payload that writes the i-th property alone. */
  lemma {:induction false} RootRuns(w: World, st: Store, data: Payload, c: string, i: nat, o: nat, name: string)
    requires WellFormed(w, st) && 0 in st.objects && o != 0 && IsArray(data) && c in w.metadata && i < |w.metadata[c]|
    requires var m := w.metadata[c];
      && Writes(data, m[i]) && (forall j :: 0 <= j < |m| && j != i ==> !Writes(data, m[j]))
      && Renaming(
           Accept(w, Get(data, m[i].name).value, m[i].ptype, false, Context(Some(0), 1), Some(m[i]), st), o, name)
    ensures Renaming(Accept(w, data, EntityType(c), false, Context(Some(0), 0), None, st), o, name)
  {
    var p, ctx := w.metadata[c][i], Context(Some(0), 1);
    hide Accept, VisitProperties, WellFormed, Writes, Good;
    var first := Accept(w, Get(data, p.name).value, p.ptype, false, ctx, Some(p), st).value;
    VisitOnly(w, 0, data, w.metadata[c], ctx, st, i);
    RootVisits(w, data, c, 0, st);
    RenamingLater(first, o, name, 0, p.name, first.log + [Wrote(0, p.name, first.value)]);
  }

  /** A root payload that writes the j-th property, a link, and then the i-th. */
  lemma {:induction false} RootRunsTwo(w: World, st: Store, mid: Store, value: Value, data: Payload, c: string, i: nat,
                                       j: nat, o: nat, name: string)
    requires DistinctNames(w.metadata) && WellFormed(w, st) && WellFormed(w, mid) && 0 in st.objects && o != 0
    requires c in w.metadata && j < i < |w.metadata[c]| && IsArray(data)
    requires var m := w.metadata[c];
      && Writes(data, m[i]) && Writes(data, m[j])
      && (forall n :: 0 <= n < |m| && n != i && n != j ==> !Writes(data, m[n]))
      && Accept(w, Get(data, m[j].name).value, m[j].ptype, false, Context(Some(0), 1), Some(m[j]), st)
           == Success(Outcome(value, st, []))
      && mid == SetField(st, 0, m[j].name, value)
      && Renaming(
           Accept(w, Get(data, m[i].name).value, m[i].ptype, false, Context(Some(0), 1), Some(m[i]), mid), o, name)
    ensures Renaming(Accept(w, data, EntityType(c), false, Context(Some(0), 0), None, st), o, name)
  {
    var m, ctx := w.metadata[c], Context(Some(0), 1);
    hide Accept, VisitProperties, WellFormed, Good, DistinctNames;
    SecondVisit(w, data, c, i, j, ctx, st, mid, value);
    hide Writes;
    RootVisits(w, data, c, 0, st);
    var second := Accept(w, Get(data, m[i].name).value, m[i].ptype, false, ctx, Some(m[i]), mid).value;
    RenamingLater(second, o, name, 0, m[i].name,
                  [Wrote(0, m[j].name, value)] + (second.log + [Wrote(0, m[i].name, second.value)]));
  }

  // ---------------------------------------------------------------- examples

  lemma {:induction false} RenamedFields()
    ensures Renames(RENAMED, NAME)
    ensures var post := Object([Field("author", RENAMED)]); !GivesUid(post) && Get(post, "author") == Some(RENAMED)
  {
    TwoFields("uid", Numeric(UID), "name", Text("x"));
    OneField("author", RENAMED);
  }

  /** `{posts: [{author: {uid: 5, name: "x"}}]}` */
  const RENAME_THROUGH_POST := Object([Field("posts", NEW_POSTS)])

  /** A call on the object 0, a category. */
  function Call(w: World, data: Payload, st: Store): Result<Outcome>
    requires WellFormed(w, st) && 0 in st.objects
  {
    Accept(w, data, EntityType("Category"), false, Context(Some(0), 0), None, st)
  }

  const NAMESAKE_WORLD := NamesakeWorld(Metadata_("Admin"), "Category", "User", "Admin")
  const NAMESAKE_STORE := NamesakeStore("Category", "User", "Admin", "author")

  lemma {:induction false} NamesakeSetting()
    ensures Consistent(NAMESAKE_WORLD, NAMESAKE_STORE) && HeldByNone(NAMESAKE_STORE, 2)
    ensures InScope(NAMESAKE_STORE, 0, Author("Admin"), 2)
    ensures Writes(RENAME_THROUGH_POST, POSTS) && !Writes(RENAME_THROUGH_POST, CATEGORY_AUTHOR)
    ensures Get(RENAME_THROUGH_POST, "posts") == Some(NEW_POSTS)
  {
    NamesakeConsistent(Metadata_("Admin"), "Category", CATEGORY_AUTHOR, "Admin");
    OneField("posts", NEW_POSTS);
  }

  /**
   The category's author is the user of uid 5. A new post with author 5 passes the check of its author, an
   admin, against the author of the category, and the admin of uid 5 is renamed, which nothing held.
   */
  lemma {:induction false} NamesakeRenamed()
    ensures Consistent(NAMESAKE_WORLD, NAMESAKE_STORE) && HeldByNone(NAMESAKE_STORE, 2)
    ensures FieldAt(NAMESAKE_STORE, 2, "name") == None
    ensures Renaming(Call(NAMESAKE_WORLD, RENAME_THROUGH_POST, NAMESAKE_STORE), 2, "name")
  {
    NamesakeSetting();
    RenamedFields();
    hide Consistent, InScope, Renames, HeldByNone, Accept, Writes, Get, Renaming;
    NewPostRuns(NAMESAKE_WORLD, NAMESAKE_STORE, POSTS, Author("Admin"), NAME, 2, NEW_POST, RENAMED);
    RootRuns(NAMESAKE_WORLD, NAMESAKE_STORE, RENAME_THROUGH_POST, "Category", 1, 2, "name");
  }

  /** `{author: 5, posts: [{author: {uid: 5, name: "x"}}]}` */
  const LINK_AND_RENAME := Object([Field("author", Numeric(UID)), Field("posts", NEW_POSTS)])

  const LINK_WORLD := BareWorld(Metadata_("User"), "Category", "User")
  const LINK_STORE := BareStore("Category", "User")
  const LINKED_STORE := SetField(LINK_STORE, 0, "author", Reference(1))

  lemma {:induction false} LinkSetting()
    ensures Consistent(LINK_WORLD, LINK_STORE) && HeldByNone(LINK_STORE, 1)
    ensures WellFormed(LINK_WORLD, LINKED_STORE) && InScope(LINKED_STORE, 0, Author("User"), 1)
    ensures DistinctNames(LINK_WORLD.metadata)
  {
    BareConsistent(Metadata_("User"), "Category", "User");
  }

  lemma {:induction false} LinkFields()
    ensures Get(LINK_AND_RENAME, "author") == Some(Numeric(UID)) && Get(LINK_AND_RENAME, "posts") == Some(NEW_POSTS)
    ensures Writes(LINK_AND_RENAME, CATEGORY_AUTHOR) && Writes(LINK_AND_RENAME, POSTS)
  {
    TwoFields("author", Numeric(UID), "posts", NEW_POSTS);
  }

  lemma {:induction false} LinkRuns()
    ensures WellFormed(LINK_WORLD, LINK_STORE)
    ensures Accept(LINK_WORLD, Numeric(UID), EntityType("User"), false, Context(Some(0), 1), Some(CATEGORY_AUTHOR),
                   LINK_STORE)
      == Success(Outcome(Reference(1), LINK_STORE, []))
  {
    Linked(LINK_WORLD, Context(Some(0), 1), CATEGORY_AUTHOR, LINK_STORE, 1);
  }

  lemma {:induction false} LinkedPostRuns()
    ensures WellFormed(LINK_WORLD, LINKED_STORE)
    ensures Renaming(
              Accept(LINK_WORLD, NEW_POSTS, POSTS.ptype, false, Context(Some(0), 1), Some(POSTS), LINKED_STORE),
              1, "name")
  {
    LinkSetting();
    RenamedFields();
    hide Consistent, InScope, Renames, Accept, Get, Renaming, DistinctNames, WellFormed;
    NewPostRuns(LINK_WORLD, LINKED_STORE, POSTS, Author("User"), NAME, 1, NEW_POST, RENAMED);
  }

  /**
   Nothing holds the user of uid 5. The payload makes it the category's author by number; a new post with
   author 5 then passes the check against the category, and the user is renamed.
   */
  lemma {:induction false} LinkedRenamed()
    ensures Consistent(LINK_WORLD, LINK_STORE) && HeldByNone(LINK_STORE, 1) && FieldAt(LINK_STORE, 1, "name") == None
    ensures Renaming(Call(LINK_WORLD, LINK_AND_RENAME, LINK_STORE), 1, "name")
  {
    LinkSetting();
    LinkFields();
    LinkRuns();
    LinkedPostRuns();
    hide Consistent, InScope, Renames, HeldByNone, Accept, Writes, Get, Renaming, DistinctNames, WellFormed;
    RootRunsTwo(LINK_WORLD, LINK_STORE, LINKED_STORE, Reference(1), LINK_AND_RENAME, "Category", 1, 0, 1, "name");
  }

  // ---------------------------------------------------------------- an object addressed twice

  lemma {:induction false} AcceptTwo(w: World, a: Payload, b: Payload, c: string, ctx: Context, p: Property, st: Store)
    requires WellFormed(w, st) && TargetKnown(ctx, st) && ctx.depth >= 1
    requires var first := Accept(w, a, EntityType(c), false, Context(ctx.target, ctx.depth + 1), Some(p), st);
      first.Success? && first.value.value.Reference?
    requires var mid := Accept(w, a, EntityType(c), false, Context(ctx.target, ctx.depth + 1), Some(p), st).value.store;
      var second := Accept(w, b, EntityType(c), false, Context(ctx.target, ctx.depth + 1), Some(p), mid);
      second.Success? && second.value.value.Reference?
    ensures var mid := Accept(w, a, EntityType(c), false, Context(ctx.target, ctx.depth + 1), Some(p), st).value.store;
      var r := Accept(w, Items([a, b]), StorageType(c), false, ctx, Some(p), st);
      && r.Success?
      && r.value.store ==
         Accept(w, b, EntityType(c), false, Context(ctx.target, ctx.depth + 1), Some(p), mid).value.store
  {
    hide Accept, AcceptAll, WellFormed;
    var inner := Context(ctx.target, ctx.depth + 1);
    var mid := Accept(w, a, EntityType(c), false, inner, Some(p), st).value.store;
    CollectionStep(w, Items([a, b]), c, ctx, Some(p), st);
    AttachRuns(w, [a, b], c, inner, p, st);
    assert [a, b][1..] == [b] && [b][1..] == [];
    AttachRuns(w, [b], c, inner, p, mid);
    AttachNone(w, c, inner, p, Accept(w, b, EntityType(c), false, inner, Some(p), mid).value.store);
  }

  /** Posts hold an author; users have a name. */
  const PLAIN_METADATA: Metadata := map["Category" := [POSTS], "Post" := [Author("User")], "User" := [NAME]]

  lemma {:induction false} PlainMetadataSound()
    ensures Sound(PLAIN_METADATA)
  {
    var m := PLAIN_METADATA;
    forall c, i: nat, path: seq<Property>, j: nat
      ensures !Clash(m, c, i, path, j)
    {
      if Clash(m, c, i, path, j) {
        PlainPath(c, path);
        assert false;
      }
    }
  }

  lemma {:induction false} PathNext(m: Metadata, c: string, path: seq<Property>)
    requires IsPath(m, c, path) && |path| >= 2
    ensures c in m && path[0] in m[c] && Cascades(path[0]) && IsPath(m, path[0].ptype.class_, path[1..])
    ensures path[0].ptype.class_ in m && path[1] in m[path[0].ptype.class_]
  {
  }

  /** The only path of two cascading properties is posts, author. */
  lemma {:induction false} PlainPath(c: string, path: seq<Property>)
    requires IsPath(PLAIN_METADATA, c, path) && |path| >= 2 && Cascades(path[|path| - 1])
    ensures c == "Category" && path == [POSTS, Author("User")]
  {
    var m := PLAIN_METADATA;
    PathNext(m, c, path);
    assert path[0] == POSTS || path[0] == Author("User");
    if |path| > 2 {
      PathNext(m, path[0].ptype.class_, path[1..]);
    }
  }

  const TWICE_WORLD := World(PLAIN_METADATA, map[("Category", 1) := 0, ("Post", UID) := 1, ("User", UID) := 2])

  /** A category with one post, which has no author. */
  const TWICE_STORE := Store(map[0 := Persisted("Category", 1, map["posts" := Storage([1])]),
                                 1 := Persisted("Post", UID, map[]),
                                 2 := Persisted("User", UID, map[])], 3)

  lemma {:induction false} TwiceConsistent()
    ensures Consistent(TWICE_WORLD, TWICE_STORE)
    ensures HeldByNone(TWICE_STORE, 2) && FieldAt(TWICE_STORE, 2, "name") == None
  {
    var m, st := PLAIN_METADATA, TWICE_STORE;
    assert HasProperty(m, "Category", "posts", POSTS.ptype) && Fits(st, POSTS.ptype, Storage([1]));
    forall o, name | o in st.objects && st.objects[o].class_ in m && FieldAt(st, o, name).Some?
      ensures exists t :: HasProperty(m, st.objects[o].class_, name, t) && Fits(st, t, FieldAt(st, o, name).value)
    {
      assert o == 0 && name == "posts";
    }
  }

  /** `{uid: 5, author: 5}` and `{uid: 5, author: {uid: 5, name: "x"}}` */
  const LINK_ELEMENT := Object([Field("uid", Numeric(UID)), Field("author", Numeric(UID))])
  const RENAME_ELEMENT := Object([Field("uid", Numeric(UID)), Field("author", RENAMED)])

  lemma {:induction false} ElementFields()
    ensures GivesUid(LINK_ELEMENT) && UidOf(Get(LINK_ELEMENT, "uid").value) == UID
    ensures GivesUid(RENAME_ELEMENT) && UidOf(Get(RENAME_ELEMENT, "uid").value) == UID
    ensures Get(LINK_ELEMENT, "author") == Some(Numeric(UID)) && Get(RENAME_ELEMENT, "author") == Some(RENAMED)
  {
    TwoFields("uid", Numeric(UID), "author", Numeric(UID));
    TwoFields("uid", Numeric(UID), "author", RENAMED);
  }

  /** The post of uid 5 is updated in a store that may already hold its author. */
  lemma {:induction false} ElementRuns(data: Payload, st: Store, out: Outcome)
    requires WellFormed(TWICE_WORLD, st) && 0 in st.objects && 1 in st.objects && IsArray(data)
    requires GivesUid(data) && UidOf(Get(data, "uid").value) == UID && Get(data, "author").Some?
    requires InScope(st, 0, POSTS, 1)
    requires Accept(TWICE_WORLD, Get(data, "author").value, EntityType("User"), false, Context(Some(1), 1),
                    Some(Author("User")), st)
      == Success(out)
    ensures 1 in out.store.objects
    ensures var r := Accept(TWICE_WORLD, data, EntityType("Post"), false, Context(Some(0), 2), Some(POSTS), st);
      r.Success? && r.value.value == Reference(1) && r.value.store == SetField(out.store, 1, "author", out.value)
  {
    var author := Author("User");
    hide Accept, VisitProperties, DeserializeTransport, InScope, WellFormed;
    VisitOnly(TWICE_WORLD, 1, data, [author], Context(Some(1), 1), st, 0);
    UpdatingRuns(TWICE_WORLD, data, "Post", Context(Some(0), 3), POSTS, st, 1);
    NestedStep(TWICE_WORLD, data, "Post", Context(Some(0), 2), Some(POSTS), st);
  }

  /** `{posts: [{uid: 5, author: 5}, {uid: 5, author: {uid: 5, name: "x"}}]}` */
  const TWICE := Object([Field("posts", Items([LINK_ELEMENT, RENAME_ELEMENT]))])

  const TWICE_LINKED := SetField(TWICE_STORE, 1, "author", Reference(2))

  lemma {:induction false} TwiceSetting()
    ensures WellFormed(TWICE_WORLD, TWICE_STORE) && InScope(TWICE_STORE, 0, POSTS, 1)
    ensures WellFormed(TWICE_WORLD, TWICE_LINKED) && InScope(TWICE_LINKED, 0, POSTS, 1)
    ensures InScope(TWICE_LINKED, 1, Author("User"), 2)
    ensures 0 in TWICE_LINKED.objects && 1 in TWICE_LINKED.objects && 2 in TWICE_LINKED.objects
  {
  }

  /** The first element links the author. */
  lemma {:induction false} FirstElement()
    ensures var r := Accept(TWICE_WORLD, LINK_ELEMENT, EntityType("Post"), false, Context(Some(0), 2), Some(POSTS),
                            TWICE_STORE);
      r.Success? && r.value.value == Reference(1) && r.value.store == TWICE_LINKED
  {
    TwiceSetting();
    ElementFields();
    Linked(TWICE_WORLD, Context(Some(1), 1), Author("User"), TWICE_STORE, 2);
    hide Accept, InScope, WellFormed, Get, GivesUid, UidOf;
    ElementRuns(LINK_ELEMENT, TWICE_STORE, Outcome(Reference(2), TWICE_STORE, []));
  }

  /** The second element renames it. */
  lemma {:induction false} SecondElement()
    requires WellFormed(TWICE_WORLD, TWICE_LINKED)
    ensures var r := Accept(TWICE_WORLD, RENAME_ELEMENT, EntityType("Post"), false, Context(Some(0), 2), Some(POSTS),
                            TWICE_LINKED);
      Renaming(r, 2, "name") && r.value.value == Reference(1)
  {
    var author, st := Author("User"), TWICE_LINKED;
    TwiceSetting();
    ElementFields();
    RenamedFields();
    KnownTarget(st, 1, 2);
    KnownTarget(st, 1, 1);
    hide Accept, InScope, WellFormed, Get, GivesUid, UidOf, Renames;
    RenameRuns(TWICE_WORLD, RENAMED, Context(Some(1), 2), st, author, "User", NAME, 2);
    NestedStep(TWICE_WORLD, RENAMED, "User", Context(Some(1), 1), Some(author), st);
    ElementRuns(RENAME_ELEMENT, st, Outcome(Reference(2), SetField(st, 2, "name", ScalarValue("x")),
                                            [Updated(2, 1, author, st), Wrote(2, "name", ScalarValue("x"))]));
    FieldStays(st, 2, "name", 1, "author", Reference(2));
  }

  lemma {:induction false} TwiceFields()
    ensures Get(TWICE, "posts") == Some(Items([LINK_ELEMENT, RENAME_ELEMENT])) && Writes(TWICE, POSTS)
  {
    OneField("posts", Items([LINK_ELEMENT, RENAME_ELEMENT]));
  }

  /**
   Without clashes, but with one post addressed twice: the first element gives it the user of uid 5 as
   author, which nothing held, and the second element renames that user.
   */
  lemma {:induction false} TwiceRenamed()
    ensures Sound(PLAIN_METADATA) && Consistent(TWICE_WORLD, TWICE_STORE) && HeldByNone(TWICE_STORE, 2)
    ensures FieldAt(TWICE_STORE, 2, "name") == None
    ensures Renaming(Call(TWICE_WORLD, TWICE, TWICE_STORE), 2, "name")
  {
    hide Accept, Get, HeldByNone, Sound, Consistent, InScope, Writes;
    PlainMetadataSound();
    TwiceConsistent();
    TwiceSetting();
    FirstElement();
    SecondElement();
    TwiceFields();
    KnownTarget(TWICE_STORE, 0, 1);
    AcceptTwo(TWICE_WORLD, LINK_ELEMENT, RENAME_ELEMENT, "Post", Context(Some(0), 1), POSTS, TWICE_STORE);
    RootRuns(TWICE_WORLD, TWICE_STORE, TWICE, "Category", 0, 2, "name");
  }
}
