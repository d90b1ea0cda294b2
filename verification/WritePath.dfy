/**
 The operation handlers as the source runs them: one session per request with an identity map and
 queues, domain objects overwritten in place, and a database that changes only at persistAll.
 */
module WritePath {
  import opened Wrappers
  import opened WriteModel

  class Database {
    var state: State

    constructor (state: State)
      ensures this.state == state
    {
      this.state := state;
    }
  }

  class DomainObject {
    var uid: Option<int>
    var properties: Row

    constructor (uid: Option<int>, properties: Row)
      ensures this.uid == uid && this.properties == properties
    {
      this.uid, this.properties := uid, properties;
    }

    function Values(): Snapshot
      reads this
    {
      Snapshot(uid, properties)
    }

    /** `_setProperty` */
    method SetProperty(name: string, value: Scalar)
      modifies this`properties
      ensures properties == old(properties)[name := value]
    {
      properties := properties[name := value];
    }
  }

  /** Writing several objects, one after another. */
  function StoreAll(st: State, snapshots: seq<Snapshot>): State {
    if snapshots == [] then st else Store(StoreAll(st, snapshots[..|snapshots| - 1]), snapshots[|snapshots| - 1])
  }

  function RemoveAll(st: State, uids: seq<int>): State {
    if uids == [] then st
    else
      var init := RemoveAll(st, uids[..|uids| - 1]);
      init.(rows := init.rows - {uids[|uids| - 1]})
  }

  /** The i-th object as it is after all have been written. */
  function WrittenAt(st: State, snapshots: seq<Snapshot>, i: nat): Snapshot
    requires i < |snapshots|
  {
    Written(StoreAll(st, snapshots[..i]), snapshots[i])
  }

  lemma {:induction false} StoreAllStep(st: State, snapshots: seq<Snapshot>, i: nat)
    requires i < |snapshots|
    ensures StoreAll(st, snapshots[..i + 1]) == Store(StoreAll(st, snapshots[..i]), snapshots[i])
  {
    assert snapshots[..i + 1][..i] == snapshots[..i];
  }

  class PersistenceManager {
    const database: Database
    var identity: map<int, DomainObject>
    var pending: seq<DomainObject>
    var removed: seq<DomainObject>

    constructor (database: Database)
      ensures this.database == database && identity == map[] && pending == [] && removed == []
    {
      this.database := database;
      identity, pending, removed := map[], [], [];
    }

    ghost predicate Distinct()
      reads this
    {
      forall i, j :: 0 <= i < j < |pending| ==> pending[i] != pending[j]
    }

    /** The object of a uid: the one already in memory, or one reconstituted from its row. */
    method GetObjectByIdentifier(uid: int) returns (object_: DomainObject?)
      modifies this`identity
      ensures uid in old(identity) ==> object_ == old(identity)[uid] && identity == old(identity)
      ensures uid !in old(identity) ==> (object_ != null <==> uid in database.state.rows)
      ensures uid !in old(identity) && object_ != null ==>
        fresh(object_) && object_.Values() == Snapshot(Some(uid), database.state.rows[uid]) &&
          identity == old(identity)[uid := object_]
    {
      if uid in identity {
        object_ := identity[uid];
      } else if uid in database.state.rows {
        object_ := new DomainObject(Some(uid), database.state.rows[uid]);
        identity := identity[uid := object_];
      } else {
        object_ := null;
      }
    }

    /** `add` and `update`: the object is written at persistAll. */
    method Enqueue(object_: DomainObject)
      requires Distinct()
      modifies this`pending
      ensures Distinct()
      ensures pending == if object_ in old(pending) then old(pending) else old(pending) + [object_]
    {
      if object_ !in pending {
        pending := pending + [object_];
      }
    }

    method Remove(object_: DomainObject)
      modifies this`removed
      ensures removed == old(removed) + [object_]
    {
      removed := removed + [object_];
    }

    /** Inserts or updates the row of one object. */
    method StoreObject(o: DomainObject)
      modifies database, o`uid
      ensures database.state == Store(old(database.state), old(o.Values()))
      ensures o.Values() == Written(old(database.state), old(o.Values()))
    {
      if o.uid == None {
        var uid := database.state.nextUid;
        database.state := State(database.state.rows[uid := o.properties], uid + 1);
        o.uid := Some(uid);
      } else {
        database.state := database.state.(rows := database.state.rows[o.uid.value := o.properties]);
      }
    }

    /** The queued objects hold these values, each object queued once. */
    ghost predicate Queued(snapshots: seq<Snapshot>)
      reads this, pending
    {
      Distinct() && |snapshots| == |pending| && forall i :: 0 <= i < |pending| ==> snapshots[i] == pending[i].Values()
    }

    method StorePending(ghost snapshots: seq<Snapshot>)
      requires Queued(snapshots)
      modifies database, pending
      ensures database.state == StoreAll(old(database.state), snapshots)
      ensures forall i :: 0 <= i < |pending| ==> pending[i].Values() == WrittenAt(old(database.state), snapshots, i)
    {
      ghost var st := database.state;
      for i := 0 to |pending|
        invariant database.state == StoreAll(st, snapshots[..i])
        invariant forall j :: i <= j < |pending| ==> pending[j].Values() == snapshots[j]
        invariant forall j :: 0 <= j < i ==> pending[j].Values() == WrittenAt(st, snapshots, j)
      {
        hide StoreAll, Store, Written;
        StoreAllStep(st, snapshots, i);
        assert forall j :: 0 <= j < |pending| && j != i ==> pending[j] != pending[i];
        StoreObject(pending[i]);
      }
      assert snapshots[..|pending|] == snapshots;
    }

    method DeleteRemoved(ghost uids: seq<int>)
      requires |uids| == |removed| && forall i :: 0 <= i < |removed| ==> removed[i].uid == Some(uids[i])
      modifies database
      ensures database.state == RemoveAll(old(database.state), uids)
    {
      for i := 0 to |removed|
        invariant database.state == RemoveAll(old(database.state), uids[..i])
      {
        assert uids[..i + 1][..i] == uids[..i];
        database.state := database.state.(rows := database.state.rows - {removed[i].uid.value});
      }
      assert uids[..|removed|] == uids;
    }

    /** Writes the queued objects and deletes the removed ones; objects without uid get one. */
    method PersistAll(ghost snapshots: seq<Snapshot>, ghost uids: seq<int>)
      requires Queued(snapshots)
      requires |uids| == |removed| && forall i :: 0 <= i < |removed| ==> removed[i].uid == Some(uids[i])
      requires forall o :: o in removed ==> o !in pending
      modifies database, this`pending, this`removed, pending
      ensures database.state == RemoveAll(StoreAll(old(database.state), snapshots), uids)
      ensures pending == [] && removed == []
      ensures forall i :: 0 <= i < |old(pending)| ==>
        old(pending)[i].Values() == WrittenAt(old(database.state), snapshots, i)
    {
      StorePending(snapshots);
      assert forall i :: 0 <= i < |removed| ==> removed[i] in removed;
      DeleteRemoved(uids);
      pending, removed := [], [];
    }
  }

  class OperationHandlers {
    const cfg: Config
    const database: Database

    constructor (cfg: Config, database: Database)
      ensures this.cfg == cfg && this.database == database
    {
      this.cfg, this.database := cfg, database;
    }

    ghost predicate Valid()
      reads this, database
    {
      ValidConfig(cfg) && ValidState(cfg, database.state)
    }

    /** Lookup and access check of the item operations. */
    method FindObject(session: PersistenceManager, req: Request) returns (r: Result<DomainObject>)
      requires Valid() && session.database == database && session.identity == map[]
      modifies session`identity
      ensures Find(cfg, database.state, req).Failure? ==> r.Failure? && r.error == Find(cfg, database.state, req).error
      ensures Find(cfg, database.state, req).Success? ==>
        r.Success? && fresh(r.value) && r.value.Values() == Find(cfg, database.state, req).value
    {
      var object_ := session.GetObjectByIdentifier(req.uid);
      if object_ == null {
        return Failure("resource not found");
      }
      if !cfg.isGranted(req.verb, Some(object_.Values())) {
        return Failure("operation not allowed");
      }
      r := Success(object_);
    }

    /** Writes the payload into the object, then checks access once more, then validates. */
    method DeserializeAndValidate(object_: DomainObject, req: Request) returns (r: Result<()>)
      modifies object_`properties
      ensures object_.properties == Overlay(cfg, old(object_.properties), req.payload)
      ensures r ==
        (match Checked(cfg, req.verb, object_.Values()) case Success(_) => Success(()) case Failure(e) => Failure(e))
    {
      object_.properties := Overlay(cfg, object_.properties, req.payload);
      if !cfg.isGrantedPostDenormalize(req.verb, object_.Values()) {
        return Failure("operation not allowed");
      }
      if !cfg.isValid(object_.Values()) {
        return Failure("validation failed");
      }
      r := Success(());
    }

    /** CommonRepository::add */
    method Add(session: PersistenceManager, object_: DomainObject) returns (r: Result<()>)
      requires "pid" in object_.properties && session.pending == []
      modifies object_`properties, session`pending
      ensures Placed(cfg, old(object_.properties)).Failure? ==>
        r.Failure? && r.error == Placed(cfg, old(object_.properties)).error && session.pending == []
      ensures Placed(cfg, old(object_.properties)).Success? ==>
        r.Success? && object_.properties == Placed(cfg, old(object_.properties)).value && session.pending == [object_]
    {
      var pid := object_.properties["pid"];
      if pid == Null && MainStoragePid(cfg) > 0 {
        object_.SetProperty("pid", Number(MainStoragePid(cfg)));
      } else if pid.Number? && pid.i > 0 && RespectsStoragePage(cfg) && pid.i !in cfg.allowedPids {
        return Failure("not allowed storage pid");
      }
      session.Enqueue(object_);
      r := Success(());
    }

    /** persistAll for a session with one object to write. */
    method PersistOne(session: PersistenceManager, object_: DomainObject)
      requires session.database == database && session.pending == [object_] && session.removed == []
      modifies database, session`pending, session`removed, object_
      ensures database.state == Store(old(database.state), old(object_.Values()))
      ensures object_.Values() == Written(old(database.state), old(object_.Values()))
    {
      ghost var s := object_.Values();
      session.PersistAll([s], []);
      assert [s][..0] == [];
    }

    method HandlePost(req: Request) returns (r: Result<Option<Snapshot>>)
      requires Valid() && req.verb == Post
      modifies database
      ensures (database.state, r) == Step(cfg, old(database.state), req)
    {
      if !cfg.isGranted(Post, None) {
        return Failure("operation not allowed");
      }
      var session := new PersistenceManager(database);
      var object_ := new DomainObject(None, cfg.defaults);
      var _ :- DeserializeAndValidate(object_, req);
      var _ :- Add(session, object_);
      PersistOne(session, object_);
      r := Success(Some(object_.Values()));
    }

    /** Resets every property but the uid to its value in a new entity. */
    method ResetProperties(object_: DomainObject)
      modifies object_`properties
      ensures object_.properties == old(object_.properties) + cfg.defaults
    {
      var names := cfg.defaults.Keys;
      while names != {}
        invariant names <= cfg.defaults.Keys
        invariant object_.properties ==
          old(object_.properties) + map k | k in cfg.defaults && k !in names :: cfg.defaults[k]
        decreases names
      {
        var name :| name in names;
        object_.SetProperty(name, cfg.defaults[name]);
        names := names - {name};
      }
      assert (map k | k in cfg.defaults && k !in names :: cfg.defaults[k]) == cfg.defaults;
    }

    method HandlePut(req: Request) returns (r: Result<Option<Snapshot>>)
      requires Valid() && req.verb == Put
      modifies database
      ensures (database.state, r) == Step(cfg, old(database.state), req)
    {
      var session := new PersistenceManager(database);
      var object_ :- FindObject(session, req);
      ResetProperties(object_);
      var _ :- DeserializeAndValidate(object_, req);
      var _ :- Add(session, object_);
      PersistOne(session, object_);
      r := Success(Some(object_.Values()));
    }

    method HandlePatch(req: Request) returns (r: Result<Option<Snapshot>>)
      requires Valid() && req.verb == Patch
      modifies database
      ensures (database.state, r) == Step(cfg, old(database.state), req)
    {
      var session := new PersistenceManager(database);
      var object_ :- FindObject(session, req);
      var _ :- DeserializeAndValidate(object_, req);
      session.Enqueue(object_);
      PersistOne(session, object_);
      r := Success(Some(object_.Values()));
    }

    method HandleDelete(req: Request) returns (r: Result<Option<Snapshot>>)
      requires Valid() && req.verb == Delete
      modifies database
      ensures (database.state, r) == Step(cfg, old(database.state), req)
    {
      var session := new PersistenceManager(database);
      var object_ :- FindObject(session, req);
      session.Remove(object_);
      session.PersistAll([], [req.uid]);
      r := Success(None);
    }

    method HandleGet(req: Request) returns (r: Result<Option<Snapshot>>)
      requires Valid() && req.verb == Get
      ensures (database.state, r) == Step(cfg, database.state, req)
    {
      var session := new PersistenceManager(database);
      var object_ :- FindObject(session, req);
      r := Success(Some(object_.Values()));
    }

    /** A run of requests, each in a session of its own, leads to the state that the model's run leads to. */
    method HandleAll(reqs: seq<Request>)
      requires Valid()
      modifies database
      ensures Valid() && database.state == Run(cfg, old(database.state), reqs)
    {
      for i := 0 to |reqs|
        invariant Valid()
        invariant Run(cfg, database.state, reqs[i..]) == Run(cfg, old(database.state), reqs)
      {
        assert reqs[i..][0] == reqs[i] && reqs[i..][1..] == reqs[i + 1..];
        StepKeepsValid(cfg, database.state, reqs[i]);
        var r;
        match reqs[i].verb {
          case Get => r := HandleGet(reqs[i]);
          case Post => r := HandlePost(reqs[i]);
          case Put => r := HandlePut(reqs[i]);
          case Patch => r := HandlePatch(reqs[i]);
          case Delete => r := HandleDelete(reqs[i]);
        }
      }
    }
  }
}
