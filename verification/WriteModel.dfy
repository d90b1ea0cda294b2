/** What the write operations do to the table of an entity, as functions on its state. */
module WriteModel {
  import opened Wrappers

  datatype Scalar = Null | Number(i: int) | Text(s: string)

  type Row = map<string, Scalar>

  /** The table: rows by uid, and the next uid. */
  datatype State = State(rows: map<int, Row>, nextUid: int)

  /** The values of an object. */
  datatype Snapshot = Snapshot(uid: Option<int>, properties: Row)

  datatype Verb = Get | Post | Put | Patch | Delete

  datatype Request = Request(verb: Verb, uid: int, payload: Row)

  /**
   `defaults` are the property values of a new entity, `writable` the properties that a payload may
   set. Access and validation are arbitrary decisions about the operation and the object.
   */
  datatype Config = Config(
    defaults: Row, writable: set<string>, storagePids: seq<int>, allowedPids: set<int>,
    isGranted: (Verb, Option<Snapshot>) -> bool,
    isGrantedPostDenormalize: (Verb, Snapshot) -> bool,
    isValid: Snapshot -> bool)

  predicate ValidConfig(cfg: Config) {
    "pid" in cfg.defaults && cfg.writable <= cfg.defaults.Keys
  }

  /** Rows have the columns of the entity, and uids below the next one. */
  predicate ValidState(cfg: Config, st: State) {
    forall u :: u in st.rows ==> st.rows[u].Keys == cfg.defaults.Keys && u < st.nextUid
  }

  // ---------------------------------------------------------------- pieces of the operations

  /** Deserialization of a scalar payload into an object: the writable properties present are set. */
  function Overlay(cfg: Config, properties: Row, payload: Row): Row {
    properties + map k | k in payload && k in cfg.writable :: payload[k]
  }

  function MainStoragePid(cfg: Config): int {
    if cfg.storagePids == [] then 0 else cfg.storagePids[0]
  }

  predicate RespectsStoragePage(cfg: Config) {
    cfg.storagePids != []
  }

  /** CommonRepository::add: the page is set when missing, or checked when given. */
  function Placed(cfg: Config, properties: Row): Result<Row>
    requires "pid" in properties
  {
    var pid := properties["pid"];
    if pid == Null && MainStoragePid(cfg) > 0 then Success(properties["pid" := Number(MainStoragePid(cfg))])
    else if pid.Number? && pid.i > 0 && RespectsStoragePage(cfg) && pid.i !in cfg.allowedPids
    then Failure("not allowed storage pid")
    else Success(properties)
  }

  /** The checks after deserialization. */
  function Checked(cfg: Config, verb: Verb, s: Snapshot): Result<Snapshot> {
    if !cfg.isGrantedPostDenormalize(verb, s) then Failure("operation not allowed")
    else if !cfg.isValid(s) then Failure("validation failed")
    else Success(s)
  }

  /** Lookup and access check shared by the item operations. */
  function Find(cfg: Config, st: State, req: Request): Result<Snapshot> {
    if req.uid !in st.rows then Failure("resource not found")
    else
      var s := Snapshot(Some(req.uid), st.rows[req.uid]);
      if !cfg.isGranted(req.verb, Some(s)) then Failure("operation not allowed") else Success(s)
  }

  /** Writing an object: a new row for an object without uid, its own row otherwise. */
  function Store(st: State, s: Snapshot): State {
    if s.uid.None? then State(st.rows[st.nextUid := s.properties], st.nextUid + 1)
    else st.(rows := st.rows[s.uid.value := s.properties])
  }

  function Written(st: State, s: Snapshot): Snapshot {
    s.(uid := if s.uid.None? then Some(st.nextUid) else s.uid)
  }

  /** The object that an operation writes, or why it writes none. */
  function Prepared(cfg: Config, st: State, req: Request): Result<Snapshot>
    requires ValidConfig(cfg) && ValidState(cfg, st)
    requires req.verb in {Post, Put, Patch}
  {
    match req.verb
    case Post =>
      if !cfg.isGranted(Post, None) then Failure("operation not allowed")
      else
        var s :- Checked(cfg, Post, Snapshot(None, Overlay(cfg, cfg.defaults, req.payload)));
        var placed :- Placed(cfg, s.properties);
        Success(s.(properties := placed))
    case Put =>
      var found :- Find(cfg, st, req);
      var reset := found.properties + cfg.defaults;
      var s :- Checked(cfg, Put, Snapshot(Some(req.uid), Overlay(cfg, reset, req.payload)));
      var placed :- Placed(cfg, s.properties);
      Success(s.(properties := placed))
    case Patch =>
      var found :- Find(cfg, st, req);
      Checked(cfg, Patch, found.(properties := Overlay(cfg, found.properties, req.payload)))
  }

  /** One request: the state after it, and the object returned. */
  function Step(cfg: Config, st: State, req: Request): (State, Result<Option<Snapshot>>)
    requires ValidConfig(cfg) && ValidState(cfg, st)
  {
    match req.verb
    case Get =>
      var found := Find(cfg, st, req);
      (st, if found.Failure? then Failure(found.error) else Success(Some(found.value)))
    case Delete =>
      var found := Find(cfg, st, req);
      if found.Failure? then (st, Failure(found.error))
      else (st.(rows := st.rows - {req.uid}), Success(None))
    case _ =>
      var s := Prepared(cfg, st, req);
      if s.Failure? then (st, Failure(s.error))
      else (Store(st, s.value), Success(Some(Written(st, s.value))))
  }

  // ---------------------------------------------------------------- single requests

  lemma {:induction false} StepKeepsValid(cfg: Config, st: State, req: Request)
    requires ValidConfig(cfg) && ValidState(cfg, st)
    ensures ValidState(cfg, Step(cfg, st, req).0)
    ensures Step(cfg, st, req).1.Failure? ==> Step(cfg, st, req).0 == st
    ensures Step(cfg, st, req).0.nextUid >= st.nextUid
  {
    if req.verb in {Post, Put, Patch} && Prepared(cfg, st, req).Success? {
      var s := Prepared(cfg, st, req).value;
      assert s.properties.Keys == cfg.defaults.Keys;
    }
  }

  /** Which rows a request can touch: only its own, or for POST only a new one. */
  lemma {:induction false} StepTouchesOneRow(cfg: Config, st: State, req: Request, u: int)
    requires ValidConfig(cfg) && ValidState(cfg, st)
    requires u != if req.verb == Post then st.nextUid else req.uid
    ensures u in Step(cfg, st, req).0.rows <==> u in st.rows
    ensures u in st.rows ==> Step(cfg, st, req).0.rows[u] == st.rows[u]
  {
  }

  /** The row that a successful PUT leaves: the defaults overlaid with the payload, placed on its page. */
  function PutRow(cfg: Config, payload: Row): Result<Row>
    requires ValidConfig(cfg)
  {
    Placed(cfg, Overlay(cfg, cfg.defaults, payload))
  }

  lemma {:induction false} PutWrites(cfg: Config, st: State, req: Request)
    requires ValidConfig(cfg) && ValidState(cfg, st) && req.verb == Put
    requires Step(cfg, st, req).1.Success?
    ensures PutRow(cfg, req.payload).Success?
    ensures Step(cfg, st, req).0 == st.(rows := st.rows[req.uid := PutRow(cfg, req.payload).value])
  {
    assert st.rows[req.uid] + cfg.defaults == cfg.defaults;
  }

  /** After a successful PUT the row depends on uid, payload and configuration alone. */
  lemma {:induction false} PutDetermined(cfg: Config, st: State, st': State, req: Request)
    requires ValidConfig(cfg) && ValidState(cfg, st) && ValidState(cfg, st') && req.verb == Put
    requires Step(cfg, st, req).1.Success? && Step(cfg, st', req).1.Success?
    ensures Step(cfg, st, req).0.rows[req.uid] == Step(cfg, st', req).0.rows[req.uid]
  {
    PutWrites(cfg, st, req);
    PutWrites(cfg, st', req);
  }

  /** PUT is idempotent, whether its repetition succeeds or is refused (section 9.2.2 of RFC 9110). */
  lemma {:induction false} PutIdempotent(cfg: Config, st: State, req: Request)
    requires ValidConfig(cfg) && ValidState(cfg, st) && req.verb == Put
    ensures ValidState(cfg, Step(cfg, st, req).0)
    ensures Step(cfg, Step(cfg, st, req).0, req).0 == Step(cfg, st, req).0
  {
    var once := Step(cfg, st, req);
    StepKeepsValid(cfg, st, req);
    if once.1.Success? {
      PutWrites(cfg, st, req);
      if Step(cfg, once.0, req).1.Success? {
        PutWrites(cfg, once.0, req);
      }
    }
  }

  lemma {:induction false} DeleteIdempotent(cfg: Config, st: State, req: Request)
    requires ValidConfig(cfg) && ValidState(cfg, st) && req.verb == Delete
    ensures ValidState(cfg, Step(cfg, st, req).0)
    ensures Step(cfg, Step(cfg, st, req).0, req).0 == Step(cfg, st, req).0
  {
  }

  /** PATCH sets the writable properties of its payload and leaves the others as they are. */
  lemma {:induction false} PatchWrites(cfg: Config, st: State, req: Request)
    requires ValidConfig(cfg) && ValidState(cfg, st) && req.verb == Patch
    requires Step(cfg, st, req).1.Success?
    ensures req.uid in st.rows
    ensures var row := Step(cfg, st, req).0.rows[req.uid];
      && row.Keys == st.rows[req.uid].Keys
      && forall k :: k in row ==>
           row[k] == if k in req.payload && k in cfg.writable then req.payload[k] else st.rows[req.uid][k]
  {
  }

  lemma {:induction false} OverlayTwice(cfg: Config, properties: Row, p: Row, q: Row)
    ensures Overlay(cfg, Overlay(cfg, properties, p), q) == Overlay(cfg, properties, p + q)
  {
  }

  /** Two patches that succeed one after the other equal one patch with the right-biased union, which succeeds too. */
  lemma {:induction false} PatchesCompose(cfg: Config, st: State, uid: int, p: Row, q: Row)
    requires ValidConfig(cfg) && ValidState(cfg, st)
    requires Step(cfg, st, Request(Patch, uid, p)).1.Success?
    ensures ValidState(cfg, Step(cfg, st, Request(Patch, uid, p)).0)
    ensures var first := Step(cfg, st, Request(Patch, uid, p)).0;
      Step(cfg, first, Request(Patch, uid, q)).1.Success? ==>
        Step(cfg, st, Request(Patch, uid, p + q)) == Step(cfg, first, Request(Patch, uid, q))
  {
    var first := Step(cfg, st, Request(Patch, uid, p)).0;
    StepKeepsValid(cfg, st, Request(Patch, uid, p));
    OverlayTwice(cfg, st.rows[uid], p, q);
    assert first.rows[uid] == Overlay(cfg, st.rows[uid], p);
    assert st.rows[uid := Overlay(cfg, st.rows[uid], p)][uid := Overlay(cfg, st.rows[uid], p + q)] ==
           st.rows[uid := Overlay(cfg, st.rows[uid], p + q)];
  }

  /** POST adds exactly one row, under a uid never used before; deleting it again restores the table. */
  lemma {:induction false} DeleteUndoesPost(cfg: Config, st: State, post: Request)
    requires ValidConfig(cfg) && ValidState(cfg, st) && post.verb == Post
    requires Step(cfg, st, post).1.Success?
    ensures ValidState(cfg, Step(cfg, st, post).0)
    ensures var created := Step(cfg, st, post);
      && created.1.value == Some(Snapshot(Some(st.nextUid), created.0.rows[st.nextUid]))
      && PutRow(cfg, post.payload) == Success(created.0.rows[st.nextUid])
      && created.0.rows.Keys == st.rows.Keys + {st.nextUid} && st.nextUid !in st.rows
      && var deleted := Step(cfg, created.0, Request(Delete, st.nextUid, map[]));
         deleted.1.Success? ==> deleted.0.rows == st.rows
  {
    StepKeepsValid(cfg, st, post);
    var created := Step(cfg, st, post).0;
    assert created.rows - {st.nextUid} == st.rows;
  }

  // ---------------------------------------------------------------- runs

  function Run(cfg: Config, st: State, reqs: seq<Request>): (r: State)
    requires ValidConfig(cfg) && ValidState(cfg, st)
    ensures ValidState(cfg, r)
    decreases |reqs|
  {
    if reqs == [] then st
    else
      StepKeepsValid(cfg, st, reqs[0]);
      Run(cfg, Step(cfg, st, reqs[0]).0, reqs[1..])
  }

  /** The requests of a run that succeed. */
  function Succeeding(cfg: Config, st: State, reqs: seq<Request>): seq<Request>
    requires ValidConfig(cfg) && ValidState(cfg, st)
    decreases |reqs|
  {
    if reqs == [] then []
    else
      StepKeepsValid(cfg, st, reqs[0]);
      var (next, r) := Step(cfg, st, reqs[0]);
      (if r.Success? then [reqs[0]] else []) + Succeeding(cfg, next, reqs[1..])
  }

  /** Requests that fail can be dropped from a run without changing the database it leads to. */
  lemma {:induction false} FailuresLeaveNoTrace(cfg: Config, st: State, reqs: seq<Request>)
    requires ValidConfig(cfg) && ValidState(cfg, st)
    ensures Run(cfg, st, Succeeding(cfg, st, reqs)) == Run(cfg, st, reqs)
    decreases |reqs|
  {
    if reqs != [] {
      StepKeepsValid(cfg, st, reqs[0]);
      var (next, r) := Step(cfg, st, reqs[0]);
      var rest := Succeeding(cfg, next, reqs[1..]);
      FailuresLeaveNoTrace(cfg, next, reqs[1..]);
      if r.Success? {
        assert ([reqs[0]] + rest)[1..] == rest;
      } else {
        assert [] + rest == rest;
      }
    }
  }

  /** A uid that is gone stays gone: no run brings it back. */
  lemma {:induction false} UidsAreNotReused(cfg: Config, st: State, reqs: seq<Request>, u: int)
    requires ValidConfig(cfg) && ValidState(cfg, st)
    requires u < st.nextUid && u !in st.rows
    ensures u !in Run(cfg, st, reqs).rows
    decreases |reqs|
  {
    if reqs != [] {
      StepKeepsValid(cfg, st, reqs[0]);
      UidsAreNotReused(cfg, Step(cfg, st, reqs[0]).0, reqs[1..], u);
    }
  }

  /** A row that no request of a run addresses is the same after it. */
  lemma {:induction false} UnaddressedRowsStay(cfg: Config, st: State, reqs: seq<Request>, u: int)
    requires ValidConfig(cfg) && ValidState(cfg, st) && u in st.rows
    requires forall i :: 0 <= i < |reqs| && reqs[i].verb != Post && reqs[i].verb != Get ==> reqs[i].uid != u
    ensures u in Run(cfg, st, reqs).rows && Run(cfg, st, reqs).rows[u] == st.rows[u]
    decreases |reqs|
  {
    if reqs != [] {
      StepKeepsValid(cfg, st, reqs[0]);
      if reqs[0].verb != Get {
        StepTouchesOneRow(cfg, st, reqs[0], u);
      }
      assert forall i :: 0 <= i < |reqs[1..]| ==> reqs[1..][i] == reqs[i + 1];
      UnaddressedRowsStay(cfg, Step(cfg, st, reqs[0]).0, reqs[1..], u);
    }
  }
}
