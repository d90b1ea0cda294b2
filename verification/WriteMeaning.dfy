/** Which write requests succeed and what they leave, in terms of the request, the stored rows and the settings. */
module WriteMeaning {
  import opened Wrappers
  import opened WriteModel

  /** The values of `base`, except where the payload gives a writable property. */
  predicate IsOver(cfg: Config, base: Row, payload: Row, row: Row) {
    && row.Keys == base.Keys
    && forall k :: k in base ==> row[k] == if k in payload && k in cfg.writable then payload[k] else base[k]
  }

  /** Access after deserialization, and validation, of an object with these values. */
  predicate Passes(cfg: Config, verb: Verb, uid: Option<int>, row: Row) {
    cfg.isGrantedPostDenormalize(verb, Snapshot(uid, row)) && cfg.isValid(Snapshot(uid, row))
  }

  /** The values stored under a uid are granted. */
  predicate GrantedOn(cfg: Config, verb: Verb, st: State, uid: int)
    requires uid in st.rows
  {
    cfg.isGranted(verb, Some(Snapshot(Some(uid), st.rows[uid])))
  }

  /** The first check that fails: access before and after deserialization, validation, the page. */
  function Refusal(cfg: Config, verb: Verb, granted: bool, uid: Option<int>, row: Row): string {
    if !granted || !cfg.isGrantedPostDenormalize(verb, Snapshot(uid, row)) then "operation not allowed"
    else if !cfg.isValid(Snapshot(uid, row)) then "validation failed"
    else "not allowed storage pid"
  }

  /** A page given by the client is one of those allowed, where storage pages are configured. */
  predicate PageAllowed(cfg: Config, row: Row) {
    "pid" in row && row["pid"].Number? && row["pid"].i > 0 && cfg.storagePids != [] ==>
      row["pid"].i in cfg.allowedPids
  }

  /** The values, with the first storage page standing in for a page that is null. */
  predicate IsPlaced(cfg: Config, row: Row, placed: Row) {
    && placed.Keys == row.Keys
    && (forall k :: k in row && k != "pid" ==> placed[k] == row[k])
    && ("pid" in row ==>
          placed["pid"] == if row["pid"] == Null && cfg.storagePids != [] && cfg.storagePids[0] > 0
                           then Number(cfg.storagePids[0]) else row["pid"])
  }

  /** The row of one uid is the given one; the others are as before. */
  predicate OnlyRow(before: State, after: State, uid: int, row: Row) {
    && after.rows.Keys == before.rows.Keys + {uid} && after.rows[uid] == row
    && forall u :: u in before.rows && u != uid ==> after.rows[u] == before.rows[u]
  }

  lemma {:induction false} OverlayIsOver(cfg: Config, base: Row, payload: Row, row: Row)
    requires cfg.writable <= base.Keys
    ensures IsOver(cfg, base, payload, row) <==> row == Overlay(cfg, base, payload)
  {
    var overlay := Overlay(cfg, base, payload);
    assert overlay.Keys == base.Keys;
    if IsOver(cfg, base, payload, row) {
      assert forall k :: k in base ==> row[k] == overlay[k];
    }
  }

  lemma {:induction false} PlacedIs(cfg: Config, row: Row)
    requires "pid" in row
    ensures Placed(cfg, row).Success? <==> PageAllowed(cfg, row)
    ensures Placed(cfg, row).Success? ==> IsPlaced(cfg, row, Placed(cfg, row).value)
  {
  }

  /**
   POST succeeds exactly when the operation is granted, and the defaults overlaid with the payload are
   granted, valid and on an allowed page. It adds that object under the next uid and returns it.
   */
  lemma {:induction false} PostSucceeds(cfg: Config, st: State, req: Request, row: Row)
    requires ValidConfig(cfg) && ValidState(cfg, st) && req.verb == Post
    requires IsOver(cfg, cfg.defaults, req.payload, row)
    ensures var (after, r) := Step(cfg, st, req);
      && (r.Success? <==> cfg.isGranted(Post, None) && Passes(cfg, Post, None, row) && PageAllowed(cfg, row))
      && (r.Failure? ==> after == st && r.error == Refusal(cfg, Post, cfg.isGranted(Post, None), None, row))
      && (r.Success? ==> after.nextUid == st.nextUid + 1 && exists placed ::
            && IsPlaced(cfg, row, placed) && OnlyRow(st, after, st.nextUid, placed)
            && r.value == Some(Snapshot(Some(st.nextUid), placed)))
  {
    OverlayIsOver(cfg, cfg.defaults, req.payload, row);
    PlacedIs(cfg, row);
    hide Overlay, Placed, IsOver, IsPlaced, PageAllowed;
    var (after, r) := Step(cfg, st, req);
    if r.Success? {
      assert OnlyRow(st, after, st.nextUid, Placed(cfg, row).value);
    }
  }

  /**
   PUT succeeds exactly when the row is there, its stored values are granted, and the defaults overlaid
   with the payload are granted, valid and on an allowed page. They replace the row.
   */
  lemma {:induction false} PutSucceeds(cfg: Config, st: State, req: Request, row: Row)
    requires ValidConfig(cfg) && ValidState(cfg, st) && req.verb == Put
    requires IsOver(cfg, cfg.defaults, req.payload, row)
    ensures var (after, r) := Step(cfg, st, req);
      && (r.Success? <==>
            && req.uid in st.rows && GrantedOn(cfg, Put, st, req.uid)
            && Passes(cfg, Put, Some(req.uid), row) && PageAllowed(cfg, row))
      && (r.Failure? ==> after == st)
      && (r.Failure? && req.uid !in st.rows ==> r.error == "resource not found")
      && (r.Failure? && req.uid in st.rows ==>
            r.error == Refusal(cfg, Put, GrantedOn(cfg, Put, st, req.uid), Some(req.uid), row))
      && (r.Success? ==> after.nextUid == st.nextUid && exists placed ::
            && IsPlaced(cfg, row, placed) && OnlyRow(st, after, req.uid, placed)
            && r.value == Some(Snapshot(Some(req.uid), placed)))
  {
    OverlayIsOver(cfg, cfg.defaults, req.payload, row);
    PlacedIs(cfg, row);
    hide Overlay, Placed, IsOver, IsPlaced, PageAllowed;
    var (after, r) := Step(cfg, st, req);
    if req.uid in st.rows {
      assert st.rows[req.uid] + cfg.defaults == cfg.defaults;
    }
    if r.Success? {
      assert OnlyRow(st, after, req.uid, Placed(cfg, row).value);
    }
  }

  /**
   PATCH succeeds exactly when the row is there, its stored values are granted, and these overlaid with
   the payload are granted and valid. No page is checked. They replace the row.
   */
  lemma {:induction false} PatchSucceeds(cfg: Config, st: State, req: Request, row: Row)
    requires ValidConfig(cfg) && ValidState(cfg, st) && req.verb == Patch
    requires req.uid in st.rows ==> IsOver(cfg, st.rows[req.uid], req.payload, row)
    ensures var (after, r) := Step(cfg, st, req);
      && (r.Success? <==>
            && req.uid in st.rows && GrantedOn(cfg, Patch, st, req.uid)
            && Passes(cfg, Patch, Some(req.uid), row))
      && (r.Failure? ==> after == st)
      && (r.Failure? && req.uid !in st.rows ==> r.error == "resource not found")
      && (r.Failure? && req.uid in st.rows ==>
            r.error == Refusal(cfg, Patch, GrantedOn(cfg, Patch, st, req.uid), Some(req.uid), row))
      && (r.Success? ==>
            && after.nextUid == st.nextUid && OnlyRow(st, after, req.uid, row)
            && r.value == Some(Snapshot(Some(req.uid), row)))
  {
    if req.uid in st.rows {
      OverlayIsOver(cfg, st.rows[req.uid], req.payload, row);
    }
    hide Overlay, IsOver;
  }

  /** GET and DELETE succeed exactly when the row is there and its values are granted. */
  lemma {:induction false} ItemSucceeds(cfg: Config, st: State, req: Request)
    requires ValidConfig(cfg) && ValidState(cfg, st) && (req.verb == Get || req.verb == Delete)
    ensures var (after, r) := Step(cfg, st, req);
      && (r.Success? <==> req.uid in st.rows && GrantedOn(cfg, req.verb, st, req.uid))
      && (r.Failure? || req.verb == Get ==> after == st)
      && (r.Failure? ==>
            r.error == if req.uid !in st.rows then "resource not found" else "operation not allowed")
      && (r.Success? && req.verb == Get ==> r.value == Some(Snapshot(Some(req.uid), st.rows[req.uid])))
      && (r.Success? && req.verb == Delete ==>
            && r.value == None && after.nextUid == st.nextUid
            && after.rows.Keys == st.rows.Keys - {req.uid}
            && forall u :: u in after.rows ==> after.rows[u] == st.rows[u])
  {
  }
}
