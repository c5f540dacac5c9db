// octavia/api/v1/controllers/pool.py: PoolsController, reached under one
// listener. A listener has at most one pool, its default pool. Every write
// first marks the listener PENDING_UPDATE; a handler failure marks the
// listener's operating status ERROR (and, on delete, the pool's too). Any
// DBError of a write is reported as an invalid option.

module PoolController {
  import opened Values
  import opened Models
  import opened Repositories
  import opened CompoundRepositories
  import opened ControllerBase
  import ApiTypes
  import Handler

  const SESSION_PERSISTENCE := "session_persistence"

  /** get: the pool with that id, or NotFound. */
  method Get(s: Session, id: Value) returns (r: Result<Row>)
    requires s.Valid()
    ensures r.Err? <==> forall i :: 0 <= i < |s.tables[PoolT]| ==> DictGet(s.tables[PoolT][i], ID) != id
    ensures r.Err? ==> r.error == NotFound
    ensures r.Ok? ==> r.value in s.tables[PoolT] && DictGet(r.value, ID) == id
  {
    var db := Repositories.Get(s, PoolT, By(ID, id));
    if db.None? {
      forall i | 0 <= i < |s.tables[PoolT]| ensures DictGet(s.tables[PoolT][i], ID) != id {
        assert !Matches(s.tables[PoolT][i], By(ID, id));
      }
      return Err(NotFound);
    }
    assert Matches(db.value, By(ID, id));
    return Ok(db.value);
  }

  /**
   * get_all: the listener's default pool as a list of at most one; an
   * unknown listener makes `.default_pool` an attribute read on None.
   */
  method GetAll(s: Session, listenerId: Value) returns (r: Result<seq<Row>>)
    requires s.Valid()
    ensures r.Err? <==> RowById(s.tables, ListenerT, listenerId).None?
    ensures r.Err? ==> r.error == AttributeError
    ensures r.Ok? ==> var listener := RowById(s.tables, ListenerT, listenerId).value;
      |r.value| <= 1 &&
      (forall p :: p in r.value ==> p in s.tables[PoolT] && DictGet(p, ID) == DictGet(listener, DEFAULT_POOL_ID) != VNone) &&
      (r.value == [] <==> DictGet(listener, DEFAULT_POOL_ID) == VNone ||
                          forall i :: 0 <= i < |s.tables[PoolT]| ==> DictGet(s.tables[PoolT][i], ID) != DictGet(listener, DEFAULT_POOL_ID))
  {
    var listener := Repositories.Get(s, ListenerT, By(ID, listenerId));
    if listener.None? {
      return Err(AttributeError);
    }
    var pid := DictGet(listener.value, DEFAULT_POOL_ID);
    var pool := DefaultPool(s.tables, listener.value);
    if pool.None? {
      if pid != VNone {
        forall i | 0 <= i < |s.tables[PoolT]| ensures DictGet(s.tables[PoolT][i], ID) != pid {
          assert !Matches(s.tables[PoolT][i], By(ID, pid));
        }
      }
      return Ok([]);
    }
    var k := FirstIndex(s.tables[PoolT], By(ID, pid)).value;
    assert Matches(s.tables[PoolT][k], By(ID, pid));
    return Ok([pool.value]);
  }

  // --------------------------------------------------------------- post

  function PostResponse(tables: Tables, lookups: Lookups, listenerId: Value, poolDict: Dict, freshId: string, handlerFails: bool): Response
    requires Complete(tables)
  {
    match RowById(tables, ListenerT, listenerId)
    case None => Response(Err(AttributeError), tables, None)
    case Some(listener) =>
      if DefaultPool(tables, listener).Some? then Response(Err(DuplicatePoolEntry), tables, None)
      else
        var marked := SetStatus(tables, ListenerT, listenerId, PROVISIONING_STATUS, PENDING_UPDATE);
        SetStatusKeepsTables(tables, ListenerT, listenerId, PROVISIONING_STATUS, PENDING_UPDATE);
        CreateThenHandled(marked, lookups, listenerId, (poolDict - {SESSION_PERSISTENCE})[OPERATING_STATUS := OFFLINE],
                          DictGet(poolDict, SESSION_PERSISTENCE), freshId, handlerFails)
  }

  /** The second half of post: create the pool on the listener, then the handler with CREATE on the created pool. */
  function CreateThenHandled(tables: Tables, lookups: Lookups, listenerId: Value, d: Dict, sp: Value, freshId: string, handlerFails: bool): Response
    requires Complete(tables)
  {
    CreatePoolOnListenerKeepsTables(tables, lookups, listenerId, d, sp, freshId);
    AfterCreate(CreatePoolOnListenerOutcome(tables, lookups, listenerId, d, sp, freshId), listenerId, handlerFails)
  }

  /** What post does with the outcome `c` of create_pool_on_listener. */
  function AfterCreate(c: Outcome<Row>, listenerId: Value, handlerFails: bool): Response
    requires Complete(c.tables)
  {
    if c.result.Err? then Response(Err(InvalidOptionOnDBError(c.result.error)), c.tables, None)
    else ChildHandled(c.tables, PoolT, listenerId, Some(c.result.value), Handler.CREATE, handlerFails, false)
  }

  /**
   * post: DuplicatePoolEntry when the listener already has a pool;
   * otherwise the listener goes PENDING_UPDATE and the pool, OFFLINE and
   * without its session persistence field, is created as the listener's
   * default pool, the session persistence stored beside it.
   */
  method Post(s: Session, listenerId: Value, body: ApiTypes.ApiObj, freshId: string, handlerFails: bool) returns (r: Result<Row>, call: Option<HandlerCall>)
    requires s.Valid()
    modifies s
    ensures s.Valid()
    ensures Response(r, s.tables, call) == PostResponse(old(s.tables), s.lookups, listenerId, ApiTypes.Render(body, true), freshId, handlerFails)
  {
    var hasPool := HasPool(s, listenerId);
    if hasPool.Err? {
      return Err(hasPool.error), None;
    }
    if hasPool.value {
      return Err(DuplicatePoolEntry), None;
    }
    var poolDict := ApiTypes.ToDict(body, true);
    var sp := DictGet(poolDict, SESSION_PERSISTENCE);
    poolDict := poolDict - {SESSION_PERSISTENCE};
    poolDict := poolDict[OPERATING_STATUS := OFFLINE];
    WriteStatus(s, ListenerT, listenerId, PROVISIONING_STATUS, PENDING_UPDATE);
    r, call := CreateThenHandle(s, listenerId, poolDict, sp, freshId, handlerFails);
  }

  method CreateThenHandle(s: Session, listenerId: Value, d: Dict, sp: Value, freshId: string, handlerFails: bool) returns (r: Result<Row>, call: Option<HandlerCall>)
    requires s.Valid()
    modifies s
    ensures s.Valid()
    ensures Response(r, s.tables, call) == CreateThenHandled(old(s.tables), s.lookups, listenerId, d, sp, freshId, handlerFails)
  {
    var created := CreatePoolOnListener(s, listenerId, d, sp, freshId);
    if created.Err? {
      return Err(InvalidOptionOnDBError(created.error)), None;
    }
    r, call := ChildHandle(s, PoolT, listenerId, Some(created.value), Handler.CREATE, handlerFails, false);
  }

  // ---------------------------------------------------------------- put

  function PutResponse(tables: Tables, lookups: Lookups, listenerId: Value, id: Value, poolDict: Dict, handlerFails: bool): Response
    requires Complete(tables)
  {
    match RowById(tables, PoolT, id)
    case None => Response(Err(NotFound), tables, None)
    case Some(before) =>
      var marked := SetStatus(tables, ListenerT, listenerId, PROVISIONING_STATUS, PENDING_UPDATE);
      SetStatusKeepsTables(tables, ListenerT, listenerId, PROVISIONING_STATUS, PENDING_UPDATE);
      UpdateThenHandled(marked, lookups, listenerId, id, poolDict[OPERATING_STATUS := DictGet(before, OPERATING_STATUS)] - {SESSION_PERSISTENCE},
                        DictGet(poolDict, SESSION_PERSISTENCE), handlerFails)
  }

  /** The second half of put: update the pool and its session persistence, then the handler with UPDATE on the pool read back. */
  function UpdateThenHandled(tables: Tables, lookups: Lookups, listenerId: Value, id: Value, d: Dict, sp: Value, handlerFails: bool): Response
    requires Complete(tables)
  {
    UpdatePoolOnListenerKeepsTables(tables, lookups, id, d, sp);
    AfterUpdate(UpdatePoolOnListenerOutcome(tables, lookups, id, d, sp), listenerId, id, handlerFails)
  }

  /** What put does with the outcome `u` of update_pool_on_listener. */
  function AfterUpdate(u: Outcome<Row>, listenerId: Value, id: Value, handlerFails: bool): Response
    requires Complete(u.tables)
  {
    if u.result.Err? then Response(Err(InvalidOptionOnDBError(u.result.error)), u.tables, None)
    else ChildHandled(u.tables, PoolT, listenerId, RowById(u.tables, PoolT, id), Handler.UPDATE, handlerFails, false)
  }

  /**
   * put: NotFound for an unknown pool; otherwise the listener goes
   * PENDING_UPDATE and the pool gets the fields the request set with its
   * old operating status, the session persistence updated, created or
   * dropped beside it.
   */
  method Put(s: Session, listenerId: Value, id: Value, body: ApiTypes.ApiObj, handlerFails: bool) returns (r: Result<Row>, call: Option<HandlerCall>)
    requires s.Valid()
    modifies s
    ensures s.Valid()
    ensures Response(r, s.tables, call) == PutResponse(old(s.tables), s.lookups, listenerId, id, ApiTypes.Render(body, false), handlerFails)
  {
    var before := Repositories.Get(s, PoolT, By(ID, id));
    if before.None? {
      return Err(NotFound), None;
    }
    var poolDict := ApiTypes.ToDict(body, false);
    poolDict := poolDict[OPERATING_STATUS := DictGet(before.value, OPERATING_STATUS)];
    var sp := DictGet(poolDict, SESSION_PERSISTENCE);
    poolDict := poolDict - {SESSION_PERSISTENCE};
    WriteStatus(s, ListenerT, listenerId, PROVISIONING_STATUS, PENDING_UPDATE);
    r, call := UpdateThenHandle(s, listenerId, id, poolDict, sp, handlerFails);
  }

  method UpdateThenHandle(s: Session, listenerId: Value, id: Value, d: Dict, sp: Value, handlerFails: bool) returns (r: Result<Row>, call: Option<HandlerCall>)
    requires s.Valid()
    modifies s
    ensures s.Valid()
    ensures Response(r, s.tables, call) == UpdateThenHandled(old(s.tables), s.lookups, listenerId, id, d, sp, handlerFails)
  {
    ghost var before := s.tables;
    UpdatePoolOnListenerKeepsTables(before, s.lookups, id, d, sp);
    var u := UpdatePoolOnListener(s, id, d, sp);
    assert UpdateThenHandled(before, s.lookups, listenerId, id, d, sp, handlerFails) == AfterUpdate(Outcome(u, s.tables), listenerId, id, handlerFails);
    if u.Err? {
      return Err(InvalidOptionOnDBError(u.error)), None;
    }
    var db := Repositories.Get(s, PoolT, By(ID, id));
    r, call := ChildHandle(s, PoolT, listenerId, db, Handler.UPDATE, handlerFails, false);
  }

  // ------------------------------------------------------------- delete

  function DeleteResponse(tables: Tables, listenerId: Value, id: Value, handlerFails: bool): Response
    requires Complete(tables)
  {
    match RowById(tables, PoolT, id)
    case None => Response(Err(NotFound), tables, None)
    case Some(_) =>
      var marked := SetStatus(tables, ListenerT, listenerId, PROVISIONING_STATUS, PENDING_UPDATE);
      SetStatusKeepsTables(tables, ListenerT, listenerId, PROVISIONING_STATUS, PENDING_UPDATE);
      ChildHandled(marked, PoolT, listenerId, RowById(marked, PoolT, id), Handler.UPDATE, handlerFails, true)
  }

  /**
   * delete: NotFound for an unknown pool; otherwise the listener goes
   * PENDING_UPDATE and the handler gets the pool with UPDATE. No row is
   * removed.
   */
  method Delete(s: Session, listenerId: Value, id: Value, handlerFails: bool) returns (r: Result<Row>, call: Option<HandlerCall>)
    requires s.Valid()
    modifies s
    ensures s.Valid()
    ensures Response(r, s.tables, call) == DeleteResponse(old(s.tables), listenerId, id, handlerFails)
  {
    var db := Repositories.Get(s, PoolT, By(ID, id));
    if db.None? {
      return Err(NotFound), None;
    }
    WriteStatus(s, ListenerT, listenerId, PROVISIONING_STATUS, PENDING_UPDATE);
    db := Repositories.Get(s, PoolT, By(ID, id));
    r, call := ChildHandle(s, PoolT, listenerId, db, Handler.UPDATE, handlerFails, true);
  }

  // ----------------------------------------------------------- properties

  /** post on an unknown listener fails reading its default pool; put and delete refuse an unknown pool with NotFound. Nothing is written. */
  lemma {:induction false} UnknownIdsRefused(tables: Tables, lookups: Lookups, listenerId: Value, id: Value, poolDict: Dict, freshId: string, handlerFails: bool)
    requires Complete(tables)
    ensures !AnyMatch(tables[ListenerT], By(ID, listenerId)) ==>
      PostResponse(tables, lookups, listenerId, poolDict, freshId, handlerFails) == Response(Err(AttributeError), tables, None)
    ensures !AnyMatch(tables[PoolT], By(ID, id)) ==>
      PutResponse(tables, lookups, listenerId, id, poolDict, handlerFails) == Response(Err(NotFound), tables, None) &&
      DeleteResponse(tables, listenerId, id, handlerFails) == Response(Err(NotFound), tables, None)
  {
  }

  /**
   * post on a listener whose default_pool_id names an existing pool:
   * DuplicatePoolEntry, before anything is written.
   */
  lemma {:induction false} PostRefusesSecondPool(tables: Tables, lookups: Lookups, i: nat, j: nat, poolDict: Dict, freshId: string, handlerFails: bool)
    requires Valid(tables) && i < |tables[ListenerT]| && j < |tables[PoolT]|
    requires DictGet(tables[PoolT][j], ID) == DictGet(tables[ListenerT][i], DEFAULT_POOL_ID)
    ensures PostResponse(tables, lookups, DictGet(tables[ListenerT][i], ID), poolDict, freshId, handlerFails) ==
            Response(Err(DuplicatePoolEntry), tables, None)
  {
    var listener := tables[ListenerT][i];
    GetById(tables, ListenerT, i);
    assert TableValid(PoolT, tables[PoolT]) && NotNullOk(PoolT, tables[PoolT][j]);
    assert Matches(tables[PoolT][j], By(ID, DictGet(listener, DEFAULT_POOL_ID)));
    assert DefaultPool(tables, listener).Some?;
  }

  /**
   * The create step of post: a failed create_pool_on_listener changes
   * nothing and calls no handler; otherwise the pool gets the fresh id and
   * is appended, the listener names it as default pool, the handler gets it
   * with CREATE, and the listener is in ERROR exactly when the handler
   * raised.
   */
  lemma {:induction false} CreateThenHandledStores(tables: Tables, lookups: Lookups, listenerId: Value, listener: Row, d: Dict, sp: Value, freshId: string, handlerFails: bool)
    requires Valid(tables) && Unused(tables, freshId) && RowById(tables, ListenerT, listenerId) == Some(listener)
    ensures var o := CreateThenHandled(tables, lookups, listenerId, d, sp, freshId, handlerFails);
      o.result.Err? ==> o.tables == tables && o.call.None? && !IsDBError(o.result.error)
    ensures var o := CreateThenHandled(tables, lookups, listenerId, d, sp, freshId, handlerFails);
      var pool := d[ID := VStr(freshId)];
      var linked := listener[DEFAULT_POOL_ID := VStr(freshId)];
      o.result.Ok? ==>
        o.result.value == pool && o.call == Some(HandlerCall(Some(pool), Handler.CREATE)) &&
        PoolT in o.tables && o.tables[PoolT] == tables[PoolT] + [pool] &&
        ListenerT in o.tables &&
        RowById(o.tables, ListenerT, listenerId) == Some(if handlerFails then linked[OPERATING_STATUS := ERROR] else linked)
  {
    var c := CreatePoolOnListenerOutcome(tables, lookups, listenerId, d, sp, freshId);
    CreatePoolOnListenerLinks(tables, lookups, listenerId, d, sp, freshId);
    CreatePoolOnListenerReturnsPool(tables, lookups, listenerId, d, sp, freshId);
    CreatePoolOnListenerKeepsTables(tables, lookups, listenerId, d, sp, freshId);
    assert CreateThenHandled(tables, lookups, listenerId, d, sp, freshId, handlerFails) == AfterCreate(c, listenerId, handlerFails);
    if c.result.Ok? {
      var pool := c.result.value;
      LinkedListener(tables[ListenerT], listenerId, listener, freshId);
      AfterCreateOk(c, listenerId, pool, listener[DEFAULT_POOL_ID := VStr(freshId)], handlerFails);
    }
  }

  /** The handler step of post on the pool create_pool_on_listener stored. */
  lemma {:induction false} AfterCreateOk(c: Outcome<Row>, listenerId: Value, pool: Row, linked: Row, handlerFails: bool)
    requires Complete(c.tables) && c.result == Ok(pool)
    requires FirstMatch(c.tables[PoolT], By(ID, DictGet(pool, ID))) == Some(pool)
    requires RowById(c.tables, ListenerT, listenerId) == Some(linked)
    ensures var o := AfterCreate(c, listenerId, handlerFails);
      o.result == Ok(pool) && o.call == Some(HandlerCall(Some(pool), Handler.CREATE)) &&
      PoolT in o.tables && o.tables[PoolT] == c.tables[PoolT] &&
      ListenerT in o.tables &&
      RowById(o.tables, ListenerT, listenerId) == Some(if handlerFails then linked[OPERATING_STATUS := ERROR] else linked)
  {
    ChildHandledExisting(c.tables, PoolT, listenerId, pool, Handler.CREATE, handlerFails, false);
    ChildHandledUnmarked(c.tables, PoolT, listenerId, Some(pool), Handler.CREATE, handlerFails);
  }

  /** The listener create_pool_on_listener linked: `get` finds it with the new default_pool_id. */
  lemma {:induction false} LinkedListener(rows: seq<Row>, listenerId: Value, listener: Row, freshId: string)
    requires FirstMatch(rows, By(ID, listenerId)) == Some(listener)
    ensures FirstMatch(UpdatedRows(rows, By(ID, listenerId), map[DEFAULT_POOL_ID := VStr(freshId)]), By(ID, listenerId)) ==
            Some(listener[DEFAULT_POOL_ID := VStr(freshId)])
  {
    var kw := map[DEFAULT_POOL_ID := VStr(freshId)];
    UpdateKeepsFirstMatch(rows, By(ID, listenerId), kw);
    UpdateOneKey(listener, DEFAULT_POOL_ID, VStr(freshId));
  }

  /**
   * post on a listener without a pool: the listener goes PENDING_UPDATE
   * whatever follows. A failed create stores nothing more, calls no handler
   * and is not reported as a database error. Otherwise the pool, OFFLINE,
   * without a session persistence field and under the fresh id, is appended
   * and returned; the handler gets it with CREATE; the listener names it as
   * its default pool and is in ERROR exactly when the handler raised.
   */
  lemma {:induction false} PostCreatesPool(tables: Tables, lookups: Lookups, i: nat, poolDict: Dict, freshId: string, handlerFails: bool)
    requires Valid(tables) && Seeded(lookups) && i < |tables[ListenerT]|
    requires DefaultPool(tables, tables[ListenerT][i]).None?
    requires Unused(tables, freshId) && VStr(freshId) != PENDING_UPDATE
    ensures var listener := tables[ListenerT][i];
      var listenerId := DictGet(listener, ID);
      var o := PostResponse(tables, lookups, listenerId, poolDict, freshId, handlerFails);
      o.result.Err? ==>
        o.tables == SetStatus(tables, ListenerT, listenerId, PROVISIONING_STATUS, PENDING_UPDATE) &&
        o.call.None? && !IsDBError(o.result.error)
    ensures var listener := tables[ListenerT][i];
      var listenerId := DictGet(listener, ID);
      var o := PostResponse(tables, lookups, listenerId, poolDict, freshId, handlerFails);
      var linked := listener[PROVISIONING_STATUS := PENDING_UPDATE][DEFAULT_POOL_ID := VStr(freshId)];
      o.result.Ok? ==>
        var pool := o.result.value;
        DictGet(pool, ID) == VStr(freshId) && DictGet(pool, OPERATING_STATUS) == OFFLINE && SESSION_PERSISTENCE !in pool &&
        o.call == Some(HandlerCall(Some(pool), Handler.CREATE)) &&
        PoolT in o.tables && o.tables[PoolT] == tables[PoolT] + [pool] &&
        ListenerT in o.tables &&
        RowById(o.tables, ListenerT, listenerId) == Some(if handlerFails then linked[OPERATING_STATUS := ERROR] else linked)
  {
    var listener := tables[ListenerT][i];
    var listenerId := DictGet(listener, ID);
    GetById(tables, ListenerT, i);
    var marked := SetStatus(tables, ListenerT, listenerId, PROVISIONING_STATUS, PENDING_UPDATE);
    StatusWriteSucceeds(tables, lookups, ListenerT, listenerId, PROVISIONING_STATUS, PENDING_UPDATE);
    StatusWriteKeepsRow(tables, ListenerT, listenerId, PROVISIONING_STATUS, PENDING_UPDATE);
    StatusWriteKeepsUnused(tables, ListenerT, listenerId, PROVISIONING_STATUS, PENDING_UPDATE, freshId);
    var d := (poolDict - {SESSION_PERSISTENCE})[OPERATING_STATUS := OFFLINE];
    var sp := DictGet(poolDict, SESSION_PERSISTENCE);
    assert PostResponse(tables, lookups, listenerId, poolDict, freshId, handlerFails) ==
           CreateThenHandled(marked, lookups, listenerId, d, sp, freshId, handlerFails);
    CreateThenHandledStores(marked, lookups, listenerId, listener[PROVISIONING_STATUS := PENDING_UPDATE], d, sp, freshId, handlerFails);
    PostPoolShape(poolDict, freshId);
    assert marked[PoolT] == tables[PoolT];
  }

  /** The pool row post stores: the fresh id, OFFLINE, and no session persistence field. */
  lemma {:induction false} PostPoolShape(poolDict: Dict, freshId: string)
    ensures var pool := (poolDict - {SESSION_PERSISTENCE})[OPERATING_STATUS := OFFLINE][ID := VStr(freshId)];
      DictGet(pool, ID) == VStr(freshId) && DictGet(pool, OPERATING_STATUS) == OFFLINE && SESSION_PERSISTENCE !in pool
  {
    assert SESSION_PERSISTENCE[0] != OPERATING_STATUS[0] && SESSION_PERSISTENCE[0] != ID[0];
    assert OPERATING_STATUS[0] != ID[0];
  }

  /**
   * The update step of put on a pool `get` finds: a failed
   * update_pool_on_listener changes nothing and calls no handler; otherwise
   * the pool row is the old one with the written fields, the handler gets it
   * with UPDATE, no pool comes or goes, and the listener's operating status
   * is ERROR exactly when the handler raised.
   */
  lemma {:induction false} UpdateThenHandledWrites(tables: Tables, lookups: Lookups, listenerId: Value, row: Row, d: Dict, sp: Value, handlerFails: bool)
    requires Complete(tables) && RowById(tables, PoolT, DictGet(row, ID)) == Some(row)
    ensures var o := UpdateThenHandled(tables, lookups, listenerId, DictGet(row, ID), d, sp, handlerFails);
      o.result.Err? ==>
        o.tables == tables && o.call.None? && !IsDBError(o.result.error) &&
        (RepeatsParameter(PoolT, d) ==> o.result.error == TypeError)
    ensures var o := UpdateThenHandled(tables, lookups, listenerId, DictGet(row, ID), d, sp, handlerFails);
      o.result.Ok? ==>
        o.result.value == row + d && o.call == Some(HandlerCall(Some(row + d), Handler.UPDATE)) &&
        PoolT in o.tables && |o.tables[PoolT]| == |tables[PoolT]| &&
        ListenerT in o.tables &&
        RowById(o.tables, ListenerT, listenerId) ==
          match RowById(tables, ListenerT, listenerId)
          case None => None
          case Some(l) => Some(if handlerFails then l[OPERATING_STATUS := ERROR] else l)
  {
    var id := DictGet(row, ID);
    assert Matches(row, By(ID, id));
    UpdatePoolOnListenerWritesPool(tables, lookups, id, d, sp);
    UpdatePoolOnListenerKeepsTables(tables, lookups, id, d, sp);
    var u := UpdatePoolOnListenerOutcome(tables, lookups, id, d, sp);
    assert UpdateThenHandled(tables, lookups, listenerId, id, d, sp, handlerFails) == AfterUpdate(u, listenerId, id, handlerFails);
    if u.result.Ok? {
      UpdatedPoolHandled(tables, u.tables, listenerId, row, d, handlerFails);
    }
  }

  /** The handler step once update_pool_on_listener committed the written fields into the pool `row`. */
  lemma {:induction false} UpdatedPoolHandled(tables: Tables, u: Tables, listenerId: Value, row: Row, d: Dict, handlerFails: bool)
    requires Complete(tables) && u.Keys == tables.Keys
    requires ID in d ==> d[ID] == DictGet(row, ID)
    requires RowById(u, PoolT, DictGet(row, ID)) == Some(row + d)
    requires u[PoolT] == UpdatedRows(tables[PoolT], By(ID, DictGet(row, ID)), d) && u[ListenerT] == tables[ListenerT]
    ensures var o := ChildHandled(u, PoolT, listenerId, RowById(u, PoolT, DictGet(row, ID)), Handler.UPDATE, handlerFails, false);
      o.result.Ok? && o.result.value == row + d && o.call == Some(HandlerCall(Some(row + d), Handler.UPDATE)) &&
      PoolT in o.tables && |o.tables[PoolT]| == |tables[PoolT]| &&
      ListenerT in o.tables &&
      RowById(o.tables, ListenerT, listenerId) ==
        match RowById(tables, ListenerT, listenerId)
        case None => None
        case Some(l) => Some(if handlerFails then l[OPERATING_STATUS := ERROR] else l)
  {
    assert DictGet(row + d, ID) == DictGet(row, ID);
    PoolHandled(u, listenerId, row + d, Handler.UPDATE, handlerFails, false);
  }

  /** ChildHandledExisting for a pool, which `get` finds under its id. */
  lemma {:induction false} PoolHandled(tables: Tables, listenerId: Value, row: Row, change: Handler.ChangeType, handlerFails: bool, markEntity: bool)
    requires Complete(tables) && RowById(tables, PoolT, DictGet(row, ID)) == Some(row)
    ensures var o := ChildHandled(tables, PoolT, listenerId, RowById(tables, PoolT, DictGet(row, ID)), change, handlerFails, markEntity);
      o.call == Some(HandlerCall(Some(row), change)) &&
      o.result == Ok(if handlerFails && markEntity then row[OPERATING_STATUS := ERROR] else row) &&
      PoolT in o.tables && |o.tables[PoolT]| == |tables[PoolT]| &&
      ListenerT in o.tables &&
      RowById(o.tables, ListenerT, listenerId) ==
        match RowById(tables, ListenerT, listenerId)
        case None => None
        case Some(l) => Some(if handlerFails then l[OPERATING_STATUS := ERROR] else l)
  {
    ChildHandledExisting(tables, PoolT, listenerId, row, change, handlerFails, markEntity);
  }

  /**
   * put on an existing pool: the listener goes PENDING_UPDATE whatever
   * follows. A failed update writes nothing more, calls no handler and is
   * not reported as a database error. Otherwise the pool keeps its
   * operating status and takes the request's other fields, minus the
   * session persistence, which the pool has afterwards exactly when the
   * request carried a truthy one; the handler gets the updated pool with
   * UPDATE; the listener is in ERROR exactly when the handler raised.
   */
  lemma {:induction false} PutKeepsOperatingStatus(tables: Tables, lookups: Lookups, listenerId: Value, row: Row, poolDict: Dict, handlerFails: bool)
    requires Complete(tables) && RowById(tables, PoolT, DictGet(row, ID)) == Some(row)
    ensures var o := PutResponse(tables, lookups, listenerId, DictGet(row, ID), poolDict, handlerFails);
      o.result.Err? ==>
        o.tables == SetStatus(tables, ListenerT, listenerId, PROVISIONING_STATUS, PENDING_UPDATE) &&
        o.call.None? && !IsDBError(o.result.error) &&
        (RepeatsParameter(PoolT, poolDict) ==> o.result.error == TypeError)
    ensures var o := PutResponse(tables, lookups, listenerId, DictGet(row, ID), poolDict, handlerFails);
      o.result.Ok? ==>
        var updated := o.result.value;
        DictGet(updated, OPERATING_STATUS) == DictGet(row, OPERATING_STATUS) &&
        (forall c :: c in poolDict && c != OPERATING_STATUS && c != SESSION_PERSISTENCE ==> DictGet(updated, c) == poolDict[c]) &&
        (forall c :: c !in poolDict && c != OPERATING_STATUS ==> DictGet(updated, c) == DictGet(row, c)) &&
        o.call == Some(HandlerCall(Some(updated), Handler.UPDATE)) &&
        PoolT in o.tables && |o.tables[PoolT]| == |tables[PoolT]| &&
        ListenerT in o.tables &&
        RowById(o.tables, ListenerT, listenerId) == ListenerMarked(RowById(tables, ListenerT, listenerId), handlerFails)
  {
    var id := DictGet(row, ID);
    PutDictRepeats(poolDict, DictGet(row, OPERATING_STATUS));
    var marked := SetStatus(tables, ListenerT, listenerId, PROVISIONING_STATUS, PENDING_UPDATE);
    MarkedListenerHandled(tables, listenerId, handlerFails);
    SetStatusKeepsTables(tables, ListenerT, listenerId, PROVISIONING_STATUS, PENDING_UPDATE);
    var d := poolDict[OPERATING_STATUS := DictGet(row, OPERATING_STATUS)] - {SESSION_PERSISTENCE};
    var sp := DictGet(poolDict, SESSION_PERSISTENCE);
    assert PutResponse(tables, lookups, listenerId, id, poolDict, handlerFails) ==
           UpdateThenHandled(marked, lookups, listenerId, id, d, sp, handlerFails);
    UpdateThenHandledWrites(marked, lookups, listenerId, row, d, sp, handlerFails);
    PutColumns(row, poolDict);
  }

  /** The fields put hands to the pool update repeat a parameter exactly when the request's do. */
  lemma {:induction false} PutDictRepeats(poolDict: Dict, operating: Value)
    ensures RepeatsParameter(PoolT, poolDict[OPERATING_STATUS := operating] - {SESSION_PERSISTENCE}) == RepeatsParameter(PoolT, poolDict)
  {
    StatusKeyRepeatsNothing(PoolT, poolDict, OPERATING_STATUS, operating);
    assert |SESSION_PERSISTENCE| != |SESSION| && SESSION_PERSISTENCE[0] != ID[0] && KeyColumn(PoolT) == ID;
  }

  /** The pool row put writes: the request's fields but its session persistence, and the old operating status. */
  lemma {:induction false} PutColumns(row: Row, poolDict: Dict)
    ensures var updated := row + (poolDict[OPERATING_STATUS := DictGet(row, OPERATING_STATUS)] - {SESSION_PERSISTENCE});
      DictGet(updated, OPERATING_STATUS) == DictGet(row, OPERATING_STATUS) &&
      (forall c :: c in poolDict && c != OPERATING_STATUS && c != SESSION_PERSISTENCE ==> DictGet(updated, c) == poolDict[c]) &&
      (forall c :: c !in poolDict && c != OPERATING_STATUS ==> DictGet(updated, c) == DictGet(row, c))
  {
  }

  /**
   * put on an existing pool that succeeds: the pool has a session
   * persistence afterwards exactly when the request carried a truthy one.
   */
  lemma {:induction false} PutKeepsPersistenceIffGiven(tables: Tables, lookups: Lookups, listenerId: Value, i: nat, poolDict: Dict, handlerFails: bool)
    requires Valid(tables) && Seeded(lookups) && i < |tables[PoolT]|
    requires var sp := DictGet(poolDict, SESSION_PERSISTENCE);
      sp.VDict? ==> POOL_ID !in sp.entries || sp.entries[POOL_ID] == DictGet(tables[PoolT][i], ID)
    ensures var id := DictGet(tables[PoolT][i], ID);
      var o := PutResponse(tables, lookups, listenerId, id, poolDict, handlerFails);
      o.result.Ok? ==> (SessionPersistenceT in o.tables &&
        (AnyMatch(o.tables[SessionPersistenceT], By(POOL_ID, id)) <==> Truthy(DictGet(poolDict, SESSION_PERSISTENCE))))
  {
    var row := tables[PoolT][i];
    var id := DictGet(row, ID);
    GetById(tables, PoolT, i);
    var marked := SetStatus(tables, ListenerT, listenerId, PROVISIONING_STATUS, PENDING_UPDATE);
    StatusWriteSucceeds(tables, lookups, ListenerT, listenerId, PROVISIONING_STATUS, PENDING_UPDATE);
    SetStatusKeepsTables(tables, ListenerT, listenerId, PROVISIONING_STATUS, PENDING_UPDATE);
    var d := poolDict[OPERATING_STATUS := DictGet(row, OPERATING_STATUS)] - {SESSION_PERSISTENCE};
    var sp := DictGet(poolDict, SESSION_PERSISTENCE);
    assert marked[PoolT] == tables[PoolT];
    assert PutResponse(tables, lookups, listenerId, id, poolDict, handlerFails) ==
           UpdateThenHandled(marked, lookups, listenerId, id, d, sp, handlerFails);
    var u := UpdatePoolOnListenerOutcome(marked, lookups, id, d, sp);
    UpdatePoolKeepsPersistenceIffGiven(marked, lookups, id, d, sp);
    UpdatePoolOnListenerKeepsTables(marked, lookups, id, d, sp);
    if u.result.Ok? {
      ChildHandledKeepsTable(u.tables, PoolT, listenerId, RowById(u.tables, PoolT, id), Handler.UPDATE, handlerFails, false, SessionPersistenceT);
    }
  }

  /**
   * delete on an existing pool: the listener goes PENDING_UPDATE, the
   * handler gets the pool with UPDATE, and the pool stays in the table.
   * When the handler raises, both the listener's and the pool's operating
   * status become ERROR.
   */
  lemma {:induction false} DeleteMarksListener(tables: Tables, listenerId: Value, i: nat, handlerFails: bool)
    requires Valid(tables) && i < |tables[PoolT]|
    ensures var row := tables[PoolT][i];
      var o := DeleteResponse(tables, listenerId, DictGet(row, ID), handlerFails);
      o.result == Ok(if handlerFails then row[OPERATING_STATUS := ERROR] else row) &&
      o.call == Some(HandlerCall(Some(row), Handler.UPDATE)) &&
      PoolT in o.tables && |o.tables[PoolT]| == |tables[PoolT]| &&
      ListenerT in o.tables &&
      RowById(o.tables, ListenerT, listenerId) == ListenerMarked(RowById(tables, ListenerT, listenerId), handlerFails)
  {
    var row := tables[PoolT][i];
    var id := DictGet(row, ID);
    GetById(tables, PoolT, i);
    var marked := SetStatus(tables, ListenerT, listenerId, PROVISIONING_STATUS, PENDING_UPDATE);
    MarkedListenerHandled(tables, listenerId, handlerFails);
    SetStatusKeepsTables(tables, ListenerT, listenerId, PROVISIONING_STATUS, PENDING_UPDATE);
    assert marked[PoolT] == tables[PoolT];
    assert DeleteResponse(tables, listenerId, id, handlerFails) ==
           ChildHandled(marked, PoolT, listenerId, Some(row), Handler.UPDATE, handlerFails, true);
    ChildHandledExisting(marked, PoolT, listenerId, row, Handler.UPDATE, handlerFails, true);
  }
}
