// octavia/api/v1/controllers/health_monitor.py: HealthMonitorController,
// reached under one pool of one listener. A pool has at most one health
// monitor, and the monitor is found by the pool's id, never by an id of its
// own. Every write first marks the listener PENDING_UPDATE; a handler
// failure marks the listener's operating status ERROR. Any DBError of a
// write is reported as an invalid `type` option.

module HealthMonitorController {
  import opened Values
  import opened Models
  import opened Repositories
  import opened ControllerBase
  import ApiTypes
  import Handler

  /** `health_monitor.get(pool_id=...)`: the pool's monitor, if it has one. */
  function MonitorOf(tables: Tables, poolId: Value): Option<Row>
    requires HealthMonitorT in tables
  {
    FirstMatch(tables[HealthMonitorT], By(POOL_ID, poolId))
  }

  /** The monitor table generates no id, so `create` needs no fresh one. */
  const NO_FRESH_ID := ""

  /** get_all: the pool's single monitor, or NotFound. */
  method GetAll(s: Session, poolId: Value) returns (r: Result<Row>)
    requires s.Valid()
    ensures r.Err? <==> forall i :: 0 <= i < |s.tables[HealthMonitorT]| ==> DictGet(s.tables[HealthMonitorT][i], POOL_ID) != poolId
    ensures r.Err? ==> r.error == NotFound
    ensures r.Ok? ==> r.value in s.tables[HealthMonitorT] && DictGet(r.value, POOL_ID) == poolId
  {
    var db := Repositories.Get(s, HealthMonitorT, By(POOL_ID, poolId));
    if db.None? {
      forall i | 0 <= i < |s.tables[HealthMonitorT]| ensures DictGet(s.tables[HealthMonitorT][i], POOL_ID) != poolId {
        assert !Matches(s.tables[HealthMonitorT][i], By(POOL_ID, poolId));
      }
      return Err(NotFound);
    }
    assert Matches(db.value, By(POOL_ID, poolId));
    return Ok(db.value);
  }

  // --------------------------------------------------------------- post

  function PostResponse(tables: Tables, lookups: Lookups, listenerId: Value, poolId: Value, hmDict: Dict, handlerFails: bool): Response
    requires Complete(tables)
  {
    if MonitorOf(tables, poolId).Some? then Response(Err(DuplicateHealthMonitor), tables, None)
    else
      var marked := SetStatus(tables, ListenerT, listenerId, PROVISIONING_STATUS, PENDING_UPDATE);
      SetStatusKeepsTables(tables, ListenerT, listenerId, PROVISIONING_STATUS, PENDING_UPDATE);
      CreateThenHandled(marked, lookups, listenerId, hmDict[POOL_ID := poolId], handlerFails)
  }

  /** The second half of post: create the monitor, then the handler with CREATE on it. */
  function CreateThenHandled(tables: Tables, lookups: Lookups, listenerId: Value, d: Dict, handlerFails: bool): Response
    requires Complete(tables)
  {
    InsertKeepsTables(tables, lookups, HealthMonitorT, d, NO_FRESH_ID);
    AfterCreate(InsertOutcome(tables, lookups, HealthMonitorT, d, NO_FRESH_ID), listenerId, handlerFails)
  }

  /** What post does with the outcome `c` of `health_monitor.create`. */
  function AfterCreate(c: Outcome<Row>, listenerId: Value, handlerFails: bool): Response
    requires Complete(c.tables)
  {
    if c.result.Err? then Response(Err(InvalidOptionOnDBError(c.result.error)), c.tables, None)
    else ChildHandled(c.tables, HealthMonitorT, listenerId, Some(c.result.value), Handler.CREATE, handlerFails, false)
  }

  /**
   * post: DuplicateHealthMonitor when the pool already has a monitor;
   * otherwise the listener goes PENDING_UPDATE, the monitor of this pool is
   * created and handed to the handler with CREATE, and read back by pool.
   */
  method Post(s: Session, listenerId: Value, poolId: Value, body: ApiTypes.ApiObj, handlerFails: bool) returns (r: Result<Row>, call: Option<HandlerCall>)
    requires s.Valid()
    modifies s
    ensures s.Valid()
    ensures Response(r, s.tables, call) == PostResponse(old(s.tables), s.lookups, listenerId, poolId, ApiTypes.Render(body, true), handlerFails)
  {
    var existing := Repositories.Get(s, HealthMonitorT, By(POOL_ID, poolId));
    if existing.Some? {
      return Err(DuplicateHealthMonitor), None;
    }
    var hmDict := ApiTypes.ToDict(body, true);
    hmDict := hmDict[POOL_ID := poolId];
    WriteStatus(s, ListenerT, listenerId, PROVISIONING_STATUS, PENDING_UPDATE);
    r, call := CreateThenHandle(s, listenerId, hmDict, handlerFails);
  }

  method CreateThenHandle(s: Session, listenerId: Value, d: Dict, handlerFails: bool) returns (r: Result<Row>, call: Option<HandlerCall>)
    requires s.Valid()
    modifies s
    ensures s.Valid()
    ensures Response(r, s.tables, call) == CreateThenHandled(old(s.tables), s.lookups, listenerId, d, handlerFails)
  {
    var created := Create(s, HealthMonitorT, d, NO_FRESH_ID);
    if created.Err? {
      return Err(InvalidOptionOnDBError(created.error)), None;
    }
    r, call := ChildHandle(s, HealthMonitorT, listenerId, Some(created.value), Handler.CREATE, handlerFails, false);
  }

  // ---------------------------------------------------------------- put

  function PutResponse(tables: Tables, lookups: Lookups, listenerId: Value, poolId: Value, hmDict: Dict, handlerFails: bool): Response
    requires Complete(tables)
  {
    if MonitorOf(tables, poolId).None? then Response(Err(NotFound), tables, None)
    else
      var marked := SetStatus(tables, ListenerT, listenerId, PROVISIONING_STATUS, PENDING_UPDATE);
      SetStatusKeepsTables(tables, ListenerT, listenerId, PROVISIONING_STATUS, PENDING_UPDATE);
      UpdateThenHandled(marked, lookups, listenerId, poolId, hmDict, handlerFails)
  }

  /** The second half of put: update the monitor keyed by the pool, then the handler with UPDATE on the monitor read back. */
  function UpdateThenHandled(tables: Tables, lookups: Lookups, listenerId: Value, poolId: Value, d: Dict, handlerFails: bool): Response
    requires Complete(tables)
  {
    UpdateKeepsTables(tables, lookups, HealthMonitorT, By(POOL_ID, poolId), d);
    AfterUpdate(KeyedUpdateOutcome(tables, lookups, HealthMonitorT, poolId, d), listenerId, poolId, handlerFails)
  }

  /** What put does with the outcome `u` of `health_monitor.update`. */
  function AfterUpdate(u: Outcome<()>, listenerId: Value, poolId: Value, handlerFails: bool): Response
    requires Complete(u.tables)
  {
    if u.result.Err? then Response(Err(InvalidOptionOnDBError(u.result.error)), u.tables, None)
    else ChildHandled(u.tables, HealthMonitorT, listenerId, MonitorOf(u.tables, poolId), Handler.UPDATE, handlerFails, false)
  }

  /**
   * put: NotFound when the pool has no monitor; otherwise the listener goes
   * PENDING_UPDATE, the monitor keyed by the pool takes the fields the
   * request set, and the handler gets it with UPDATE.
   */
  method Put(s: Session, listenerId: Value, poolId: Value, body: ApiTypes.ApiObj, handlerFails: bool) returns (r: Result<Row>, call: Option<HandlerCall>)
    requires s.Valid()
    modifies s
    ensures s.Valid()
    ensures Response(r, s.tables, call) == PutResponse(old(s.tables), s.lookups, listenerId, poolId, ApiTypes.Render(body, false), handlerFails)
  {
    var before := Repositories.Get(s, HealthMonitorT, By(POOL_ID, poolId));
    if before.None? {
      return Err(NotFound), None;
    }
    var hmDict := ApiTypes.ToDict(body, false);
    WriteStatus(s, ListenerT, listenerId, PROVISIONING_STATUS, PENDING_UPDATE);
    r, call := UpdateThenHandle(s, listenerId, poolId, hmDict, handlerFails);
  }

  /** After a successful `health_monitor.update`, what put answers is the handler step on the updated monitor. */
  lemma {:induction false} UpdatedThenHandled(tables: Tables, lookups: Lookups, listenerId: Value, poolId: Value, d: Dict, handlerFails: bool, updated: Tables)
    requires Complete(tables)
    requires KeyedUpdateOutcome(tables, lookups, HealthMonitorT, poolId, d) == Outcome(Ok(()), updated)
    ensures Complete(updated)
    ensures UpdateThenHandled(tables, lookups, listenerId, poolId, d, handlerFails) ==
      ChildHandled(updated, HealthMonitorT, listenerId, MonitorOf(updated, poolId), Handler.UPDATE, handlerFails, false)
  {
    UpdateKeepsTables(tables, lookups, HealthMonitorT, By(POOL_ID, poolId), d);
    assert UpdateThenHandled(tables, lookups, listenerId, poolId, d, handlerFails) == AfterUpdate(Outcome(Ok(()), updated), listenerId, poolId, handlerFails);
  }

  method UpdateThenHandle(s: Session, listenerId: Value, poolId: Value, d: Dict, handlerFails: bool) returns (r: Result<Row>, call: Option<HandlerCall>)
    requires s.Valid()
    modifies s
    ensures s.Valid()
    ensures Response(r, s.tables, call) == UpdateThenHandled(old(s.tables), s.lookups, listenerId, poolId, d, handlerFails)
  {
    ghost var before := s.tables;
    assert KeyColumn(HealthMonitorT) == POOL_ID;
    var u := Update(s, HealthMonitorT, poolId, d);
    if u.Err? {
      RefusedUpdateHandled(before, s.lookups, listenerId, poolId, d, handlerFails);
      return Err(InvalidOptionOnDBError(u.error)), None;
    }
    var db := Repositories.Get(s, HealthMonitorT, By(POOL_ID, poolId));
    UpdatedThenHandled(before, s.lookups, listenerId, poolId, d, handlerFails, s.tables);
    r, call := ChildHandle(s, HealthMonitorT, listenerId, db, Handler.UPDATE, handlerFails, false);
  }

  // ------------------------------------------------------------- delete

  function DeleteResponse(tables: Tables, listenerId: Value, poolId: Value, handlerFails: bool): Response
    requires Complete(tables)
  {
    if MonitorOf(tables, poolId).None? then Response(Err(NotFound), tables, None)
    else
      var marked := SetStatus(tables, ListenerT, listenerId, PROVISIONING_STATUS, PENDING_UPDATE);
      SetStatusKeepsTables(tables, ListenerT, listenerId, PROVISIONING_STATUS, PENDING_UPDATE);
      ChildHandled(marked, HealthMonitorT, listenerId, MonitorOf(marked, poolId), Handler.DELETE, handlerFails, false)
  }

  /**
   * delete: NotFound when the pool has no monitor; otherwise the listener
   * goes PENDING_UPDATE and the handler gets the monitor with DELETE. No
   * row is removed.
   */
  method Delete(s: Session, listenerId: Value, poolId: Value, handlerFails: bool) returns (r: Result<Row>, call: Option<HandlerCall>)
    requires s.Valid()
    modifies s
    ensures s.Valid()
    ensures Response(r, s.tables, call) == DeleteResponse(old(s.tables), listenerId, poolId, handlerFails)
  {
    var db := Repositories.Get(s, HealthMonitorT, By(POOL_ID, poolId));
    if db.None? {
      return Err(NotFound), None;
    }
    WriteStatus(s, ListenerT, listenerId, PROVISIONING_STATUS, PENDING_UPDATE);
    db := Repositories.Get(s, HealthMonitorT, By(POOL_ID, poolId));
    r, call := ChildHandle(s, HealthMonitorT, listenerId, db, Handler.DELETE, handlerFails, false);
  }

  // ----------------------------------------------------------- properties

  /**
   * Every refusal of an insert into the monitor table other than the
   * constructor's TypeError for a keyword that is not a column is a
   * DBError: the monitor has no validators, so post answers InvalidOption
   * whenever the database refuses the row.
   */
  lemma {:induction false} InsertFailsAsDBError(tables: Tables, lookups: Lookups, row: Row)
    requires HealthMonitorT in tables
    ensures InsertError(tables, lookups, HealthMonitorT, row).Some? ==>
      (InsertError(tables, lookups, HealthMonitorT, row).value == TypeError <==> !(row.Keys <= Columns(HealthMonitorT)))
    ensures InsertError(tables, lookups, HealthMonitorT, row).Some? && row.Keys <= Columns(HealthMonitorT) ==>
      InvalidOptionOnDBError(InsertError(tables, lookups, HealthMonitorT, row).value) == InvalidOption
  {
  }

  /** The same for an update of the monitor table. */
  lemma {:induction false} UpdateFailsAsDBError(tables: Tables, lookups: Lookups, f: Dict, d: Dict)
    requires HealthMonitorT in tables
    ensures UpdateError(tables, lookups, HealthMonitorT, f, d).Some? ==>
      InvalidOptionOnDBError(UpdateError(tables, lookups, HealthMonitorT, f, d).value) == InvalidOption
  {
  }

  /** put and delete refuse a pool without a monitor with NotFound before writing anything. */
  lemma {:induction false} NoMonitorNotFound(tables: Tables, lookups: Lookups, listenerId: Value, poolId: Value, hmDict: Dict, handlerFails: bool)
    requires Complete(tables) && !AnyMatch(tables[HealthMonitorT], By(POOL_ID, poolId))
    ensures PutResponse(tables, lookups, listenerId, poolId, hmDict, handlerFails) == Response(Err(NotFound), tables, None)
    ensures DeleteResponse(tables, listenerId, poolId, handlerFails) == Response(Err(NotFound), tables, None)
  {
  }

  /**
   * post on a pool that already has a monitor: DuplicateHealthMonitor,
   * with nothing written and no handler called.
   */
  lemma {:induction false} PostRefusesSecondMonitor(tables: Tables, lookups: Lookups, listenerId: Value, i: nat, hmDict: Dict, handlerFails: bool)
    requires Complete(tables) && i < |tables[HealthMonitorT]|
    ensures var poolId := DictGet(tables[HealthMonitorT][i], POOL_ID);
      PostResponse(tables, lookups, listenerId, poolId, hmDict, handlerFails) == Response(Err(DuplicateHealthMonitor), tables, None)
  {
    assert Matches(tables[HealthMonitorT][i], By(POOL_ID, DictGet(tables[HealthMonitorT][i], POOL_ID)));
  }

  /** The handler step of post or put on the monitor `get` finds under its pool. */
  lemma {:induction false} MonitorHandled(tables: Tables, listenerId: Value, hm: Row, change: Handler.ChangeType, handlerFails: bool, listener: Option<Row>)
    requires Complete(tables) && MonitorOf(tables, DictGet(hm, POOL_ID)) == Some(hm)
    requires RowById(tables, ListenerT, listenerId) == listener
    ensures var o := ChildHandled(tables, HealthMonitorT, listenerId, Some(hm), change, handlerFails, false);
      o.result == Ok(hm) && o.call == Some(HandlerCall(Some(hm), change)) &&
      HealthMonitorT in o.tables && o.tables[HealthMonitorT] == tables[HealthMonitorT] &&
      ListenerT in o.tables &&
      RowById(o.tables, ListenerT, listenerId) ==
        match listener
        case None => None
        case Some(l) => Some(if handlerFails then l[OPERATING_STATUS := ERROR] else l)
  {
    ChildHandledExisting(tables, HealthMonitorT, listenerId, hm, change, handlerFails, false);
    ChildHandledUnmarked(tables, HealthMonitorT, listenerId, Some(hm), change, handlerFails);
  }

  /**
   * post on a pool without a monitor: the listener goes PENDING_UPDATE
   * whatever follows. A refused insert stores nothing more, calls no
   * handler and answers TypeError when the request carries a keyword that
   * is not a monitor column, InvalidOption otherwise. Otherwise exactly one monitor is
   * appended: the request's fields with this pool's id; it is what a later
   * `get` by pool finds, it is handed to the handler with CREATE and
   * returned, and the listener is in ERROR exactly when the handler raised.
   */
  lemma {:induction false} PostStoresMonitor(tables: Tables, lookups: Lookups, listenerId: Value, poolId: Value, hmDict: Dict, handlerFails: bool)
    requires Complete(tables) && !AnyMatch(tables[HealthMonitorT], By(POOL_ID, poolId))
    ensures var o := PostResponse(tables, lookups, listenerId, poolId, hmDict, handlerFails);
      o.result.Err? ==>
        o.tables == SetStatus(tables, ListenerT, listenerId, PROVISIONING_STATUS, PENDING_UPDATE) &&
        o.call.None? && o.result.error == (if hmDict.Keys <= Columns(HealthMonitorT) then InvalidOption else TypeError)
    ensures var o := PostResponse(tables, lookups, listenerId, poolId, hmDict, handlerFails);
      o.result.Ok? ==>
        o.result.value == hmDict[POOL_ID := poolId] &&
        o.call == Some(HandlerCall(Some(o.result.value), Handler.CREATE)) &&
        HealthMonitorT in o.tables && o.tables[HealthMonitorT] == tables[HealthMonitorT] + [o.result.value] &&
        MonitorOf(o.tables, poolId) == Some(o.result.value) &&
        ListenerT in o.tables &&
        RowById(o.tables, ListenerT, listenerId) == ListenerMarked(RowById(tables, ListenerT, listenerId), handlerFails)
  {
    if PostResponse(tables, lookups, listenerId, poolId, hmDict, handlerFails).result.Ok? {
      PostedMonitor(tables, lookups, listenerId, poolId, hmDict, handlerFails);
    } else {
      PostRefused(tables, lookups, listenerId, poolId, hmDict, handlerFails);
    }
  }

  /** PostStoresMonitor when the insert is refused. */
  lemma {:induction false} PostRefused(tables: Tables, lookups: Lookups, listenerId: Value, poolId: Value, hmDict: Dict, handlerFails: bool)
    requires Complete(tables) && !AnyMatch(tables[HealthMonitorT], By(POOL_ID, poolId))
    requires PostResponse(tables, lookups, listenerId, poolId, hmDict, handlerFails).result.Err?
    ensures var o := PostResponse(tables, lookups, listenerId, poolId, hmDict, handlerFails);
      o.tables == SetStatus(tables, ListenerT, listenerId, PROVISIONING_STATUS, PENDING_UPDATE) &&
      o.call.None? && o.result.error == (if hmDict.Keys <= Columns(HealthMonitorT) then InvalidOption else TypeError)
  {
    var marked := SetStatus(tables, ListenerT, listenerId, PROVISIONING_STATUS, PENDING_UPDATE);
    SetStatusKeepsTables(tables, ListenerT, listenerId, PROVISIONING_STATUS, PENDING_UPDATE);
    var d := hmDict[POOL_ID := poolId];
    assert d.Keys == hmDict.Keys + {POOL_ID};
    assert PostResponse(tables, lookups, listenerId, poolId, hmDict, handlerFails) == CreateThenHandled(marked, lookups, listenerId, d, handlerFails);
    assert marked[HealthMonitorT] == tables[HealthMonitorT] by {
      StatusWriteKeepsRow(tables, ListenerT, listenerId, PROVISIONING_STATUS, PENDING_UPDATE);
    }
    CreateThenHandledStores(marked, lookups, listenerId, d, handlerFails);
  }

  /** PostStoresMonitor when the insert went through. */
  lemma {:induction false} PostedMonitor(tables: Tables, lookups: Lookups, listenerId: Value, poolId: Value, hmDict: Dict, handlerFails: bool)
    requires Complete(tables) && !AnyMatch(tables[HealthMonitorT], By(POOL_ID, poolId))
    requires PostResponse(tables, lookups, listenerId, poolId, hmDict, handlerFails).result.Ok?
    ensures var o := PostResponse(tables, lookups, listenerId, poolId, hmDict, handlerFails);
      o.result.value == hmDict[POOL_ID := poolId] &&
      o.call == Some(HandlerCall(Some(o.result.value), Handler.CREATE)) &&
      HealthMonitorT in o.tables && o.tables[HealthMonitorT] == tables[HealthMonitorT] + [o.result.value] &&
      MonitorOf(o.tables, poolId) == Some(o.result.value) &&
      ListenerT in o.tables &&
      RowById(o.tables, ListenerT, listenerId) == ListenerMarked(RowById(tables, ListenerT, listenerId), handlerFails)
  {
    var marked := SetStatus(tables, ListenerT, listenerId, PROVISIONING_STATUS, PENDING_UPDATE);
    SetStatusKeepsTables(tables, ListenerT, listenerId, PROVISIONING_STATUS, PENDING_UPDATE);
    var d := hmDict[POOL_ID := poolId];
    var o := PostResponse(tables, lookups, listenerId, poolId, hmDict, handlerFails);
    assert o == CreateThenHandled(marked, lookups, listenerId, d, handlerFails);
    assert marked[HealthMonitorT] == tables[HealthMonitorT] by {
      StatusWriteKeepsRow(tables, ListenerT, listenerId, PROVISIONING_STATUS, PENDING_UPDATE);
    }
    CreateThenHandledStores(marked, lookups, listenerId, d, handlerFails);
    assert RowById(o.tables, ListenerT, listenerId) == ListenerMarked(RowById(tables, ListenerT, listenerId), handlerFails) by {
      StatusWriteKeepsRow(tables, ListenerT, listenerId, PROVISIONING_STATUS, PENDING_UPDATE);
    }
  }

  /**
   * The second half of post on a pool without a monitor: a refused insert
   * stores nothing and answers TypeError for a keyword that is not a
   * column, InvalidOption otherwise; otherwise `d` is appended,
   * found by its pool, handed to the handler with CREATE and returned, and
   * the listener is in ERROR exactly when the handler raised.
   */
  lemma {:induction false} CreateThenHandledStores(tables: Tables, lookups: Lookups, listenerId: Value, d: Dict, handlerFails: bool)
    requires Complete(tables) && POOL_ID in d && !AnyMatch(tables[HealthMonitorT], By(POOL_ID, d[POOL_ID]))
    ensures var o := CreateThenHandled(tables, lookups, listenerId, d, handlerFails);
      o.result.Err? ==>
        o.tables == tables && o.call.None? &&
        o.result.error == (if d.Keys <= Columns(HealthMonitorT) then InvalidOption else TypeError)
    ensures var o := CreateThenHandled(tables, lookups, listenerId, d, handlerFails);
      o.result.Ok? ==>
        o.result.value == d && o.call == Some(HandlerCall(Some(d), Handler.CREATE)) &&
        HealthMonitorT in o.tables && o.tables[HealthMonitorT] == tables[HealthMonitorT] + [d] &&
        MonitorOf(o.tables, d[POOL_ID]) == Some(d) &&
        ListenerT in o.tables &&
        RowById(o.tables, ListenerT, listenerId) ==
          match RowById(tables, ListenerT, listenerId)
          case None => None
          case Some(l) => Some(if handlerFails then l[OPERATING_STATUS := ERROR] else l)
  {
    var c := InsertOutcome(tables, lookups, HealthMonitorT, d, NO_FRESH_ID);
    InsertKeepsTables(tables, lookups, HealthMonitorT, d, NO_FRESH_ID);
    InsertFailsAsDBError(tables, lookups, d);
    if c.result.Ok? {
      InsertedMonitorHandled(tables, lookups, listenerId, d, handlerFails);
    }
  }

  /** CreateThenHandledStores when the insert went through. */
  lemma {:induction false} InsertedMonitorHandled(tables: Tables, lookups: Lookups, listenerId: Value, d: Dict, handlerFails: bool)
    requires Complete(tables) && POOL_ID in d && !AnyMatch(tables[HealthMonitorT], By(POOL_ID, d[POOL_ID]))
    requires InsertOutcome(tables, lookups, HealthMonitorT, d, NO_FRESH_ID).result.Ok?
    ensures var o := CreateThenHandled(tables, lookups, listenerId, d, handlerFails);
      o.result == Ok(d) && o.call == Some(HandlerCall(Some(d), Handler.CREATE)) &&
      HealthMonitorT in o.tables && o.tables[HealthMonitorT] == tables[HealthMonitorT] + [d] &&
      MonitorOf(o.tables, d[POOL_ID]) == Some(d) &&
      ListenerT in o.tables &&
      RowById(o.tables, ListenerT, listenerId) ==
        match RowById(tables, ListenerT, listenerId)
        case None => None
        case Some(l) => Some(if handlerFails then l[OPERATING_STATUS := ERROR] else l)
  {
    var c := InsertOutcome(tables, lookups, HealthMonitorT, d, NO_FRESH_ID);
    InsertKeepsTables(tables, lookups, HealthMonitorT, d, NO_FRESH_ID);
    assert c.result.value == d && c.tables[ListenerT] == tables[ListenerT] && c.tables[HealthMonitorT] == tables[HealthMonitorT] + [d];
    assert MonitorOf(c.tables, d[POOL_ID]) == Some(d) by {
      assert InsertError(tables, lookups, HealthMonitorT, d).None?;
      assert NotNullOk(HealthMonitorT, d);
      GetAfterInsert(tables, lookups, HealthMonitorT, d, 0, POOL_ID);
    }
    MonitorHandled(c.tables, listenerId, d, Handler.CREATE, handlerFails, RowById(tables, ListenerT, listenerId));
  }

  /** The second half of put once `get` found `row` under its pool: the monitor takes `d`, then the handler runs. */
  lemma {:induction false} UpdateThenHandledWrites(tables: Tables, lookups: Lookups, listenerId: Value, row: Row, d: Dict, handlerFails: bool)
    requires Complete(tables) && MonitorOf(tables, DictGet(row, POOL_ID)) == Some(row)
    ensures var o := UpdateThenHandled(tables, lookups, listenerId, DictGet(row, POOL_ID), d, handlerFails);
      o.result.Err? ==>
        o.tables == tables && o.call.None? &&
        o.result.error == (if RepeatsParameter(HealthMonitorT, d) then TypeError else InvalidOption)
    ensures RepeatsParameter(HealthMonitorT, d) ==>
      UpdateThenHandled(tables, lookups, listenerId, DictGet(row, POOL_ID), d, handlerFails).result.Err?
    ensures var o := UpdateThenHandled(tables, lookups, listenerId, DictGet(row, POOL_ID), d, handlerFails);
      o.result.Ok? ==>
        o.result.value == row + d && o.call == Some(HandlerCall(Some(row + d), Handler.UPDATE)) &&
        HealthMonitorT in o.tables && |o.tables[HealthMonitorT]| == |tables[HealthMonitorT]| &&
        ListenerT in o.tables &&
        RowById(o.tables, ListenerT, listenerId) ==
          match RowById(tables, ListenerT, listenerId)
          case None => None
          case Some(l) => Some(if handlerFails then l[OPERATING_STATUS := ERROR] else l)
  {
    var poolId := DictGet(row, POOL_ID);
    var u := KeyedUpdateOutcome(tables, lookups, HealthMonitorT, poolId, d);
    KeyedUpdateTypeErrorIffRepeated(tables, lookups, HealthMonitorT, poolId, d);
    if u.result.Err? {
      RefusedUpdateAnswers(tables, lookups, listenerId, poolId, d, handlerFails);
    } else {
      assert !RepeatsParameter(HealthMonitorT, d) && KeyColumn(HealthMonitorT) == POOL_ID;
      assert u == UpdateOutcome(tables, lookups, HealthMonitorT, By(POOL_ID, poolId), d);
      UpdatedMonitorHandled(tables, lookups, listenerId, row, d, handlerFails);
    }
  }

  /** UpdateThenHandledWrites when the update is refused: TypeError for a repeated keyword, InvalidOption otherwise. */
  lemma {:induction false} RefusedUpdateAnswers(tables: Tables, lookups: Lookups, listenerId: Value, poolId: Value, d: Dict, handlerFails: bool)
    requires Complete(tables) && KeyedUpdateOutcome(tables, lookups, HealthMonitorT, poolId, d).result.Err?
    ensures var o := UpdateThenHandled(tables, lookups, listenerId, poolId, d, handlerFails);
      o.result.Err? && o.tables == tables && o.call.None? &&
      o.result.error == (if RepeatsParameter(HealthMonitorT, d) then TypeError else InvalidOption)
  {
    var u := KeyedUpdateOutcome(tables, lookups, HealthMonitorT, poolId, d);
    KeyedUpdateTypeErrorIffRepeated(tables, lookups, HealthMonitorT, poolId, d);
    RefusedUpdateHandled(tables, lookups, listenerId, poolId, d, handlerFails);
    if !RepeatsParameter(HealthMonitorT, d) {
      assert KeyColumn(HealthMonitorT) == POOL_ID;
      assert u == UpdateOutcome(tables, lookups, HealthMonitorT, By(POOL_ID, poolId), d);
      UpdateFailsAsDBError(tables, lookups, By(POOL_ID, poolId), d);
    }
  }

  /** A refused monitor update: put answers with the refusal, writes nothing and calls no handler. */
  lemma {:induction false} RefusedUpdateHandled(tables: Tables, lookups: Lookups, listenerId: Value, poolId: Value, d: Dict, handlerFails: bool)
    requires Complete(tables) && KeyedUpdateOutcome(tables, lookups, HealthMonitorT, poolId, d).result.Err?
    ensures UpdateThenHandled(tables, lookups, listenerId, poolId, d, handlerFails) ==
      Response(Err(InvalidOptionOnDBError(KeyedUpdateOutcome(tables, lookups, HealthMonitorT, poolId, d).result.error)), tables, None)
  {
  }

  /** UpdateThenHandledWrites when the bulk UPDATE went through. */
  lemma {:induction false} UpdatedMonitorHandled(tables: Tables, lookups: Lookups, listenerId: Value, row: Row, d: Dict, handlerFails: bool)
    requires Complete(tables) && MonitorOf(tables, DictGet(row, POOL_ID)) == Some(row)
    requires !RepeatsParameter(HealthMonitorT, d) && UpdateOutcome(tables, lookups, HealthMonitorT, By(POOL_ID, DictGet(row, POOL_ID)), d).result.Ok?
    ensures var o := UpdateThenHandled(tables, lookups, listenerId, DictGet(row, POOL_ID), d, handlerFails);
      o.result == Ok(row + d) && o.call == Some(HandlerCall(Some(row + d), Handler.UPDATE)) &&
      HealthMonitorT in o.tables && |o.tables[HealthMonitorT]| == |tables[HealthMonitorT]| &&
      ListenerT in o.tables &&
      RowById(o.tables, ListenerT, listenerId) ==
        match RowById(tables, ListenerT, listenerId)
        case None => None
        case Some(l) => Some(if handlerFails then l[OPERATING_STATUS := ERROR] else l)
  {
    var poolId := DictGet(row, POOL_ID);
    var u := UpdateOutcome(tables, lookups, HealthMonitorT, By(POOL_ID, poolId), d);
    assert KeyColumn(HealthMonitorT) == POOL_ID && POOL_ID !in d;
    assert KeyedUpdateOutcome(tables, lookups, HealthMonitorT, poolId, d) == u;
    UpdateKeepsTables(tables, lookups, HealthMonitorT, By(POOL_ID, poolId), d);
    assert UpdateThenHandled(tables, lookups, listenerId, poolId, d, handlerFails) == AfterUpdate(u, listenerId, poolId, handlerFails);
    UpdateKeepsFirstMatch(tables[HealthMonitorT], By(POOL_ID, poolId), d);
    assert u.tables[HealthMonitorT] == UpdatedRows(tables[HealthMonitorT], By(POOL_ID, poolId), d);
    assert u.tables[ListenerT] == tables[ListenerT];
    assert DictGet(row + d, POOL_ID) == poolId;
    MonitorHandled(u.tables, listenerId, row + d, Handler.UPDATE, handlerFails, RowById(tables, ListenerT, listenerId));
  }

  /**
   * put on a pool's monitor: the listener goes PENDING_UPDATE whatever
   * follows. A refused update writes nothing more, calls no handler and
   * answers InvalidOption. Otherwise the monitor, still of this pool, takes
   * the request's fields and keeps the others, no monitor comes or goes,
   * the handler gets the updated monitor with UPDATE, and the listener is
   * in ERROR exactly when the handler raised.
   */
  lemma {:induction false} PutUpdatesMonitor(tables: Tables, lookups: Lookups, listenerId: Value, row: Row, hmDict: Dict, handlerFails: bool)
    requires Complete(tables) && MonitorOf(tables, DictGet(row, POOL_ID)) == Some(row)
    ensures var o := PutResponse(tables, lookups, listenerId, DictGet(row, POOL_ID), hmDict, handlerFails);
      o.result.Err? ==>
        o.tables == SetStatus(tables, ListenerT, listenerId, PROVISIONING_STATUS, PENDING_UPDATE) &&
        o.call.None? && o.result.error == (if RepeatsParameter(HealthMonitorT, hmDict) then TypeError else InvalidOption)
    ensures var o := PutResponse(tables, lookups, listenerId, DictGet(row, POOL_ID), hmDict, handlerFails);
      o.result.Ok? ==>
        var updated := o.result.value;
        DictGet(updated, POOL_ID) == DictGet(row, POOL_ID) &&
        (forall c :: c in hmDict ==> DictGet(updated, c) == hmDict[c]) &&
        (forall c :: c !in hmDict ==> DictGet(updated, c) == DictGet(row, c)) &&
        o.call == Some(HandlerCall(Some(updated), Handler.UPDATE)) &&
        HealthMonitorT in o.tables && |o.tables[HealthMonitorT]| == |tables[HealthMonitorT]| &&
        ListenerT in o.tables &&
        RowById(o.tables, ListenerT, listenerId) == ListenerMarked(RowById(tables, ListenerT, listenerId), handlerFails)
  {
    var poolId := DictGet(row, POOL_ID);
    assert KeyColumn(HealthMonitorT) == POOL_ID;
    assert !RepeatsParameter(HealthMonitorT, hmDict) ==> POOL_ID !in hmDict;
    var marked := SetStatus(tables, ListenerT, listenerId, PROVISIONING_STATUS, PENDING_UPDATE);
    MarkedListenerHandled(tables, listenerId, handlerFails);
    SetStatusKeepsTables(tables, ListenerT, listenerId, PROVISIONING_STATUS, PENDING_UPDATE);
    assert marked[HealthMonitorT] == tables[HealthMonitorT];
    PutIsMarkThenUpdate(tables, lookups, listenerId, poolId, hmDict, handlerFails);
    UpdateThenHandledWrites(marked, lookups, listenerId, row, hmDict, handlerFails);
    if !RepeatsParameter(HealthMonitorT, hmDict) {
      PutColumns(row, hmDict);
    }
  }

  /** put on a pool that has a monitor: the listener's PENDING_UPDATE, then the update and the handler. */
  lemma {:induction false} PutIsMarkThenUpdate(tables: Tables, lookups: Lookups, listenerId: Value, poolId: Value, hmDict: Dict, handlerFails: bool)
    requires Complete(tables) && MonitorOf(tables, poolId).Some?
    ensures Complete(SetStatus(tables, ListenerT, listenerId, PROVISIONING_STATUS, PENDING_UPDATE))
    ensures PutResponse(tables, lookups, listenerId, poolId, hmDict, handlerFails) ==
      UpdateThenHandled(SetStatus(tables, ListenerT, listenerId, PROVISIONING_STATUS, PENDING_UPDATE), lookups, listenerId, poolId, hmDict, handlerFails)
  {
    SetStatusKeepsTables(tables, ListenerT, listenerId, PROVISIONING_STATUS, PENDING_UPDATE);
  }

  /** The monitor row put writes: the request's fields over the old ones. */
  lemma {:induction false} PutColumns(row: Row, hmDict: Dict)
    requires POOL_ID in hmDict ==> hmDict[POOL_ID] == DictGet(row, POOL_ID)
    ensures var updated := row + hmDict;
      DictGet(updated, POOL_ID) == DictGet(row, POOL_ID) &&
      (forall c :: c in hmDict ==> DictGet(updated, c) == hmDict[c]) &&
      (forall c :: c !in hmDict ==> DictGet(updated, c) == DictGet(row, c))
  {
  }

  /**
   * delete on a pool's monitor: the listener goes PENDING_UPDATE, the
   * handler gets the monitor with DELETE, the monitor stays in the table
   * and is returned; the listener is in ERROR exactly when the handler
   * raised.
   */
  lemma {:induction false} DeleteKeepsMonitor(tables: Tables, listenerId: Value, row: Row, handlerFails: bool)
    requires Complete(tables) && MonitorOf(tables, DictGet(row, POOL_ID)) == Some(row)
    ensures var o := DeleteResponse(tables, listenerId, DictGet(row, POOL_ID), handlerFails);
      o.result == Ok(row) && o.call == Some(HandlerCall(Some(row), Handler.DELETE)) &&
      HealthMonitorT in o.tables && o.tables[HealthMonitorT] == tables[HealthMonitorT] &&
      ListenerT in o.tables &&
      RowById(o.tables, ListenerT, listenerId) == ListenerMarked(RowById(tables, ListenerT, listenerId), handlerFails)
  {
    var poolId := DictGet(row, POOL_ID);
    assert KeyColumn(HealthMonitorT) == POOL_ID;
    ChildHandledAfterMark(tables, HealthMonitorT, listenerId, row, Handler.DELETE, handlerFails);
    var marked := SetStatus(tables, ListenerT, listenerId, PROVISIONING_STATUS, PENDING_UPDATE);
    SetStatusKeepsTables(tables, ListenerT, listenerId, PROVISIONING_STATUS, PENDING_UPDATE);
    assert marked[HealthMonitorT] == tables[HealthMonitorT];
    assert DeleteResponse(tables, listenerId, poolId, handlerFails) ==
           ChildHandled(marked, HealthMonitorT, listenerId, Some(row), Handler.DELETE, handlerFails, false);
  }
}
