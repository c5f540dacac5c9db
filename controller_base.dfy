// What the v1 API controllers share: the handler call each request makes, the
// response it produces, and the single status-column writes around it.
// Handler failures are an oracle: `handlerFails` says whether `handle`
// raises; a handler given None always raises.

module ControllerBase {
  import opened Values
  import opened Models
  import opened Repositories
  import Handler

  /** One call of `handler.handle(entity, change)`; `entity` is the row read just before, None when that read found nothing. */
  datatype HandlerCall = HandlerCall(entity: Option<Row>, change: Handler.ChangeType)

  /** What a controller method returns, the tables it leaves, and the handler call it made, if any. */
  datatype Response = Response(result: Result<Row>, tables: Tables, call: Option<HandlerCall>)

  /** Whether `handle` raises: the oracle says so, or it was given None. */
  predicate HandlerRaises(entity: Option<Row>, handlerFails: bool)
  {
    handlerFails || entity.None?
  }

  /** The row `get(id=...)` returns. */
  function RowById(tables: Tables, t: Table, id: Value): Option<Row>
    requires t in tables
  {
    FirstMatch(tables[t], By(ID, id))
  }

  /**
   * `repository.update(session, key, column=v)` with a status name the
   * controllers write: it never fails, and it sets that column on the
   * rows with that key.
   */
  method WriteStatus(s: Session, t: Table, key: Value, column: string, v: Value)
    requires s.Valid() && WrittenStatus(column, v) && t != SniT && t != LoadBalancerAmphoraT
    modifies s
    ensures s.Valid()
    ensures s.tables == SetStatus(old(s.tables), t, key, column, v)
  {
    StatusWriteSucceeds(s.tables, s.lookups, t, key, column, v);
    var r := Update(s, t, key, map[column := v]);
  }

  /**
   * A status write keeps the row `get` finds under the written key, now
   * carrying the new status, and leaves every other table alone.
   */
  lemma {:induction false} StatusWriteKeepsRow(tables: Tables, t: Table, key: Value, column: string, v: Value)
    requires t in tables && WrittenStatus(column, v)
    ensures FirstMatch(tables[t], By(KeyColumn(t), key)).Some? ==>
      FirstMatch(SetStatus(tables, t, key, column, v)[t], By(KeyColumn(t), key)) ==
      Some(FirstMatch(tables[t], By(KeyColumn(t), key)).value[column := v])
    ensures FirstMatch(tables[t], By(KeyColumn(t), key)).None? ==>
      FirstMatch(SetStatus(tables, t, key, column, v)[t], By(KeyColumn(t), key)).None?
    ensures |SetStatus(tables, t, key, column, v)[t]| == |tables[t]|
    ensures forall u :: u in tables && u != t ==> SetStatus(tables, t, key, column, v)[u] == tables[u]
  {
    var f, kw := By(KeyColumn(t), key), map[column := v];
    UpdateKeepsFirstMatch(tables[t], f, kw);
    var first := FirstMatch(tables[t], f);
    if first.Some? {
      UpdateOneKey(first.value, column, v);
    }
  }

  // ------------------------- the pool, member and health monitor controllers

  /** The except clause around the pool and health monitor writes: every DBError is reported as an invalid option. */
  function InvalidOptionOnDBError(e: Error): (r: Error)
    ensures IsDBError(e) <==> r == InvalidOption && e != InvalidOption
    ensures !IsDBError(e) ==> r == e
  {
    if IsDBError(e) then InvalidOption else e
  }

  /** A table whose rows those controllers write: they mark the parent listener instead of a status of their own. */
  predicate ChildTable(t: Table)
  {
    t == PoolT || t == MemberT || t == HealthMonitorT
  }

  /** `repository.get(key=...)` followed by the conversion to a response, which fails on None. */
  function ReadBack(tables: Tables, t: Table, key: Value): Result<Row>
    requires t in tables
  {
    match FirstMatch(tables[t], By(KeyColumn(t), key))
    case None => Err(AttributeError)
    case Some(row) => Ok(row)
  }

  /**
   * The handler step of the child controllers: call the handler on `db`; if
   * it raises, write ERROR into the operating status of the listener (and,
   * on a pool delete, of the pool); then read the entity back under its key.
   * A None record is passed to the handler, which raises, and the read of
   * its key then fails.
   */
  function ChildHandled(tables: Tables, t: Table, listenerId: Value, db: Option<Row>, change: Handler.ChangeType, handlerFails: bool, markEntity: bool): Response
    requires Complete(tables) && ChildTable(t)
  {
    var call := Some(HandlerCall(db, change));
    var raised := HandlerRaises(db, handlerFails);
    var t1 := if raised then SetStatus(tables, ListenerT, listenerId, OPERATING_STATUS, ERROR) else tables;
    SetStatusKeepsTables(tables, ListenerT, listenerId, OPERATING_STATUS, ERROR);
    if db.None? then Response(Err(AttributeError), t1, call)
    else
      var key := DictGet(db.value, KeyColumn(t));
      var t2 := if raised && markEntity then SetStatus(t1, t, key, OPERATING_STATUS, ERROR) else t1;
      SetStatusKeepsTables(t1, t, key, OPERATING_STATUS, ERROR);
      Response(ReadBack(t2, t, key), t2, call)
  }

  method ChildHandle(s: Session, t: Table, listenerId: Value, db: Option<Row>, change: Handler.ChangeType, handlerFails: bool, markEntity: bool)
    returns (r: Result<Row>, call: Option<HandlerCall>)
    requires s.Valid() && ChildTable(t)
    modifies s
    ensures s.Valid()
    ensures Response(r, s.tables, call) == ChildHandled(old(s.tables), t, listenerId, db, change, handlerFails, markEntity)
  {
    call := Some(HandlerCall(db, change));
    var raised := HandlerRaises(db, handlerFails);
    if raised {
      WriteStatus(s, ListenerT, listenerId, OPERATING_STATUS, ERROR);
    }
    if db.None? {
      return Err(AttributeError), call;
    }
    var key := DictGet(db.value, KeyColumn(t));
    if raised && markEntity {
      WriteStatus(s, t, key, OPERATING_STATUS, ERROR);
    }
    var back := Get(s, t, By(KeyColumn(t), key));
    if back.None? {
      return Err(AttributeError), call;
    }
    r := Ok(back.value);
  }

  /** The listener as `get` finds it after its provisioning status, then possibly its operating status, were written. */
  function ListenerMarked(listener: Option<Row>, errored: bool): Option<Row>
  {
    match listener
    case None => None
    case Some(l) => Some(if errored then l[PROVISIONING_STATUS := PENDING_UPDATE][OPERATING_STATUS := ERROR] else l[PROVISIONING_STATUS := PENDING_UPDATE])
  }

  /** The listener a child write marks PENDING_UPDATE, after the handler step: ERROR too exactly when the handler raised. */
  lemma {:induction false} MarkedListenerHandled(tables: Tables, listenerId: Value, handlerFails: bool)
    requires ListenerT in tables
    ensures var marked := SetStatus(tables, ListenerT, listenerId, PROVISIONING_STATUS, PENDING_UPDATE);
      ListenerMarked(RowById(tables, ListenerT, listenerId), handlerFails) ==
        match RowById(marked, ListenerT, listenerId)
        case None => None
        case Some(l) => Some(if handlerFails then l[OPERATING_STATUS := ERROR] else l)
  {
    assert KeyColumn(ListenerT) == ID;
    StatusWriteKeepsRow(tables, ListenerT, listenerId, PROVISIONING_STATUS, PENDING_UPDATE);
  }

  /**
   * The handler step on an entity `get` finds under its key: the handler
   * gets it; the response is that entity, in ERROR only when the handler
   * raised on a pool delete; no row of its table comes or goes; the
   * listener's operating status is ERROR exactly when the handler raised.
   */
  lemma {:induction false} ChildHandledExisting(tables: Tables, t: Table, listenerId: Value, row: Row, change: Handler.ChangeType, handlerFails: bool, markEntity: bool)
    requires Complete(tables) && ChildTable(t)
    requires FirstMatch(tables[t], By(KeyColumn(t), DictGet(row, KeyColumn(t)))) == Some(row)
    ensures var o := ChildHandled(tables, t, listenerId, Some(row), change, handlerFails, markEntity);
      o.call == Some(HandlerCall(Some(row), change)) &&
      o.result == Ok(if handlerFails && markEntity then row[OPERATING_STATUS := ERROR] else row) &&
      t in o.tables && |o.tables[t]| == |tables[t]| &&
      ListenerT in o.tables &&
      RowById(o.tables, ListenerT, listenerId) ==
        match RowById(tables, ListenerT, listenerId)
        case None => None
        case Some(l) => Some(if handlerFails then l[OPERATING_STATUS := ERROR] else l)
  {
    var key := DictGet(row, KeyColumn(t));
    var t1 := SetStatus(tables, ListenerT, listenerId, OPERATING_STATUS, ERROR);
    StatusWriteKeepsRow(tables, ListenerT, listenerId, OPERATING_STATUS, ERROR);
    if handlerFails {
      assert t1[t] == tables[t];
      StatusWriteKeepsRow(t1, t, key, OPERATING_STATUS, ERROR);
    }
  }

  /**
   * A child write's listener mark, then the handler step on an entity `get`
   * finds: the entity is returned unchanged and handed to the handler, its
   * table is as it was, and the listener is PENDING_UPDATE, in ERROR too
   * exactly when the handler raised.
   */
  lemma {:induction false} ChildHandledAfterMark(tables: Tables, t: Table, listenerId: Value, row: Row, change: Handler.ChangeType, handlerFails: bool)
    requires Complete(tables) && ChildTable(t)
    requires FirstMatch(tables[t], By(KeyColumn(t), DictGet(row, KeyColumn(t)))) == Some(row)
    ensures var marked := SetStatus(tables, ListenerT, listenerId, PROVISIONING_STATUS, PENDING_UPDATE);
      Complete(marked) &&
      var o := ChildHandled(marked, t, listenerId, Some(row), change, handlerFails, false);
      o.call == Some(HandlerCall(Some(row), change)) && o.result == Ok(row) &&
      t in o.tables && o.tables[t] == tables[t] &&
      ListenerT in o.tables &&
      RowById(o.tables, ListenerT, listenerId) == ListenerMarked(RowById(tables, ListenerT, listenerId), handlerFails)
  {
    var marked := SetStatus(tables, ListenerT, listenerId, PROVISIONING_STATUS, PENDING_UPDATE);
    SetStatusKeepsTables(tables, ListenerT, listenerId, PROVISIONING_STATUS, PENDING_UPDATE);
    assert marked[t] == tables[t];
    ChildHandledExisting(marked, t, listenerId, row, change, handlerFails, false);
    ChildHandledUnmarked(marked, t, listenerId, Some(row), change, handlerFails);
    MarkedListenerHandled(tables, listenerId, handlerFails);
  }

  /** The handler step writes only the listener table and the entity's own. */
  lemma {:induction false} ChildHandledKeepsTable(tables: Tables, t: Table, listenerId: Value, db: Option<Row>, change: Handler.ChangeType, handlerFails: bool, markEntity: bool, u: Table)
    requires Complete(tables) && ChildTable(t) && u != ListenerT && u != t
    ensures var o := ChildHandled(tables, t, listenerId, db, change, handlerFails, markEntity);
      u in o.tables && o.tables[u] == tables[u]
  {
  }

  /** Without `markEntity` the handler step leaves the entity's table as it was. */
  lemma {:induction false} ChildHandledUnmarked(tables: Tables, t: Table, listenerId: Value, db: Option<Row>, change: Handler.ChangeType, handlerFails: bool)
    requires Complete(tables) && ChildTable(t)
    ensures var o := ChildHandled(tables, t, listenerId, db, change, handlerFails, false);
      t in o.tables && o.tables[t] == tables[t]
  {
  }
}
