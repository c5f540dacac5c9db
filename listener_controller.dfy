// octavia/api/v1/controllers/listener.py: ListenersController, reached under
// one load balancer. Its writes go through the listener's provisioning
// status, with no mutable-status gate; a refused write is reported as a
// duplicate port or an invalid protocol.

module ListenerController {
  import opened Values
  import opened Models
  import opened Repositories
  import opened ControllerBase
  import ApiTypes
  import Handler

  const PROTOCOL_PORT := "protocol_port"

  /** The except clauses around create and update: a duplicate key is a duplicate port, any other DBError an invalid protocol. */
  function WriteError(e: Error): (r: Error)
    ensures IsDBError(e) ==> r in {DuplicateListenerEntry, InvalidOption}
    ensures r == DuplicateListenerEntry <==> e == DBDuplicateEntry || e == DuplicateListenerEntry
    ensures !IsDBError(e) ==> r == e
  {
    if e == DBDuplicateEntry then DuplicateListenerEntry
    else if e == DBError then InvalidOption
    else e
  }

  /** `listener.get(id=...)` followed by the conversion to a response, which fails on None. */
  function ReadBack(tables: Tables, id: Value): Result<Row>
    requires Complete(tables)
  {
    match RowById(tables, ListenerT, id)
    case None => Err(AttributeError)
    case Some(row) => Ok(row)
  }

  /** get_one: the listener with that id under this load balancer, or NotFound. */
  method GetOne(s: Session, loadBalancerId: Value, id: Value) returns (r: Result<Row>)
    requires s.Valid()
    ensures r.Err? <==> forall i :: 0 <= i < |s.tables[ListenerT]| ==>
      !(DictGet(s.tables[ListenerT][i], LOAD_BALANCER_ID) == loadBalancerId && DictGet(s.tables[ListenerT][i], ID) == id)
    ensures r.Err? ==> r.error == NotFound
    ensures r.Ok? ==> (r.value in s.tables[ListenerT] &&
      DictGet(r.value, LOAD_BALANCER_ID) == loadBalancerId && DictGet(r.value, ID) == id)
  {
    var filters := map[LOAD_BALANCER_ID := loadBalancerId, ID := id];
    var db := Get(s, ListenerT, filters);
    if db.None? {
      forall i | 0 <= i < |s.tables[ListenerT]|
        ensures !(DictGet(s.tables[ListenerT][i], LOAD_BALANCER_ID) == loadBalancerId && DictGet(s.tables[ListenerT][i], ID) == id)
      {
        assert !Matches(s.tables[ListenerT][i], filters);
      }
      return Err(NotFound);
    }
    assert Matches(db.value, filters);
    return Ok(db.value);
  }

  /** get_all: the listeners of this load balancer. */
  method GetAll(s: Session, loadBalancerId: Value) returns (r: seq<Row>)
    requires s.Valid()
    ensures forall x :: x in r <==> x in s.tables[ListenerT] && DictGet(x, LOAD_BALANCER_ID) == loadBalancerId
  {
    r := Repositories.GetAll(s, ListenerT, By(LOAD_BALANCER_ID, loadBalancerId));
  }

  // ----------------------------------------------- the handler, then ERROR

  /** Call the handler on `db`; if it raises, write ERROR on that listener; then read it back. A None record makes `db_listener.id` fail. */
  function Handled(tables: Tables, db: Option<Row>, change: Handler.ChangeType, handlerFails: bool): Response
    requires Complete(tables)
  {
    var call := Some(HandlerCall(db, change));
    if db.None? then Response(Err(AttributeError), tables, call)
    else
      var key := DictGet(db.value, ID);
      var after := if handlerFails then SetStatus(tables, ListenerT, key, PROVISIONING_STATUS, ERROR) else tables;
      SetStatusKeepsTables(tables, ListenerT, key, PROVISIONING_STATUS, ERROR);
      Response(ReadBack(after, key), after, call)
  }

  method Handle(s: Session, db: Option<Row>, change: Handler.ChangeType, handlerFails: bool) returns (r: Result<Row>, call: Option<HandlerCall>)
    requires s.Valid()
    modifies s
    ensures s.Valid()
    ensures Response(r, s.tables, call) == Handled(old(s.tables), db, change, handlerFails)
  {
    call := Some(HandlerCall(db, change));
    if db.None? {
      return Err(AttributeError), call;
    }
    var key := DictGet(db.value, ID);
    if handlerFails {
      WriteStatus(s, ListenerT, key, PROVISIONING_STATUS, ERROR);
    }
    var back := Get(s, ListenerT, By(ID, key));
    if back.None? {
      return Err(AttributeError), call;
    }
    r := Ok(back.value);
  }

  // --------------------------------------------------------------- post

  function PostResponse(tables: Tables, lookups: Lookups, loadBalancerId: Value, listenerDict: Dict, freshId: string, handlerFails: bool): Response
    requires Complete(tables)
  {
    var d := listenerDict[LOAD_BALANCER_ID := loadBalancerId][PROVISIONING_STATUS := PENDING_CREATE][OPERATING_STATUS := OFFLINE];
    var c := InsertOutcome(tables, lookups, ListenerT, d, freshId);
    InsertKeepsTables(tables, lookups, ListenerT, d, freshId);
    if c.result.Err? then Response(Err(WriteError(c.result.error)), c.tables, None)
    else Handled(c.tables, Some(c.result.value), Handler.CREATE, handlerFails)
  }

  /**
   * post: the listener of this load balancer, PENDING_CREATE and OFFLINE;
   * the handler gets the created record with CREATE; the response is the
   * listener read back afterwards.
   */
  method Post(s: Session, loadBalancerId: Value, body: ApiTypes.ApiObj, freshId: string, handlerFails: bool) returns (r: Result<Row>, call: Option<HandlerCall>)
    requires s.Valid()
    modifies s
    ensures s.Valid()
    ensures Response(r, s.tables, call) == PostResponse(old(s.tables), s.lookups, loadBalancerId, ApiTypes.Render(body, true), freshId, handlerFails)
  {
    var listenerDict := ApiTypes.ToDict(body, true);
    listenerDict := listenerDict[LOAD_BALANCER_ID := loadBalancerId];
    listenerDict := listenerDict[PROVISIONING_STATUS := PENDING_CREATE];
    listenerDict := listenerDict[OPERATING_STATUS := OFFLINE];
    var created := Create(s, ListenerT, listenerDict, freshId);
    if created.Err? {
      return Err(WriteError(created.error)), None;
    }
    r, call := Handle(s, Some(created.value), Handler.CREATE, handlerFails);
  }

  // ---------------------------------------------------------------- put

  function PutResponse(tables: Tables, lookups: Lookups, id: Value, listenerDict: Dict, handlerFails: bool): Response
    requires Complete(tables)
  {
    match RowById(tables, ListenerT, id)
    case None => Response(Err(NotFound), tables, None)
    case Some(before) =>
      var d := listenerDict[PROVISIONING_STATUS := PENDING_UPDATE][OPERATING_STATUS := DictGet(before, OPERATING_STATUS)];
      FieldsThenHandled(tables, lookups, id, d, handlerFails)
  }

  /** The second half of put: write the fields, then the handler with UPDATE on the listener read back. */
  function FieldsThenHandled(tables: Tables, lookups: Lookups, id: Value, d: Dict, handlerFails: bool): Response
    requires Complete(tables)
  {
    var u := KeyedUpdateOutcome(tables, lookups, ListenerT, id, d);
    UpdateKeepsTables(tables, lookups, ListenerT, By(ID, id), d);
    if u.result.Err? then Response(Err(WriteError(u.result.error)), u.tables, None)
    else Handled(u.tables, RowById(u.tables, ListenerT, id), Handler.UPDATE, handlerFails)
  }

  /**
   * put: NotFound for an unknown id; otherwise the fields the request set,
   * PENDING_UPDATE and the old operating status in one update, then the
   * handler with UPDATE.
   */
  method Put(s: Session, id: Value, body: ApiTypes.ApiObj, handlerFails: bool) returns (r: Result<Row>, call: Option<HandlerCall>)
    requires s.Valid()
    modifies s
    ensures s.Valid()
    ensures Response(r, s.tables, call) == PutResponse(old(s.tables), s.lookups, id, ApiTypes.Render(body, false), handlerFails)
  {
    var before := Get(s, ListenerT, By(ID, id));
    if before.None? {
      return Err(NotFound), None;
    }
    var listenerDict := ApiTypes.ToDict(body, false);
    listenerDict := listenerDict[PROVISIONING_STATUS := PENDING_UPDATE];
    listenerDict := listenerDict[OPERATING_STATUS := DictGet(before.value, OPERATING_STATUS)];
    var u := Update(s, ListenerT, id, listenerDict);
    if u.Err? {
      return Err(WriteError(u.error)), None;
    }
    var db := Get(s, ListenerT, By(ID, id));
    r, call := Handle(s, db, Handler.UPDATE, handlerFails);
  }

  // ------------------------------------------------------------- delete

  function DeleteResponse(tables: Tables, id: Value, handlerFails: bool): Response
    requires Complete(tables)
  {
    match RowById(tables, ListenerT, id)
    case None => Response(Err(NotFound), tables, None)
    case Some(_) =>
      var marked := SetStatus(tables, ListenerT, id, PROVISIONING_STATUS, PENDING_DELETE);
      SetStatusKeepsTables(tables, ListenerT, id, PROVISIONING_STATUS, PENDING_DELETE);
      Handled(marked, RowById(marked, ListenerT, id), Handler.DELETE, handlerFails)
  }

  /** delete: NotFound for an unknown id; otherwise PENDING_DELETE, then the handler with DELETE. No row is removed. */
  method Delete(s: Session, id: Value, handlerFails: bool) returns (r: Result<Row>, call: Option<HandlerCall>)
    requires s.Valid()
    modifies s
    ensures s.Valid()
    ensures Response(r, s.tables, call) == DeleteResponse(old(s.tables), id, handlerFails)
  {
    var db := Get(s, ListenerT, By(ID, id));
    if db.None? {
      return Err(NotFound), None;
    }
    WriteStatus(s, ListenerT, id, PROVISIONING_STATUS, PENDING_DELETE);
    db := Get(s, ListenerT, By(ID, id));
    r, call := Handle(s, db, Handler.DELETE, handlerFails);
  }

  // ----------------------------------------------------------- properties

  /** The handler step on a listener that exists: it is passed to the handler and read back, in ERROR if the handler raised. */
  lemma {:induction false} HandledExisting(tables: Tables, row: Row, change: Handler.ChangeType, handlerFails: bool)
    requires Complete(tables) && RowById(tables, ListenerT, DictGet(row, ID)) == Some(row)
    ensures var o := Handled(tables, Some(row), change, handlerFails);
      o.result == Ok(if handlerFails then row[PROVISIONING_STATUS := ERROR] else row) &&
      o.call == Some(HandlerCall(Some(row), change)) &&
      |o.tables[ListenerT]| == |tables[ListenerT]| &&
      (forall t :: t != ListenerT ==> o.tables[t] == tables[t])
  {
    StatusWriteKeepsRow(tables, ListenerT, DictGet(row, ID), PROVISIONING_STATUS, ERROR);
  }

  /** put and delete refuse an unknown id with NotFound before writing anything. */
  lemma {:induction false} UnknownIdNotFound(tables: Tables, lookups: Lookups, id: Value, listenerDict: Dict, handlerFails: bool)
    requires Complete(tables) && !AnyMatch(tables[ListenerT], By(ID, id))
    ensures PutResponse(tables, lookups, id, listenerDict, handlerFails) == Response(Err(NotFound), tables, None)
    ensures DeleteResponse(tables, id, handlerFails) == Response(Err(NotFound), tables, None)
  {
  }

  /** A row a successful insert appended is the only one with its id, so a status write by that id touches it alone. */
  lemma {:induction false} StatusWriteOnAppended(tables: Tables, lookups: Lookups, row: Row, column: string, v: Value)
    requires Complete(tables) && InsertError(tables, lookups, ListenerT, row).None? && DictGet(row, ID) != VNone
    ensures var t' := tables[ListenerT := tables[ListenerT] + [row]];
      SetStatus(t', ListenerT, DictGet(row, ID), column, v)[ListenerT] == tables[ListenerT] + [row + map[column := v]]
  {
    var rows := tables[ListenerT];
    var f := By(ID, DictGet(row, ID));
    var updated := UpdatedRows(rows + [row], f, map[column := v]);
    forall i | 0 <= i < |rows| ensures updated[i] == rows[i] {
      assert !Collide(ListenerT, row, rows[i]);
      assert !SameKey(row, rows[i], SchemaOf(ListenerT).uniques[0]);
      assert !Matches(rows[i], f);
    }
    assert Matches((rows + [row])[|rows|], f);
    assert updated == rows + [row + map[column := v]];
  }

  /**
   * post: a refused insert stores nothing, calls no handler and is reported
   * as a duplicate port, an invalid protocol, or a TypeError exactly when
   * the request carries a keyword that is not a listener column. Otherwise exactly one
   * listener is appended: the handler gets it with CREATE, it belongs to
   * this load balancer with PENDING_CREATE and OFFLINE, and the response is
   * that listener as stored, in ERROR if the handler raised.
   */
  lemma {:induction false} PostStoresPending(tables: Tables, lookups: Lookups, loadBalancerId: Value, listenerDict: Dict, freshId: string, handlerFails: bool)
    requires Valid(tables)
    ensures var o := PostResponse(tables, lookups, loadBalancerId, listenerDict, freshId, handlerFails);
      o.result.Err? ==> o.tables == tables && o.call.None? && o.result.error in {DuplicateListenerEntry, InvalidOption, TypeError}
    ensures PostResponse(tables, lookups, loadBalancerId, listenerDict, freshId, handlerFails).result == Err(TypeError) <==>
      !(listenerDict.Keys <= Columns(ListenerT))
    ensures var o := PostResponse(tables, lookups, loadBalancerId, listenerDict, freshId, handlerFails);
      o.result.Ok? ==>
        o.call.Some? && o.call.value.change == Handler.CREATE && o.call.value.entity.Some? &&
        var created := o.call.value.entity.value;
        DictGet(created, LOAD_BALANCER_ID) == loadBalancerId &&
        DictGet(created, PROVISIONING_STATUS) == PENDING_CREATE && DictGet(created, OPERATING_STATUS) == OFFLINE &&
        DictGet(created, ID) == (if DictGet(listenerDict, ID) != VNone then listenerDict[ID] else VStr(freshId)) &&
        o.result.value == (if handlerFails then created[PROVISIONING_STATUS := ERROR] else created) &&
        ListenerT in o.tables && o.tables[ListenerT] == tables[ListenerT] + [o.result.value] &&
        (forall t :: t != ListenerT ==> t in o.tables && o.tables[t] == tables[t])
  {
    var d := listenerDict[LOAD_BALANCER_ID := loadBalancerId][PROVISIONING_STATUS := PENDING_CREATE][OPERATING_STATUS := OFFLINE];
    var c := InsertOutcome(tables, lookups, ListenerT, d, freshId);
    InsertTypeErrorIffUnknownKeyword(tables, lookups, ListenerT, d, freshId);
    assert d.Keys == listenerDict.Keys + {LOAD_BALANCER_ID, PROVISIONING_STATUS, OPERATING_STATUS};
    if c.result.Ok? {
      var row := c.result.value;
      assert row == NewRow(ListenerT, d, freshId);
      assert DictGet(row, LOAD_BALANCER_ID) == loadBalancerId;
      assert DictGet(row, PROVISIONING_STATUS) == PENDING_CREATE && DictGet(row, OPERATING_STATUS) == OFFLINE;
      assert c.tables == tables[ListenerT := tables[ListenerT] + [row]];
      assert PostResponse(tables, lookups, loadBalancerId, listenerDict, freshId, handlerFails) == Handled(c.tables, Some(row), Handler.CREATE, handlerFails);
      InsertedThenHandled(tables, lookups, row, handlerFails);
    }
  }

  /** The handler step on the listener an insert just appended: the handler gets it, and it is stored and returned, in ERROR if the handler raised. */
  lemma {:induction false} InsertedThenHandled(tables: Tables, lookups: Lookups, row: Row, handlerFails: bool)
    requires Complete(tables) && InsertError(tables, lookups, ListenerT, row).None? && DictGet(row, ID) != VNone
    ensures var o := Handled(tables[ListenerT := tables[ListenerT] + [row]], Some(row), Handler.CREATE, handlerFails);
      var stored := if handlerFails then row[PROVISIONING_STATUS := ERROR] else row;
      o.result == Ok(stored) && o.call == Some(HandlerCall(Some(row), Handler.CREATE)) &&
      ListenerT in o.tables && o.tables[ListenerT] == tables[ListenerT] + [stored] &&
      (forall t :: t != ListenerT ==> t in o.tables && o.tables[t] == tables[t])
  {
    var appended := tables[ListenerT := tables[ListenerT] + [row]];
    GetAfterInsert(tables, lookups, ListenerT, row, 0, ID);
    HandledExisting(appended, row, Handler.CREATE, handlerFails);
    if handlerFails {
      StatusWriteOnAppended(tables, lookups, row, PROVISIONING_STATUS, ERROR);
      UpdateOneKey(row, PROVISIONING_STATUS, ERROR);
    }
  }

  /**
   * A second listener on the same load balancer and port: the insert
   * violates the (load_balancer_id, protocol_port) key and post answers
   * DuplicateListenerEntry, having stored nothing and called no handler.
   */
  lemma {:induction false} PostDuplicatePortRejected(tables: Tables, lookups: Lookups, loadBalancerId: Value, listenerDict: Dict, freshId: string, handlerFails: bool, j: nat)
    requires Valid(tables) && j < |tables[ListenerT]| && loadBalancerId != VNone
    requires DictGet(tables[ListenerT][j], LOAD_BALANCER_ID) == loadBalancerId
    requires DictGet(listenerDict, PROTOCOL_PORT) == DictGet(tables[ListenerT][j], PROTOCOL_PORT)
    requires DictGet(listenerDict, "protocol") != VNone && DictGet(listenerDict, "enabled") != VNone
    requires listenerDict.Keys <= Columns(ListenerT)
    ensures PostResponse(tables, lookups, loadBalancerId, listenerDict, freshId, handlerFails) ==
            Response(Err(DuplicateListenerEntry), tables, None)
  {
    var d := listenerDict[LOAD_BALANCER_ID := loadBalancerId][PROVISIONING_STATUS := PENDING_CREATE][OPERATING_STATUS := OFFLINE];
    var row := NewRow(ListenerT, d, freshId);
    InsertTypeErrorIffUnknownKeyword(tables, lookups, ListenerT, d, freshId);
    assert d.Keys == listenerDict.Keys + {LOAD_BALANCER_ID, PROVISIONING_STATUS, OPERATING_STATUS};
    var other := tables[ListenerT][j];
    assert TableValid(ListenerT, tables[ListenerT]);
    assert NotNullOk(ListenerT, other);
    assert NotNullOk(ListenerT, row);
    assert SameKey(row, other, SchemaOf(ListenerT).uniques[1]);
    assert Collide(ListenerT, row, other);
    assert InsertError(tables, lookups, ListenerT, row) == Some(DBDuplicateEntry);
  }

  /**
   * put on an existing listener: the request's fields, PENDING_UPDATE and
   * the old operating status are written in one update. A refused update
   * changes nothing and is reported as a duplicate port or an invalid
   * protocol; otherwise the handler gets the updated listener with UPDATE
   * and the response is that listener, in ERROR if the handler raised.
   */
  lemma {:induction false} PutMarksPendingUpdate(tables: Tables, lookups: Lookups, i: nat, listenerDict: Dict, handlerFails: bool)
    requires Valid(tables) && i < |tables[ListenerT]|
    ensures var row := tables[ListenerT][i];
      var o := PutResponse(tables, lookups, DictGet(row, ID), listenerDict, handlerFails);
      o.result.Err? ==>
        o.tables == tables && o.call.None? &&
        (if RepeatsParameter(ListenerT, listenerDict) then o.result.error == TypeError
         else o.result.error in {DuplicateListenerEntry, InvalidOption})
    ensures var row := tables[ListenerT][i];
      var o := PutResponse(tables, lookups, DictGet(row, ID), listenerDict, handlerFails);
      var updated := row + listenerDict[PROVISIONING_STATUS := PENDING_UPDATE][OPERATING_STATUS := DictGet(row, OPERATING_STATUS)];
      o.result.Ok? ==>
        DictGet(updated, PROVISIONING_STATUS) == PENDING_UPDATE &&
        DictGet(updated, OPERATING_STATUS) == DictGet(row, OPERATING_STATUS) &&
        o.call == Some(HandlerCall(Some(updated), Handler.UPDATE)) &&
        o.result.value == (if handlerFails then updated[PROVISIONING_STATUS := ERROR] else updated) &&
        ListenerT in o.tables && |o.tables[ListenerT]| == |tables[ListenerT]|
  {
    GetById(tables, ListenerT, i);
    PutExisting(tables, lookups, tables[ListenerT][i], listenerDict, handlerFails);
  }

  /** PutMarksPendingUpdate for a listener that the lookup by its id finds. */
  lemma {:induction false} PutExisting(tables: Tables, lookups: Lookups, row: Row, listenerDict: Dict, handlerFails: bool)
    requires Complete(tables) && RowById(tables, ListenerT, DictGet(row, ID)) == Some(row)
    ensures var o := PutResponse(tables, lookups, DictGet(row, ID), listenerDict, handlerFails);
      o.result.Err? ==>
        o.tables == tables && o.call.None? &&
        (if RepeatsParameter(ListenerT, listenerDict) then o.result.error == TypeError
         else o.result.error in {DuplicateListenerEntry, InvalidOption})
    ensures var o := PutResponse(tables, lookups, DictGet(row, ID), listenerDict, handlerFails);
      var updated := row + listenerDict[PROVISIONING_STATUS := PENDING_UPDATE][OPERATING_STATUS := DictGet(row, OPERATING_STATUS)];
      o.result.Ok? ==>
        DictGet(updated, PROVISIONING_STATUS) == PENDING_UPDATE &&
        DictGet(updated, OPERATING_STATUS) == DictGet(row, OPERATING_STATUS) &&
        o.call == Some(HandlerCall(Some(updated), Handler.UPDATE)) &&
        o.result.value == (if handlerFails then updated[PROVISIONING_STATUS := ERROR] else updated) &&
        ListenerT in o.tables && |o.tables[ListenerT]| == |tables[ListenerT]|
  {
    var id := DictGet(row, ID);
    var d := listenerDict[PROVISIONING_STATUS := PENDING_UPDATE][OPERATING_STATUS := DictGet(row, OPERATING_STATUS)];
    assert PutResponse(tables, lookups, id, listenerDict, handlerFails) == FieldsThenHandled(tables, lookups, id, d, handlerFails);
    StatusKeyRepeatsNothing(ListenerT, listenerDict, PROVISIONING_STATUS, PENDING_UPDATE);
    StatusKeyRepeatsNothing(ListenerT, listenerDict[PROVISIONING_STATUS := PENDING_UPDATE], OPERATING_STATUS, DictGet(row, OPERATING_STATUS));
    FieldsThenHandledExisting(tables, lookups, row, d, handlerFails);
  }

  /** The second half of put on a listener that exists: the outcome of the update decides the answer. */
  lemma {:induction false} FieldsThenHandledExisting(tables: Tables, lookups: Lookups, row: Row, d: Dict, handlerFails: bool)
    requires Complete(tables) && RowById(tables, ListenerT, DictGet(row, ID)) == Some(row)
    ensures var o := FieldsThenHandled(tables, lookups, DictGet(row, ID), d, handlerFails);
      o.result.Err? ==>
        o.tables == tables && o.call.None? &&
        (if RepeatsParameter(ListenerT, d) then o.result.error == TypeError
         else o.result.error in {DuplicateListenerEntry, InvalidOption})
    ensures var o := FieldsThenHandled(tables, lookups, DictGet(row, ID), d, handlerFails);
      o.result.Ok? ==>
        o.call == Some(HandlerCall(Some(row + d), Handler.UPDATE)) &&
        o.result.value == (if handlerFails then (row + d)[PROVISIONING_STATUS := ERROR] else row + d) &&
        ListenerT in o.tables && |o.tables[ListenerT]| == |tables[ListenerT]|
  {
    var id := DictGet(row, ID);
    var u := KeyedUpdateOutcome(tables, lookups, ListenerT, id, d);
    KeyedUpdateTypeErrorIffRepeated(tables, lookups, ListenerT, id, d);
    if RepeatsParameter(ListenerT, d) {
      assert u == Outcome(Err(TypeError), tables);
    } else {
      assert KeyColumn(ListenerT) == ID;
      assert u == UpdateOutcome(tables, lookups, ListenerT, By(ID, id), d);
      if u.result.Err? {
        assert IsDBError(u.result.error);
      } else {
        UpdatedListenerHandled(tables, lookups, row, d, handlerFails);
      }
    }
  }

  /** A successful update of an existing listener: the handler gets the row with the fields written. */
  lemma {:induction false} UpdatedListenerHandled(tables: Tables, lookups: Lookups, row: Row, d: Dict, handlerFails: bool)
    requires Complete(tables) && RowById(tables, ListenerT, DictGet(row, ID)) == Some(row)
    requires !RepeatsParameter(ListenerT, d)
    requires UpdateOutcome(tables, lookups, ListenerT, By(ID, DictGet(row, ID)), d).result.Ok?
    ensures var u := UpdateOutcome(tables, lookups, ListenerT, By(ID, DictGet(row, ID)), d);
      var o := Handled(u.tables, RowById(u.tables, ListenerT, DictGet(row, ID)), Handler.UPDATE, handlerFails);
      o.call == Some(HandlerCall(Some(row + d), Handler.UPDATE)) &&
      o.result == Ok(if handlerFails then (row + d)[PROVISIONING_STATUS := ERROR] else row + d) &&
      ListenerT in o.tables && |o.tables[ListenerT]| == |tables[ListenerT]|
  {
    assert KeyColumn(ListenerT) == ID && ID !in d;
    var id := DictGet(row, ID);
    var u := UpdateOutcome(tables, lookups, ListenerT, By(ID, id), d);
    UpdateKeepsTables(tables, lookups, ListenerT, By(ID, id), d);
    UpdateKeepsFirstMatch(tables[ListenerT], By(ID, id), d);
    assert RowById(u.tables, ListenerT, id) == Some(row + d);
    assert DictGet(row + d, ID) == id;
    HandledExisting(u.tables, row + d, Handler.UPDATE, handlerFails);
  }

  /**
   * put moving a listener onto a port another listener of the same load
   * balancer already uses: the update violates the (load_balancer_id,
   * protocol_port) key, nothing is written, no handler is called, and the
   * answer is DuplicateListenerEntry.
   */
  lemma {:induction false} PutDuplicatePortRejected(tables: Tables, lookups: Lookups, i: nat, j: nat, listenerDict: Dict, handlerFails: bool)
    requires Valid(tables) && i < |tables[ListenerT]| && j < |tables[ListenerT]| && i != j
    requires DictGet(tables[ListenerT][i], LOAD_BALANCER_ID) == DictGet(tables[ListenerT][j], LOAD_BALANCER_ID) != VNone
    requires LOAD_BALANCER_ID !in listenerDict && !RepeatsParameter(ListenerT, listenerDict)
    requires PROTOCOL_PORT in listenerDict && listenerDict[PROTOCOL_PORT] == DictGet(tables[ListenerT][j], PROTOCOL_PORT)
    requires forall c :: c in listenerDict && c in SchemaOf(ListenerT).notNull ==> listenerDict[c] != VNone
    ensures PutResponse(tables, lookups, DictGet(tables[ListenerT][i], ID), listenerDict, handlerFails) ==
            Response(Err(DuplicateListenerEntry), tables, None)
  {
    var rows := tables[ListenerT];
    GetById(tables, ListenerT, i);
    assert TableValid(ListenerT, rows);
    assert NotNullOk(ListenerT, rows[i]) && NotNullOk(ListenerT, rows[j]);
    IdIsUnique(tables, ListenerT, i, j);
    PutRefusedAsDuplicate(tables, lookups, i, j, listenerDict, handlerFails);
  }

  /** PutDuplicatePortRejected once the facts it needs from the table invariant are at hand. */
  lemma {:induction false} PutRefusedAsDuplicate(tables: Tables, lookups: Lookups, i: nat, j: nat, listenerDict: Dict, handlerFails: bool)
    requires Complete(tables) && i < |tables[ListenerT]| && j < |tables[ListenerT]| && i != j
    requires RowById(tables, ListenerT, DictGet(tables[ListenerT][i], ID)) == Some(tables[ListenerT][i])
    requires DictGet(tables[ListenerT][i], ID) != DictGet(tables[ListenerT][j], ID)
    requires NotNullOk(ListenerT, tables[ListenerT][i])
    requires DictGet(tables[ListenerT][i], LOAD_BALANCER_ID) == DictGet(tables[ListenerT][j], LOAD_BALANCER_ID) != VNone
    requires LOAD_BALANCER_ID !in listenerDict && !RepeatsParameter(ListenerT, listenerDict)
    requires PROTOCOL_PORT in listenerDict && listenerDict[PROTOCOL_PORT] == DictGet(tables[ListenerT][j], PROTOCOL_PORT) != VNone
    requires forall c :: c in listenerDict && c in SchemaOf(ListenerT).notNull ==> listenerDict[c] != VNone
    ensures PutResponse(tables, lookups, DictGet(tables[ListenerT][i], ID), listenerDict, handlerFails) ==
            Response(Err(DuplicateListenerEntry), tables, None)
  {
    var row, other := tables[ListenerT][i], tables[ListenerT][j];
    var id := DictGet(row, ID);
    var d := listenerDict[PROVISIONING_STATUS := PENDING_UPDATE][OPERATING_STATUS := DictGet(row, OPERATING_STATUS)];
    assert PutResponse(tables, lookups, id, listenerDict, handlerFails) == FieldsThenHandled(tables, lookups, id, d, handlerFails);
    assert !RepeatsParameter(ListenerT, d);
    PortKeyShared(row, other, listenerDict);
    UpdateCollides(tables, lookups, i, j, By(ID, id), d);
  }

  /** A put that sets the port of `other` and keeps the load balancer of `row` gives the two rows the same (load_balancer_id, protocol_port) key. */
  lemma {:induction false} PortKeyShared(row: Row, other: Row, listenerDict: Dict)
    requires DictGet(row, LOAD_BALANCER_ID) == DictGet(other, LOAD_BALANCER_ID) != VNone
    requires LOAD_BALANCER_ID !in listenerDict
    requires PROTOCOL_PORT in listenerDict && listenerDict[PROTOCOL_PORT] == DictGet(other, PROTOCOL_PORT) != VNone
    ensures SameKey(row + listenerDict[PROVISIONING_STATUS := PENDING_UPDATE][OPERATING_STATUS := DictGet(row, OPERATING_STATUS)],
                    other, SchemaOf(ListenerT).uniques[1])
  {
    var key := SchemaOf(ListenerT).uniques[1];
    assert key == [LOAD_BALANCER_ID, PROTOCOL_PORT];
    assert LOAD_BALANCER_ID[0] != PROVISIONING_STATUS[0] && LOAD_BALANCER_ID[0] != OPERATING_STATUS[0];
    assert PROTOCOL_PORT[3] != PROVISIONING_STATUS[3] && PROTOCOL_PORT[0] != OPERATING_STATUS[0];
  }

  /** An update that makes the matched row `i` share the (load_balancer_id, protocol_port) key with the unmatched row `j` is refused as a duplicate. */
  lemma {:induction false} UpdateCollides(tables: Tables, lookups: Lookups, i: nat, j: nat, f: Dict, d: Dict)
    requires Complete(tables) && i < |tables[ListenerT]| && j < |tables[ListenerT]| && i != j
    requires Matches(tables[ListenerT][i], f) && !Matches(tables[ListenerT][j], f)
    requires forall c :: c in d && c in SchemaOf(ListenerT).notNull ==> d[c] != VNone
    requires SameKey(tables[ListenerT][i] + d, tables[ListenerT][j], SchemaOf(ListenerT).uniques[1])
    ensures UpdateError(tables, lookups, ListenerT, f, d) == Some(DBDuplicateEntry)
  {
    var rows' := UpdatedRows(tables[ListenerT], f, d);
    assert Collide(ListenerT, rows'[i], rows'[j]);
    assert AnyMatch(tables[ListenerT], f);
  }

  /**
   * delete: PENDING_DELETE on an existing listener, which stays in the
   * table; the handler gets it with DELETE and the response is the listener
   * read back, in ERROR if the handler raised.
   */
  lemma {:induction false} DeleteMarksPendingDelete(tables: Tables, i: nat, handlerFails: bool)
    requires Valid(tables) && i < |tables[ListenerT]|
    ensures var row := tables[ListenerT][i];
      var o := DeleteResponse(tables, DictGet(row, ID), handlerFails);
      o.result == Ok(row[PROVISIONING_STATUS := if handlerFails then ERROR else PENDING_DELETE]) &&
      o.call == Some(HandlerCall(Some(row[PROVISIONING_STATUS := PENDING_DELETE]), Handler.DELETE)) &&
      ListenerT in o.tables && |o.tables[ListenerT]| == |tables[ListenerT]|
  {
    var row := tables[ListenerT][i];
    var id := DictGet(row, ID);
    GetById(tables, ListenerT, i);
    var marked := SetStatus(tables, ListenerT, id, PROVISIONING_STATUS, PENDING_DELETE);
    StatusWriteKeepsRow(tables, ListenerT, id, PROVISIONING_STATUS, PENDING_DELETE);
    var pending := row[PROVISIONING_STATUS := PENDING_DELETE];
    assert RowById(marked, ListenerT, id) == Some(pending);
    assert DeleteResponse(tables, id, handlerFails) == Handled(marked, Some(pending), Handler.DELETE, handlerFails);
    HandledExisting(marked, pending, Handler.DELETE, handlerFails);
    StatusOverwritten(row, PENDING_DELETE, ERROR);
  }

  /** A second write of the provisioning status replaces the first. */
  lemma {:induction false} StatusOverwritten(row: Row, first: Value, second: Value)
    ensures row[PROVISIONING_STATUS := first][PROVISIONING_STATUS := second] == row[PROVISIONING_STATUS := second]
  {
  }
}
