// octavia/api/v1/controllers/load_balancer.py: LoadBalancersController. Every
// write goes through the load balancer's provisioning status; only PUT passes
// the mutable-status gate.

module LoadBalancerController {
  import opened Values
  import opened Models
  import opened Repositories
  import opened CompoundRepositories
  import opened ControllerBase
  import ApiTypes
  import Handler

  const VIP := "vip"

  /** get_one: the load balancer with that id, or NotFound. */
  method GetOne(s: Session, id: Value) returns (r: Result<Row>)
    requires s.Valid()
    ensures r.Err? <==> !AnyMatch(s.tables[LoadBalancerT], By(ID, id))
    ensures r.Err? ==> r.error == NotFound
    ensures r.Ok? ==> r.value in s.tables[LoadBalancerT] && DictGet(r.value, ID) == id
  {
    var lb := Get(s, LoadBalancerT, By(ID, id));
    if lb.None? {
      return Err(NotFound);
    }
    return Ok(lb.value);
  }

  /**
   * get_all: the load balancers whose tenant_id is `tenantId`. Without the
   * query parameter `tenantId` is None, which filters on IS NULL: only
   * load balancers without a tenant are listed.
   */
  method GetAll(s: Session, tenantId: Value) returns (r: seq<Row>)
    requires s.Valid()
    ensures forall x :: x in r <==> x in s.tables[LoadBalancerT] && DictGet(x, TENANT_ID) == tenantId
  {
    r := Repositories.GetAll(s, LoadBalancerT, By(TENANT_ID, tenantId));
  }

  // --------------------------------------------------------------- post

  function PostResponse(tables: Tables, lookups: Lookups, lbDict: Dict, freshId: string, handlerFails: bool): Response
    requires Complete(tables)
  {
    if VIP !in lbDict then Response(Err(KeyError), tables, None)
    else
      var vip := lbDict[VIP];
      var d := (lbDict - {VIP})[PROVISIONING_STATUS := PENDING_CREATE][OPERATING_STATUS := OFFLINE];
      if !vip.VDict? then Response(Err(TypeError), tables, None)
      else
        var o := CreateLbAndVipOutcome(tables, lookups, d, vip.entries, freshId);
        CreateLbAndVipKeepsTables(tables, lookups, d, vip.entries, freshId);
        if o.result.Err? then Response(Err(o.result.error), o.tables, None)
        else
          var lb := o.result.value;
          var call := Some(HandlerCall(Some(lb), Handler.CREATE));
          if handlerFails then Response(Ok(lb), SetStatus(o.tables, LoadBalancerT, DictGet(lb, ID), PROVISIONING_STATUS, ERROR), call)
          else Response(Ok(lb), o.tables, call)
  }

  /**
   * post: pop the VIP out of the request (KeyError when absent), mark the
   * load balancer PENDING_CREATE and OFFLINE, store it with its VIP, call
   * the handler with CREATE, and on a handler failure write ERROR. The
   * record returned is the one read before that write.
   */
  method Post(s: Session, body: ApiTypes.ApiObj, freshId: string, handlerFails: bool) returns (r: Result<Row>, call: Option<HandlerCall>)
    requires s.Valid()
    modifies s
    ensures s.Valid()
    ensures Response(r, s.tables, call) == PostResponse(old(s.tables), s.lookups, ApiTypes.Render(body, true), freshId, handlerFails)
  {
    var lbDict := ApiTypes.ToDict(body, true);
    if VIP !in lbDict {
      return Err(KeyError), None;
    }
    var vip := lbDict[VIP];
    lbDict := lbDict - {VIP};
    lbDict := lbDict[PROVISIONING_STATUS := PENDING_CREATE];
    lbDict := lbDict[OPERATING_STATUS := OFFLINE];
    if !vip.VDict? {
      return Err(TypeError), None;
    }
    var created := CreateLoadBalancerAndVip(s, lbDict, vip.entries, freshId);
    if created.Err? {
      return Err(created.error), None;
    }
    var lb := created.value;
    call := Some(HandlerCall(Some(lb), Handler.CREATE));
    if handlerFails {
      WriteStatus(s, LoadBalancerT, DictGet(lb, ID), PROVISIONING_STATUS, ERROR);
    }
    r := Ok(lb);
  }

  // ----------------------------------------------- the handler, then ERROR

  /** Read the load balancer back, call the handler, and write ERROR if it raises; a None record makes `db_lb.id` fail. */
  function Handled(tables: Tables, id: Value, change: Handler.ChangeType, handlerFails: bool): Response
    requires Complete(tables)
  {
    var db := RowById(tables, LoadBalancerT, id);
    var call := Some(HandlerCall(db, change));
    if db.None? then Response(Err(AttributeError), tables, call)
    else if handlerFails then Response(Ok(db.value), SetStatus(tables, LoadBalancerT, DictGet(db.value, ID), PROVISIONING_STATUS, ERROR), call)
    else Response(Ok(db.value), tables, call)
  }

  method Handle(s: Session, id: Value, change: Handler.ChangeType, handlerFails: bool) returns (r: Result<Row>, call: Option<HandlerCall>)
    requires s.Valid()
    modifies s
    ensures s.Valid()
    ensures Response(r, s.tables, call) == Handled(old(s.tables), id, change, handlerFails)
  {
    var db := Get(s, LoadBalancerT, By(ID, id));
    call := Some(HandlerCall(db, change));
    if db.None? {
      return Err(AttributeError), call;
    }
    if handlerFails {
      WriteStatus(s, LoadBalancerT, DictGet(db.value, ID), PROVISIONING_STATUS, ERROR);
    }
    r := Ok(db.value);
  }

  // ---------------------------------------------------------------- put

  function PutResponse(tables: Tables, lookups: Lookups, id: Value, lbDict: Dict, mutable: set<Value>, handlerFails: bool): Response
    requires Complete(tables)
  {
    match RowById(tables, LoadBalancerT, id)
    case None => Response(Err(NotFound), tables, None)
    case Some(before) =>
      var gate := TestAndSetOutcome(tables, lookups, id, PENDING_UPDATE, mutable);
      TestAndSetKeepsTables(tables, lookups, id, PENDING_UPDATE, mutable);
      if gate.result.Err? then
        Response(Err(if gate.result.error == ImmutableStatus then ImmutableObject else gate.result.error), gate.tables, None)
      else
        FieldsThenHandled(gate.tables, lookups, id, lbDict[OPERATING_STATUS := DictGet(before, OPERATING_STATUS)], handlerFails)
  }

  /** The second half of put: write the fields, then the handler with UPDATE. */
  function FieldsThenHandled(tables: Tables, lookups: Lookups, id: Value, d: Dict, handlerFails: bool): Response
    requires Complete(tables)
  {
    var u := KeyedUpdateOutcome(tables, lookups, LoadBalancerT, id, d);
    UpdateKeepsTables(tables, lookups, LoadBalancerT, By(ID, id), d);
    if u.result.Err? then Response(Err(u.result.error), u.tables, None)
    else Handled(u.tables, id, Handler.UPDATE, handlerFails)
  }

  /**
   * put: NotFound for an unknown id; then the mutable-status gate, whose
   * ImmutableStatus becomes ImmutableObject; then the fields the request
   * set, with the old operating status; then the handler with UPDATE.
   */
  method Put(s: Session, id: Value, body: ApiTypes.ApiObj, mutable: set<Value>, handlerFails: bool) returns (r: Result<Row>, call: Option<HandlerCall>)
    requires s.Valid()
    modifies s
    ensures s.Valid()
    ensures Response(r, s.tables, call) == PutResponse(old(s.tables), s.lookups, id, ApiTypes.Render(body, false), mutable, handlerFails)
  {
    var before := Get(s, LoadBalancerT, By(ID, id));
    if before.None? {
      return Err(NotFound), None;
    }
    var gate := TestAndSetProvisioningStatus(s, id, PENDING_UPDATE, mutable);
    if gate.Err? {
      if gate.error == ImmutableStatus {
        return Err(ImmutableObject), None;
      }
      return Err(gate.error), None;
    }
    var lbDict := ApiTypes.ToDict(body, false);
    lbDict := lbDict[OPERATING_STATUS := DictGet(before.value, OPERATING_STATUS)];
    var u := Update(s, LoadBalancerT, id, lbDict);
    if u.Err? {
      return Err(u.error), None;
    }
    r, call := Handle(s, id, Handler.UPDATE, handlerFails);
  }

  // ------------------------------------------------------------- delete

  function DeleteResponse(tables: Tables, id: Value, handlerFails: bool): Response
    requires Complete(tables)
  {
    match RowById(tables, LoadBalancerT, id)
    case None => Response(Err(NotFound), tables, None)
    case Some(_) =>
      SetStatusKeepsTables(tables, LoadBalancerT, id, PROVISIONING_STATUS, PENDING_DELETE);
      Handled(SetStatus(tables, LoadBalancerT, id, PROVISIONING_STATUS, PENDING_DELETE), id, Handler.DELETE, handlerFails)
  }

  /** delete: NotFound for an unknown id; otherwise PENDING_DELETE with no gate, then the handler with DELETE. No row is removed. */
  method Delete(s: Session, id: Value, handlerFails: bool) returns (r: Result<Row>, call: Option<HandlerCall>)
    requires s.Valid()
    modifies s
    ensures s.Valid()
    ensures Response(r, s.tables, call) == DeleteResponse(old(s.tables), id, handlerFails)
  {
    var db := Get(s, LoadBalancerT, By(ID, id));
    if db.None? {
      return Err(NotFound), None;
    }
    WriteStatus(s, LoadBalancerT, id, PROVISIONING_STATUS, PENDING_DELETE);
    r, call := Handle(s, id, Handler.DELETE, handlerFails);
  }

  // ----------------------------------------------------------- properties

  /** put and delete refuse an unknown id with NotFound before writing anything. */
  lemma {:induction false} UnknownIdNotFound(tables: Tables, lookups: Lookups, id: Value, lbDict: Dict, mutable: set<Value>, handlerFails: bool)
    requires Complete(tables) && !AnyMatch(tables[LoadBalancerT], By(ID, id))
    ensures PutResponse(tables, lookups, id, lbDict, mutable, handlerFails) == Response(Err(NotFound), tables, None)
    ensures DeleteResponse(tables, id, handlerFails) == Response(Err(NotFound), tables, None)
  {
  }

  /**
   * post: the load balancer is stored under the fresh id with
   * PENDING_CREATE and OFFLINE, its VIP points to it, and the handler is
   * called with that record. A handler failure leaves the stored row in
   * ERROR while the response still carries PENDING_CREATE. Any failure
   * before the handler stores nothing and calls no handler.
   */
  lemma {:induction false} PostStoresPending(tables: Tables, lookups: Lookups, lbDict: Dict, freshId: string, handlerFails: bool)
    requires Valid(tables)
    ensures var o := PostResponse(tables, lookups, lbDict, freshId, handlerFails);
      (VIP !in lbDict ==> o == Response(Err(KeyError), tables, None)) &&
      (o.result.Err? ==> o.tables == tables && o.call.None?)
    ensures var o := PostResponse(tables, lookups, lbDict, freshId, handlerFails);
      o.result.Ok? ==>
        var lb := o.result.value;
        DictGet(lb, ID) == VStr(freshId) && VIP !in lb &&
        DictGet(lb, PROVISIONING_STATUS) == PENDING_CREATE && DictGet(lb, OPERATING_STATUS) == OFFLINE &&
        o.call == Some(HandlerCall(Some(lb), Handler.CREATE)) &&
        |o.tables[LoadBalancerT]| == |tables[LoadBalancerT]| + 1 &&
        RowById(o.tables, LoadBalancerT, VStr(freshId)) ==
          Some(if handlerFails then lb[PROVISIONING_STATUS := ERROR] else lb) &&
        o.tables[VipT] == tables[VipT] + [lbDict[VIP].entries[LOAD_BALANCER_ID := VStr(freshId)]]
  {
    if VIP in lbDict && lbDict[VIP].VDict? {
      var d := (lbDict - {VIP})[PROVISIONING_STATUS := PENDING_CREATE][OPERATING_STATUS := OFFLINE];
      CreateLbAndVipStoresBoth(tables, lookups, d, lbDict[VIP].entries, freshId);
    }
    PostStored(tables, lookups, lbDict, freshId, handlerFails);
  }

  /** The success half of PostStoresPending. */
  lemma {:induction false} PostStored(tables: Tables, lookups: Lookups, lbDict: Dict, freshId: string, handlerFails: bool)
    requires Complete(tables)
    ensures var o := PostResponse(tables, lookups, lbDict, freshId, handlerFails);
      o.result.Ok? ==>
        var lb := o.result.value;
        DictGet(lb, ID) == VStr(freshId) && VIP !in lb &&
        DictGet(lb, PROVISIONING_STATUS) == PENDING_CREATE && DictGet(lb, OPERATING_STATUS) == OFFLINE &&
        o.call == Some(HandlerCall(Some(lb), Handler.CREATE)) &&
        |o.tables[LoadBalancerT]| == |tables[LoadBalancerT]| + 1 &&
        RowById(o.tables, LoadBalancerT, VStr(freshId)) ==
          Some(if handlerFails then lb[PROVISIONING_STATUS := ERROR] else lb) &&
        o.tables[VipT] == tables[VipT] + [lbDict[VIP].entries[LOAD_BALANCER_ID := VStr(freshId)]]
  {
    var o := PostResponse(tables, lookups, lbDict, freshId, handlerFails);
    if o.result.Ok? {
      var vip := lbDict[VIP];
      var d := (lbDict - {VIP})[PROVISIONING_STATUS := PENDING_CREATE][OPERATING_STATUS := OFFLINE];
      var lbRow := d[ID := VStr(freshId)];
      var c := CreateLbAndVipOutcome(tables, lookups, d, vip.entries, freshId);
      CreateLbAndVipStoresBoth(tables, lookups, d, vip.entries, freshId);
      assert c.result == Ok(lbRow);
      assert NewRow(LoadBalancerT, lbRow, freshId) == lbRow;
      assert InsertError(tables, lookups, LoadBalancerT, lbRow).None?;
      GetAfterInsert(tables, lookups, LoadBalancerT, lbRow, 0, ID);
      assert RowById(c.tables, LoadBalancerT, VStr(freshId)) == Some(lbRow);
      if handlerFails {
        StatusWriteKeepsRow(c.tables, LoadBalancerT, VStr(freshId), PROVISIONING_STATUS, ERROR);
      }
    }
  }

  /** put on a load balancer whose status is not mutable: ImmutableObject, nothing written, no handler call. */
  lemma {:induction false} PutRefusesImmutable(tables: Tables, lookups: Lookups, i: nat, lbDict: Dict, mutable: set<Value>, handlerFails: bool)
    requires Valid(tables) && i < |tables[LoadBalancerT]|
    requires DictGet(tables[LoadBalancerT][i], PROVISIONING_STATUS) !in mutable
    ensures PutResponse(tables, lookups, DictGet(tables[LoadBalancerT][i], ID), lbDict, mutable, handlerFails) ==
            Response(Err(ImmutableObject), tables, None)
  {
    GetById(tables, LoadBalancerT, i);
    TestAndSetRefusesImmutable(tables, lookups, i, PENDING_UPDATE, mutable);
  }

  /** The handler step on a load balancer that exists: it is returned and passed to the handler, and ERROR is written if the handler raises. */
  lemma {:induction false} HandledExisting(tables: Tables, id: Value, row: Row, change: Handler.ChangeType, handlerFails: bool)
    requires Complete(tables) && RowById(tables, LoadBalancerT, id) == Some(row)
    ensures var o := Handled(tables, id, change, handlerFails);
      o.result == Ok(row) && o.call == Some(HandlerCall(Some(row), change)) &&
      |o.tables[LoadBalancerT]| == |tables[LoadBalancerT]| &&
      RowById(o.tables, LoadBalancerT, id) == Some(if handlerFails then row[PROVISIONING_STATUS := ERROR] else row)
  {
    assert Matches(row, By(ID, id));
    StatusWriteKeepsRow(tables, LoadBalancerT, id, PROVISIONING_STATUS, ERROR);
  }

  /** The put gate on an existing load balancer whose status is mutable: PENDING_UPDATE is written into it and nothing else. */
  lemma {:induction false} PutGatePasses(tables: Tables, lookups: Lookups, i: nat, mutable: set<Value>)
    requires Valid(tables) && Seeded(lookups) && i < |tables[LoadBalancerT]|
    requires DictGet(tables[LoadBalancerT][i], PROVISIONING_STATUS) in mutable
    ensures var id := DictGet(tables[LoadBalancerT][i], ID);
      var gate := TestAndSetOutcome(tables, lookups, id, PENDING_UPDATE, mutable);
      gate == Outcome(Ok(()), SetStatus(tables, LoadBalancerT, id, PROVISIONING_STATUS, PENDING_UPDATE)) &&
      Valid(gate.tables) &&
      RowById(gate.tables, LoadBalancerT, id) == Some(tables[LoadBalancerT][i][PROVISIONING_STATUS := PENDING_UPDATE])
  {
    var id := DictGet(tables[LoadBalancerT][i], ID);
    OnlyRowWithId(tables, LoadBalancerT, i);
    GetById(tables, LoadBalancerT, i);
    StatusWriteSucceeds(tables, lookups, LoadBalancerT, id, PROVISIONING_STATUS, PENDING_UPDATE);
    StatusWriteKeepsRow(tables, LoadBalancerT, id, PROVISIONING_STATUS, PENDING_UPDATE);
  }

  /**
   * The field write on an existing load balancer: a refused write (only an
   * integrity error) changes nothing and calls no handler; otherwise the
   * handler gets the row with the written fields.
   */
  lemma {:induction false} FieldsThenHandledExisting(tables: Tables, lookups: Lookups, id: Value, pending: Row, d: Dict, handlerFails: bool)
    requires Complete(tables) && RowById(tables, LoadBalancerT, id) == Some(pending)
    ensures var o := FieldsThenHandled(tables, lookups, id, d, handlerFails);
      o.result.Err? ==>
        (if RepeatsParameter(LoadBalancerT, d) then o.result.error == TypeError else IsDBError(o.result.error)) &&
        o.call.None? && o.tables == tables
    ensures var o := FieldsThenHandled(tables, lookups, id, d, handlerFails);
      o.result.Ok? ==>
        o.result.value == pending + d &&
        o.call == Some(HandlerCall(Some(pending + d), Handler.UPDATE)) &&
        RowById(o.tables, LoadBalancerT, id) == Some(if handlerFails then (pending + d)[PROVISIONING_STATUS := ERROR] else pending + d)
  {
    var u := KeyedUpdateOutcome(tables, lookups, LoadBalancerT, id, d);
    KeyedUpdateTypeErrorIffRepeated(tables, lookups, LoadBalancerT, id, d);
    if u.result.Ok? {
      UpdateKeepsFirstMatch(tables[LoadBalancerT], By(ID, id), d);
      assert RowById(u.tables, LoadBalancerT, id) == Some(pending + d);
      HandledExisting(u.tables, id, pending + d, Handler.UPDATE, handlerFails);
    }
  }

  /**
   * put on a mutable load balancer: the gate writes PENDING_UPDATE, then the
   * fields the request set are written while the operating status keeps its
   * old value. If that write is refused the load balancer stays
   * PENDING_UPDATE; otherwise the handler is called with the updated record
   * and a handler failure leaves the row in ERROR.
   */
  lemma {:induction false} PutAppliesSetFields(tables: Tables, lookups: Lookups, i: nat, lbDict: Dict, mutable: set<Value>, handlerFails: bool)
    requires Valid(tables) && Seeded(lookups) && i < |tables[LoadBalancerT]|
    requires DictGet(tables[LoadBalancerT][i], PROVISIONING_STATUS) in mutable
    ensures var row := tables[LoadBalancerT][i]; var id := DictGet(row, ID);
      var o := PutResponse(tables, lookups, id, lbDict, mutable, handlerFails);
      o.result.Err? ==>
        (if RepeatsParameter(LoadBalancerT, lbDict) then o.result.error == TypeError else IsDBError(o.result.error)) &&
        o.call.None? &&
        LoadBalancerT in o.tables && RowById(o.tables, LoadBalancerT, id) == Some(row[PROVISIONING_STATUS := PENDING_UPDATE])
    ensures var row := tables[LoadBalancerT][i]; var id := DictGet(row, ID);
      var o := PutResponse(tables, lookups, id, lbDict, mutable, handlerFails);
      var updated := row[PROVISIONING_STATUS := PENDING_UPDATE] + lbDict[OPERATING_STATUS := DictGet(row, OPERATING_STATUS)];
      o.result.Ok? ==>
        o.result.value == updated &&
        o.call == Some(HandlerCall(Some(updated), Handler.UPDATE)) &&
        LoadBalancerT in o.tables && RowById(o.tables, LoadBalancerT, id) == Some(if handlerFails then updated[PROVISIONING_STATUS := ERROR] else updated)
  {
    var row := tables[LoadBalancerT][i];
    var id := DictGet(row, ID);
    GetById(tables, LoadBalancerT, i);
    PutGatePasses(tables, lookups, i, mutable);
    var gate := TestAndSetOutcome(tables, lookups, id, PENDING_UPDATE, mutable);
    PutAfterGate(tables, lookups, id, row, lbDict, mutable, handlerFails);
    FieldsThenHandledExisting(gate.tables, lookups, id, row[PROVISIONING_STATUS := PENDING_UPDATE],
      lbDict[OPERATING_STATUS := DictGet(row, OPERATING_STATUS)], handlerFails);
  }

  /** Once the gate lets an existing load balancer through, put continues with the field write. */
  lemma {:induction false} PutAfterGate(tables: Tables, lookups: Lookups, id: Value, before: Row, lbDict: Dict, mutable: set<Value>, handlerFails: bool)
    requires Complete(tables) && RowById(tables, LoadBalancerT, id) == Some(before)
    requires TestAndSetOutcome(tables, lookups, id, PENDING_UPDATE, mutable).result.Ok?
    ensures var gate := TestAndSetOutcome(tables, lookups, id, PENDING_UPDATE, mutable);
      Complete(gate.tables) &&
      PutResponse(tables, lookups, id, lbDict, mutable, handlerFails) ==
      FieldsThenHandled(gate.tables, lookups, id, lbDict[OPERATING_STATUS := DictGet(before, OPERATING_STATUS)], handlerFails)
  {
    TestAndSetKeepsTables(tables, lookups, id, PENDING_UPDATE, mutable);
  }

  /** What put writes, column by column: the request's fields, the old operating status, and otherwise the old row with PENDING_UPDATE. */
  lemma {:induction false} PutRowColumns(row: Row, lbDict: Dict, c: string)
    ensures var updated := row[PROVISIONING_STATUS := PENDING_UPDATE] + lbDict[OPERATING_STATUS := DictGet(row, OPERATING_STATUS)];
      (c == OPERATING_STATUS ==> DictGet(updated, c) == DictGet(row, c)) &&
      (c != OPERATING_STATUS && c in lbDict ==> DictGet(updated, c) == lbDict[c]) &&
      (c != OPERATING_STATUS && c !in lbDict && c != PROVISIONING_STATUS ==> DictGet(updated, c) == DictGet(row, c)) &&
      (c == PROVISIONING_STATUS && c !in lbDict ==> DictGet(updated, c) == PENDING_UPDATE)
  {
  }

  /**
   * delete writes PENDING_DELETE whatever the current status, keeps the row,
   * and calls the handler with DELETE; a handler failure leaves it in ERROR.
   */
  lemma {:induction false} DeleteMarksPendingDelete(tables: Tables, i: nat, handlerFails: bool)
    requires Valid(tables) && i < |tables[LoadBalancerT]|
    ensures var row := tables[LoadBalancerT][i]; var id := DictGet(row, ID);
      var o := DeleteResponse(tables, id, handlerFails);
      var marked := row[PROVISIONING_STATUS := PENDING_DELETE];
      o.result == Ok(marked) &&
      o.call == Some(HandlerCall(Some(marked), Handler.DELETE)) &&
      |o.tables[LoadBalancerT]| == |tables[LoadBalancerT]| &&
      RowById(o.tables, LoadBalancerT, id) == Some(if handlerFails then row[PROVISIONING_STATUS := ERROR] else marked)
  {
    var row := tables[LoadBalancerT][i];
    var id := DictGet(row, ID);
    GetById(tables, LoadBalancerT, i);
    var t1 := SetStatus(tables, LoadBalancerT, id, PROVISIONING_STATUS, PENDING_DELETE);
    StatusWriteKeepsRow(tables, LoadBalancerT, id, PROVISIONING_STATUS, PENDING_DELETE);
    var marked := row[PROVISIONING_STATUS := PENDING_DELETE];
    assert DeleteResponse(tables, id, handlerFails) == Handled(t1, id, Handler.DELETE, handlerFails);
    HandledExisting(t1, id, marked, Handler.DELETE, handlerFails);
    assert marked[PROVISIONING_STATUS := ERROR] == row[PROVISIONING_STATUS := ERROR];
  }
}
