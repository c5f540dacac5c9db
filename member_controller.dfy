// octavia/api/v1/controllers/member.py: MembersController, reached under one
// pool of one listener. Every write first marks the listener
// PENDING_UPDATE; a handler failure marks the listener's operating status
// ERROR. Only a duplicate (pool, address, port) is reported as its own error to the
// client; any other database error escapes as it is.

module MemberController {
  import opened Values
  import opened Models
  import opened Repositories
  import opened ControllerBase
  import ApiTypes
  import Handler

  const ADDRESS := "address"
  const PROTOCOL_PORT := "protocol_port"

  /** The except clause around create and update: only a duplicate key is caught, as a duplicate member. */
  function WriteError(e: Error): (r: Error)
    ensures r == DuplicateMemberEntry <==> e == DBDuplicateEntry || e == DuplicateMemberEntry
    ensures e != DBDuplicateEntry ==> r == e
  {
    if e == DBDuplicateEntry then DuplicateMemberEntry else e
  }

  /** get: the member with that id, or NotFound. */
  method Get(s: Session, id: Value) returns (r: Result<Row>)
    requires s.Valid()
    ensures r.Err? <==> forall i :: 0 <= i < |s.tables[MemberT]| ==> DictGet(s.tables[MemberT][i], ID) != id
    ensures r.Err? ==> r.error == NotFound
    ensures r.Ok? ==> r.value in s.tables[MemberT] && DictGet(r.value, ID) == id
  {
    var db := Repositories.Get(s, MemberT, By(ID, id));
    if db.None? {
      forall i | 0 <= i < |s.tables[MemberT]| ensures DictGet(s.tables[MemberT][i], ID) != id {
        assert !Matches(s.tables[MemberT][i], By(ID, id));
      }
      return Err(NotFound);
    }
    assert Matches(db.value, By(ID, id));
    return Ok(db.value);
  }

  /** get_all: the members of this pool. */
  method GetAll(s: Session, poolId: Value) returns (r: seq<Row>)
    requires s.Valid()
    ensures forall x :: x in r <==> x in s.tables[MemberT] && DictGet(x, POOL_ID) == poolId
  {
    r := Repositories.GetAll(s, MemberT, By(POOL_ID, poolId));
  }

  // --------------------------------------------------------------- post

  function PostResponse(tables: Tables, lookups: Lookups, listenerId: Value, poolId: Value, memberDict: Dict, freshId: string, handlerFails: bool): Response
    requires Complete(tables)
  {
    var marked := SetStatus(tables, ListenerT, listenerId, PROVISIONING_STATUS, PENDING_UPDATE);
    SetStatusKeepsTables(tables, ListenerT, listenerId, PROVISIONING_STATUS, PENDING_UPDATE);
    CreateThenHandled(marked, lookups, listenerId, memberDict[POOL_ID := poolId][OPERATING_STATUS := OFFLINE], freshId, handlerFails)
  }

  /** The second half of post: create the member, then the handler with CREATE on it. */
  function CreateThenHandled(tables: Tables, lookups: Lookups, listenerId: Value, d: Dict, freshId: string, handlerFails: bool): Response
    requires Complete(tables)
  {
    InsertKeepsTables(tables, lookups, MemberT, d, freshId);
    AfterCreate(InsertOutcome(tables, lookups, MemberT, d, freshId), listenerId, handlerFails)
  }

  /** What post does with the outcome `c` of `member.create`. */
  function AfterCreate(c: Outcome<Row>, listenerId: Value, handlerFails: bool): Response
    requires Complete(c.tables)
  {
    if c.result.Err? then Response(Err(WriteError(c.result.error)), c.tables, None)
    else ChildHandled(c.tables, MemberT, listenerId, Some(c.result.value), Handler.CREATE, handlerFails, false)
  }

  /**
   * post: the listener goes PENDING_UPDATE, then the member of this pool,
   * OFFLINE, is created and handed to the handler with CREATE.
   */
  method Post(s: Session, listenerId: Value, poolId: Value, body: ApiTypes.ApiObj, freshId: string, handlerFails: bool) returns (r: Result<Row>, call: Option<HandlerCall>)
    requires s.Valid()
    modifies s
    ensures s.Valid()
    ensures Response(r, s.tables, call) == PostResponse(old(s.tables), s.lookups, listenerId, poolId, ApiTypes.Render(body, true), freshId, handlerFails)
  {
    var memberDict := ApiTypes.ToDict(body, true);
    memberDict := memberDict[POOL_ID := poolId];
    memberDict := memberDict[OPERATING_STATUS := OFFLINE];
    WriteStatus(s, ListenerT, listenerId, PROVISIONING_STATUS, PENDING_UPDATE);
    r, call := CreateThenHandle(s, listenerId, memberDict, freshId, handlerFails);
  }

  method CreateThenHandle(s: Session, listenerId: Value, d: Dict, freshId: string, handlerFails: bool) returns (r: Result<Row>, call: Option<HandlerCall>)
    requires s.Valid()
    modifies s
    ensures s.Valid()
    ensures Response(r, s.tables, call) == CreateThenHandled(old(s.tables), s.lookups, listenerId, d, freshId, handlerFails)
  {
    var created := Create(s, MemberT, d, freshId);
    if created.Err? {
      return Err(WriteError(created.error)), None;
    }
    r, call := ChildHandle(s, MemberT, listenerId, Some(created.value), Handler.CREATE, handlerFails, false);
  }

  // ---------------------------------------------------------------- put

  function PutResponse(tables: Tables, lookups: Lookups, listenerId: Value, id: Value, memberDict: Dict, handlerFails: bool): Response
    requires Complete(tables)
  {
    match RowById(tables, MemberT, id)
    case None => Response(Err(NotFound), tables, None)
    case Some(before) =>
      var marked := SetStatus(tables, ListenerT, listenerId, PROVISIONING_STATUS, PENDING_UPDATE);
      SetStatusKeepsTables(tables, ListenerT, listenerId, PROVISIONING_STATUS, PENDING_UPDATE);
      UpdateThenHandled(marked, lookups, listenerId, id, memberDict[OPERATING_STATUS := DictGet(before, OPERATING_STATUS)], handlerFails)
  }

  /** The second half of put: update the member, then the handler with UPDATE on the member read back. */
  function UpdateThenHandled(tables: Tables, lookups: Lookups, listenerId: Value, id: Value, d: Dict, handlerFails: bool): Response
    requires Complete(tables)
  {
    UpdateKeepsTables(tables, lookups, MemberT, By(ID, id), d);
    AfterUpdate(KeyedUpdateOutcome(tables, lookups, MemberT, id, d), listenerId, id, handlerFails)
  }

  /** What put does with the outcome `u` of `member.update`. */
  function AfterUpdate(u: Outcome<()>, listenerId: Value, id: Value, handlerFails: bool): Response
    requires Complete(u.tables)
  {
    if u.result.Err? then Response(Err(WriteError(u.result.error)), u.tables, None)
    else ChildHandled(u.tables, MemberT, listenerId, RowById(u.tables, MemberT, id), Handler.UPDATE, handlerFails, false)
  }

  /**
   * put: NotFound for an unknown member; otherwise the listener goes
   * PENDING_UPDATE and the member gets the fields the request set with its
   * old operating status, then the handler with UPDATE.
   */
  method Put(s: Session, listenerId: Value, id: Value, body: ApiTypes.ApiObj, handlerFails: bool) returns (r: Result<Row>, call: Option<HandlerCall>)
    requires s.Valid()
    modifies s
    ensures s.Valid()
    ensures Response(r, s.tables, call) == PutResponse(old(s.tables), s.lookups, listenerId, id, ApiTypes.Render(body, false), handlerFails)
  {
    var before := Repositories.Get(s, MemberT, By(ID, id));
    if before.None? {
      return Err(NotFound), None;
    }
    var memberDict := ApiTypes.ToDict(body, false);
    memberDict := memberDict[OPERATING_STATUS := DictGet(before.value, OPERATING_STATUS)];
    WriteStatus(s, ListenerT, listenerId, PROVISIONING_STATUS, PENDING_UPDATE);
    r, call := UpdateThenHandle(s, listenerId, id, memberDict, handlerFails);
  }

  /** After a successful `member.update`, what put answers is the handler step on the updated member. */
  lemma {:induction false} UpdatedThenHandled(tables: Tables, lookups: Lookups, listenerId: Value, id: Value, d: Dict, handlerFails: bool, updated: Tables)
    requires Complete(tables)
    requires KeyedUpdateOutcome(tables, lookups, MemberT, id, d) == Outcome(Ok(()), updated)
    ensures Complete(updated)
    ensures UpdateThenHandled(tables, lookups, listenerId, id, d, handlerFails) ==
      ChildHandled(updated, MemberT, listenerId, RowById(updated, MemberT, id), Handler.UPDATE, handlerFails, false)
  {
    UpdateKeepsTables(tables, lookups, MemberT, By(ID, id), d);
    assert UpdateThenHandled(tables, lookups, listenerId, id, d, handlerFails) == AfterUpdate(Outcome(Ok(()), updated), listenerId, id, handlerFails);
  }

  method UpdateThenHandle(s: Session, listenerId: Value, id: Value, d: Dict, handlerFails: bool) returns (r: Result<Row>, call: Option<HandlerCall>)
    requires s.Valid()
    modifies s
    ensures s.Valid()
    ensures Response(r, s.tables, call) == UpdateThenHandled(old(s.tables), s.lookups, listenerId, id, d, handlerFails)
  {
    ghost var before := s.tables;
    assert KeyColumn(MemberT) == ID;
    var u := Update(s, MemberT, id, d);
    if u.Err? {
      RefusedUpdateHandled(before, s.lookups, listenerId, id, d, handlerFails);
      return Err(WriteError(u.error)), None;
    }
    var db := Repositories.Get(s, MemberT, By(ID, id));
    UpdatedThenHandled(before, s.lookups, listenerId, id, d, handlerFails, s.tables);
    r, call := ChildHandle(s, MemberT, listenerId, db, Handler.UPDATE, handlerFails, false);
  }

  // ------------------------------------------------------------- delete

  function DeleteResponse(tables: Tables, listenerId: Value, id: Value, handlerFails: bool): Response
    requires Complete(tables)
  {
    match RowById(tables, MemberT, id)
    case None => Response(Err(NotFound), tables, None)
    case Some(_) =>
      var marked := SetStatus(tables, ListenerT, listenerId, PROVISIONING_STATUS, PENDING_UPDATE);
      SetStatusKeepsTables(tables, ListenerT, listenerId, PROVISIONING_STATUS, PENDING_UPDATE);
      ChildHandled(marked, MemberT, listenerId, RowById(marked, MemberT, id), Handler.UPDATE, handlerFails, false)
  }

  /**
   * delete: NotFound for an unknown member; otherwise the listener goes
   * PENDING_UPDATE and the handler gets the member with UPDATE. No row is
   * removed.
   */
  method Delete(s: Session, listenerId: Value, id: Value, handlerFails: bool) returns (r: Result<Row>, call: Option<HandlerCall>)
    requires s.Valid()
    modifies s
    ensures s.Valid()
    ensures Response(r, s.tables, call) == DeleteResponse(old(s.tables), listenerId, id, handlerFails)
  {
    var db := Repositories.Get(s, MemberT, By(ID, id));
    if db.None? {
      return Err(NotFound), None;
    }
    WriteStatus(s, ListenerT, listenerId, PROVISIONING_STATUS, PENDING_UPDATE);
    db := Repositories.Get(s, MemberT, By(ID, id));
    r, call := ChildHandle(s, MemberT, listenerId, db, Handler.UPDATE, handlerFails, false);
  }

  // ----------------------------------------------------------- properties

  /** put and delete refuse an unknown member with NotFound before writing anything. */
  lemma {:induction false} UnknownIdNotFound(tables: Tables, lookups: Lookups, listenerId: Value, id: Value, memberDict: Dict, handlerFails: bool)
    requires Complete(tables) && !AnyMatch(tables[MemberT], By(ID, id))
    ensures PutResponse(tables, lookups, listenerId, id, memberDict, handlerFails) == Response(Err(NotFound), tables, None)
    ensures DeleteResponse(tables, listenerId, id, handlerFails) == Response(Err(NotFound), tables, None)
  {
  }

  /** The handler step of post on the member `member.create` appended. */
  lemma {:induction false} AfterCreateOk(c: Outcome<Row>, listenerId: Value, member: Row, handlerFails: bool, listener: Option<Row>)
    requires Complete(c.tables) && c.result == Ok(member)
    requires FirstMatch(c.tables[MemberT], By(ID, DictGet(member, ID))) == Some(member)
    requires RowById(c.tables, ListenerT, listenerId) == listener
    ensures var o := AfterCreate(c, listenerId, handlerFails);
      o.result == Ok(member) && o.call == Some(HandlerCall(Some(member), Handler.CREATE)) &&
      MemberT in o.tables && o.tables[MemberT] == c.tables[MemberT] &&
      ListenerT in o.tables &&
      RowById(o.tables, ListenerT, listenerId) ==
        match listener
        case None => None
        case Some(l) => Some(if handlerFails then l[OPERATING_STATUS := ERROR] else l)
  {
    ChildHandledExisting(c.tables, MemberT, listenerId, member, Handler.CREATE, handlerFails, false);
    ChildHandledUnmarked(c.tables, MemberT, listenerId, Some(member), Handler.CREATE, handlerFails);
  }

  /**
   * post: the listener goes PENDING_UPDATE whatever follows. A refused
   * insert stores nothing more and calls no handler; a duplicate key is
   * reported as DuplicateMemberEntry and any other error escapes as it is.
   * Otherwise exactly one member is appended: it belongs to this pool, is
   * OFFLINE, carries the given id or the fresh one, is handed to the handler
   * with CREATE and returned; the listener is in ERROR exactly when the
   * handler raised.
   */
  lemma {:induction false} PostStoresMember(tables: Tables, lookups: Lookups, listenerId: Value, poolId: Value, memberDict: Dict, freshId: string, handlerFails: bool)
    requires Complete(tables)
    ensures var o := PostResponse(tables, lookups, listenerId, poolId, memberDict, freshId, handlerFails);
      o.result.Err? ==>
        o.tables == SetStatus(tables, ListenerT, listenerId, PROVISIONING_STATUS, PENDING_UPDATE) &&
        o.call.None? && o.result.error != DBDuplicateEntry
    ensures PostResponse(tables, lookups, listenerId, poolId, memberDict, freshId, handlerFails).result == Err(TypeError) <==>
      !(memberDict.Keys <= Columns(MemberT))
    ensures var o := PostResponse(tables, lookups, listenerId, poolId, memberDict, freshId, handlerFails);
      o.result.Ok? ==>
        var member := o.result.value;
        DictGet(member, POOL_ID) == poolId && DictGet(member, OPERATING_STATUS) == OFFLINE &&
        DictGet(member, ID) == (if DictGet(memberDict, ID) != VNone then memberDict[ID] else VStr(freshId)) &&
        o.call == Some(HandlerCall(Some(member), Handler.CREATE)) &&
        MemberT in o.tables && o.tables[MemberT] == tables[MemberT] + [member] &&
        ListenerT in o.tables &&
        RowById(o.tables, ListenerT, listenerId) == ListenerMarked(RowById(tables, ListenerT, listenerId), handlerFails)
  {
    PostRefused(tables, lookups, listenerId, poolId, memberDict, freshId, handlerFails);
    PostStored(tables, lookups, listenerId, poolId, memberDict, freshId, handlerFails);
  }

  /** The error half of PostStoresMember. */
  lemma {:induction false} PostRefused(tables: Tables, lookups: Lookups, listenerId: Value, poolId: Value, memberDict: Dict, freshId: string, handlerFails: bool)
    requires Complete(tables)
    ensures var o := PostResponse(tables, lookups, listenerId, poolId, memberDict, freshId, handlerFails);
      o.result.Err? ==>
        o.tables == SetStatus(tables, ListenerT, listenerId, PROVISIONING_STATUS, PENDING_UPDATE) &&
        o.call.None? && o.result.error != DBDuplicateEntry
    ensures PostResponse(tables, lookups, listenerId, poolId, memberDict, freshId, handlerFails).result == Err(TypeError) <==>
      !(memberDict.Keys <= Columns(MemberT))
  {
    var marked := SetStatus(tables, ListenerT, listenerId, PROVISIONING_STATUS, PENDING_UPDATE);
    SetStatusKeepsTables(tables, ListenerT, listenerId, PROVISIONING_STATUS, PENDING_UPDATE);
    var d := memberDict[POOL_ID := poolId][OPERATING_STATUS := OFFLINE];
    var c := InsertOutcome(marked, lookups, MemberT, d, freshId);
    InsertKeepsTables(marked, lookups, MemberT, d, freshId);
    assert PostResponse(tables, lookups, listenerId, poolId, memberDict, freshId, handlerFails) == AfterCreate(c, listenerId, handlerFails);
    if c.result.Ok? {
      CreatedMemberHandled(marked, lookups, listenerId, poolId, memberDict, freshId, handlerFails);
    } else {
      InsertTypeErrorIffUnknownKeyword(marked, lookups, MemberT, d, freshId);
      assert d.Keys == memberDict.Keys + {POOL_ID, OPERATING_STATUS};
    }
  }

  /** The success half of PostStoresMember. */
  lemma {:induction false} PostStored(tables: Tables, lookups: Lookups, listenerId: Value, poolId: Value, memberDict: Dict, freshId: string, handlerFails: bool)
    requires Complete(tables)
    ensures var o := PostResponse(tables, lookups, listenerId, poolId, memberDict, freshId, handlerFails);
      o.result.Ok? ==>
        var member := o.result.value;
        DictGet(member, POOL_ID) == poolId && DictGet(member, OPERATING_STATUS) == OFFLINE &&
        DictGet(member, ID) == (if DictGet(memberDict, ID) != VNone then memberDict[ID] else VStr(freshId)) &&
        o.call == Some(HandlerCall(Some(member), Handler.CREATE)) &&
        MemberT in o.tables && o.tables[MemberT] == tables[MemberT] + [member] &&
        ListenerT in o.tables &&
        RowById(o.tables, ListenerT, listenerId) == ListenerMarked(RowById(tables, ListenerT, listenerId), handlerFails)
  {
    var marked := SetStatus(tables, ListenerT, listenerId, PROVISIONING_STATUS, PENDING_UPDATE);
    SetStatusKeepsTables(tables, ListenerT, listenerId, PROVISIONING_STATUS, PENDING_UPDATE);
    var d := memberDict[POOL_ID := poolId][OPERATING_STATUS := OFFLINE];
    var c := InsertOutcome(marked, lookups, MemberT, d, freshId);
    InsertKeepsTables(marked, lookups, MemberT, d, freshId);
    assert PostResponse(tables, lookups, listenerId, poolId, memberDict, freshId, handlerFails) == AfterCreate(c, listenerId, handlerFails);
    if c.result.Ok? {
      MarkedListenerHandled(tables, listenerId, handlerFails);
      assert marked[MemberT] == tables[MemberT];
      CreatedMemberHandled(marked, lookups, listenerId, poolId, memberDict, freshId, handlerFails);
    }
  }

  /** The handler step of post once `member.create` has appended the member. */
  lemma {:induction false} CreatedMemberHandled(marked: Tables, lookups: Lookups, listenerId: Value, poolId: Value, memberDict: Dict, freshId: string, handlerFails: bool)
    requires Complete(marked)
    requires InsertOutcome(marked, lookups, MemberT, memberDict[POOL_ID := poolId][OPERATING_STATUS := OFFLINE], freshId).result.Ok?
    ensures var c := InsertOutcome(marked, lookups, MemberT, memberDict[POOL_ID := poolId][OPERATING_STATUS := OFFLINE], freshId);
      var o := AfterCreate(c, listenerId, handlerFails);
      var member := c.result.value;
      o.result == Ok(member) &&
      DictGet(member, POOL_ID) == poolId && DictGet(member, OPERATING_STATUS) == OFFLINE &&
      DictGet(member, ID) == (if DictGet(memberDict, ID) != VNone then memberDict[ID] else VStr(freshId)) &&
      o.call == Some(HandlerCall(Some(member), Handler.CREATE)) &&
      MemberT in o.tables && o.tables[MemberT] == marked[MemberT] + [member] &&
      ListenerT in o.tables &&
      RowById(o.tables, ListenerT, listenerId) ==
        match RowById(marked, ListenerT, listenerId)
        case None => None
        case Some(l) => Some(if handlerFails then l[OPERATING_STATUS := ERROR] else l)
  {
    var d := memberDict[POOL_ID := poolId][OPERATING_STATUS := OFFLINE];
    var c := InsertOutcome(marked, lookups, MemberT, d, freshId);
    InsertKeepsTables(marked, lookups, MemberT, d, freshId);
    var member := c.result.value;
    assert member == NewRow(MemberT, d, freshId);
    MemberShape(memberDict, poolId, freshId);
    assert InsertError(marked, lookups, MemberT, member).None?;
    GetAfterInsert(marked, lookups, MemberT, member, 0, ID);
    assert c.tables[ListenerT] == marked[ListenerT];
    AfterCreateOk(c, listenerId, member, handlerFails, RowById(marked, ListenerT, listenerId));
  }

  /** The member row post builds: this pool, OFFLINE, and the given id or the fresh one. */
  lemma {:induction false} MemberShape(memberDict: Dict, poolId: Value, freshId: string)
    ensures var member := NewRow(MemberT, memberDict[POOL_ID := poolId][OPERATING_STATUS := OFFLINE], freshId);
      DictGet(member, POOL_ID) == poolId && DictGet(member, OPERATING_STATUS) == OFFLINE &&
      DictGet(member, ID) == (if DictGet(memberDict, ID) != VNone then memberDict[ID] else VStr(freshId)) &&
      DictGet(member, ID) != VNone
  {
    assert ID[0] != POOL_ID[0] && ID[0] != OPERATING_STATUS[0] && POOL_ID[0] != OPERATING_STATUS[0];
  }

  /**
   * A second member of the same pool on the same address and port: the
   * insert violates the (pool_id, address, protocol_port) key and post
   * answers DuplicateMemberEntry, having written only the listener's
   * PENDING_UPDATE and called no handler.
   */
  lemma {:induction false} PostDuplicateMemberRejected(tables: Tables, lookups: Lookups, listenerId: Value, poolId: Value, memberDict: Dict, freshId: string, handlerFails: bool, j: nat)
    requires Valid(tables) && j < |tables[MemberT]|
    requires DictGet(tables[MemberT][j], POOL_ID) == poolId
    requires DictGet(memberDict, ADDRESS) == DictGet(tables[MemberT][j], ADDRESS)
    requires DictGet(memberDict, PROTOCOL_PORT) == DictGet(tables[MemberT][j], PROTOCOL_PORT)
    requires DictGet(memberDict, "enabled") != VNone
    requires memberDict.Keys <= Columns(MemberT)
    ensures PostResponse(tables, lookups, listenerId, poolId, memberDict, freshId, handlerFails) ==
            Response(Err(DuplicateMemberEntry), SetStatus(tables, ListenerT, listenerId, PROVISIONING_STATUS, PENDING_UPDATE), None)
  {
    var other := tables[MemberT][j];
    assert TableValid(MemberT, tables[MemberT]);
    assert NotNullOk(MemberT, other);
    var marked := SetStatus(tables, ListenerT, listenerId, PROVISIONING_STATUS, PENDING_UPDATE);
    SetStatusKeepsTables(tables, ListenerT, listenerId, PROVISIONING_STATUS, PENDING_UPDATE);
    assert marked[MemberT] == tables[MemberT];
    var d := memberDict[POOL_ID := poolId][OPERATING_STATUS := OFFLINE];
    MemberShape(memberDict, poolId, freshId);
    assert d.Keys == memberDict.Keys + {POOL_ID, OPERATING_STATUS};
    InsertRefusedAsDuplicate(marked, lookups, d, freshId, j);
  }

  /**
   * A member request that names its address `ip_address` (the column is
   * `address`) is refused by the model constructor with TypeError. The
   * listener's PENDING_UPDATE, written before the insert, stays, and no
   * handler is called.
   */
  lemma {:induction false} PostIpAddressRefused(tables: Tables, lookups: Lookups, listenerId: Value, poolId: Value, memberDict: Dict, freshId: string, handlerFails: bool)
    requires Complete(tables) && "ip_address" in memberDict
    ensures PostResponse(tables, lookups, listenerId, poolId, memberDict, freshId, handlerFails) ==
            Response(Err(TypeError), SetStatus(tables, ListenerT, listenerId, PROVISIONING_STATUS, PENDING_UPDATE), None)
  {
    var marked := SetStatus(tables, ListenerT, listenerId, PROVISIONING_STATUS, PENDING_UPDATE);
    SetStatusKeepsTables(tables, ListenerT, listenerId, PROVISIONING_STATUS, PENDING_UPDATE);
    var d := memberDict[POOL_ID := poolId][OPERATING_STATUS := OFFLINE];
    assert "ip_address" in d.Keys && "ip_address" !in Columns(MemberT);
    InsertTypeErrorIffUnknownKeyword(marked, lookups, MemberT, d, freshId);
  }

  /** An insert into the members whose (pool_id, address, protocol_port) equals that of member `j` is a duplicate key. */
  lemma {:induction false} InsertRefusedAsDuplicate(tables: Tables, lookups: Lookups, d: Dict, freshId: string, j: nat)
    requires Complete(tables) && j < |tables[MemberT]| && NotNullOk(MemberT, tables[MemberT][j])
    requires d.Keys <= Columns(MemberT)
    requires var row := NewRow(MemberT, d, freshId);
      NotNullOk(MemberT, row) &&
      DictGet(row, POOL_ID) == DictGet(tables[MemberT][j], POOL_ID) &&
      DictGet(row, ADDRESS) == DictGet(tables[MemberT][j], ADDRESS) &&
      DictGet(row, PROTOCOL_PORT) == DictGet(tables[MemberT][j], PROTOCOL_PORT)
    ensures InsertOutcome(tables, lookups, MemberT, d, freshId) == Outcome(Err(DBDuplicateEntry), tables)
  {
    var row := NewRow(MemberT, d, freshId);
    var other := tables[MemberT][j];
    InsertTypeErrorIffUnknownKeyword(tables, lookups, MemberT, d, freshId);
    assert SameKey(row, other, SchemaOf(MemberT).uniques[1]);
    assert Collide(MemberT, row, other);
  }

  /** The handler step of put once `member.update` wrote `updated` into the member `get` finds. */
  lemma {:induction false} AfterUpdateOk(u: Outcome<()>, listenerId: Value, id: Value, updated: Row, handlerFails: bool, listener: Option<Row>)
    requires Complete(u.tables) && u.result.Ok?
    requires DictGet(updated, ID) == id && RowById(u.tables, MemberT, id) == Some(updated)
    requires RowById(u.tables, ListenerT, listenerId) == listener
    ensures var o := AfterUpdate(u, listenerId, id, handlerFails);
      o.result == Ok(updated) && o.call == Some(HandlerCall(Some(updated), Handler.UPDATE)) &&
      MemberT in o.tables && o.tables[MemberT] == u.tables[MemberT] &&
      ListenerT in o.tables &&
      RowById(o.tables, ListenerT, listenerId) ==
        match listener
        case None => None
        case Some(l) => Some(if handlerFails then l[OPERATING_STATUS := ERROR] else l)
  {
    ChildHandledExisting(u.tables, MemberT, listenerId, updated, Handler.UPDATE, handlerFails, false);
    ChildHandledUnmarked(u.tables, MemberT, listenerId, Some(updated), Handler.UPDATE, handlerFails);
  }

  /** The second half of put once `get` found `row`: the member takes `d`, then the handler runs. */
  lemma {:induction false} UpdateThenHandledWrites(tables: Tables, lookups: Lookups, listenerId: Value, row: Row, d: Dict, handlerFails: bool)
    requires Complete(tables) && RowById(tables, MemberT, DictGet(row, ID)) == Some(row)
    ensures var o := UpdateThenHandled(tables, lookups, listenerId, DictGet(row, ID), d, handlerFails);
      o.result.Err? ==>
        o.tables == tables && o.call.None? && o.result.error != DBDuplicateEntry &&
        (RepeatsParameter(MemberT, d) ==> o.result.error == TypeError)
    ensures var o := UpdateThenHandled(tables, lookups, listenerId, DictGet(row, ID), d, handlerFails);
      o.result.Ok? ==>
        o.result.value == row + d && o.call == Some(HandlerCall(Some(row + d), Handler.UPDATE)) &&
        MemberT in o.tables && |o.tables[MemberT]| == |tables[MemberT]| &&
        ListenerT in o.tables &&
        RowById(o.tables, ListenerT, listenerId) ==
          match RowById(tables, ListenerT, listenerId)
          case None => None
          case Some(l) => Some(if handlerFails then l[OPERATING_STATUS := ERROR] else l)
  {
    var id := DictGet(row, ID);
    var u := KeyedUpdateOutcome(tables, lookups, MemberT, id, d);
    KeyedUpdateTypeErrorIffRepeated(tables, lookups, MemberT, id, d);
    if u.result.Err? {
      RefusedUpdateHandled(tables, lookups, listenerId, id, d, handlerFails);
      assert RepeatsParameter(MemberT, d) ==> u.result.error == TypeError;
    } else {
      assert !RepeatsParameter(MemberT, d) && KeyColumn(MemberT) == ID;
      assert u == UpdateOutcome(tables, lookups, MemberT, By(ID, id), d);
      UpdatedMemberHandled(tables, lookups, listenerId, row, d, handlerFails);
    }
  }

  /** A refused member update: put answers with the refusal, writes nothing and calls no handler. */
  lemma {:induction false} RefusedUpdateHandled(tables: Tables, lookups: Lookups, listenerId: Value, id: Value, d: Dict, handlerFails: bool)
    requires Complete(tables) && KeyedUpdateOutcome(tables, lookups, MemberT, id, d).result.Err?
    ensures UpdateThenHandled(tables, lookups, listenerId, id, d, handlerFails) ==
      Response(Err(WriteError(KeyedUpdateOutcome(tables, lookups, MemberT, id, d).result.error)), tables, None)
  {
  }

  /** UpdateThenHandledWrites when the bulk UPDATE went through. */
  lemma {:induction false} UpdatedMemberHandled(tables: Tables, lookups: Lookups, listenerId: Value, row: Row, d: Dict, handlerFails: bool)
    requires Complete(tables) && RowById(tables, MemberT, DictGet(row, ID)) == Some(row)
    requires !RepeatsParameter(MemberT, d) && UpdateOutcome(tables, lookups, MemberT, By(ID, DictGet(row, ID)), d).result.Ok?
    ensures var o := UpdateThenHandled(tables, lookups, listenerId, DictGet(row, ID), d, handlerFails);
      o.result == Ok(row + d) && o.call == Some(HandlerCall(Some(row + d), Handler.UPDATE)) &&
        MemberT in o.tables && |o.tables[MemberT]| == |tables[MemberT]| &&
        ListenerT in o.tables &&
        RowById(o.tables, ListenerT, listenerId) ==
          match RowById(tables, ListenerT, listenerId)
          case None => None
          case Some(l) => Some(if handlerFails then l[OPERATING_STATUS := ERROR] else l)
  {
    var id := DictGet(row, ID);
    var u := UpdateOutcome(tables, lookups, MemberT, By(ID, id), d);
    assert KeyColumn(MemberT) == ID && ID !in d;
    assert KeyedUpdateOutcome(tables, lookups, MemberT, id, d) == u;
    UpdateKeepsTables(tables, lookups, MemberT, By(ID, id), d);
    assert UpdateThenHandled(tables, lookups, listenerId, id, d, handlerFails) == AfterUpdate(u, listenerId, id, handlerFails);
    UpdateKeepsFirstMatch(tables[MemberT], By(ID, id), d);
    assert u.tables[MemberT] == UpdatedRows(tables[MemberT], By(ID, id), d);
    assert u.tables[ListenerT] == tables[ListenerT];
    assert DictGet(row + d, ID) == id;
    AfterUpdateOk(u, listenerId, id, row + d, handlerFails, RowById(tables, ListenerT, listenerId));
  }

  /**
   * put on a member `get` finds: the listener goes PENDING_UPDATE whatever
   * follows. A refused update writes nothing more, calls no handler and
   * reports a duplicate key as DuplicateMemberEntry. Otherwise the member
   * keeps its operating status and takes the request's other fields, no
   * member comes or goes, the handler gets the updated member with UPDATE,
   * and the listener is in ERROR exactly when the handler raised.
   */
  lemma {:induction false} PutKeepsOperatingStatus(tables: Tables, lookups: Lookups, listenerId: Value, row: Row, memberDict: Dict, handlerFails: bool)
    requires Complete(tables) && RowById(tables, MemberT, DictGet(row, ID)) == Some(row)
    ensures var o := PutResponse(tables, lookups, listenerId, DictGet(row, ID), memberDict, handlerFails);
      o.result.Err? ==>
        o.tables == SetStatus(tables, ListenerT, listenerId, PROVISIONING_STATUS, PENDING_UPDATE) &&
        o.call.None? && o.result.error != DBDuplicateEntry &&
        (RepeatsParameter(MemberT, memberDict) ==> o.result.error == TypeError)
    ensures var o := PutResponse(tables, lookups, listenerId, DictGet(row, ID), memberDict, handlerFails);
      o.result.Ok? ==>
        var updated := o.result.value;
        DictGet(updated, OPERATING_STATUS) == DictGet(row, OPERATING_STATUS) &&
        (forall c :: c in memberDict && c != OPERATING_STATUS ==> DictGet(updated, c) == memberDict[c]) &&
        (forall c :: c !in memberDict ==> DictGet(updated, c) == DictGet(row, c)) &&
        o.call == Some(HandlerCall(Some(updated), Handler.UPDATE)) &&
        MemberT in o.tables && |o.tables[MemberT]| == |tables[MemberT]| &&
        ListenerT in o.tables &&
        RowById(o.tables, ListenerT, listenerId) == ListenerMarked(RowById(tables, ListenerT, listenerId), handlerFails)
  {
    var id := DictGet(row, ID);
    var marked := SetStatus(tables, ListenerT, listenerId, PROVISIONING_STATUS, PENDING_UPDATE);
    MarkedListenerHandled(tables, listenerId, handlerFails);
    SetStatusKeepsTables(tables, ListenerT, listenerId, PROVISIONING_STATUS, PENDING_UPDATE);
    var d := memberDict[OPERATING_STATUS := DictGet(row, OPERATING_STATUS)];
    assert marked[MemberT] == tables[MemberT];
    assert PutResponse(tables, lookups, listenerId, id, memberDict, handlerFails) ==
           UpdateThenHandled(marked, lookups, listenerId, id, d, handlerFails);
    IdNotOperatingStatus();
    StatusKeyRepeatsNothing(MemberT, memberDict, OPERATING_STATUS, DictGet(row, OPERATING_STATUS));
    UpdateThenHandledWrites(marked, lookups, listenerId, row, d, handlerFails);
    PutColumns(row, memberDict);
  }

  lemma {:induction false} IdNotOperatingStatus()
    ensures ID != OPERATING_STATUS
  {
    assert ID[0] != OPERATING_STATUS[0];
  }

  /** The member row put writes: the request's fields and the old operating status. */
  lemma {:induction false} PutColumns(row: Row, memberDict: Dict)
    ensures var updated := row + memberDict[OPERATING_STATUS := DictGet(row, OPERATING_STATUS)];
      DictGet(updated, OPERATING_STATUS) == DictGet(row, OPERATING_STATUS) &&
      (forall c :: c in memberDict && c != OPERATING_STATUS ==> DictGet(updated, c) == memberDict[c]) &&
      (forall c :: c !in memberDict && c != OPERATING_STATUS ==> DictGet(updated, c) == DictGet(row, c))
  {
  }

  /**
   * put moving a member onto the address and port another member of the
   * same pool already uses: the update violates the (pool_id, address,
   * protocol_port) key, only the listener's PENDING_UPDATE is written, no
   * handler is called, and the answer is DuplicateMemberEntry.
   */
  lemma {:induction false} PutDuplicateMemberRejected(tables: Tables, lookups: Lookups, listenerId: Value, i: nat, j: nat, memberDict: Dict, handlerFails: bool)
    requires Valid(tables) && i < |tables[MemberT]| && j < |tables[MemberT]| && i != j
    requires DictGet(tables[MemberT][i], POOL_ID) == DictGet(tables[MemberT][j], POOL_ID)
    requires POOL_ID !in memberDict && !RepeatsParameter(MemberT, memberDict)
    requires ADDRESS in memberDict && memberDict[ADDRESS] == DictGet(tables[MemberT][j], ADDRESS)
    requires PROTOCOL_PORT in memberDict && memberDict[PROTOCOL_PORT] == DictGet(tables[MemberT][j], PROTOCOL_PORT)
    requires forall c :: c in memberDict && c in SchemaOf(MemberT).notNull ==> memberDict[c] != VNone
    ensures PutResponse(tables, lookups, listenerId, DictGet(tables[MemberT][i], ID), memberDict, handlerFails) ==
            Response(Err(DuplicateMemberEntry), SetStatus(tables, ListenerT, listenerId, PROVISIONING_STATUS, PENDING_UPDATE), None)
  {
    var rows := tables[MemberT];
    GetById(tables, MemberT, i);
    assert TableValid(MemberT, rows);
    assert NotNullOk(MemberT, rows[i]);
    IdIsUnique(tables, MemberT, i, j);
    var marked := SetStatus(tables, ListenerT, listenerId, PROVISIONING_STATUS, PENDING_UPDATE);
    SetStatusKeepsTables(tables, ListenerT, listenerId, PROVISIONING_STATUS, PENDING_UPDATE);
    assert marked[MemberT] == rows;
    var id := DictGet(rows[i], ID);
    var d := memberDict[OPERATING_STATUS := DictGet(rows[i], OPERATING_STATUS)];
    assert PutResponse(tables, lookups, listenerId, id, memberDict, handlerFails) ==
           UpdateThenHandled(marked, lookups, listenerId, id, d, handlerFails);
    UpdateClashes(marked, lookups, i, j, memberDict);
    StatusKeyRepeatsNothing(MemberT, memberDict, OPERATING_STATUS, DictGet(rows[i], OPERATING_STATUS));
    DuplicateUpdateRefused(marked, lookups, listenerId, id, d, handlerFails);
  }

  /** Moving member `i` onto the pool, address and port of member `j` breaks the second unique key of the member table. */
  lemma {:induction false} UpdateClashes(tables: Tables, lookups: Lookups, i: nat, j: nat, memberDict: Dict)
    requires Complete(tables) && i < |tables[MemberT]| && j < |tables[MemberT]| && i != j
    requires DictGet(tables[MemberT][i], ID) != DictGet(tables[MemberT][j], ID)
    requires DictGet(tables[MemberT][i], POOL_ID) == DictGet(tables[MemberT][j], POOL_ID) != VNone
    requires DictGet(tables[MemberT][i], OPERATING_STATUS) != VNone
    requires POOL_ID !in memberDict
    requires ADDRESS in memberDict && memberDict[ADDRESS] == DictGet(tables[MemberT][j], ADDRESS)
    requires PROTOCOL_PORT in memberDict && memberDict[PROTOCOL_PORT] == DictGet(tables[MemberT][j], PROTOCOL_PORT)
    requires forall c :: c in memberDict && c in SchemaOf(MemberT).notNull ==> memberDict[c] != VNone
    ensures var row := tables[MemberT][i];
      UpdateError(tables, lookups, MemberT, By(ID, DictGet(row, ID)), memberDict[OPERATING_STATUS := DictGet(row, OPERATING_STATUS)]) == Some(DBDuplicateEntry)
  {
    var row, other := tables[MemberT][i], tables[MemberT][j];
    var d := memberDict[OPERATING_STATUS := DictGet(row, OPERATING_STATUS)];
    MemberKeyColumns();
    assert SameKey(row + d, other, SchemaOf(MemberT).uniques[1]);
    UpdateCollides(tables, lookups, i, j, By(ID, DictGet(row, ID)), d);
  }

  /** put's update refused as a duplicate: nothing more is written, no handler runs, and the answer is DuplicateMemberEntry. */
  lemma {:induction false} DuplicateUpdateRefused(tables: Tables, lookups: Lookups, listenerId: Value, id: Value, d: Dict, handlerFails: bool)
    requires Complete(tables) && !RepeatsParameter(MemberT, d)
    requires UpdateError(tables, lookups, MemberT, By(ID, id), d) == Some(DBDuplicateEntry)
    ensures UpdateThenHandled(tables, lookups, listenerId, id, d, handlerFails) == Response(Err(DuplicateMemberEntry), tables, None)
  {
    assert KeyColumn(MemberT) == ID;
    assert KeyedUpdateOutcome(tables, lookups, MemberT, id, d) == Outcome(Err(DBDuplicateEntry), tables);
  }

  /** The member columns put's duplicate check compares are not the operating status. */
  lemma {:induction false} MemberKeyColumns()
    ensures POOL_ID != OPERATING_STATUS && ADDRESS != OPERATING_STATUS && PROTOCOL_PORT != OPERATING_STATUS
    ensures SchemaOf(MemberT).uniques[1] == [POOL_ID, ADDRESS, PROTOCOL_PORT]
  {
    assert POOL_ID[0] != OPERATING_STATUS[0] && ADDRESS[0] != OPERATING_STATUS[0] && PROTOCOL_PORT[0] != OPERATING_STATUS[0];
  }

  /** An update that makes the matched member `i` share the (pool_id, address, protocol_port) key with the unmatched member `j` is refused as a duplicate. */
  lemma {:induction false} UpdateCollides(tables: Tables, lookups: Lookups, i: nat, j: nat, f: Dict, d: Dict)
    requires Complete(tables) && i < |tables[MemberT]| && j < |tables[MemberT]| && i != j
    requires Matches(tables[MemberT][i], f) && !Matches(tables[MemberT][j], f)
    requires forall c :: c in d && c in SchemaOf(MemberT).notNull ==> d[c] != VNone
    requires SameKey(tables[MemberT][i] + d, tables[MemberT][j], SchemaOf(MemberT).uniques[1])
    ensures UpdateError(tables, lookups, MemberT, f, d) == Some(DBDuplicateEntry)
  {
    var rows' := UpdatedRows(tables[MemberT], f, d);
    assert Collide(MemberT, rows'[i], rows'[j]);
    assert AnyMatch(tables[MemberT], f);
  }

  /**
   * delete on a member `get` finds: the listener goes PENDING_UPDATE, the
   * handler gets the member with UPDATE, the member stays in the table and
   * is returned; the listener is in ERROR exactly when the handler raised.
   */
  lemma {:induction false} DeleteMarksListener(tables: Tables, listenerId: Value, row: Row, handlerFails: bool)
    requires Complete(tables) && RowById(tables, MemberT, DictGet(row, ID)) == Some(row)
    ensures var o := DeleteResponse(tables, listenerId, DictGet(row, ID), handlerFails);
      o.result == Ok(row) && o.call == Some(HandlerCall(Some(row), Handler.UPDATE)) &&
      MemberT in o.tables && o.tables[MemberT] == tables[MemberT] &&
      ListenerT in o.tables &&
      RowById(o.tables, ListenerT, listenerId) == ListenerMarked(RowById(tables, ListenerT, listenerId), handlerFails)
  {
    var id := DictGet(row, ID);
    assert KeyColumn(MemberT) == ID;
    ChildHandledAfterMark(tables, MemberT, listenerId, row, Handler.UPDATE, handlerFails);
    var marked := SetStatus(tables, ListenerT, listenerId, PROVISIONING_STATUS, PENDING_UPDATE);
    assert RowById(marked, MemberT, id) == Some(row);
    assert DeleteResponse(tables, listenerId, id, handlerFails) ==
           ChildHandled(marked, MemberT, listenerId, Some(row), Handler.UPDATE, handlerFails, false);
  }
}
