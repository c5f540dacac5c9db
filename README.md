# Octavia core, modelled in Dafny

This project models the core of an early OpenStack Octavia, the
load-balancing-as-a-service project. It covers these parts:

- **Database layer**:
  - the SQLAlchemy models (`octavia/db/models.py`), with their key, NOT NULL and
    foreign-key constraints and the statistics validator;
  - the `BaseRepository` operations and the per-entity repositories,
    including the two compound transactions and `test_and_set_provisioning_status`
    (`octavia/db/repositories.py`);
  - the request preparation helpers (`octavia/db/prepare.py`).
- **Data models and API types**: `octavia/common/data_models.py` (constructors and
  `to_dict`) and `octavia/api/v1/types/base.py` (`to_dict` with and without
  rendering unset attributes, and `from_data_model`).
- **API v1**:
  - the five REST controllers for load balancers, listeners, pools, members
    and health monitors (`octavia/api/v1/controllers/*.py`);
  - the no-op load balancer handler they call (`octavia/api/v1/handler.py`).
- **Controller worker** (`octavia/controller/worker/controller_worker.py`): which
  TaskFlow flows it runs, in what order and with which store. This includes
  the full-tree load balancer creation.
- **Amphora agent** (`octavia/amphorae/backends/agent/api_server/plug.py`):
  VIP and network plugging.

## How the pieces are represented

- **Database.** The database is a `Repositories.Session` object whose
  `tables` field maps each table to its rows in query order.
  - Every query in the source is `filter_by(...)` followed by `.first()` or
    `.all()`. So `get` is the first matching row and `get_all` is the filter.
  - An insert first builds the model object, whose constructor refuses a
    keyword that is not a column of the table with `TypeError`
    (`Models.Columns`).
  - A write then checks the model's constraints in this order: NOT NULL,
    unique keys (SQL semantics: NULL never collides), then foreign keys. A
    failed check is a `DBError` or `DBDuplicateEntry`.
  - `Valid(tables)` is the invariant that NOT NULL columns are set and
    unique keys are distinct in every table. Every repository method and
    controller keeps it.
  - Foreign keys are checked only on the columns a write sets; they are not
    part of `Valid`. `Repositories.Delete` removes a row without
    looking at the rows that refer to it.
- **Controllers.** Each controller is a method on the session. Its `ensures`
  ties the response, the new tables and the handler call it made to a
  specification function (`PostResponse`, `PutResponse`, `DeleteResponse`,
  ...). Lemmas then state what those functions promise.
  - Whether the handler raises is an input, `handlerFails`.
- **Worker.** The controller worker is a class whose `trace` records every
  flow run: the flow plus its store.
  - Whether a given run fails is an input, the `failing` set.
  - Each worker method is tied by `Recorded` to a specification function
    returning the runs it makes.
- **Amphora agent.** The agent is a `Plug.Host` whose `effects` record the
  files written and the `ifdown`/`ifup` commands run, in order.

## Model

| member | source | states |
|---|---|---|
| Models.SchemaOf | octavia/db/models.py:33-315 | Every table but the load balancer/amphora link has a primary key; id-defaulted tables have `id` as primary key; status columns are in no unique key; status foreign keys point at the lookup tables |
| Models.Columns | octavia/db/models.py:63-316 | The columns each model declares, mixins included; every NOT NULL, unique-key and foreign-key column of SchemaOf is one of them, and id-defaulted tables have `id` and `tenant_id` |
| Models.ValidateNonNegativeInt | octavia/db/models.py:105-117 | Accepts the value unchanged iff it is >= 0, else ValueError |
| Models.ValidateNonNegative | octavia/db/models.py:105-110 | On a stored value: ValueError iff it is None or a negative integer (Python 2 orders None below every integer); otherwise the value is kept unchanged |
| Models.Validate | octavia/db/models.py:105-117 | A row is refused with ValueError iff it is a listener_statistics row with a None or negative counter |
| Models.ValidateCounters | octavia/db/models.py:105-106 | Fails with ValueError iff one of bytes_in, bytes_out, active_connections, total_connections is None or a negative integer |
| Models.IdIsUnique | octavia/db/base_models.py:59-62 | In valid tables, two rows of an id-keyed table never share an id |
| Models.MemberAddressUnique | octavia/db/models.py:124-127 | No two members of a pool share address and protocol_port |
| Models.ListenerPortUnique | octavia/db/models.py:244-246 | No two listeners of one load balancer share a protocol_port |
| Models.DefaultPoolOfOneListener | octavia/db/models.py:247-248 | A pool is the default pool of at most one listener |
| Models.OneHealthMonitorPerPool | octavia/db/models.py:152-156 | A pool has at most one health monitor |
| Models.OneSessionPersistencePerPool | octavia/db/models.py:69-73 | A pool has at most one session persistence |
| Models.SniPairUnique | octavia/db/models.py:290-292 | The (listener_id, tls_container_id) pair is unique |
| Models.OneStatisticsPerListener | octavia/db/models.py:92-97 | A listener has at most one statistics row |
| Models.HealthMonitorOfOnePool | octavia/db/models.py:177-180 | A health monitor belongs to at most one pool |
| DataModels.Params | octavia/common/data_models.py:104-123 | Constructor parameter names are never private |
| DataModels.AssignParams | octavia/common/data_models.py:104-123 | The attributes are exactly the parameters; scalar ones are copied from the arguments; falsy list-valued ones become empty lists |
| DataModels.DataModel.constructor | octavia/common/data_models.py:142-167 | Same as AssignParams, for a freshly built model |
| DataModels.DataModel.ToDict | octavia/common/data_models.py:21-28 | Keys are exactly the attributes that are neither private nor child data models; values are unchanged |
| ApiTypes.ToDict | octavia/api/v1/types/base.py:41-57 | The loop builds exactly `Render(o, renderUnsets)` |
| ApiTypes.RenderPrefixKeys | octavia/api/v1/types/base.py:43-56 | A name is rendered iff an attribute of that name is emitted: not private, not a callable value, and not an unset one when unsets are skipped |
| ApiTypes.RenderPrefixValues | octavia/api/v1/types/base.py:47-56 | A rendered value is the attribute's value; a nested type becomes its dict; an unset becomes None |
| ApiTypes.RenderOmitsUndeclared | octavia/api/v1/types/base.py:41-57 | Names the type does not declare are never rendered |
| ApiTypes.RenderMeaning | octavia/api/v1/types/base.py:41-57 | Each declared attribute is rendered, or skipped, as its emission rule says |
| ApiTypes.PartialRenderIsRestriction | octavia/api/v1/types/base.py:52-55 | Rendering without unsets is rendering with them minus the keys that were unset, all of which map to None |
| ApiTypes.FromDataModel | octavia/api/v1/types/base.py:37-39 | Each attribute takes the data model's value when to_dict emits it, else keeps the type's default; a nested model is skipped by to_dict, so the attribute keeps its default |
| Handler.Format | octavia/api/v1/handler.py:24-27 | On templates whose specifiers are `%(key)` or `%(key)s`, `%`-formatting succeeds iff every specifier is `%(key)s` with a supplied key; a KeyError names a specifier whose key is missing, checked before its conversion; a ValueError names a supplied key whose conversion is not `s`; no other error |
| Handler.InvalidInputMessageAsWrittenFails | octavia/api/v1/handler.py:24-27 | The message as written has no conversion character: formatting it with `obj_type` supplied is ValueError, and without it KeyError |
| Handler.InvalidInputMessageFormats | octavia/api/v1/handler.py:24-27 | The intended message formats to "Invalid Input Object " plus the class name |
| Handler.Owner | octavia/api/v1/handler.py:61-70 | The load balancer handled: the object itself for a load balancer, the listener's load_balancer, the pool's listener's, a monitor's or member's pool's listener's; AttributeError exactly when a link on that chain is None; InvalidHandlerInputObject exactly for another class |
| Handler.Handle | octavia/api/v1/handler.py:53-72 | Another class is InvalidHandlerInputObject, and the only other error is AttributeError; on success at most one action, none iff the change type is not CREATE, UPDATE or DELETE, and it acts on the owner's load balancer; when the owner resolves to a load balancer (or the change type runs nothing) handling succeeds |
| Handler.HandleAsWritten | octavia/api/v1/handler.py:61-72 | As written, an object of another class raises ValueError, because the message cannot be formatted; every other object is handled as Handle handles it |
| Handler.HandleChangeType | octavia/api/v1/handler.py:53-59 | CREATE, UPDATE and DELETE each run exactly their own action; another change type runs none; a None load balancer is AttributeError |
| Handler.HandleAsWrittenRaisesValueError | octavia/api/v1/handler.py:71-72 | As written, an object of another class raises ValueError, where InvalidHandlerInputObject was meant |
| Handler.MessageFixAloneRaisesTypeError | octavia/api/v1/handler.py:23-28 | With only the message corrected, the constructor still raises TypeError, because `Exception.__init__` takes no `message` keyword |
| Handler.OwnerIsRoot | octavia/api/v1/handler.py:61-70 | The hard-wired attribute chains find the same owner as following pool, listener and load_balancer one link at a time |
| Prepare.StampId | octavia/db/prepare.py:21-22 | Sets a fresh id only when none is given, and touches no other key |
| Prepare.CreateLoadBalancer | octavia/db/prepare.py:20-28 | TypeError iff the vip is truthy but not a dict; otherwise PENDING_CREATE/OFFLINE, the vip's load_balancer_id is the id, and only those keys change |
| Prepare.Iterate | octavia/db/prepare.py:40-43 | None, booleans and integers are not iterable; a list yields its items; a string yields its characters |
| Prepare.CreateListener | octavia/db/prepare.py:30-46 | TypeError iff sni_containers is not iterable; otherwise load_balancer_id, statuses and id are set, tls_termination is removed, and the SNI list pairs each container id with the listener id, in order |
| Prepare.CreatePool | octavia/db/prepare.py:48-55 | TypeError iff session_persistence is truthy but not a dict; OFFLINE; the session persistence's pool_id is the pool id |
| Prepare.CreateMember | octavia/db/prepare.py:57-61 | Sets pool_id and OFFLINE and keeps the id it is given |
| Prepare.CreateHealthMonitor | octavia/db/prepare.py:63-65 | Sets only pool_id |
| Repositories.FirstIndex | octavia/db/repositories.py:50-54 | The index of the first row matching the filters, or None iff no row matches |
| Repositories.AllMatches | octavia/db/repositories.py:56-59 | A row is in the result iff it is a row that matches, in query order |
| Repositories.NewRow | octavia/db/repositories.py:30-34 | The row built from the arguments, with a generated id only for id-defaulted tables lacking one; whether it is stored is InsertError's verdict |
| Repositories.ConstructorError | octavia/db/repositories.py:30-32 | The model constructor's error: TypeError iff a keyword is not a column; otherwise only ValueError, from a validator; none iff the columns are known and the validators pass |
| Repositories.InsertErrorAfterConstructor | octavia/db/repositories.py:30-34 | The constructor's error, when there is one, is the insert's error; after a clean construction only DBError or DBDuplicateEntry can follow |
| Repositories.InsertError | octavia/db/repositories.py:30-34 | TypeError iff a keyword is not a column; the only errors are TypeError, ValueError, DBError and DBDuplicateEntry; DBDuplicateEntry only when the new row shares a unique key with a stored row |
| Repositories.InsertAccepted | octavia/db/repositories.py:30-34 | The insert goes through iff the columns are known, the validators pass, NOT NULL holds, no stored row shares a unique key with it and its foreign keys resolve |
| Repositories.InsertKeepsOtherTable | octavia/db/repositories.py:30-34 | An insert leaves every other table as it was |
| Repositories.AnyMatchBy | octavia/db/repositories.py:50-54 | `filter_by(column=v)` matches a row iff some row holds `v` in that column |
| Repositories.InsertTypeErrorIffUnknownKeyword | octavia/db/repositories.py:30-34 | An insert is refused with TypeError exactly when a keyword is not a column of the table; a generated id never adds one |
| Repositories.UpdatedRows | octavia/db/repositories.py:45-48 | Same length; matching rows get the new values; the others are unchanged |
| Repositories.UpdateKeepsFirstMatch | octavia/db/repositories.py:45-48 | An update that does not change the filter columns keeps which row is first, and that row gains the new values |
| Repositories.UpdateError | octavia/db/repositories.py:45-48 | An UPDATE that matches no row raises nothing; the only errors are DBError and DBDuplicateEntry; DBDuplicateEntry only when the updated rows break a unique key |
| Repositories.InsertKeepsTables | octavia/db/repositories.py:30-34 | An insert keeps the set of tables |
| Repositories.UpdateKeepsTables | octavia/db/repositories.py:45-48 | An update keeps the set of tables |
| Repositories.SetStatusKeepsTables | octavia/db/repositories.py:45-48 | A status write keeps the set of tables |
| Repositories.InsertKeepsValid | octavia/db/repositories.py:30-34 | An accepted insert keeps NOT NULL columns set and unique keys distinct (`Valid`) |
| Repositories.UpdateKeepsValid | octavia/db/repositories.py:45-48 | An accepted update keeps NOT NULL columns set and unique keys distinct (`Valid`) |
| Repositories.DeleteKeepsValid | octavia/db/repositories.py:36-40 | Deleting the first match keeps NOT NULL columns set and unique keys distinct; foreign keys are not rechecked |
| Repositories.DeleteKeepsOtherTable | octavia/db/repositories.py:36-40 | Deleting from one table leaves every other table as it was |
| Repositories.ReplaceKeepsValid | octavia/db/repositories.py:45-48 | Replacing a table by one whose rows meet NOT NULL and the unique keys keeps `Valid` |
| Repositories.StatusWriteSucceeds | octavia/db/repositories.py:45-48 | Writing a seeded status by key always succeeds and keeps the tables valid |
| Repositories.StatusWritten | octavia/db/repositories.py:45-48 | After a status write, the keyed row carries the new status and keeps its other columns; other rows are unchanged |
| Repositories.GetById | octavia/db/repositories.py:50-54 | In valid tables, get by id returns the only row with that id |
| Repositories.GetAfterInsert | octavia/db/repositories.py:30-34 | After an insert, get by a single-column key of the new row returns it |
| Repositories.Session.constructor | octavia/db/repositories.py:65-77 | Starts from valid tables and seeded lookup tables |
| Repositories.Get | octavia/db/repositories.py:50-54 | Returns the first matching row; None iff no row matches |
| Repositories.GetAll | octavia/db/repositories.py:56-59 | The loop returns exactly the matching rows, in order |
| Repositories.Exists | octavia/db/repositories.py:61-63 | True iff a row with that id exists (for session persistence, that pool_id, lines 162-164) |
| Repositories.Create | octavia/db/repositories.py:30-34 | TypeError iff a keyword is not a column; otherwise ValueError for a None or negative statistics counter, then the database errors; appends the new row iff every check passes, else returns the error and changes nothing |
| Repositories.Delete | octavia/db/repositories.py:36-40 | Removes the first matching row |
| Repositories.Update | octavia/db/repositories.py:45-48 | A keyword that repeats `session` or the key parameter (id, or load_balancer_id, pool_id or listener_id at lines 137, 147, 157, 195) is TypeError and changes nothing; otherwise updates every row with that key iff the result meets the constraints |
| Repositories.KeyedUpdateOutcome | octavia/db/repositories.py:45-48 | The update keeps the set of tables, and a refused update changes nothing |
| Repositories.KeyedUpdateTypeErrorIffRepeated | octavia/db/repositories.py:45-48 | The update is TypeError exactly when a keyword repeats `session` or the key parameter, and then changes nothing; otherwise it is the bulk update by key |
| Repositories.StatusKeyRepeatsNothing | octavia/db/repositories.py:45-48 | Adding a provisioning or operating status keyword never makes a keyword repeat a parameter |
| Repositories.UpdateWhere | octavia/db/repositories.py:45-48 | The same for an arbitrary filter |
| Repositories.TestAndSetKeepsTables | octavia/db/repositories.py:123-130 | The test-and-set keeps the set of tables |
| Repositories.TestAndSetOutcome | octavia/db/repositories.py:123-130 | NoResultFound iff no load balancer has that id; the only errors are NoResultFound, MultipleResultsFound, ImmutableStatus and the database errors; any error leaves the tables unchanged |
| Repositories.TestAndSetProvisioningStatus | octavia/db/repositories.py:123-130 | Behaves as TestAndSetOutcome: refused with ImmutableStatus when the status is not mutable, else the status is written |
| Repositories.TestAndSetRefusesImmutable | octavia/db/repositories.py:126-128 | A load balancer in an immutable status is refused and nothing changes |
| Repositories.TestAndSetWritesOne | octavia/db/repositories.py:129-130 | Otherwise exactly that row gets the new status; other rows and tables are unchanged |
| Repositories.UpdateByIdTouchesOne | octavia/db/repositories.py:45-48 | An update of a load balancer by id changes that row and no other |
| Repositories.OnlyRowWithId | octavia/db/repositories.py:125-126 | In valid tables, filtering an id-keyed table by a row's id yields just that row |
| Repositories.OnlyMatch | octavia/db/repositories.py:45-48 | When exactly one row matches, get_all returns just that row |
| Repositories.NoMatch | octavia/db/repositories.py:45-48 | When no row matches, get_all returns nothing |
| Repositories.HasPool | octavia/db/repositories.py:184-188 | AttributeError iff the listener is missing; true iff its default pool is set and exists |
| Repositories.SniUpdate | octavia/db/repositories.py:218-228 | TypeError when a keyword repeats `session`, `listener_id` or `tls_container_id`; MissingArguments when only a container id is given; otherwise updates by listener, else by container |
| Repositories.SniUpdateCases | octavia/db/repositories.py:218-228 | A repeated parameter: TypeError and nothing changes; only a container id: MissingArguments and nothing changes; neither: nothing changes; a listener id: the container id is ignored |
| Repositories.Associate | octavia/db/repositories.py:205-212 | Behaves as AssociateOutcome |
| Repositories.AssociationKeepsValid | octavia/db/repositories.py:205-212 | Adding a link row keeps `Valid` (NOT NULL and unique keys) |
| Repositories.AssociateLinks | octavia/db/repositories.py:205-212 | Succeeds iff both the load balancer and the amphora exist, and then appends exactly that link |
| CompoundRepositories.CreateLoadBalancerAndVip | octavia/db/repositories.py:79-88 | Runs the transaction specified by CreateLbAndVipOutcome: the load balancer constructor's error, then the VIP constructor's, then the database errors; both rows are stored or neither |
| CompoundRepositories.CreateLbAndVipErrorOrder | octavia/db/repositories.py:79-88 | The load balancer constructor's error comes first, then the VIP constructor's, each leaving the tables unchanged; after two clean constructions only DBError or DBDuplicateEntry can follow, also leaving the tables unchanged |
| CompoundRepositories.CreateLbAndVipKeepsTables | octavia/db/repositories.py:79-88 | The transaction keeps the set of tables |
| CompoundRepositories.CreateLbAndVipStoresBoth | octavia/db/repositories.py:79-88 | On success the load balancer has the fresh id and both rows are appended, the vip pointing at it; on failure nothing changes |
| CompoundRepositories.LinkNewPool | octavia/db/repositories.py:95-99 | Runs the session persistence and listener steps of pool creation |
| CompoundRepositories.LinkNewPoolLinks | octavia/db/repositories.py:95-99 | The listener's default_pool_id becomes the new pool id; a session persistence row exists for the pool iff one was given |
| CompoundRepositories.CreatePoolOnListener | octavia/db/repositories.py:90-100 | Runs the transaction specified by CreatePoolOnListenerOutcome |
| CompoundRepositories.CreatePoolOnListenerLinks | octavia/db/repositories.py:90-100 | On success the pool has the fresh id and is appended, the listener points at it, and session persistence exists iff given; on failure nothing changes |
| CompoundRepositories.CreatePoolOnListenerReturnsPool | octavia/db/repositories.py:100 | Returns the stored pool, which get by its id finds |
| CompoundRepositories.CreatePoolOnListenerKeepsTables | octavia/db/repositories.py:90-100 | The transaction keeps the set of tables |
| CompoundRepositories.StatusWriteKeepsUnused | octavia/db/repositories.py:93 | A status write does not use up a fresh id |
| CompoundRepositories.SaveSessionPersistence | octavia/db/repositories.py:105-111 | Updates the pool's session persistence if one exists, else creates it |
| CompoundRepositories.StepLeavesPersistence | octavia/db/repositories.py:105-111 | After a successful step the pool has a session persistence |
| CompoundRepositories.StepTouchesOnlyPersistence | octavia/db/repositories.py:105-111 | The step changes only the session persistence table |
| CompoundRepositories.DeleteLeavesNoPersistence | octavia/db/repositories.py:113-114 | Deleting by pool_id leaves the pool without session persistence |
| CompoundRepositories.UpdatePoolCommitted | octavia/db/repositories.py:103-111 | Runs the transaction specified by UpdatePoolTransaction |
| CompoundRepositories.TransactionWritesPool | octavia/db/repositories.py:103-111 | On success no keyword repeated `id` or `session`, the pool rows are updated and listeners are unchanged; on failure nothing changes |
| CompoundRepositories.FinishUpdatePool | octavia/db/repositories.py:112-116 | Drops stale session persistence and reads the pool back |
| CompoundRepositories.DropUnaskedPersistence | octavia/db/repositories.py:112-115 | Deletes the pool's session persistence exactly when it has one and none was given; otherwise nothing changes |
| CompoundRepositories.DropPersistence | octavia/db/repositories.py:114-115 | Deletes the pool's session persistence and reads the pool, which the delete does not touch |
| CompoundRepositories.AfterUpdatePoolReturnsPool | octavia/db/repositories.py:112-116 | Succeeds iff the pool exists, returns it, and leaves pools and listeners unchanged |
| CompoundRepositories.UpdatePoolOnListener | octavia/db/repositories.py:102-116 | Runs the whole update specified by UpdatePoolOnListenerOutcome |
| CompoundRepositories.UpdatePoolOnListenerKeepsTables | octavia/db/repositories.py:102-116 | The update keeps the set of tables |
| CompoundRepositories.UpdatePoolKeepsPersistenceIffGiven | octavia/db/repositories.py:105-115 | After a successful update the pool has session persistence iff one was given |
| CompoundRepositories.CommittedPoolUpdate | octavia/db/repositories.py:103-111 | A committed transaction is the pool UPDATE, which keeps the tables valid, followed by the session persistence step, which writes nothing without a given persistence |
| CompoundRepositories.CommittedPoolReturned | octavia/db/repositories.py:102-116 | After a committed transaction, the update returns the old pool plus the new values |
| CompoundRepositories.UpdatePoolOnListenerWritesPool | octavia/db/repositories.py:102-116 | For any pool dict: on success returns the updated pool and listeners are unchanged; on failure, a keyword repeating `id` or `session` included, nothing changes |
| ControllerBase.WriteStatus | octavia/api/v1/controllers/listener.py:74-80 | The session's tables become the status write |
| ControllerBase.StatusWriteKeepsRow | octavia/api/v1/controllers/listener.py:74-80 | A status write by key changes only that column of the keyed row; table sizes and other tables are unchanged |
| ControllerBase.InvalidOptionOnDBError | octavia/api/v1/controllers/pool.py:79-85 | Any DB error becomes InvalidOption; other errors are unchanged |
| ControllerBase.ChildHandle | octavia/api/v1/controllers/member.py:70-76 | Calls the handler; when it raises, the listener's operating status becomes ERROR, and the child's too when asked to mark it |
| ControllerBase.MarkedListenerHandled | octavia/api/v1/controllers/member.py:70-76 | Marking the listener PENDING_UPDATE and then handling leaves it as ListenerMarked: PENDING_UPDATE, with operating status ERROR iff the handler raised |
| ControllerBase.ChildHandledExisting | octavia/api/v1/controllers/member.py:70-76 | For an existing child the handler is called with it; the result is the child, with operating status ERROR iff the handler raised and the child is marked; the child table keeps its size; the listener's operating status is ERROR iff the handler raised |
| ControllerBase.ChildHandledAfterMark | octavia/api/v1/controllers/member.py:58-76 | After the listener is marked PENDING_UPDATE, handling an unmarked child returns it, leaves the child table unchanged and leaves the listener as ListenerMarked says |
| ControllerBase.ChildHandledKeepsTable | octavia/api/v1/controllers/member.py:70-76 | Handling changes no table but the child's and the listener's |
| ControllerBase.ChildHandledUnmarked | octavia/api/v1/controllers/member.py:70-76 | When the child is not marked, its table is unchanged |
| ListenerController.WriteError | octavia/api/v1/controllers/listener.py:67-72 | A duplicate entry becomes DuplicateListenerEntry; other DB errors become InvalidOption; other errors pass through |
| ListenerController.GetOne | octavia/api/v1/controllers/listener.py:38-46 | Returns a listener of that load balancer with that id; NotFound iff none exists |
| ListenerController.GetAll | octavia/api/v1/controllers/listener.py:49-54 | Returns exactly the listeners of that load balancer |
| ListenerController.Handle | octavia/api/v1/controllers/listener.py:74-80 | Calls the handler; when it raises, the listener's provisioning status becomes ERROR |
| ListenerController.Post | octavia/api/v1/controllers/listener.py:58-84 | Behaves as PostResponse |
| ListenerController.Put | octavia/api/v1/controllers/listener.py:88-115 | Behaves as PutResponse |
| ListenerController.Delete | octavia/api/v1/controllers/listener.py:118-137 | Behaves as DeleteResponse; the row returned is the one handed to the handler, not a response body (the endpoint returns none) |
| ListenerController.HandledExisting | octavia/api/v1/controllers/listener.py:74-80 | Returns the row, with ERROR iff the handler raised; only the listener table changes |
| ListenerController.UnknownIdNotFound | octavia/api/v1/controllers/listener.py:90-93 | Put and delete of an unknown id are NotFound and change nothing (also lines 120-123) |
| ListenerController.StatusWriteOnAppended | octavia/api/v1/controllers/listener.py:64-80 | A status write on the just-inserted listener changes only that last row |
| ListenerController.PostStoresPending | octavia/api/v1/controllers/listener.py:60-84 | On error nothing changes and the error is DuplicateListenerEntry, InvalidOption, or TypeError exactly when a request key is not a listener column; on success the listener is appended with that load balancer, PENDING_CREATE, OFFLINE and its id, and is ERROR iff the handler raised |
| ListenerController.InsertedThenHandled | octavia/api/v1/controllers/listener.py:64-80 | Inserting then handling appends exactly the stored row |
| ListenerController.PostDuplicatePortRejected | octavia/api/v1/controllers/listener.py:64-69 | Posting a port already used on that load balancer, with only listener columns in the request, is DuplicateListenerEntry and changes nothing |
| ListenerController.PutMarksPendingUpdate | octavia/api/v1/controllers/listener.py:94-115 | On success the listener is PENDING_UPDATE with operating status kept and is handled as UPDATE; on error nothing changes and no handler runs, and the error is TypeError when a request key repeats `id` or `session`, else DuplicateListenerEntry or InvalidOption |
| ListenerController.PutExisting | octavia/api/v1/controllers/listener.py:94-115 | The same for a listener the lookup by id finds |
| ListenerController.FieldsThenHandledExisting | octavia/api/v1/controllers/listener.py:96-115 | Writing the fields then handling returns the row plus the fields, handled as UPDATE, ERROR iff the handler raised; a refused write changes nothing and is TypeError for a repeated parameter, else DuplicateListenerEntry or InvalidOption |
| ListenerController.UpdatedListenerHandled | octavia/api/v1/controllers/listener.py:96-115 | After an accepted update the handler gets the old row plus the written fields with UPDATE; it is returned ERROR iff the handler raised; no listener comes or goes |
| ListenerController.PutDuplicatePortRejected | octavia/api/v1/controllers/listener.py:99-101 | Moving a listener onto a port used by a sibling, with no request key repeating `id` or `session`, is DuplicateListenerEntry |
| ListenerController.PutRefusedAsDuplicate | octavia/api/v1/controllers/listener.py:99-101 | The same, under the weaker assumptions the proof uses |
| ListenerController.PortKeyShared | octavia/db/models.py:244-246 | The updated row shares the (load_balancer_id, protocol_port) key with the sibling |
| ListenerController.UpdateCollides | octavia/db/models.py:244-246 | An update that makes two rows share that key is DBDuplicateEntry |
| ListenerController.DeleteMarksPendingDelete | octavia/api/v1/controllers/listener.py:124-135 | The listener is handled as DELETE in PENDING_DELETE, then left PENDING_DELETE, or ERROR if the handler raised |
| LoadBalancerController.GetOne | octavia/api/v1/controllers/load_balancer.py:37-45 | Returns the load balancer with that id; NotFound iff none |
| LoadBalancerController.GetAll | octavia/api/v1/controllers/load_balancer.py:48-54 | Returns exactly the load balancers with that tenant_id |
| LoadBalancerController.Post | octavia/api/v1/controllers/load_balancer.py:58-73 | Behaves as its PostResponse |
| LoadBalancerController.Handle | octavia/api/v1/controllers/load_balancer.py:67-72 | Calls the handler; when it raises, the stored load balancer becomes ERROR |
| LoadBalancerController.Put | octavia/api/v1/controllers/load_balancer.py:78-101 | Behaves as its PutResponse |
| LoadBalancerController.Delete | octavia/api/v1/controllers/load_balancer.py:104-119 | Behaves as its DeleteResponse; the row returned is the one handed to the handler, not a response body (the endpoint returns none) |
| LoadBalancerController.UnknownIdNotFound | octavia/api/v1/controllers/load_balancer.py:80-83 | Put and delete of an unknown id are NotFound and change nothing (also lines 106-109) |
| LoadBalancerController.PostStoresPending | octavia/api/v1/controllers/load_balancer.py:60-73 | KeyError without a vip, and any error changes nothing; on success the load balancer has the fresh id, PENDING_CREATE, OFFLINE and no vip column, is handled as CREATE, is stored ERROR iff the handler raised, and its vip row is appended with load_balancer_id set |
| LoadBalancerController.PostStored | octavia/api/v1/controllers/load_balancer.py:60-73 | On success the load balancer has the fresh id, PENDING_CREATE, OFFLINE and no vip column, is handled as CREATE, is stored ERROR iff the handler raised, and its vip row is appended |
| LoadBalancerController.PutRefusesImmutable | octavia/api/v1/controllers/load_balancer.py:84-89 | An update of a load balancer in an immutable status is refused and changes nothing |
| LoadBalancerController.HandledExisting | octavia/api/v1/controllers/load_balancer.py:67-72 | Returns the row and calls the handler with it; the stored row is ERROR iff the handler raised |
| LoadBalancerController.PutGatePasses | octavia/api/v1/controllers/load_balancer.py:84-89 | In a mutable status the test-and-set succeeds, sets PENDING_UPDATE on that row only and keeps the tables valid |
| LoadBalancerController.FieldsThenHandledExisting | octavia/api/v1/controllers/load_balancer.py:90-100 | Writing the fields then handling returns the row plus the fields, handled as UPDATE, stored ERROR iff the handler raised; a failed write changes nothing and is TypeError when a key repeats `id` or `session`, else a DB error |
| LoadBalancerController.PutAppliesSetFields | octavia/api/v1/controllers/load_balancer.py:90-100 | Only the attributes the request set are written, operating status kept; handled as UPDATE and stored ERROR iff the handler raised; a failed write leaves the load balancer PENDING_UPDATE and is TypeError when a request key repeats `id` or `session`, else a DB error |
| LoadBalancerController.PutAfterGate | octavia/api/v1/controllers/load_balancer.py:84-100 | After a successful gate, the put is the field write on the gated tables, with the operating status kept |
| LoadBalancerController.PutRowColumns | octavia/api/v1/controllers/load_balancer.py:90-100 | The written row keeps operating status, takes every other requested value, keeps unrequested columns, and is PENDING_UPDATE unless the request sets that |
| LoadBalancerController.DeleteMarksPendingDelete | octavia/api/v1/controllers/load_balancer.py:110-118 | Returns the row PENDING_DELETE and hands it to the handler as DELETE; the stored row is PENDING_DELETE, or ERROR if the handler raised |
| MemberController.WriteError | octavia/api/v1/controllers/member.py:66-69 | A duplicate entry becomes DuplicateMemberEntry; every other error is unchanged |
| MemberController.Get | octavia/api/v1/controllers/member.py:38-44 | Returns the member with that id; NotFound iff none |
| MemberController.GetAll | octavia/api/v1/controllers/member.py:47-52 | Returns exactly the members of that pool |
| MemberController.Post | octavia/api/v1/controllers/member.py:56-78 | Behaves as its PostResponse |
| MemberController.CreateThenHandle | octavia/api/v1/controllers/member.py:61-78 | Insert, then handle, as CreateThenHandled |
| MemberController.Put | octavia/api/v1/controllers/member.py:83-109 | Behaves as its PutResponse |
| MemberController.UpdatedThenHandled | octavia/api/v1/controllers/member.py:96-109 | The update-then-handle step as a function of the update outcome |
| MemberController.UpdateThenHandle | octavia/api/v1/controllers/member.py:96-109 | Update, then handle, as UpdateThenHandled |
| MemberController.Delete | octavia/api/v1/controllers/member.py:112-130 | Behaves as its DeleteResponse; the row returned is the one handed to the handler, not a response body (the endpoint returns none) |
| MemberController.UnknownIdNotFound | octavia/api/v1/controllers/member.py:85-88 | Put and delete of an unknown id are NotFound and change nothing (also lines 114-117) |
| MemberController.AfterCreateOk | octavia/api/v1/controllers/member.py:70-78 | After a successful insert the member is returned and handled as CREATE, the member table is kept, and the listener's operating status is ERROR iff the handler raised |
| MemberController.PostStoresMember | octavia/api/v1/controllers/member.py:58-78 | On error the listener stays PENDING_UPDATE and nothing else changes, and the error is TypeError exactly when a request key is not a member column; on success the member is appended with its pool, OFFLINE and its id, handled as CREATE, and the listener ends as ListenerMarked says |
| MemberController.PostRefused | octavia/api/v1/controllers/member.py:61-69 | A refused insert leaves only the listener PENDING_UPDATE, calls no handler and never reports a raw duplicate entry; TypeError iff a request keyword is not a member column |
| MemberController.PostStored | octavia/api/v1/controllers/member.py:61-78 | A stored member carries the pool id, OFFLINE and the given or fresh id, is appended and handled with CREATE |
| MemberController.CreatedMemberHandled | octavia/api/v1/controllers/member.py:70-78 | After an accepted insert the member is returned and handed to the handler with CREATE |
| MemberController.MemberShape | octavia/db/prepare.py:57-61 | The stored member carries pool_id, OFFLINE and its id |
| MemberController.PostDuplicateMemberRejected | octavia/api/v1/controllers/member.py:61-69 | A duplicate (address, port) in the pool, with only member columns in the request, is DuplicateMemberEntry, and the listener stays PENDING_UPDATE |
| MemberController.PostIpAddressRefused | octavia/api/v1/controllers/member.py:58-65 | A request carrying `ip_address` (the column is `address`) is TypeError, with the listener left PENDING_UPDATE and no handler call |
| MemberController.InsertRefusedAsDuplicate | octavia/db/models.py:124-127 | Inserting such a member is DBDuplicateEntry |
| MemberController.AfterUpdateOk | octavia/api/v1/controllers/member.py:96-109 | After a successful update the updated member is returned and handled as UPDATE; the listener's operating status is ERROR iff the handler raised |
| MemberController.UpdateThenHandledWrites | octavia/api/v1/controllers/member.py:96-109 | The member becomes the old row plus the new values and is handled as UPDATE; the listener's operating status is ERROR iff the handler raised; on error nothing changes, no raw DB duplicate escapes, and a key repeating `id` or `session` is TypeError |
| MemberController.RefusedUpdateHandled | octavia/api/v1/controllers/member.py:96-99 | A refused update answers with the refusal, a duplicate entry as DuplicateMemberEntry, writes nothing and calls no handler |
| MemberController.UpdatedMemberHandled | octavia/api/v1/controllers/member.py:96-109 | After an accepted update the member is the old row plus the new values, handled with UPDATE; no member comes or goes; the listener is ERROR iff the handler raised |
| MemberController.PutKeepsOperatingStatus | octavia/api/v1/controllers/member.py:89-109 | The operating status is kept, every other requested value is written, unrequested columns are kept, and the member is handled as UPDATE; on error the listener stays PENDING_UPDATE, and a request key repeating `id` or `session` is TypeError |
| MemberController.IdNotOperatingStatus | octavia/api/v1/controllers/member.py:89-95 | The id column and the operating status column are different keys |
| MemberController.PutColumns | octavia/api/v1/controllers/member.py:89-109 | The written row is the old row plus the request without its operating status |
| MemberController.PutDuplicateMemberRejected | octavia/api/v1/controllers/member.py:96-99 | Moving a member onto a sibling's address and port is DuplicateMemberEntry |
| MemberController.UpdateClashes | octavia/db/models.py:124-127 | The updated member shares the pool's unique key with the sibling |
| MemberController.DuplicateUpdateRefused | octavia/db/models.py:124-127 | With no key repeating `id` or `session`, the update is refused as DBDuplicateEntry |
| MemberController.MemberKeyColumns | octavia/db/models.py:124-127 | The member key is (pool_id, address, protocol_port) |
| MemberController.UpdateCollides | octavia/db/models.py:124-127 | An update that makes two members share that key is DBDuplicateEntry |
| MemberController.DeleteMarksListener | octavia/api/v1/controllers/member.py:118-128 | The handler is called with UPDATE (as written); the member row is left unchanged; the listener ends as ListenerMarked says |
| PoolController.Get | octavia/api/v1/controllers/pool.py:40-45 | Returns the pool with that id; NotFound iff none |
| PoolController.GetAll | octavia/api/v1/controllers/pool.py:48-57 | AttributeError iff the listener is missing; otherwise at most its default pool |
| PoolController.Post | octavia/api/v1/controllers/pool.py:61-87 | Behaves as its PostResponse |
| PoolController.CreateThenHandle | octavia/api/v1/controllers/pool.py:65-87 | Create on the listener, then handle, as CreateThenHandled |
| PoolController.Put | octavia/api/v1/controllers/pool.py:91-119 | Behaves as its PutResponse |
| PoolController.UpdateThenHandle | octavia/api/v1/controllers/pool.py:98-119 | Update on the listener, then handle, as UpdateThenHandled |
| PoolController.Delete | octavia/api/v1/controllers/pool.py:122-142 | Behaves as its DeleteResponse; the row returned is the one handed to the handler, not a response body (the endpoint returns none) |
| PoolController.UnknownIdsRefused | octavia/api/v1/controllers/pool.py:93-96 | Posting to an unknown listener is AttributeError; put and delete of an unknown pool are NotFound; none of them changes anything |
| PoolController.PostRefusesSecondPool | octavia/api/v1/controllers/pool.py:63-64 | A listener that already has a default pool refuses another with DuplicatePoolEntry and nothing changes |
| PoolController.CreateThenHandledStores | octavia/api/v1/controllers/pool.py:65-87 | The pool is appended with the fresh id and handled as CREATE; the listener points at it, with operating status ERROR iff the handler raised; on error nothing changes |
| PoolController.AfterCreateOk | octavia/api/v1/controllers/pool.py:70-87 | After a successful create the pool is returned and handled as CREATE; the listener's operating status is ERROR iff the handler raised |
| PoolController.LinkedListener | octavia/db/repositories.py:98-99 | The listener's default pool is the new pool |
| PoolController.PostCreatesPool | octavia/api/v1/controllers/pool.py:65-87 | On success the pool has the fresh id, OFFLINE and no session persistence column, is appended and handled as CREATE, and the listener is PENDING_UPDATE and points at it; on error the listener stays PENDING_UPDATE |
| PoolController.PostPoolShape | octavia/db/prepare.py:48-55 | The stored pool carries OFFLINE and the fresh id |
| PoolController.UpdateThenHandledWrites | octavia/api/v1/controllers/pool.py:98-119 | The pool becomes the old row plus the new values and is handled as UPDATE; the listener's operating status is ERROR iff the handler raised; on error nothing changes, and a key repeating `id` or `session` is TypeError |
| PoolController.UpdatedPoolHandled | octavia/api/v1/controllers/pool.py:106-119 | Handling after the update returns the updated pool as UPDATE and marks the listener's operating status ERROR iff the handler raised |
| PoolController.PoolHandled | octavia/api/v1/controllers/pool.py:106-119 | Handling an existing pool calls the handler with it and marks pool (when asked) and listener operating status ERROR iff the handler raised |
| PoolController.PutKeepsOperatingStatus | octavia/api/v1/controllers/pool.py:93-119 | The operating status is kept, every other requested value but session persistence is written, unrequested columns are kept, and the pool is handled as UPDATE; on error the listener stays PENDING_UPDATE, and a request key repeating `id` or `session` is TypeError |
| PoolController.PutColumns | octavia/api/v1/controllers/pool.py:93-104 | The written columns are the request's without operating status and session persistence |
| PoolController.PutKeepsPersistenceIffGiven | octavia/api/v1/controllers/pool.py:98-104 | After a successful put the pool has session persistence iff the request gave one |
| PoolController.DeleteMarksListener | octavia/api/v1/controllers/pool.py:124-141 | The handler is called with UPDATE (as written); the returned pool has operating status ERROR iff the handler raised; the listener ends as ListenerMarked says |
| HealthMonitorController.GetAll | octavia/api/v1/controllers/health_monitor.py:37-46 | Returns the pool's health monitor; NotFound iff the pool has none |
| HealthMonitorController.Post | octavia/api/v1/controllers/health_monitor.py:50-78 | Behaves as its PostResponse |
| HealthMonitorController.CreateThenHandle | octavia/api/v1/controllers/health_monitor.py:59-78 | Insert, then handle, as CreateThenHandled |
| HealthMonitorController.Put | octavia/api/v1/controllers/health_monitor.py:82-110 | Behaves as its PutResponse |
| HealthMonitorController.UpdatedThenHandled | octavia/api/v1/controllers/health_monitor.py:93-110 | The update-then-handle step as a function of the update outcome |
| HealthMonitorController.UpdateThenHandle | octavia/api/v1/controllers/health_monitor.py:93-110 | Update, then handle, as UpdateThenHandled |
| HealthMonitorController.Delete | octavia/api/v1/controllers/health_monitor.py:113-134 | Behaves as its DeleteResponse; the row returned is the one handed to the handler, not a response body (the endpoint returns none) |
| HealthMonitorController.InsertFailsAsDBError | octavia/api/v1/controllers/health_monitor.py:64-68 | A refused insert is TypeError iff a key is not a monitor column; any other refusal is reported as InvalidOption |
| HealthMonitorController.UpdateFailsAsDBError | octavia/api/v1/controllers/health_monitor.py:93-98 | Any constraint failure of the update is reported as InvalidOption |
| HealthMonitorController.NoMonitorNotFound | octavia/api/v1/controllers/health_monitor.py:84-88 | Put and delete on a pool without a monitor are NotFound and change nothing (also lines 115-119) |
| HealthMonitorController.PostRefusesSecondMonitor | octavia/api/v1/controllers/health_monitor.py:52-56 | A pool that already has a monitor refuses a second one and nothing changes |
| HealthMonitorController.MonitorHandled | octavia/api/v1/controllers/health_monitor.py:69-78 | Handling returns the monitor unchanged and marks the listener's operating status ERROR iff the handler raised |
| HealthMonitorController.PostStoresMonitor | octavia/api/v1/controllers/health_monitor.py:59-78 | On error (TypeError when a request key is not a monitor column, else InvalidOption) the listener stays PENDING_UPDATE; on success the monitor for that pool is appended, handled as CREATE, and the listener ends as ListenerMarked says |
| HealthMonitorController.PostRefused | octavia/api/v1/controllers/health_monitor.py:59-68 | A refused insert leaves only the listener PENDING_UPDATE, calls no handler, and answers TypeError for an unknown keyword, InvalidOption otherwise |
| HealthMonitorController.PostedMonitor | octavia/api/v1/controllers/health_monitor.py:59-78 | A stored monitor is the request with the pool id, appended, found by its pool, handed to the handler with CREATE; the listener is ERROR iff the handler raised |
| HealthMonitorController.CreateThenHandledStores | octavia/api/v1/controllers/health_monitor.py:59-78 | Insert then handle appends exactly the monitor, which is then the pool's monitor; on error nothing changes and the error is TypeError or InvalidOption as above |
| HealthMonitorController.InsertedMonitorHandled | octavia/api/v1/controllers/health_monitor.py:64-78 | After an accepted insert the monitor is returned, appended, found by its pool and handled with CREATE |
| HealthMonitorController.UpdateThenHandledWrites | octavia/api/v1/controllers/health_monitor.py:93-110 | The monitor becomes the old row plus the new values and is handled as UPDATE; on error nothing changes, and the error is TypeError when a key repeats `pool_id` or `session`, else InvalidOption |
| HealthMonitorController.RefusedUpdateHandled | octavia/api/v1/controllers/health_monitor.py:93-98 | A refused update answers with the refusal, a database error as InvalidOption, writes nothing and calls no handler |
| HealthMonitorController.UpdatedMonitorHandled | octavia/api/v1/controllers/health_monitor.py:93-110 | After an accepted update the monitor is the old row plus the new values, handled with UPDATE; no monitor comes or goes; the listener is ERROR iff the handler raised |
| HealthMonitorController.RefusedUpdateAnswers | octavia/api/v1/controllers/health_monitor.py:93-98 | A refused update writes nothing, calls no handler, and answers TypeError for a repeated keyword, InvalidOption otherwise |
| HealthMonitorController.PutUpdatesMonitor | octavia/api/v1/controllers/health_monitor.py:89-110 | On success the monitor keeps its pool, takes the requested values, keeps the rest and is handled as UPDATE; on error the listener stays PENDING_UPDATE, and the error is TypeError when a request key repeats `pool_id` or `session`, else InvalidOption |
| HealthMonitorController.PutIsMarkThenUpdate | octavia/api/v1/controllers/health_monitor.py:89-110 | put on a pool with a monitor is the listener's PENDING_UPDATE write followed by the update and the handler |
| HealthMonitorController.PutColumns | octavia/api/v1/controllers/health_monitor.py:89-98 | The written row keeps its pool, takes the requested values and keeps the rest |
| HealthMonitorController.DeleteKeepsMonitor | octavia/api/v1/controllers/health_monitor.py:120-134 | The handler is called with DELETE; the monitor row is left unchanged; the listener ends as ListenerMarked says |
| Worker.RecordedThen | octavia/controller/worker/controller_worker.py:237-269 | Two recorded steps in a row are recorded as their sequence |
| Worker.RecordedStop | octavia/controller/worker/controller_worker.py:237-269 | A failed step ends the sequence |
| Worker.InitialStore | octavia/controller/worker/controller_worker.py:288-299 | The store holds the load balancer id, and an update dict iff the topology is SINGLE or ACTIVE_STANDBY |
| Worker.ControllerWorker.constructor | octavia/controller/worker/controller_worker.py:39-55 | Starts with an empty trace |
| Worker.ControllerWorker.RunFlow | octavia/controller/worker/controller_worker.py:57-68 | Records the run; fails iff it is in the failing set |
| Worker.ControllerWorker.CreateAmphora | octavia/controller/worker/controller_worker.py:57-68 | Records the create-amphora flow; a failing flow is FlowFailed; otherwise it returns the stored amphora, or NotFound when none was stored |
| Worker.ControllerWorker.DeleteAmphora | octavia/controller/worker/controller_worker.py:70-84 | Runs as DeleteAmphoraRuns: the amphora looked up, then the delete flow |
| Worker.ControllerWorker.Resolve | octavia/controller/worker/controller_worker.py:93-109 | Resolves pool, listener, load balancer and vip as PoolChain |
| Worker.ControllerWorker.RunChild | octavia/controller/worker/controller_worker.py:93-112 | Runs one child flow with the resolved store, as ChildRuns |
| Worker.ControllerWorker.CreateHealthMonitor | octavia/controller/worker/controller_worker.py:86-112 | Runs as CreateHealthMonitorRuns |
| Worker.ControllerWorker.DeleteHealthMonitor | octavia/controller/worker/controller_worker.py:114-136 | Runs as DeleteHealthMonitorRuns |
| Worker.ControllerWorker.UpdateHealthMonitor | octavia/controller/worker/controller_worker.py:138-167 | Runs as UpdateHealthMonitorRuns |
| Worker.ControllerWorker.RunListenerOp | octavia/controller/worker/controller_worker.py:169-235 | Runs one listener flow with the resolved store, as ListenerOpRuns |
| Worker.ControllerWorker.CreateListener | octavia/controller/worker/controller_worker.py:169-189 | Runs as CreateListenerRuns |
| Worker.ControllerWorker.DeleteListener | octavia/controller/worker/controller_worker.py:191-209 | Runs as DeleteListenerRuns |
| Worker.ControllerWorker.UpdateListener | octavia/controller/worker/controller_worker.py:211-235 | Runs as UpdateListenerRuns |
| Worker.ControllerWorker.CreateMembers | octavia/controller/worker/controller_worker.py:263-264 | The member loop runs as MemberRuns |
| Worker.ControllerWorker.CreateListenerSubtree | octavia/controller/worker/controller_worker.py:260-264 | One listener, then its default pool's members, as OneListenerRuns |
| Worker.ControllerWorker.CreateLoadBalancerTree | octavia/controller/worker/controller_worker.py:237-269 | The full-tree creation runs as TreeRuns |
| Worker.ControllerWorker.CreateLoadBalancer | octavia/controller/worker/controller_worker.py:271-323 | Runs as CreateLoadBalancerRuns |
| Worker.ControllerWorker.DeleteLoadBalancer | octavia/controller/worker/controller_worker.py:325-341 | Runs as DeleteLoadBalancerRuns |
| Worker.ControllerWorker.UpdateLoadBalancer | octavia/controller/worker/controller_worker.py:343-361 | Runs as UpdateLoadBalancerRuns |
| Worker.ControllerWorker.CreateMember | octavia/controller/worker/controller_worker.py:363-385 | Runs as CreateMemberRuns |
| Worker.ControllerWorker.DeleteMember | octavia/controller/worker/controller_worker.py:387-409 | Runs as DeleteMemberRuns |
| Worker.ControllerWorker.UpdateMember | octavia/controller/worker/controller_worker.py:411-439 | Runs as UpdateMemberRuns |
| Worker.ControllerWorker.CreatePool | octavia/controller/worker/controller_worker.py:441-466 | Runs as CreatePoolRuns |
| Worker.ControllerWorker.DeletePool | octavia/controller/worker/controller_worker.py:468-489 | Runs as DeletePoolRuns |
| Worker.ControllerWorker.UpdatePool | octavia/controller/worker/controller_worker.py:491-519 | Runs as UpdatePoolRuns |
| Worker.ControllerWorker.FailoverAmphora | octavia/controller/worker/controller_worker.py:521-538 | Runs as FailoverRuns, the corrected failover |
| Worker.ControllerWorker.AmphoraCertRotation | octavia/controller/worker/controller_worker.py:540-560 | Runs as CertRotationRuns |
| Worker.ChildRuns | octavia/controller/worker/controller_worker.py:93-112 | AttributeError or exactly one run of the given flow, failed iff it is in the failing set; a run happens iff the entity exists and its pool chain resolves; the entity is stored under its key |
| Worker.ChildRunsKeepExtra | octavia/controller/worker/controller_worker.py:93-112 | What the operation adds to the store reaches the run unchanged |
| Worker.CreateHealthMonitorRuns | octavia/controller/worker/controller_worker.py:86-112 | AttributeError when the monitor is unknown; otherwise AttributeError or exactly one run of the create-health-monitor flow, failed iff it is in the failing set, with the monitor looked up in the store |
| Worker.DeleteHealthMonitorRuns | octavia/controller/worker/controller_worker.py:114-136 | AttributeError when the monitor is unknown; otherwise AttributeError or exactly one run of the delete-health-monitor flow, failed iff it is in the failing set, with the monitor looked up in the store, and the pool id |
| Worker.UpdateHealthMonitorRuns | octavia/controller/worker/controller_worker.py:138-167 | AttributeError when the monitor is unknown; otherwise AttributeError or exactly one run of the update-health-monitor flow, failed iff it is in the failing set, with the monitor looked up in the store, and the update dict |
| Worker.CreateMemberRuns | octavia/controller/worker/controller_worker.py:363-385 | AttributeError when the member is unknown; otherwise AttributeError or exactly one run of the create-member flow, failed iff it is in the failing set, with the member looked up in the store |
| Worker.DeleteMemberRuns | octavia/controller/worker/controller_worker.py:387-409 | AttributeError when the member is unknown; otherwise AttributeError or exactly one run of the delete-member flow, failed iff it is in the failing set, with the member looked up in the store, and the member id |
| Worker.UpdateMemberRuns | octavia/controller/worker/controller_worker.py:411-439 | AttributeError when the member is unknown; otherwise AttributeError or exactly one run of the update-member flow, failed iff it is in the failing set, with the member looked up in the store, and the update dict |
| Worker.CreatePoolRuns | octavia/controller/worker/controller_worker.py:441-466 | AttributeError when the pool is unknown; otherwise AttributeError or exactly one run of the create-pool flow, failed iff it is in the failing set, with the pool looked up in the store |
| Worker.DeletePoolRuns | octavia/controller/worker/controller_worker.py:468-489 | AttributeError when the pool is unknown; otherwise AttributeError or exactly one run of the delete-pool flow, failed iff it is in the failing set, with the pool looked up in the store |
| Worker.UpdatePoolRuns | octavia/controller/worker/controller_worker.py:491-519 | AttributeError when the pool is unknown; otherwise AttributeError or exactly one run of the update-pool flow, failed iff it is in the failing set, with the pool looked up in the store, and the update dict |
| Worker.ListenerOpRuns | octavia/controller/worker/controller_worker.py:169-235 | AttributeError or exactly one run of the given flow, failed iff it is in the failing set; AttributeError when the listener is unknown; the listener looked up is stored |
| Worker.ListenerOpKeepsExtra | octavia/controller/worker/controller_worker.py:211-235 | What the operation adds to the store reaches the run unchanged |
| Worker.CreateListenerRuns | octavia/controller/worker/controller_worker.py:169-189 | AttributeError when the listener is unknown; otherwise AttributeError or exactly one run of the create-listener flow, failed iff it is in the failing set, with the listener looked up in the store |
| Worker.DeleteListenerRuns | octavia/controller/worker/controller_worker.py:191-209 | AttributeError when the listener is unknown; otherwise AttributeError or exactly one run of the delete-listener flow, failed iff it is in the failing set, with the listener looked up in the store |
| Worker.UpdateListenerRuns | octavia/controller/worker/controller_worker.py:211-235 | AttributeError when the listener is unknown; otherwise AttributeError or exactly one run of the update-listener flow, failed iff it is in the failing set, with the listener looked up in the store, and the update dict |
| Worker.UpdateListenerWired | octavia/controller/worker/controller_worker.py:211-235 | An unknown listener is AttributeError; a run is on that listener and carries the update dict |
| Worker.DeleteLoadBalancerRuns | octavia/controller/worker/controller_worker.py:325-341 | Exactly one run of the delete-load-balancer flow, failed iff it is in the failing set, with the load balancer looked up (None when unknown) |
| Worker.UpdateLoadBalancerRuns | octavia/controller/worker/controller_worker.py:343-361 | Exactly one run of the update-load-balancer flow, failed iff it is in the failing set, with the load balancer looked up and the update dict |
| Worker.DeleteAmphoraRuns | octavia/controller/worker/controller_worker.py:70-84 | Exactly one run of the delete-amphora flow, failed iff it is in the failing set, with the amphora looked up (None when unknown) |
| Worker.FailoverRunsAsWritten | octavia/controller/worker/controller_worker.py:529-535 | As written, failover never runs a flow and always ends in AttributeError |
| Worker.FailoverRuns | octavia/controller/worker/controller_worker.py:521-538 | The corrected failover: AttributeError when the amphora is unknown; otherwise one failover run, failed iff it is in the failing set, with the amphora and a load balancer id in the store |
| Worker.CertRotationRuns | octavia/controller/worker/controller_worker.py:540-560 | AttributeError when the amphora is unknown; otherwise one cert-rotation run, failed iff it is in the failing set, with the amphora and its id in the store |
| Worker.MemberLoopStep | octavia/controller/worker/controller_worker.py:263-264 | One member iteration extends the recorded runs; a failure ends the loop |
| Worker.ListenerLoopStep | octavia/controller/worker/controller_worker.py:260-264 | One listener iteration extends the recorded runs; a failure ends the loop |
| Worker.ListenerChainLinks | octavia/controller/worker/controller_worker.py:178-180 | A resolved listener chain is wired: its load balancer and vip belong to the listener; otherwise AttributeError |
| Worker.AssignDefaultPoolKeeps | octavia/controller/worker/controller_worker.py:451-452 | Assigning the pool as the listener's default pool changes nothing that is resolved |
| Worker.PoolChainLinks | octavia/controller/worker/controller_worker.py:96-100 | A resolved pool chain is wired through the listener whose default pool it is; otherwise AttributeError |
| Worker.ChildRunsWired | octavia/controller/worker/controller_worker.py:93-112 | A child operation runs exactly one flow, with the entity and a wired store; with no entity or pool, AttributeError and no run |
| Worker.ChildRanOn | octavia/controller/worker/controller_worker.py:93-112 | The one flow runs on the entity looked up |
| Worker.MemberPool | octavia/controller/worker/controller_worker.py:372-376 | The member found by id has that id, and its pool is the one its pool_id names |
| Worker.MemberOperationsWired | octavia/controller/worker/controller_worker.py:363-439 | An unknown member is AttributeError for create, delete and update; otherwise each runs its flow on that member (delete also stores its id, update the updates) |
| Worker.MonitorPool | octavia/controller/worker/controller_worker.py:93-96 | The monitor found by pool_id belongs to that pool |
| Worker.HealthMonitorOperationsWired | octavia/controller/worker/controller_worker.py:86-167 | A pool without a monitor is AttributeError; otherwise each operation runs its flow on that monitor (delete also stores the pool id, update the updates) |
| Worker.PoolOperationsWired | octavia/controller/worker/controller_worker.py:441-519 | An unknown pool is AttributeError; otherwise each operation runs its flow on that pool (update also stores the updates) |
| Worker.CreatePoolWired | octavia/controller/worker/controller_worker.py:441-466 | The create part of PoolOperationsWired |
| Worker.DeletePoolWired | octavia/controller/worker/controller_worker.py:468-489 | The delete part; delete runs iff create would |
| Worker.UpdatePoolWired | octavia/controller/worker/controller_worker.py:491-519 | The update part |
| Worker.ListenerOpWired | octavia/controller/worker/controller_worker.py:169-235 | A listener operation runs exactly one flow on the listener, or is AttributeError when the listener is unknown |
| Worker.ListenerOperationsWired | octavia/controller/worker/controller_worker.py:169-235 | The same for create, delete and update; update also stores the updates |
| Worker.CertRotationStoresAmphora | octavia/controller/worker/controller_worker.py:548-556 | Runs one cert-rotation flow iff the amphora exists, with the amphora and its id in the store |
| Worker.FailoverAsWrittenNeverRuns | octavia/controller/worker/controller_worker.py:529-535 | As written, failover of any existing amphora is AttributeError (its data model has no load_balancer_id); the corrected failover runs one flow |
| Worker.FailoverStoresLoadBalancer | octavia/controller/worker/controller_worker.py:521-538 | The corrected failover runs one flow iff the amphora exists, storing the amphora and a load balancer id that is None or linked to it |
| Worker.CompletedMemberRunsSplit | octavia/controller/worker/controller_worker.py:263-264 | A completed member loop is the loop over all but the last plus one create-member run for the last |
| Worker.CreatesEachMemberAppend | octavia/controller/worker/controller_worker.py:263-264 | Appending the last member's run keeps "creates each member, in order" |
| Worker.MemberRunsInOrder | octavia/controller/worker/controller_worker.py:263-264 | A completed member loop creates each member in order, exactly one run per member and no listener runs |
| Worker.CompletedListenerSplit | octavia/controller/worker/controller_worker.py:260-264 | A completed listener step is its create-listener run followed by its default pool's member runs |
| Worker.OneListenerShape | octavia/controller/worker/controller_worker.py:260-264 | That step has 1 + (members of its default pool) runs: one listener run first, then member runs |
| Worker.LedCounts | octavia/controller/worker/controller_worker.py:260-264 | A listener run followed by runs that create no listener creates one listener and as many members as those runs |
| Worker.TreeCounts | octavia/controller/worker/controller_worker.py:260-264 | The listener loop creates each listener once and each default-pool member once, and nothing else |
| Worker.TreeShape | octavia/controller/worker/controller_worker.py:237-258 | The tree starts with the create-load-balancer flow, then the post-association flow unless the first failed |
| Worker.CompletedTreeSplit | octavia/controller/worker/controller_worker.py:237-269 | A completed tree is create, post-association, the listener loop, then finalize |
| Worker.TreeCompletes | octavia/controller/worker/controller_worker.py:237-269 | A completed tree ends with finalize and creates each listener and member exactly once |
| Worker.FramedCounts | octavia/controller/worker/controller_worker.py:237-269 | Framing the listener loop with the create, post-association and finalize runs, none of which creates a listener or member, keeps its listener and member counts, and finalize is last |
| Worker.CreateLoadBalancerShape | octavia/controller/worker/controller_worker.py:271-323 | Unknown id is AttributeError; without listeners at most the two creation flows run; with listeners a completed run ends with finalize and has the counts above |
| Worker.ThenStops | octavia/controller/worker/controller_worker.py:237-269 | No run follows a failing run, kept by sequencing |
| Worker.ChildRunsStopAtFailure | octavia/controller/worker/controller_worker.py:86-167 | No run follows a failing run in a child operation |
| Worker.ListenerOpStopsAtFailure | octavia/controller/worker/controller_worker.py:169-235 | The same for a listener operation |
| Worker.MemberRunsStopAtFailure | octavia/controller/worker/controller_worker.py:263-264 | The same for the member loop |
| Worker.ListenerRunsStopAtFailure | octavia/controller/worker/controller_worker.py:260-264 | The same for the listener loop |
| Worker.CreateLoadBalancerStopsAtFailure | octavia/controller/worker/controller_worker.py:271-323 | The same for load balancer creation |
| Plug.BroadcastOfDottedQuad | octavia/amphorae/backends/agent/api_server/plug.py:50-53 | The broadcast of a.b.c.d is a.b.c.255 |
| Plug.BroadcastExtendsPrefix | octavia/amphorae/backends/agent/api_server/plug.py:50-53 | The broadcast address ends in ".255" and the rest is a prefix of the VIP |
| Plug.Broadcast | octavia/amphorae/backends/agent/api_server/plug.py:50-53 | The broadcast address always ends in ".255" |
| Plug.NoneDown | octavia/amphorae/backends/agent/api_server/plug.py:94-104 | With every interface holding an inet address, none is found |
| Plug.OnlyDownWithInet | octavia/amphorae/backends/agent/api_server/plug.py:94-104 | An interface with an address added at the end does not change which interface is the only one down |
| Plug.OnlyDownWithoutInet | octavia/amphorae/backends/agent/api_server/plug.py:94-104 | An interface without an address added at the end is the only one down iff all the others have addresses |
| Plug.InterfaceDownUnique | octavia/amphorae/backends/agent/api_server/plug.py:94-104 | An interface is found iff exactly one lacks an inet address, and it is that one |
| Plug.DownNames | octavia/amphorae/backends/agent/api_server/plug.py:96-97 | At most one name per interface, each the name of an interface without an inet address |
| Plug.InterfaceDown | octavia/amphorae/backends/agent/api_server/plug.py:94-104 | An interface found lacks an inet address; with no interfaces none is found |
| Plug.IfUpsOne | octavia/amphorae/backends/agent/api_server/plug.py:107-117 | Running ifup on one device records it and fails iff that device's ifup fails |
| Plug.IfUpsTwo | octavia/amphorae/backends/agent/api_server/plug.py:68-69 | Running ifup on two devices stops at the first failing one |
| Plug.IfUps | octavia/amphorae/backends/agent/api_server/plug.py:107-117 | ifup runs on the devices in order and stops at the first failure: the recorded ifups are a prefix of the devices, none but the last failed; no error iff no device fails, and then every device ran; an error is the 500 PlugError with the last device's output |
| Plug.Host.BringIfDown | octavia/amphorae/backends/agent/api_server/plug.py:120-125 | Records one ifdown of that interface |
| Plug.Host.BringIfUp | octavia/amphorae/backends/agent/api_server/plug.py:107-117 | Records one ifup; a failure is a 500 PlugError |
| Plug.Host.WriteFile | octavia/amphorae/backends/agent/api_server/plug.py:56-63 | Records the interface file written |
| Plug.Host.FindInterfaceDown | octavia/amphorae/backends/agent/api_server/plug.py:94-104 | Returns the interface that is down, as InterfaceDown says |
| Plug.Host.PlugVip | octavia/amphorae/backends/agent/api_server/plug.py:40-74 | The effects and response are those of PlugVipOutcome; earlier effects are kept |
| Plug.Host.PlugNetwork | octavia/amphorae/backends/agent/api_server/plug.py:77-91 | The effects and response are those of PlugNetworkOutcome; earlier effects are kept |
| Plug.PlugVipOrder | octavia/amphorae/backends/agent/api_server/plug.py:40-74 | An invalid VIP is 400 with no effects; no down interface is 404 with no effects; otherwise the file (broadcast from the VIP, netmask 255.255.255.0) is written, then ifdown i, ifdown i:0, ifup i, and ifup i:0 only if ifup i succeeded; 202 iff neither ifup failed, else 500 |
| Plug.PlugNetworkOrder | octavia/amphorae/backends/agent/api_server/plug.py:77-91 | No down interface is 404 with no effects; otherwise the file is written, then ifdown i:0 and ifup i:0; 202 iff that ifup succeeded, else a 500 PlugError |
| Plug.PlugVipOutcome | octavia/amphorae/backends/agent/api_server/plug.py:40-74 | An invalid VIP is 400 with no effects; there are no effects iff the VIP is invalid or no interface is down; the status is 202, 400, 404 or 500; a 202 comes after five effects |
| Plug.PlugVipOnOutcome | octavia/amphorae/backends/agent/api_server/plug.py:55-74 | Once an interface is found the status is 202 or 500, after four or five effects, five for a 202 |
| Plug.Host.PlugVipOn | octavia/amphorae/backends/agent/api_server/plug.py:55-74 | The effects appended and the response are those of PlugVipOnOutcome |
| Plug.PlugNetworkOutcome | octavia/amphorae/backends/agent/api_server/plug.py:77-91 | No effects iff no interface is down; the status is 202, 404 or 500; a 202 comes after three effects |

## Left out

- `delete_batch` and `delete_members` (octavia/db/repositories.py:42-43, 176-177) pass each id as a positional argument to `delete(session, **filters)`. That call raises TypeError for any non-empty list, and no controller calls them, so they are not modelled.
- `to_data_model` (octavia/db/base_models.py:27-50) is not modelled. Relationships are followed explicitly through foreign-key columns instead.
- `get` and `get_all` with a filter named `session` raise TypeError in the source; the model treats it as a filter on a column that no row has.
- SQLAlchemy sessions, subtransactions and `with_for_update` are not modelled. A compound operation is one atomic step, and `test_and_set_provisioning_status` is atomic.
- Concurrency and database migrations are left out.
- TaskFlow flows, tasks and drivers are opaque: a run is its flow name and store. Whether a run fails is an input (the `failing` set).
- The handler exception is an input, `handlerFails`.
- The pecan/wsme request and response types are not modelled. Conversion of rows to response types (`_convert_db_to_type`), `_lookup` routing and `IPAddressType.validate` are left out too.
- UUID generation is a `freshId` parameter, and logging is left out.
- `octavia/common/constants.py` is not part of this model. The set of mutable statuses is a parameter.
- The model follows the schema the code evidently means, not the code as written. The next four lines list where they part; the model reproduces none of those failures.
- `VipRepository.model_class = models.Vip` (octavia/db/repositories.py:135) and `models.Vip(**vip_dict)` (octavia/db/repositories.py:86) name a class that `octavia/db/models.py` does not define, so importing `repositories.py` raises AttributeError. The model has a `vip` table keyed by load_balancer_id, with a foreign key to the load balancer and the VIP request type's attributes as its columns (`Models.Columns`).
- `relationship("Amorpha")` (octavia/db/models.py:233) names no class, so the mappers cannot be configured. The model links load balancers and amphorae through the association table only.
- `to_data_model` (octavia/db/base_models.py:27-50) passes every column as a keyword. `vip_floating_ip_id` and `vip_floating_ip_network_id` (octavia/db/models.py:219-220) are not parameters of `data_models.LoadBalancer`, and `fall_threshold` and `rise_threshold` (octavia/db/models.py:164-165) are not parameters of `data_models.HealthMonitor`. `to_data_model` also follows relationships (octavia/db/base_models.py:36-40), so as written every read whose relationships reach a load balancer or a health monitor raises TypeError: a `get`, `get_all` or `create` of a load balancer or a health monitor, and also of a listener, a pool or a member, whose links lead to one. The model's reads succeed instead, for example LoadBalancerController.GetOne, ListenerController.GetOne, HealthMonitorController.GetAll and the worker's lookups in create_pool and create_member (octavia/controller/worker/controller_worker.py:448-453).
- `pool.health_monitor_id` references `health_monitor.id` (octavia/db/models.py:194), a column the monitor table does not have: its key is `pool_id`. The model keeps that foreign key, so a pool with a non-NULL health_monitor_id is refused with DBError; SQLAlchemy fails earlier, when it builds the table.
- Members are stored under the model's `address` column. A member request that names it `ip_address`, as the functional tests do, is refused with TypeError (MemberController.PostIpAddressRefused). The member request type is not part of this model.
- Models.Validate: SQLAlchemy's `_declarative_constructor` sets the keywords one at a time, so it raises the TypeError for an unknown keyword or a validator's ValueError, whichever keyword comes first. A row that has both faults gets TypeError in the model (Repositories.ConstructorError). A None counter is refused with ValueError, because Python 2 orders None below every integer (octavia/db/models.py:108). Under Python 3 that comparison raises TypeError instead.
- Repositories.Update: a keyword that is not a column is written like a column. SQLAlchemy's bulk `Query.update` refuses it with an error whose class depends on the SQLAlchemy version, so that refusal is not modelled.
- Repositories.InsertError: a keyword naming a relationship (`pool` on a member, `listener` on a pool, ...) is refused as TypeError. SQLAlchemy's constructor accepts such a keyword and then fails unless its value is a mapped object, None or an empty list. The model's values hold no mapped objects.
- ListenerController.Delete, LoadBalancerController.Delete, MemberController.Delete, PoolController.Delete and HealthMonitorController.Delete return the row they handed to the handler. The source's `delete` endpoints are exposed with a `None` return type (octavia/api/v1/controllers/load_balancer.py:103, octavia/api/v1/controllers/listener.py:117, octavia/api/v1/controllers/pool.py:121, octavia/api/v1/controllers/member.py:111, octavia/api/v1/controllers/health_monitor.py:112), so the client receives no body.
- In plug.py, `socket.inet_aton` is a boolean input, `accepted`. The jinja templates and file paths are abstract. The output of ifup/ifdown is the `ifupFailures` input. The netifaces interface list is an input. A flask response is a status code plus a message.
- The controller worker has no try/except. The model follows the code: a failed flow ends the operation and writes no ERROR status.
- PoolController.PostCreatesPool: requires that the fresh id is unused in the tables. This is what UUID generation provides.
- Prepare.Iterate and Prepare.CreateListener: require that sni_containers is not a dict. Iterating a dict's keys is not modelled.
- DataModels.DataModel.constructor: requires every keyword to be a constructor parameter. The TypeError Python raises for an unexpected keyword is not modelled.
- ApiTypes.FromDataModel: requires that no declared attribute of the data model holds a list of nested models. Such a list is not modelled; a single nested model is modelled, and the attribute keeps its default.
- `network/data_models.py` and the test files are not modelled.

## Findings

| source | as written | input that shows it | evidently intended | confidence | as-written member | corrected member |
|---|---|---|---|---|---|---|
| octavia/api/v1/handler.py:24-27 | The message `"Invalid Input Object %(obj_type)"` has no conversion character, so `message % kwargs` raises ValueError | `handle` called with any object that is not a health monitor, member, pool, listener or load balancer | `%(obj_type)s` in the message and `super(...).__init__(message)` on line 28, so that InvalidHandlerInputObject is raised; correcting the message alone still raises TypeError at line 28 (Handler.MessageFixAloneRaisesTypeError) | not executed | Handler.HandleAsWrittenRaisesValueError | Handler.InvalidInputMessageFormats |
| octavia/controller/worker/controller_worker.py:529-535 | Failover reads `amp.load_balancer_id`, but the amphora's data model is `Container` (octavia/db/models.py:306), which has no such attribute (octavia/common/data_models.py:199-205) | `failover_amphora` with the id of any existing amphora | take the load balancer id from the amphora's load balancer link | not executed | Worker.FailoverAsWrittenNeverRuns | Worker.FailoverStoresLoadBalancer |

