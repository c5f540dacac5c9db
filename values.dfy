// Values shared by every layer: Python values as the control plane passes them
// around (dicts of columns, lists, None), their truthiness, the exceptions the
// code raises or maps, and the status constants it writes.

module Values {

  /** A Python value as it appears in request dicts, rows and task stores. */
  datatype Value =
    | VNone
    | VBool(b: bool)
    | VInt(i: int)
    | VStr(s: string)
    | VList(items: seq<Value>)
    | VDict(entries: map<string, Value>)

  /** A dict keyed by attribute or column name (`**kwargs`, a row, a data-model dict). */
  type Dict = map<string, Value>

  /** `d.update({k: v})` is the same as setting that one key. */
  lemma {:induction false} UpdateOneKey(d: Dict, k: string, v: Value)
    ensures d + map[k := v] == d[k := v]
  {
  }

  /** Python truthiness: None, False, 0, "", [] and {} are false. */
  predicate Truthy(v: Value)
  {
    match v
    case VNone => false
    case VBool(b) => b
    case VInt(i) => i != 0
    case VStr(s) => s != ""
    case VList(items) => items != []
    case VDict(entries) => entries != map[]
  }

  /** `d.get(k)`: the value under `k`, or None when `k` is absent. */
  function DictGet(d: Dict, k: string): (v: Value)
    ensures k !in d ==> v == VNone
    ensures k in d ==> v == d[k]
  {
    if k in d then d[k] else VNone
  }

  /** An attribute name starting with '_', which the to_dict helpers never emit. */
  predicate Private(name: string)
  {
    |name| > 0 && name[0] == '_'
  }

  /** The exceptions the modelled code raises, maps or lets escape. */
  datatype Error =
    // oslo.db / SQLAlchemy
    | DBDuplicateEntry        // unique constraint violated (a subclass of DBError)
    | DBError                 // any other integrity failure: NOT NULL, foreign key
    | NoResultFound           // `.one()` found no row
    | MultipleResultsFound    // `.one()` found several rows
    | UnmappedInstance        // `session.delete(None)`
    // octavia.common.exceptions raised by the repositories
    | ImmutableStatus
    | MissingArguments
    // Python runtime errors the code lets escape
    | AttributeError          // an attribute read on None or on an object that lacks it
    | KeyError
    | TypeError
    | ValueError
    // API exceptions returned to the client
    | NotFound
    | ImmutableObject
    | DuplicateListenerEntry
    | DuplicatePoolEntry
    | DuplicateMemberEntry
    | DuplicateHealthMonitor
    | InvalidOption
    | InvalidHandlerInputObject
    // a task flow raised
    | FlowFailed

  /** `except DBError` catches DBDuplicateEntry too: it is a subclass. */
  predicate IsDBError(e: Error)
  {
    e == DBError || e == DBDuplicateEntry
  }

  datatype Result<T> = Ok(value: T) | Err(error: Error)

  datatype Option<T> = None | Some(value: T)

  // Status names written by the code (octavia.common.constants).
  const PENDING_CREATE: Value := VStr("PENDING_CREATE")
  const PENDING_UPDATE: Value := VStr("PENDING_UPDATE")
  const PENDING_DELETE: Value := VStr("PENDING_DELETE")
  const ACTIVE: Value := VStr("ACTIVE")
  const ERROR: Value := VStr("ERROR")
  const OFFLINE: Value := VStr("OFFLINE")
  const ONLINE: Value := VStr("ONLINE")

  // Column names that the controllers and helpers write.
  const ID := "id"
  const SESSION := "session"
  const PROVISIONING_STATUS := "provisioning_status"
  const OPERATING_STATUS := "operating_status"
  const LOAD_BALANCER_ID := "load_balancer_id"
  const LISTENER_ID := "listener_id"
  const POOL_ID := "pool_id"
  const DEFAULT_POOL_ID := "default_pool_id"
  const TENANT_ID := "tenant_id"
  const TLS_CONTAINER_ID := "tls_container_id"
  const AMPHORA_ID := "amphora_id"
}
