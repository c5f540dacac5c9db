// The relational schema of octavia/db/models.py: which tables exist, their
// keys, NOT NULL columns and foreign keys, and the integrity invariant the
// database keeps for them.

module Models {
  import opened Values

  /** A row: column name to value; an absent column is NULL. */
  type Row = Dict

  /** The entity tables the repositories read and write. */
  datatype Table =
    | LoadBalancerT
    | VipT
    | ListenerT
    | ListenerStatisticsT
    | PoolT
    | SessionPersistenceT
    | HealthMonitorT
    | MemberT
    | SniT
    | AmphoraT
    | LoadBalancerAmphoraT   // the association table load_balancer_amphora

  /** The lookup tables (LookupTableMixin: `name` is the primary key). */
  datatype Lookup =
    | ProvisioningStatusL
    | OperatingStatusL
    | ProtocolL
    | AlgorithmL
    | SessionPersistenceTypeL
    | HealthMonitorTypeL

  datatype Target = InLookup(lookup: Lookup) | InTable(table: Table, column: string)

  datatype ForeignKey = ForeignKey(column: string, target: Target)

  /**
   * `uniques` lists the primary key first and then every other unique
   * constraint; `idDefault` says whether IdMixin generates `id` when absent.
   */
  datatype Schema = Schema(uniques: seq<seq<string>>, notNull: set<string>, fks: seq<ForeignKey>, idDefault: bool)

  /** Every table's rows, in query order. */
  type Tables = map<Table, seq<Row>>

  /** The names held by each lookup table. */
  type Lookups = map<Lookup, set<Value>>

  ghost predicate HasAllLookups(lookups: Lookups)
  {
    forall l :: l in lookups
  }

  function SchemaOf(t: Table): (s: Schema)
    ensures |s.uniques| > 0 || t == LoadBalancerAmphoraT
    ensures s.idDefault ==> |s.uniques| > 0 && s.uniques[0] == [ID]
    ensures forall k :: 0 <= k < |s.uniques| ==> PROVISIONING_STATUS !in s.uniques[k] && OPERATING_STATUS !in s.uniques[k]
    ensures forall k :: 0 <= k < |s.fks| && s.fks[k].column == PROVISIONING_STATUS ==> s.fks[k].target == InLookup(ProvisioningStatusL)
    ensures forall k :: 0 <= k < |s.fks| && s.fks[k].column == OPERATING_STATUS ==> s.fks[k].target == InLookup(OperatingStatusL)
  {
    match t
    case LoadBalancerT =>
      Schema([[ID]], {ID, PROVISIONING_STATUS, OPERATING_STATUS, "enabled"},
             [ForeignKey(PROVISIONING_STATUS, InLookup(ProvisioningStatusL)),
              ForeignKey(OPERATING_STATUS, InLookup(OperatingStatusL))], true)
    case VipT =>
      Schema([[LOAD_BALANCER_ID]], {LOAD_BALANCER_ID},
             [ForeignKey(LOAD_BALANCER_ID, InTable(LoadBalancerT, ID))], false)
    case ListenerT =>
      Schema([[ID], [LOAD_BALANCER_ID, "protocol_port"], [DEFAULT_POOL_ID]],
             {ID, "protocol", "protocol_port", PROVISIONING_STATUS, OPERATING_STATUS, "enabled"},
             [ForeignKey("protocol", InLookup(ProtocolL)),
              ForeignKey(LOAD_BALANCER_ID, InTable(LoadBalancerT, ID)),
              ForeignKey(DEFAULT_POOL_ID, InTable(PoolT, ID)),
              ForeignKey(PROVISIONING_STATUS, InLookup(ProvisioningStatusL)),
              ForeignKey(OPERATING_STATUS, InLookup(OperatingStatusL))], true)
    case ListenerStatisticsT =>
      Schema([[LISTENER_ID]], {LISTENER_ID, "bytes_in", "bytes_out", "active_connections", "total_connections"},
             [ForeignKey(LISTENER_ID, InTable(ListenerT, ID))], false)
    case PoolT =>
      Schema([[ID], ["health_monitor_id"]], {ID, "protocol", "lb_algorithm", OPERATING_STATUS, "enabled"},
             [ForeignKey("protocol", InLookup(ProtocolL)),
              ForeignKey("lb_algorithm", InLookup(AlgorithmL)),
              ForeignKey("health_monitor_id", InTable(HealthMonitorT, ID)),
              ForeignKey(OPERATING_STATUS, InLookup(OperatingStatusL))], true)
    case SessionPersistenceT =>
      Schema([[POOL_ID]], {POOL_ID, "type"},
             [ForeignKey(POOL_ID, InTable(PoolT, ID)),
              ForeignKey("type", InLookup(SessionPersistenceTypeL))], false)
    case HealthMonitorT =>
      Schema([[POOL_ID]], {POOL_ID, "type", "delay", "timeout", "fall_threshold", "rise_threshold", "enabled"},
             [ForeignKey(POOL_ID, InTable(PoolT, ID)),
              ForeignKey("type", InLookup(HealthMonitorTypeL))], false)
    case MemberT =>
      Schema([[ID], [POOL_ID, "address", "protocol_port"]],
             {ID, POOL_ID, "address", "protocol_port", OPERATING_STATUS, "enabled"},
             [ForeignKey(POOL_ID, InTable(PoolT, ID)),
              ForeignKey(OPERATING_STATUS, InLookup(OperatingStatusL))], true)
    case SniT =>
      Schema([[LISTENER_ID, TLS_CONTAINER_ID]], {LISTENER_ID, TLS_CONTAINER_ID},
             [ForeignKey(LISTENER_ID, InTable(ListenerT, ID))], false)
    case AmphoraT =>
      Schema([[ID]], {ID, "host_id"},
             [ForeignKey("status", InLookup(ProvisioningStatusL))], false)
    case LoadBalancerAmphoraT =>
      Schema([], {},
             [ForeignKey(AMPHORA_ID, InTable(AmphoraT, ID)),
              ForeignKey(LOAD_BALANCER_ID, InTable(LoadBalancerT, ID))], false)
  }

  /**
   * The columns each model class declares (IdMixin adds `id`, TenantMixin
   * `tenant_id`). No Vip class exists in models.py; its columns here are
   * `load_balancer_id` and the attributes of the VIP request type. Every
   * column a constraint of SchemaOf names is one of them.
   */
  function Columns(t: Table): (cols: set<string>)
    ensures forall c :: c in SchemaOf(t).notNull ==> c in cols
    ensures forall u, k :: 0 <= u < |SchemaOf(t).uniques| && 0 <= k < |SchemaOf(t).uniques[u]| ==> SchemaOf(t).uniques[u][k] in cols
    ensures forall k :: 0 <= k < |SchemaOf(t).fks| ==> SchemaOf(t).fks[k].column in cols
    ensures SchemaOf(t).idDefault ==> ID in cols && TENANT_ID in cols
  {
    match t
    case LoadBalancerT =>
      {ID, TENANT_ID, "name", "description", "vip_port_id", "vip_subnet_id", "vip_floating_ip_id",
       "vip_floating_ip_network_id", "vip_address", PROVISIONING_STATUS, OPERATING_STATUS, "enabled"}
    case VipT =>
      {LOAD_BALANCER_ID, "ip_address", "net_port_id", "subnet_id", "floating_ip_id", "floating_ip_network_id"}
    case ListenerT =>
      {ID, TENANT_ID, "name", "description", "protocol", "protocol_port", "connection_limit", LOAD_BALANCER_ID,
       "default_tls_container_id", DEFAULT_POOL_ID, PROVISIONING_STATUS, OPERATING_STATUS, "enabled"}
    case ListenerStatisticsT =>
      {LISTENER_ID, "bytes_in", "bytes_out", "active_connections", "total_connections"}
    case PoolT =>
      {ID, TENANT_ID, "name", "description", "protocol", "lb_algorithm", "health_monitor_id", OPERATING_STATUS, "enabled"}
    case SessionPersistenceT =>
      {POOL_ID, "type", "cookie_name"}
    case HealthMonitorT =>
      {POOL_ID, "type", "delay", "timeout", "fall_threshold", "rise_threshold", "http_method", "url_path",
       "expected_codes", "enabled"}
    case MemberT =>
      {ID, TENANT_ID, POOL_ID, "subnet_id", "address", "protocol_port", "weight", OPERATING_STATUS, "enabled"}
    case SniT =>
      {LISTENER_ID, TLS_CONTAINER_ID, "position"}
    case AmphoraT =>
      {ID, "host_id", "status"}
    case LoadBalancerAmphoraT =>
      {AMPHORA_ID, LOAD_BALANCER_ID}
  }

  // ---------------------------------------------------------------- keys

  /** `a` and `b` agree on every column of `key`, none of them NULL in `a`. */
  predicate SameKey(a: Row, b: Row, key: seq<string>)
  {
    forall k :: 0 <= k < |key| ==> DictGet(a, key[k]) != VNone && DictGet(a, key[k]) == DictGet(b, key[k])
  }

  /** Two rows that a unique constraint of `t` forbids side by side (SQL: NULLs never collide). */
  predicate Collide(t: Table, a: Row, b: Row)
  {
    exists u :: 0 <= u < |SchemaOf(t).uniques| && SameKey(a, b, SchemaOf(t).uniques[u])
  }

  lemma {:induction false} CollideSymmetric(t: Table, a: Row, b: Row)
    ensures Collide(t, a, b) <==> Collide(t, b, a)
  {
    if Collide(t, a, b) {
      var u :| 0 <= u < |SchemaOf(t).uniques| && SameKey(a, b, SchemaOf(t).uniques[u]);
      assert SameKey(b, a, SchemaOf(t).uniques[u]);
    }
    if Collide(t, b, a) {
      var u :| 0 <= u < |SchemaOf(t).uniques| && SameKey(b, a, SchemaOf(t).uniques[u]);
      assert SameKey(a, b, SchemaOf(t).uniques[u]);
    }
  }

  predicate NotNullOk(t: Table, row: Row)
  {
    forall c :: c in SchemaOf(t).notNull ==> DictGet(row, c) != VNone
  }

  /** No two rows of `rows` collide on a unique constraint of `t`. */
  predicate Distinct(t: Table, rows: seq<Row>)
  {
    forall i, j :: 0 <= i < |rows| && 0 <= j < |rows| && i != j ==> !Collide(t, rows[i], rows[j])
  }

  ghost predicate TableValid(t: Table, rows: seq<Row>)
  {
    (forall i :: 0 <= i < |rows| ==> NotNullOk(t, rows[i])) && Distinct(t, rows)
  }

  /** The integrity the database keeps: NOT NULL and every unique constraint, table by table. */
  ghost predicate Valid(tables: Tables)
  {
    forall t :: t in tables && TableValid(t, tables[t])
  }

  /** Every table is present. */
  ghost predicate Complete(tables: Tables)
  {
    forall t: Table :: t in tables
  }

  // ---------------------------------------------------------- foreign keys

  /** `v` is present in the target of a foreign key. */
  predicate Refers(tables: Tables, lookups: Lookups, target: Target, v: Value)
  {
    match target
    case InLookup(l) => l in lookups && v in lookups[l]
    case InTable(t, c) => t in tables && exists i :: 0 <= i < |tables[t]| && DictGet(tables[t][i], c) == v
  }

  /** Every foreign-key column of `t` among `written` is NULL or refers to an existing row. */
  predicate FkOk(tables: Tables, lookups: Lookups, t: Table, row: Row, written: set<string>)
  {
    forall k :: 0 <= k < |SchemaOf(t).fks| && SchemaOf(t).fks[k].column in written ==>
      DictGet(row, SchemaOf(t).fks[k].column) == VNone ||
      Refers(tables, lookups, SchemaOf(t).fks[k].target, DictGet(row, SchemaOf(t).fks[k].column))
  }

  // ------------------------------------------------------- validators

  /**
   * ListenerStatistics.validate_non_negative_int on an integer: a negative
   * counter is refused with ValueError, any other is stored unchanged.
   */
  function ValidateNonNegativeInt(key: string, value: int): (r: Result<int>)
    ensures r.Ok? <==> value >= 0
    ensures r.Ok? ==> r.value == value
    ensures r.Err? ==> r.error == ValueError
  {
    if value < 0 then Err(ValueError) else Ok(value)
  }

  /**
   * validate_non_negative_int on any value. Its test is `value < 0` under
   * Python 2 ordering: None sorts below every number, so it is refused like
   * a negative integer; a bool compares as 0 or 1; a string, list or dict
   * sorts above every number and passes.
   */
  function ValidateNonNegative(key: string, value: Value): (r: Result<Value>)
    ensures r.Err? <==> value.VNone? || (value.VInt? && value.i < 0)
    ensures r.Err? ==> r.error == ValueError
    ensures r.Ok? ==> r.value == value
  {
    match value
    case VNone => Err(ValueError)
    case VInt(i) =>
      (match ValidateNonNegativeInt(key, i)
       case Ok(_) => Ok(value)
       case Err(e) => Err(e))
    case _ => Ok(value)
  }

  const StatisticsCounters: seq<string> := ["bytes_in", "bytes_out", "active_connections", "total_connections"]

  /**
   * The validators a model constructor runs on `kwargs`: only
   * ListenerStatistics has them, on its four integer counters; a counter
   * given as None or as a negative integer is refused.
   */
  function Validate(t: Table, kwargs: Row): (r: Option<Error>)
    ensures r.Some? ==> r.value == ValueError
    ensures r.Some? <==> (t == ListenerStatisticsT &&
      exists k :: 0 <= k < |StatisticsCounters| && StatisticsCounters[k] in kwargs &&
        (kwargs[StatisticsCounters[k]].VNone? ||
         (kwargs[StatisticsCounters[k]].VInt? && kwargs[StatisticsCounters[k]].i < 0)))
  {
    if t != ListenerStatisticsT then None
    else ValidateCounters(kwargs, StatisticsCounters)
  }

  function ValidateCounters(kwargs: Row, keys: seq<string>): (r: Option<Error>)
    ensures r.Some? ==> r.value == ValueError
    ensures r.Some? <==>
      (exists k :: 0 <= k < |keys| && keys[k] in kwargs &&
         (kwargs[keys[k]].VNone? || (kwargs[keys[k]].VInt? && kwargs[keys[k]].i < 0)))
  {
    if keys == [] then None
    else
      var tail := ValidateCounters(kwargs, keys[1..]);
      assert forall k :: 1 <= k < |keys| ==> keys[k] == keys[1..][k - 1];
      if keys[0] in kwargs && ValidateNonNegative(keys[0], kwargs[keys[0]]).Err? then
        Some(ValueError)
      else tail
  }

  // -------------------------------------------------- the invariant's meaning

  /** Two rows of a valid table never share a non-NULL value of a single-column unique key. */
  lemma {:induction false} SingleColumnKey(tables: Tables, t: Table, u: nat, i: nat, j: nat)
    requires Valid(tables)
    requires u < |SchemaOf(t).uniques| && |SchemaOf(t).uniques[u]| == 1
    requires i < |tables[t]| && j < |tables[t]| && i != j
    ensures var c := SchemaOf(t).uniques[u][0];
      DictGet(tables[t][i], c) == VNone || DictGet(tables[t][i], c) != DictGet(tables[t][j], c)
  {
    assert TableValid(t, tables[t]);
    assert !Collide(t, tables[t][i], tables[t][j]);
    assert !SameKey(tables[t][i], tables[t][j], SchemaOf(t).uniques[u]);
  }

  /** The primary key `id` of a valid table names at most one row. */
  lemma {:induction false} IdIsUnique(tables: Tables, t: Table, i: nat, j: nat)
    requires Valid(tables) && SchemaOf(t).idDefault
    requires i < |tables[t]| && j < |tables[t]| && i != j
    ensures DictGet(tables[t][i], ID) != DictGet(tables[t][j], ID)
  {
    SingleColumnKey(tables, t, 0, i, j);
    assert TableValid(t, tables[t]) && NotNullOk(t, tables[t][i]);
  }

  /** models.py:124-127: at most one member per (pool_id, address, protocol_port). */
  lemma {:induction false} MemberAddressUnique(tables: Tables, i: nat, j: nat)
    requires Valid(tables)
    requires i < |tables[MemberT]| && j < |tables[MemberT]| && i != j
    ensures var a, b := tables[MemberT][i], tables[MemberT][j];
      DictGet(a, POOL_ID) != DictGet(b, POOL_ID) || DictGet(a, "address") != DictGet(b, "address") ||
      DictGet(a, "protocol_port") != DictGet(b, "protocol_port")
  {
    var a, b := tables[MemberT][i], tables[MemberT][j];
    assert TableValid(MemberT, tables[MemberT]);
    assert NotNullOk(MemberT, a);
    assert !Collide(MemberT, a, b);
    assert !SameKey(a, b, SchemaOf(MemberT).uniques[1]);
  }

  /** models.py:244-246: on one load balancer, at most one listener per protocol port. */
  lemma {:induction false} ListenerPortUnique(tables: Tables, i: nat, j: nat)
    requires Valid(tables)
    requires i < |tables[ListenerT]| && j < |tables[ListenerT]| && i != j
    requires DictGet(tables[ListenerT][i], LOAD_BALANCER_ID) != VNone
    ensures var a, b := tables[ListenerT][i], tables[ListenerT][j];
      DictGet(a, LOAD_BALANCER_ID) != DictGet(b, LOAD_BALANCER_ID) || DictGet(a, "protocol_port") != DictGet(b, "protocol_port")
  {
    var a, b := tables[ListenerT][i], tables[ListenerT][j];
    assert TableValid(ListenerT, tables[ListenerT]);
    assert NotNullOk(ListenerT, a);
    assert !Collide(ListenerT, a, b);
    assert !SameKey(a, b, SchemaOf(ListenerT).uniques[1]);
  }

  /** models.py:247-248: a pool is the default pool of at most one listener. */
  lemma {:induction false} DefaultPoolOfOneListener(tables: Tables, i: nat, j: nat)
    requires Valid(tables)
    requires i < |tables[ListenerT]| && j < |tables[ListenerT]| && i != j
    requires DictGet(tables[ListenerT][i], DEFAULT_POOL_ID) != VNone
    ensures DictGet(tables[ListenerT][i], DEFAULT_POOL_ID) != DictGet(tables[ListenerT][j], DEFAULT_POOL_ID)
  {
    SingleColumnKey(tables, ListenerT, 2, i, j);
  }

  /** models.py:152-156: a pool has at most one health monitor. */
  lemma {:induction false} OneHealthMonitorPerPool(tables: Tables, i: nat, j: nat)
    requires Valid(tables)
    requires i < |tables[HealthMonitorT]| && j < |tables[HealthMonitorT]| && i != j
    ensures DictGet(tables[HealthMonitorT][i], POOL_ID) != DictGet(tables[HealthMonitorT][j], POOL_ID)
  {
    SingleColumnKey(tables, HealthMonitorT, 0, i, j);
    assert TableValid(HealthMonitorT, tables[HealthMonitorT]) && NotNullOk(HealthMonitorT, tables[HealthMonitorT][i]);
  }

  /** models.py:69-73: a pool has at most one session persistence. */
  lemma {:induction false} OneSessionPersistencePerPool(tables: Tables, i: nat, j: nat)
    requires Valid(tables)
    requires i < |tables[SessionPersistenceT]| && j < |tables[SessionPersistenceT]| && i != j
    ensures DictGet(tables[SessionPersistenceT][i], POOL_ID) != DictGet(tables[SessionPersistenceT][j], POOL_ID)
  {
    SingleColumnKey(tables, SessionPersistenceT, 0, i, j);
    assert TableValid(SessionPersistenceT, tables[SessionPersistenceT]) &&
      NotNullOk(SessionPersistenceT, tables[SessionPersistenceT][i]);
  }

  /** models.py:290-292: a listener names a TLS container for SNI at most once. */
  lemma {:induction false} SniPairUnique(tables: Tables, i: nat, j: nat)
    requires Valid(tables)
    requires i < |tables[SniT]| && j < |tables[SniT]| && i != j
    ensures var a, b := tables[SniT][i], tables[SniT][j];
      DictGet(a, LISTENER_ID) != DictGet(b, LISTENER_ID) || DictGet(a, TLS_CONTAINER_ID) != DictGet(b, TLS_CONTAINER_ID)
  {
    var a, b := tables[SniT][i], tables[SniT][j];
    assert TableValid(SniT, tables[SniT]);
    assert NotNullOk(SniT, a);
    assert !Collide(SniT, a, b);
    assert !SameKey(a, b, SchemaOf(SniT).uniques[0]);
  }

  /** models.py:92-97: a listener has at most one statistics row. */
  lemma {:induction false} OneStatisticsPerListener(tables: Tables, i: nat, j: nat)
    requires Valid(tables)
    requires i < |tables[ListenerStatisticsT]| && j < |tables[ListenerStatisticsT]| && i != j
    ensures DictGet(tables[ListenerStatisticsT][i], LISTENER_ID) != DictGet(tables[ListenerStatisticsT][j], LISTENER_ID)
  {
    SingleColumnKey(tables, ListenerStatisticsT, 0, i, j);
    assert TableValid(ListenerStatisticsT, tables[ListenerStatisticsT]) &&
      NotNullOk(ListenerStatisticsT, tables[ListenerStatisticsT][i]);
  }

  /** models.py:177-180: a health monitor id is referenced by at most one pool. */
  lemma {:induction false} HealthMonitorOfOnePool(tables: Tables, i: nat, j: nat)
    requires Valid(tables)
    requires i < |tables[PoolT]| && j < |tables[PoolT]| && i != j
    requires DictGet(tables[PoolT][i], "health_monitor_id") != VNone
    ensures DictGet(tables[PoolT][i], "health_monitor_id") != DictGet(tables[PoolT][j], "health_monitor_id")
  {
    SingleColumnKey(tables, PoolT, 1, i, j);
  }
}
