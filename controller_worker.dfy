// octavia/controller/worker/controller_worker.py: ControllerWorker. Each
// operation reads its entities through the repositories, builds the store a
// flow starts from, and runs the flow. Flows are opaque here: a run is an
// event in the worker's trace, made of the flow chosen and its store. An
// attribute read through a missing entity raises AttributeError before any
// flow of that operation runs.

module Worker {
  import opened Values
  import opened Models
  import opened Repositories
  import opened ControllerBase

  const TOPOLOGY_SINGLE := "SINGLE"
  const TOPOLOGY_ACTIVE_STANDBY := "ACTIVE_STANDBY"
  /** The key of the topology inside the update dict create_load_balancer stores. */
  const LOADBALANCER_TOPOLOGY := "topology"
  const POST_ASSOCIATION_PREFIX := "post-amphora-association"

  /** The names a flow's store uses. */
  datatype StoreKey =
    | LoadBalancerIdKey | UpdateDictKey | LoadBalancerKey | ListenerKey | VipKey
    | MemberKey | MemberIdKey | PoolKey | PoolIdKey | HealthMonKey | AmphoraKey | AmphoraIdKey

  /** A store entry: an entity as `get` returned it (None when it found nothing), a scalar, or an update dict. */
  datatype Stored = Entity(row: Option<Row>) | Scalar(v: Value) | Updates(d: Dict)

  type Store = map<StoreKey, Stored>

  /** The flows the worker loads, with the arguments their builders take. */
  datatype Flow =
    | CreateAmphoraFlow | DeleteAmphoraFlow | FailoverFlow | CertRotateFlow
    | CreateHealthMonitorFlow | DeleteHealthMonitorFlow | UpdateHealthMonitorFlow
    | CreateListenerFlow(fullTree: bool) | DeleteListenerFlow | UpdateListenerFlow
    | CreateLoadBalancerFlow(topology: string)
    | PostLbAmpAssociationFlow(prefix: string, topology: string, fullTree: bool)
    | FullTreeFinalizeFlow | DeleteLoadBalancerFlow | UpdateLoadBalancerFlow
    | CreateMemberFlow(fullTree: bool) | DeleteMemberFlow | UpdateMemberFlow
    | CreatePoolFlow | DeletePoolFlow | UpdatePoolFlow

  /** One `run()` of a loaded flow. */
  datatype FlowRun = FlowRun(flow: Flow, store: Store)

  /** The flow runs an operation makes, and the exception that stopped it, if any. */
  datatype Runs = Runs(runs: seq<FlowRun>, failure: Option<Error>)

  const NoRuns := Runs([], None)

  /** One `run()`: it raises FlowFailed when this run is one of the runs that fail. */
  function Ran(failing: set<FlowRun>, run: FlowRun): Runs
  {
    Runs([run], if run in failing then Some(FlowFailed) else None)
  }

  function Failed(e: Error): Runs
  {
    Runs([], Some(e))
  }

  /** `r` is one run of `flow`, which raised FlowFailed exactly when it is one of the failing runs. */
  predicate OneRun(failing: set<FlowRun>, r: Runs, flow: Flow)
  {
    |r.runs| == 1 && r.runs[0].flow == flow && r.failure == (if r.runs[0] in failing then Some(FlowFailed) else None)
  }

  /** The one run of `r` started with `item` stored under `key`. */
  predicate Stores(r: Runs, key: StoreKey, item: Stored)
  {
    |r.runs| == 1 && key in r.runs[0].store && r.runs[0].store[key] == item
  }

  /** `a` then `b`: an exception in `a` skips `b`. */
  function Then(a: Runs, b: Runs): Runs
  {
    if a.failure.Some? then a else Runs(a.runs + b.runs, b.failure)
  }

  /** What a method left: its trace grew by exactly the runs, and it raised exactly the failure. */
  predicate Recorded(r: Result<()>, before: seq<FlowRun>, after: seq<FlowRun>, expected: Runs)
  {
    after == before + expected.runs &&
    match expected.failure
    case None => r == Ok(())
    case Some(e) => r == Err(e)
  }

  /** An operation that returned normally, followed by a second one, recorded as their sequence. */
  lemma {:induction false} RecordedThen(ra: Result<()>, rb: Result<()>, t0: seq<FlowRun>, t1: seq<FlowRun>, t2: seq<FlowRun>, a: Runs, b: Runs)
    requires Recorded(ra, t0, t1, a) && ra.Ok? && Recorded(rb, t1, t2, b)
    ensures Recorded(rb, t0, t2, Then(a, b))
  {
  }

  /** An operation that raised ends the sequence it starts. */
  lemma {:induction false} RecordedStop(ra: Result<()>, t0: seq<FlowRun>, t1: seq<FlowRun>, a: Runs, b: Runs)
    requires Recorded(ra, t0, t1, a) && ra.Err?
    ensures Recorded(ra, t0, t1, Then(a, b))
  {
  }

  // ---------------------------------------------------- walking the graph

  /** The entities a child operation stores beside its own: the listener, its load balancer and that one's VIP. */
  datatype Chain = Chain(listener: Row, loadBalancer: Row, vip: Option<Row>)

  /** `listener.load_balancer` and `.vip`: a missing listener or load balancer raises AttributeError. */
  function ListenerChain(tables: Tables, listener: Option<Row>): Result<Chain>
    requires Complete(tables)
  {
    match listener
    case None => Err(AttributeError)
    case Some(l) =>
      match Related(tables, LoadBalancerT, ID, DictGet(l, LOAD_BALANCER_ID))
      case None => Err(AttributeError)
      case Some(lb) => Ok(Chain(l, lb, Related(tables, VipT, LOAD_BALANCER_ID, DictGet(lb, ID))))
  }

  /**
   * `pool.listener` (the listener whose default pool it is), with
   * `listener.default_pool = pool` when `assign`, then as ListenerChain.
   */
  function PoolChain(tables: Tables, pool: Option<Row>, assign: bool): Result<Chain>
    requires Complete(tables)
  {
    match pool
    case None => Err(AttributeError)
    case Some(p) =>
      match Related(tables, ListenerT, DEFAULT_POOL_ID, DictGet(p, ID))
      case None => Err(AttributeError)
      case Some(l) => ListenerChain(tables, Some(if assign then l[DEFAULT_POOL_ID := DictGet(p, ID)] else l))
  }

  /** `member.pool` or `health_mon.pool`: None when the child is None or its pool is missing. */
  function PoolOf(tables: Tables, child: Option<Row>): Option<Row>
    requires Complete(tables)
  {
    match child
    case None => None
    case Some(c) => Related(tables, PoolT, ID, DictGet(c, POOL_ID))
  }

  /** A one-to-many relationship: the rows whose `column` is `v`, in query order; none for a NULL key. */
  function RelatedAll(tables: Tables, t: Table, column: string, v: Value): seq<Row>
    requires t in tables
  {
    if v == VNone then [] else AllMatches(tables[t], By(column, v))
  }

  function DefaultPoolOf(tables: Tables, listener: Row): Option<Row>
    requires Complete(tables)
  {
    Related(tables, PoolT, ID, DictGet(listener, DEFAULT_POOL_ID))
  }

  function MembersOf(tables: Tables, pool: Row): seq<Row>
    requires Complete(tables)
  {
    RelatedAll(tables, MemberT, POOL_ID, DictGet(pool, ID))
  }

  function ListenersOf(tables: Tables, lb: Row): seq<Row>
    requires Complete(tables)
  {
    RelatedAll(tables, ListenerT, LOAD_BALANCER_ID, DictGet(lb, ID))
  }

  // ------------------------------------------------ what each operation runs

  /**
   * A member, pool or health monitor operation: `entity` is what `get`
   * returned and `pool` the pool reached from it; the flow runs on the
   * entity, the chain above the pool and `extra`.
   */
  function ChildRuns(tables: Tables, failing: set<FlowRun>, flow: Flow, key: StoreKey, entity: Option<Row>, pool: Option<Row>, assign: bool, extra: Store): (r: Runs)
    requires Complete(tables)
    ensures r == Failed(AttributeError) || OneRun(failing, r, flow)
    ensures r.runs != [] <==> entity.Some? && PoolChain(tables, pool, assign).Ok?
    ensures r.runs != [] && key !in extra && key != ListenerKey && key != LoadBalancerKey && key != VipKey ==>
      Stores(r, key, Entity(entity))
  {
    if entity.None? then Failed(AttributeError)
    else
      match PoolChain(tables, pool, assign)
      case Err(e) => Failed(e)
      case Ok(c) =>
        Ran(failing, FlowRun(flow, map[key := Entity(entity), ListenerKey := Entity(Some(c.listener)),
                                 LoadBalancerKey := Entity(Some(c.loadBalancer)), VipKey := Entity(c.vip)] + extra))
  }

  /** What `extra` holds under `k` reaches the child run's store unchanged. */
  lemma {:induction false} ChildRunsKeepExtra(tables: Tables, failing: set<FlowRun>, flow: Flow, key: StoreKey, entity: Option<Row>, pool: Option<Row>, assign: bool, extra: Store, k: StoreKey)
    requires Complete(tables)
    ensures var r := ChildRuns(tables, failing, flow, key, entity, pool, assign, extra);
      r.runs != [] && k in extra ==> Stores(r, k, extra[k])
  {
  }

  function MonitorOf(tables: Tables, poolId: Value): Option<Row>
    requires Complete(tables)
  {
    FirstMatch(tables[HealthMonitorT], By(POOL_ID, poolId))
  }

  function CreateHealthMonitorRuns(tables: Tables, failing: set<FlowRun>, poolId: Value): (r: Runs)
    requires Complete(tables)
    ensures MonitorOf(tables, poolId).None? ==> r == Failed(AttributeError)
    ensures r == Failed(AttributeError) || (OneRun(failing, r, CreateHealthMonitorFlow) && Stores(r, HealthMonKey, Entity(MonitorOf(tables, poolId))))
  {
    var hm := MonitorOf(tables, poolId);
    ChildRuns(tables, failing, CreateHealthMonitorFlow, HealthMonKey, hm, PoolOf(tables, hm), true, map[])
  }

  function DeleteHealthMonitorRuns(tables: Tables, failing: set<FlowRun>, poolId: Value): (r: Runs)
    requires Complete(tables)
    ensures MonitorOf(tables, poolId).None? ==> r == Failed(AttributeError)
    ensures r == Failed(AttributeError) || (OneRun(failing, r, DeleteHealthMonitorFlow) && Stores(r, HealthMonKey, Entity(MonitorOf(tables, poolId))) && Stores(r, PoolIdKey, Scalar(poolId)))
  {
    var hm := MonitorOf(tables, poolId);
    ChildRunsKeepExtra(tables, failing, DeleteHealthMonitorFlow, HealthMonKey, hm, PoolOf(tables, hm), true, map[PoolIdKey := Scalar(poolId)], PoolIdKey);
    ChildRuns(tables, failing, DeleteHealthMonitorFlow, HealthMonKey, hm, PoolOf(tables, hm), true, map[PoolIdKey := Scalar(poolId)])
  }

  function UpdateHealthMonitorRuns(tables: Tables, failing: set<FlowRun>, poolId: Value, updates: Dict): (r: Runs)
    requires Complete(tables)
    ensures MonitorOf(tables, poolId).None? ==> r == Failed(AttributeError)
    ensures r == Failed(AttributeError) || (OneRun(failing, r, UpdateHealthMonitorFlow) && Stores(r, HealthMonKey, Entity(MonitorOf(tables, poolId))) && Stores(r, UpdateDictKey, Updates(updates)))
  {
    var hm := MonitorOf(tables, poolId);
    ChildRunsKeepExtra(tables, failing, UpdateHealthMonitorFlow, HealthMonKey, hm, PoolOf(tables, hm), true, map[UpdateDictKey := Updates(updates)], UpdateDictKey);
    ChildRuns(tables, failing, UpdateHealthMonitorFlow, HealthMonKey, hm, PoolOf(tables, hm), true, map[UpdateDictKey := Updates(updates)])
  }

  function CreateMemberRuns(tables: Tables, failing: set<FlowRun>, memberId: Value, fullTree: bool): (r: Runs)
    requires Complete(tables)
    ensures RowById(tables, MemberT, memberId).None? ==> r == Failed(AttributeError)
    ensures r == Failed(AttributeError) || (OneRun(failing, r, CreateMemberFlow(fullTree)) && Stores(r, MemberKey, Entity(RowById(tables, MemberT, memberId))))
  {
    var m := RowById(tables, MemberT, memberId);
    ChildRuns(tables, failing, CreateMemberFlow(fullTree), MemberKey, m, PoolOf(tables, m), true, map[])
  }

  function DeleteMemberRuns(tables: Tables, failing: set<FlowRun>, memberId: Value): (r: Runs)
    requires Complete(tables)
    ensures RowById(tables, MemberT, memberId).None? ==> r == Failed(AttributeError)
    ensures r == Failed(AttributeError) || (OneRun(failing, r, DeleteMemberFlow) && Stores(r, MemberKey, Entity(RowById(tables, MemberT, memberId))) && Stores(r, MemberIdKey, Scalar(memberId)))
  {
    var m := RowById(tables, MemberT, memberId);
    ChildRunsKeepExtra(tables, failing, DeleteMemberFlow, MemberKey, m, PoolOf(tables, m), true, map[MemberIdKey := Scalar(memberId)], MemberIdKey);
    ChildRuns(tables, failing, DeleteMemberFlow, MemberKey, m, PoolOf(tables, m), true, map[MemberIdKey := Scalar(memberId)])
  }

  function UpdateMemberRuns(tables: Tables, failing: set<FlowRun>, memberId: Value, updates: Dict): (r: Runs)
    requires Complete(tables)
    ensures RowById(tables, MemberT, memberId).None? ==> r == Failed(AttributeError)
    ensures r == Failed(AttributeError) || (OneRun(failing, r, UpdateMemberFlow) && Stores(r, MemberKey, Entity(RowById(tables, MemberT, memberId))) && Stores(r, UpdateDictKey, Updates(updates)))
  {
    var m := RowById(tables, MemberT, memberId);
    ChildRunsKeepExtra(tables, failing, UpdateMemberFlow, MemberKey, m, PoolOf(tables, m), true, map[UpdateDictKey := Updates(updates)], UpdateDictKey);
    ChildRuns(tables, failing, UpdateMemberFlow, MemberKey, m, PoolOf(tables, m), true, map[UpdateDictKey := Updates(updates)])
  }

  function CreatePoolRuns(tables: Tables, failing: set<FlowRun>, poolId: Value): (r: Runs)
    requires Complete(tables)
    ensures RowById(tables, PoolT, poolId).None? ==> r == Failed(AttributeError)
    ensures r == Failed(AttributeError) || (OneRun(failing, r, CreatePoolFlow) && Stores(r, PoolKey, Entity(RowById(tables, PoolT, poolId))))
  {
    var p := RowById(tables, PoolT, poolId);
    ChildRuns(tables, failing, CreatePoolFlow, PoolKey, p, p, true, map[])
  }

  /** delete_pool alone does not reassign `listener.default_pool`. */
  function DeletePoolRuns(tables: Tables, failing: set<FlowRun>, poolId: Value): (r: Runs)
    requires Complete(tables)
    ensures RowById(tables, PoolT, poolId).None? ==> r == Failed(AttributeError)
    ensures r == Failed(AttributeError) || (OneRun(failing, r, DeletePoolFlow) && Stores(r, PoolKey, Entity(RowById(tables, PoolT, poolId))))
  {
    var p := RowById(tables, PoolT, poolId);
    ChildRuns(tables, failing, DeletePoolFlow, PoolKey, p, p, false, map[])
  }

  function UpdatePoolRuns(tables: Tables, failing: set<FlowRun>, poolId: Value, updates: Dict): (r: Runs)
    requires Complete(tables)
    ensures RowById(tables, PoolT, poolId).None? ==> r == Failed(AttributeError)
    ensures r == Failed(AttributeError) || (OneRun(failing, r, UpdatePoolFlow) && Stores(r, PoolKey, Entity(RowById(tables, PoolT, poolId))) && Stores(r, UpdateDictKey, Updates(updates)))
  {
    var p := RowById(tables, PoolT, poolId);
    ChildRunsKeepExtra(tables, failing, UpdatePoolFlow, PoolKey, p, p, true, map[UpdateDictKey := Updates(updates)], UpdateDictKey);
    ChildRuns(tables, failing, UpdatePoolFlow, PoolKey, p, p, true, map[UpdateDictKey := Updates(updates)])
  }

  /** A listener operation: the flow runs on the listener, its load balancer, that one's VIP and `extra`. */
  function ListenerOpRuns(tables: Tables, failing: set<FlowRun>, flow: Flow, listenerId: Value, extra: Store): (r: Runs)
    requires Complete(tables)
    ensures r == Failed(AttributeError) || OneRun(failing, r, flow)
    ensures RowById(tables, ListenerT, listenerId).None? ==> r == Failed(AttributeError)
    ensures r.runs != [] && ListenerKey !in extra ==> Stores(r, ListenerKey, Entity(RowById(tables, ListenerT, listenerId)))
  {
    match ListenerChain(tables, RowById(tables, ListenerT, listenerId))
    case Err(e) => Failed(e)
    case Ok(c) =>
      Ran(failing, FlowRun(flow, map[ListenerKey := Entity(Some(c.listener)), LoadBalancerKey := Entity(Some(c.loadBalancer)),
                               VipKey := Entity(c.vip)] + extra))
  }

  /** What `extra` holds under `k` reaches the listener run's store unchanged. */
  lemma {:induction false} ListenerOpKeepsExtra(tables: Tables, failing: set<FlowRun>, flow: Flow, listenerId: Value, extra: Store, k: StoreKey)
    requires Complete(tables)
    ensures var r := ListenerOpRuns(tables, failing, flow, listenerId, extra);
      r.runs != [] && k in extra ==> Stores(r, k, extra[k])
  {
  }

  function CreateListenerRuns(tables: Tables, failing: set<FlowRun>, listenerId: Value, fullTree: bool): (r: Runs)
    requires Complete(tables)
    ensures RowById(tables, ListenerT, listenerId).None? ==> r == Failed(AttributeError)
    ensures r == Failed(AttributeError) || (OneRun(failing, r, CreateListenerFlow(fullTree)) && Stores(r, ListenerKey, Entity(RowById(tables, ListenerT, listenerId))))
  {
    ListenerOpRuns(tables, failing, CreateListenerFlow(fullTree), listenerId, map[])
  }

  function DeleteListenerRuns(tables: Tables, failing: set<FlowRun>, listenerId: Value): (r: Runs)
    requires Complete(tables)
    ensures RowById(tables, ListenerT, listenerId).None? ==> r == Failed(AttributeError)
    ensures r == Failed(AttributeError) || (OneRun(failing, r, DeleteListenerFlow) && Stores(r, ListenerKey, Entity(RowById(tables, ListenerT, listenerId))))
  {
    ListenerOpRuns(tables, failing, DeleteListenerFlow, listenerId, map[])
  }

  function UpdateListenerRuns(tables: Tables, failing: set<FlowRun>, listenerId: Value, updates: Dict): (r: Runs)
    requires Complete(tables)
    ensures RowById(tables, ListenerT, listenerId).None? ==> r == Failed(AttributeError)
    ensures r == Failed(AttributeError) || (OneRun(failing, r, UpdateListenerFlow) && Stores(r, ListenerKey, Entity(RowById(tables, ListenerT, listenerId))) && Stores(r, UpdateDictKey, Updates(updates)))
  {
    ListenerOpKeepsExtra(tables, failing, UpdateListenerFlow, listenerId, map[UpdateDictKey := Updates(updates)], UpdateDictKey);
    ListenerOpRuns(tables, failing, UpdateListenerFlow, listenerId, map[UpdateDictKey := Updates(updates)])
  }

  function DeleteLoadBalancerRuns(tables: Tables, failing: set<FlowRun>, lbId: Value): (r: Runs)
    requires Complete(tables)
    ensures OneRun(failing, r, DeleteLoadBalancerFlow) && Stores(r, LoadBalancerKey, Entity(RowById(tables, LoadBalancerT, lbId)))
  {
    Ran(failing, FlowRun(DeleteLoadBalancerFlow, map[LoadBalancerKey := Entity(RowById(tables, LoadBalancerT, lbId))]))
  }

  function UpdateLoadBalancerRuns(tables: Tables, failing: set<FlowRun>, lbId: Value, updates: Dict): (r: Runs)
    requires Complete(tables)
    ensures OneRun(failing, r, UpdateLoadBalancerFlow) && Stores(r, LoadBalancerKey, Entity(RowById(tables, LoadBalancerT, lbId))) && Stores(r, UpdateDictKey, Updates(updates))
  {
    Ran(failing, FlowRun(UpdateLoadBalancerFlow, map[LoadBalancerKey := Entity(RowById(tables, LoadBalancerT, lbId)),
                                               UpdateDictKey := Updates(updates)]))
  }

  function DeleteAmphoraRuns(tables: Tables, failing: set<FlowRun>, amphoraId: Value): (r: Runs)
    requires Complete(tables)
    ensures OneRun(failing, r, DeleteAmphoraFlow) && Stores(r, AmphoraKey, Entity(RowById(tables, AmphoraT, amphoraId)))
  {
    Ran(failing, FlowRun(DeleteAmphoraFlow, map[AmphoraKey := Entity(RowById(tables, AmphoraT, amphoraId))]))
  }

  /**
   * failover_amphora as written: `get` returns a Container, which has no
   * `load_balancer_id` attribute, so reading it raises AttributeError
   * whether or not the amphora exists, and the failover flow never runs.
   */
  function FailoverRunsAsWritten(tables: Tables, amphoraId: Value): (r: Runs)
    requires Complete(tables)
    ensures r.runs == [] && r.failure == Some(AttributeError)
  {
    match RowById(tables, AmphoraT, amphoraId)
    case None => Failed(AttributeError)
    case Some(amp) => Failed(AttributeError)
  }

  /** The load balancer an amphora serves: the first load_balancer_amphora link of it, None when it has none. */
  function AmphoraLoadBalancerId(tables: Tables, amphoraId: Value): Value
    requires Complete(tables)
  {
    match Related(tables, LoadBalancerAmphoraT, AMPHORA_ID, amphoraId)
    case None => VNone
    case Some(link) => DictGet(link, LOAD_BALANCER_ID)
  }

  /** failover_amphora as intended: the flow runs on the amphora and the id of the load balancer it serves. */
  function FailoverRuns(tables: Tables, failing: set<FlowRun>, amphoraId: Value): (r: Runs)
    requires Complete(tables)
    ensures RowById(tables, AmphoraT, amphoraId).None? ==> r == Failed(AttributeError)
    ensures RowById(tables, AmphoraT, amphoraId).Some? ==>
      OneRun(failing, r, FailoverFlow) && Stores(r, AmphoraKey, Entity(RowById(tables, AmphoraT, amphoraId))) &&
      LoadBalancerIdKey in r.runs[0].store && r.runs[0].store[LoadBalancerIdKey].Scalar?
  {
    match RowById(tables, AmphoraT, amphoraId)
    case None => Failed(AttributeError)
    case Some(amp) =>
      Ran(failing, FlowRun(FailoverFlow, map[AmphoraKey := Entity(Some(amp)),
                                       LoadBalancerIdKey := Scalar(AmphoraLoadBalancerId(tables, DictGet(amp, ID)))]))
  }

  function CertRotationRuns(tables: Tables, failing: set<FlowRun>, amphoraId: Value): (r: Runs)
    requires Complete(tables)
    ensures RowById(tables, AmphoraT, amphoraId).None? ==> r == Failed(AttributeError)
    ensures RowById(tables, AmphoraT, amphoraId).Some? ==>
      OneRun(failing, r, CertRotateFlow) && Stores(r, AmphoraKey, Entity(RowById(tables, AmphoraT, amphoraId))) &&
      AmphoraIdKey in r.runs[0].store && r.runs[0].store[AmphoraIdKey].Scalar?
  {
    match RowById(tables, AmphoraT, amphoraId)
    case None => Failed(AttributeError)
    case Some(amp) =>
      Ran(failing, FlowRun(CertRotateFlow, map[AmphoraKey := Entity(Some(amp)), AmphoraIdKey := Scalar(DictGet(amp, ID))]))
  }

  // ----------------------------------------------------------- the full tree

  /** `for member in pool.members: create_member(member.id, full_tree=True)`. */
  function MemberRuns(tables: Tables, failing: set<FlowRun>, members: seq<Row>): Runs
    requires Complete(tables)
  {
    if members == [] then NoRuns
    else Then(MemberRuns(tables, failing, members[..|members| - 1]), CreateMemberRuns(tables, failing, DictGet(members[|members| - 1], ID), true))
  }

  /** One listener of the tree: create_listener, then its default pool's members. */
  function OneListenerRuns(tables: Tables, failing: set<FlowRun>, listener: Row): Runs
    requires Complete(tables)
  {
    Then(CreateListenerRuns(tables, failing, DictGet(listener, ID), true),
         match DefaultPoolOf(tables, listener)
         case None => NoRuns
         case Some(pool) => MemberRuns(tables, failing, MembersOf(tables, pool)))
  }

  /** `for listener in load_balancer.listeners: ...`. */
  function ListenerRuns(tables: Tables, failing: set<FlowRun>, listeners: seq<Row>): Runs
    requires Complete(tables)
  {
    if listeners == [] then NoRuns
    else Then(ListenerRuns(tables, failing, listeners[..|listeners| - 1]), OneListenerRuns(tables, failing, listeners[|listeners| - 1]))
  }

  /** _create_load_balancer_tree: the load balancer flows, every listener subtree, then finalize. */
  function TreeRuns(tables: Tables, failing: set<FlowRun>, topology: string, store: Store, lb: Row): Runs
    requires Complete(tables)
  {
    Then(Ran(failing, FlowRun(CreateLoadBalancerFlow(topology), store)),
         Then(Ran(failing, FlowRun(PostLbAmpAssociationFlow(POST_ASSOCIATION_PREFIX, topology, true), store)),
              Then(ListenerRuns(tables, failing, ListenersOf(tables, lb)),
                   Ran(failing, FlowRun(FullTreeFinalizeFlow, map[LoadBalancerKey := Entity(Some(lb))])))))
  }

  /**
   * The store create_load_balancer starts from: the load balancer's id and,
   * for the two known topologies only, an update dict naming it.
   */
  function InitialStore(lbId: Value, topology: string): (store: Store)
    ensures LoadBalancerIdKey in store && store[LoadBalancerIdKey] == Scalar(lbId)
    ensures UpdateDictKey in store <==> topology == TOPOLOGY_SINGLE || topology == TOPOLOGY_ACTIVE_STANDBY
    ensures UpdateDictKey in store ==> store[UpdateDictKey] == Updates(map[LOADBALANCER_TOPOLOGY := VStr(topology)])
    ensures store.Keys <= {LoadBalancerIdKey, UpdateDictKey}
  {
    var store := map[LoadBalancerIdKey := Scalar(lbId)];
    if topology == TOPOLOGY_SINGLE then store[UpdateDictKey := Updates(map[LOADBALANCER_TOPOLOGY := VStr(TOPOLOGY_SINGLE)])]
    else if topology == TOPOLOGY_ACTIVE_STANDBY then store[UpdateDictKey := Updates(map[LOADBALANCER_TOPOLOGY := VStr(TOPOLOGY_ACTIVE_STANDBY)])]
    else store
  }

  /** create_load_balancer: the full tree when the load balancer has listeners, else the bare creation. */
  function CreateLoadBalancerRuns(tables: Tables, failing: set<FlowRun>, topology: string, lbId: Value): Runs
    requires Complete(tables)
  {
    var store := InitialStore(lbId, topology);
    match RowById(tables, LoadBalancerT, lbId)
    case None => Failed(AttributeError)
    case Some(lb) =>
      if ListenersOf(tables, lb) != [] then TreeRuns(tables, failing, topology, store, lb)
      else Then(Ran(failing, FlowRun(CreateLoadBalancerFlow(topology), store)),
                Ran(failing, FlowRun(PostLbAmpAssociationFlow(POST_ASSOCIATION_PREFIX, topology, false), store)))
  }

  // ------------------------------------------------------------ the worker

  class ControllerWorker {
    /** CONF.controller_worker.loadbalancer_topology. */
    const topology: string
    /** The database the repositories read. */
    const tables: Tables
    /** The runs whose flow raises: a task failed and its exception escapes `run()`. */
    const failing: set<FlowRun>
    /** Every flow run so far, in order. */
    var trace: seq<FlowRun>

    constructor(topology: string, tables: Tables, failing: set<FlowRun>)
      requires Complete(tables)
      ensures this.topology == topology && this.tables == tables && this.failing == failing && trace == []
    {
      this.topology := topology;
      this.tables := tables;
      this.failing := failing;
      trace := [];
    }

    /** `_taskflow_load(flow, store=store)` and `run()`. */
    method RunFlow(flow: Flow, store: Store) returns (r: Result<()>)
      modifies this
      ensures Recorded(r, old(trace), trace, Ran(failing, FlowRun(flow, store)))
    {
      trace := trace + [FlowRun(flow, store)];
      if FlowRun(flow, store) in failing {
        return Err(FlowFailed);
      }
      r := Ok(());
    }

    /** create_amphora: run the flow and return what it stored under 'amphora'; a missing entry raises NotFound. */
    method CreateAmphora(storage: Store) returns (r: Result<Stored>)
      modifies this
      ensures trace == old(trace) + [FlowRun(CreateAmphoraFlow, map[])]
      ensures FlowRun(CreateAmphoraFlow, map[]) in failing ==> r == Err(FlowFailed)
      ensures FlowRun(CreateAmphoraFlow, map[]) !in failing && AmphoraKey in storage ==> r == Ok(storage[AmphoraKey])
      ensures FlowRun(CreateAmphoraFlow, map[]) !in failing && AmphoraKey !in storage ==> r == Err(NotFound)
    {
      var ran := RunFlow(CreateAmphoraFlow, map[]);
      if ran.Err? {
        return Err(ran.error);
      }
      if AmphoraKey !in storage {
        return Err(NotFound);
      }
      r := Ok(storage[AmphoraKey]);
    }

    method DeleteAmphora(amphoraId: Value) returns (r: Result<()>)
      requires Complete(tables)
      modifies this
      ensures Recorded(r, old(trace), trace, DeleteAmphoraRuns(tables, failing, amphoraId))
    {
      var amphora := RowById(tables, AmphoraT, amphoraId);
      r := RunFlow(DeleteAmphoraFlow, map[AmphoraKey := Entity(amphora)]);
    }

    /** The walk from a pool to its listener, load balancer and VIP, reassigning the listener's default pool when `assign`. */
    method Resolve(pool: Option<Row>, assign: bool) returns (c: Result<Chain>)
      requires Complete(tables)
      ensures c == PoolChain(tables, pool, assign)
    {
      if pool.None? {
        return Err(AttributeError);
      }
      var listener := Related(tables, ListenerT, DEFAULT_POOL_ID, DictGet(pool.value, ID));
      if listener.None? {
        return Err(AttributeError);
      }
      var l := listener.value;
      if assign {
        l := l[DEFAULT_POOL_ID := DictGet(pool.value, ID)];
      }
      var lb := Related(tables, LoadBalancerT, ID, DictGet(l, LOAD_BALANCER_ID));
      if lb.None? {
        return Err(AttributeError);
      }
      var vip := Related(tables, VipT, LOAD_BALANCER_ID, DictGet(lb.value, ID));
      c := Ok(Chain(l, lb.value, vip));
    }

    /** The common body of the member, pool and health monitor operations. */
    method RunChild(flow: Flow, key: StoreKey, entity: Option<Row>, pool: Option<Row>, assign: bool, extra: Store) returns (r: Result<()>)
      requires Complete(tables)
      modifies this
      ensures Recorded(r, old(trace), trace, ChildRuns(tables, failing, flow, key, entity, pool, assign, extra))
    {
      ghost var expected := ChildRuns(tables, failing, flow, key, entity, pool, assign, extra);
      if entity.None? {
        assert expected == Failed(AttributeError);
        return Err(AttributeError);
      }
      var c := Resolve(pool, assign);
      if c.Err? {
        assert expected == Failed(c.error);
        return Err(c.error);
      }
      var store := map[key := Entity(entity), ListenerKey := Entity(Some(c.value.listener)),
                       LoadBalancerKey := Entity(Some(c.value.loadBalancer)), VipKey := Entity(c.value.vip)];
      assert expected == Ran(failing, FlowRun(flow, store + extra));
      r := RunFlow(flow, store + extra);
    }

    method CreateHealthMonitor(poolId: Value) returns (r: Result<()>)
      requires Complete(tables)
      modifies this
      ensures Recorded(r, old(trace), trace, CreateHealthMonitorRuns(tables, failing, poolId))
    {
      var hm := MonitorOf(tables, poolId);
      r := RunChild(CreateHealthMonitorFlow, HealthMonKey, hm, PoolOf(tables, hm), true, map[]);
    }

    method DeleteHealthMonitor(poolId: Value) returns (r: Result<()>)
      requires Complete(tables)
      modifies this
      ensures Recorded(r, old(trace), trace, DeleteHealthMonitorRuns(tables, failing, poolId))
    {
      var hm := MonitorOf(tables, poolId);
      r := RunChild(DeleteHealthMonitorFlow, HealthMonKey, hm, PoolOf(tables, hm), true, map[PoolIdKey := Scalar(poolId)]);
    }

    method UpdateHealthMonitor(poolId: Value, updates: Dict) returns (r: Result<()>)
      requires Complete(tables)
      modifies this
      ensures Recorded(r, old(trace), trace, UpdateHealthMonitorRuns(tables, failing, poolId, updates))
    {
      var hm := MonitorOf(tables, poolId);
      r := RunChild(UpdateHealthMonitorFlow, HealthMonKey, hm, PoolOf(tables, hm), true, map[UpdateDictKey := Updates(updates)]);
    }

    /** The common body of the listener operations. */
    method RunListenerOp(flow: Flow, listenerId: Value, extra: Store) returns (r: Result<()>)
      requires Complete(tables)
      modifies this
      ensures Recorded(r, old(trace), trace, ListenerOpRuns(tables, failing, flow, listenerId, extra))
    {
      var listener := RowById(tables, ListenerT, listenerId);
      if listener.None? {
        return Err(AttributeError);
      }
      var lb := Related(tables, LoadBalancerT, ID, DictGet(listener.value, LOAD_BALANCER_ID));
      if lb.None? {
        return Err(AttributeError);
      }
      var vip := Related(tables, VipT, LOAD_BALANCER_ID, DictGet(lb.value, ID));
      var store := map[ListenerKey := Entity(listener), LoadBalancerKey := Entity(lb), VipKey := Entity(vip)];
      r := RunFlow(flow, store + extra);
    }

    method CreateListener(listenerId: Value, fullTree: bool) returns (r: Result<()>)
      requires Complete(tables)
      modifies this
      ensures Recorded(r, old(trace), trace, CreateListenerRuns(tables, failing, listenerId, fullTree))
    {
      r := RunListenerOp(CreateListenerFlow(fullTree), listenerId, map[]);
    }

    method DeleteListener(listenerId: Value) returns (r: Result<()>)
      requires Complete(tables)
      modifies this
      ensures Recorded(r, old(trace), trace, DeleteListenerRuns(tables, failing, listenerId))
    {
      r := RunListenerOp(DeleteListenerFlow, listenerId, map[]);
    }

    method UpdateListener(listenerId: Value, updates: Dict) returns (r: Result<()>)
      requires Complete(tables)
      modifies this
      ensures Recorded(r, old(trace), trace, UpdateListenerRuns(tables, failing, listenerId, updates))
    {
      r := RunListenerOp(UpdateListenerFlow, listenerId, map[UpdateDictKey := Updates(updates)]);
    }

    /** The member loop of one listener's subtree. */
    method CreateMembers(members: seq<Row>) returns (r: Result<()>)
      requires Complete(tables)
      modifies this
      ensures Recorded(r, old(trace), trace, MemberRuns(tables, failing, members))
    {
      var j := 0;
      r := Ok(());
      while j < |members|
        invariant 0 <= j <= |members|
        invariant Recorded(r, old(trace), trace, MemberRuns(tables, failing, members[..j])) && r.Ok?
      {
        ghost var before := trace;
        var rj := CreateMember(DictGet(members[j], ID), true);
        MemberLoopStep(tables, failing, members, j, r, rj, old(trace), before, trace);
        if rj.Err? {
          return rj;
        }
        j := j + 1;
      }
      assert members[..j] == members;
    }

    /** One iteration of the tree's listener loop. */
    method CreateListenerSubtree(listener: Row) returns (r: Result<()>)
      requires Complete(tables)
      modifies this
      ensures Recorded(r, old(trace), trace, OneListenerRuns(tables, failing, listener))
    {
      ghost var first := CreateListenerRuns(tables, failing, DictGet(listener, ID), true);
      var pool := DefaultPoolOf(tables, listener);
      ghost var rest := match pool case None => NoRuns case Some(p) => MemberRuns(tables, failing, MembersOf(tables, p));
      r := CreateListener(DictGet(listener, ID), true);
      if r.Err? {
        RecordedStop(r, old(trace), trace, first, rest);
        return;
      }
      ghost var mid := trace;
      ghost var r0 := r;
      if pool.Some? {
        r := CreateMembers(MembersOf(tables, pool.value));
      }
      RecordedThen(r0, r, old(trace), mid, trace, first, rest);
    }

    /** _create_load_balancer_tree. */
    method CreateLoadBalancerTree(store: Store, lb: Row) returns (r: Result<()>)
      requires Complete(tables)
      modifies this
      ensures Recorded(r, old(trace), trace, TreeRuns(tables, failing, topology, store, lb))
    {
      var listeners := ListenersOf(tables, lb);
      ghost var create := Ran(failing, FlowRun(CreateLoadBalancerFlow(topology), store));
      ghost var associate := Ran(failing, FlowRun(PostLbAmpAssociationFlow(POST_ASSOCIATION_PREFIX, topology, true), store));
      ghost var body := ListenerRuns(tables, failing, listeners);
      ghost var finalize := Ran(failing, FlowRun(FullTreeFinalizeFlow, map[LoadBalancerKey := Entity(Some(lb))]));
      ghost var t0 := trace;
      var r0 := RunFlow(CreateLoadBalancerFlow(topology), store);
      if r0.Err? {
        RecordedStop(r0, t0, trace, create, Then(associate, Then(body, finalize)));
        return r0;
      }
      ghost var t1 := trace;
      var r1 := RunFlow(PostLbAmpAssociationFlow(POST_ASSOCIATION_PREFIX, topology, true), store);
      if r1.Err? {
        RecordedStop(r1, t1, trace, associate, Then(body, finalize));
        RecordedThen(r0, r1, t0, t1, trace, create, Then(associate, Then(body, finalize)));
        return r1;
      }
      ghost var head := trace;
      var i := 0;
      r := Ok(());
      while i < |listeners|
        invariant 0 <= i <= |listeners|
        invariant Recorded(r, head, trace, ListenerRuns(tables, failing, listeners[..i])) && r.Ok?
      {
        ghost var before := trace;
        var ri := CreateListenerSubtree(listeners[i]);
        ListenerLoopStep(tables, failing, listeners, i, r, ri, head, before, trace);
        if ri.Err? {
          RecordedStop(ri, head, trace, body, finalize);
          RecordedThen(r1, ri, t1, head, trace, associate, Then(body, finalize));
          RecordedThen(r0, ri, t0, t1, trace, create, Then(associate, Then(body, finalize)));
          return ri;
        }
        i := i + 1;
      }
      assert listeners[..i] == listeners;
      ghost var beforeFinal := trace;
      ghost var rl := r;
      r := RunFlow(FullTreeFinalizeFlow, map[LoadBalancerKey := Entity(Some(lb))]);
      RecordedThen(rl, r, head, beforeFinal, trace, body, finalize);
      RecordedThen(r1, r, t1, head, trace, associate, Then(body, finalize));
      RecordedThen(r0, r, t0, t1, trace, create, Then(associate, Then(body, finalize)));
    }

    /** create_load_balancer. */
    method CreateLoadBalancer(lbId: Value) returns (r: Result<()>)
      requires Complete(tables)
      modifies this
      ensures Recorded(r, old(trace), trace, CreateLoadBalancerRuns(tables, failing, topology, lbId))
    {
      var store: Store := map[LoadBalancerIdKey := Scalar(lbId)];
      if topology == TOPOLOGY_SINGLE {
        store := store[UpdateDictKey := Updates(map[LOADBALANCER_TOPOLOGY := VStr(TOPOLOGY_SINGLE)])];
      } else if topology == TOPOLOGY_ACTIVE_STANDBY {
        store := store[UpdateDictKey := Updates(map[LOADBALANCER_TOPOLOGY := VStr(TOPOLOGY_ACTIVE_STANDBY)])];
      }
      var lb := RowById(tables, LoadBalancerT, lbId);
      if lb.None? {
        return Err(AttributeError);
      }
      if ListenersOf(tables, lb.value) != [] {
        r := CreateLoadBalancerTree(store, lb.value);
        return;
      }
      ghost var create := Ran(failing, FlowRun(CreateLoadBalancerFlow(topology), store));
      ghost var associate := Ran(failing, FlowRun(PostLbAmpAssociationFlow(POST_ASSOCIATION_PREFIX, topology, false), store));
      ghost var t0 := trace;
      var r0 := RunFlow(CreateLoadBalancerFlow(topology), store);
      if r0.Err? {
        RecordedStop(r0, t0, trace, create, associate);
        return r0;
      }
      ghost var t1 := trace;
      r := RunFlow(PostLbAmpAssociationFlow(POST_ASSOCIATION_PREFIX, topology, false), store);
      RecordedThen(r0, r, t0, t1, trace, create, associate);
    }

    method DeleteLoadBalancer(lbId: Value) returns (r: Result<()>)
      requires Complete(tables)
      modifies this
      ensures Recorded(r, old(trace), trace, DeleteLoadBalancerRuns(tables, failing, lbId))
    {
      var lb := RowById(tables, LoadBalancerT, lbId);
      r := RunFlow(DeleteLoadBalancerFlow, map[LoadBalancerKey := Entity(lb)]);
    }

    method UpdateLoadBalancer(lbId: Value, updates: Dict) returns (r: Result<()>)
      requires Complete(tables)
      modifies this
      ensures Recorded(r, old(trace), trace, UpdateLoadBalancerRuns(tables, failing, lbId, updates))
    {
      var lb := RowById(tables, LoadBalancerT, lbId);
      r := RunFlow(UpdateLoadBalancerFlow, map[LoadBalancerKey := Entity(lb), UpdateDictKey := Updates(updates)]);
    }

    method CreateMember(memberId: Value, fullTree: bool) returns (r: Result<()>)
      requires Complete(tables)
      modifies this
      ensures Recorded(r, old(trace), trace, CreateMemberRuns(tables, failing, memberId, fullTree))
    {
      var member := RowById(tables, MemberT, memberId);
      r := RunChild(CreateMemberFlow(fullTree), MemberKey, member, PoolOf(tables, member), true, map[]);
    }

    method DeleteMember(memberId: Value) returns (r: Result<()>)
      requires Complete(tables)
      modifies this
      ensures Recorded(r, old(trace), trace, DeleteMemberRuns(tables, failing, memberId))
    {
      var member := RowById(tables, MemberT, memberId);
      r := RunChild(DeleteMemberFlow, MemberKey, member, PoolOf(tables, member), true, map[MemberIdKey := Scalar(memberId)]);
    }

    method UpdateMember(memberId: Value, updates: Dict) returns (r: Result<()>)
      requires Complete(tables)
      modifies this
      ensures Recorded(r, old(trace), trace, UpdateMemberRuns(tables, failing, memberId, updates))
    {
      var member := RowById(tables, MemberT, memberId);
      r := RunChild(UpdateMemberFlow, MemberKey, member, PoolOf(tables, member), true, map[UpdateDictKey := Updates(updates)]);
    }

    method CreatePool(poolId: Value) returns (r: Result<()>)
      requires Complete(tables)
      modifies this
      ensures Recorded(r, old(trace), trace, CreatePoolRuns(tables, failing, poolId))
    {
      var pool := RowById(tables, PoolT, poolId);
      r := RunChild(CreatePoolFlow, PoolKey, pool, pool, true, map[]);
    }

    method DeletePool(poolId: Value) returns (r: Result<()>)
      requires Complete(tables)
      modifies this
      ensures Recorded(r, old(trace), trace, DeletePoolRuns(tables, failing, poolId))
    {
      var pool := RowById(tables, PoolT, poolId);
      r := RunChild(DeletePoolFlow, PoolKey, pool, pool, false, map[]);
    }

    method UpdatePool(poolId: Value, updates: Dict) returns (r: Result<()>)
      requires Complete(tables)
      modifies this
      ensures Recorded(r, old(trace), trace, UpdatePoolRuns(tables, failing, poolId, updates))
    {
      var pool := RowById(tables, PoolT, poolId);
      r := RunChild(UpdatePoolFlow, PoolKey, pool, pool, true, map[UpdateDictKey := Updates(updates)]);
    }

    method FailoverAmphora(amphoraId: Value) returns (r: Result<()>)
      requires Complete(tables)
      modifies this
      ensures Recorded(r, old(trace), trace, FailoverRuns(tables, failing, amphoraId))
    {
      var amp := RowById(tables, AmphoraT, amphoraId);
      if amp.None? {
        return Err(AttributeError);
      }
      var lbId := AmphoraLoadBalancerId(tables, DictGet(amp.value, ID));
      r := RunFlow(FailoverFlow, map[AmphoraKey := Entity(amp), LoadBalancerIdKey := Scalar(lbId)]);
    }

    method AmphoraCertRotation(amphoraId: Value) returns (r: Result<()>)
      requires Complete(tables)
      modifies this
      ensures Recorded(r, old(trace), trace, CertRotationRuns(tables, failing, amphoraId))
    {
      var amp := RowById(tables, AmphoraT, amphoraId);
      if amp.None? {
        return Err(AttributeError);
      }
      r := RunFlow(CertRotateFlow, map[AmphoraKey := Entity(amp), AmphoraIdKey := Scalar(DictGet(amp.value, ID))]);
    }
  }

  // ----------------------------------------------------------- properties

  lemma {:induction false} MemberRunsStep(tables: Tables, failing: set<FlowRun>, members: seq<Row>, j: nat)
    requires Complete(tables) && j < |members|
    ensures MemberRuns(tables, failing, members[..j + 1]) ==
            Then(MemberRuns(tables, failing, members[..j]), CreateMemberRuns(tables, failing, DictGet(members[j], ID), true))
  {
    assert members[..j + 1][..j] == members[..j];
  }

  lemma {:induction false} ListenerRunsStep(tables: Tables, failing: set<FlowRun>, listeners: seq<Row>, i: nat)
    requires Complete(tables) && i < |listeners|
    ensures ListenerRuns(tables, failing, listeners[..i + 1]) == Then(ListenerRuns(tables, failing, listeners[..i]), OneListenerRuns(tables, failing, listeners[i]))
  {
    assert listeners[..i + 1][..i] == listeners[..i];
  }

  /** One turn of the member loop: the next create_member extends the record, and a raise ends the loop. */
  lemma {:induction false} MemberLoopStep(tables: Tables, failing: set<FlowRun>, members: seq<Row>, j: nat, r: Result<()>, rj: Result<()>,
                       t0: seq<FlowRun>, t1: seq<FlowRun>, t2: seq<FlowRun>)
    requires Complete(tables) && j < |members|
    requires Recorded(r, t0, t1, MemberRuns(tables, failing, members[..j])) && r.Ok?
    requires Recorded(rj, t1, t2, CreateMemberRuns(tables, failing, DictGet(members[j], ID), true))
    ensures Recorded(rj, t0, t2, MemberRuns(tables, failing, members[..j + 1]))
    ensures rj.Err? ==> Recorded(rj, t0, t2, MemberRuns(tables, failing, members))
  {
    MemberRunsStep(tables, failing, members, j);
    RecordedThen(r, rj, t0, t1, t2, MemberRuns(tables, failing, members[..j]), CreateMemberRuns(tables, failing, DictGet(members[j], ID), true));
    if rj.Err? {
      MemberRunsStop(tables, failing, members, j + 1);
    }
  }

  /** One turn of the listener loop. */
  lemma {:induction false} ListenerLoopStep(tables: Tables, failing: set<FlowRun>, listeners: seq<Row>, i: nat, r: Result<()>, ri: Result<()>,
                         t0: seq<FlowRun>, t1: seq<FlowRun>, t2: seq<FlowRun>)
    requires Complete(tables) && i < |listeners|
    requires Recorded(r, t0, t1, ListenerRuns(tables, failing, listeners[..i])) && r.Ok?
    requires Recorded(ri, t1, t2, OneListenerRuns(tables, failing, listeners[i]))
    ensures Recorded(ri, t0, t2, ListenerRuns(tables, failing, listeners[..i + 1]))
    ensures ri.Err? ==> Recorded(ri, t0, t2, ListenerRuns(tables, failing, listeners))
  {
    ListenerRunsStep(tables, failing, listeners, i);
    RecordedThen(r, ri, t0, t1, t2, ListenerRuns(tables, failing, listeners[..i]), OneListenerRuns(tables, failing, listeners[i]));
    if ri.Err? {
      ListenerRunsStop(tables, failing, listeners, i + 1);
    }
  }

  /** Once a prefix of the member loop raised, the rest of the loop does not run. */
  lemma {:induction false} MemberRunsStop(tables: Tables, failing: set<FlowRun>, members: seq<Row>, k: nat)
    requires Complete(tables) && k <= |members| && MemberRuns(tables, failing, members[..k]).failure.Some?
    ensures MemberRuns(tables, failing, members) == MemberRuns(tables, failing, members[..k])
    decreases |members|
  {
    if k < |members| {
      var init := members[..|members| - 1];
      assert init[..k] == members[..k];
      MemberRunsStop(tables, failing, init, k);
    } else {
      assert members[..k] == members;
    }
  }

  /** Once a prefix of the listener loop raised, the rest of the loop and the finalize flow do not run. */
  lemma {:induction false} ListenerRunsStop(tables: Tables, failing: set<FlowRun>, listeners: seq<Row>, k: nat)
    requires Complete(tables) && k <= |listeners| && ListenerRuns(tables, failing, listeners[..k]).failure.Some?
    ensures ListenerRuns(tables, failing, listeners) == ListenerRuns(tables, failing, listeners[..k])
    decreases |listeners|
  {
    if k < |listeners| {
      var init := listeners[..|listeners| - 1];
      assert init[..k] == listeners[..k];
      ListenerRunsStop(tables, failing, init, k);
    } else {
      assert listeners[..k] == listeners;
    }
  }

  /** The row a one-column query returns is a row of the table with that value in the column. */
  lemma {:induction false} Found(rows: seq<Row>, column: string, v: Value, row: Row)
    requires FirstMatch(rows, By(column, v)) == Some(row)
    ensures row in rows && DictGet(row, column) == v
  {
    assert column in By(column, v);
  }

  /** A relationship that finds nothing means no row of the table carries the key. */
  lemma {:induction false} NotFound(rows: seq<Row>, column: string, v: Value)
    requires FirstMatch(rows, By(column, v)).None?
    ensures forall k :: 0 <= k < |rows| ==> DictGet(rows[k], column) != v
  {
    forall k | 0 <= k < |rows|
      ensures DictGet(rows[k], column) != v
    {
      assert !Matches(rows[k], By(column, v));
      assert column in By(column, v);
    }
  }

  /**
   * A child flow's store: the listener whose default pool is `poolId`, that
   * listener's load balancer, and the load balancer's VIP when it has one,
   * each a row of its table.
   */
  ghost predicate Wired(tables: Tables, store: Store, poolId: Value)
    requires Complete(tables)
  {
    && ListenerKey in store && store[ListenerKey].Entity? && store[ListenerKey].row.Some?
    && LoadBalancerKey in store && store[LoadBalancerKey].Entity? && store[LoadBalancerKey].row.Some?
    && VipKey in store && store[VipKey].Entity?
    && poolId != VNone
    && ListenerWired(tables, store[ListenerKey].row.value, store[LoadBalancerKey].row.value, store[VipKey].row)
    && DictGet(store[ListenerKey].row.value, DEFAULT_POOL_ID) == poolId
  }

  /** The listener, its load balancer and that one's VIP (None only when no VIP row names it). */
  ghost predicate ListenerWired(tables: Tables, listener: Row, lb: Row, vip: Option<Row>)
    requires Complete(tables)
  {
    && listener in tables[ListenerT]
    && lb in tables[LoadBalancerT] && DictGet(lb, ID) == DictGet(listener, LOAD_BALANCER_ID) && DictGet(lb, ID) != VNone
    && (vip.Some? ==> vip.value in tables[VipT] && DictGet(vip.value, LOAD_BALANCER_ID) == DictGet(lb, ID))
    && (vip.None? ==> forall k :: 0 <= k < |tables[VipT]| ==> DictGet(tables[VipT][k], LOAD_BALANCER_ID) != DictGet(lb, ID))
  }

  lemma {:induction false} ListenerChainLinks(tables: Tables, listener: Row)
    requires Complete(tables) && listener in tables[ListenerT]
    ensures ListenerChain(tables, Some(listener)).Err? ==> ListenerChain(tables, Some(listener)).error == AttributeError
    ensures ListenerChain(tables, Some(listener)).Ok? ==>
      var c := ListenerChain(tables, Some(listener)).value;
      c.listener == listener && ListenerWired(tables, c.listener, c.loadBalancer, c.vip)
  {
    var lbId := DictGet(listener, LOAD_BALANCER_ID);
    if lbId != VNone && ListenerChain(tables, Some(listener)).Ok? {
      var lb := Related(tables, LoadBalancerT, ID, lbId).value;
      Found(tables[LoadBalancerT], ID, lbId, lb);
      var vip := Related(tables, VipT, LOAD_BALANCER_ID, DictGet(lb, ID));
      if vip.Some? {
        Found(tables[VipT], LOAD_BALANCER_ID, DictGet(lb, ID), vip.value);
      } else {
        NotFound(tables[VipT], LOAD_BALANCER_ID, DictGet(lb, ID));
      }
    }
  }

  /** Reassigning `listener.default_pool` to the pool it was reached from changes nothing. */
  lemma {:induction false} AssignDefaultPoolKeeps(tables: Tables, pool: Option<Row>)
    requires Complete(tables)
    ensures PoolChain(tables, pool, true) == PoolChain(tables, pool, false)
  {
    if pool.Some? {
      var poolId := DictGet(pool.value, ID);
      var listener := Related(tables, ListenerT, DEFAULT_POOL_ID, poolId);
      if listener.Some? {
        Found(tables[ListenerT], DEFAULT_POOL_ID, poolId, listener.value);
        assert listener.value[DEFAULT_POOL_ID := poolId] == listener.value;
      }
    }
  }

  /** A pool's chain: the listener whose default pool it is, that listener's load balancer and VIP. */
  lemma {:induction false} PoolChainLinks(tables: Tables, pool: Row, assign: bool)
    requires Complete(tables)
    ensures PoolChain(tables, Some(pool), assign).Err? ==> PoolChain(tables, Some(pool), assign).error == AttributeError
    ensures PoolChain(tables, Some(pool), assign).Ok? ==>
      var c := PoolChain(tables, Some(pool), assign).value;
      DictGet(pool, ID) != VNone && DictGet(c.listener, DEFAULT_POOL_ID) == DictGet(pool, ID) &&
      ListenerWired(tables, c.listener, c.loadBalancer, c.vip)
  {
    AssignDefaultPoolKeeps(tables, Some(pool));
    var poolId := DictGet(pool, ID);
    var listener := Related(tables, ListenerT, DEFAULT_POOL_ID, poolId);
    if listener.Some? {
      Found(tables[ListenerT], DEFAULT_POOL_ID, poolId, listener.value);
      ListenerChainLinks(tables, listener.value);
    }
  }

  /** A child operation runs one flow on the entity and its wired chain, or raises AttributeError and runs nothing. */
  lemma {:induction false} ChildRunsWired(tables: Tables, failing: set<FlowRun>, flow: Flow, key: StoreKey, entity: Option<Row>, pool: Option<Row>, assign: bool, extra: Store)
    requires Complete(tables)
    requires key != ListenerKey && key != LoadBalancerKey && key != VipKey
    requires key !in extra && ListenerKey !in extra && LoadBalancerKey !in extra && VipKey !in extra
    ensures var r := ChildRuns(tables, failing, flow, key, entity, pool, assign, extra);
      && (r.runs == [] ==> r == Failed(AttributeError))
      && (entity.None? || pool.None? ==> r == Failed(AttributeError))
      && (r.runs != [] ==>
            && |r.runs| == 1 && r.runs[0].flow == flow && r.failure == (if r.runs[0] in failing then Some(FlowFailed) else None)
            && key in r.runs[0].store && r.runs[0].store[key] == Entity(entity)
            && Wired(tables, r.runs[0].store, DictGet(pool.value, ID))
            && forall k :: k in extra ==> k in r.runs[0].store && r.runs[0].store[k] == extra[k])
  {
    if pool.Some? {
      PoolChainLinks(tables, pool.value, assign);
    }
  }

  /** A child run that reached its flow: the child, a row of `t` whose `column` is `v`, and the chain above the pool its `link` names. */
  ghost predicate RanOn(tables: Tables, failing: set<FlowRun>, r: Runs, flow: Flow, key: StoreKey, t: Table, column: string, v: Value, link: string)
    requires Complete(tables)
  {
    && |r.runs| == 1 && r.runs[0].flow == flow && r.failure == (if r.runs[0] in failing then Some(FlowFailed) else None)
    && key in r.runs[0].store && r.runs[0].store[key].Entity? && r.runs[0].store[key].row.Some?
    && var child := r.runs[0].store[key].row.value;
       && child in tables[t] && DictGet(child, column) == v
       && Wired(tables, r.runs[0].store, DictGet(child, link))
  }

  /** A child run on an entity of `t` whose `column` is `v` and whose pool is the one its `link` names. */
  lemma {:induction false} ChildRanOn(tables: Tables, failing: set<FlowRun>, flow: Flow, key: StoreKey, t: Table, column: string, v: Value, link: string,
                   entity: Option<Row>, pool: Option<Row>, assign: bool, extra: Store)
    requires Complete(tables)
    requires key != ListenerKey && key != LoadBalancerKey && key != VipKey
    requires key !in extra && ListenerKey !in extra && LoadBalancerKey !in extra && VipKey !in extra
    requires entity.Some? ==> entity.value in tables[t] && DictGet(entity.value, column) == v
    requires entity.Some? && pool.Some? ==> DictGet(pool.value, ID) == DictGet(entity.value, link)
    ensures var r := ChildRuns(tables, failing, flow, key, entity, pool, assign, extra);
      && (entity.None? ==> r == Failed(AttributeError))
      && (r.runs != [] ==> RanOn(tables, failing, r, flow, key, t, column, v, link) &&
                              forall k :: k in extra ==> k in r.runs[0].store && r.runs[0].store[k] == extra[k])
  {
    ChildRunsWired(tables, failing, flow, key, entity, pool, assign, extra);
  }

  /** A member operation's pool is the member's own pool. */
  lemma {:induction false} MemberPool(tables: Tables, memberId: Value)
    requires Complete(tables)
    ensures RowById(tables, MemberT, memberId).Some? ==>
      var m := RowById(tables, MemberT, memberId).value;
      m in tables[MemberT] && DictGet(m, ID) == memberId &&
      (PoolOf(tables, Some(m)).Some? ==> DictGet(PoolOf(tables, Some(m)).value, ID) == DictGet(m, POOL_ID))
  {
    var m := RowById(tables, MemberT, memberId);
    if m.Some? {
      Found(tables[MemberT], ID, memberId, m.value);
      var p := PoolOf(tables, m);
      if p.Some? {
        Found(tables[PoolT], ID, DictGet(m.value, POOL_ID), p.value);
      }
    }
  }

  /**
   * create_member, delete_member and update_member: an unknown member raises
   * AttributeError before any flow; otherwise the one flow runs on the
   * member, the listener whose default pool is the member's pool, its load
   * balancer and VIP, with the member id or the update dict beside them.
   */
  lemma {:induction false} MemberOperationsWired(tables: Tables, failing: set<FlowRun>, memberId: Value, updates: Dict, fullTree: bool)
    requires Complete(tables)
    ensures RowById(tables, MemberT, memberId).None? ==>
      && CreateMemberRuns(tables, failing, memberId, fullTree) == Failed(AttributeError)
      && DeleteMemberRuns(tables, failing, memberId) == Failed(AttributeError)
      && UpdateMemberRuns(tables, failing, memberId, updates) == Failed(AttributeError)
    ensures var r := CreateMemberRuns(tables, failing, memberId, fullTree);
      r.runs != [] ==> RanOn(tables, failing, r, CreateMemberFlow(fullTree), MemberKey, MemberT, ID, memberId, POOL_ID)
    ensures var r := DeleteMemberRuns(tables, failing, memberId);
      r.runs != [] ==> RanOn(tables, failing, r, DeleteMemberFlow, MemberKey, MemberT, ID, memberId, POOL_ID) &&
                          MemberIdKey in r.runs[0].store && r.runs[0].store[MemberIdKey] == Scalar(memberId)
    ensures var r := UpdateMemberRuns(tables, failing, memberId, updates);
      r.runs != [] ==> RanOn(tables, failing, r, UpdateMemberFlow, MemberKey, MemberT, ID, memberId, POOL_ID) &&
                          UpdateDictKey in r.runs[0].store && r.runs[0].store[UpdateDictKey] == Updates(updates)
  {
    var m := RowById(tables, MemberT, memberId);
    MemberPool(tables, memberId);
    var pool := PoolOf(tables, m);
    assert CreateMemberRuns(tables, failing, memberId, fullTree).runs != [] ==>
        RanOn(tables, failing, CreateMemberRuns(tables, failing, memberId, fullTree), CreateMemberFlow(fullTree), MemberKey, MemberT, ID, memberId, POOL_ID) by {
      ChildRanOn(tables, failing, CreateMemberFlow(fullTree), MemberKey, MemberT, ID, memberId, POOL_ID, m, pool, true, map[]);
    }
    assert DeleteMemberRuns(tables, failing, memberId).runs != [] ==>
        RanOn(tables, failing, DeleteMemberRuns(tables, failing, memberId), DeleteMemberFlow, MemberKey, MemberT, ID, memberId, POOL_ID) &&
        MemberIdKey in DeleteMemberRuns(tables, failing, memberId).runs[0].store && DeleteMemberRuns(tables, failing, memberId).runs[0].store[MemberIdKey] == Scalar(memberId) by {
      var extra := map[MemberIdKey := Scalar(memberId)];
      assert MemberIdKey in extra;
      ChildRanOn(tables, failing, DeleteMemberFlow, MemberKey, MemberT, ID, memberId, POOL_ID, m, pool, true, extra);
    }
    assert UpdateMemberRuns(tables, failing, memberId, updates).runs != [] ==>
        RanOn(tables, failing, UpdateMemberRuns(tables, failing, memberId, updates), UpdateMemberFlow, MemberKey, MemberT, ID, memberId, POOL_ID) &&
        UpdateDictKey in UpdateMemberRuns(tables, failing, memberId, updates).runs[0].store && UpdateMemberRuns(tables, failing, memberId, updates).runs[0].store[UpdateDictKey] == Updates(updates) by {
      var extra := map[UpdateDictKey := Updates(updates)];
      assert UpdateDictKey in extra;
      ChildRanOn(tables, failing, UpdateMemberFlow, MemberKey, MemberT, ID, memberId, POOL_ID, m, pool, true, extra);
    }
  }

  /** A health monitor operation's pool is the pool it was looked up by. */
  lemma {:induction false} MonitorPool(tables: Tables, poolId: Value)
    requires Complete(tables)
    ensures MonitorOf(tables, poolId).Some? ==>
      var hm := MonitorOf(tables, poolId).value;
      hm in tables[HealthMonitorT] && DictGet(hm, POOL_ID) == poolId &&
      (PoolOf(tables, Some(hm)).Some? ==> DictGet(PoolOf(tables, Some(hm)).value, ID) == poolId)
  {
    var hm := MonitorOf(tables, poolId);
    if hm.Some? {
      Found(tables[HealthMonitorT], POOL_ID, poolId, hm.value);
      var p := PoolOf(tables, hm);
      if p.Some? {
        Found(tables[PoolT], ID, poolId, p.value);
      }
    }
  }

  /**
   * create/delete/update_health_monitor: no monitor on the pool raises
   * AttributeError before any flow; otherwise the flow runs on that pool's
   * monitor and the listener whose default pool it is, with the pool id or
   * the update dict beside them.
   */
  lemma {:induction false} HealthMonitorOperationsWired(tables: Tables, failing: set<FlowRun>, poolId: Value, updates: Dict)
    requires Complete(tables)
    ensures MonitorOf(tables, poolId).None? ==>
      && CreateHealthMonitorRuns(tables, failing, poolId) == Failed(AttributeError)
      && DeleteHealthMonitorRuns(tables, failing, poolId) == Failed(AttributeError)
      && UpdateHealthMonitorRuns(tables, failing, poolId, updates) == Failed(AttributeError)
    ensures var r := CreateHealthMonitorRuns(tables, failing, poolId);
      r.runs != [] ==> RanOn(tables, failing, r, CreateHealthMonitorFlow, HealthMonKey, HealthMonitorT, POOL_ID, poolId, POOL_ID)
    ensures var r := DeleteHealthMonitorRuns(tables, failing, poolId);
      r.runs != [] ==> RanOn(tables, failing, r, DeleteHealthMonitorFlow, HealthMonKey, HealthMonitorT, POOL_ID, poolId, POOL_ID) &&
                          PoolIdKey in r.runs[0].store && r.runs[0].store[PoolIdKey] == Scalar(poolId)
    ensures var r := UpdateHealthMonitorRuns(tables, failing, poolId, updates);
      r.runs != [] ==> RanOn(tables, failing, r, UpdateHealthMonitorFlow, HealthMonKey, HealthMonitorT, POOL_ID, poolId, POOL_ID) &&
                          UpdateDictKey in r.runs[0].store && r.runs[0].store[UpdateDictKey] == Updates(updates)
  {
    var hm := MonitorOf(tables, poolId);
    MonitorPool(tables, poolId);
    var pool := PoolOf(tables, hm);
    assert CreateHealthMonitorRuns(tables, failing, poolId).runs != [] ==>
        RanOn(tables, failing, CreateHealthMonitorRuns(tables, failing, poolId), CreateHealthMonitorFlow, HealthMonKey, HealthMonitorT, POOL_ID, poolId, POOL_ID) by {
      ChildRanOn(tables, failing, CreateHealthMonitorFlow, HealthMonKey, HealthMonitorT, POOL_ID, poolId, POOL_ID, hm, pool, true, map[]);
    }
    assert DeleteHealthMonitorRuns(tables, failing, poolId).runs != [] ==>
        RanOn(tables, failing, DeleteHealthMonitorRuns(tables, failing, poolId), DeleteHealthMonitorFlow, HealthMonKey, HealthMonitorT, POOL_ID, poolId, POOL_ID) &&
        PoolIdKey in DeleteHealthMonitorRuns(tables, failing, poolId).runs[0].store && DeleteHealthMonitorRuns(tables, failing, poolId).runs[0].store[PoolIdKey] == Scalar(poolId) by {
      var extra := map[PoolIdKey := Scalar(poolId)];
      assert PoolIdKey in extra;
      ChildRanOn(tables, failing, DeleteHealthMonitorFlow, HealthMonKey, HealthMonitorT, POOL_ID, poolId, POOL_ID, hm, pool, true, extra);
    }
    assert UpdateHealthMonitorRuns(tables, failing, poolId, updates).runs != [] ==>
        RanOn(tables, failing, UpdateHealthMonitorRuns(tables, failing, poolId, updates), UpdateHealthMonitorFlow, HealthMonKey, HealthMonitorT, POOL_ID, poolId, POOL_ID) &&
        UpdateDictKey in UpdateHealthMonitorRuns(tables, failing, poolId, updates).runs[0].store && UpdateHealthMonitorRuns(tables, failing, poolId, updates).runs[0].store[UpdateDictKey] == Updates(updates) by {
      var extra := map[UpdateDictKey := Updates(updates)];
      assert UpdateDictKey in extra;
      ChildRanOn(tables, failing, UpdateHealthMonitorFlow, HealthMonKey, HealthMonitorT, POOL_ID, poolId, POOL_ID, hm, pool, true, extra);
    }
  }

  /**
   * create_pool, delete_pool and update_pool: an unknown pool raises
   * AttributeError before any flow; otherwise the flow runs on the pool and
   * the listener whose default pool it is. delete_pool's missing
   * reassignment makes no difference.
   */
  lemma {:induction false} PoolOperationsWired(tables: Tables, failing: set<FlowRun>, poolId: Value, updates: Dict)
    requires Complete(tables)
    ensures RowById(tables, PoolT, poolId).None? ==>
      && CreatePoolRuns(tables, failing, poolId) == Failed(AttributeError)
      && DeletePoolRuns(tables, failing, poolId) == Failed(AttributeError)
      && UpdatePoolRuns(tables, failing, poolId, updates) == Failed(AttributeError)
    ensures var r := CreatePoolRuns(tables, failing, poolId);
      r.runs != [] ==> RanOn(tables, failing, r, CreatePoolFlow, PoolKey, PoolT, ID, poolId, ID)
    ensures var r := DeletePoolRuns(tables, failing, poolId);
      r.runs != [] ==> RanOn(tables, failing, r, DeletePoolFlow, PoolKey, PoolT, ID, poolId, ID)
    ensures var r := UpdatePoolRuns(tables, failing, poolId, updates);
      r.runs != [] ==> RanOn(tables, failing, r, UpdatePoolFlow, PoolKey, PoolT, ID, poolId, ID) &&
                          UpdateDictKey in r.runs[0].store && r.runs[0].store[UpdateDictKey] == Updates(updates)
    ensures (DeletePoolRuns(tables, failing, poolId).runs == [] <==> CreatePoolRuns(tables, failing, poolId).runs == [])
  {
    CreatePoolWired(tables, failing, poolId);
    DeletePoolWired(tables, failing, poolId);
    UpdatePoolWired(tables, failing, poolId, updates);
  }

  lemma {:induction false} CreatePoolWired(tables: Tables, failing: set<FlowRun>, poolId: Value)
    requires Complete(tables)
    ensures RowById(tables, PoolT, poolId).None? ==> CreatePoolRuns(tables, failing, poolId) == Failed(AttributeError)
    ensures var r := CreatePoolRuns(tables, failing, poolId);
      r.runs != [] ==> RanOn(tables, failing, r, CreatePoolFlow, PoolKey, PoolT, ID, poolId, ID)
  {
    var p := RowById(tables, PoolT, poolId);
    if p.Some? {
      Found(tables[PoolT], ID, poolId, p.value);
    }
    ChildRanOn(tables, failing, CreatePoolFlow, PoolKey, PoolT, ID, poolId, ID, p, p, true, map[]);
  }

  lemma {:induction false} DeletePoolWired(tables: Tables, failing: set<FlowRun>, poolId: Value)
    requires Complete(tables)
    ensures RowById(tables, PoolT, poolId).None? ==> DeletePoolRuns(tables, failing, poolId) == Failed(AttributeError)
    ensures var r := DeletePoolRuns(tables, failing, poolId);
      r.runs != [] ==> RanOn(tables, failing, r, DeletePoolFlow, PoolKey, PoolT, ID, poolId, ID)
    ensures (DeletePoolRuns(tables, failing, poolId).runs == [] <==> CreatePoolRuns(tables, failing, poolId).runs == [])
  {
    var p := RowById(tables, PoolT, poolId);
    if p.Some? {
      Found(tables[PoolT], ID, poolId, p.value);
    }
    AssignDefaultPoolKeeps(tables, p);
    ChildRanOn(tables, failing, DeletePoolFlow, PoolKey, PoolT, ID, poolId, ID, p, p, false, map[]);
  }

  lemma {:induction false} UpdatePoolWired(tables: Tables, failing: set<FlowRun>, poolId: Value, updates: Dict)
    requires Complete(tables)
    ensures RowById(tables, PoolT, poolId).None? ==> UpdatePoolRuns(tables, failing, poolId, updates) == Failed(AttributeError)
    ensures var r := UpdatePoolRuns(tables, failing, poolId, updates);
      r.runs != [] ==> RanOn(tables, failing, r, UpdatePoolFlow, PoolKey, PoolT, ID, poolId, ID) &&
                          UpdateDictKey in r.runs[0].store && r.runs[0].store[UpdateDictKey] == Updates(updates)
  {
    var p := RowById(tables, PoolT, poolId);
    if p.Some? {
      Found(tables[PoolT], ID, poolId, p.value);
    }
    var extra := map[UpdateDictKey := Updates(updates)];
    assert UpdateDictKey in extra;
    ChildRanOn(tables, failing, UpdatePoolFlow, PoolKey, PoolT, ID, poolId, ID, p, p, true, extra);
  }

  /** A listener run that reached its flow: the listener with that id, its load balancer and VIP. */
  ghost predicate ListenerRanOn(tables: Tables, failing: set<FlowRun>, r: Runs, flow: Flow, listenerId: Value)
    requires Complete(tables)
  {
    && |r.runs| == 1 && r.runs[0].flow == flow && r.failure == (if r.runs[0] in failing then Some(FlowFailed) else None)
    && var store := r.runs[0].store;
       && ListenerKey in store && store[ListenerKey].Entity? && store[ListenerKey].row.Some?
       && LoadBalancerKey in store && store[LoadBalancerKey].Entity? && store[LoadBalancerKey].row.Some?
       && VipKey in store && store[VipKey].Entity?
       && DictGet(store[ListenerKey].row.value, ID) == listenerId
       && ListenerWired(tables, store[ListenerKey].row.value, store[LoadBalancerKey].row.value, store[VipKey].row)
  }

  lemma {:induction false} ListenerOpWired(tables: Tables, failing: set<FlowRun>, flow: Flow, listenerId: Value, extra: Store)
    requires Complete(tables)
    requires ListenerKey !in extra && LoadBalancerKey !in extra && VipKey !in extra
    ensures var r := ListenerOpRuns(tables, failing, flow, listenerId, extra);
      && (r.runs == [] ==> r == Failed(AttributeError))
      && (RowById(tables, ListenerT, listenerId).None? ==> r == Failed(AttributeError))
      && (r.runs != [] ==> ListenerRanOn(tables, failing, r, flow, listenerId) &&
                              forall k :: k in extra ==> k in r.runs[0].store && r.runs[0].store[k] == extra[k])
  {
    var l := RowById(tables, ListenerT, listenerId);
    if l.Some? {
      Found(tables[ListenerT], ID, listenerId, l.value);
      ListenerChainLinks(tables, l.value);
    }
  }

  /**
   * create_listener, delete_listener and update_listener: an unknown
   * listener raises AttributeError before any flow; otherwise the flow runs
   * on the listener, its load balancer and that one's VIP.
   */
  lemma {:induction false} ListenerOperationsWired(tables: Tables, failing: set<FlowRun>, listenerId: Value, updates: Dict, fullTree: bool)
    requires Complete(tables)
    ensures RowById(tables, ListenerT, listenerId).None? ==>
      && CreateListenerRuns(tables, failing, listenerId, fullTree) == Failed(AttributeError)
      && DeleteListenerRuns(tables, failing, listenerId) == Failed(AttributeError)
      && UpdateListenerRuns(tables, failing, listenerId, updates) == Failed(AttributeError)
    ensures var r := CreateListenerRuns(tables, failing, listenerId, fullTree);
      r.runs != [] ==> ListenerRanOn(tables, failing, r, CreateListenerFlow(fullTree), listenerId)
    ensures var r := DeleteListenerRuns(tables, failing, listenerId);
      r.runs != [] ==> ListenerRanOn(tables, failing, r, DeleteListenerFlow, listenerId)
    ensures var r := UpdateListenerRuns(tables, failing, listenerId, updates);
      r.runs != [] ==> ListenerRanOn(tables, failing, r, UpdateListenerFlow, listenerId) &&
                          UpdateDictKey in r.runs[0].store && r.runs[0].store[UpdateDictKey] == Updates(updates)
  {
    ListenerOpWired(tables, failing, CreateListenerFlow(fullTree), listenerId, map[]);
    ListenerOpWired(tables, failing, DeleteListenerFlow, listenerId, map[]);
    UpdateListenerWired(tables, failing, listenerId, updates);
  }

  lemma {:induction false} UpdateListenerWired(tables: Tables, failing: set<FlowRun>, listenerId: Value, updates: Dict)
    requires Complete(tables)
    ensures var r := UpdateListenerRuns(tables, failing, listenerId, updates);
      && (RowById(tables, ListenerT, listenerId).None? ==> r == Failed(AttributeError))
      && (r.runs != [] ==> ListenerRanOn(tables, failing, r, UpdateListenerFlow, listenerId) &&
                              UpdateDictKey in r.runs[0].store && r.runs[0].store[UpdateDictKey] == Updates(updates))
  {
    var extra := map[UpdateDictKey := Updates(updates)];
    assert UpdateDictKey in extra;
    ListenerOpWired(tables, failing, UpdateListenerFlow, listenerId, extra);
  }

  /** amphora_cert_rotation: an unknown amphora raises AttributeError; otherwise the flow runs on it and its own id. */
  lemma {:induction false} CertRotationStoresAmphora(tables: Tables, failing: set<FlowRun>, amphoraId: Value)
    requires Complete(tables)
    ensures var r := CertRotationRuns(tables, failing, amphoraId);
      && (r.runs != [] <==> RowById(tables, AmphoraT, amphoraId).Some?)
      && (r.runs == [] ==> r == Failed(AttributeError))
      && (r.runs != [] ==>
            && r.runs == [FlowRun(CertRotateFlow, r.runs[0].store)] && r.failure == (if r.runs[0] in failing then Some(FlowFailed) else None)
            && r.runs[0].store[AmphoraKey] == Entity(RowById(tables, AmphoraT, amphoraId))
            && r.runs[0].store[AmphoraIdKey] == Scalar(amphoraId))
  {
    var amp := RowById(tables, AmphoraT, amphoraId);
    if amp.Some? {
      Found(tables[AmphoraT], ID, amphoraId, amp.value);
    }
  }

  /** As written, failover_amphora raises AttributeError even for an amphora that exists, and runs no flow. */
  lemma {:induction false} FailoverAsWrittenNeverRuns(tables: Tables, failing: set<FlowRun>, i: nat)
    requires Complete(tables) && i < |tables[AmphoraT]|
    ensures var id := DictGet(tables[AmphoraT][i], ID);
      && FailoverRunsAsWritten(tables, id) == Failed(AttributeError)
      && |FailoverRuns(tables, failing, id).runs| == 1
  {
    var id := DictGet(tables[AmphoraT][i], ID);
    assert Matches(tables[AmphoraT][i], By(ID, id));
  }

  /**
   * failover_amphora as intended: an unknown amphora raises AttributeError;
   * otherwise the flow runs on the amphora and the id of a load balancer a
   * load_balancer_amphora link pairs it with (None when it has no link).
   */
  lemma {:induction false} FailoverStoresLoadBalancer(tables: Tables, failing: set<FlowRun>, amphoraId: Value)
    requires Complete(tables)
    ensures var r := FailoverRuns(tables, failing, amphoraId);
      && (r.runs != [] <==> RowById(tables, AmphoraT, amphoraId).Some?)
      && (r.runs == [] ==> r == Failed(AttributeError))
      && (r.runs != [] ==>
            && |r.runs| == 1 && r.runs[0].flow == FailoverFlow && r.failure == (if r.runs[0] in failing then Some(FlowFailed) else None)
            && r.runs[0].store[AmphoraKey] == Entity(RowById(tables, AmphoraT, amphoraId))
            && LoadBalancerIdKey in r.runs[0].store && r.runs[0].store[LoadBalancerIdKey].Scalar?
            && var lbId := r.runs[0].store[LoadBalancerIdKey].v;
               && (lbId == VNone || exists link :: link in tables[LoadBalancerAmphoraT] &&
                                        DictGet(link, AMPHORA_ID) == amphoraId && DictGet(link, LOAD_BALANCER_ID) == lbId))
  {
    var amp := RowById(tables, AmphoraT, amphoraId);
    if amp.Some? {
      Found(tables[AmphoraT], ID, amphoraId, amp.value);
      var link := Related(tables, LoadBalancerAmphoraT, AMPHORA_ID, amphoraId);
      if link.Some? {
        Found(tables[LoadBalancerAmphoraT], AMPHORA_ID, amphoraId, link.value);
      }
    }
  }

  // ---------------------------------------------------- the tree, counted

  /** How many runs' flows satisfy `p`. */
  function Count(runs: seq<FlowRun>, p: Flow -> bool): nat
  {
    if runs == [] then 0
    else Count(runs[..|runs| - 1], p) + (if p(runs[|runs| - 1].flow) then 1 else 0)
  }

  predicate CreatesListener(f: Flow) { f.CreateListenerFlow? }

  predicate CreatesMember(f: Flow) { f.CreateMemberFlow? }

  lemma {:induction false} CountAppend(a: seq<FlowRun>, b: seq<FlowRun>, p: Flow -> bool)
    ensures Count(a + b, p) == Count(a, p) + Count(b, p)
    decreases |b|
  {
    if b == [] {
      assert a + b == a;
    } else {
      assert (a + b)[..|a + b| - 1] == a + b[..|b| - 1];
      CountAppend(a, b[..|b| - 1], p);
    }
  }

  /** The members of a listener's default pool; none without one. */
  function DefaultPoolSize(tables: Tables, listener: Row): nat
    requires Complete(tables)
  {
    match DefaultPoolOf(tables, listener)
    case None => 0
    case Some(pool) => |MembersOf(tables, pool)|
  }

  /** The members of the default pools of all the listeners. */
  function TreeMemberCount(tables: Tables, listeners: seq<Row>): nat
    requires Complete(tables)
  {
    if listeners == [] then 0
    else TreeMemberCount(tables, listeners[..|listeners| - 1]) + DefaultPoolSize(tables, listeners[|listeners| - 1])
  }

  /** A completed member loop: the loop over all but the last member completed, then create_member ran once on the last one. */
  lemma {:induction false} CompletedMemberRunsSplit(tables: Tables, failing: set<FlowRun>, members: seq<Row>)
    requires Complete(tables) && members != [] && MemberRuns(tables, failing, members).failure.None?
    ensures var init := MemberRuns(tables, failing, members[..|members| - 1]);
      var last := CreateMemberRuns(tables, failing, DictGet(members[|members| - 1], ID), true);
      && init.failure.None? && last.failure.None?
      && MemberRuns(tables, failing, members).runs == init.runs + last.runs
      && |last.runs| == 1 && last.runs[0].flow == CreateMemberFlow(true) && MemberKey in last.runs[0].store
      && last.runs[0].store[MemberKey] == Entity(RowById(tables, MemberT, DictGet(members[|members| - 1], ID)))
  {
    var m := RowById(tables, MemberT, DictGet(members[|members| - 1], ID));
    ChildRunsWired(tables, failing, CreateMemberFlow(true), MemberKey, m, PoolOf(tables, m), true, map[]);
  }

  /** The k-th run is create_member (full tree) on the k-th member, for every member and nothing else. */
  ghost predicate CreatesEachMember(tables: Tables, runs: seq<FlowRun>, members: seq<Row>)
    requires Complete(tables)
  {
    && |runs| == |members|
    && forall k :: 0 <= k < |runs| ==>
         runs[k].flow == CreateMemberFlow(true) &&
         MemberKey in runs[k].store && runs[k].store[MemberKey] == Entity(RowById(tables, MemberT, DictGet(members[k], ID)))
  }

  lemma {:induction false} CreatesEachMemberAppend(tables: Tables, runs: seq<FlowRun>, members: seq<Row>, run: seq<FlowRun>)
    requires Complete(tables) && members != [] && CreatesEachMember(tables, runs, members[..|members| - 1])
    requires |run| == 1 && run[0].flow == CreateMemberFlow(true) && MemberKey in run[0].store
    requires run[0].store[MemberKey] == Entity(RowById(tables, MemberT, DictGet(members[|members| - 1], ID)))
    ensures CreatesEachMember(tables, runs + run, members)
  {
    var all := runs + run;
    var init := members[..|members| - 1];
    forall k | 0 <= k < |all|
      ensures all[k].flow == CreateMemberFlow(true) && MemberKey in all[k].store &&
              all[k].store[MemberKey] == Entity(RowById(tables, MemberT, DictGet(members[k], ID)))
    {
      if k < |runs| {
        assert all[k] == runs[k] && members[k] == init[k];
      } else {
        assert all[k] == run[0];
      }
    }
  }

  /** The member loop that completes runs create_member once per member, in the pool's order. */
  lemma {:induction false} MemberRunsInOrder(tables: Tables, failing: set<FlowRun>, members: seq<Row>)
    requires Complete(tables) && MemberRuns(tables, failing, members).failure.None?
    ensures var runs := MemberRuns(tables, failing, members).runs;
      && CreatesEachMember(tables, runs, members)
      && Count(runs, CreatesMember) == |members| && Count(runs, CreatesListener) == 0
    decreases |members|
  {
    if members != [] {
      var init := members[..|members| - 1];
      var last := CreateMemberRuns(tables, failing, DictGet(members[|members| - 1], ID), true);
      CompletedMemberRunsSplit(tables, failing, members);
      MemberRunsInOrder(tables, failing, init);
      CountAppend(MemberRuns(tables, failing, init).runs, last.runs, CreatesMember);
      CountAppend(MemberRuns(tables, failing, init).runs, last.runs, CreatesListener);
      assert last.runs[..0] == [];
      CreatesEachMemberAppend(tables, MemberRuns(tables, failing, init).runs, members, last.runs);
    }
  }

  /** A completed listener subtree: create_listener ran once on the listener, then its members' loop completed. */
  lemma {:induction false} CompletedListenerSplit(tables: Tables, failing: set<FlowRun>, listener: Row)
    requires Complete(tables) && OneListenerRuns(tables, failing, listener).failure.None?
    ensures var first := CreateListenerRuns(tables, failing, DictGet(listener, ID), true);
      var rest := match DefaultPoolOf(tables, listener) case None => NoRuns case Some(pool) => MemberRuns(tables, failing, MembersOf(tables, pool));
      && first.failure.None? && rest.failure.None?
      && OneListenerRuns(tables, failing, listener).runs == first.runs + rest.runs
      && |first.runs| == 1 && first.runs[0].flow == CreateListenerFlow(true) && ListenerKey in first.runs[0].store
      && first.runs[0].store[ListenerKey] == Entity(RowById(tables, ListenerT, DictGet(listener, ID)))
  {
    ListenerOpWired(tables, failing, CreateListenerFlow(true), DictGet(listener, ID), map[]);
    var l := RowById(tables, ListenerT, DictGet(listener, ID));
    if l.Some? {
      Found(tables[ListenerT], ID, DictGet(listener, ID), l.value);
    }
  }

  /** One listener's subtree: create_listener first, then one create_member per member of its default pool, in order. */
  lemma {:induction false} OneListenerShape(tables: Tables, failing: set<FlowRun>, listener: Row)
    requires Complete(tables) && OneListenerRuns(tables, failing, listener).failure.None?
    ensures var runs := OneListenerRuns(tables, failing, listener).runs;
      && |runs| == 1 + DefaultPoolSize(tables, listener)
      && runs[0].flow == CreateListenerFlow(true)
      && runs[0].store[ListenerKey] == Entity(RowById(tables, ListenerT, DictGet(listener, ID)))
      && runs[1..] == (match DefaultPoolOf(tables, listener)
                       case None => []
                       case Some(pool) => MemberRuns(tables, failing, MembersOf(tables, pool)).runs)
      && Count(runs, CreatesListener) == 1 && Count(runs, CreatesMember) == DefaultPoolSize(tables, listener)
      && forall k :: 0 <= k < |runs| ==> runs[k].flow == CreateListenerFlow(true) || runs[k].flow == CreateMemberFlow(true)
  {
    var first := CreateListenerRuns(tables, failing, DictGet(listener, ID), true);
    var rest := match DefaultPoolOf(tables, listener) case None => NoRuns case Some(pool) => MemberRuns(tables, failing, MembersOf(tables, pool));
    CompletedListenerSplit(tables, failing, listener);
    if DefaultPoolOf(tables, listener).Some? {
      MemberRunsInOrder(tables, failing, MembersOf(tables, DefaultPoolOf(tables, listener).value));
    }
    assert first.runs == [first.runs[0]];
    LedCounts(first.runs[0], rest.runs);
  }

  /** A create_listener run ahead of runs that create no listener: one listener, and the members those runs create. */
  lemma {:induction false} LedCounts(first: FlowRun, rest: seq<FlowRun>)
    requires CreatesListener(first.flow) && !CreatesMember(first.flow) && Count(rest, CreatesListener) == 0
    ensures Count([first] + rest, CreatesListener) == 1
    ensures Count([first] + rest, CreatesMember) == Count(rest, CreatesMember)
  {
    CountAppend([first], rest, CreatesListener);
    CountAppend([first], rest, CreatesMember);
    assert [first][..0] == [];
  }

  /** The listener loop that completes runs create_listener once per listener and create_member once per member of their default pools, and nothing else. */
  lemma {:induction false} TreeCounts(tables: Tables, failing: set<FlowRun>, listeners: seq<Row>)
    requires Complete(tables) && ListenerRuns(tables, failing, listeners).failure.None?
    ensures var runs := ListenerRuns(tables, failing, listeners).runs;
      && Count(runs, CreatesListener) == |listeners|
      && Count(runs, CreatesMember) == TreeMemberCount(tables, listeners)
      && |runs| == |listeners| + TreeMemberCount(tables, listeners)
      && forall k :: 0 <= k < |runs| ==> runs[k].flow == CreateListenerFlow(true) || runs[k].flow == CreateMemberFlow(true)
    decreases |listeners|
  {
    if listeners != [] {
      var init := listeners[..|listeners| - 1];
      var last := listeners[|listeners| - 1];
      TreeCounts(tables, failing, init);
      OneListenerShape(tables, failing, last);
      CountAppend(ListenerRuns(tables, failing, init).runs, OneListenerRuns(tables, failing, last).runs, CreatesListener);
      CountAppend(ListenerRuns(tables, failing, init).runs, OneListenerRuns(tables, failing, last).runs, CreatesMember);
    }
  }

  /**
   * _create_load_balancer_tree's runs: the create flow first; the
   * post-association flow second unless the create flow failed; and when
   * the whole tree returns normally, so did every listener subtree.
   */
  lemma {:induction false} TreeShape(tables: Tables, failing: set<FlowRun>, topology: string, store: Store, lb: Row)
    requires Complete(tables)
    ensures var r := TreeRuns(tables, failing, topology, store, lb);
      && |r.runs| >= 1
      && r.runs[0] == FlowRun(CreateLoadBalancerFlow(topology), store)
      && (r.runs[0] in failing ==> r == Runs([r.runs[0]], Some(FlowFailed)))
      && (r.runs[0] !in failing ==>
            |r.runs| >= 2 && r.runs[1] == FlowRun(PostLbAmpAssociationFlow(POST_ASSOCIATION_PREFIX, topology, true), store))
      && (r.failure.None? ==> ListenerRuns(tables, failing, ListenersOf(tables, lb)).failure.None?)
  {
  }

  /** A completed tree: the two load balancer flows, the completed listener subtrees, then finalize. */
  lemma {:induction false} CompletedTreeSplit(tables: Tables, failing: set<FlowRun>, topology: string, store: Store, lb: Row)
    requires Complete(tables) && TreeRuns(tables, failing, topology, store, lb).failure.None?
    ensures var body := ListenerRuns(tables, failing, ListenersOf(tables, lb));
      && body.failure.None?
      && TreeRuns(tables, failing, topology, store, lb).runs ==
           [FlowRun(CreateLoadBalancerFlow(topology), store)] +
           ([FlowRun(PostLbAmpAssociationFlow(POST_ASSOCIATION_PREFIX, topology, true), store)] +
            (body.runs + [FlowRun(FullTreeFinalizeFlow, map[LoadBalancerKey := Entity(Some(lb))])]))
  {
    var r0 := FlowRun(CreateLoadBalancerFlow(topology), store);
    var r1 := FlowRun(PostLbAmpAssociationFlow(POST_ASSOCIATION_PREFIX, topology, true), store);
    assert r0 !in failing && r1 !in failing;
  }

  /** A completed tree ends with finalize, after one create_listener per listener and one create_member per default-pool member. */
  lemma {:induction false} TreeCompletes(tables: Tables, failing: set<FlowRun>, topology: string, store: Store, lb: Row)
    requires Complete(tables) && TreeRuns(tables, failing, topology, store, lb).failure.None?
    ensures var r := TreeRuns(tables, failing, topology, store, lb);
      && r.runs[|r.runs| - 1] == FlowRun(FullTreeFinalizeFlow, map[LoadBalancerKey := Entity(Some(lb))])
      && Count(r.runs, CreatesListener) == |ListenersOf(tables, lb)|
      && Count(r.runs, CreatesMember) == TreeMemberCount(tables, ListenersOf(tables, lb))
  {
    var body := ListenerRuns(tables, failing, ListenersOf(tables, lb)).runs;
    CompletedTreeSplit(tables, failing, topology, store, lb);
    TreeCounts(tables, failing, ListenersOf(tables, lb));
    FramedCounts(FlowRun(CreateLoadBalancerFlow(topology), store),
                 FlowRun(PostLbAmpAssociationFlow(POST_ASSOCIATION_PREFIX, topology, true), store),
                 body, FlowRun(FullTreeFinalizeFlow, map[LoadBalancerKey := Entity(Some(lb))]));
  }

  /** Three runs that create neither a listener nor a member around `body` leave its counts as they are. */
  lemma {:induction false} FramedCounts(create: FlowRun, post: FlowRun, body: seq<FlowRun>, finalize: FlowRun)
    requires !CreatesListener(create.flow) && !CreatesMember(create.flow)
    requires !CreatesListener(post.flow) && !CreatesMember(post.flow)
    requires !CreatesListener(finalize.flow) && !CreatesMember(finalize.flow)
    ensures var runs := [create] + ([post] + (body + [finalize]));
      && runs[|runs| - 1] == finalize
      && Count(runs, CreatesListener) == Count(body, CreatesListener)
      && Count(runs, CreatesMember) == Count(body, CreatesMember)
  {
    var c, p, f := [create], [post], [finalize];
    CountAppend(body, f, CreatesListener);
    CountAppend(body, f, CreatesMember);
    CountAppend(p, body + f, CreatesListener);
    CountAppend(p, body + f, CreatesMember);
    CountAppend(c, p + (body + f), CreatesListener);
    CountAppend(c, p + (body + f), CreatesMember);
    assert c[..0] == [] && p[..0] == [] && f[..0] == [];
  }

  /**
   * create_load_balancer: an unknown load balancer raises AttributeError
   * before any flow. Otherwise it starts with the create flow on the
   * initial store and, unless that one fails, the post-association flow,
   * full-tree exactly when the load balancer has listeners. Without
   * listeners that is all; with them, when the whole tree completes the
   * finalize flow on the load balancer ends the run, after one
   * create_listener per listener and one create_member per member of their
   * default pools.
   */
  lemma {:induction false} CreateLoadBalancerShape(tables: Tables, failing: set<FlowRun>, topology: string, lbId: Value)
    requires Complete(tables)
    ensures RowById(tables, LoadBalancerT, lbId).None? ==> CreateLoadBalancerRuns(tables, failing, topology, lbId) == Failed(AttributeError)
    ensures RowById(tables, LoadBalancerT, lbId).Some? ==>
      var lb := RowById(tables, LoadBalancerT, lbId).value;
      var r := CreateLoadBalancerRuns(tables, failing, topology, lbId);
      var tree := ListenersOf(tables, lb) != [];
      && |r.runs| >= 1
      && r.runs[0] == FlowRun(CreateLoadBalancerFlow(topology), InitialStore(lbId, topology))
      && (r.runs[0] !in failing ==>
            |r.runs| >= 2 && r.runs[1] == FlowRun(PostLbAmpAssociationFlow(POST_ASSOCIATION_PREFIX, topology, tree), InitialStore(lbId, topology)))
      && (!tree ==> |r.runs| <= 2)
      && (tree && r.failure.None? ==>
            && r.runs[|r.runs| - 1] == FlowRun(FullTreeFinalizeFlow, map[LoadBalancerKey := Entity(Some(lb))])
            && Count(r.runs, CreatesListener) == |ListenersOf(tables, lb)|
            && Count(r.runs, CreatesMember) == TreeMemberCount(tables, ListenersOf(tables, lb)))
  {
    var lb := RowById(tables, LoadBalancerT, lbId);
    if lb.Some? && ListenersOf(tables, lb.value) != [] {
      TreeShape(tables, failing, topology, InitialStore(lbId, topology), lb.value);
      if CreateLoadBalancerRuns(tables, failing, topology, lbId).failure.None? {
        TreeCompletes(tables, failing, topology, InitialStore(lbId, topology), lb.value);
      }
    }
  }

  // ------------------------------------------------------ stopping at failure

  /**
   * Runs that stop at the first failed flow: no run comes after one that
   * failed, and FlowFailed is raised exactly when the last run failed.
   */
  ghost predicate StopsAtFailure(failing: set<FlowRun>, r: Runs)
  {
    && (forall k :: 0 <= k < |r.runs| - 1 ==> r.runs[k] !in failing)
    && (r.runs != [] ==> (r.runs[|r.runs| - 1] in failing <==> r.failure == Some(FlowFailed)))
    && (r.failure == Some(FlowFailed) ==> r.runs != [])
  }

  lemma {:induction false} ThenStops(failing: set<FlowRun>, a: Runs, b: Runs)
    requires StopsAtFailure(failing, a) && StopsAtFailure(failing, b)
    ensures StopsAtFailure(failing, Then(a, b))
  {
    if a.failure.None? {
      var r := Then(a, b);
      forall k | 0 <= k < |r.runs| - 1
        ensures r.runs[k] !in failing
      {
        if k < |a.runs| {
          assert r.runs[k] == a.runs[k];
        } else {
          assert r.runs[k] == b.runs[k - |a.runs|];
        }
      }
      if b.runs != [] {
        assert r.runs[|r.runs| - 1] == b.runs[|b.runs| - 1];
      }
    }
  }

  lemma {:induction false} ChildRunsStopAtFailure(tables: Tables, failing: set<FlowRun>, flow: Flow, key: StoreKey, entity: Option<Row>, pool: Option<Row>, assign: bool, extra: Store)
    requires Complete(tables)
    ensures StopsAtFailure(failing, ChildRuns(tables, failing, flow, key, entity, pool, assign, extra))
  {
  }

  lemma {:induction false} ListenerOpStopsAtFailure(tables: Tables, failing: set<FlowRun>, flow: Flow, listenerId: Value, extra: Store)
    requires Complete(tables)
    ensures StopsAtFailure(failing, ListenerOpRuns(tables, failing, flow, listenerId, extra))
  {
  }

  lemma {:induction false} MemberRunsStopAtFailure(tables: Tables, failing: set<FlowRun>, members: seq<Row>)
    requires Complete(tables)
    ensures StopsAtFailure(failing, MemberRuns(tables, failing, members))
    decreases |members|
  {
    if members != [] {
      MemberRunsStopAtFailure(tables, failing, members[..|members| - 1]);
      var m := RowById(tables, MemberT, DictGet(members[|members| - 1], ID));
      ChildRunsStopAtFailure(tables, failing, CreateMemberFlow(true), MemberKey, m, PoolOf(tables, m), true, map[]);
      ThenStops(failing, MemberRuns(tables, failing, members[..|members| - 1]),
                CreateMemberRuns(tables, failing, DictGet(members[|members| - 1], ID), true));
    }
  }

  lemma {:induction false} ListenerRunsStopAtFailure(tables: Tables, failing: set<FlowRun>, listeners: seq<Row>)
    requires Complete(tables)
    ensures StopsAtFailure(failing, ListenerRuns(tables, failing, listeners))
    decreases |listeners|
  {
    if listeners != [] {
      var last := listeners[|listeners| - 1];
      ListenerRunsStopAtFailure(tables, failing, listeners[..|listeners| - 1]);
      ListenerOpStopsAtFailure(tables, failing, CreateListenerFlow(true), DictGet(last, ID), map[]);
      var rest := match DefaultPoolOf(tables, last) case None => NoRuns case Some(pool) => MemberRuns(tables, failing, MembersOf(tables, pool));
      if DefaultPoolOf(tables, last).Some? {
        MemberRunsStopAtFailure(tables, failing, MembersOf(tables, DefaultPoolOf(tables, last).value));
      }
      ThenStops(failing, CreateListenerRuns(tables, failing, DictGet(last, ID), true), rest);
      ThenStops(failing, ListenerRuns(tables, failing, listeners[..|listeners| - 1]), OneListenerRuns(tables, failing, last));
    }
  }

  /**
   * create_load_balancer stops at the first flow that fails: every flow
   * before the last one it ran succeeded, and it raises FlowFailed exactly
   * when the last one failed.
   */
  lemma {:induction false} CreateLoadBalancerStopsAtFailure(tables: Tables, failing: set<FlowRun>, topology: string, lbId: Value)
    requires Complete(tables)
    ensures StopsAtFailure(failing, CreateLoadBalancerRuns(tables, failing, topology, lbId))
  {
    var store := InitialStore(lbId, topology);
    var lb := RowById(tables, LoadBalancerT, lbId);
    if lb.Some? {
      var create := Ran(failing, FlowRun(CreateLoadBalancerFlow(topology), store));
      if ListenersOf(tables, lb.value) != [] {
        var post := Ran(failing, FlowRun(PostLbAmpAssociationFlow(POST_ASSOCIATION_PREFIX, topology, true), store));
        var body := ListenerRuns(tables, failing, ListenersOf(tables, lb.value));
        var finalize := Ran(failing, FlowRun(FullTreeFinalizeFlow, map[LoadBalancerKey := Entity(Some(lb.value))]));
        ListenerRunsStopAtFailure(tables, failing, ListenersOf(tables, lb.value));
        ThenStops(failing, body, finalize);
        ThenStops(failing, post, Then(body, finalize));
        ThenStops(failing, create, Then(post, Then(body, finalize)));
      } else {
        ThenStops(failing, create, Ran(failing, FlowRun(PostLbAmpAssociationFlow(POST_ASSOCIATION_PREFIX, topology, false), store)));
      }
    }
  }
}
