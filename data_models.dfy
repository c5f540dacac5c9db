// octavia/common/data_models.py: the plain objects the repositories hand to
// the API and the worker. Every constructor stores each of its keyword
// arguments as an attribute; a few collections default to []. to_dict copies
// the attributes that are neither private nor a single related object.

module DataModels {
  import opened Values

  /** An attribute of a data model holds a plain value, one related data model, or a list of them. */
  datatype Attr = Plain(v: Value) | Child(m: DataModel) | Children(ms: seq<DataModel>)

  /** Python truthiness of an attribute value; an object is always true. */
  predicate AttrTruthy(a: Attr)
  {
    match a
    case Plain(v) => Truthy(v)
    case Child(_) => true
    case Children(ms) => ms != []
  }

  datatype Kind =
    | IPAllocationK | PortK | SessionPersistenceK | ListenerStatisticsK | HealthMonitorK
    | PoolK | MemberK | ListenerK | LoadBalancerK | SniK | ContainerK

  /** The keyword parameters of each constructor, in declaration order. */
  function Params(k: Kind): (r: seq<string>)
    ensures forall i :: 0 <= i < |r| ==> !Private(r[i])
  {
    match k
    case IPAllocationK => ["port_id", "ip_address", "subnet_id", "network_id"]
    case PortK => ["id", "tenant_id", "name", "network_id", "mac_address", "admin_state_up", "status",
                   "device_id", "device_owner", "fixed_ips"]
    case SessionPersistenceK => ["pool_id", "type", "cookie_name", "pool"]
    case ListenerStatisticsK => ["listener_id", "bytes_in", "bytes_out", "active_connections",
                                 "total_connections", "listener"]
    case HealthMonitorK => ["id", "tenant_id", "type", "delay", "timeout", "max_retries", "http_method",
                            "url_path", "expected_codes", "enabled", "pool"]
    case PoolK => ["id", "tenant_id", "name", "description", "health_monitor_id", "protocol", "lb_algorithm",
                   "enabled", "operating_status", "members", "health_monitor", "session_persistence", "listener"]
    case MemberK => ["id", "tenant_id", "pool_id", "address", "protocol_port", "weight", "enabled",
                     "subnet_id", "operating_status", "pool"]
    case ListenerK => ["id", "tenant_id", "name", "description", "default_pool_id", "load_balancer_id",
                       "protocol", "protocol_port", "connection_limit", "enabled", "provisioning_status",
                       "operating_status", "default_tls_container_id", "stats", "default_pool",
                       "load_balancer", "sni_containers"]
    case LoadBalancerK => ["id", "tenant_id", "name", "description", "vip_subnet_id", "vip_port_id",
                           "vip_address", "provisioning_status", "operating_status", "enabled",
                           "listeners", "containers"]
    case SniK => ["listener_id", "position", "listener", "tls_container_id"]
    case ContainerK => ["id", "host_id", "status", "load_balancers"]
  }

  /** The collections a constructor stores as `value or []`. */
  function ListDefaults(k: Kind): set<string>
  {
    match k
    case PortK => {"fixed_ips"}
    case PoolK => {"members"}
    case LoadBalancerK => {"listeners", "containers"}
    case _ => {}
  }

  /** The keyword argument `p`, None when not passed. */
  function Arg(kwargs: map<string, Attr>, p: string): Attr
  {
    if p in kwargs then kwargs[p] else Plain(VNone)
  }

  /** The constructor body: assign each parameter in turn, applying `or []` to the `listDefaults`. */
  method AssignParams(params: seq<string>, listDefaults: set<string>, kwargs: map<string, Attr>) returns (a: map<string, Attr>)
    ensures forall p :: p in a <==> p in params
    ensures forall p :: p in a && p !in listDefaults ==> a[p] == Arg(kwargs, p)
    ensures forall p :: p in a && p in listDefaults ==>
      a[p] == if AttrTruthy(Arg(kwargs, p)) then Arg(kwargs, p) else Children([])
  {
    a := map[];
    for i := 0 to |params|
      invariant forall p :: p in a <==> p in params[..i]
      invariant forall p :: p in a && p !in listDefaults ==> a[p] == Arg(kwargs, p)
      invariant forall p :: p in a && p in listDefaults ==>
        a[p] == if AttrTruthy(Arg(kwargs, p)) then Arg(kwargs, p) else Children([])
    {
      var p := params[i];
      var given := Arg(kwargs, p);
      assert params[..i + 1] == params[..i] + [p];
      if p in listDefaults && !AttrTruthy(given) {
        a := a[p := Children([])];
      } else {
        a := a[p := given];
      }
    }
    assert params[..|params|] == params;
  }

  class DataModel {
    const kind: Kind
    /** The instance `__dict__`. */
    var attrs: map<string, Attr>

    /**
     * The constructors of data_models.py: every parameter becomes an
     * attribute holding its argument (None by default); the `or []`
     * collections hold [] for a falsy argument. An unknown keyword is a
     * TypeError in Python and is excluded here.
     */
    constructor (kind: Kind, kwargs: map<string, Attr>)
      requires forall p :: p in kwargs ==> p in Params(kind)
      ensures this.kind == kind
      ensures forall p :: p in attrs <==> p in Params(kind)
      ensures forall p :: p in attrs && p !in ListDefaults(kind) ==> attrs[p] == Arg(kwargs, p)
      ensures forall p :: p in attrs && p in ListDefaults(kind) ==>
        attrs[p] == if AttrTruthy(Arg(kwargs, p)) then Arg(kwargs, p) else Children([])
    {
      var a := AssignParams(Params(kind), ListDefaults(kind), kwargs);
      this.kind := kind;
      attrs := a;
    }

    /**
     * BaseDataModel.to_dict: every attribute except the private ones and
     * those holding a single data model, with its value as stored; lists
     * of related models are kept.
     */
    method ToDict() returns (r: map<string, Attr>)
      ensures forall k :: k in r <==> k in attrs && !Private(k) && !attrs[k].Child?
      ensures forall k :: k in r ==> r[k] == attrs[k]
    {
      r := map[];
      var rest := attrs.Keys;
      while rest != {}
        invariant rest <= attrs.Keys
        invariant forall k :: k in r <==> k in attrs && k !in rest && !Private(k) && !attrs[k].Child?
        invariant forall k :: k in r ==> r[k] == attrs[k]
        decreases rest
      {
        var k :| k in rest;
        rest := rest - {k};
        if Private(k) || attrs[k].Child? {
          continue;
        }
        r := r[k := attrs[k]];
      }
    }
  }
}
