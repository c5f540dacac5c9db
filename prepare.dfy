// octavia/db/prepare.py: the builders that stamp ids, parent ids and initial
// statuses onto a request dict before it is stored. Each builder assigns keys
// one by one and hands the dict back; here the dict is a value and the builder
// returns the updated one.

module Prepare {
  import opened Values

  const VIP := "vip"
  const SESSION_PERSISTENCE := "session_persistence"
  const SNI_CONTAINERS := "sni_containers"
  const TLS_TERMINATION := "tls_termination"

  /** `k` is present in `a` exactly when in `b`, with the same value. */
  predicate Agree(a: Dict, b: Dict, k: string)
  {
    (k in a <==> k in b) && (k in a ==> a[k] == b[k])
  }

  /** `r` differs from `d` at most in the keys `touched`. */
  ghost predicate OnlyTouched(d: Dict, r: Dict, touched: set<string>)
  {
    forall k :: k !in touched ==> Agree(d, r, k)
  }

  /** The id a builder leaves: a truthy `id` is kept, a missing or empty one is replaced by a fresh UUID. */
  predicate IdStamped(d: Dict, r: Dict, freshId: string)
  {
    ID in r &&
    (Truthy(DictGet(d, ID)) ==> r[ID] == d[ID]) &&
    (!Truthy(DictGet(d, ID)) ==> r[ID] == VStr(freshId))
  }

  /** `if not d.get('id'): d['id'] = generate_uuid()`. */
  method StampId(d: Dict, freshId: string) returns (r: Dict)
    ensures IdStamped(d, r, freshId)
    ensures OnlyTouched(d, r, {ID})
  {
    r := d;
    if !Truthy(DictGet(r, ID)) {
      r := r[ID := VStr(freshId)];
    }
  }

  /**
   * prepare.create_load_balancer. Assigning `load_balancer_id` into a truthy
   * `vip` that is not a dict raises TypeError.
   */
  method CreateLoadBalancer(lbDict: Dict, freshId: string) returns (r: Result<Dict>)
    ensures r.Err? <==> Truthy(DictGet(lbDict, VIP)) && !DictGet(lbDict, VIP).VDict?
    ensures r.Err? ==> r.error == TypeError
    ensures r.Ok? ==> IdStamped(lbDict, r.value, freshId)
    ensures r.Ok? ==> DictGet(r.value, PROVISIONING_STATUS) == PENDING_CREATE && DictGet(r.value, OPERATING_STATUS) == OFFLINE
    ensures r.Ok? && Truthy(DictGet(lbDict, VIP)) ==>
      (lbDict[VIP].VDict? && DictGet(r.value, VIP) == VDict(lbDict[VIP].entries[LOAD_BALANCER_ID := r.value[ID]]))
    ensures r.Ok? && !Truthy(DictGet(lbDict, VIP)) ==> Agree(lbDict, r.value, VIP)
    ensures r.Ok? ==> OnlyTouched(lbDict, r.value, {ID, VIP, PROVISIONING_STATUS, OPERATING_STATUS})
  {
    var d0 := StampId(lbDict, freshId);
    var d := d0;
    var vip := DictGet(d, VIP);
    assert Agree(lbDict, d0, VIP);
    if Truthy(vip) {
      if !vip.VDict? {
        return Err(TypeError);
      }
      d := d[VIP := VDict(vip.entries[LOAD_BALANCER_ID := DictGet(d, ID)])];
    }
    d := d[PROVISIONING_STATUS := PENDING_CREATE];
    d := d[OPERATING_STATUS := OFFLINE];
    forall k | k !in {ID, VIP, PROVISIONING_STATUS, OPERATING_STATUS} ensures Agree(lbDict, d, k) {
      assert Agree(lbDict, d0, k);
    }
    return Ok(d);
  }

  /** The elements a `for` loop draws from a value: a list's items, a string's characters; None, a bool or an int is not iterable. */
  function Iterate(v: Value): (r: Option<seq<Value>>)
    requires !v.VDict?
    ensures r.None? <==> v.VNone? || v.VBool? || v.VInt?
    ensures v.VList? ==> r == Some(v.items)
    ensures v.VStr? ==> r.Some? && |r.value| == |v.s| && forall i :: 0 <= i < |v.s| ==> r.value[i] == VStr([v.s[i]])
  {
    match v
    case VList(items) => Some(items)
    case VStr(s) => Some(seq(|s|, i requires 0 <= i < |s| => VStr([s[i]])))
    case _ => None
  }

  /** The SNI rows of a listener: one `{listener_id, tls_container_id}` per container id, in order. */
  function SniRows(listenerId: Value, containerIds: seq<Value>): seq<Value>
  {
    seq(|containerIds|, i requires 0 <= i < |containerIds| =>
      VDict(map[LISTENER_ID := listenerId, TLS_CONTAINER_ID := containerIds[i]]))
  }

  /**
   * prepare.create_listener. `sni_containers` is popped with default [] and
   * iterated; a value that cannot be iterated raises TypeError.
   */
  method CreateListener(listenerDict: Dict, lbId: Value, freshId: string) returns (r: Result<Dict>)
    requires SNI_CONTAINERS in listenerDict ==> !listenerDict[SNI_CONTAINERS].VDict?
    ensures r.Err? <==> SNI_CONTAINERS in listenerDict && Iterate(listenerDict[SNI_CONTAINERS]).None?
    ensures r.Err? ==> r.error == TypeError
    ensures r.Ok? ==> IdStamped(listenerDict, r.value, freshId)
    ensures r.Ok? ==> DictGet(r.value, LOAD_BALANCER_ID) == lbId
    ensures r.Ok? ==> DictGet(r.value, PROVISIONING_STATUS) == PENDING_CREATE && DictGet(r.value, OPERATING_STATUS) == OFFLINE
    ensures r.Ok? ==> TLS_TERMINATION !in r.value
    ensures r.Ok? ==>
      var ids := if SNI_CONTAINERS in listenerDict then Iterate(listenerDict[SNI_CONTAINERS]).value else [];
      SNI_CONTAINERS in r.value && r.value[SNI_CONTAINERS].VList? &&
      |r.value[SNI_CONTAINERS].items| == |ids| &&
      forall i :: 0 <= i < |ids| ==>
        r.value[SNI_CONTAINERS].items[i] == VDict(map[LISTENER_ID := r.value[ID], TLS_CONTAINER_ID := ids[i]])
    ensures r.Ok? ==>
      OnlyTouched(listenerDict, r.value, {ID, LOAD_BALANCER_ID, PROVISIONING_STATUS, OPERATING_STATUS, TLS_TERMINATION, SNI_CONTAINERS})
  {
    var d0 := StampId(listenerDict, freshId);
    assert Agree(listenerDict, d0, SNI_CONTAINERS);
    var d := d0[LOAD_BALANCER_ID := lbId];
    d := d[PROVISIONING_STATUS := PENDING_CREATE];
    d := d[OPERATING_STATUS := OFFLINE];
    if TLS_TERMINATION in d {
      d := d - {TLS_TERMINATION};
    }
    var ids: seq<Value> := [];
    if SNI_CONTAINERS in d {
      var it := Iterate(d[SNI_CONTAINERS]);
      d := d - {SNI_CONTAINERS};
      if it.None? {
        return Err(TypeError);
      }
      ids := it.value;
    }
    d := d[SNI_CONTAINERS := VList(SniRows(DictGet(d, ID), ids))];
    forall k | k !in {ID, LOAD_BALANCER_ID, PROVISIONING_STATUS, OPERATING_STATUS, TLS_TERMINATION, SNI_CONTAINERS}
      ensures Agree(listenerDict, d, k)
    {
      assert Agree(listenerDict, d0, k);
    }
    return Ok(d);
  }

  /**
   * prepare.create_pool. A truthy session persistence gets the pool's id;
   * one that is not a dict raises TypeError. No provisioning status is set.
   */
  method CreatePool(poolDict: Dict, freshId: string) returns (r: Result<Dict>)
    ensures r.Err? <==> Truthy(DictGet(poolDict, SESSION_PERSISTENCE)) && !DictGet(poolDict, SESSION_PERSISTENCE).VDict?
    ensures r.Err? ==> r.error == TypeError
    ensures r.Ok? ==> IdStamped(poolDict, r.value, freshId)
    ensures r.Ok? ==> DictGet(r.value, OPERATING_STATUS) == OFFLINE
    ensures r.Ok? && Truthy(DictGet(poolDict, SESSION_PERSISTENCE)) ==>
      (poolDict[SESSION_PERSISTENCE].VDict? &&
       DictGet(r.value, SESSION_PERSISTENCE) == VDict(poolDict[SESSION_PERSISTENCE].entries[POOL_ID := r.value[ID]]))
    ensures r.Ok? && !Truthy(DictGet(poolDict, SESSION_PERSISTENCE)) ==> Agree(poolDict, r.value, SESSION_PERSISTENCE)
    ensures r.Ok? ==> Agree(poolDict, r.value, PROVISIONING_STATUS)
    ensures r.Ok? ==> OnlyTouched(poolDict, r.value, {ID, SESSION_PERSISTENCE, OPERATING_STATUS})
  {
    var d0 := StampId(poolDict, freshId);
    var d := d0;
    var sp := DictGet(d, SESSION_PERSISTENCE);
    assert Agree(poolDict, d0, SESSION_PERSISTENCE) && Agree(poolDict, d0, PROVISIONING_STATUS);
    if Truthy(sp) {
      if !sp.VDict? {
        return Err(TypeError);
      }
      d := d[SESSION_PERSISTENCE := VDict(sp.entries[POOL_ID := DictGet(d, ID)])];
    }
    d := d[OPERATING_STATUS := OFFLINE];
    forall k | k !in {ID, SESSION_PERSISTENCE, OPERATING_STATUS} ensures Agree(poolDict, d, k) {
      assert Agree(poolDict, d0, k);
    }
    return Ok(d);
  }

  /** prepare.create_member: the member belongs to `poolId` and starts OFFLINE. */
  method CreateMember(memberDict: Dict, poolId: Value) returns (r: Dict)
    ensures DictGet(r, POOL_ID) == poolId && DictGet(r, OPERATING_STATUS) == OFFLINE
    ensures Agree(memberDict, r, ID)
    ensures OnlyTouched(memberDict, r, {POOL_ID, OPERATING_STATUS})
  {
    r := memberDict[POOL_ID := poolId];
    r := r[OPERATING_STATUS := OFFLINE];
  }

  /** prepare.create_health_monitor: only `pool_id` is set; no id and no status. */
  method CreateHealthMonitor(hmDict: Dict, poolId: Value) returns (r: Dict)
    ensures DictGet(r, POOL_ID) == poolId
    ensures OnlyTouched(hmDict, r, {POOL_ID})
  {
    r := hmDict[POOL_ID := poolId];
  }
}
