// octavia/amphorae/backends/agent/api_server/plug.py: the amphora agent's
// plug_vip and plug_network. The host's interfaces, the IPv4 check and the
// outcome of each `ifup` are inputs; writing the interface file and running
// `ifdown`/`ifup` are recorded, in order, as effects on the host.

module Plug {
  import opened Values

  /** socket.AF_INET on Linux: the address family of an IPv4 address. */
  const AF_INET := 2
  /** The netmask every VIP is configured with: one fixed subnet size. */
  const NETMASK := "255.255.255.0"

  /** An interface as netifaces reports it: its name and the address families it has addresses in. */
  datatype Interface = Interface(name: string, families: set<int>)

  /** An HTTP response: the status and the JSON body's string fields. */
  datatype Response = Response(status: int, body: map<string, string>)

  /** The parameters the interface file's template is rendered with. */
  datatype Config =
    | VipConfig(interface: string, vip: string, broadcast: string, netmask: string)
    | PortConfig(interface: string)

  /** What the agent does to the host. */
  datatype Effect = WriteInterfaceFile(interface: string, config: Config) | IfDown(device: string) | IfUp(device: string)

  /** A response and the effects that led to it. */
  datatype Outcome = Outcome(response: Response, effects: seq<Effect>)

  const INVALID_VIP := Response(400, map["message" := "Invalid VIP"])
  const NO_INTERFACE := Response(404, map["details" := "No suitable network interface found"])

  /** The 500 a failed `ifup` raises, carrying the command's output. */
  function PlugError(what: string, output: string): Response
  {
    Response(500, map["message" := "Error plugging " + what, "details" := output])
  }

  /** The alias device `{interface}:0`. */
  function Alias(interface: string): string
  {
    interface + ":0"
  }

  // ---------------------------------------------------------- broadcast

  /** Python's `s.split('.')`: the pieces between the dots, empty ones included. */
  function Split(s: string): (parts: seq<string>)
    ensures |parts| >= 1
  {
    if s == [] then [""]
    else if s[0] == '.' then [""] + Split(s[1..])
    else
      var rest := Split(s[1..]);
      [[s[0]] + rest[0]] + rest[1..]
  }

  /** Python's `'.'.join(parts)`. */
  function Join(parts: seq<string>): string
    requires |parts| >= 1
  {
    if |parts| == 1 then parts[0] else parts[0] + "." + Join(parts[1..])
  }

  /** The broadcast address plug_vip writes: the first three sections of the VIP, then "255". */
  function Broadcast(vip: string): (r: string)
    ensures |r| >= 4 && r[|r| - 4..] == ".255"
  {
    var parts := Split(vip);
    var n := if |parts| < 3 then |parts| else 3;
    JoinAppend(parts[..n], "255");
    Join(parts[..n] + ["255"])
  }

  predicate NoDot(s: string)
  {
    forall k :: 0 <= k < |s| ==> s[k] != '.'
  }

  lemma {:induction false} JoinConsHead(c: char, parts: seq<string>)
    requires |parts| >= 1
    ensures Join([[c] + parts[0]] + parts[1..]) == [c] + Join(parts)
  {
    var q := [[c] + parts[0]] + parts[1..];
    if |parts| > 1 {
      assert q[1..] == parts[1..];
      var tail := Join(parts[1..]);
      calc {
        Join(q);
        q[0] + "." + Join(q[1..]);
        ([c] + parts[0]) + "." + tail;
        [c] + (parts[0] + "." + tail);
        [c] + Join(parts);
      }
    }
  }

  /** Splitting on the dots and joining with dots again gives the string back, and no piece holds a dot. */
  lemma {:induction false} SplitJoin(s: string)
    ensures Join(Split(s)) == s
    ensures forall k :: 0 <= k < |Split(s)| ==> NoDot(Split(s)[k])
    decreases |s|
  {
    if s != [] {
      SplitJoin(s[1..]);
      var rest := Split(s[1..]);
      if s[0] == '.' {
        assert ([""] + rest)[1..] == rest;
        assert s == "." + s[1..];
      } else {
        JoinConsHead(s[0], rest);
        assert s == [s[0]] + s[1..];
        forall k | 0 <= k < |Split(s)|
          ensures NoDot(Split(s)[k])
        {
          if k > 0 {
            assert Split(s)[k] == rest[k];
          }
        }
      }
    }
  }

  /** A dot-free head ends at the first dot. */
  lemma {:induction false} SplitAfter(head: string, rest: string)
    requires NoDot(head)
    ensures Split(head + "." + rest) == [head] + Split(rest)
    decreases |head|
  {
    if head == [] {
      assert head + "." + rest == "." + rest;
      assert ("." + rest)[1..] == rest;
    } else {
      var tail := head[1..];
      assert (head + "." + rest)[1..] == tail + "." + rest;
      SplitAfter(tail, rest);
      assert [head[0]] + tail == head;
    }
  }

  /** On a dotted quad a.b.c.d the broadcast address is a.b.c.255. */
  lemma {:induction false} BroadcastOfDottedQuad(a: string, b: string, c: string, d: string)
    requires NoDot(a) && NoDot(b) && NoDot(c) && NoDot(d)
    ensures Broadcast(a + "." + b + "." + c + "." + d) == a + "." + b + "." + c + ".255"
  {
    var cd := c + "." + d;
    var bcd := b + "." + cd;
    var abcd := a + "." + bcd;
    assert abcd == a + "." + b + "." + c + "." + d;
    SplitNoDot(d);
    SplitAfter(c, d);
    SplitAfter(b, cd);
    SplitAfter(a, bcd);
    assert Split(abcd) == [a, b, c, d];
    assert Split(abcd)[..3] + ["255"] == [a, b, c, "255"];
    Join4(a, b, c, "255");
    assert a + "." + b + "." + c + "." + "255" == a + "." + b + "." + c + ".255";
  }

  lemma {:induction false} Join4(a: string, b: string, c: string, d: string)
    ensures Join([a, b, c, d]) == a + "." + b + "." + c + "." + d
  {
    assert [a, b, c, d][1..] == [b, c, d];
    assert [b, c, d][1..] == [c, d];
    assert [c, d][1..] == [d];
    assert Join([c, d]) == c + "." + d;
    assert Join([b, c, d]) == b + "." + (c + "." + d);
    assert Join([a, b, c, d]) == a + "." + (b + "." + (c + "." + d));
  }

  /** A dot-free string is one piece. */
  lemma {:induction false} SplitNoDot(s: string)
    requires NoDot(s)
    ensures Split(s) == [s]
    decreases |s|
  {
    if s != [] {
      SplitNoDot(s[1..]);
      assert [s[0]] + s[1..] == s;
    }
  }

  /** Joining the first n pieces gives a prefix of the string, so the broadcast is a prefix of the VIP followed by ".255". */
  lemma {:induction false} JoinedPrefix(s: string, n: nat)
    requires 1 <= n <= |Split(s)|
    ensures Join(Split(s)[..n]) <= s
    decreases |s|
  {
    if s != [] {
      var rest := Split(s[1..]);
      if s[0] == '.' {
        if n > 1 {
          assert Split(s)[..n] == [""] + rest[..n - 1];
          assert (Split(s)[..n])[1..] == rest[..n - 1];
          JoinedPrefix(s[1..], n - 1);
        }
      } else {
        assert Split(s)[..n] == [[s[0]] + rest[0]] + rest[..n][1..];
        JoinConsHead(s[0], rest[..n]);
        JoinedPrefix(s[1..], n);
      }
    }
  }

  /** The broadcast address is a prefix of the VIP (up to its third dot) followed by ".255". */
  lemma {:induction false} BroadcastExtendsPrefix(vip: string)
    ensures |Broadcast(vip)| >= 4
    ensures Broadcast(vip)[..|Broadcast(vip)| - 4] <= vip
    ensures Broadcast(vip) == Broadcast(vip)[..|Broadcast(vip)| - 4] + ".255"
  {
    var parts := Split(vip);
    var n := if |parts| < 3 then |parts| else 3;
    JoinedPrefix(vip, n);
    JoinAppend(parts[..n], "255");
    var head := Join(parts[..n]);
    assert Broadcast(vip) == head + ".255";
    assert Broadcast(vip)[..|Broadcast(vip)| - 4] == head;
  }

  lemma {:induction false} JoinAppend(parts: seq<string>, last: string)
    requires |parts| >= 1
    ensures Join(parts + [last]) == Join(parts) + "." + last
    decreases |parts|
  {
    if |parts| > 1 {
      assert (parts + [last])[1..] == parts[1..] + [last];
      JoinAppend(parts[1..], last);
    }
  }

  // ---------------------------------------------------- the down interface

  predicate HasInet(i: Interface)
  {
    AF_INET in i.families
  }

  /** The names of the interfaces with no IPv4 address, in the order netifaces lists them. */
  function DownNames(interfaces: seq<Interface>): (r: seq<string>)
    ensures |r| <= |interfaces|
    ensures forall n :: n in r ==> exists i :: 0 <= i < |interfaces| && !HasInet(interfaces[i]) && interfaces[i].name == n
  {
    if interfaces == [] then []
    else
      var last := interfaces[|interfaces| - 1];
      DownNames(interfaces[..|interfaces| - 1]) + (if HasInet(last) then [] else [last.name])
  }

  /** _interface_down: the one interface without an IPv4 address; None when it raises the 404. */
  function InterfaceDown(interfaces: seq<Interface>): (r: Option<string>)
    ensures r.Some? ==> exists i :: 0 <= i < |interfaces| && !HasInet(interfaces[i]) && interfaces[i].name == r.value
    ensures interfaces == [] ==> r.None?
  {
    var down := DownNames(interfaces);
    if |down| != 1 then None else assert down[0] in down; Some(down[0])
  }

  /** Interface `i` is the only one without an IPv4 address. */
  predicate OnlyDown(interfaces: seq<Interface>, i: int)
  {
    0 <= i < |interfaces| && !HasInet(interfaces[i]) &&
    forall j :: 0 <= j < |interfaces| && j != i ==> HasInet(interfaces[j])
  }

  lemma {:induction false} NoneDown(interfaces: seq<Interface>)
    ensures DownNames(interfaces) == [] <==> forall j :: 0 <= j < |interfaces| ==> HasInet(interfaces[j])
    decreases |interfaces|
  {
    if interfaces != [] {
      var init := interfaces[..|interfaces| - 1];
      NoneDown(init);
      assert forall j :: 0 <= j < |init| ==> init[j] == interfaces[j];
    }
  }

  /** An interface with an IPv4 address at the end changes nothing about which interface is alone without one. */
  lemma {:induction false} OnlyDownWithInet(interfaces: seq<Interface>)
    requires interfaces != [] && HasInet(interfaces[|interfaces| - 1])
    ensures forall i :: OnlyDown(interfaces, i) <==> OnlyDown(interfaces[..|interfaces| - 1], i)
  {
    var init := interfaces[..|interfaces| - 1];
    assert forall j :: 0 <= j < |init| ==> init[j] == interfaces[j];
  }

  /** An interface without an IPv4 address at the end is alone in lacking one exactly when all before it have one. */
  lemma {:induction false} OnlyDownWithoutInet(interfaces: seq<Interface>)
    requires interfaces != [] && !HasInet(interfaces[|interfaces| - 1])
    ensures forall i :: OnlyDown(interfaces, i) <==>
      i == |interfaces| - 1 && forall j :: 0 <= j < |interfaces| - 1 ==> HasInet(interfaces[j])
  {
  }

  /**
   * _interface_down finds an interface exactly when one interface alone
   * lacks an IPv4 address, and then it is that one; with none or several
   * it raises the 404.
   */
  lemma {:induction false} InterfaceDownUnique(interfaces: seq<Interface>)
    ensures InterfaceDown(interfaces).Some? <==> exists i :: OnlyDown(interfaces, i)
    ensures forall i :: OnlyDown(interfaces, i) ==> InterfaceDown(interfaces) == Some(interfaces[i].name)
    decreases |interfaces|
  {
    if interfaces != [] {
      var n := |interfaces|;
      var init, last := interfaces[..n - 1], interfaces[n - 1];
      InterfaceDownUnique(init);
      if HasInet(last) {
        assert DownNames(interfaces) == DownNames(init);
        OnlyDownWithInet(interfaces);
        if InterfaceDown(interfaces).Some? {
          var i :| OnlyDown(init, i);
          assert OnlyDown(interfaces, i);
        }
      } else {
        NoneDown(init);
        assert forall j :: 0 <= j < |init| ==> init[j] == interfaces[j];
        assert DownNames(interfaces) == DownNames(init) + [last.name];
        OnlyDownWithoutInet(interfaces);
        if DownNames(init) == [] {
          assert OnlyDown(interfaces, n - 1);
        }
      }
    }
  }

  // -------------------------------------------------------------- plugging

  /** `ifup` of each device in the order given, stopping at the first that fails. */
  function IfUps(devices: seq<string>, ifupFailures: map<string, string>, what: string): (r: (Option<Response>, seq<Effect>))
    ensures 1 <= |r.1| <= |devices| || (devices == [] && r.1 == [])
    ensures forall k :: 0 <= k < |r.1| ==> r.1[k] == IfUp(devices[k])
    ensures forall k :: 0 <= k < |r.1| - 1 ==> devices[k] !in ifupFailures
    ensures r.0.None? <==> forall k :: 0 <= k < |devices| ==> devices[k] !in ifupFailures
    ensures r.0.None? ==> |r.1| == |devices|
    ensures r.0.Some? ==> devices[|r.1| - 1] in ifupFailures && r.0.value == PlugError(what, ifupFailures[devices[|r.1| - 1]])
  {
    if devices == [] then (None, [])
    else if devices[0] in ifupFailures then (Some(PlugError(what, ifupFailures[devices[0]])), [IfUp(devices[0])])
    else
      var (err, rest) := IfUps(devices[1..], ifupFailures, what);
      (err, [IfUp(devices[0])] + rest)
  }

  /** The `ifup` of one device. */
  lemma {:induction false} IfUpsOne(device: string, ifupFailures: map<string, string>, what: string)
    ensures IfUps([device], ifupFailures, what) ==
      (if device in ifupFailures then Some(PlugError(what, ifupFailures[device])) else None, [IfUp(device)])
  {
    assert [device][1..] == [];
    assert [IfUp(device)] + [] == [IfUp(device)];
  }

  /** The `ifup` of two devices: the second is tried only when the first succeeded. */
  lemma {:induction false} IfUpsTwo(first: string, second: string, ifupFailures: map<string, string>, what: string)
    ensures IfUps([first, second], ifupFailures, what) ==
      if first in ifupFailures then (Some(PlugError(what, ifupFailures[first])), [IfUp(first)])
      else (if second in ifupFailures then Some(PlugError(what, ifupFailures[second])) else None, [IfUp(first), IfUp(second)])
  {
    assert [first, second][1..] == [second];
    IfUpsOne(second, ifupFailures, what);
    assert [IfUp(first)] + [IfUp(second)] == [IfUp(first), IfUp(second)];
  }

  /** plug_vip's outcome on a host: `accepted` is whether socket.inet_aton took the VIP. */
  function PlugVipOutcome(interfaces: seq<Interface>, ifupFailures: map<string, string>, vip: string, accepted: bool): (r: Outcome)
    ensures !accepted ==> r == Outcome(INVALID_VIP, [])
    ensures r.effects == [] <==> !accepted || InterfaceDown(interfaces).None?
    ensures r.response.status in {202, 400, 404, 500}
    ensures r.response.status == 202 ==> |r.effects| == 5
  {
    if !accepted then Outcome(INVALID_VIP, [])
    else match InterfaceDown(interfaces)
      case None => Outcome(NO_INTERFACE, [])
      case Some(i) => PlugVipOnOutcome(i, ifupFailures, vip)
  }

  /** plug_vip once interface `i` was found: write its file, take it and its alias down, then up. */
  function PlugVipOnOutcome(i: string, ifupFailures: map<string, string>, vip: string): (r: Outcome)
    ensures r.response.status in {202, 500}
    ensures 4 <= |r.effects| <= 5
    ensures r.response.status == 202 ==> |r.effects| == 5
  {
    var before := [WriteInterfaceFile(i, VipConfig(i, vip, Broadcast(vip), NETMASK)), IfDown(i), IfDown(Alias(i))];
    var (err, ups) := IfUps([i, Alias(i)], ifupFailures, "VIP");
    var ok := Response(202, map["message" := "OK", "details" := "VIP " + vip + " plugged on interface " + i]);
    Outcome(if err.Some? then err.value else ok, before + ups)
  }

  /** plug_network's outcome on a host. */
  function PlugNetworkOutcome(interfaces: seq<Interface>, ifupFailures: map<string, string>): (r: Outcome)
    ensures r.effects == [] <==> InterfaceDown(interfaces).None?
    ensures r.response.status in {202, 404, 500}
    ensures r.response.status == 202 ==> |r.effects| == 3
  {
    match InterfaceDown(interfaces)
    case None => Outcome(NO_INTERFACE, [])
    case Some(i) =>
      var before := [WriteInterfaceFile(i, PortConfig(i)), IfDown(Alias(i))];
      var (err, ups) := IfUps([Alias(i)], ifupFailures, "network");
      var ok := Response(202, map["message" := "OK", "details" := "Plugged on interface " + i]);
      Outcome(if err.Some? then err.value else ok, before + ups)
  }

  /** The amphora's network stack as the agent sees it. */
  class Host {
    const interfaces: seq<Interface>
    /** The devices whose `ifup` exits non-zero, with the output it prints. */
    const ifupFailures: map<string, string>
    /** Every file write and command, in order. */
    var effects: seq<Effect>

    constructor(interfaces: seq<Interface>, ifupFailures: map<string, string>)
      ensures this.interfaces == interfaces && this.ifupFailures == ifupFailures && effects == []
    {
      this.interfaces := interfaces;
      this.ifupFailures := ifupFailures;
      effects := [];
    }

    /** _bring_if_down: a failure is ignored. */
    method BringIfDown(device: string)
      modifies this
      ensures effects == old(effects) + [IfDown(device)]
    {
      effects := effects + [IfDown(device)];
    }

    /** _bring_if_up: a failure raises the 500 naming `what`. */
    method BringIfUp(device: string, what: string) returns (err: Option<Response>)
      modifies this
      ensures effects == old(effects) + [IfUp(device)]
      ensures err == (if device in ifupFailures then Some(PlugError(what, ifupFailures[device])) else None)
    {
      effects := effects + [IfUp(device)];
      if device in ifupFailures {
        return Some(PlugError(what, ifupFailures[device]));
      }
      err := None;
    }

    method WriteFile(interface: string, config: Config)
      modifies this
      ensures effects == old(effects) + [WriteInterfaceFile(interface, config)]
    {
      effects := effects + [WriteInterfaceFile(interface, config)];
    }

    /** _interface_down's list comprehension and check. */
    method FindInterfaceDown() returns (r: Option<string>)
      ensures r == InterfaceDown(interfaces)
    {
      var down: seq<string> := [];
      var k := 0;
      while k < |interfaces|
        invariant 0 <= k <= |interfaces|
        invariant down == DownNames(interfaces[..k])
      {
        assert interfaces[..k + 1][..k] == interfaces[..k];
        if AF_INET !in interfaces[k].families {
          down := down + [interfaces[k].name];
        }
        k := k + 1;
      }
      assert interfaces[..k] == interfaces;
      if |down| != 1 {
        return None;
      }
      r := Some(down[0]);
    }

    method PlugVip(vip: string, accepted: bool) returns (r: Response)
      modifies this
      ensures old(effects) <= effects
      ensures Outcome(r, effects[|old(effects)|..]) == PlugVipOutcome(interfaces, ifupFailures, vip, accepted)
    {
      if !accepted {
        return INVALID_VIP;
      }
      var interface := FindInterfaceDown();
      if interface.None? {
        return NO_INTERFACE;
      }
      r := PlugVipOn(interface.value, vip);
    }

    method PlugVipOn(i: string, vip: string) returns (r: Response)
      modifies this
      ensures old(effects) <= effects
      ensures Outcome(r, effects[|old(effects)|..]) == PlugVipOnOutcome(i, ifupFailures, vip)
    {
      ghost var start := effects;
      IfUpsTwo(i, Alias(i), ifupFailures, "VIP");
      var sections := Split(vip);
      sections := sections[..if |sections| < 3 then |sections| else 3] + ["255"];
      var broadcast := Join(sections);
      assert broadcast == Broadcast(vip);
      ghost var before := [WriteInterfaceFile(i, VipConfig(i, vip, broadcast, NETMASK)), IfDown(i), IfDown(Alias(i))];
      WriteFile(i, VipConfig(i, vip, broadcast, NETMASK));
      BringIfDown(i);
      BringIfDown(Alias(i));
      var err := BringIfUp(i, "VIP");
      assert effects == start + (before + [IfUp(i)]);
      if err.Some? {
        return err.value;
      }
      err := BringIfUp(Alias(i), "VIP");
      assert effects == start + (before + [IfUp(i), IfUp(Alias(i))]);
      if err.Some? {
        return err.value;
      }
      r := Response(202, map["message" := "OK", "details" := "VIP " + vip + " plugged on interface " + i]);
    }

    method PlugNetwork() returns (r: Response)
      modifies this
      ensures old(effects) <= effects
      ensures Outcome(r, effects[|old(effects)|..]) == PlugNetworkOutcome(interfaces, ifupFailures)
    {
      var interface := FindInterfaceDown();
      if interface.None? {
        return NO_INTERFACE;
      }
      var i := interface.value;
      IfUpsOne(Alias(i), ifupFailures, "network");
      WriteFile(i, PortConfig(i));
      BringIfDown(Alias(i));
      var err := BringIfUp(Alias(i), "network");
      if err.Some? {
        return err.value;
      }
      r := Response(202, map["message" := "OK", "details" := "Plugged on interface " + i]);
    }
  }

  // ------------------------------------------------------------ properties

  /**
   * plug_vip: a VIP the IPv4 check rejects gets a 400 and nothing else
   * happens; with no single down interface, a 404 and nothing else.
   * Otherwise the interface file is written first with the VIP, its
   * broadcast address and the fixed netmask; then the interface and its
   * alias go down, then up, in that order; the answer is 202 exactly when
   * neither `ifup` failed, and a failed `ifup` of the interface skips its
   * alias's.
   */
  lemma {:induction false} PlugVipOrder(interfaces: seq<Interface>, ifupFailures: map<string, string>, vip: string, accepted: bool)
    ensures var o := PlugVipOutcome(interfaces, ifupFailures, vip, accepted);
      && (!accepted ==> o == Outcome(Response(400, map["message" := "Invalid VIP"]), []))
      && (accepted && InterfaceDown(interfaces).None? ==> o.response.status == 404 && o.effects == [])
      && (accepted && InterfaceDown(interfaces).Some? ==>
            var i := InterfaceDown(interfaces).value;
            && 4 <= |o.effects| <= 5
            && o.effects[..4] == [WriteInterfaceFile(i, VipConfig(i, vip, Broadcast(vip), "255.255.255.0")),
                                 IfDown(i), IfDown(i + ":0"), IfUp(i)]
            && (|o.effects| == 5 <==> i !in ifupFailures)
            && (|o.effects| == 5 ==> o.effects[4] == IfUp(i + ":0"))
            && (o.response.status == 202 <==> i !in ifupFailures && i + ":0" !in ifupFailures)
            && (o.response.status != 202 ==> o.response.status == 500))
  {
    if accepted && InterfaceDown(interfaces).Some? {
      var i := InterfaceDown(interfaces).value;
      IfUpsTwo(i, Alias(i), ifupFailures, "VIP");
    }
  }

  /**
   * plug_network: a 404 and nothing else without a single down interface;
   * otherwise the port file is written, the alias goes down and then up,
   * and the answer is 202 exactly when that `ifup` succeeded.
   */
  lemma {:induction false} PlugNetworkOrder(interfaces: seq<Interface>, ifupFailures: map<string, string>)
    ensures var o := PlugNetworkOutcome(interfaces, ifupFailures);
      && (InterfaceDown(interfaces).None? ==> o.response.status == 404 && o.effects == [])
      && (InterfaceDown(interfaces).Some? ==>
            var i := InterfaceDown(interfaces).value;
            && o.effects == [WriteInterfaceFile(i, PortConfig(i)), IfDown(i + ":0"), IfUp(i + ":0")]
            && (o.response.status == 202 <==> i + ":0" !in ifupFailures)
            && (o.response.status != 202 ==> o.response == PlugError("network", ifupFailures[i + ":0"])))
  {
    if InterfaceDown(interfaces).Some? {
      IfUpsOne(Alias(InterfaceDown(interfaces).value), ifupFailures, "network");
    }
  }
}
