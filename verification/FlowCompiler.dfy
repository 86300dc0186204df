/**
  The flow decomposer (rw_core/flowdecomposition/flow_decomposer.go) for rules whose packets come in at a UNI port:
  rules of a logical device become rules of its ONU and OLT devices.
*/
module FlowCompiler {
  import opened OpenFlow
  import opened Pipeline
  import opened RouteMaps

  /** What the decomposer asks others for. `first` is the NNI that the search for any NNI comes up with. */
  datatype Env = Env(net: Network, ports: Ports, routes: RouteMap, root: DeviceId, first: nat)

  /** The rules of one logical rule: at most one for a device. */
  type DeviceRules = map<DeviceId, Flow>

  // ----- Looking into rules -----

  /** The first in-port of a match, 0 without one. */
  function GetInPort(fields: seq<Field>): nat {
    if fields == [] then 0 else if fields[0].InPort? then fields[0].port else GetInPort(fields[1..])
  }

  /** The first output port of an action list, 0 without one. */
  function GetOutPort(actions: seq<Action>): nat {
    if actions == [] then 0 else if actions[0].Output? then actions[0].port else GetOutPort(actions[1..])
  }

  /** The first VLAN id of a match. */
  function GetVlanVid(fields: seq<Field>): Option<nat> {
    if fields == [] then None else if fields[0].VlanVid? then Some(fields[0].vid) else GetVlanVid(fields[1..])
  }

  /** The fields without in-ports and, on demand, without VLAN ids. */
  function Except(fields: seq<Field>, vlan: bool): (rest: seq<Field>)
    ensures forall f :: f in rest <==> f in fields && !f.InPort? && !(vlan && f.VlanVid?)
  {
    if fields == [] then []
    else
      assert fields == [fields[0]] + fields[1..];
      (if fields[0].InPort? || (vlan && fields[0].VlanVid?) then [] else [fields[0]]) + Except(fields[1..], vlan)
  }

  function WithoutOutputs(actions: seq<Action>): seq<Action> {
    if actions == [] then []
    else (if actions[0].Output? then [] else [actions[0]]) + WithoutOutputs(actions[1..])
  }

  function OutputsTo(actions: seq<Action>, port: nat): seq<Action> {
    if actions == [] then []
    else [if actions[0].Output? then Output(port) else actions[0]] + OutputsTo(actions[1..], port)
  }

  /** EAPOL, IGMP or UDP. */
  predicate IsTrapField(f: Field) { f == EthType(0x888e) || f == IpProto(2) || f == IpProto(17) }

  predicate HasTrapField(fields: seq<Field>) { exists i | 0 <= i < |fields| :: IsTrapField(fields[i]) }

  predicate IsController(port: nat) { port != 0 && Low31(port) == OFPP_CONTROLLER }

  // ----- Decomposing one rule -----

  function DeviceFlow(f: Flow, fields: seq<Field>, actions: seq<Action>): Flow {
    Flow(0, f.priority, 0, f.cookie, fields, actions, 0, f.meterId, f.writeMetadata, 0, 0)
  }

  function OnuFlow(hop: Hop, inPort: nat, f: Flow): Flow {
    DeviceFlow(f, [InPort(hop.ingress), TunnelId(inPort)] + Except(f.fields, false), f.actions + [Output(hop.egress)])
  }

  function OltFlow(hop: Hop, inPort: nat, f: Flow): Flow {
    DeviceFlow(f, [InPort(hop.ingress), TunnelId(inPort)] + Except(f.fields, false), WithoutOutputs(f.actions) + [Output(hop.egress)])
  }

  /** Upstream rules: the first table goes to the ONU, the second to the OLT; others become nothing. */
  function UpstreamRules(path: seq<Hop>, inPort: nat, outPort: nat, f: Flow): DeviceRules
    requires |path| == 2
  {
    if f.tableId == 0 && f.gotoTable != 0 then
      if outPort != 0 then map[] else map[path[0].device := OnuFlow(path[0], inPort, f)]
    else if f.tableId == 1 && outPort != 0 then
      map[path[1].device := OltFlow(path[1], inPort, f)]
    else map[]
  }

  const TRAP_VID := OFPVID_PRESENT + 4000

  function TrapParent(hop: Hop, inPort: nat, f: Flow): Flow {
    DeviceFlow(f, [InPort(hop.ingress), TunnelId(inPort)] + Except(f.fields, false),
               [PushVlan(0x8100), SetField(VlanVid(TRAP_VID)), Output(hop.egress)])
  }

  function TrapChild(hop: Hop, inPort: nat, f: Flow): Flow {
    var vid := GetVlanVid(f.fields);
    DeviceFlow(f, [InPort(hop.ingress), TunnelId(inPort)] + Except(f.fields, vid.Some?),
               (if vid.Some? then [PushVlan(0x8100), SetField(VlanVid(vid.value))] else []) + [Output(hop.egress)])
  }

  /** A rule that sends packets from a UNI to the controller: the ONU forwards them, the OLT tags them. */
  function TrapRules(path: seq<Hop>, inPort: nat, f: Flow): DeviceRules
    requires |path| == 2
  {
    map[path[1].device := TrapParent(path[1], inPort, f)][path[0].device := TrapChild(path[0], inPort, f)]
  }

  /** On the root device, rules on EAPOL, IGMP or UDP send to the controller instead. */
  function Redirected(f: Flow): Flow {
    if HasTrapField(f.fields) then f.(actions := OutputsTo(f.actions, OFPP_CONTROLLER)) else f
  }

  function RedirectedRules(rules: DeviceRules, root: DeviceId): DeviceRules {
    map d | d in rules :: if d == root then Redirected(rules[d]) else rules[d]
  }

  const NO_HOP := Hop("", 0, 0)

  /** The ONU's hop on every route from a UNI. */
  function FirstHop(env: Env, u: nat): Hop
    requires u in env.ports
  {
    match OnuPort(env.net, env.ports[u].device, env.root)
    case Some(q) => Hop(env.ports[u].device, env.ports[u].devicePort, q.portNo)
    case None => NO_HOP
  }

  predicate HasRouteFrom(routes: RouteMap, u: nat) { exists k | k in routes :: k.ingress == u }

  /** The route of packets from UNI `u` to `out`: to any NNI for the controller, and half a route without an output. */
  function UpRoute(env: Env, u: nat, out: nat): Option<seq<Hop>>
    requires u in env.ports
  {
    if IsController(out) && !IsRoot(env.ports, env.first) then None
    else
      var n := if IsController(out) then env.first else out;
      if n == 0 then
        if HasRouteFrom(env.routes, u) then Some([FirstHop(env, u), NO_HOP]) else None
      else if PathId(u, n) in env.routes then Some(env.routes[PathId(u, n)])
      else None
  }

  /** The rules that one logical rule becomes, or None for an error. */
  function Decomposed(env: Env, f: Flow): Option<DeviceRules>
    requires GetInPort(f.fields) in env.ports
  {
    var u, out := GetInPort(f.fields), GetOutPort(f.actions);
    match UpRoute(env, u, out)
    case None => None
    case Some(path) =>
      if |path| != 2 then None
      else if IsController(out) then Some(RedirectedRules(TrapRules(path, u, f), env.root))
      else if path[0].device !in env.net then None
      else Some(RedirectedRules(UpstreamRules(path, u, out, f), env.root))
  }

  /** The logical device is in order: good routes over symmetric links, all NNIs on the root device, all UNIs elsewhere. */
  ghost predicate EnvOk(env: Env) {
    && Base(env.net, env.ports) && Good(env.net, env.routes, env.ports) && Linked(env.net, env.ports)
    && (forall n | n in env.ports :: 0 < n && !IsController(n) && (env.ports[n].root <==> env.ports[n].device == env.root))
    && (forall n | n in env.ports :: env.ports[n].devicePort != OFPP_CONTROLLER)
    && ((exists n :: IsRoot(env.ports, n)) ==> IsRoot(env.ports, env.first))
  }

  /** Every route from a UNI leaves its device the same way and enters the root device the same way. */
  lemma RouteFromUni(env: Env, u: nat, n: nat)
    requires EnvOk(env) && IsLeaf(env.ports, u) && PathId(u, n) in env.routes
    ensures IsRoot(env.ports, n) && OnuPort(env.net, env.ports[u].device, env.root).Some?
    ensures var q := OnuPort(env.net, env.ports[u].device, env.root).value;
      && q.peers != []
      && env.routes[PathId(u, n)] == [FirstHop(env, u), Hop(env.root, q.peers[0].portNo, env.ports[n].devicePort)]
      && env.ports[u].device in env.net
  {
    assert RouteOk(env.routes, env.ports, PathId(u, n));
    assert RouteOk(env.routes, env.ports, PathId(n, u));
    assert Joined(env.net, env.routes, env.ports, n, u);
    var there := env.routes[PathId(n, u)];
    assert Swap(PathId(n, u)) == PathId(u, n) && Reverse(there) == [Flip(there[1]), Flip(there[0])];
  }

  lemma RoutesHaveTwoHops(env: Env)
    requires EnvOk(env)
    ensures forall k | k in env.routes :: |env.routes[k]| == 2
  {
    forall k | k in env.routes
      ensures |env.routes[k]| == 2
    {
      assert RouteOk(env.routes, env.ports, k);
    }
  }

  /** The second half of a route from some UNI: out of the root device at an NNI. */
  ghost predicate UpstreamHalf(env: Env, path: seq<Hop>) {
    && |path| == 2 && path[0] == NO_HOP && path[1].device == env.root
    && exists n :: IsRoot(env.ports, n) && path[1].egress == env.ports[n].devicePort
  }

  /** Where there are routes there is one to an NNI, and its second half ends at that NNI. */
  lemma UpstreamRouteExists(env: Env)
    requires EnvOk(env)
    ensures |env.routes| != 0 ==> exists k | k in env.routes :: IsRoot(env.ports, k.egress)
    ensures forall k | k in env.routes && IsRoot(env.ports, k.egress) ::
      |env.routes[k]| == 2 && UpstreamHalf(env, [NO_HOP, env.routes[k][1]])
  {
    forall k | k in env.routes
      ensures IsRoot(env.ports, k.egress) || (Swap(k) in env.routes && IsRoot(env.ports, Swap(k).egress))
      ensures IsRoot(env.ports, k.egress) ==> |env.routes[k]| == 2 && UpstreamHalf(env, [NO_HOP, env.routes[k][1]])
    {
      assert RouteOk(env.routes, env.ports, k);
      if IsRoot(env.ports, k.egress) {
        assert k == PathId(k.ingress, k.egress);
        RouteFromUni(env, k.ingress, k.egress);
      }
    }
    if |env.routes| != 0 {
      var k :| k in env.routes;
      assert IsRoot(env.ports, (if IsRoot(env.ports, k.egress) then k else Swap(k)).egress);
    }
  }

  lemma DownstreamFromRoot(env: Env, k: PathId)
    requires EnvOk(env) && k in env.routes && IsRoot(env.ports, k.ingress)
    ensures |env.routes[k]| == 2 && env.routes[k][0].device == env.root
  {
    assert RouteOk(env.routes, env.ports, k);
    assert Swap(k) == PathId(k.egress, k.ingress);
    RouteFromUni(env, k.egress, k.ingress);
    assert env.routes[Swap(k)] == Reverse(env.routes[k]) == [Flip(env.routes[k][1]), Flip(env.routes[k][0])];
  }

  /**
    Finds a route; where any route will do, it takes whichever comes first. Traps on an NNI always get one, and rules
    without an in-port do if there are routes at all.
  */
  method GetRoute(env: Env, ingress: nat, egress: nat) returns (path: Option<seq<Hop>>)
    requires EnvOk(env)
    ensures path.Some? ==> |path.value| == 2
    ensures IsLeaf(env.ports, ingress) ==> path == UpRoute(env, ingress, egress)
    ensures IsRoot(env.ports, ingress) && IsController(egress) ==>
      path.Some? && if |env.routes| == 0 then path.value == [Hop(env.root, ingress, ingress), Hop(env.root, ingress, ingress)]
                    else UpstreamHalf(env, path.value)
    ensures ingress == 0 && IsRoot(env.ports, if IsController(egress) then env.first else egress) ==>
      (path.Some? <==> |env.routes| != 0) && (path.Some? ==> UpstreamHalf(env, path.value))
    ensures IsRoot(env.ports, ingress) && egress == 0 ==>
      (path.Some? <==> HasRouteFrom(env.routes, ingress)) && (path.Some? ==> path.value[0].device == env.root && path.value[1] == NO_HOP)
    ensures IsRoot(env.ports, ingress) && egress != 0 && !IsController(egress) ==>
      path == if PathId(ingress, egress) in env.routes then Some(env.routes[PathId(ingress, egress)]) else None
  {
    RoutesHaveTwoHops(env);
    UpstreamRouteExists(env);
    var out := egress;
    if IsController(egress) {
      if IsRoot(env.ports, ingress) {
        if |env.routes| == 0 {
          return Some([Hop(env.root, ingress, ingress), Hop(env.root, ingress, ingress)]);
        }
        if k :| k in env.routes && IsRoot(env.ports, k.egress) {
          return Some([NO_HOP, env.routes[k][1]]);
        }
        return None;
      }
      if !IsRoot(env.ports, env.first) {
        return None;
      }
      out := env.first;
    }
    if ingress == 0 && IsRoot(env.ports, out) {
      if k :| k in env.routes && IsRoot(env.ports, k.egress) {
        return Some([NO_HOP, env.routes[k][1]]);
      }
      return None;
    }
    if out == 0 {
      if k :| k in env.routes && k.ingress == ingress {
        if IsLeaf(env.ports, ingress) {
          assert k == PathId(ingress, k.egress);
          RouteFromUni(env, ingress, k.egress);
        } else if IsRoot(env.ports, ingress) {
          DownstreamFromRoot(env, k);
        }
        return Some([env.routes[k][0], NO_HOP]);
      }
      return None;
    }
    if PathId(ingress, out) in env.routes {
      return Some(env.routes[PathId(ingress, out)]);
    }
    return None;
  }

  /** Decomposes a rule for packets from a UNI. */
  method DecomposeFlow(env: Env, f: Flow) returns (rules: Option<DeviceRules>)
    requires EnvOk(env) && IsLeaf(env.ports, GetInPort(f.fields))
    ensures rules == Decomposed(env, f)
  {
    var inPort, outPort := GetInPort(f.fields), GetOutPort(f.actions);
    var path := GetRoute(env, inPort, outPort);
    if path.None? {
      return None;
    }
    var deviceRules: DeviceRules;
    if IsController(outPort) {
      deviceRules := TrapRules(path.value, inPort, f);
    } else {
      if path.value[0].device !in env.net {
        return None;
      }
      deviceRules := UpstreamRules(path.value, inPort, outPort, f);
    }
    return Some(RedirectedRules(deviceRules, env.root));
  }

  // ----- Decomposing all rules -----

  ghost predicate FromUnis(env: Env, flows: seq<Flow>) {
    forall i | 0 <= i < |flows| :: IsLeaf(env.ports, GetInPort(flows[i].fields))
  }

  /** A table with a rule, unless it has that rule already. */
  function WithRule(table: seq<Flow>, f: Flow): seq<Flow> { if f in table then table else table + [f] }

  function Grow(table: seq<Flow>, rules: DeviceRules, d: DeviceId): seq<Flow> {
    if d in rules then WithRule(table, rules[d]) else table
  }

  /** The rules of a device, each once. */
  function TableOf(env: Env, flows: seq<Flow>, d: DeviceId): seq<Flow>
    requires FromUnis(env, flows)
  {
    if flows == [] then []
    else
      var before := TableOf(env, flows[..|flows| - 1], d);
      match Decomposed(env, flows[|flows| - 1])
      case None => before
      case Some(rules) => Grow(before, rules, d)
  }

  type Tables = map<DeviceId, seq<Flow>>

  function TableIn(tables: Tables, d: DeviceId): seq<Flow> { if d in tables then tables[d] else [] }

  ghost predicate GrownAt(tables: Tables, after: Tables, rules: DeviceRules, d: DeviceId) {
    TableIn(after, d) == Grow(TableIn(tables, d), rules, d) && (d in after <==> d in tables || d in rules)
  }

  ghost predicate SameAt(tables: Tables, after: Tables, d: DeviceId) { (d in after <==> d in tables) && (d in tables ==> after[d] == tables[d]) }

  /** Adds one decomposed rule to the tables. */
  method AddRules(tables: Tables, rules: DeviceRules) returns (after: Tables)
    ensures forall d :: GrownAt(tables, after, rules, d)
  {
    after := tables;
    var todo := rules.Keys;
    while todo != {}
      invariant todo <= rules.Keys
      invariant forall d {:trigger GrownAt(tables, after, rules, d)} :: d in rules.Keys - todo ==> GrownAt(tables, after, rules, d)
      invariant forall d {:trigger SameAt(tables, after, d)} :: d !in rules.Keys - todo ==> SameAt(tables, after, d)
      decreases |todo|
    {
      var d :| d in todo;
      ghost var before := after;
      assert SameAt(tables, before, d);
      after := after[d := WithRule(TableIn(after, d), rules[d])];
      assert GrownAt(tables, after, rules, d);
      forall e | e != d
        ensures e in rules.Keys - todo ==> GrownAt(tables, after, rules, e)
        ensures e !in rules.Keys - todo ==> SameAt(tables, after, e)
      {
        assert e in rules.Keys - todo ==> GrownAt(tables, before, rules, e);
        assert e !in rules.Keys - todo ==> SameAt(tables, before, e);
      }
      todo := todo - {d};
    }
    forall d
      ensures GrownAt(tables, after, rules, d)
    {
      assert d !in rules ==> SameAt(tables, after, d);
    }
  }

  /** The tables after the first `i` rules. */
  ghost predicate TablesAre(env: Env, flows: seq<Flow>, i: nat, tables: Tables)
    requires FromUnis(env, flows) && i <= |flows|
  {
    && (forall j | 0 <= j < i :: Decomposed(env, flows[j]).Some?)
    && (forall d :: TableIn(tables, d) == TableOf(env, flows[..i], d))
    && (forall d | d in tables :: tables[d] != [])
  }

  lemma TablesStart(env: Env, flows: seq<Flow>)
    requires FromUnis(env, flows)
    ensures TablesAre(env, flows, 0, map[])
  {
    assert flows[..0] == [];
  }

  lemma TablesNext(env: Env, flows: seq<Flow>, i: nat, tables: Tables, after: Tables, rules: DeviceRules)
    requires FromUnis(env, flows) && i < |flows| && TablesAre(env, flows, i, tables) && Decomposed(env, flows[i]) == Some(rules)
    requires forall d :: GrownAt(tables, after, rules, d)
    ensures TablesAre(env, flows, i + 1, after)
  {
    assert flows[..i + 1][..i] == flows[..i];
    forall d
      ensures TableIn(after, d) == TableOf(env, flows[..i + 1], d)
      ensures d in after ==> after[d] != []
    {
      assert GrownAt(tables, after, rules, d) && TableIn(tables, d) == TableOf(env, flows[..i], d);
    }
  }

  /** Decomposes all rules; one error fails them all. */
  method DecomposeRules(env: Env, flows: seq<Flow>) returns (result: Option<Tables>)
    requires EnvOk(env) && FromUnis(env, flows)
    ensures result.None? <==> exists i | 0 <= i < |flows| :: Decomposed(env, flows[i]).None?
    ensures result.Some? ==> forall d :: TableIn(result.value, d) == TableOf(env, flows, d)
    ensures result.Some? ==> forall d | d in result.value :: result.value[d] != []
  {
    var tables: Tables := map[];
    TablesStart(env, flows);
    for i := 0 to |flows|
      invariant TablesAre(env, flows, i, tables)
    {
      var rules := DecomposeFlow(env, flows[i]);
      if rules.None? {
        return None;
      }
      ghost var before := tables;
      tables := AddRules(tables, rules.value);
      TablesNext(env, flows, i, before, tables, rules.value);
    }
    assert flows[..|flows|] == flows;
    return Some(tables);
  }
}
