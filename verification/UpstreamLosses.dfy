/**
  Rules and packets, on every logical device in order, for which the devices do something else than the logical device.
*/
module UpstreamLosses {
  import opened OpenFlow
  import opened Pipeline
  import opened RouteMaps
  import opened FlowCompiler
  import opened Choosing
  import opened UpstreamRules
  import opened UpstreamMeaning

  function SimpleRule(table: nat, priority: nat, next: nat, fields: seq<Field>, actions: seq<Action>): Flow {
    Flow(table, priority, 0, 0, fields, actions, next, 0, 0, 0, 0)
  }

  lemma BestOfOne(f: Flow, at: Arrival, p: Packet)
    ensures Best([f], at, p) == if Matches(f, at, p) then Rule(f) else NoRule
  {
    assert [f][..0] == [];
  }

  lemma BestOfTwo(f: Flow, g: Flow, at: Arrival, p: Packet)
    requires Matches(f, at, p) && g.priority <= f.priority
    ensures Best([f, g], at, p) == Rule(f)
  {
    assert [f, g][..1] == [f];
    BestOfOne(f, at, p);
  }

  lemma TablesOfThree(f: Flow, g: Flow, t: Flow)
    requires f.tableId == 0 && g.tableId == 1 && t.tableId == 0
    ensures InTable([f, g, t], 0) == [f, t] && InTable([f, g, t], 1) == [g]
  {
    assert [f, g, t][..2] == [f, g] && [f, g][..1] == [f] && [f][..0] == [];
    assert InTable([f], 0) == [f] && InTable([f], 1) == [];
    assert InTable([f, g], 0) == [f] && InTable([f, g], 1) == [g];
  }

  /** Rules that let everything from a UNI out at an NNI, and one of middle priority that sends EAPOL to the controller. */
  function WayOut(u: nat): Flow { SimpleRule(0, 30, 1, [InPort(u)], []) }

  function Exit(u: nat, n: nat): Flow { SimpleRule(1, 10, 0, [InPort(u)], [Output(n)]) }

  function EapolTrap(u: nat): Flow { SimpleRule(0, 20, 0, [InPort(u), EthType(0x888e)], [Output(OFPP_CONTROLLER)]) }

  lemma SimpleRulesAreUpstream(env: Env, u: nat, n: nat)
    requires EnvOk(env) && IsLeaf(env.ports, u) && PathId(u, n) in env.routes && PathId(u, env.first) in env.routes
    ensures UpstreamRule(env, WayOut(u)) && UpstreamRule(env, Exit(u, n)) && UpstreamRule(env, EapolTrap(u))
    ensures FirstTable(WayOut(u)) && SecondTable(env, Exit(u, n)) && TrapRule(EapolTrap(u))
  {
    RouteFromUni(env, u, n);
    RouteFromUni(env, u, env.first);
    assert EapolTrap(u).fields[1..] == [EthType(0x888e)] && EapolTrap(u).fields[1..][1..] == [];
    assert PathId(u, n).ingress == u;
  }

  lemma EapolChoices(u: nat, n: nat, p: Packet)
    requires p == Packet([], 0x888e, 0, map[])
    ensures var flows := [WayOut(u), Exit(u, n), EapolTrap(u)];
      FirstChoice(flows, u, p) == Rule(WayOut(u)) && SecondChoice(flows, u, p) == Rule(Exit(u, n)) && Passed(flows, u, p) == p
  {
    var f, g, t := WayOut(u), Exit(u, n), EapolTrap(u);
    TablesOfThree(f, g, t);
    BestOfTwo(f, t, Arrival(u, u, 0), p);
    BestOfOne(g, Arrival(u, u, 0), p);
  }

  lemma EapolTrapTakes(u: nat, p: Packet)
    requires p.ethType == 0x888e
    ensures OltTakes(EapolTrap(u), u, p) && HasTrapField(EapolTrap(u).fields)
  {
    assert IsTrapField(EapolTrap(u).fields[1]);
  }

  /** A rule for the controller with a priority between those of the two rules of a packet takes the packet at the OLT. */
  lemma TrapBetween(env: Env, flows: seq<Flow>, t: Flow, u: nat, p: Packet)
    requires EnvOk(env) && IsLeaf(env.ports, u) && UpstreamFlows(env, flows)
    requires t in flows && TrapRule(t) && HasTrapField(t.fields) && forall x | x in flows && TrapRule(x) :: x == t
    requires FirstChoice(flows, u, p).Rule? && SecondChoice(flows, u, p).Rule?
    requires SecondChoice(flows, u, p).flow.priority < t.priority < FirstChoice(flows, u, p).flow.priority
    requires OltTakes(t, u, Passed(flows, u, p))
    ensures OnuKeeps(flows, u, p) && TrapsMarked(flows, u)
    ensures RunLogical(flows, u, p) == [Sent(NniOf(SecondChoice(flows, u, p).flow), Outcome(flows, u, p))]
    ensures RunDevices(env, flows, u, p) != [] && RunDevices(env, flows, u, p)[0].port == OFPP_CONTROLLER
  {
    Winners(flows, u, p);
    var k :| 0 <= k < |flows| && flows[k] == t;
    assert !Precedes(flows, SecondWinner(flows, u, p), k);
    KeptIsNoTrap(env, flows, u, p);
    LogicalRun(env, flows, u, p);
    TakenGoesToController(env, flows, u, p);
  }

  /**
    On every logical device in order: an EAPOL packet that the logical device lets out at an NNI, by a rule of the first
    table that comes before the one for the controller, ends at the controller.
  */
  lemma {:induction false} EapolTakenAtOlt(env: Env, u: nat, n: nat, p: Packet) returns (flows: seq<Flow>)
    requires EnvOk(env) && IsLeaf(env.ports, u) && PathId(u, n) in env.routes && PathId(u, env.first) in env.routes
    requires p == Packet([], 0x888e, 0, map[])
    ensures UpstreamFlows(env, flows) && OnuKeeps(flows, u, p) && TrapsMarked(flows, u)
    ensures RunLogical(flows, u, p) == [Sent(n, p)]
    ensures RunDevices(env, flows, u, p) != [] && RunDevices(env, flows, u, p)[0].port == OFPP_CONTROLLER
  {
    flows := [WayOut(u), Exit(u, n), EapolTrap(u)];
    SimpleRulesAreUpstream(env, u, n);
    EapolChoices(u, n, p);
    EapolTrapTakes(u, p);
    assert UpstreamFlows(env, flows);
    TrapBetween(env, flows, EapolTrap(u), u, p);
    SecondTableActions(env, Exit(u, n));
  }

  /** A rule that lets packets of one protocol from a UNI out at an NNI. */
  function ProtocolExit(u: nat, n: nat, g: Field): Flow { SimpleRule(1, 10, 0, [InPort(u), g], [Output(n)]) }

  /** EAPOL, IGMP or UDP. */
  predicate Special(g: Field) { g == EthType(0x888e) || g == IpProto(2) || g == IpProto(17) }

  lemma ProtocolExitIsUpstream(env: Env, u: nat, n: nat, g: Field)
    requires EnvOk(env) && IsLeaf(env.ports, u) && PathId(u, n) in env.routes && Special(g)
    ensures UpstreamRule(env, ProtocolExit(u, n, g)) && SecondTable(env, ProtocolExit(u, n, g))
    ensures HasTrapField(ProtocolExit(u, n, g).fields) && UpstreamRule(env, WayOut(u))
  {
    RouteFromUni(env, u, n);
    assert IsTrapField(ProtocolExit(u, n, g).fields[1]);
    assert PathId(u, n).ingress == u;
  }

  lemma ProtocolChoices(u: nat, n: nat, g: Field, p: Packet)
    requires Special(g) && FieldMatches(g, Arrival(u, u, 0), p)
    ensures var flows := [WayOut(u), ProtocolExit(u, n, g)];
      && FirstChoice(flows, u, p) == Rule(WayOut(u)) && SecondChoice(flows, u, p) == Rule(ProtocolExit(u, n, g))
      && Passed(flows, u, p) == p
  {
    var f, e := WayOut(u), ProtocolExit(u, n, g);
    assert [f, e][..1] == [f] && [f][..0] == [];
    assert InTable([f], 0) == [f] && InTable([f], 1) == [];
    assert InTable([f, e], 0) == [f] && InTable([f, e], 1) == [e];
    BestOfOne(f, Arrival(u, u, 0), p);
    BestOfOne(e, Arrival(u, u, 0), p);
  }

  /**
    On every logical device in order: every EAPOL, IGMP or UDP packet that the logical device lets out at an NNI by a rule
    on that protocol ends at the controller.
  */
  lemma {:induction false} ProtocolsTurnedAway(env: Env, u: nat, n: nat, g: Field, p: Packet) returns (flows: seq<Flow>)
    requires EnvOk(env) && IsLeaf(env.ports, u) && PathId(u, n) in env.routes && Special(g) && FieldMatches(g, Arrival(u, u, 0), p)
    ensures UpstreamFlows(env, flows) && OnuKeeps(flows, u, p) && TrapsMarked(flows, u) && TurnedAway(flows, u, p)
    ensures RunLogical(flows, u, p) == [Sent(n, p)] && RunDevices(env, flows, u, p) == [Sent(OFPP_CONTROLLER, p)]
  {
    flows := [WayOut(u), ProtocolExit(u, n, g)];
    ProtocolExitIsUpstream(env, u, n, g);
    ProtocolChoices(u, n, g, p);
    NoTraps(env, flows, u, p);
    LogicalRun(env, flows, u, p);
    DevicesRun(env, flows, u, p);
    SecondTableActions(env, ProtocolExit(u, n, g));
  }

  lemma NoTraps(env: Env, flows: seq<Flow>, u: nat, p: Packet)
    requires EnvOk(env) && IsLeaf(env.ports, u)
    requires forall f | f in flows :: UpstreamRule(env, f) && !TrapRule(f)
    ensures UpstreamFlows(env, flows) && OnuKeeps(flows, u, p) && OltKeeps(flows, u, p) && TrapsMarked(flows, u) && !TrapFirst(flows, u, p)
  {
    assert forall i | 0 <= i < |flows| :: flows[i] in flows;
    KeptIsNoTrap(env, flows, u, p);
  }

  /** A rule that sends EAPOL packets of one VLAN to the controller. */
  function VlanTrap(u: nat, vid: nat): Flow {
    SimpleRule(0, 20, 0, [InPort(u), EthType(0x888e), VlanVid(vid)], [Output(OFPP_CONTROLLER)])
  }

  lemma VlanTrapFields(u: nat, vid: nat)
    ensures GetVlanVid(VlanTrap(u, vid).fields) == Some(vid) && HasTrapField(VlanTrap(u, vid).fields)
    ensures Except(VlanTrap(u, vid).fields, true) == [EthType(0x888e)] && FieldsOk(VlanTrap(u, vid).fields)
  {
    var fields, last := VlanTrap(u, vid).fields, [VlanVid(vid)];
    assert IsTrapField(fields[1]);
    assert fields[1..] == [EthType(0x888e), VlanVid(vid)] && fields[1..][1..] == last && last[1..] == [];
    assert GetVlanVid(last) == Some(vid) && Except(last, true) == [];
    assert GetVlanVid(fields[1..]) == Some(vid) && Except(fields[1..], true) == [EthType(0x888e)];
  }

  lemma VlanTrapIsUpstream(env: Env, u: nat, vid: nat)
    requires EnvOk(env) && IsLeaf(env.ports, u) && PathId(u, env.first) in env.routes
    ensures UpstreamRule(env, VlanTrap(u, vid)) && TrapRule(VlanTrap(u, vid)) && GetInPort(VlanTrap(u, vid).fields) == u
  {
    RouteFromUni(env, u, env.first);
    VlanTrapFields(u, vid);
  }

  lemma VlanTrapActs(u: nat, vid: nat, p: Packet)
    requires p.ethType == 0x888e
    ensures Matches(VlanTrap(u, vid), Arrival(u, u, 0), p) <==> Vid(p) == vid
    ensures MatchesUntagged(VlanTrap(u, vid).fields, u, p)
    ensures Sends(VlanTrap(u, vid).actions, p) == [Sent(OFPP_CONTROLLER, p)]
  {
    var t := VlanTrap(u, vid);
    VlanTrapFields(u, vid);
    assert t.fields[2] in t.fields;
    RewriteThenOutput([], OFPP_CONTROLLER, p);
    assert [] + [Output(OFPP_CONTROLLER)] == t.actions;
  }

  /** One such rule for every VLAN of a list. */
  function VlanTraps(u: nat, vids: seq<nat>): seq<Flow> { seq(|vids|, i requires 0 <= i < |vids| => VlanTrap(u, vids[i])) }

  lemma VlanTrapsAreUpstream(env: Env, u: nat, vids: seq<nat>)
    requires EnvOk(env) && IsLeaf(env.ports, u) && PathId(u, env.first) in env.routes
    ensures UpstreamFlows(env, VlanTraps(u, vids))
    ensures forall i | 0 <= i < |vids| :: TrapRule(VlanTraps(u, vids)[i]) && GetInPort(VlanTraps(u, vids)[i].fields) == u
  {
    forall i | 0 <= i < |vids|
      ensures UpstreamRule(env, VlanTraps(u, vids)[i]) && TrapRule(VlanTraps(u, vids)[i])
      ensures GetInPort(VlanTraps(u, vids)[i].fields) == u
    {
      VlanTrapIsUpstream(env, u, vids[i]);
    }
  }

  /** The logical device sends to the controller what has one of the VLAN ids. */
  lemma VlansOnLogicalDevice(u: nat, vids: seq<nat>, p: Packet)
    requires p.ethType == 0x888e
    ensures RunLogical(VlanTraps(u, vids), u, p) == if Vid(p) in vids then [Sent(OFPP_CONTROLLER, p)] else []
  {
    var flows, k := VlanTraps(u, vids), FirstWinner(VlanTraps(u, vids), u, p);
    Winners(flows, u, p);
    TableWinnerWins(flows, 0, Arrival(u, u, 0), p);
    forall i | 0 <= i < |vids|
      ensures Matches(flows[i], Arrival(u, u, 0), p) <==> Vid(p) == vids[i]
      ensures Sends(flows[i].actions, p) == [Sent(OFPP_CONTROLLER, p)]
    {
      VlanTrapActs(u, vids[i], p);
    }
  }

  /** The first of the rules comes before all others, whatever the packet's tag. */
  lemma FirstVlanIsTop(env: Env, u: nat, vids: seq<nat>, p: Packet)
    requires EnvOk(env) && IsLeaf(env.ports, u) && PathId(u, env.first) in env.routes
    requires p.ethType == 0x888e && vids != []
    ensures TopTrap(VlanTraps(u, vids), u, p, 0)
  {
    VlanTrapsAreUpstream(env, u, vids);
    VlanTrapActs(u, vids[0], p);
  }

  lemma VlanTrapLeaves(env: Env, u: nat, vid: nat, p: Packet)
    requires env.first in env.ports
    ensures TrapExit(env, VlanTrap(u, vid)) == OFPP_CONTROLLER
    ensures Trapped(VlanTrap(u, vid), p) == p.(vlans := [TRAP_VID, vid] + p.vlans)
  {
    VlanTrapFields(u, vid);
    assert [TRAP_VID] + ([vid] + p.vlans) == [TRAP_VID, vid] + p.vlans;
  }

  /**
    On every logical device in order: rules that send EAPOL packets of some VLANs to the controller send all of them there,
    with a tag of the first VLAN; the logical device sends those of these VLANs, and drops the rest.
  */
  lemma VlansAreForgotten(env: Env, u: nat, vids: seq<nat>, p: Packet)
    requires EnvOk(env) && IsLeaf(env.ports, u) && PathId(u, env.first) in env.routes
    requires p.ethType == 0x888e && vids != []
    ensures UpstreamFlows(env, VlanTraps(u, vids))
    ensures RunLogical(VlanTraps(u, vids), u, p) == if Vid(p) in vids then [Sent(OFPP_CONTROLLER, p)] else []
    ensures RunDevices(env, VlanTraps(u, vids), u, p) == [Sent(OFPP_CONTROLLER, p.(vlans := [TRAP_VID, vids[0]] + p.vlans))]
  {
    VlanTrapsAreUpstream(env, u, vids);
    VlansOnLogicalDevice(u, vids, p);
    FirstVlanIsTop(env, u, vids, p);
    TrapReachesController(env, VlanTraps(u, vids), u, p, 0);
    VlanTrapLeaves(env, u, vids[0], p);
  }
}
