/**
  What the rules for packets from a UNI become on the ONU and on the OLT, and which packets those parts take.
*/
module UpstreamRules {
  import opened OpenFlow
  import opened Pipeline
  import opened RouteMaps
  import opened FlowCompiler
  import opened Choosing

  // ----- Rules for packets from a UNI -----

  /** One in-port, a UNI; the tunnel, if matched on, is that UNI; one VLAN id at most; no metadata. */
  ghost predicate FieldOk(fields: seq<Field>, g: Field) {
    match g
    case InPort(port) => port == GetInPort(fields)
    case TunnelId(id) => id == GetInPort(fields)
    case VlanVid(vid) => GetVlanVid(fields) == Some(vid)
    case Metadata(_) => false
    case _ => true
  }

  ghost predicate FieldsOk(fields: seq<Field>) { forall g | g in fields :: FieldOk(fields, g) }

  /** A rule of the first table: rewrites, and on to the second table. */
  predicate FirstTable(f: Flow) { f.tableId == 0 && f.gotoTable == 1 && forall a | a in f.actions :: IsRewrite(a) }

  /** A rule of the second table: rewrites, and out at an NNI. */
  predicate SecondTable(env: Env, f: Flow) {
    && f.tableId == 1 && f.gotoTable == 0 && f.actions != []
    && (forall a | a in f.actions[..|f.actions| - 1] :: IsRewrite(a))
    && f.actions[|f.actions| - 1].Output? && IsRoot(env.ports, f.actions[|f.actions| - 1].port)
  }

  predicate TrapRule(f: Flow) { f.tableId == 0 && f.gotoTable == 0 && IsController(GetOutPort(f.actions)) }

  /** A rule for packets from a UNI that could be decomposed. */
  ghost predicate UpstreamRule(env: Env, f: Flow) {
    && IsLeaf(env.ports, GetInPort(f.fields)) && FieldsOk(f.fields)
    && (FirstTable(f) || SecondTable(env, f) || TrapRule(f))
    && Decomposed(env, f).Some?
  }

  ghost predicate UpstreamFlows(env: Env, flows: seq<Flow>) {
    FromUnis(env, flows) && forall f | f in flows :: UpstreamRule(env, f)
  }

  // ----- Tables of devices -----

  /** What a rule became on a device. */
  function PartOn(env: Env, f: Flow, d: DeviceId): Choice
    requires GetInPort(f.fields) in env.ports
  {
    match Decomposed(env, f)
    case None => NoRule
    case Some(rules) => if d in rules then Rule(rules[d]) else NoRule
  }

  function PartsOn(env: Env, flows: seq<Flow>, d: DeviceId): seq<Choice>
    requires FromUnis(env, flows)
  {
    seq(|flows|, i requires 0 <= i < |flows| => PartOn(env, flows[i], d))
  }

  lemma {:induction false} TableOfIsCollected(env: Env, flows: seq<Flow>, d: DeviceId)
    requires FromUnis(env, flows)
    ensures TableOf(env, flows, d) == Collected(PartsOn(env, flows, d))
  {
    if flows != [] {
      TableOfIsCollected(env, flows[..|flows| - 1], d);
      assert PartsOn(env, flows, d)[..|flows| - 1] == PartsOn(env, flows[..|flows| - 1], d);
    }
  }

  lemma {:induction false} InTableAll(flows: seq<Flow>, t: nat)
    requires forall f | f in flows :: f.tableId == t
    ensures InTable(flows, t) == flows
  {
    if flows != [] {
      assert flows == flows[..|flows| - 1] + [flows[|flows| - 1]];
      InTableAll(flows[..|flows| - 1], t);
    }
  }

  lemma PartIsPlain(env: Env, f: Flow, d: DeviceId)
    requires GetInPort(f.fields) in env.ports && PartOn(env, f, d).Rule?
    ensures PartOn(env, f, d).flow.tableId == 0 && PartOn(env, f, d).flow.gotoTable == 0
    ensures PartOn(env, f, d).flow.priority == f.priority
  {
  }

  /** `r` has the meter, cookie, metadata and priority of `f`, and starts counting at zero. */
  predicate Carries(r: Flow, f: Flow) {
    && r.meterId == f.meterId && r.cookie == f.cookie && r.writeMetadata == f.writeMetadata && r.priority == f.priority
    && r.flags == 0 && r.byteCount == 0 && r.packetCount == 0
  }

  lemma RulesCarry(path: seq<Hop>, u: nat, out: nat, f: Flow)
    requires |path| == 2
    ensures forall d | d in TrapRules(path, u, f) :: Carries(TrapRules(path, u, f)[d], f)
    ensures forall d | d in FlowCompiler.UpstreamRules(path, u, out, f) :: Carries(FlowCompiler.UpstreamRules(path, u, out, f)[d], f)
  {
  }

  lemma RedirectedCarry(rules: DeviceRules, root: DeviceId, f: Flow)
    requires forall d | d in rules :: Carries(rules[d], f)
    ensures forall d | d in RedirectedRules(rules, root) :: Carries(RedirectedRules(rules, root)[d], f)
  {
    forall d | d in rules
      ensures Carries(Redirected(rules[d]), f)
    {
      assert Carries(rules[d], f);
    }
  }

  /** What a rule became, on whatever device, has its meter, cookie, metadata and priority. */
  lemma PartCarries(env: Env, f: Flow, d: DeviceId)
    requires GetInPort(f.fields) in env.ports && PartOn(env, f, d).Rule?
    ensures Carries(PartOn(env, f, d).flow, f)
  {
    var u, out := GetInPort(f.fields), GetOutPort(f.actions);
    var path := UpRoute(env, u, out).value;
    RulesCarry(path, u, out, f);
    RedirectedCarry(TrapRules(path, u, f), env.root, f);
    RedirectedCarry(FlowCompiler.UpstreamRules(path, u, out, f), env.root, f);
  }

  /** The table of a device has what the rules became there, and nothing else. */
  lemma TableHasParts(env: Env, flows: seq<Flow>, d: DeviceId, r: Flow)
    requires FromUnis(env, flows)
    ensures r in TableOf(env, flows, d) <==> exists i | 0 <= i < |flows| :: PartOn(env, flows[i], d) == Rule(r)
  {
    var parts := PartsOn(env, flows, d);
    TableOfIsCollected(env, flows, d);
    if r in TableOf(env, flows, d) {
      CollectedAreParts(parts, r);
      var i :| 0 <= i < |parts| && parts[i] == Rule(r);
      assert PartOn(env, flows[i], d) == Rule(r);
    }
    if i :| 0 <= i < |flows| && PartOn(env, flows[i], d) == Rule(r) {
      PartsAreCollected(parts, i);
    }
  }

  ghost predicate HasPart(env: Env, f: Flow)
    requires GetInPort(f.fields) in env.ports
  {
    exists d :: PartOn(env, f, d).Rule?
  }

  /** Some rule of the device names the meter. */
  predicate MeterOn(env: Env, flows: seq<Flow>, d: DeviceId, m: nat)
    requires FromUnis(env, flows)
  {
    exists r | r in TableOf(env, flows, d) :: r.meterId == m
  }

  /** The meters that rules of the devices name are those that the logical rules with a part name. */
  lemma MetersCarried(env: Env, flows: seq<Flow>, m: nat)
    requires FromUnis(env, flows)
    ensures (exists d :: MeterOn(env, flows, d, m))
       <==> exists i | 0 <= i < |flows| :: flows[i].meterId == m && HasPart(env, flows[i])
  {
    if d :| MeterOn(env, flows, d, m) {
      var r :| r in TableOf(env, flows, d) && r.meterId == m;
      TableHasParts(env, flows, d, r);
      var i :| 0 <= i < |flows| && PartOn(env, flows[i], d) == Rule(r);
      PartCarries(env, flows[i], d);
    }
    if i :| 0 <= i < |flows| && flows[i].meterId == m && HasPart(env, flows[i]) {
      var d :| PartOn(env, flows[i], d).Rule?;
      PartCarries(env, flows[i], d);
      TableHasParts(env, flows, d, PartOn(env, flows[i], d).flow);
      assert MeterOn(env, flows, d, m);
    }
  }

  /** A device has one table. */
  lemma DeviceTables(env: Env, flows: seq<Flow>, d: DeviceId)
    requires FromUnis(env, flows)
    ensures InTable(TableOf(env, flows, d), 0) == TableOf(env, flows, d)
    ensures forall r | r in TableOf(env, flows, d) :: r.gotoTable == 0
  {
    TableOfIsCollected(env, flows, d);
    forall r | r in TableOf(env, flows, d)
      ensures r.tableId == 0 && r.gotoTable == 0
    {
      CollectedAreParts(PartsOn(env, flows, d), r);
      var i :| 0 <= i < |flows| && PartsOn(env, flows, d)[i] == Rule(r);
      PartIsPlain(env, flows[i], d);
    }
    InTableAll(TableOf(env, flows, d), 0);
  }

  /** On a device the part that wins acts, and that is all. */
  lemma DeviceProcess(env: Env, flows: seq<Flow>, d: DeviceId, at: Arrival, p: Packet)
    requires FromUnis(env, flows)
    ensures Process(TableOf(env, flows, d), 0, at, p)
         == match ChoiceAt(PartsOn(env, flows, d), Winner(PartsOn(env, flows, d), at, p))
            case NoRule => []
            case Rule(r) => Sends(r.actions, p)
  {
    DeviceTables(env, flows, d);
    TableOfIsCollected(env, flows, d);
    BestCollected(PartsOn(env, flows, d), at, p);
    BestIsHighest(TableOf(env, flows, d), at, p);
  }

  // ----- Matching -----

  lemma {:induction false} InPortIsThere(fields: seq<Field>)
    ensures GetInPort(fields) != 0 ==> InPort(GetInPort(fields)) in fields
  {
    if fields != [] {
      InPortIsThere(fields[1..]);
    }
  }

  lemma {:induction false} VlanVidIsThere(fields: seq<Field>)
    ensures match GetVlanVid(fields)
            case Some(vid) => VlanVid(vid) in fields
            case None => forall g | g in fields :: !g.VlanVid?
  {
    if fields != [] {
      assert fields == [fields[0]] + fields[1..];
      VlanVidIsThere(fields[1..]);
    }
  }

  /** All fields match but, maybe, in-port and VLAN id. */
  predicate MatchesUntagged(fields: seq<Field>, u: nat, p: Packet) { AllMatch(Except(fields, true), Arrival(0, u, 0), p) }

  /** A rule matches at the UNI exactly when the rule with the device's port and the tunnel matches on the device. */
  lemma DeviceFieldsMatch(fields: seq<Field>, port: nat, at: Arrival, u: nat, metadata: nat, p: Packet)
    requires FieldsOk(fields) && GetInPort(fields) != 0 && at.tunnel == u
    ensures AllMatch([InPort(port), TunnelId(GetInPort(fields))] + Except(fields, false), at, p)
       <==> port == at.inPort && GetInPort(fields) == u && AllMatch(fields, Arrival(u, u, metadata), p)
  {
    InPortIsThere(fields);
    var v := GetInPort(fields);
    var device := [InPort(port), TunnelId(v)] + Except(fields, false);
    if AllMatch(device, at, p) {
      assert InPort(port) in device && TunnelId(v) in device;
      forall g | g in fields
        ensures FieldMatches(g, Arrival(u, u, metadata), p)
      {
        assert FieldOk(fields, g);
        assert !g.InPort? ==> g in device;
      }
    }
    if port == at.inPort && AllMatch(fields, Arrival(u, u, metadata), p) {
      forall g | g in device
        ensures FieldMatches(g, at, p)
      {
        assert g in Except(fields, false) ==> FieldOk(fields, g) && FieldMatches(g, Arrival(u, u, metadata), p);
      }
    }
  }

  /** A rule that matches at the UNI has that UNI as its in-port, and its other fields match. */
  lemma MatchAtUni(fields: seq<Field>, u: nat, metadata: nat, p: Packet)
    requires FieldsOk(fields) && GetInPort(fields) != 0 && AllMatch(fields, Arrival(u, u, metadata), p)
    ensures GetInPort(fields) == u && forall vlan :: AllMatch(Except(fields, vlan), Arrival(0, u, 0), p)
  {
    InPortIsThere(fields);
    forall g | g in fields && !g.InPort?
      ensures FieldMatches(g, Arrival(0, u, 0), p)
    {
      assert FieldOk(fields, g) && FieldMatches(g, Arrival(u, u, metadata), p);
    }
  }

  /** The fields that the ONU part of a rule for the controller matches on. */
  lemma ChildFieldsMatch(fields: seq<Field>, vlan: bool, port: nat, at: Arrival, p: Packet)
    requires FieldsOk(fields)
    ensures AllMatch([InPort(port), TunnelId(GetInPort(fields))] + Except(fields, vlan), at, p)
       <==> port == at.inPort && GetInPort(fields) == at.tunnel && AllMatch(Except(fields, vlan), Arrival(0, at.tunnel, 0), p)
  {
    var device := [InPort(port), TunnelId(GetInPort(fields))] + Except(fields, vlan);
    if AllMatch(device, at, p) {
      assert InPort(port) in device && TunnelId(GetInPort(fields)) in device;
      forall g | g in Except(fields, vlan)
        ensures FieldMatches(g, Arrival(0, at.tunnel, 0), p)
      {
        assert FieldOk(fields, g) && g in device;
      }
    }
    if port == at.inPort && GetInPort(fields) == at.tunnel && AllMatch(Except(fields, vlan), Arrival(0, at.tunnel, 0), p) {
      forall g | g in device
        ensures FieldMatches(g, at, p)
      {
        assert g in Except(fields, vlan) ==> FieldOk(fields, g) && FieldMatches(g, Arrival(0, at.tunnel, 0), p);
      }
    }
  }

  lemma FewerFieldsMatch(fields: seq<Field>, vlan: bool, u: nat, p: Packet)
    requires AllMatch(Except(fields, vlan), Arrival(0, u, 0), p)
    ensures MatchesUntagged(fields, u, p)
  {
    assert forall g | g in Except(fields, true) :: g in Except(fields, vlan);
  }

  lemma TagsDoNotMatter(fields: seq<Field>, u: nat, p: Packet, vlans: seq<nat>)
    ensures MatchesUntagged(fields, u, p) <==> MatchesUntagged(fields, u, p.(vlans := vlans))
  {
    var tagged := p.(vlans := vlans);
    assert forall g | g in Except(fields, true) :: FieldMatches(g, Arrival(0, u, 0), p) <==> FieldMatches(g, Arrival(0, u, 0), tagged);
  }

  // ----- What rules become -----

  lemma {:induction false} NoOutput(actions: seq<Action>)
    requires forall a | a in actions :: !a.Output?
    ensures GetOutPort(actions) == 0 && WithoutOutputs(actions) == actions
    ensures forall port :: OutputsTo(actions, port) == actions
  {
    if actions != [] {
      assert actions == [actions[0]] + actions[1..] && !actions[0].Output?;
      NoOutput(actions[1..]);
    }
  }

  lemma {:induction false} LastOutput(actions: seq<Action>, port: nat)
    requires forall a | a in actions :: !a.Output?
    ensures GetOutPort(actions + [Output(port)]) == port && WithoutOutputs(actions + [Output(port)]) == actions
    ensures forall other :: OutputsTo(actions + [Output(port)], other) == actions + [Output(other)]
  {
    var all := actions + [Output(port)];
    if actions == [] {
      assert all == [Output(port)] && all[1..] == [];
    } else {
      assert all[1..] == actions[1..] + [Output(port)] && actions == [actions[0]] + actions[1..] && !actions[0].Output?;
      LastOutput(actions[1..], port);
      forall other
        ensures OutputsTo(all, other) == actions + [Output(other)]
      {
        assert OutputsTo(all[1..], other) == actions[1..] + [Output(other)];
      }
    }
  }

  lemma RedirectedOne(d: DeviceId, f: Flow, root: DeviceId)
    ensures RedirectedRules(map[d := f], root) == map[d := if d == root then Redirected(f) else f]
  {
  }

  lemma FirstTableBecomes(env: Env, f: Flow)
    requires EnvOk(env) && UpstreamRule(env, f) && FirstTable(f)
    ensures var u := GetInPort(f.fields); Decomposed(env, f) == Some(map[env.ports[u].device := OnuFlow(FirstHop(env, u), u, f)])
  {
    var u := GetInPort(f.fields);
    assert forall a | a in f.actions :: IsRewrite(a) && !a.Output?;
    NoOutput(f.actions);
    var k :| k in env.routes && k.ingress == u;
    assert k == PathId(u, k.egress);
    RouteFromUni(env, u, k.egress);
    RedirectedOne(env.ports[u].device, OnuFlow(FirstHop(env, u), u, f), env.root);
  }

  /** The port of the root device to which a UNI's device is linked. */
  function OltPort(env: Env, u: nat): nat
    requires u in env.ports
  {
    match OnuPort(env.net, env.ports[u].device, env.root)
    case Some(q) => if q.peers == [] then 0 else q.peers[0].portNo
    case None => 0
  }

  /** The OLT's hop from a UNI to an NNI. */
  function LastHop(env: Env, u: nat, n: nat): Hop
    requires u in env.ports && n in env.ports
  {
    Hop(env.root, OltPort(env, u), env.ports[n].devicePort)
  }

  function NniOf(f: Flow): nat { GetOutPort(f.actions) }

  /** A rule of the second table rewrites and then sends to its NNI. */
  lemma SecondTableActions(env: Env, f: Flow)
    requires SecondTable(env, f)
    ensures NniOf(f) == f.actions[|f.actions| - 1].port
    ensures f.actions == WithoutOutputs(f.actions) + [Output(NniOf(f))]
    ensures forall a | a in WithoutOutputs(f.actions) :: IsRewrite(a)
    ensures forall port, other :: OutputsTo(WithoutOutputs(f.actions) + [Output(port)], other) == WithoutOutputs(f.actions) + [Output(other)]
  {
    var rewrites, last := f.actions[..|f.actions| - 1], f.actions[|f.actions| - 1];
    forall a | a in rewrites
      ensures !a.Output?
    {
      assert IsRewrite(a);
    }
    assert f.actions == rewrites + [Output(last.port)];
    LastOutput(rewrites, last.port);
    forall port, other
      ensures OutputsTo(rewrites + [Output(port)], other) == rewrites + [Output(other)]
    {
      LastOutput(rewrites, port);
    }
  }

  lemma SecondTableBecomes(env: Env, f: Flow)
    requires EnvOk(env) && UpstreamRule(env, f) && SecondTable(env, f)
    ensures IsRoot(env.ports, NniOf(f))
    ensures var u := GetInPort(f.fields); PathId(u, NniOf(f)) in env.routes
    ensures var u := GetInPort(f.fields);
      Decomposed(env, f) == Some(map[env.root := Redirected(OltFlow(LastHop(env, u, NniOf(f)), u, f))])
  {
    var u := GetInPort(f.fields);
    SecondTableActions(env, f);
    RouteFromUni(env, u, NniOf(f));
    RedirectedOne(env.root, OltFlow(LastHop(env, u, NniOf(f)), u, f), env.root);
  }

  lemma TrapBecomes(env: Env, f: Flow)
    requires EnvOk(env) && UpstreamRule(env, f) && TrapRule(f)
    ensures IsRoot(env.ports, env.first)
    ensures var u := GetInPort(f.fields); PathId(u, env.first) in env.routes
    ensures var u := GetInPort(f.fields); env.ports[u].device != env.root
    ensures var u := GetInPort(f.fields);
      Decomposed(env, f) == Some(map[env.root := Redirected(TrapParent(LastHop(env, u, env.first), u, f)),
                                     env.ports[u].device := TrapChild(FirstHop(env, u), u, f)])
  {
    var u := GetInPort(f.fields);
    RouteFromUni(env, u, env.first);
    var path := env.routes[PathId(u, env.first)];
    var rules := TrapRules(path, u, f);
    assert RedirectedRules(rules, env.root)
        == map[env.root := Redirected(TrapParent(LastHop(env, u, env.first), u, f)),
               env.ports[u].device := TrapChild(FirstHop(env, u), u, f)];
  }

  lemma UpstreamHasPart(env: Env, f: Flow)
    requires EnvOk(env) && UpstreamRule(env, f)
    ensures HasPart(env, f)
  {
    var u := GetInPort(f.fields);
    if FirstTable(f) {
      FirstTableBecomes(env, f);
      assert PartOn(env, f, env.ports[u].device).Rule?;
    } else if SecondTable(env, f) {
      SecondTableBecomes(env, f);
      assert PartOn(env, f, env.root).Rule?;
    } else {
      TrapBecomes(env, f);
      assert PartOn(env, f, env.root).Rule?;
    }
  }

  /** Every rule for packets from a UNI gets to some device, so no meter of such rules is lost, and none is made up. */
  lemma MetersKept(env: Env, flows: seq<Flow>, m: nat)
    requires EnvOk(env) && UpstreamFlows(env, flows)
    ensures (exists d :: MeterOn(env, flows, d, m)) <==> exists i | 0 <= i < |flows| :: flows[i].meterId == m
  {
    MetersCarried(env, flows, m);
    forall i | 0 <= i < |flows|
      ensures HasPart(env, flows[i])
    {
      assert flows[i] in flows;
      UpstreamHasPart(env, flows[i]);
    }
  }

  // ----- Parts of rules -----

  /** The ONU part of a rule for the controller takes the packet, whatever its tag if the rule matches on one. */
  predicate OnuTakes(t: Flow, u: nat, p: Packet) {
    GetInPort(t.fields) == u && AllMatch(Except(t.fields, GetVlanVid(t.fields).Some?), Arrival(0, u, 0), p)
  }

  /** The OLT part of a rule for the controller takes the packet. */
  predicate OltTakes(t: Flow, u: nat, p: Packet) {
    GetInPort(t.fields) == u && AllMatch(Except(t.fields, false), Arrival(0, u, 0), p)
  }

  /** A part takes a packet. */
  predicate Takes(part: Choice, at: Arrival, p: Packet) { part.Rule? && Matches(part.flow, at, p) }

  /** A rule takes part in table `t` of the logical device exactly when what it became takes part on the device. */
  predicate Corresponds(f: Flow, part: Choice, t: nat, at: Arrival, metadata: nat, p: Packet) {
    f.tableId == t && Matches(f, Arrival(at.tunnel, at.tunnel, metadata), p) <==> Takes(part, at, p)
  }

  lemma OwnPartCorresponds(f: Flow, r: Flow, port: nat, t: nat, at: Arrival, metadata: nat, p: Packet)
    requires FieldsOk(f.fields) && GetInPort(f.fields) != 0 && f.tableId == t
    requires r.fields == [InPort(port), TunnelId(GetInPort(f.fields))] + Except(f.fields, false)
    requires GetInPort(f.fields) == at.tunnel ==> port == at.inPort
    ensures Corresponds(f, Rule(r), t, at, metadata, p)
  {
    DeviceFieldsMatch(f.fields, port, at, at.tunnel, metadata, p);
    if Matches(f, Arrival(at.tunnel, at.tunnel, metadata), p) {
      MatchAtUni(f.fields, at.tunnel, metadata, p);
    }
  }

  lemma OtherUniCorresponds(f: Flow, t: nat, at: Arrival, metadata: nat, p: Packet)
    requires FieldsOk(f.fields) && GetInPort(f.fields) != 0 && (f.tableId != t || GetInPort(f.fields) != at.tunnel)
    ensures Corresponds(f, NoRule, t, at, metadata, p)
  {
    if Matches(f, Arrival(at.tunnel, at.tunnel, metadata), p) {
      MatchAtUni(f.fields, at.tunnel, metadata, p);
    }
  }

  lemma FirstHopIs(env: Env, f: Flow)
    requires EnvOk(env) && UpstreamRule(env, f)
    ensures var u := GetInPort(f.fields);
      FirstHop(env, u).device == env.ports[u].device && FirstHop(env, u).ingress == env.ports[u].devicePort
  {
    var u := GetInPort(f.fields);
    if FirstTable(f) {
      assert forall a | a in f.actions :: IsRewrite(a) && !a.Output?;
      NoOutput(f.actions);
      var k :| k in env.routes && k.ingress == u;
      assert k == PathId(u, k.egress);
      RouteFromUni(env, u, k.egress);
    } else if SecondTable(env, f) {
      SecondTableBecomes(env, f);
      RouteFromUni(env, u, NniOf(f));
    } else {
      TrapBecomes(env, f);
      RouteFromUni(env, u, env.first);
    }
  }

  /** Where packets of UNI `u` come into its device. */
  function OnuArrival(env: Env, u: nat): Arrival
    requires u in env.ports
  {
    Arrival(env.ports[u].devicePort, u, 0)
  }

  /** Where packets of UNI `u` come into the root device. */
  function OltArrival(env: Env, u: nat): Arrival
    requires u in env.ports
  {
    Arrival(OltPort(env, u), u, 0)
  }

  lemma OnuPartCorresponds(env: Env, f: Flow, u: nat, p: Packet)
    requires EnvOk(env) && UpstreamRule(env, f) && !TrapRule(f) && IsLeaf(env.ports, u)
    ensures Corresponds(f, PartOn(env, f, env.ports[u].device), 0, OnuArrival(env, u), 0, p)
  {
    var v, at, part := GetInPort(f.fields), OnuArrival(env, u), PartOn(env, f, env.ports[u].device);
    if FirstTable(f) {
      FirstTableBecomes(env, f);
      FirstHopIs(env, f);
      if part.Rule? {
        OwnPartCorresponds(f, part.flow, env.ports[v].devicePort, 0, at, 0, p);
      } else {
        OtherUniCorresponds(f, 0, at, 0, p);
      }
    } else {
      SecondTableBecomes(env, f);
      OtherUniCorresponds(f, 0, at, 0, p);
    }
  }

  lemma OltPartCorresponds(env: Env, f: Flow, u: nat, metadata: nat, p: Packet)
    requires EnvOk(env) && UpstreamRule(env, f) && !TrapRule(f) && IsLeaf(env.ports, u)
    ensures Corresponds(f, PartOn(env, f, env.root), 1, OltArrival(env, u), metadata, p)
  {
    var at, part := OltArrival(env, u), PartOn(env, f, env.root);
    if FirstTable(f) {
      FirstTableBecomes(env, f);
      OtherUniCorresponds(f, 1, at, metadata, p);
    } else {
      SecondTableBecomes(env, f);
      OwnPartCorresponds(f, part.flow, OltPort(env, GetInPort(f.fields)), 1, at, metadata, p);
    }
  }

  /** The ONU part of a rule for the controller takes a packet exactly if its fields, but for the VLAN id, say so. */
  lemma TrapOnOnu(env: Env, t: Flow, u: nat, p: Packet)
    requires EnvOk(env) && UpstreamRule(env, t) && TrapRule(t) && IsLeaf(env.ports, u)
    ensures Takes(PartOn(env, t, env.ports[u].device), OnuArrival(env, u), p) <==> OnuTakes(t, u, p)
  {
    var v := GetInPort(t.fields);
    TrapBecomes(env, t);
    FirstHopIs(env, t);
    ChildFieldsMatch(t.fields, GetVlanVid(t.fields).Some?, FirstHop(env, v).ingress, OnuArrival(env, u), p);
  }

  /** The OLT part of a rule for the controller takes a packet exactly if its fields say so. */
  lemma TrapOnOlt(env: Env, t: Flow, u: nat, p: Packet)
    requires EnvOk(env) && UpstreamRule(env, t) && TrapRule(t) && IsLeaf(env.ports, u)
    ensures Takes(PartOn(env, t, env.root), OltArrival(env, u), p) <==> OltTakes(t, u, p)
  {
    TrapBecomes(env, t);
    ChildFieldsMatch(t.fields, false, OltPort(env, GetInPort(t.fields)), OltArrival(env, u), p);
  }

  /** A rule that takes part on the ONU or the OLT is a rule of the UNI that is about the packet, whatever the tags. */
  lemma PartIsAbout(env: Env, f: Flow, u: nat, p: Packet)
    requires EnvOk(env) && UpstreamRule(env, f) && IsLeaf(env.ports, u)
    requires Takes(PartOn(env, f, env.ports[u].device), OnuArrival(env, u), p) || Takes(PartOn(env, f, env.root), OltArrival(env, u), p)
    ensures GetInPort(f.fields) == u && MatchesUntagged(f.fields, u, p)
  {
    if TrapRule(f) {
      TrapOnOnu(env, f, u, p);
      TrapOnOlt(env, f, u, p);
      FewerFieldsMatch(f.fields, !OltTakes(f, u, p) && GetVlanVid(f.fields).Some?, u, p);
    } else {
      OnuPartCorresponds(env, f, u, p);
      OltPartCorresponds(env, f, u, 0, p);
      MatchAtUni(f.fields, u, 0, p);
    }
  }

  // ----- What parts do -----

  lemma TrapFieldsKept(fields: seq<Field>, port: nat, v: nat)
    ensures HasTrapField([InPort(port), TunnelId(v)] + Except(fields, false)) <==> HasTrapField(fields)
  {
    var device := [InPort(port), TunnelId(v)] + Except(fields, false);
    if HasTrapField(fields) {
      var i :| 0 <= i < |fields| && IsTrapField(fields[i]);
      assert fields[i] in Except(fields, false);
      var j :| 0 <= j < |Except(fields, false)| && Except(fields, false)[j] == fields[i];
      assert IsTrapField(device[j + 2]);
    }
    if HasTrapField(device) {
      var j :| 0 <= j < |device| && IsTrapField(device[j]);
      assert device[j] == Except(fields, false)[j - 2];
      assert device[j] in fields;
    }
  }

  /** The port of the OLT at which a rule of the second table lets packets out. */
  function ExitOf(env: Env, g: Flow): nat
    requires NniOf(g) in env.ports
  {
    if HasTrapField(g.fields) then OFPP_CONTROLLER else env.ports[NniOf(g)].devicePort
  }

  /** What a rule of the second table became rewrites like it, and lets packets out at its exit. */
  lemma OltFlowSends(env: Env, g: Flow, p: Packet)
    requires EnvOk(env) && UpstreamRule(env, g) && SecondTable(env, g)
    ensures NniOf(g) in env.ports && PartOn(env, g, env.root).Rule?
    ensures Sends(PartOn(env, g, env.root).flow.actions, p) == [Sent(ExitOf(env, g), Rewritten(WithoutOutputs(g.actions), p))]
  {
    var u := GetInPort(g.fields);
    SecondTableBecomes(env, g);
    SecondTableActions(env, g);
    TrapFieldsKept(g.fields, OltPort(env, u), u);
    RewriteThenOutput(WithoutOutputs(g.actions), ExitOf(env, g), p);
  }

  lemma OnuFlowSends(env: Env, f: Flow, p: Packet)
    requires EnvOk(env) && UpstreamRule(env, f) && FirstTable(f)
    ensures var u := GetInPort(f.fields);
      && OnuPort(env.net, env.ports[u].device, env.root).Some? && PartOn(env, f, env.ports[u].device).Rule?
      && OnuPort(env.net, env.ports[u].device, env.root).value.peers != []
      && Sends(PartOn(env, f, env.ports[u].device).flow.actions, p)
         == [Sent(OnuPort(env.net, env.ports[u].device, env.root).value.portNo, Rewritten(f.actions, p))]
  {
    var u := GetInPort(f.fields);
    FirstTableBecomes(env, f);
    assert forall a | a in f.actions :: IsRewrite(a) && !a.Output?;
    NoOutput(f.actions);
    var k :| k in env.routes && k.ingress == u;
    assert k == PathId(u, k.egress);
    RouteFromUni(env, u, k.egress);
    RewriteThenOutput(f.actions, FirstHop(env, u).egress, p);
  }

  /** The packet as the ONU passes it on: with the tag that the rule asks for. */
  function Offered(t: Flow, p: Packet): Packet {
    match GetVlanVid(t.fields)
    case None => p
    case Some(vid) => p.(vlans := [vid] + p.vlans)
  }

  /** The packet as it leaves the OLT. */
  function Trapped(t: Flow, p: Packet): Packet { Offered(t, p).(vlans := [TRAP_VID] + Offered(t, p).vlans) }

  lemma RewrittenOnce(a: Action, p: Packet)
    ensures Rewritten([a], p) == Rewrite(a, p)
  {
    var one := [a];
    assert one[1..] == [];
    assert Rewritten(one[1..], Rewrite(a, p)) == Rewrite(a, p);
  }

  /** Pushing a tag and setting its VID puts the tag on top. */
  lemma Retagged(p: Packet, vid: nat)
    ensures Rewrite(SetField(VlanVid(vid)), Rewrite(PushVlan(0x8100), p)) == p.(vlans := [vid] + p.vlans)
  {
    assert Rewrite(PushVlan(0x8100), p).vlans[0 := vid] == [vid] + p.vlans;
  }

  lemma PushTag(p: Packet, vid: nat, port: nat)
    ensures Sends([PushVlan(0x8100), SetField(VlanVid(vid)), Output(port)], p) == [Sent(port, p.(vlans := [vid] + p.vlans))]
  {
    var push, retag := PushVlan(0x8100), SetField(VlanVid(vid));
    assert [push, retag, Output(port)] == ([push] + [retag]) + [Output(port)];
    RewriteThenOutput([push] + [retag], port, p);
    SendsConcat([push], [retag], p);
    RewrittenOnce(push, p);
    RewrittenOnce(retag, Rewrite(push, p));
    Retagged(p, vid);
  }

  lemma TrapChildActs(t: Flow, hop: Hop, u: nat, p: Packet)
    requires FieldsOk(t.fields) && GetInPort(t.fields) == u && MatchesUntagged(t.fields, u, p)
    ensures Matches(TrapChild(hop, u, t), Arrival(hop.ingress, u, 0), p)
    ensures Sends(TrapChild(hop, u, t).actions, p) == [Sent(hop.egress, Offered(t, p))]
  {
    var vid := GetVlanVid(t.fields);
    VlanVidIsThere(t.fields);
    assert forall g | g in Except(t.fields, vid.Some?) :: g in Except(t.fields, true);
    ChildFieldsMatch(t.fields, vid.Some?, hop.ingress, Arrival(hop.ingress, u, 0), p);
    if vid.Some? {
      PushTag(p, vid.value, hop.egress);
      assert [PushVlan(0x8100), SetField(VlanVid(vid.value))] + [Output(hop.egress)]
          == [PushVlan(0x8100), SetField(VlanVid(vid.value)), Output(hop.egress)];
    } else {
      RewriteThenOutput([], hop.egress, p);
    }
  }

  lemma TrapParentMatches(t: Flow, hop: Hop, u: nat, p: Packet)
    requires FieldsOk(t.fields) && GetInPort(t.fields) == u && MatchesUntagged(t.fields, u, p)
    ensures Matches(TrapParent(hop, u, t), Arrival(hop.ingress, u, 0), Offered(t, p))
  {
    VlanVidIsThere(t.fields);
    TagsDoNotMatter(t.fields, u, p, Offered(t, p).vlans);
    forall g | g in Except(t.fields, false)
      ensures FieldMatches(g, Arrival(0, u, 0), Offered(t, p))
    {
      assert FieldOk(t.fields, g);
      assert !g.VlanVid? ==> g in Except(t.fields, true);
    }
    ChildFieldsMatch(t.fields, false, hop.ingress, Arrival(hop.ingress, u, 0), Offered(t, p));
  }

  /** Where the OLT part of a rule for the controller lets packets out. */
  function TrapExit(env: Env, t: Flow): nat
    requires env.first in env.ports
  {
    if HasTrapField(t.fields) then OFPP_CONTROLLER else env.ports[env.first].devicePort
  }

  lemma TrapParentSends(env: Env, t: Flow, hop: Hop, u: nat, p: Packet)
    requires env.first in env.ports && hop.egress == env.ports[env.first].devicePort
    ensures Sends(Redirected(TrapParent(hop, u, t)).actions, p) == [Sent(TrapExit(env, t), p.(vlans := [TRAP_VID] + p.vlans))]
    ensures Redirected(TrapParent(hop, u, t)).fields == TrapParent(hop, u, t).fields
  {
    TrapFieldsKept(t.fields, hop.ingress, u);
    var rewrites := [PushVlan(0x8100), SetField(VlanVid(TRAP_VID))];
    assert TrapParent(hop, u, t).actions == rewrites + [Output(hop.egress)];
    LastOutput(rewrites, hop.egress);
    assert rewrites + [Output(TrapExit(env, t))] == [PushVlan(0x8100), SetField(VlanVid(TRAP_VID)), Output(TrapExit(env, t))];
    PushTag(p, TRAP_VID, TrapExit(env, t));
  }

  lemma TrapPartSends(env: Env, t: Flow, u: nat, p: Packet)
    requires EnvOk(env) && UpstreamRule(env, t) && TrapRule(t) && GetInPort(t.fields) == u && HasTrapField(t.fields)
    ensures PartOn(env, t, env.root).Rule?
    ensures Sends(PartOn(env, t, env.root).flow.actions, p) == [Sent(OFPP_CONTROLLER, p.(vlans := [TRAP_VID] + p.vlans))]
  {
    TrapBecomes(env, t);
    TrapParentSends(env, t, LastHop(env, u, env.first), u, p);
  }
}
