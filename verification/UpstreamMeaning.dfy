/**
  What decomposed rules do to packets from a UNI: the ONU, the PON link and the OLT together do what the two tables of the
  logical device do, and rules for the controller end there.
*/
module UpstreamMeaning {
  import opened OpenFlow
  import opened Pipeline
  import opened RouteMaps
  import opened FlowCompiler
  import opened Choosing
  import opened UpstreamRules

  // ----- Running packets -----

  /** Packets sent on a port go over the link of that port. */
  function Carried(sent: seq<Sent>, port: nat, table: seq<Flow>, at: Arrival): seq<Sent> {
    if sent == [] then []
    else (if sent[0].port == port then Process(table, 0, at, sent[0].packet) else []) + Carried(sent[1..], port, table, at)
  }

  /** A packet from UNI `u` through the ONU, the PON link and the OLT. */
  function RunDevices(env: Env, flows: seq<Flow>, u: nat, p: Packet): seq<Sent>
    requires FromUnis(env, flows) && u in env.ports
  {
    match OnuPort(env.net, env.ports[u].device, env.root)
    case None => []
    case Some(q) =>
      if q.peers == [] then []
      else Carried(Process(TableOf(env, flows, env.ports[u].device), 0, Arrival(env.ports[u].devicePort, u, 0), p),
                   q.portNo, TableOf(env, flows, env.root), Arrival(q.peers[0].portNo, u, 0))
  }

  /** A packet from UNI `u` through the tables of the logical device. */
  function RunLogical(flows: seq<Flow>, u: nat, p: Packet): seq<Sent> { Process(flows, 0, Arrival(u, u, 0), p) }

  predicate ReachesController(sent: seq<Sent>) { exists i | 0 <= i < |sent| :: IsController(sent[i].port) }

  // ----- Choices -----

  function FirstChoice(flows: seq<Flow>, u: nat, p: Packet): Choice { Best(InTable(flows, 0), Arrival(u, u, 0), p) }

  /** The packet after the first table. */
  function Passed(flows: seq<Flow>, u: nat, p: Packet): Packet {
    match FirstChoice(flows, u, p)
    case NoRule => p
    case Rule(f) => Rewritten(f.actions, p)
  }

  /** The rule of the second table that a packet from UNI `u` gets to. */
  function SecondChoice(flows: seq<Flow>, u: nat, p: Packet): Choice {
    match FirstChoice(flows, u, p)
    case NoRule => NoRule
    case Rule(f) => Best(InTable(flows, 1), Arrival(u, u, f.writeMetadata), Rewritten(f.actions, p))
  }

  /** The packet after both tables. */
  function Outcome(flows: seq<Flow>, u: nat, p: Packet): Packet {
    match SecondChoice(flows, u, p)
    case NoRule => p
    case Rule(g) => Rewritten(WithoutOutputs(g.actions), Passed(flows, u, p))
  }

  /** The position of the rule that is chosen in the first table, or -1. */
  function FirstWinner(flows: seq<Flow>, u: nat, p: Packet): (k: int)
    ensures -1 <= k < |flows|
  {
    Winner(TableParts(flows, 0), Arrival(u, u, 0), p)
  }

  function SecondWinner(flows: seq<Flow>, u: nat, p: Packet): (k: int)
    ensures -1 <= k < |flows|
  {
    match FirstChoice(flows, u, p)
    case NoRule => -1
    case Rule(f) => Winner(TableParts(flows, 1), Arrival(u, u, f.writeMetadata), Passed(flows, u, p))
  }

  lemma Winners(flows: seq<Flow>, u: nat, p: Packet)
    ensures FirstChoice(flows, u, p) == ChoiceAt(TableParts(flows, 0), FirstWinner(flows, u, p))
    ensures SecondChoice(flows, u, p) == ChoiceAt(TableParts(flows, 1), SecondWinner(flows, u, p))
  {
    BestInTable(flows, 0, Arrival(u, u, 0), p);
    if FirstChoice(flows, u, p).Rule? {
      BestInTable(flows, 1, Arrival(u, u, FirstChoice(flows, u, p).flow.writeMetadata), Passed(flows, u, p));
    }
  }

  /** Rule `k` comes before rule `i`: it has the higher priority, or the same and the earlier position. */
  predicate Precedes(flows: seq<Flow>, k: int, i: int) {
    && 0 <= k < |flows| && 0 <= i < |flows|
    && (flows[i].priority < flows[k].priority || (flows[i].priority == flows[k].priority && k < i))
  }

  /** On the ONU, rules for the controller that take the packet come after the rule of the first table. */
  ghost predicate OnuKeeps(flows: seq<Flow>, u: nat, p: Packet) {
    forall i | 0 <= i < |flows| && TrapRule(flows[i]) && OnuTakes(flows[i], u, p) :: Precedes(flows, FirstWinner(flows, u, p), i)
  }

  /** On the OLT, rules for the controller that take the packet come after the rule of the second table. */
  ghost predicate OltKeeps(flows: seq<Flow>, u: nat, p: Packet) {
    forall i | 0 <= i < |flows| && TrapRule(flows[i]) && OltTakes(flows[i], u, Passed(flows, u, p)) ::
      Precedes(flows, SecondWinner(flows, u, p), i)
  }

  /** The logical device chooses a rule for the controller. */
  predicate TrapFirst(flows: seq<Flow>, u: nat, p: Packet) {
    FirstChoice(flows, u, p).Rule? && TrapRule(FirstChoice(flows, u, p).flow)
  }

  /** The part that a device chooses. */
  function DeviceWinner(env: Env, flows: seq<Flow>, d: DeviceId, at: Arrival, p: Packet): (k: int)
    requires FromUnis(env, flows)
    ensures -1 <= k < |flows| && (k >= 0 ==> PartOn(env, flows[k], d).Rule?)
  {
    Winner(PartsOn(env, flows, d), at, p)
  }

  /** A device chooses the part of rule `k` exactly when it takes the packet and precedes all other parts that do. */
  lemma DeviceWinnerIs(env: Env, flows: seq<Flow>, d: DeviceId, at: Arrival, p: Packet, k: int)
    requires FromUnis(env, flows) && 0 <= k < |flows| && Takes(PartOn(env, flows[k], d), at, p)
    requires forall i | 0 <= i < |flows| && i != k && Takes(PartOn(env, flows[i], d), at, p) :: Precedes(flows, k, i)
    ensures DeviceWinner(env, flows, d, at, p) == k
  {
    var parts := PartsOn(env, flows, d);
    PartIsPlain(env, flows[k], d);
    forall i | TakesPart(parts, i, at, p)
      ensures Before(parts, k, i)
    {
      PartIsPlain(env, flows[i], d);
    }
    assert TakesPart(parts, k, at, p);
    WinnerIs(parts, k, at, p);
  }

  lemma DeviceWinnerWins(env: Env, flows: seq<Flow>, d: DeviceId, at: Arrival, p: Packet)
    requires FromUnis(env, flows)
    ensures var k := DeviceWinner(env, flows, d, at, p);
      && (k >= 0 ==> Takes(PartOn(env, flows[k], d), at, p))
      && (forall i | 0 <= i < |flows| && i != k && Takes(PartOn(env, flows[i], d), at, p) :: Precedes(flows, k, i))
  {
    var parts, k := PartsOn(env, flows, d), DeviceWinner(env, flows, d, at, p);
    WinnerWins(parts, at, p);
    forall i | 0 <= i < |flows| && i != k && Takes(PartOn(env, flows[i], d), at, p)
      ensures Precedes(flows, k, i)
    {
      assert TakesPart(parts, i, at, p);
      PartIsPlain(env, flows[i], d);
      PartIsPlain(env, flows[k], d);
    }
  }

  /** The winner among the rules of a logical table precedes all others of the table that match. */
  lemma TableWinnerWins(flows: seq<Flow>, t: nat, at: Arrival, p: Packet)
    ensures var k := Winner(TableParts(flows, t), at, p);
      && (k >= 0 ==> flows[k].tableId == t && Matches(flows[k], at, p))
      && (forall i | 0 <= i < |flows| && i != k && flows[i].tableId == t && Matches(flows[i], at, p) :: Precedes(flows, k, i))
  {
    var parts, k := TableParts(flows, t), Winner(TableParts(flows, t), at, p);
    WinnerWins(parts, at, p);
    forall i | 0 <= i < |flows| && i != k && flows[i].tableId == t && Matches(flows[i], at, p)
      ensures Precedes(flows, k, i)
    {
      assert TakesPart(parts, i, at, p);
    }
  }

  lemma TableWinnerIs(flows: seq<Flow>, t: nat, at: Arrival, p: Packet, k: int)
    requires 0 <= k < |flows| && flows[k].tableId == t && Matches(flows[k], at, p)
    requires forall i | 0 <= i < |flows| && i != k && flows[i].tableId == t && Matches(flows[i], at, p) :: Precedes(flows, k, i)
    ensures Winner(TableParts(flows, t), at, p) == k
  {
    var parts := TableParts(flows, t);
    forall i | TakesPart(parts, i, at, p)
      ensures Before(parts, k, i)
    {
    }
    assert TakesPart(parts, k, at, p);
    WinnerIs(parts, k, at, p);
  }

  /** The choice in the first table is a rule for this UNI. */
  lemma FirstChoiceIs(env: Env, flows: seq<Flow>, u: nat, p: Packet, f: Flow)
    requires EnvOk(env) && UpstreamFlows(env, flows) && IsLeaf(env.ports, u) && FirstChoice(flows, u, p) == Rule(f)
    ensures f in flows && UpstreamRule(env, f) && GetInPort(f.fields) == u && (FirstTable(f) || TrapRule(f))
  {
    BestIsHighest(InTable(flows, 0), Arrival(u, u, 0), p);
    InTableMembers(flows, 0, f);
    MatchAtUni(f.fields, u, 0, p);
  }

  lemma SecondChoiceIs(env: Env, flows: seq<Flow>, u: nat, p: Packet, g: Flow)
    requires EnvOk(env) && UpstreamFlows(env, flows) && IsLeaf(env.ports, u) && SecondChoice(flows, u, p) == Rule(g)
    ensures g in flows && UpstreamRule(env, g) && SecondTable(env, g) && GetInPort(g.fields) == u
  {
    var at := Arrival(u, u, FirstChoice(flows, u, p).flow.writeMetadata);
    BestIsHighest(InTable(flows, 1), at, Passed(flows, u, p));
    InTableMembers(flows, 1, g);
    MatchAtUni(g.fields, u, at.metadata, Passed(flows, u, p));
  }

  lemma KeptIsNoTrap(env: Env, flows: seq<Flow>, u: nat, p: Packet)
    requires EnvOk(env) && UpstreamFlows(env, flows) && IsLeaf(env.ports, u) && OnuKeeps(flows, u, p)
    ensures !TrapFirst(flows, u, p)
  {
    Winners(flows, u, p);
    TableWinnerWins(flows, 0, Arrival(u, u, 0), p);
    var k := FirstWinner(flows, u, p);
    if TrapFirst(flows, u, p) {
      assert UpstreamRule(env, flows[k]);
      MatchAtUni(flows[k].fields, u, 0, p);
      assert OnuTakes(flows[k], u, p);
      assert false;
    }
  }

  /** On the ONU a part that takes the packet comes after the rule of the first table. */
  lemma OnuPartComesAfter(env: Env, flows: seq<Flow>, u: nat, p: Packet, i: int)
    requires EnvOk(env) && UpstreamFlows(env, flows) && IsLeaf(env.ports, u) && OnuKeeps(flows, u, p)
    requires 0 <= i < |flows| && Takes(PartOn(env, flows[i], env.ports[u].device), OnuArrival(env, u), p)
    ensures i == FirstWinner(flows, u, p) || Precedes(flows, FirstWinner(flows, u, p), i)
  {
    assert UpstreamRule(env, flows[i]);
    if TrapRule(flows[i]) {
      TrapOnOnu(env, flows[i], u, p);
    } else {
      OnuPartCorresponds(env, flows[i], u, p);
      TableWinnerWins(flows, 0, Arrival(u, u, 0), p);
    }
  }

  /** The ONU chooses what the rule chosen in the first table became. */
  lemma OnuWinner(env: Env, flows: seq<Flow>, u: nat, p: Packet)
    requires EnvOk(env) && UpstreamFlows(env, flows) && IsLeaf(env.ports, u) && OnuKeeps(flows, u, p)
    ensures DeviceWinner(env, flows, env.ports[u].device, OnuArrival(env, u), p) == FirstWinner(flows, u, p)
  {
    var d, at, k := env.ports[u].device, OnuArrival(env, u), FirstWinner(flows, u, p);
    forall i | 0 <= i < |flows| && i != k && Takes(PartOn(env, flows[i], d), at, p)
      ensures Precedes(flows, k, i)
    {
      OnuPartComesAfter(env, flows, u, p, i);
    }
    if k >= 0 {
      Winners(flows, u, p);
      KeptIsNoTrap(env, flows, u, p);
      TableWinnerWins(flows, 0, Arrival(u, u, 0), p);
      assert UpstreamRule(env, flows[k]);
      OnuPartCorresponds(env, flows[k], u, p);
      DeviceWinnerIs(env, flows, d, at, p, k);
    } else {
      DeviceWinnerWins(env, flows, d, at, p);
    }
  }

  /** The part that the OLT chooses for the packet after the first table. */
  function OltWinner(env: Env, flows: seq<Flow>, u: nat, p: Packet): (k: int)
    requires FromUnis(env, flows) && u in env.ports
    ensures -1 <= k < |flows| && (k >= 0 ==> PartOn(env, flows[k], env.root).Rule?)
  {
    DeviceWinner(env, flows, env.root, OltArrival(env, u), Passed(flows, u, p))
  }

  /** On the OLT a part of a rule that is not for the controller comes after the rule of the second table. */
  lemma OltPartComesAfter(env: Env, flows: seq<Flow>, u: nat, p: Packet, i: int)
    requires EnvOk(env) && UpstreamFlows(env, flows) && IsLeaf(env.ports, u) && FirstChoice(flows, u, p).Rule?
    requires 0 <= i < |flows| && Takes(PartOn(env, flows[i], env.root), OltArrival(env, u), Passed(flows, u, p))
    requires OltKeeps(flows, u, p) || !TrapRule(flows[i])
    ensures i == SecondWinner(flows, u, p) || Precedes(flows, SecondWinner(flows, u, p), i)
  {
    var metadata, p1 := FirstChoice(flows, u, p).flow.writeMetadata, Passed(flows, u, p);
    assert UpstreamRule(env, flows[i]);
    if TrapRule(flows[i]) {
      TrapOnOlt(env, flows[i], u, p1);
    } else {
      OltPartCorresponds(env, flows[i], u, metadata, p1);
      TableWinnerWins(flows, 1, Arrival(u, u, metadata), p1);
    }
  }

  /** The OLT chooses what the rule chosen in the second table became. */
  lemma OltWinnerIs(env: Env, flows: seq<Flow>, u: nat, p: Packet)
    requires EnvOk(env) && UpstreamFlows(env, flows) && IsLeaf(env.ports, u) && OltKeeps(flows, u, p)
    requires FirstChoice(flows, u, p).Rule?
    ensures OltWinner(env, flows, u, p) == SecondWinner(flows, u, p)
  {
    var at, k, p1 := OltArrival(env, u), SecondWinner(flows, u, p), Passed(flows, u, p);
    var metadata := FirstChoice(flows, u, p).flow.writeMetadata;
    forall i | 0 <= i < |flows| && i != k && Takes(PartOn(env, flows[i], env.root), at, p1)
      ensures Precedes(flows, k, i)
    {
      OltPartComesAfter(env, flows, u, p, i);
    }
    if k >= 0 {
      TableWinnerWins(flows, 1, Arrival(u, u, metadata), p1);
      assert UpstreamRule(env, flows[k]);
      OltPartCorresponds(env, flows[k], u, metadata, p1);
      DeviceWinnerIs(env, flows, env.root, at, p1, k);
    } else {
      DeviceWinnerWins(env, flows, env.root, at, p1);
    }
  }

  // ----- Runs -----

  /** The logical device sends the outcome to the NNI of the rule in the second table. */
  lemma LogicalRun(env: Env, flows: seq<Flow>, u: nat, p: Packet)
    requires EnvOk(env) && UpstreamFlows(env, flows) && IsLeaf(env.ports, u) && !TrapFirst(flows, u, p)
    ensures RunLogical(flows, u, p)
         == match SecondChoice(flows, u, p)
            case NoRule => []
            case Rule(g) => [Sent(NniOf(g), Outcome(flows, u, p))]
  {
    match FirstChoice(flows, u, p)
    case NoRule =>
    case Rule(f) =>
      FirstChoiceIs(env, flows, u, p, f);
      RewritesSendNothing(f.actions, p);
      LogicalSecondTable(env, flows, u, p);
  }

  lemma LogicalSecondTable(env: Env, flows: seq<Flow>, u: nat, p: Packet)
    requires EnvOk(env) && UpstreamFlows(env, flows) && IsLeaf(env.ports, u) && FirstChoice(flows, u, p).Rule?
    ensures Process(flows, 1, Arrival(u, u, FirstChoice(flows, u, p).flow.writeMetadata), Passed(flows, u, p))
         == match SecondChoice(flows, u, p)
            case NoRule => []
            case Rule(g) => [Sent(NniOf(g), Outcome(flows, u, p))]
  {
    match SecondChoice(flows, u, p)
    case NoRule =>
    case Rule(g) =>
      SecondChoiceIs(env, flows, u, p, g);
      SecondTableActions(env, g);
      RewriteThenOutput(WithoutOutputs(g.actions), NniOf(g), Passed(flows, u, p));
  }

  lemma {:induction false} OutputIsSent(actions: seq<Action>, p: Packet)
    requires GetOutPort(actions) != 0
    ensures exists i | 0 <= i < |Sends(actions, p)| :: Sends(actions, p)[i].port == GetOutPort(actions)
  {
    if actions[0].Output? {
      assert Sends(actions, p)[0].port == GetOutPort(actions);
    } else {
      OutputIsSent(actions[1..], Rewrite(actions[0], p));
      assert Sends(actions, p) == Sends(actions[1..], Rewrite(actions[0], p));
    }
  }

  /** The logical device sends a packet to the controller exactly when it chooses a rule for the controller. */
  lemma LogicalToController(env: Env, flows: seq<Flow>, u: nat, p: Packet)
    requires EnvOk(env) && UpstreamFlows(env, flows) && IsLeaf(env.ports, u)
    ensures ReachesController(RunLogical(flows, u, p)) <==> TrapFirst(flows, u, p)
  {
    if TrapFirst(flows, u, p) {
      var t := FirstChoice(flows, u, p).flow;
      OutputIsSent(t.actions, p);
      assert RunLogical(flows, u, p) == Sends(t.actions, p);
    } else {
      LogicalRun(env, flows, u, p);
      match SecondChoice(flows, u, p)
      case NoRule =>
      case Rule(g) =>
        SecondChoiceIs(env, flows, u, p, g);
        SecondTableActions(env, g);
    }
  }

  /** The ONU passes the packet on as the first table leaves it, or not at all. */
  lemma OnuRun(env: Env, flows: seq<Flow>, u: nat, p: Packet)
    requires EnvOk(env) && UpstreamFlows(env, flows) && IsLeaf(env.ports, u) && OnuKeeps(flows, u, p)
    ensures FirstChoice(flows, u, p).Rule? ==>
      OnuPort(env.net, env.ports[u].device, env.root).Some? && OnuPort(env.net, env.ports[u].device, env.root).value.peers != []
    ensures Process(TableOf(env, flows, env.ports[u].device), 0, OnuArrival(env, u), p)
         == if FirstChoice(flows, u, p).NoRule? then []
            else [Sent(OnuPort(env.net, env.ports[u].device, env.root).value.portNo, Passed(flows, u, p))]
  {
    OnuWinner(env, flows, u, p);
    Winners(flows, u, p);
    DeviceProcess(env, flows, env.ports[u].device, OnuArrival(env, u), p);
    match FirstChoice(flows, u, p)
    case NoRule =>
    case Rule(f) =>
      FirstChoiceIs(env, flows, u, p, f);
      KeptIsNoTrap(env, flows, u, p);
      OnuFlowSends(env, f, p);
  }

  /** What the devices do is what the OLT does with the packet that the ONU passes on. */
  lemma DevicesAreOlt(env: Env, flows: seq<Flow>, u: nat, p: Packet)
    requires EnvOk(env) && UpstreamFlows(env, flows) && IsLeaf(env.ports, u) && OnuKeeps(flows, u, p)
    ensures RunDevices(env, flows, u, p)
         == if FirstChoice(flows, u, p).NoRule? || OltWinner(env, flows, u, p) == -1 then []
            else Sends(PartOn(env, flows[OltWinner(env, flows, u, p)], env.root).flow.actions, Passed(flows, u, p))
  {
    OnuRun(env, flows, u, p);
    if FirstChoice(flows, u, p).Rule? {
      var p1, q := Passed(flows, u, p), OnuPort(env.net, env.ports[u].device, env.root).value;
      DeviceProcess(env, flows, env.root, OltArrival(env, u), p1);
      CarriedOne(q.portNo, p1, TableOf(env, flows, env.root), OltArrival(env, u));
    }
  }

  /** The devices send the same packet, out at the exit of the same rule. */
  lemma DevicesRun(env: Env, flows: seq<Flow>, u: nat, p: Packet)
    requires EnvOk(env) && UpstreamFlows(env, flows) && IsLeaf(env.ports, u) && OnuKeeps(flows, u, p)
    requires FirstChoice(flows, u, p).Rule? ==> OltKeeps(flows, u, p)
    ensures SecondChoice(flows, u, p).Rule? ==> NniOf(SecondChoice(flows, u, p).flow) in env.ports
    ensures RunDevices(env, flows, u, p)
         == match SecondChoice(flows, u, p)
            case NoRule => []
            case Rule(g) => [Sent(ExitOf(env, g), Outcome(flows, u, p))]
  {
    DevicesAreOlt(env, flows, u, p);
    if FirstChoice(flows, u, p).Rule? {
      OltWinnerIs(env, flows, u, p);
      Winners(flows, u, p);
      match SecondChoice(flows, u, p)
      case NoRule =>
      case Rule(g) =>
        SecondChoiceIs(env, flows, u, p, g);
        OltFlowSends(env, g, Passed(flows, u, p));
    }
  }

  lemma CarriedOne(port: nat, p: Packet, table: seq<Flow>, at: Arrival)
    ensures Carried([Sent(port, p)], port, table, at) == Process(table, 0, at, p)
  {
    var sent := [Sent(port, p)];
    assert sent[1..] == [];
    assert Carried(sent[1..], port, table, at) == [];
  }

  /** What the logical device sends to an NNI comes out at that NNI's port of the root device. */
  function AtRootDevice(env: Env, sent: seq<Sent>): seq<Sent> {
    if sent == [] then []
    else
      [if sent[0].port in env.ports then Sent(env.ports[sent[0].port].devicePort, sent[0].packet) else sent[0]]
      + AtRootDevice(env, sent[1..])
  }

  /** The packet gets to a rule that the decomposer turns towards the controller. */
  predicate TurnedAway(flows: seq<Flow>, u: nat, p: Packet) {
    SecondChoice(flows, u, p).Rule? && HasTrapField(SecondChoice(flows, u, p).flow.fields)
  }

  /** The OLT prefers a rule for the controller to the rule of the second table. */
  ghost predicate TakenAtOlt(flows: seq<Flow>, u: nat, p: Packet) {
    FirstChoice(flows, u, p).Rule? && !OltKeeps(flows, u, p)
  }

  /** Rules of a UNI for the controller are about EAPOL, IGMP or UDP. */
  ghost predicate TrapsMarked(flows: seq<Flow>, u: nat) {
    forall t | t in flows && TrapRule(t) && GetInPort(t.fields) == u :: HasTrapField(t.fields)
  }

  /** A rule for the controller that does not come after the rule of the second table leaves the choice among its like. */
  lemma TakenIsTrap(env: Env, flows: seq<Flow>, u: nat, p: Packet)
    requires EnvOk(env) && UpstreamFlows(env, flows) && IsLeaf(env.ports, u) && TakenAtOlt(flows, u, p)
    ensures var w := OltWinner(env, flows, u, p); w >= 0 && TrapRule(flows[w]) && GetInPort(flows[w].fields) == u
  {
    var w, p1 := OltWinner(env, flows, u, p), Passed(flows, u, p);
    var i :| 0 <= i < |flows| && TrapRule(flows[i]) && OltTakes(flows[i], u, p1) && !Precedes(flows, SecondWinner(flows, u, p), i);
    assert UpstreamRule(env, flows[i]);
    TrapOnOlt(env, flows[i], u, p1);
    DeviceWinnerWins(env, flows, env.root, OltArrival(env, u), p1);
    assert w >= 0 && UpstreamRule(env, flows[w]);
    if !TrapRule(flows[w]) {
      OltPartComesAfter(env, flows, u, p, w);
      assert false;
    }
    TrapOnOlt(env, flows[w], u, p1);
  }

  /** When the OLT prefers a rule for the controller, the packet ends there. */
  lemma {:induction false} TakenGoesToController(env: Env, flows: seq<Flow>, u: nat, p: Packet)
    requires EnvOk(env) && UpstreamFlows(env, flows) && IsLeaf(env.ports, u) && OnuKeeps(flows, u, p)
    requires TrapsMarked(flows, u) && TakenAtOlt(flows, u, p)
    ensures RunDevices(env, flows, u, p) != [] && RunDevices(env, flows, u, p)[0].port == OFPP_CONTROLLER
  {
    DevicesAreOlt(env, flows, u, p);
    TakenIsTrap(env, flows, u, p);
    var t := flows[OltWinner(env, flows, u, p)];
    assert t in flows && UpstreamRule(env, t);
    TrapPartSends(env, t, u, Passed(flows, u, p));
  }

  /**
    The devices do with a packet what the logical device does with it, exactly when the rule of the second table that it
    gets to has no EAPOL, IGMP or UDP field and the OLT prefers no rule for the controller to it.
  */
  lemma MeaningPreserved(env: Env, flows: seq<Flow>, u: nat, p: Packet)
    requires EnvOk(env) && UpstreamFlows(env, flows) && IsLeaf(env.ports, u) && OnuKeeps(flows, u, p) && TrapsMarked(flows, u)
    ensures RunDevices(env, flows, u, p) == AtRootDevice(env, RunLogical(flows, u, p))
       <==> !TurnedAway(flows, u, p) && !TakenAtOlt(flows, u, p)
  {
    KeptIsNoTrap(env, flows, u, p);
    LogicalRun(env, flows, u, p);
    LogicalAtRoot(env, flows, u, p);
    if TakenAtOlt(flows, u, p) {
      TakenGoesToController(env, flows, u, p);
    } else {
      DevicesRun(env, flows, u, p);
      assert SecondChoice(flows, u, p).Rule? ==> RunDevices(env, flows, u, p)[0].port == ExitOf(env, SecondChoice(flows, u, p).flow);
    }
  }

  lemma LogicalAtRoot(env: Env, flows: seq<Flow>, u: nat, p: Packet)
    requires EnvOk(env) && UpstreamFlows(env, flows) && IsLeaf(env.ports, u) && !TrapFirst(flows, u, p)
    ensures SecondChoice(flows, u, p).Rule? ==> NniOf(SecondChoice(flows, u, p).flow) in env.ports
    ensures AtRootDevice(env, RunLogical(flows, u, p))
         == match SecondChoice(flows, u, p)
            case NoRule => []
            case Rule(g) => [Sent(env.ports[NniOf(g)].devicePort, Outcome(flows, u, p))]
  {
    LogicalRun(env, flows, u, p);
    match SecondChoice(flows, u, p)
    case NoRule =>
    case Rule(g) =>
      SecondChoiceIs(env, flows, u, p, g);
      SecondTableActions(env, g);
      var sent := RunLogical(flows, u, p);
      assert sent[1..] == [] && AtRootDevice(env, sent[1..]) == [];
  }

  // ----- Packets for the controller -----

  /**
    Rule `k` sends packets of UNI `u` to the controller, and comes before all other rules of that UNI that are about `p`,
    whatever the tags.
  */
  ghost predicate TopTrap(flows: seq<Flow>, u: nat, p: Packet, k: int) {
    && 0 <= k < |flows| && TrapRule(flows[k]) && GetInPort(flows[k].fields) == u && MatchesUntagged(flows[k].fields, u, p)
    && forall i | 0 <= i < |flows| && i != k && GetInPort(flows[i].fields) == u && MatchesUntagged(flows[i].fields, u, p) ::
         Precedes(flows, k, i)
  }

  lemma TopTrapWithTags(flows: seq<Flow>, u: nat, p: Packet, k: int, vlans: seq<nat>)
    requires TopTrap(flows, u, p, k)
    ensures TopTrap(flows, u, p.(vlans := vlans), k)
  {
    forall i | 0 <= i < |flows|
      ensures MatchesUntagged(flows[i].fields, u, p) <==> MatchesUntagged(flows[i].fields, u, p.(vlans := vlans))
    {
      TagsDoNotMatter(flows[i].fields, u, p, vlans);
    }
  }

  lemma TopOnDevice(env: Env, flows: seq<Flow>, u: nat, p: Packet, k: int, d: DeviceId, at: Arrival)
    requires EnvOk(env) && UpstreamFlows(env, flows) && IsLeaf(env.ports, u) && TopTrap(flows, u, p, k)
    requires (d == env.ports[u].device && at == OnuArrival(env, u)) || (d == env.root && at == OltArrival(env, u))
    requires Takes(PartOn(env, flows[k], d), at, p)
    ensures DeviceWinner(env, flows, d, at, p) == k
  {
    forall i | 0 <= i < |flows| && i != k && Takes(PartOn(env, flows[i], d), at, p)
      ensures Precedes(flows, k, i)
    {
      assert UpstreamRule(env, flows[i]);
      PartIsAbout(env, flows[i], u, p);
    }
    DeviceWinnerIs(env, flows, d, at, p, k);
  }

  /**
    A packet that a rule for the controller is about, before all other rules of its UNI, leaves the OLT with the tag 4000,
    above the tag that the rule asks for, at the controller if and only if the rule has an EAPOL, IGMP or UDP field.
  */
  lemma TrapReachesController(env: Env, flows: seq<Flow>, u: nat, p: Packet, k: int)
    requires EnvOk(env) && UpstreamFlows(env, flows) && IsLeaf(env.ports, u) && TopTrap(flows, u, p, k)
    ensures IsRoot(env.ports, env.first) && RunDevices(env, flows, u, p) == [Sent(TrapExit(env, flows[k]), Trapped(flows[k], p))]
    ensures RunDevices(env, flows, u, p)[0].port == OFPP_CONTROLLER <==> HasTrapField(flows[k].fields)
  {
    var t, d, onu, olt := flows[k], env.ports[u].device, OnuArrival(env, u), OltArrival(env, u);
    assert UpstreamRule(env, t);
    TrapBecomes(env, t);
    RouteFromUni(env, u, env.first);
    var p1 := Offered(t, p);
    TrapChildActs(t, FirstHop(env, u), u, p);
    TrapParentMatches(t, LastHop(env, u, env.first), u, p);
    TrapParentSends(env, t, LastHop(env, u, env.first), u, p1);
    TopTrapWithTags(flows, u, p, k, p1.vlans);
    TopOnDevice(env, flows, u, p, k, d, onu);
    TopOnDevice(env, flows, u, p1, k, env.root, olt);
    DeviceProcess(env, flows, d, onu, p);
    DeviceProcess(env, flows, env.root, olt, p1);
    CarriedOne(FirstHop(env, u).egress, p1, TableOf(env, flows, env.root), olt);
  }

  /** The rule asks for no VLAN id, or for that of the packet's outer tag. */
  predicate TagFits(t: Flow, p: Packet) { GetVlanVid(t.fields).Some? ==> GetVlanVid(t.fields).value == Vid(p) }

  lemma MatchesIffTagFits(fields: seq<Field>, u: nat, p: Packet)
    requires FieldsOk(fields) && GetInPort(fields) == u && MatchesUntagged(fields, u, p)
    ensures AllMatch(fields, Arrival(u, u, 0), p) <==> GetVlanVid(fields).Some? ==> GetVlanVid(fields).value == Vid(p)
  {
    VlanVidIsThere(fields);
    if GetVlanVid(fields).Some? ==> GetVlanVid(fields).value == Vid(p) {
      forall g | g in fields
        ensures FieldMatches(g, Arrival(u, u, 0), p)
      {
        assert FieldOk(fields, g);
        assert !g.InPort? && !g.VlanVid? ==> g in Except(fields, true);
      }
    }
  }

  /** The logical device chooses such a rule exactly for packets with the tag that it asks for. */
  lemma ChosenIffTagFits(env: Env, flows: seq<Flow>, u: nat, p: Packet, k: int)
    requires EnvOk(env) && UpstreamFlows(env, flows) && IsLeaf(env.ports, u) && TopTrap(flows, u, p, k)
    ensures FirstWinner(flows, u, p) == k <==> TagFits(flows[k], p)
  {
    assert UpstreamRule(env, flows[k]);
    MatchesIffTagFits(flows[k].fields, u, p);
    if TagFits(flows[k], p) {
      forall i | 0 <= i < |flows| && i != k && flows[i].tableId == 0 && Matches(flows[i], Arrival(u, u, 0), p)
        ensures Precedes(flows, k, i)
      {
        assert UpstreamRule(env, flows[i]);
        MatchAtUni(flows[i].fields, u, 0, p);
      }
      TableWinnerIs(flows, 0, Arrival(u, u, 0), p, k);
    } else {
      TableWinnerWins(flows, 0, Arrival(u, u, 0), p);
    }
  }

  /** No other rule for the controller is about the packet. */
  ghost predicate OnlyTrap(flows: seq<Flow>, u: nat, p: Packet, k: int) {
    forall i | 0 <= i < |flows| && i != k && TrapRule(flows[i]) && GetInPort(flows[i].fields) == u :: !MatchesUntagged(flows[i].fields, u, p)
  }

  /**
    The devices send the packets of such a rule to the controller whatever their tag; the logical device does so exactly
    for the tag that the rule asks for, unless it chooses another rule for the controller.
  */
  lemma ControllerIffTagFits(env: Env, flows: seq<Flow>, u: nat, p: Packet, k: int)
    requires EnvOk(env) && UpstreamFlows(env, flows) && IsLeaf(env.ports, u) && TopTrap(flows, u, p, k)
    requires HasTrapField(flows[k].fields) && OnlyTrap(flows, u, p, k)
    ensures ReachesController(RunDevices(env, flows, u, p))
    ensures ReachesController(RunLogical(flows, u, p)) <==> TagFits(flows[k], p)
  {
    TrapReachesController(env, flows, u, p, k);
    LogicalToController(env, flows, u, p);
    ChosenIffTagFits(env, flows, u, p, k);
    Winners(flows, u, p);
    TableWinnerWins(flows, 0, Arrival(u, u, 0), p);
    var w := FirstWinner(flows, u, p);
    if TrapFirst(flows, u, p) {
      assert UpstreamRule(env, flows[w]);
      MatchAtUni(flows[w].fields, u, 0, p);
    }
  }

  /** The packet stays with the rule of the first table exactly when the ONU does not choose a rule for the controller. */
  lemma KeepsIff(env: Env, flows: seq<Flow>, u: nat, p: Packet)
    requires EnvOk(env) && UpstreamFlows(env, flows) && IsLeaf(env.ports, u)
    ensures var k := DeviceWinner(env, flows, env.ports[u].device, OnuArrival(env, u), p);
      OnuKeeps(flows, u, p) <==> k == -1 || !TrapRule(flows[k])
  {
    if OnuKeeps(flows, u, p) {
      OnuWinner(env, flows, u, p);
      KeptIsNoTrap(env, flows, u, p);
      Winners(flows, u, p);
    } else {
      var i :| 0 <= i < |flows| && TrapRule(flows[i]) && OnuTakes(flows[i], u, p) && !Precedes(flows, FirstWinner(flows, u, p), i);
      LostToTrap(env, flows, u, p, i);
    }
  }

  lemma LostToTrap(env: Env, flows: seq<Flow>, u: nat, p: Packet, i: int)
    requires EnvOk(env) && UpstreamFlows(env, flows) && IsLeaf(env.ports, u)
    requires 0 <= i < |flows| && TrapRule(flows[i]) && OnuTakes(flows[i], u, p) && !Precedes(flows, FirstWinner(flows, u, p), i)
    ensures var k := DeviceWinner(env, flows, env.ports[u].device, OnuArrival(env, u), p); k >= 0 && TrapRule(flows[k])
  {
    var k := DeviceWinner(env, flows, env.ports[u].device, OnuArrival(env, u), p);
    assert UpstreamRule(env, flows[i]);
    TrapOnOnu(env, flows[i], u, p);
    DeviceWinnerWins(env, flows, env.ports[u].device, OnuArrival(env, u), p);
    assert k >= 0 && UpstreamRule(env, flows[k]);
    if !TrapRule(flows[k]) {
      OnuPartCorresponds(env, flows[k], u, p);
      TableWinnerWins(flows, 0, Arrival(u, u, 0), p);
      assert false;
    }
  }

  /** What the OLT does with a packet that it has a part for. */
  lemma OltSends(env: Env, f: Flow, u: nat, p: Packet)
    requires EnvOk(env) && UpstreamRule(env, f) && IsLeaf(env.ports, u) && Takes(PartOn(env, f, env.root), OltArrival(env, u), p)
    ensures GetInPort(f.fields) == u
    ensures var sent := Sends(PartOn(env, f, env.root).flow.actions, p);
      |sent| == 1 && (sent[0].port == OFPP_CONTROLLER <==> HasTrapField(f.fields))
  {
    PartIsAbout(env, f, u, p);
    if TrapRule(f) {
      TrapBecomes(env, f);
      TrapParentSends(env, f, LastHop(env, u, env.first), u, p);
    } else {
      OltPartCorresponds(env, f, u, 0, p);
      OltFlowSends(env, f, p);
    }
  }

  lemma TrapPartPasses(env: Env, t: Flow, u: nat, p: Packet)
    requires EnvOk(env) && UpstreamRule(env, t) && TrapRule(t) && IsLeaf(env.ports, u) && OnuTakes(t, u, p)
    ensures OnuPort(env.net, env.ports[u].device, env.root).Some? && OnuPort(env.net, env.ports[u].device, env.root).value.peers != []
    ensures PartOn(env, t, env.ports[u].device).Rule?
    ensures Sends(PartOn(env, t, env.ports[u].device).flow.actions, p)
         == [Sent(OnuPort(env.net, env.ports[u].device, env.root).value.portNo, Offered(t, p))]
    ensures Takes(PartOn(env, t, env.root), OltArrival(env, u), Offered(t, p))
  {
    FewerFieldsMatch(t.fields, GetVlanVid(t.fields).Some?, u, p);
    TrapBecomes(env, t);
    RouteFromUni(env, u, env.first);
    TrapChildActs(t, FirstHop(env, u), u, p);
    TrapParentMatches(t, LastHop(env, u, env.first), u, p);
    TrapParentSends(env, t, LastHop(env, u, env.first), u, Offered(t, p));
  }

  /**
    When the ONU prefers a rule for the controller, the devices send one packet, and where to is up to the rule that the
    OLT chooses for the packet with the tag of the ONU's rule: that rule or one before it.
  */
  lemma OnuTakesOver(env: Env, flows: seq<Flow>, u: nat, p: Packet)
    requires EnvOk(env) && UpstreamFlows(env, flows) && IsLeaf(env.ports, u) && !OnuKeeps(flows, u, p)
    ensures var k := DeviceWinner(env, flows, env.ports[u].device, OnuArrival(env, u), p);
      && k >= 0 && TrapRule(flows[k])
      && var w := DeviceWinner(env, flows, env.root, OltArrival(env, u), Offered(flows[k], p));
      && w >= 0 && (w == k || Precedes(flows, w, k))
      && |RunDevices(env, flows, u, p)| == 1
      && (RunDevices(env, flows, u, p)[0].port == OFPP_CONTROLLER <==> HasTrapField(flows[w].fields))
  {
    var d, onu, olt := env.ports[u].device, OnuArrival(env, u), OltArrival(env, u);
    KeepsIff(env, flows, u, p);
    var k := DeviceWinner(env, flows, d, onu, p);
    DeviceWinnerWins(env, flows, d, onu, p);
    var t := flows[k];
    assert UpstreamRule(env, t);
    TrapOnOnu(env, t, u, p);
    TrapPartPasses(env, t, u, p);
    var p1 := Offered(t, p);
    DeviceWinnerWins(env, flows, env.root, olt, p1);
    var w := DeviceWinner(env, flows, env.root, olt, p1);
    assert w >= 0 && UpstreamRule(env, flows[w]);
    OltSends(env, flows[w], u, p1);
    DeviceProcess(env, flows, d, onu, p);
    DeviceProcess(env, flows, env.root, olt, p1);
    CarriedOne(OnuPort(env.net, d, env.root).value.portNo, p1, TableOf(env, flows, env.root), olt);
  }

  /** Two rules for the controller that differ in the VLAN id only. */
  predicate DifferInVlan(t: Flow, s: Flow) {
    && TrapRule(t) && TrapRule(s) && t.priority == s.priority && GetInPort(t.fields) == GetInPort(s.fields)
    && GetVlanVid(t.fields).Some? && GetVlanVid(s.fields).Some? && Except(t.fields, true) == Except(s.fields, true)
  }

  /**
    Of two rules for the controller that differ in the VLAN id only, the ONU never uses the later one: packets with either
    VLAN id get the id of the earlier one.
  */
  lemma LaterVlanShadowed(env: Env, flows: seq<Flow>, u: nat, p: Packet, k: int, i: int)
    requires EnvOk(env) && UpstreamFlows(env, flows) && IsLeaf(env.ports, u)
    requires 0 <= k < i < |flows| && DifferInVlan(flows[k], flows[i])
    ensures DeviceWinner(env, flows, env.ports[u].device, OnuArrival(env, u), p) != i
    ensures TopTrap(flows, u, p, k) && HasTrapField(flows[k].fields) && TagFits(flows[i], p) && !TagFits(flows[k], p) ==>
      RunDevices(env, flows, u, p) == [Sent(OFPP_CONTROLLER, Trapped(flows[k], p))]
  {
    assert UpstreamRule(env, flows[k]) && UpstreamRule(env, flows[i]);
    TrapOnOnu(env, flows[k], u, p);
    TrapOnOnu(env, flows[i], u, p);
    DeviceWinnerWins(env, flows, env.ports[u].device, OnuArrival(env, u), p);
    if TopTrap(flows, u, p, k) {
      TrapReachesController(env, flows, u, p, k);
    }
  }
}
