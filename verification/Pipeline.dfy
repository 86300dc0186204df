/**
  What a switch does with a packet: the meaning of the rules that the flow decomposer takes apart.
*/
module Pipeline {
  import opened OpenFlow

  /** A packet on the wire: its VLAN tags, outermost first, and the headers that rules look at. */
  datatype Packet = Packet(vlans: seq<nat>, ethType: nat, ipProto: nat, others: map<nat, nat>)

  /** How a packet comes into a table: port, tunnel and metadata are not part of the packet. */
  datatype Arrival = Arrival(inPort: nat, tunnel: nat, metadata: nat)

  datatype Sent = Sent(port: nat, packet: Packet)

  datatype Choice = NoRule | Rule(flow: Flow)

  function Vid(p: Packet): nat { if p.vlans == [] then 0 else p.vlans[0] }

  predicate FieldMatches(f: Field, at: Arrival, p: Packet) {
    match f
    case InPort(port) => port == at.inPort
    case TunnelId(id) => id == at.tunnel
    case Metadata(metadata) => metadata == at.metadata
    case EthType(ethType) => ethType == p.ethType
    case VlanVid(vid) => vid == Vid(p)
    case IpProto(proto) => proto == p.ipProto
    case OtherField(kind, value) => kind in p.others && p.others[kind] == value
  }

  predicate AllMatch(fields: seq<Field>, at: Arrival, p: Packet) { forall f | f in fields :: FieldMatches(f, at, p) }

  predicate Matches(flow: Flow, at: Arrival, p: Packet) { AllMatch(flow.fields, at, p) }

  /** A pushed tag takes over the VID of the tag below it. */
  function Rewrite(a: Action, p: Packet): Packet {
    match a
    case PushVlan(_) => p.(vlans := [if p.vlans == [] then OFPVID_PRESENT else p.vlans[0]] + p.vlans)
    case PopVlan => p.(vlans := if p.vlans == [] then [] else p.vlans[1..])
    case SetField(VlanVid(vid)) => p.(vlans := if p.vlans == [] then [] else p.vlans[0 := vid])
    case SetField(EthType(ethType)) => p.(ethType := ethType)
    case SetField(IpProto(proto)) => p.(ipProto := proto)
    case SetField(OtherField(kind, value)) => p.(others := p.others[kind := value])
    case _ => p
  }

  function Rewritten(actions: seq<Action>, p: Packet): Packet {
    if actions == [] then p else Rewritten(actions[1..], Rewrite(actions[0], p))
  }

  /** What the actions send, in order. */
  function Sends(actions: seq<Action>, p: Packet): seq<Sent> {
    if actions == [] then []
    else
      (if actions[0].Output? then [Sent(actions[0].port, p)] else []) + Sends(actions[1..], Rewrite(actions[0], p))
  }

  /** The rule of highest priority that matches; the first of them in a tie. */
  function Best(table: seq<Flow>, at: Arrival, p: Packet): Choice {
    if table == [] then NoRule
    else
      var best, last := Best(table[..|table| - 1], at, p), table[|table| - 1];
      if Matches(last, at, p) && (best.NoRule? || last.priority > best.flow.priority) then Rule(last) else best
  }

  lemma {:induction false} BestIsHighest(table: seq<Flow>, at: Arrival, p: Packet)
    ensures Best(table, at, p).Rule? ==> Best(table, at, p).flow in table && Matches(Best(table, at, p).flow, at, p)
    ensures forall r | r in table && Matches(r, at, p) ::
      Best(table, at, p).Rule? && Best(table, at, p).flow.priority >= r.priority
  {
    if table != [] {
      BestIsHighest(table[..|table| - 1], at, p);
      assert table == table[..|table| - 1] + [table[|table| - 1]];
    }
  }

  function InTable(flows: seq<Flow>, t: nat): seq<Flow> {
    if flows == [] then []
    else
      var last := flows[|flows| - 1];
      InTable(flows[..|flows| - 1], t) + if last.tableId == t then [last] else []
  }

  lemma {:induction false} InTableMembers(flows: seq<Flow>, t: nat, f: Flow)
    ensures f in InTable(flows, t) <==> f in flows && f.tableId == t
  {
    if flows != [] {
      assert flows == flows[..|flows| - 1] + [flows[|flows| - 1]];
      InTableMembers(flows[..|flows| - 1], t, f);
    }
  }

  /** Runs a packet through the tables, starting at table `t`; rules lead to later tables only. */
  function Process(flows: seq<Flow>, t: nat, at: Arrival, p: Packet): seq<Sent>
    decreases OFPTT_ALL - t
  {
    match Best(InTable(flows, t), at, p)
    case NoRule => []
    case Rule(f) =>
      Sends(f.actions, p)
      + if t < f.gotoTable <= OFPTT_ALL
        then Process(flows, f.gotoTable, at.(metadata := if f.writeMetadata != 0 then f.writeMetadata else at.metadata),
                     Rewritten(f.actions, p))
        else []
  }

  /** Changes headers of the packet only. */
  predicate IsRewrite(a: Action) {
    !a.Output? && !a.Group? && (a.SetField? ==> !a.field.InPort? && !a.field.TunnelId? && !a.field.Metadata?)
  }

  lemma {:induction false} SendsConcat(xs: seq<Action>, ys: seq<Action>, p: Packet)
    ensures Sends(xs + ys, p) == Sends(xs, p) + Sends(ys, Rewritten(xs, p))
    ensures Rewritten(xs + ys, p) == Rewritten(ys, Rewritten(xs, p))
  {
    if xs == [] {
      assert xs + ys == ys;
    } else {
      assert (xs + ys)[1..] == xs[1..] + ys;
      SendsConcat(xs[1..], ys, Rewrite(xs[0], p));
    }
  }

  lemma {:induction false} RewritesSendNothing(actions: seq<Action>, p: Packet)
    requires forall a | a in actions :: IsRewrite(a)
    ensures Sends(actions, p) == []
  {
    if actions != [] {
      assert IsRewrite(actions[0]);
      RewritesSendNothing(actions[1..], Rewrite(actions[0], p));
    }
  }

  /** Rewriting and then forwarding sends the rewritten packet once. */
  lemma RewriteThenOutput(actions: seq<Action>, port: nat, p: Packet)
    requires forall a | a in actions :: IsRewrite(a)
    ensures Sends(actions + [Output(port)], p) == [Sent(port, Rewritten(actions, p))]
  {
    SendsConcat(actions, [Output(port)], p);
    RewritesSendNothing(actions, p);
  }
}
