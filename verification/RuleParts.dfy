/**
  What the decomposer makes of any rule for packets from a UNI, spelled out: which devices get a part, what the part matches
  on, and when there is an error (rw_core/flowdecomposition/flow_decomposer.go).
*/
module RuleParts {
  import opened OpenFlow
  import opened Pipeline
  import opened RouteMaps
  import opened FlowCompiler
  import opened UpstreamRules
  import opened Sequences

  // ----- Looking into rules -----

  /** The in-port of a rule is that of its first in-port field, and 0 if it has none. */
  lemma {:induction false} InPortIsFirst(fields: seq<Field>)
    ensures (forall i | 0 <= i < |fields| :: !fields[i].InPort?) ==> GetInPort(fields) == 0
    ensures forall i | 0 <= i < |fields| && fields[i].InPort? && forall j | 0 <= j < i :: !fields[j].InPort? ::
      GetInPort(fields) == fields[i].port
  {
    if fields != [] {
      InPortIsFirst(fields[1..]);
      forall i | 0 < i < |fields| && fields[i].InPort? && forall j | 0 <= j < i :: !fields[j].InPort?
        ensures GetInPort(fields) == fields[i].port
      {
        assert fields[1..][i - 1] == fields[i] && forall j | 0 <= j < i - 1 :: fields[1..][j] == fields[j + 1];
      }
    }
  }

  lemma {:induction false} OutPortIsFirst(actions: seq<Action>)
    ensures (forall i | 0 <= i < |actions| :: !actions[i].Output?) ==> GetOutPort(actions) == 0
    ensures forall i | 0 <= i < |actions| && actions[i].Output? && forall j | 0 <= j < i :: !actions[j].Output? ::
      GetOutPort(actions) == actions[i].port
  {
    if actions != [] {
      OutPortIsFirst(actions[1..]);
      forall i | 0 < i < |actions| && actions[i].Output? && forall j | 0 <= j < i :: !actions[j].Output?
        ensures GetOutPort(actions) == actions[i].port
      {
        assert actions[1..][i - 1] == actions[i] && forall j | 0 <= j < i - 1 :: actions[1..][j] == actions[j + 1];
      }
    }
  }

  lemma {:induction false} VlanVidIsFirst(fields: seq<Field>)
    ensures (forall i | 0 <= i < |fields| :: !fields[i].VlanVid?) ==> GetVlanVid(fields) == None
    ensures forall i | 0 <= i < |fields| && fields[i].VlanVid? && forall j | 0 <= j < i :: !fields[j].VlanVid? ::
      GetVlanVid(fields) == Some(fields[i].vid)
  {
    if fields != [] {
      VlanVidIsFirst(fields[1..]);
      forall i | 0 < i < |fields| && fields[i].VlanVid? && forall j | 0 <= j < i :: !fields[j].VlanVid?
        ensures GetVlanVid(fields) == Some(fields[i].vid)
      {
        assert fields[1..][i - 1] == fields[i] && forall j | 0 <= j < i - 1 :: fields[1..][j] == fields[j + 1];
      }
    }
  }

  /** The rules that the decomposer turns towards the controller on the root device are those on EAPOL, IGMP or UDP. */
  lemma TrapFieldsAre(fields: seq<Field>)
    ensures HasTrapField(fields) <==>
      exists i | 0 <= i < |fields| :: (fields[i].EthType? && fields[i].ethType == 0x888e) || (fields[i].IpProto? && fields[i].proto in {2, 17})
  {
    if i :| 0 <= i < |fields| && ((fields[i].EthType? && fields[i].ethType == 0x888e) || (fields[i].IpProto? && fields[i].proto in {2, 17})) {
      assert IsTrapField(fields[i]);
    }
    if i :| 0 <= i < |fields| && IsTrapField(fields[i]) {
      assert (fields[i].EthType? && fields[i].ethType == 0x888e) || (fields[i].IpProto? && fields[i].proto in {2, 17});
    }
  }

  // ----- What is left of a match -----

  lemma {:induction false} PrependInOrder<T>(x: T, xs: seq<T>, ys: seq<T>)
    requires Subsequence(xs, ys)
    ensures Subsequence(xs, [x] + ys) && Subsequence([x] + xs, [x] + ys)
  {
    if ys == [] {
      assert [x] + xs == [x] && [x] + ys == [x] && [x][..0] == [];
    } else {
      var last := |ys| - 1;
      assert ([x] + ys)[..|ys|] == [x] + ys[..last];
      if xs == [] {
        PrependInOrder(x, [], ys[..last]);
        assert [x] + xs == [x] + [];
      } else if Subsequence(xs, ys[..last]) {
        PrependInOrder(x, xs, ys[..last]);
      } else {
        PrependInOrder(x, xs[..|xs| - 1], ys[..last]);
        assert ([x] + xs)[..|xs|] == [x] + xs[..|xs| - 1];
      }
    }
  }

  /** In-ports and, on demand, VLAN ids are left out of a match; all other fields stay as often as they were, in order. */
  lemma {:induction false} ExceptIs(fields: seq<Field>, vlan: bool)
    ensures Subsequence(Except(fields, vlan), fields)
    ensures forall f :: multiset(Except(fields, vlan))[f] == if f.InPort? || (vlan && f.VlanVid?) then 0 else multiset(fields)[f]
  {
    if fields != [] {
      ExceptIs(fields[1..], vlan);
      PrependInOrder(fields[0], Except(fields[1..], vlan), fields[1..]);
      assert fields == [fields[0]] + fields[1..];
      if fields[0].InPort? || (vlan && fields[0].VlanVid?) {
        assert Except(fields, vlan) == Except(fields[1..], vlan);
      } else {
        assert Except(fields, vlan) == [fields[0]] + Except(fields[1..], vlan);
      }
    }
  }

  // ----- Parts -----

  /** Which devices get a part of a rule. */
  lemma PartsWhere(env: Env, f: Flow, d: DeviceId)
    requires EnvOk(env) && IsLeaf(env.ports, GetInPort(f.fields))
    ensures var u, out := GetInPort(f.fields), GetOutPort(f.actions);
      PartOn(env, f, d).Rule? <==>
        if IsController(out) then PathId(u, env.first) in env.routes && (d == env.root || d == env.ports[u].device)
        else || (d == env.ports[u].device && f.tableId == 0 && f.gotoTable != 0 && out == 0 && HasRouteFrom(env.routes, u))
             || (d == env.root && f.tableId == 1 && out != 0 && PathId(u, out) in env.routes)
  {
    var u, out := GetInPort(f.fields), GetOutPort(f.actions);
    RoutesAre(env, u, out);
  }

  /** A rule is in error exactly if there is no route from its UNI to its output: for the controller, to the first NNI. */
  lemma FailsWhere(env: Env, f: Flow)
    requires EnvOk(env) && IsLeaf(env.ports, GetInPort(f.fields))
    ensures var u, out := GetInPort(f.fields), GetOutPort(f.actions);
      Decomposed(env, f).None? <==>
        if IsController(out) then PathId(u, env.first) !in env.routes
        else if out == 0 then !HasRouteFrom(env.routes, u)
        else PathId(u, out) !in env.routes
  {
    RoutesAre(env, GetInPort(f.fields), GetOutPort(f.actions));
  }

  lemma RoutesAre(env: Env, u: nat, out: nat)
    requires EnvOk(env) && IsLeaf(env.ports, u)
    ensures env.ports[u].device != env.root
    ensures PathId(u, env.first) in env.routes ==> IsRoot(env.ports, env.first)
    ensures UpRoute(env, u, out).Some? ==>
      var path := UpRoute(env, u, out).value;
      && |path| == 2 && path[0] == FirstHop(env, u) && path[0].device == env.ports[u].device && path[0].device in env.net
      && path[0].ingress == env.ports[u].devicePort
      && (out != 0 ==> var n := if IsController(out) then env.first else out;
            n in env.ports && path[1] == Hop(env.root, OltPort(env, u), env.ports[n].devicePort))
  {
    if PathId(u, env.first) in env.routes {
      RouteFromUni(env, u, env.first);
    }
    if PathId(u, out) in env.routes {
      RouteFromUni(env, u, out);
    }
    if k :| k in env.routes && k.ingress == u {
      assert k == PathId(u, k.egress);
      RouteFromUni(env, u, k.egress);
    }
  }

  /** A part matches on the device's port, on the UNI as tunnel, and on what is left of the rule's fields. */
  lemma PartFields(env: Env, f: Flow, d: DeviceId)
    requires EnvOk(env) && IsLeaf(env.ports, GetInPort(f.fields)) && PartOn(env, f, d).Rule?
    ensures var u, fields := GetInPort(f.fields), PartOn(env, f, d).flow.fields;
      && |fields| >= 2 && fields[0] == InPort(if d == env.root then OltPort(env, u) else env.ports[u].devicePort)
      && fields[1] == TunnelId(u)
      && fields[2..] == Except(f.fields, d != env.root && IsController(GetOutPort(f.actions)) && GetVlanVid(f.fields).Some?)
  {
    PartsWhere(env, f, d);
    RoutesAre(env, GetInPort(f.fields), GetOutPort(f.actions));
  }

  /** What the OLT part of a rule for the controller does: it adds the tag 4000. */
  lemma OltTrapActions(env: Env, f: Flow)
    requires EnvOk(env) && UpstreamRule(env, f) && TrapRule(f)
    ensures PartOn(env, f, env.root).Rule? && env.first in env.ports
    ensures PartOn(env, f, env.root).flow.actions
         == [PushVlan(0x8100), SetField(VlanVid(0x1000 + 4000)),
             Output(if HasTrapField(f.fields) then 0x7fff_fffd else env.ports[env.first].devicePort)]
  {
    var u := GetInPort(f.fields);
    TrapBecomes(env, f);
    RedirectedActions(f, LastHop(env, u, env.first), u);
  }

  lemma RedirectedActions(f: Flow, hop: Hop, u: nat)
    ensures Redirected(TrapParent(hop, u, f)).actions
         == [PushVlan(0x8100), SetField(VlanVid(0x1000 + 4000)), Output(if HasTrapField(f.fields) then 0x7fff_fffd else hop.egress)]
  {
    TrapFieldsKept(f.fields, hop.ingress, u);
    var rewrites := [PushVlan(0x8100), SetField(VlanVid(TRAP_VID))];
    assert TrapParent(hop, u, f).actions == rewrites + [Output(hop.egress)];
    LastOutput(rewrites, hop.egress);
  }

  /** What the ONU part does: it adds a tag with the VLAN id that the rule asks for, if any. */
  lemma OnuTrapActions(env: Env, f: Flow)
    requires EnvOk(env) && UpstreamRule(env, f) && TrapRule(f)
    ensures PartOn(env, f, env.ports[GetInPort(f.fields)].device).Rule?
    ensures PartOn(env, f, env.ports[GetInPort(f.fields)].device).flow.actions
         == match GetVlanVid(f.fields)
            case None => [Output(FirstHop(env, GetInPort(f.fields)).egress)]
            case Some(vid) => [PushVlan(0x8100), SetField(VlanVid(vid)), Output(FirstHop(env, GetInPort(f.fields)).egress)]
  {
    TrapBecomes(env, f);
  }
}
