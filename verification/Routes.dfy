/**
  The route cache of a logical device (rw_core/route/device_route.go). ComputeRoutes builds all routes, AddPort extends
  them by one port, and IsUpToDate decides by counting whether they have to be rebuilt.
*/
module Routes {
  import opened RouteMaps

  datatype Status = Ok | NotEnoughPorts | NoNni | NotFound | NoPorts | NoPonPort

  predicate HasKind(lps: seq<LogicalPort>, root: bool) { exists i | 0 <= i < |lps| :: lps[i].root == root }

  lemma PlacedNext(phys: map<Position, nat>, ports: Ports, lp: LogicalPort)
    requires Placed(phys, ports) && lp.portNo !in ports
    ensures Placed(phys[At(lp) := lp.portNo], ports[lp.portNo := lp])
  {
    var all := ports[lp.portNo := lp];
    if Apart(all) {
      forall n, m | n in ports && m in ports && n != m
        ensures At(ports[n]) != At(ports[m])
      {
        assert At(all[n]) != At(all[m]);
      }
      forall n | n in ports
        ensures At(ports[n]) != At(lp)
      {
        assert At(all[n]) != At(all[lp.portNo]);
      }
    }
  }

  lemma OneRootBuildable(net: Network, ports: Ports, n: nat)
    requires Base(net, ports) && IsRoot(ports, n)
    ensures Buildable(net, ports[n].device) <==> AllBuildable(net, ports)
  {
  }

  ghost predicate AllBuildable(net: Network, ports: Ports) { forall n | IsRoot(ports, n) :: Buildable(net, ports[n].device) }

  /** Some port is an NNI, and all links from the root device have a link back. */
  ghost predicate CanRoute(net: Network, lps: seq<LogicalPort>) {
    exists i | 0 <= i < |lps| :: lps[i].root && LinkedBack(net, lps[i].device)
  }

  lemma CanRouteIff(net: Network, lps: seq<LogicalPort>)
    requires Distinct(lps) && Base(net, Directory(lps))
    ensures CanRoute(net, lps) <==> RootPorts(lps) != [] && AllBuildable(net, Directory(lps))
  {
    DirectoryHolds(lps);
    RootPortsEnumerate(lps);
    forall i | 0 <= i < |lps| && lps[i].root
      ensures RootPorts(lps) != [] && (AllBuildable(net, Directory(lps)) <==> LinkedBack(net, lps[i].device))
    {
      assert IsRoot(Directory(lps), lps[i].portNo);
      assert Listed(RootPorts(lps), lps[i].portNo);
      OneRootBuildable(net, Directory(lps), lps[i].portNo);
      BuildableIff(net, lps[i].device);
    }
    if RootPorts(lps) != [] {
      assert IsRoot(Directory(lps), RootPorts(lps)[0].portNo);
    }
  }

  /** Reads the positions, the NNIs and their numbers off the port list. */
  method IndexPorts(lps: seq<LogicalPort>) returns (phys: map<Position, nat>, nnis: seq<LogicalPort>, roots: set<nat>)
    requires Distinct(lps)
    ensures Placed(phys, Directory(lps)) && nnis == RootPorts(lps) && roots == Roots(Directory(lps))
  {
    phys, nnis, roots := map[], [], {};
    ghost var done: seq<LogicalPort> := [];
    for i := 0 to |lps|
      invariant done == lps[..i]
      invariant Placed(phys, Directory(done))
      invariant nnis == RootPorts(done)
      invariant roots == Roots(Directory(done))
    {
      var lp := lps[i];
      ghost var more := done + [lp];
      assert more[..i] == done && more == lps[..i + 1];
      LastIsNew(more);
      PlacedNext(phys, Directory(done), lp);
      RootsNext(Directory(done), lp);
      phys := phys[At(lp) := lp.portNo];
      if lp.root {
        nnis := nnis + [lp];
        roots := roots + {lp.portNo};
      }
      done := more;
    }
    assert done == lps;
  }

  /** Adding a port to the list unless its number is known. */
  function WithPort(lps: seq<LogicalPort>, lp: LogicalPort): seq<LogicalPort> {
    if Listed(lps, lp.portNo) then lps else lps + [lp]
  }

  lemma KindIsListed(lps: seq<LogicalPort>, n: nat)
    requires Distinct(lps) && n in Directory(lps)
    ensures HasKind(lps, Directory(lps)[n].root)
  {
    DirectoryHolds(lps);
    var i :| 0 <= i < |lps| && lps[i].portNo == n;
    assert Directory(lps)[lps[i].portNo] == lps[i];
  }

  lemma WithPortFiled(lps: seq<LogicalPort>, lp: LogicalPort)
    requires Distinct(lps) && (lp.portNo in Directory(lps) ==> Directory(lps)[lp.portNo] == lp)
    ensures Distinct(WithPort(lps, lp)) && Directory(WithPort(lps, lp)) == Directory(lps)[lp.portNo := lp]
  {
    DirectoryHolds(lps);
    if !Listed(lps, lp.portNo) {
      assert (lps + [lp])[..|lps|] == lps;
    }
  }

  lemma RootsNext(ports: Ports, lp: LogicalPort)
    requires lp.portNo in ports ==> ports[lp.portNo] == lp
    ensures Roots(ports[lp.portNo := lp]) == Roots(ports) + if lp.root then {lp.portNo} else {}
  {
  }

  /** As there are routes, there are an NNI and a UNI. */
  lemma Admitted(net: Network, routes: RouteMap, lps: seq<LogicalPort>, lp: LogicalPort)
    requires Distinct(lps) && Good(net, routes, Directory(lps)) && routes != map[] && Joins(net, Directory(lps), lp)
    ensures Distinct(WithPort(lps, lp)) && Directory(WithPort(lps, lp)) == Directory(lps)[lp.portNo := lp]
    ensures HasKind(WithPort(lps, lp), true) && HasKind(WithPort(lps, lp), false)
  {
    WithPortFiled(lps, lp);
    JoiningKeepsGood(net, routes, Directory(lps), lp);
    var n, u := RoutesJoinTwoPorts(routes, Directory(WithPort(lps, lp)));
    KindIsListed(WithPort(lps, lp), n);
    KindIsListed(WithPort(lps, lp), u);
  }

  function FirstOther(nnis: seq<LogicalPort>, n: nat): (from: Option<LogicalPort>)
    ensures match from
            case None => forall i | 0 <= i < |nnis| :: nnis[i].portNo == n
            case Some(nni) => nni in nnis && nni.portNo != n
  {
    if nnis == [] then None
    else
      var last, earlier := nnis[|nnis| - 1], FirstOther(nnis[..|nnis| - 1], n);
      if earlier.None? && last.portNo != n then Some(last) else earlier
  }

  /** Cached PON ports of a device answer like the device. */
  ghost predicate Answers(net: Network, ponPorts: map<DeviceId, seq<Port>>, d: DeviceId) {
    d in ponPorts ==> forall x :: FirstFacing(ponPorts[d], x) == OnuPort(net, d, x)
  }

  class DeviceRoutes {
    const net: Network
    var logicalPorts: seq<LogicalPort>
    var rootPorts: set<nat>
    var routes: RouteMap
    var ponPorts: map<DeviceId, seq<Port>>
    /** The logical ports by number. */
    ghost var ports: Ports

    constructor (net: Network)
      ensures this.net == net && Cleared() && Valid()
    {
      this.net := net;
      logicalPorts, rootPorts, routes, ponPorts, ports := [], {}, map[], map[], map[];
    }

    /** The cached ports of a device answer like the model does. */
    ghost predicate CacheOk()
      reads this
    {
      forall d {:trigger Answers(net, ponPorts, d)} :: Answers(net, ponPorts, d)
    }

    ghost predicate PortsOk()
      reads this
    {
      Distinct(logicalPorts) && ports == Directory(logicalPorts) && Base(net, ports) && rootPorts == Roots(ports)
    }

    ghost predicate Valid()
      reads this
    {
      PortsOk() && CacheOk() && Good(net, routes, ports)
    }

    ghost predicate Cleared()
      reads this
    {
      logicalPorts == [] && rootPorts == {} && routes == map[]
    }

    function Cached(d: DeviceId): seq<Port>
      reads this
    {
      if d in ponPorts then ponPorts[d] else []
    }

    method Reset()
      modifies this
      ensures Cleared() && Valid()
    {
      logicalPorts, rootPorts, routes, ponPorts, ports := [], {}, map[], map[], map[];
    }

    /** Reads a device; every read appends its PON ports to the cache once more. */
    method GetDevice(d: DeviceId) returns (device: Option<seq<Port>>)
      requires CacheOk()
      modifies this`ponPorts
      ensures CacheOk()
      ensures device == if d in net then Some(net[d]) else None
      ensures d in net ==> forall x :: FirstFacing(Cached(d), x) == OnuPort(net, d, x)
      ensures d !in net ==> ponPorts == old(ponPorts)
    {
      if d !in net {
        return None;
      }
      var all := net[d];
      ghost var had := Cached(d);
      assert Answers(net, ponPorts, d);
      for i := 0 to |all|
        invariant Cached(d) == had + PonPorts(all[..i])
        invariant forall e | e != d :: (e in ponPorts <==> e in old(ponPorts)) && (e in ponPorts ==> ponPorts[e] == old(ponPorts[e]))
      {
        assert all[..i + 1][..i] == all[..i];
        if all[i].kind == PonOnu || all[i].kind == PonOlt {
          ponPorts := ponPorts[d := Cached(d) + [all[i]]];
        }
      }
      assert all[..|all|] == all;
      forall x
        ensures FirstFacing(Cached(d), x) == OnuPort(net, d, x)
      {
        FirstFacingConcat(had, PonPorts(all), x);
      }
      forall e
        ensures Answers(net, ponPorts, e)
      {
        assert e != d ==> Answers(net, old(ponPorts), e);
      }
      return Some(all);
    }

    /** The cached ports of `d` that face `peer`; the first one comes first. */
    method GetDevicePonPorts(d: DeviceId, peer: DeviceId) returns (facing: seq<Port>)
      ensures facing == [] <==> FirstFacing(Cached(d), peer).None?
      ensures facing != [] ==> FirstFacing(Cached(d), peer) == Some(facing[0])
    {
      facing := [];
      if d !in ponPorts {
        return;
      }
      var all := ponPorts[d];
      for i := 0 to |all|
        invariant FirstFacing(all[..i], peer) == if facing == [] then None else Some(facing[0])
      {
        ghost var before := facing;
        for j := 0 to |all[i].peers|
          invariant before != [] ==> facing != [] && facing[0] == before[0]
          invariant before == [] && facing != [] ==> facing[0] == all[i]
          invariant before == [] ==> (facing == [] <==> forall k | 0 <= k < j :: all[i].peers[k].device != peer)
        {
          if all[i].peers[j].device == peer {
            facing := facing + [all[i]];
          }
        }
        FirstFacingConcat(all[..i], [all[i]], peer);
        assert all[..i + 1] == all[..i] + [all[i]];
        assert FirstFacing([all[i]], peer) == if Faces(all[i], peer) then Some(all[i]) else None;
      }
      assert all[..|all|] == all;
    }

    /** Enters a route and its reverse. */
    method EnterRoute(n: nat, u: nat, hops: seq<Hop>)
      modifies this`routes
      ensures routes == Put(old(routes), n, u, hops)
    {
      routes := routes[PathId(n, u) := hops];
      var reverse := GetReverseRoute(routes[PathId(n, u)]);
      routes := routes[PathId(u, n) := reverse];
    }

    /** Enters the routes between `nni` and the UNIs of one child device. */
    method RouteChild(nni: LogicalPort, rootPort: nat, child: DeviceId, childPon: nat, phys: map<Position, nat>)
      requires child in net
      modifies this`routes
      ensures routes == Entered(old(routes), nni, phys, ChildLanes(rootPort, child, childPon, net[child]))
    {
      var all := net[child];
      for i := 0 to |all|
        invariant routes == Entered(old(routes), nni, phys, ChildLanes(rootPort, child, childPon, all[..i]))
      {
        ghost var lanes := ChildLanes(rootPort, child, childPon, all[..i]);
        ChildLanesNext(rootPort, child, childPon, all, i);
        if all[i].kind == EthernetUni {
          assert (lanes + [Lane(rootPort, child, childPon, all[i].portNo)])[..|lanes|] == lanes;
          var at := Position(child, all[i].portNo);
          if at in phys {
            EnterRoute(nni.portNo, phys[at], [Hop(nni.device, nni.devicePort, rootPort), Hop(child, childPon, all[i].portNo)]);
          }
        }
      }
      assert all[..|all|] == all;
    }

    /** Enters the routes over one PON link of the root device. */
    method RoutePeer(nni: LogicalPort, rootPort: nat, child: DeviceId, phys: map<Position, nat>) returns (st: Status)
      requires CacheOk()
      modifies this`routes, this`ponPorts
      ensures CacheOk()
      ensures st == Ok <==> OnuPort(net, child, nni.device).Some?
      ensures st == Ok ==>
        routes == Entered(old(routes), nni, phys,
                          ChildLanes(rootPort, child, OnuPort(net, child, nni.device).value.portNo, net[child]))
    {
      var device := GetDevice(child);
      if device.None? {
        return NotFound;
      }
      var childPonPorts := GetDevicePonPorts(child, nni.device);
      if |childPonPorts| < 1 {
        return NoPonPort;
      }
      RouteChild(nni, rootPort, child, childPonPorts[0].portNo, phys);
      return Ok;
    }

    /** Enters the routes over one PON port of the root device. */
    method RoutePort(nni: LogicalPort, p: Port, phys: map<Position, nat>) returns (st: Status)
      requires CacheOk()
      modifies this`routes, this`ponPorts
      ensures CacheOk()
      ensures st == Ok <==> PeersFace(net, p.peers, nni.device)
      ensures st == Ok ==> routes == Entered(old(routes), nni, phys, PeerLanes(net, nni.device, p.portNo, p.peers))
    {
      ghost var after := EnteredPeers(net, routes, nni, phys, p.portNo, p.peers);
      for i := 0 to |p.peers|
        invariant CacheOk()
        invariant forall k | 0 <= k < i :: OnuPort(net, p.peers[k].device, nni.device).Some?
        invariant routes == after[i]
      {
        st := RoutePeer(nni, p.portNo, p.peers[i].device, phys);
        if st != Ok {
          assert OnuPort(net, p.peers[i].device, nni.device).None?;
          return;
        }
      }
      return Ok;
    }

    /** Enters the routes over all PON ports of the root device. */
    method RoutePorts(nni: LogicalPort, all: seq<Port>, phys: map<Position, nat>) returns (st: Status)
      requires CacheOk()
      modifies this`routes, this`ponPorts
      ensures CacheOk()
      ensures st == Ok <==> AllFace(net, all, nni.device)
      ensures st == Ok ==> routes == Entered(old(routes), nni, phys, Lanes(net, nni.device, all))
    {
      for i := 0 to |all|
        invariant CacheOk()
        invariant forall k | 0 <= k < i && all[k].kind == PonOlt :: PeersFace(net, all[k].peers, nni.device)
        invariant routes == Entered(old(routes), nni, phys, Lanes(net, nni.device, all[..i]))
      {
        EnteredPortNext(net, old(routes), nni, phys, all, i);
        if all[i].kind == PonOlt {
          st := RoutePort(nni, all[i], phys);
          if st != Ok {
            return;
          }
        }
      }
      assert all[..|all|] == all;
      return Ok;
    }

    /** Builds the routes of one NNI along all lanes of the root device. */
    method BuildRoutes(nni: LogicalPort, phys: map<Position, nat>) returns (st: Status)
      requires CacheOk()
      modifies this`routes, this`ponPorts
      ensures CacheOk()
      ensures st == Ok <==> Buildable(net, nni.device)
      ensures st == Ok ==> routes == Entered(old(routes), nni, phys, Lanes(net, nni.device, net[nni.device]))
    {
      var device := GetDevice(nni.device);
      if device.None? {
        return NotFound;
      }
      if |device.value| == 0 {
        return NoPorts;
      }
      st := RoutePorts(nni, device.value, phys);
    }

    /** Gives `to` a copy of the routes of `from`, in whatever order the routes are visited. */
    method CopyFromExistingNniRoutes(to: LogicalPort, from: LogicalPort)
      requires forall k | k in routes ::
        |routes[k]| == 2 && k.ingress != k.egress && !(Mentions(k, from.portNo) && Mentions(k, to.portNo))
      requires Agrees(routes, from.portNo, to) && from.portNo != to.portNo
      modifies this`routes
      ensures Copied(old(routes), routes, from.portNo, to)
    {
      var updated: RouteMap := map[];
      var todo := routes.Keys;
      while todo != {}
        invariant todo <= routes.Keys
        invariant forall k | k in routes && k !in todo :: k in updated && updated[k] == routes[k]
        invariant forall k {:trigger CopyOf(routes, updated, from.portNo, to, k)} |
          k in routes && k !in todo && Mentions(k, from.portNo) :: CopyOf(routes, updated, from.portNo, to, k)
        invariant forall k | k in updated ::
          k in routes || (Mentions(k, to.portNo) && CopyKey(k, to.portNo, from.portNo) in routes)
        decreases |todo|
      {
        var k :| k in todo;
        var hops := routes[k];
        ghost var before := updated;
        if k.ingress == from.portNo {
          updated := updated[PathId(to.portNo, k.egress) := [Hop(to.device, to.devicePort, hops[0].egress), hops[1]]];
        }
        if k.egress == from.portNo {
          updated := updated[PathId(k.ingress, to.portNo) := [hops[0], Hop(to.device, hops[1].ingress, to.devicePort)]];
        }
        updated := updated[k := hops];
        todo := todo - {k};
        forall j | j in routes && j !in todo && Mentions(j, from.portNo)
          ensures CopyOf(routes, updated, from.portNo, to, j)
        {
          assert j != k ==> CopyOf(routes, before, from.portNo, to, j);
          assert CopyKey(j, from.portNo, to.portNo) == k ==> CopyOf(routes, routes, from.portNo, to, j);
        }
        forall j | j in routes && j !in todo
          ensures j in updated && updated[j] == routes[j]
        {
          assert CopyKey(k, from.portNo, to.portNo) == j && Mentions(k, from.portNo) ==> CopyOf(routes, routes, from.portNo, to, k);
        }
      }
      routes := updated;
    }

    /** Builds the routes of `nnis[i]` when there are none yet. */
    method BuildNext(nnis: seq<LogicalPort>, i: nat, phys: map<Position, nat>) returns (st: Status)
      requires PortsOk() && CacheOk() && Enumerates(nnis, ports) && i < |nnis| && Placed(phys, ports)
      requires Progress(net, routes, ports, nnis, i) && routes == map[]
      modifies this`routes, this`ponPorts
      ensures CacheOk()
      ensures st == Ok <==> AllBuildable(net, ports)
      ensures st == Ok ==> Progress(net, routes, ports, nnis, i + 1)
    {
      var nni := nnis[i];
      OneRootBuildable(net, ports, nni.portNo);
      st := BuildRoutes(nni, phys);
      if st == Ok {
        LanesLead(net, nni.device);
        EnteredIsGood(net, map[], ports, nni.portNo, phys, Lanes(net, nni.device, net[nni.device]));
        EnteredGrows(map[], nni, phys, Lanes(net, nni.device, net[nni.device]));
        GrownUnrouted(map[], routes, ports, nnis, i);
        if Apart(ports) {
          LanesReachAll(net, ports, nni.portNo, phys);
          if i > 0 {
            NothingToRoute(net, routes, ports, nnis[0].portNo, nni.portNo);
          }
        }
      }
    }

    /** Copies routes to `nnis[i]` from the first NNI. */
    method CopyToNext(nnis: seq<LogicalPort>, i: nat)
      requires PortsOk() && Enumerates(nnis, ports) && 0 < i < |nnis| && Progress(net, routes, ports, nnis, i) && routes != map[]
      modifies this`routes
      ensures Good(net, routes, ports) && CompleteUpToTwo(net, routes, ports, nnis)
    {
      ghost var before := routes;
      ghost var from, to := nnis[0].portNo, nnis[i].portNo;
      assert Unrouted(routes, to);
      CopyReady(net, routes, ports, from, to);
      CopyFromExistingNniRoutes(nnis[i], nnis[0]);
      CopyKeepsGood(net, before, routes, ports, from, to);
      GrownUnrouted(before, routes, ports, nnis, i);
      if Apart(ports) {
        CopyRouted(net, before, routes, ports, from, to);
      }
      FirstTwoRouted(net, routes, ports, nnis);
    }

    /** The first NNI is built; the next one copies, and no further one is looked at once there are routes. */
    method RouteNnis(nnis: seq<LogicalPort>, phys: map<Position, nat>) returns (st: Status)
      requires PortsOk() && CacheOk() && Enumerates(nnis, ports) && 0 < |nnis| && Placed(phys, ports) && routes == map[]
      modifies this`routes, this`ponPorts
      ensures CacheOk()
      ensures st == Ok <==> AllBuildable(net, ports)
      ensures st == Ok ==> Good(net, routes, ports) && CompleteUpToTwo(net, routes, ports, nnis)
    {
      for i := 0 to |nnis|
        invariant CacheOk() && Progress(net, routes, ports, nnis, i)
        invariant if i == 0 then routes == map[] else AllBuildable(net, ports)
      {
        if i > 0 && |routes| > 0 {
          CopyToNext(nnis, i);
          return Ok;
        }
        st := BuildNext(nnis, i, phys);
        if st != Ok {
          return;
        }
      }
      AllLookedAt(net, routes, ports, nnis);
      return Ok;
    }

    /** Clears everything and takes over the given ports. */
    method Restart(lps: seq<LogicalPort>) returns (phys: map<Position, nat>, nnis: seq<LogicalPort>)
      requires Distinct(lps) && Base(net, Directory(lps))
      modifies this
      ensures PortsOk() && CacheOk() && logicalPorts == lps && routes == map[]
      ensures Placed(phys, ports) && nnis == RootPorts(lps) && Enumerates(nnis, ports)
    {
      Reset();
      logicalPorts := lps;
      ports := Directory(lps);
      phys, nnis, rootPorts := IndexPorts(lps);
      RootPortsEnumerate(lps);
    }

    /**
      Rebuilds all routes. Only the first two NNIs get routes, so the result is complete exactly when there are no more
      than two, or there is nothing to route to. With fewer than two ports everything stays as it is.
    */
    method ComputeRoutes(lps: seq<LogicalPort>) returns (st: Status)
      requires Valid() && Distinct(lps) && Base(net, Directory(lps))
      modifies this
      ensures Valid()
      ensures |lps| < 2 ==> st == NotEnoughPorts && unchanged(this)
      ensures |lps| >= 2 ==> (st == Ok <==> CanRoute(net, lps))
      ensures |lps| >= 2 && st != Ok ==> Cleared()
      ensures st == Ok ==> logicalPorts == lps && CompleteUpToTwo(net, routes, ports, RootPorts(lps))
    {
      if |lps| < 2 {
        return NotEnoughPorts;
      }
      CanRouteIff(net, lps);
      var phys, nnis := Restart(lps);
      if |nnis| == 0 {
        Reset();
        return NoNni;
      }
      st := RouteNnis(nnis, phys);
      if st != Ok {
        Reset();
      }
    }

    /** Adds the port unless its number is known, and says whether there are both NNIs and UNIs. */
    method AddPortAndVerifyPrecondition(lp: LogicalPort) returns (ok: bool)
      modifies this`logicalPorts
      ensures logicalPorts == WithPort(old(logicalPorts), lp)
      ensures ok <==> HasKind(logicalPorts, true) && HasKind(logicalPorts, false)
    {
      var exist, nni, uni := false, false, false;
      for i := 0 to |logicalPorts|
        invariant nni <==> exists j | 0 <= j < i :: logicalPorts[j].root
        invariant uni <==> exists j | 0 <= j < i :: !logicalPorts[j].root
        invariant exist <==> exists j | 0 <= j < i :: logicalPorts[j].portNo == lp.portNo
      {
        nni, uni := nni || logicalPorts[i].root, uni || !logicalPorts[i].root;
        exist := exist || logicalPorts[i].portNo == lp.portNo;
        if nni && uni && exist {
          break;
        }
      }
      if !exist {
        ghost var before := logicalPorts;
        logicalPorts := logicalPorts + [lp];
        nni, uni := nni || lp.root, uni || !lp.root;
        assert logicalPorts[|before|] == lp && forall i | 0 <= i < |before| :: logicalPorts[i] == before[i];
      }
      return nni && uni;
    }

    /** All NNIs, and the first one whose number is not that of `lp`. */
    method FindNnis(lp: LogicalPort) returns (nnis: seq<LogicalPort>, from: Option<LogicalPort>)
      ensures nnis == RootPorts(logicalPorts) && from == FirstOther(nnis, lp.portNo)
    {
      nnis, from := [], None;
      for i := 0 to |logicalPorts|
        invariant nnis == RootPorts(logicalPorts[..i]) && from == FirstOther(nnis, lp.portNo)
      {
        assert logicalPorts[..i + 1][..i] == logicalPorts[..i];
        if logicalPorts[i].root {
          if from.None? && logicalPorts[i].portNo != lp.portNo {
            from := Some(logicalPorts[i]);
          }
          assert (nnis + [logicalPorts[i]])[..|nnis|] == nnis;
          nnis := nnis + [logicalPorts[i]];
        }
      }
      assert logicalPorts[..|logicalPorts|] == logicalPorts;
    }

    /** Routes one NNI to a new UNI over the first PON port of the UNI's device that faces the root device. */
    method RoutePair(nni: LogicalPort, lp: LogicalPort) returns (st: Status, ghost hops: seq<Hop>)
      requires CacheOk()
      modifies this`routes, this`ponPorts
      ensures CacheOk()
      ensures st == Ok <==> OnuPort(net, lp.device, nni.device).Some?
      ensures st == Ok ==> IsPath(net, nni, lp, hops) && routes == Put(old(routes), nni.portNo, lp.portNo, hops)
    {
      hops := [];
      FirstFacingFaces(Cached(lp.device), nni.device);
      var childPonPorts := GetDevicePonPorts(lp.device, nni.device);
      if |childPonPorts| == 0 || |childPonPorts[0].peers| == 0 {
        var device := GetDevice(lp.device);
        if device.None? {
          return NotFound, hops;
        }
        FirstFacingFaces(Cached(lp.device), nni.device);
        childPonPorts := GetDevicePonPorts(lp.device, nni.device);
        if |childPonPorts| == 0 || |childPonPorts[0].peers| == 0 {
          return NoPonPort, hops;
        }
      }
      var childPonPort := childPonPorts[0];
      assert Answers(net, ponPorts, lp.device);
      var path := [Hop(nni.device, nni.devicePort, childPonPort.peers[0].portNo),
                   Hop(lp.device, childPonPort.portNo, lp.devicePort)];
      EnterRoute(nni.portNo, lp.portNo, path);
      return Ok, path;
    }

    /** Routes all NNIs to a new UNI. */
    method RouteUni(lp: LogicalPort, nnis: seq<LogicalPort>) returns (st: Status)
      requires PortsOk() && CacheOk() && Good(net, routes, ports) && Enumerates(nnis, ports)
      requires IsLeaf(ports, lp.portNo) && ports[lp.portNo] == lp
      modifies this`routes, this`ponPorts
      ensures CacheOk()
      ensures st == Ok <==> FacesRoots(net, lp, ports)
      ensures st == Ok ==> Good(net, routes, ports) && UniRouted(net, old(routes), routes, lp, nnis)
    {
      ghost var done: seq<LogicalPort> := [];
      for i := 0 to |nnis|
        invariant done == nnis[..i]
        invariant CacheOk() && Good(net, routes, ports) && UniRouted(net, old(routes), routes, lp, done)
      {
        ghost var before := routes;
        ghost var hops;
        assert IsRoot(ports, nnis[i].portNo);
        st, hops := RoutePair(nnis[i], lp);
        if st != Ok {
          return;
        }
        PutKeepsGood(net, before, ports, nnis[i].portNo, lp.portNo, hops);
        UniRoutedNext(net, old(routes), before, lp, done, nnis[i], hops);
        done := done + [nnis[i]];
      }
      assert done == nnis;
      return Ok;
    }

    /** Takes a port into the list when there are routes; both kinds of port are there then, so this cannot fail. */
    method AdmitPort(lp: LogicalPort)
      requires Valid() && routes != map[] && Joins(net, ports, lp)
      modifies this`logicalPorts, this`rootPorts, this`ports
      ensures PortsOk() && ports == old(ports)[lp.portNo := lp] && logicalPorts == WithPort(old(logicalPorts), lp)
      ensures Good(net, routes, ports) && (Unrouted(routes, lp.portNo) || Linked(net, ports))
    {
      ghost var all, next := WithPort(logicalPorts, lp), ports[lp.portNo := lp];
      Admitted(net, routes, logicalPorts, lp);
      JoiningKeepsGood(net, routes, ports, lp);
      RootsNext(ports, lp);
      var ok := AddPortAndVerifyPrecondition(lp);
      assert ok;
      ports := next;
      if lp.root {
        rootPorts := rootPorts + {lp.portNo};
      }
      assert logicalPorts == all && rootPorts == Roots(next);
    }

    /** Copies the routes of another NNI to one that has been admitted. */
    method AddNni(lp: LogicalPort, from: LogicalPort, ghost before: Ports)
      requires PortsOk() && CacheOk() && Good(net, routes, ports) && (Unrouted(routes, lp.portNo) || Linked(net, ports))
      requires lp.root && ports == before[lp.portNo := lp] && (lp.portNo in before ==> before[lp.portNo] == lp)
      requires IsRoot(ports, from.portNo) && ports[from.portNo] == from && from.portNo != lp.portNo
      modifies this`routes
      ensures Valid() && Grown(old(routes), routes, lp.portNo)
      ensures Complete(old(routes), before) ==> Complete(routes, ports)
      ensures lp.portNo !in before ==> NewPortRouted(old(routes), before, [from], routes, ports, lp)
    {
      ghost var had := routes;
      CopyReady(net, routes, ports, from.portNo, lp.portNo);
      CopyFromExistingNniRoutes(lp, from);
      CopyKeepsGood(net, had, routes, ports, from.portNo, lp.portNo);
      if Complete(had, before) {
        CopiedIsComplete(had, routes, before, lp, from.portNo);
      }
      if lp.portNo !in before {
        CopiedIsRouted(had, routes, before, [from], lp);
      }
    }

    /** Routes all NNIs to a UNI that has been admitted; clears everything if its device does not hang off the root device. */
    method AddUni(lp: LogicalPort, nnis: seq<LogicalPort>, ghost before: Ports) returns (st: Status)
      requires PortsOk() && CacheOk() && Good(net, routes, ports) && Enumerates(nnis, ports)
      requires !lp.root && ports == before[lp.portNo := lp] && (lp.portNo in before ==> before[lp.portNo] == lp)
      modifies this
      ensures Valid()
      ensures st == Ok <==> FacesRoots(net, lp, old(ports))
      ensures st != Ok ==> Cleared()
      ensures st == Ok ==> ports == old(ports) && Grown(old(routes), routes, lp.portNo)
      ensures st == Ok && Complete(old(routes), before) ==> Complete(routes, ports)
      ensures st == Ok ==> NewPortRouted(old(routes), before, nnis, routes, ports, lp)
    {
      ghost var had := routes;
      st := RouteUni(lp, nnis);
      if st != Ok {
        Reset();
      } else {
        UniIsRouted(net, had, routes, ports, lp, nnis);
        if Complete(had, before) {
          UniIsComplete(net, had, routes, before, lp, nnis);
        }
      }
    }

    /** Extends existing routes by one port. */
    method AddToRoutes(lp: LogicalPort) returns (st: Status)
      requires Valid() && routes != map[] && Joins(net, ports, lp)
      modifies this
      ensures Valid()
      ensures st == Ok <==> lp.root || FacesRoots(net, lp, old(ports)[lp.portNo := lp])
      ensures st != Ok ==> Cleared()
      ensures st == Ok ==> ports == old(ports)[lp.portNo := lp] && Grown(old(routes), routes, lp.portNo)
      ensures st == Ok && Complete(old(routes), old(ports)) ==> Complete(routes, ports)
      ensures st == Ok && lp.portNo !in old(ports) ==>
        NewPortRouted(old(routes), old(ports), RootPorts(old(logicalPorts)), routes, ports, lp)
    {
      ghost var before := ports;
      FirstNniStays(net, routes, logicalPorts, lp);
      AdmitPort(lp);
      var nnis, from := FindNnis(lp);
      RootPortsEnumerate(logicalPorts);
      if from.None? {
        OnlyNni(net, routes, before, lp, nnis);
        return Ok;
      }
      if lp.root {
        AddNni(lp, from.value, before);
        return Ok;
      }
      st := AddUni(lp, nnis, before);
    }

    /** Extends existing routes by one port; without routes it computes them all from `lps`. */
    method AddPort(lp: LogicalPort, lps: seq<LogicalPort>) returns (st: Status)
      requires Valid() && Distinct(lps) && Base(net, Directory(lps)) && Joins(net, ports, lp)
      modifies this
      ensures Valid()
      ensures old(routes) == map[] && |lps| < 2 ==> st == NotEnoughPorts && unchanged(this)
      ensures old(routes) == map[] && |lps| >= 2 ==> (st == Ok <==> CanRoute(net, lps))
      ensures old(routes) == map[] && |lps| >= 2 && st != Ok ==> Cleared()
      ensures old(routes) == map[] && st == Ok ==> logicalPorts == lps && CompleteUpToTwo(net, routes, ports, RootPorts(lps))
      ensures old(routes) != map[] ==> (st == Ok <==> lp.root || FacesRoots(net, lp, old(ports)[lp.portNo := lp]))
      ensures old(routes) != map[] && st != Ok ==> Cleared()
      ensures old(routes) != map[] && st == Ok ==>
        ports == old(ports)[lp.portNo := lp] && Grown(old(routes), routes, lp.portNo)
      ensures old(routes) != map[] && st == Ok && Complete(old(routes), old(ports)) ==> Complete(routes, ports)
      ensures old(routes) != map[] && st == Ok && lp.portNo !in old(ports) ==>
        NewPortRouted(old(routes), old(ports), RootPorts(old(logicalPorts)), routes, ports, lp)
    {
      if |routes| == 0 {
        st := ComputeRoutes(lps);
      } else {
        st := AddToRoutes(lp);
      }
    }

    /** Compares counts with those of the logical device, if there is one: its ports, and its routes. */
    method IsUpToDate(device: Option<nat>) returns (upToDate: bool)
      requires Valid()
      ensures upToDate <==>
        match device
        case None => routes == map[]
        case Some(count) => |logicalPorts| == count && Complete(routes, ports)
    {
      var numNni, numUni := 0, 0;
      if device.Some? {
        if |logicalPorts| != device.value {
          return false;
        }
        numNni := |rootPorts|;
        numUni := device.value - numNni;
      }
      CountIsRight(routes, logicalPorts);
      return |routes| == numNni * numUni * 2;
    }
  }

  lemma CountIsRight(routes: RouteMap, lps: seq<LogicalPort>)
    requires Distinct(lps) && Shaped(routes, Directory(lps))
    ensures |routes| == RouteCount(|Roots(Directory(lps))|, |lps|) <==> Complete(routes, Directory(lps))
  {
    DirectoryHolds(lps);
    CountTellsComplete(routes, Directory(lps));
  }

  lemma {:induction false} FirstOtherIsFirst(nnis: seq<LogicalPort>, n: nat)
    requires nnis != [] && nnis[0].portNo != n
    ensures FirstOther(nnis, n) == Some(nnis[0])
  {
    if |nnis| > 1 {
      FirstOtherIsFirst(nnis[..|nnis| - 1], n);
    } else {
      assert nnis[..0] == [];
    }
  }

  /** A new port does not become the first NNI, and the first other one is the first. */
  lemma FirstNniStays(net: Network, routes: RouteMap, lps: seq<LogicalPort>, lp: LogicalPort)
    requires Distinct(lps) && Good(net, routes, Directory(lps)) && routes != map[]
    ensures RootPorts(lps) != [] && IsRoot(Directory(lps), RootPorts(lps)[0].portNo)
    ensures lp.portNo !in Directory(lps) ==> FirstOther(RootPorts(WithPort(lps, lp)), lp.portNo) == Some(RootPorts(lps)[0])
  {
    var n, u := RoutesJoinTwoPorts(routes, Directory(lps));
    RootPortsEnumerate(lps);
    assert Listed(RootPorts(lps), n);
    if lp.portNo !in Directory(lps) {
      DirectoryHolds(lps);
      assert (lps + [lp])[..|lps|] == lps;
      FirstOtherIsFirst(RootPorts(lps + [lp]), lp.portNo);
    }
  }

  /** When no other NNI is found, the port is the only NNI and was there before. */
  lemma OnlyNni(net: Network, routes: RouteMap, before: Ports, lp: LogicalPort, nnis: seq<LogicalPort>)
    requires Good(net, routes, before) && routes != map[] && Joins(net, before, lp)
    requires Enumerates(nnis, before[lp.portNo := lp]) && forall i | 0 <= i < |nnis| :: nnis[i].portNo == lp.portNo
    ensures lp.root && before[lp.portNo := lp] == before
  {
    var n, u := RoutesJoinTwoPorts(routes, before);
    assert IsRoot(before[lp.portNo := lp], n);
    var i :| 0 <= i < |nnis| && nnis[i].portNo == n;
  }

  // ----- Adding a port compared to computing everything -----

  /** A logical device in order: every UNI can be reached, and PON links are symmetric. */
  ghost predicate InOrder(net: Network, lps: seq<LogicalPort>) {
    && Distinct(lps) && Base(net, Directory(lps)) && Linked(net, Directory(lps)) && Wired(net, Directory(lps))
    && AllBuildable(net, Directory(lps))
  }

  lemma BaseBefore(net: Network, before: Ports, lp: LogicalPort)
    requires Base(net, before[lp.portNo := lp]) && lp.portNo !in before
    ensures Base(net, before) && Base(net, map[lp.portNo := lp])
  {
    var ports := before[lp.portNo := lp];
    assert forall n | n in before :: ports[n] == before[n];
    assert forall n | IsRoot(before, n) :: IsRoot(ports, n);
    assert IsRoot(map[lp.portNo := lp], lp.portNo) ==> IsRoot(ports, lp.portNo);
  }

  lemma WiredBefore(net: Network, before: Ports, lp: LogicalPort)
    requires Wired(net, before[lp.portNo := lp]) && lp.portNo !in before
    ensures Wired(net, before)
  {
    var ports := before[lp.portNo := lp];
    forall n, m | n in before && m in before && n != m
      ensures At(before[n]) != At(before[m])
    {
      assert At(ports[n]) != At(ports[m]);
    }
    forall n, u | IsRoot(before, n) && IsLeaf(before, u)
      ensures Hangs(net, before[n].device, before[u])
    {
      assert IsRoot(ports, n) && IsLeaf(ports, u) && Hangs(net, ports[n].device, ports[u]);
    }
  }

  lemma LinkedBefore(net: Network, before: Ports, lp: LogicalPort)
    requires lp.portNo !in before
    ensures Linked(net, before[lp.portNo := lp]) ==> Linked(net, before)
    ensures AllBuildable(net, before[lp.portNo := lp]) ==> AllBuildable(net, before)
  {
    var ports := before[lp.portNo := lp];
    assert forall n | IsRoot(before, n) :: IsRoot(ports, n) && ports[n] == before[n];
  }

  lemma WiredFaces(net: Network, ports: Ports, lp: LogicalPort)
    requires Wired(net, ports) && IsLeaf(ports, lp.portNo) && ports[lp.portNo] == lp
    ensures FacesRoots(net, lp, ports)
  {
    forall n: nat | IsRoot(ports, n)
      ensures OnuPort(net, lp.device, ports[n].device).Some?
    {
      assert Hangs(net, ports[n].device, ports[lp.portNo]);
    }
  }

  /** Without its last port a logical device is in order still. */
  lemma InOrderBefore(net: Network, lps: seq<LogicalPort>, lp: LogicalPort)
    requires InOrder(net, lps + [lp])
    ensures Directory(lps + [lp]) == Directory(lps)[lp.portNo := lp] && lp.portNo !in Directory(lps)
    ensures InOrder(net, lps) && Joins(net, Directory(lps), lp) && Joins(net, map[], lp)
    ensures lp.root || FacesRoots(net, lp, Directory(lps + [lp]))
  {
    assert (lps + [lp])[..|lps|] == lps;
    assert Distinct(lps) by {
      assert forall i | 0 <= i < |lps| :: (lps + [lp])[i] == lps[i];
    }
    LastIsNew(lps + [lp]);
    BaseBefore(net, Directory(lps), lp);
    WiredBefore(net, Directory(lps), lp);
    LinkedBefore(net, Directory(lps), lp);
    if !lp.root {
      WiredFaces(net, Directory(lps + [lp]), lp);
    }
  }

  /** What ComputeRoutes makes of a cache without routes. */
  ghost predicate Computed(net: Network, routes: RouteMap, roots: set<nat>, lps: seq<LogicalPort>) {
    if |lps| < 2 || RootPorts(lps) == [] then routes == map[] && roots == {}
    else
      && Good(net, routes, Directory(lps)) && CompleteUpToTwo(net, routes, Directory(lps), RootPorts(lps))
      && roots == Roots(Directory(lps))
  }

  lemma OnePort(lps: seq<LogicalPort>, n: nat)
    requires Distinct(lps) && |lps| < 2 && n in Directory(lps)
    ensures n == lps[0].portNo
  {
    DirectoryHolds(lps);
  }

  lemma FewPortsNoPairs(lps: seq<LogicalPort>, n: nat, u: nat)
    requires Distinct(lps) && |lps| < 2 && IsRoot(Directory(lps), n)
    ensures !IsLeaf(Directory(lps), u)
  {
    OnePort(lps, n);
    if u in Directory(lps) {
      OnePort(lps, u);
    }
  }

  /** In order, the computed routes are good, and determined by the ports. */
  lemma ComputedUnique(net: Network, a: RouteMap, b: RouteMap, roots: set<nat>, others: set<nat>, lps: seq<LogicalPort>)
    requires InOrder(net, lps) && Computed(net, a, roots, lps) && Computed(net, b, others, lps)
    ensures a == b && roots == others && Good(net, a, Directory(lps))
  {
    if |lps| >= 2 && RootPorts(lps) != [] {
      RootPortsEnumerate(lps);
      RoutesOfFirstTwo(net, a, b, lps);
      RoutesOfFirstTwo(net, b, a, lps);
      forall k | k in a
        ensures a[k] == b[k]
      {
        GoodRoutesAgree(net, a, b, Directory(lps), k);
      }
    }
  }

  lemma RoutesOfFirstTwo(net: Network, a: RouteMap, b: RouteMap, lps: seq<LogicalPort>)
    requires InOrder(net, lps) && Enumerates(RootPorts(lps), Directory(lps)) && Good(net, a, Directory(lps))
    requires CompleteUpToTwo(net, a, Directory(lps), RootPorts(lps)) && CompleteUpToTwo(net, b, Directory(lps), RootPorts(lps))
    ensures a.Keys <= b.Keys
  {
    var ports, nnis := Directory(lps), RootPorts(lps);
    forall k | k in a
      ensures k in b
    {
      assert RouteOk(a, ports, k);
      var n := if IsRoot(ports, k.ingress) then k.ingress else k.egress;
      assert Listed(nnis, n);
      var i :| 0 <= i < |nnis| && nnis[i].portNo == n;
      assert Mentions(k, nnis[i].portNo) && !Unrouted(a, nnis[i].portNo);
      assert i < 2;
      assert CompleteFor(b, ports, nnis[i].portNo);
      assert k == PathId(k.ingress, k.egress);
    }
  }

  /** There are computed routes exactly if there are an NNI and a UNI. */
  lemma ComputedEmpty(net: Network, routes: RouteMap, roots: set<nat>, lps: seq<LogicalPort>)
    requires InOrder(net, lps) && Computed(net, routes, roots, lps)
    ensures routes == map[] <==> RootPorts(lps) == [] || Leaves(Directory(lps)) == {}
  {
    RootPortsEnumerate(lps);
    if |lps| < 2 {
      if RootPorts(lps) != [] {
        forall u | IsLeaf(Directory(lps), u)
          ensures false
        {
          FewPortsNoPairs(lps, RootPorts(lps)[0].portNo, u);
        }
      }
    } else if RootPorts(lps) != [] {
      if Leaves(Directory(lps)) == {} {
        NoLeavesNoRoutes(routes, Directory(lps));
      } else {
        var u :| u in Leaves(Directory(lps));
        assert IsLeaf(Directory(lps), u) && CompleteFor(routes, Directory(lps), RootPorts(lps)[0].portNo);
        assert PathId(RootPorts(lps)[0].portNo, u) in routes;
      }
    }
  }

  lemma RootPortsAppend(lps: seq<LogicalPort>, lp: LogicalPort)
    ensures RootPorts(lps + [lp]) == if lp.root then RootPorts(lps) + [lp] else RootPorts(lps)
  {
    assert (lps + [lp])[..|lps|] == lps;
  }

  /** A new port has some route, and a route with the last NNI. */
  lemma NewPortHasRoute(had: RouteMap, before: Ports, nnis: seq<LogicalPort>, added: RouteMap, ports: Ports, lp: LogicalPort, last: nat)
      returns (k: PathId)
    requires NewPortRouted(had, before, nnis, added, ports, lp) && ports == before[lp.portNo := lp] && lp.portNo !in before
    requires nnis != [] && CompleteFor(had, before, nnis[0].portNo) && Leaves(before) != {}
    requires IsRoot(ports, last) && (lp.root ==> last == lp.portNo)
    ensures k in added && Mentions(k, last)
  {
    if lp.root {
      var u :| u in Leaves(before);
      assert IsLeaf(ports, u) && CompleteFor(added, ports, lp.portNo);
      k := PathId(lp.portNo, u);
    } else {
      k := PathId(last, lp.portNo);
    }
  }

  /** With more than two NNIs a port that is added to routes gets routes that are not computed. */
  lemma AddedDiffers(
      net: Network, had: RouteMap, hadRoots: set<nat>, added: RouteMap, computed: RouteMap, roots: set<nat>, lps: seq<LogicalPort>, lp: LogicalPort)
    requires InOrder(net, lps) && InOrder(net, lps + [lp]) && had != map[]
    requires Computed(net, had, hadRoots, lps) && Computed(net, computed, roots, lps + [lp]) && |RootPorts(lps + [lp])| > 2
    requires Directory(lps + [lp]) == Directory(lps)[lp.portNo := lp] && lp.portNo !in Directory(lps)
    requires NewPortRouted(had, Directory(lps), RootPorts(lps), added, Directory(lps + [lp]), lp)
    ensures added != computed
  {
    var nnis := RootPorts(lps + [lp]);
    RootPortsAppend(lps, lp);
    RootPortsEnumerate(lps + [lp]);
    ComputedEmpty(net, had, hadRoots, lps);
    var last := nnis[|nnis| - 1].portNo;
    assert IsRoot(Directory(lps + [lp]), last) && Unrouted(computed, last);
    var k := NewPortHasRoute(had, Directory(lps), RootPorts(lps), added, Directory(lps + [lp]), lp, last);
  }

  /** A new cache with the routes computed from some ports. */
  method ComputeNew(net: Network, lps: seq<LogicalPort>) returns (cache: DeviceRoutes)
    requires InOrder(net, lps)
    ensures fresh(cache) && cache.Valid() && cache.net == net && Computed(net, cache.routes, cache.rootPorts, lps)
    ensures (cache.ports == map[] && cache.routes == map[]) || (cache.logicalPorts == lps && cache.ports == Directory(lps))
  {
    cache := new DeviceRoutes(net);
    CanRouteIff(net, lps);
    var st := cache.ComputeRoutes(lps);
    RootPortsEnumerate(lps);
  }

  /** Adding a port to the routes of the others. */
  method AddToNew(net: Network, lps: seq<LogicalPort>, lp: LogicalPort)
    returns (added: RouteMap, roots: set<nat>, had: RouteMap, hadRoots: set<nat>)
    requires InOrder(net, lps + [lp])
    ensures InOrder(net, lps) && Computed(net, had, hadRoots, lps)
    ensures Directory(lps + [lp]) == Directory(lps)[lp.portNo := lp] && lp.portNo !in Directory(lps)
    ensures had == map[] ==> Computed(net, added, roots, lps + [lp])
    ensures had != map[] ==>
      && Good(net, added, Directory(lps + [lp])) && roots == Roots(Directory(lps + [lp]))
      && (Complete(had, Directory(lps)) ==> Complete(added, Directory(lps + [lp])))
      && NewPortRouted(had, Directory(lps), RootPorts(lps), added, Directory(lps + [lp]), lp)
  {
    InOrderBefore(net, lps, lp);
    var cache := ComputeNew(net, lps);
    had, hadRoots := cache.routes, cache.rootPorts;
    RootPortsEnumerate(lps + [lp]);
    CanRouteIff(net, lps + [lp]);
    var st := cache.AddPort(lp, lps + [lp]);
    return cache.routes, cache.rootPorts, had, hadRoots;
  }

  /**
    Adding a port to the routes of the others gives the routes that are computed from all of them, if and only if there are
    at most two NNIs then, or there were no routes to add to.
  */
  method AddPortRefinesComputeRoutes(net: Network, lps: seq<LogicalPort>, lp: LogicalPort)
    returns (added: RouteMap, computed: RouteMap, addedRoots: set<nat>, computedRoots: set<nat>)
    requires InOrder(net, lps + [lp])
    ensures added == computed <==>
      |RootPorts(lps + [lp])| <= 2 || RootPorts(lps) == [] || Leaves(Directory(lps)) == {}
    ensures addedRoots == computedRoots
    ensures Good(net, computed, Directory(lps + [lp]))
  {
    var had, hadRoots;
    added, addedRoots, had, hadRoots := AddToNew(net, lps, lp);
    var full := ComputeNew(net, lps + [lp]);
    computed, computedRoots := full.routes, full.rootPorts;
    ComputedEmpty(net, had, hadRoots, lps);
    ComputedUnique(net, computed, computed, computedRoots, computedRoots, lps + [lp]);
    if had == map[] {
      ComputedUnique(net, added, computed, addedRoots, computedRoots, lps + [lp]);
    } else {
      AddedAgainstComputed(net, had, hadRoots, added, computed, computedRoots, lps, lp);
    }
  }

  lemma AddedAgainstComputed(
      net: Network, had: RouteMap, hadRoots: set<nat>, added: RouteMap, computed: RouteMap, roots: set<nat>, lps: seq<LogicalPort>, lp: LogicalPort)
    requires InOrder(net, lps) && InOrder(net, lps + [lp]) && had != map[]
    requires Computed(net, had, hadRoots, lps) && Computed(net, computed, roots, lps + [lp])
    requires Directory(lps + [lp]) == Directory(lps)[lp.portNo := lp] && lp.portNo !in Directory(lps)
    requires Good(net, added, Directory(lps + [lp])) && (Complete(had, Directory(lps)) ==> Complete(added, Directory(lps + [lp])))
    requires NewPortRouted(had, Directory(lps), RootPorts(lps), added, Directory(lps + [lp]), lp)
    ensures added == computed <==> |RootPorts(lps + [lp])| <= 2
    ensures roots == Roots(Directory(lps + [lp]))
  {
    RootPortsAppend(lps, lp);
    ComputedEmpty(net, had, hadRoots, lps);
    if |RootPorts(lps + [lp])| <= 2 {
      CompleteRoutesUnique(net, added, computed, Directory(lps + [lp]));
    } else {
      AddedDiffers(net, had, hadRoots, added, computed, roots, lps, lp);
    }
  }

  // ----- Position keys -----

  function Digit(d: nat): char
    requires d < 10
  {
    "0123456789"[d]
  }

  function Decimal(n: nat): string {
    if n < 10 then [Digit(n)] else Decimal(n / 10) + [Digit(n % 10)]
  }

  lemma {:induction false} DecimalHasNoColon(n: nat)
    ensures forall i | 0 <= i < |Decimal(n)| :: Decimal(n)[i] != ':'
  {
    if n >= 10 {
      DecimalHasNoColon(n / 10);
    }
  }

  lemma {:induction false} DecimalInjective(n: nat, m: nat)
    requires Decimal(n) == Decimal(m)
    ensures n == m
  {
    var s, t := Decimal(n), Decimal(m);
    assert s[|s| - 1] == t[|t| - 1];
    if n >= 10 && m >= 10 {
      assert Decimal(n / 10) == s[..|s| - 1] == t[..|t| - 1] == Decimal(m / 10);
      DecimalInjective(n / 10, m / 10);
    }
  }

  /** The key under which the source files a position. */
  function ConcatDeviceIDPortID(at: Position): string { at.device + ":" + Decimal(at.portNo) }

  /** Keys of different positions differ, whatever the device ids look like. */
  lemma ConcatInjective(a: Position, b: Position)
    requires ConcatDeviceIDPortID(a) == ConcatDeviceIDPortID(b)
    ensures a == b
  {
    var s, n, m := ConcatDeviceIDPortID(a), |Decimal(a.portNo)|, |Decimal(b.portNo)|;
    DecimalHasNoColon(a.portNo);
    DecimalHasNoColon(b.portNo);
    assert s[|s| - n..] == Decimal(a.portNo) && s[|s| - n - 1] == ':' && s[|s| - m..] == Decimal(b.portNo) && s[|s| - m - 1] == ':';
    assert n == m;
    DecimalInjective(a.portNo, b.portNo);
    assert a.device == s[..|s| - n - 1] == b.device;
  }
}
