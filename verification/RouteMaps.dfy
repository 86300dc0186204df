/**
  Routes between the ports of a logical device (rw_core/route/device_route.go), as values.

  A logical device has NNI ports on its root device and UNI ports on child devices that hang off the root device's PON
  ports. A route joins one NNI and one UNI and has two hops: the root device and the child.
*/
module RouteMaps {

  type DeviceId = string

  datatype PortType = PonOlt | PonOnu | EthernetUni | EthernetNni | OtherPort

  datatype Peer = Peer(device: DeviceId, portNo: nat)

  datatype Port = Port(portNo: nat, kind: PortType, peers: seq<Peer>)

  /** The devices that can be read from the model, with their ports. */
  type Network = map<DeviceId, seq<Port>>

  datatype LogicalPort = LogicalPort(device: DeviceId, devicePort: nat, portNo: nat, root: bool)

  /** The ports of a logical device by number. */
  type Ports = map<nat, LogicalPort>

  /** Where a logical port sits. */
  datatype Position = Position(device: DeviceId, portNo: nat)

  datatype Hop = Hop(device: DeviceId, ingress: nat, egress: nat)

  datatype PathId = PathId(ingress: nat, egress: nat)

  type RouteMap = map<PathId, seq<Hop>>

  datatype Option<T> = None | Some(value: T)

  // ----- Reversal -----

  function Flip(h: Hop): Hop { Hop(h.device, h.egress, h.ingress) }

  function Swap(k: PathId): PathId { PathId(k.egress, k.ingress) }

  function Reverse(route: seq<Hop>): seq<Hop> {
    seq(|route|, i requires 0 <= i < |route| => Flip(route[|route| - 1 - i]))
  }

  /** Reversing a route of any length twice gives it back. */
  lemma ReverseInvolution(route: seq<Hop>)
    ensures Reverse(Reverse(route)) == route
  {
    assert forall i | 0 <= i < |route| :: Reverse(Reverse(route))[i] == Flip(Flip(route[i]));
  }

  method GetReverseRoute(route: seq<Hop>) returns (reverse: seq<Hop>)
    ensures reverse == Reverse(route)
  {
    var a := new Hop[|route|](i => Hop("", 0, 0));
    var i, j := 0, |route| - 1;
    while j >= 0
      invariant i + j == |route| - 1 && -1 <= j
      invariant forall k | 0 <= k < i :: a[k] == Flip(route[|route| - 1 - k])
    {
      a[i] := Hop(route[j].device, route[j].egress, route[j].ingress);
      i, j := i + 1, j - 1;
    }
    reverse := a[..];
  }

  // ----- PON ports -----

  predicate IsPon(p: Port) { p.kind == PonOnu || p.kind == PonOlt }

  predicate Names(peers: seq<Peer>, d: DeviceId) { exists i | 0 <= i < |peers| :: peers[i].device == d }

  predicate Faces(p: Port, d: DeviceId) { Names(p.peers, d) }

  function PonPorts(ports: seq<Port>): seq<Port> {
    if ports == [] then []
    else
      var last := ports[|ports| - 1];
      PonPorts(ports[..|ports| - 1]) + if IsPon(last) then [last] else []
  }

  function FirstFacing(ports: seq<Port>, d: DeviceId): Option<Port> {
    if ports == [] then None
    else if Faces(ports[0], d) then Some(ports[0])
    else FirstFacing(ports[1..], d)
  }

  lemma {:induction false} FirstFacingConcat(xs: seq<Port>, ys: seq<Port>, d: DeviceId)
    ensures FirstFacing(xs + ys, d) == if FirstFacing(xs, d).Some? then FirstFacing(xs, d) else FirstFacing(ys, d)
  {
    if xs == [] {
      assert xs + ys == ys;
    } else {
      assert (xs + ys)[1..] == xs[1..] + ys;
      FirstFacingConcat(xs[1..], ys, d);
    }
  }

  lemma {:induction false} FirstFacingFaces(ports: seq<Port>, d: DeviceId)
    ensures FirstFacing(ports, d).Some? ==> Faces(FirstFacing(ports, d).value, d)
  {
    if ports != [] {
      FirstFacingFaces(ports[1..], d);
    }
  }

  /** The port of a child device through which it hangs off the root device. */
  function OnuPort(net: Network, child: DeviceId, root: DeviceId): Option<Port> {
    if child in net then FirstFacing(PonPorts(net[child]), root) else None
  }

  /** A PON port, of an OLT or of an ONU, one of whose peers is `d`. */
  predicate LinksTo(p: Port, d: DeviceId) {
    (p.kind == PonOnu || p.kind == PonOlt) && exists j | 0 <= j < |p.peers| :: p.peers[j].device == d
  }

  predicate IsFirstLink(ports: seq<Port>, i: int, d: DeviceId) {
    0 <= i < |ports| && LinksTo(ports[i], d) && forall j | 0 <= j < i :: !LinksTo(ports[j], d)
  }

  lemma {:induction false} FirstFacingIs(ports: seq<Port>, d: DeviceId)
    ensures match FirstFacing(PonPorts(ports), d)
            case None => forall i | 0 <= i < |ports| :: !LinksTo(ports[i], d)
            case Some(q) => exists i :: IsFirstLink(ports, i, d) && ports[i] == q
  {
    if ports != [] {
      var shorter, last := ports[..|ports| - 1], ports[|ports| - 1];
      FirstFacingIs(shorter, d);
      FirstFacingConcat(PonPorts(shorter), if IsPon(last) then [last] else [], d);
      assert forall i | 0 <= i < |shorter| :: shorter[i] == ports[i];
      if FirstFacing(PonPorts(shorter), d).Some? {
        var i :| IsFirstLink(shorter, i, d) && shorter[i] == FirstFacing(PonPorts(shorter), d).value;
        assert IsFirstLink(ports, i, d);
      } else if LinksTo(last, d) {
        assert IsFirstLink(ports, |shorter|, d);
      }
    }
  }

  /** The port found is the one at the least position that is a PON port of either kind and has the root device for a peer. */
  lemma OnuPortIs(net: Network, d: DeviceId, root: DeviceId, q: Port)
    ensures OnuPort(net, d, root) == Some(q) <==> d in net && exists i :: IsFirstLink(net[d], i, root) && net[d][i] == q
    ensures OnuPort(net, d, root).Some? <==> d in net && exists i | 0 <= i < |net[d]| :: LinksTo(net[d][i], root)
  {
    if d in net {
      FirstFacingIs(net[d], root);
      if i :| IsFirstLink(net[d], i, root) && net[d][i] == q {
        var j :| IsFirstLink(net[d], j, root) && net[d][j] == OnuPort(net, d, root).value;
        assert i == j;
      }
    }
  }

  predicate HasUni(ports: seq<Port>, portNo: nat) {
    exists i | 0 <= i < |ports| :: ports[i].kind == EthernetUni && ports[i].portNo == portNo
  }

  /** A PON port of the root device lists the child. */
  predicate Lists(p: Port, rootPort: nat, child: DeviceId) { p.kind == PonOlt && p.portNo == rootPort && Faces(p, child) }

  predicate AnyLists(ports: seq<Port>, rootPort: nat, child: DeviceId) {
    exists i | 0 <= i < |ports| :: Lists(ports[i], rootPort, child)
  }

  predicate Offers(net: Network, root: DeviceId, rootPort: nat, child: DeviceId) {
    root in net && AnyLists(net[root], rootPort, child)
  }

  // ----- Ports -----

  predicate Distinct(lps: seq<LogicalPort>) { forall i, j | 0 <= i < j < |lps| :: lps[i].portNo != lps[j].portNo }

  function Directory(lps: seq<LogicalPort>): Ports {
    if lps == [] then map[]
    else
      var last := lps[|lps| - 1];
      Directory(lps[..|lps| - 1])[last.portNo := last]
  }

  /** A directory files every port under its number. */
  lemma {:induction false} DirectoryHolds(lps: seq<LogicalPort>)
    requires Distinct(lps)
    ensures |Directory(lps)| == |lps|
    ensures forall n | n in Directory(lps) :: exists i | 0 <= i < |lps| :: lps[i].portNo == n
    ensures forall i | 0 <= i < |lps| :: lps[i].portNo in Directory(lps) && Directory(lps)[lps[i].portNo] == lps[i]
  {
    if lps != [] {
      var shorter, last := lps[..|lps| - 1], lps[|lps| - 1];
      DirectoryHolds(shorter);
      assert last.portNo !in Directory(shorter);
    }
  }

  function Roots(ports: Ports): set<nat> { set n | n in ports && ports[n].root }

  function Leaves(ports: Ports): set<nat> { set n | n in ports && !ports[n].root }

  predicate IsRoot(ports: Ports, n: nat) { n in ports && ports[n].root }

  predicate IsLeaf(ports: Ports, n: nat) { n in ports && !ports[n].root }

  /** Ports are filed under their numbers, the NNIs are on one device, and no NNI sits on a UNI port. */
  ghost predicate Base(net: Network, ports: Ports) {
    && (forall n | n in ports :: ports[n].portNo == n)
    && (forall n, m | IsRoot(ports, n) && IsRoot(ports, m) :: ports[n].device == ports[m].device)
    && (forall n | IsRoot(ports, n) && ports[n].device in net :: !HasUni(net[ports[n].device], ports[n].devicePort))
  }

  // ----- Good routes -----

  /** A route from NNI `n` to UNI `u` along the PON link of `u`'s device. */
  predicate IsPath(net: Network, n: LogicalPort, u: LogicalPort, hops: seq<Hop>) {
    match OnuPort(net, u.device, n.device)
    case None => false
    case Some(q) =>
      && q.peers != []
      && hops == [Hop(n.device, n.devicePort, q.peers[0].portNo), Hop(u.device, q.portNo, u.devicePort)]
  }

  /** A route joins one NNI and one UNI, has two hops, and its reverse is filed the other way round. */
  ghost predicate RouteOk(routes: RouteMap, ports: Ports, k: PathId) {
    && k in routes && |routes[k]| == 2
    && ((IsRoot(ports, k.ingress) && IsLeaf(ports, k.egress)) || (IsLeaf(ports, k.ingress) && IsRoot(ports, k.egress)))
    && Swap(k) in routes && routes[Swap(k)] == Reverse(routes[k])
  }

  ghost predicate Shaped(routes: RouteMap, ports: Ports) {
    forall k {:trigger RouteOk(routes, ports, k)} | k in routes :: RouteOk(routes, ports, k)
  }

  ghost predicate PathsOk(net: Network, routes: RouteMap, ports: Ports) {
    forall n, u {:trigger Joined(net, routes, ports, n, u)} ::
      IsRoot(ports, n) && IsLeaf(ports, u) && PathId(n, u) in routes ==> Joined(net, routes, ports, n, u)
  }

  ghost predicate Joined(net: Network, routes: RouteMap, ports: Ports, n: nat, u: nat) {
    n in ports && u in ports && PathId(n, u) in routes && IsPath(net, ports[n], ports[u], routes[PathId(n, u)])
  }

  /** The PON links of the root device are symmetric, and a child's port has one peer. */
  ghost predicate LinksOk(net: Network, root: DeviceId) {
    forall child | OnuPort(net, child, root).Some? ::
      var q := OnuPort(net, child, root).value;
      && (exists rootPort :: q.peers == [Peer(root, rootPort)])
      && (forall rootPort :: Offers(net, root, rootPort, child) <==> q.peers == [Peer(root, rootPort)])
  }

  ghost predicate Linked(net: Network, ports: Ports) { forall n | IsRoot(ports, n) :: LinksOk(net, ports[n].device) }

  /** What every run of ComputeRoutes and AddPort keeps. */
  ghost predicate Good(net: Network, routes: RouteMap, ports: Ports) {
    Shaped(routes, ports) && (Linked(net, ports) ==> PathsOk(net, routes, ports))
  }

  ghost predicate CompleteFor(routes: RouteMap, ports: Ports, n: nat) {
    forall u | IsLeaf(ports, u) :: PathId(n, u) in routes && PathId(u, n) in routes
  }

  /** Both directions of every NNI-UNI pair are there. */
  ghost predicate Complete(routes: RouteMap, ports: Ports) {
    forall n | IsRoot(ports, n) :: CompleteFor(routes, ports, n)
  }

  /** The two inner ports of a route are the two ends of a PON link. */
  lemma InnerPortsArePeers(net: Network, routes: RouteMap, ports: Ports, n: nat, u: nat)
    requires Good(net, routes, ports) && Linked(net, ports) && IsRoot(ports, n) && IsLeaf(ports, u) && PathId(n, u) in routes
    ensures var hops := routes[PathId(n, u)];
      && |hops| == 2
      && hops[0].device == ports[n].device && hops[0].ingress == ports[n].devicePort
      && hops[1].device == ports[u].device && hops[1].egress == ports[u].devicePort
      && Offers(net, hops[0].device, hops[0].egress, hops[1].device)
      && OnuPort(net, hops[1].device, hops[0].device).Some?
      && var q := OnuPort(net, hops[1].device, hops[0].device).value;
         q.portNo == hops[1].ingress && q.peers == [Peer(hops[0].device, hops[0].egress)]
  {
    assert Joined(net, routes, ports, n, u);
    assert LinksOk(net, ports[n].device);
    var q := OnuPort(net, ports[u].device, ports[n].device).value;
    assert Offers(net, ports[n].device, q.peers[0].portNo, ports[u].device);
  }

  /** Two sets of good routes agree wherever both have a route. */
  lemma GoodRoutesAgree(net: Network, a: RouteMap, b: RouteMap, ports: Ports, k: PathId)
    requires Good(net, a, ports) && Good(net, b, ports) && Linked(net, ports) && k in a && k in b
    ensures a[k] == b[k]
  {
    assert RouteOk(a, ports, k) && RouteOk(b, ports, k);
    var way := if IsRoot(ports, k.ingress) then k else Swap(k);
    assert Joined(net, a, ports, way.ingress, way.egress) && Joined(net, b, ports, way.ingress, way.egress);
    if way != k {
      assert RouteOk(a, ports, way) && RouteOk(b, ports, way) && Swap(way) == k;
    }
  }

  lemma CompleteRoutesCover(a: RouteMap, b: RouteMap, ports: Ports)
    requires Shaped(a, ports) && Complete(b, ports)
    ensures a.Keys <= b.Keys
  {
    forall k | k in a
      ensures k in b
    {
      assert RouteOk(a, ports, k);
      assert CompleteFor(b, ports, if IsRoot(ports, k.ingress) then k.ingress else k.egress);
      assert k == PathId(k.ingress, k.egress);
    }
  }

  /** There is one set of good and complete routes. */
  lemma CompleteRoutesUnique(net: Network, a: RouteMap, b: RouteMap, ports: Ports)
    requires Good(net, a, ports) && Good(net, b, ports) && Linked(net, ports) && Complete(a, ports) && Complete(b, ports)
    ensures a == b
  {
    CompleteRoutesCover(a, b, ports);
    CompleteRoutesCover(b, a, ports);
    forall k | k in a
      ensures a[k] == b[k]
    {
      GoodRoutesAgree(net, a, b, ports, k);
    }
  }

  // ----- Entering routes -----

  /** Entering a route and its reverse. */
  function Put(routes: RouteMap, n: nat, u: nat, hops: seq<Hop>): RouteMap {
    routes[PathId(n, u) := hops][PathId(u, n) := Reverse(hops)]
  }

  lemma PutKeepsGood(net: Network, routes: RouteMap, ports: Ports, n: nat, u: nat, hops: seq<Hop>)
    requires Good(net, routes, ports) && IsRoot(ports, n) && IsLeaf(ports, u) && |hops| == 2
    requires Linked(net, ports) ==> IsPath(net, ports[n], ports[u], hops)
    ensures Good(net, Put(routes, n, u, hops), ports)
  {
    ReverseInvolution(hops);
    var after := Put(routes, n, u, hops);
    forall k | k in after
      ensures RouteOk(after, ports, k)
    {
      assert k in routes ==> RouteOk(routes, ports, k);
    }
    if Linked(net, ports) {
      forall m, v | IsRoot(ports, m) && IsLeaf(ports, v) && PathId(m, v) in after
        ensures Joined(net, after, ports, m, v)
      {
        assert PathId(m, v) in routes ==> Joined(net, routes, ports, m, v);
      }
    }
  }

  predicate Mentions(k: PathId, n: nat) { k.ingress == n || k.egress == n }

  /** Only routes that mention `n` are added or replaced; none is lost. */
  ghost predicate Grown(before: RouteMap, after: RouteMap, n: nat) {
    && (forall k | k in before :: k in after)
    && forall k | k in after && !Mentions(k, n) :: k in before && after[k] == before[k]
  }

  // ----- Copying the routes of one NNI to another -----

  function CopyKey(k: PathId, from: nat, to: nat): PathId {
    PathId(if k.ingress == from then to else k.ingress, if k.egress == from then to else k.egress)
  }

  function CopyPath(k: PathId, hops: seq<Hop>, from: nat, to: LogicalPort): seq<Hop>
    requires |hops| == 2
  {
    if k.ingress == from then [Hop(to.device, to.devicePort, hops[0].egress), hops[1]]
    else [hops[0], Hop(to.device, hops[1].ingress, to.devicePort)]
  }

  /** The copy of route `k` from NNI `from` to NNI `to` is in `after`. */
  ghost predicate CopyOf(before: RouteMap, after: RouteMap, from: nat, to: LogicalPort, k: PathId) {
    && k in before && |before[k]| == 2
    && CopyKey(k, from, to.portNo) in after
    && after[CopyKey(k, from, to.portNo)] == CopyPath(k, before[k], from, to)
  }

  /** `after` is `before` with the routes of `from` copied to `to`. */
  ghost predicate Copied(before: RouteMap, after: RouteMap, from: nat, to: LogicalPort) {
    && (forall k | k in before :: k in after && after[k] == before[k])
    && (forall k {:trigger CopyOf(before, after, from, to, k)} | k in before && Mentions(k, from) :: CopyOf(before, after, from, to, k))
    && (forall k | k in after :: k in before || (Mentions(k, to.portNo) && CopyKey(k, to.portNo, from) in before))
  }

  /** Routes that `to` already has are those a copy would give it. */
  ghost predicate Agrees(routes: RouteMap, from: nat, to: LogicalPort) {
    forall k {:trigger CopyOf(routes, routes, from, to, k)} |
      k in routes && Mentions(k, from) && CopyKey(k, from, to.portNo) in routes :: CopyOf(routes, routes, from, to, k)
  }

  /** Copying commutes with reversal. */
  lemma CopyMirrors(k: PathId, hops: seq<Hop>, from: nat, to: LogicalPort)
    requires |hops| == 2 && Mentions(k, from) && k.ingress != k.egress
    ensures CopyKey(Swap(k), from, to.portNo) == Swap(CopyKey(k, from, to.portNo))
    ensures CopyPath(Swap(k), Reverse(hops), from, to) == Reverse(CopyPath(k, hops, from, to))
  {
    var copy := CopyPath(k, hops, from, to);
    assert Reverse(hops) == [Flip(hops[1]), Flip(hops[0])];
    assert Reverse(copy) == [Flip(copy[1]), Flip(copy[0])];
  }

  lemma CopyKeepsShape(before: RouteMap, after: RouteMap, ports: Ports, from: nat, to: nat)
    requires IsRoot(ports, from) && IsRoot(ports, to) && from != to && ports[to].portNo == to
    requires Shaped(before, ports) && Copied(before, after, from, ports[to])
    ensures Shaped(after, ports)
  {
    forall k | k in after
      ensures RouteOk(after, ports, k)
    {
      if k in before {
        assert RouteOk(before, ports, k);
      } else {
        var j := CopyKey(k, to, from);
        assert RouteOk(before, ports, j);
        assert CopyOf(before, after, from, ports[to], j);
        assert CopyOf(before, after, from, ports[to], Swap(j));
        CopyMirrors(j, before[j], from, ports[to]);
      }
    }
  }

  lemma CopyKeepsPaths(net: Network, before: RouteMap, after: RouteMap, ports: Ports, from: nat, to: nat)
    requires Base(net, ports) && IsRoot(ports, from) && IsRoot(ports, to) && from != to
    requires PathsOk(net, before, ports) && Copied(before, after, from, ports[to])
    ensures PathsOk(net, after, ports)
  {
    forall n, u | IsRoot(ports, n) && IsLeaf(ports, u) && PathId(n, u) in after
      ensures Joined(net, after, ports, n, u)
    {
      if PathId(n, u) in before {
        assert Joined(net, before, ports, n, u);
      } else {
        assert n == to && CopyKey(PathId(n, u), to, from) == PathId(from, u);
        assert Joined(net, before, ports, from, u);
        assert CopyOf(before, after, from, ports[to], PathId(from, u));
      }
    }
  }

  lemma CopyKeepsGood(net: Network, before: RouteMap, after: RouteMap, ports: Ports, from: nat, to: nat)
    requires Base(net, ports) && IsRoot(ports, from) && IsRoot(ports, to) && from != to
    requires Good(net, before, ports) && Copied(before, after, from, ports[to])
    ensures Good(net, after, ports) && Grown(before, after, to)
  {
    CopyKeepsShape(before, after, ports, from, to);
    if Linked(net, ports) {
      CopyKeepsPaths(net, before, after, ports, from, to);
    }
  }

  /** With symmetric links the routes an NNI already has are those a copy gives it. */
  lemma LinkedAgrees(net: Network, routes: RouteMap, ports: Ports, from: nat, to: nat)
    requires Base(net, ports) && IsRoot(ports, from) && IsRoot(ports, to) && from != to
    requires Shaped(routes, ports) && PathsOk(net, routes, ports)
    ensures Agrees(routes, from, ports[to])
  {
    forall k | k in routes && Mentions(k, from) && CopyKey(k, from, to) in routes
      ensures CopyOf(routes, routes, from, ports[to], k)
    {
      var copy := CopyKey(k, from, to);
      assert RouteOk(routes, ports, k) && RouteOk(routes, ports, copy);
      if k.ingress == from {
        assert Joined(net, routes, ports, from, k.egress) && Joined(net, routes, ports, to, k.egress);
      } else {
        var back := Swap(k);
        assert RouteOk(routes, ports, back) && RouteOk(routes, ports, Swap(copy));
        assert Joined(net, routes, ports, from, k.ingress) && Joined(net, routes, ports, to, k.ingress);
        CopyMirrors(back, routes[back], from, ports[to]);
        assert Swap(back) == k && Swap(Swap(copy)) == copy;
      }
    }
  }

  /** A copy gives the other NNI routes to the same UNIs. */
  lemma CopyRouted(net: Network, before: RouteMap, after: RouteMap, ports: Ports, from: nat, to: nat)
    requires Base(net, ports) && IsRoot(ports, from) && IsRoot(ports, to) && from != to && Copied(before, after, from, ports[to])
    requires RoutedFor(net, before, ports, from) && Unrouted(before, to)
    ensures RoutedFor(net, after, ports, from) && RoutedFor(net, after, ports, to)
  {
    forall u | IsLeaf(ports, u)
      ensures PathId(from, u) in after <==> Hangs(net, ports[from].device, ports[u])
      ensures PathId(to, u) in after <==> Hangs(net, ports[to].device, ports[u])
    {
      assert PathId(from, u) in before <==> Hangs(net, ports[from].device, ports[u]);
      assert CopyKey(PathId(to, u), to, from) == PathId(from, u) && CopyKey(PathId(from, u), from, to) == PathId(to, u);
      if PathId(from, u) in before {
        assert CopyOf(before, after, from, ports[to], PathId(from, u));
      }
      assert PathId(to, u) in before ==> Mentions(PathId(to, u), to);
    }
  }

  lemma CopyCompletes(before: RouteMap, after: RouteMap, ports: Ports, from: nat, to: nat)
    requires IsRoot(ports, from) && IsRoot(ports, to) && ports[to].portNo == to && Copied(before, after, from, ports[to])
    requires CompleteFor(before, ports, from)
    ensures CompleteFor(after, ports, to)
  {
    forall u | IsLeaf(ports, u)
      ensures PathId(to, u) in after && PathId(u, to) in after
    {
      assert CopyOf(before, after, from, ports[to], PathId(from, u));
      assert CopyOf(before, after, from, ports[to], PathId(u, from));
    }
  }

  ghost predicate Unrouted(routes: RouteMap, n: nat) { forall k | k in routes :: !Mentions(k, n) }

  lemma CopyReady(net: Network, routes: RouteMap, ports: Ports, from: nat, to: nat)
    requires Base(net, ports) && IsRoot(ports, from) && IsRoot(ports, to) && from != to && Good(net, routes, ports)
    requires Unrouted(routes, to) || Linked(net, ports)
    ensures forall k | k in routes :: |routes[k]| == 2 && k.ingress != k.egress && !(Mentions(k, from) && Mentions(k, to))
    ensures Agrees(routes, from, ports[to])
  {
    forall k | k in routes
      ensures |routes[k]| == 2 && k.ingress != k.egress && !(Mentions(k, from) && Mentions(k, to))
    {
      assert RouteOk(routes, ports, k);
    }
    if Linked(net, ports) {
      LinkedAgrees(net, routes, ports, from, to);
    } else {
      assert forall k | k in routes && Mentions(k, from) :: Mentions(CopyKey(k, from, to), to);
    }
  }

  // ----- All ways from a root device to UNI ports -----

  /** Root PON port, child device, the child's port that faces the root device, UNI port of the child. */
  datatype Lane = Lane(rootPort: nat, child: DeviceId, childPon: nat, uni: nat)

  function ChildLanes(rootPort: nat, child: DeviceId, childPon: nat, ports: seq<Port>): seq<Lane> {
    if ports == [] then []
    else
      var last := ports[|ports| - 1];
      ChildLanes(rootPort, child, childPon, ports[..|ports| - 1])
      + if last.kind == EthernetUni then [Lane(rootPort, child, childPon, last.portNo)] else []
  }

  function PeerLanes(net: Network, root: DeviceId, rootPort: nat, peers: seq<Peer>): seq<Lane> {
    if peers == [] then []
    else
      var child := peers[|peers| - 1].device;
      PeerLanes(net, root, rootPort, peers[..|peers| - 1])
      + match OnuPort(net, child, root)
        case None => []
        case Some(q) => ChildLanes(rootPort, child, q.portNo, net[child])
  }

  function Lanes(net: Network, root: DeviceId, ports: seq<Port>): seq<Lane> {
    if ports == [] then []
    else
      var last := ports[|ports| - 1];
      Lanes(net, root, ports[..|ports| - 1]) + if last.kind == PonOlt then PeerLanes(net, root, last.portNo, last.peers) else []
  }

  lemma ChildLanesNext(rootPort: nat, child: DeviceId, childPon: nat, ports: seq<Port>, i: nat)
    requires i < |ports|
    ensures ChildLanes(rootPort, child, childPon, ports[..i + 1])
         == if ports[i].kind == EthernetUni
            then ChildLanes(rootPort, child, childPon, ports[..i]) + [Lane(rootPort, child, childPon, ports[i].portNo)]
            else ChildLanes(rootPort, child, childPon, ports[..i])
  {
    assert ports[..i + 1][..i] == ports[..i];
  }

  lemma PeerLanesNext(net: Network, root: DeviceId, rootPort: nat, peers: seq<Peer>, i: nat)
    requires i < |peers|
    ensures PeerLanes(net, root, rootPort, peers[..i + 1])
         == PeerLanes(net, root, rootPort, peers[..i])
            + match OnuPort(net, peers[i].device, root)
              case None => []
              case Some(q) => ChildLanes(rootPort, peers[i].device, q.portNo, net[peers[i].device])
  {
    assert peers[..i + 1][..i] == peers[..i];
  }

  lemma LanesNext(net: Network, root: DeviceId, ports: seq<Port>, i: nat)
    requires i < |ports|
    ensures Lanes(net, root, ports[..i + 1])
         == if ports[i].kind == PonOlt
            then Lanes(net, root, ports[..i]) + PeerLanes(net, root, ports[i].portNo, ports[i].peers)
            else Lanes(net, root, ports[..i])
  {
    assert ports[..i + 1][..i] == ports[..i];
  }

  lemma {:induction false} ChildLanesAre(rootPort: nat, child: DeviceId, childPon: nat, ports: seq<Port>, lane: Lane)
    ensures lane in ChildLanes(rootPort, child, childPon, ports)
       <==> lane == Lane(rootPort, child, childPon, lane.uni) && HasUni(ports, lane.uni)
  {
    if ports != [] {
      ChildLanesAre(rootPort, child, childPon, ports[..|ports| - 1], lane);
      assert HasUni(ports[..|ports| - 1], lane.uni) ==> HasUni(ports, lane.uni);
    }
  }

  /** The lane leads from the root device to a UNI port of the child over the port that faces the root device. */
  predicate Leads(net: Network, root: DeviceId, lane: Lane) {
    match OnuPort(net, lane.child, root)
    case None => false
    case Some(q) => q.portNo == lane.childPon && HasUni(net[lane.child], lane.uni)
  }

  lemma NamesLast(peers: seq<Peer>, d: DeviceId)
    requires peers != []
    ensures Names(peers, d) <==> Names(peers[..|peers| - 1], d) || peers[|peers| - 1].device == d
  {
    assert forall i | 0 <= i < |peers| - 1 :: peers[..|peers| - 1][i] == peers[i];
  }

  lemma AnyListsLast(ports: seq<Port>, rootPort: nat, child: DeviceId)
    requires ports != []
    ensures AnyLists(ports, rootPort, child)
       <==> AnyLists(ports[..|ports| - 1], rootPort, child) || Lists(ports[|ports| - 1], rootPort, child)
  {
    assert forall i | 0 <= i < |ports| - 1 :: ports[..|ports| - 1][i] == ports[i];
  }

  lemma {:induction false} PeerLanesAre(net: Network, root: DeviceId, rootPort: nat, peers: seq<Peer>, lane: Lane)
    ensures lane in PeerLanes(net, root, rootPort, peers)
       <==> lane.rootPort == rootPort && Leads(net, root, lane) && Names(peers, lane.child)
  {
    if peers != [] {
      var child := peers[|peers| - 1].device;
      PeerLanesAre(net, root, rootPort, peers[..|peers| - 1], lane);
      NamesLast(peers, lane.child);
      if OnuPort(net, child, root).Some? {
        ChildLanesAre(rootPort, child, OnuPort(net, child, root).value.portNo, net[child], lane);
      }
    }
  }

  /** The lanes are exactly those over the PON ports of the root device. */
  lemma {:induction false} LanesAre(net: Network, root: DeviceId, ports: seq<Port>, lane: Lane)
    ensures lane in Lanes(net, root, ports)
       <==> Leads(net, root, lane) && AnyLists(ports, lane.rootPort, lane.child)
  {
    if ports != [] {
      var shorter, last := ports[..|ports| - 1], ports[|ports| - 1];
      LanesAre(net, root, shorter, lane);
      PeerLanesAre(net, root, last.portNo, last.peers, lane);
      AnyListsLast(ports, lane.rootPort, lane.child);
    }
  }

  /** Maps positions to port numbers; it knows every port when no two share a position. */
  ghost predicate Placed(phys: map<Position, nat>, ports: Ports) {
    && (forall at | at in phys :: phys[at] in ports && At(ports[phys[at]]) == at)
    && (Apart(ports) ==> forall n | n in ports :: At(ports[n]) in phys && phys[At(ports[n])] == n)
  }

  function At(lp: LogicalPort): Position { Position(lp.device, lp.devicePort) }

  ghost predicate Apart(ports: Ports) { forall n, m | n in ports && m in ports && n != m :: At(ports[n]) != At(ports[m]) }

  /** The routes after those of `nni` along the lanes have been entered. */
  function Entered(routes: RouteMap, nni: LogicalPort, phys: map<Position, nat>, lanes: seq<Lane>): RouteMap {
    if lanes == [] then routes
    else
      var before, lane := Entered(routes, nni, phys, lanes[..|lanes| - 1]), lanes[|lanes| - 1];
      var at := Position(lane.child, lane.uni);
      if at in phys then
        Put(before, nni.portNo, phys[at],
            [Hop(nni.device, nni.devicePort, lane.rootPort), Hop(lane.child, lane.childPon, lane.uni)])
      else before
  }

  lemma {:induction false} EnteredConcat(routes: RouteMap, nni: LogicalPort, phys: map<Position, nat>, xs: seq<Lane>, ys: seq<Lane>)
    ensures Entered(routes, nni, phys, xs + ys) == Entered(Entered(routes, nni, phys, xs), nni, phys, ys)
  {
    if ys == [] {
      assert xs + ys == xs;
    } else {
      assert (xs + ys)[..|xs + ys| - 1] == xs + ys[..|ys| - 1];
      EnteredConcat(routes, nni, phys, xs, ys[..|ys| - 1]);
    }
  }

  /** Entering along the lanes of one more peer. */
  lemma EnteredPeerNext(
      net: Network, routes: RouteMap, nni: LogicalPort, phys: map<Position, nat>, rootPort: nat, peers: seq<Peer>, i: nat)
    requires i < |peers| && OnuPort(net, peers[i].device, nni.device).Some?
    ensures Entered(routes, nni, phys, PeerLanes(net, nni.device, rootPort, peers[..i + 1]))
         == Entered(Entered(routes, nni, phys, PeerLanes(net, nni.device, rootPort, peers[..i])), nni, phys,
                    ChildLanes(rootPort, peers[i].device, OnuPort(net, peers[i].device, nni.device).value.portNo, net[peers[i].device]))
  {
    PeerLanesNext(net, nni.device, rootPort, peers, i);
    EnteredConcat(routes, nni, phys, PeerLanes(net, nni.device, rootPort, peers[..i]),
                  ChildLanes(rootPort, peers[i].device, OnuPort(net, peers[i].device, nni.device).value.portNo, net[peers[i].device]));
  }

  /** The routes after each peer. */
  lemma EnteredPeers(net: Network, routes: RouteMap, nni: LogicalPort, phys: map<Position, nat>, rootPort: nat, peers: seq<Peer>)
    returns (after: seq<RouteMap>)
    ensures |after| == |peers| + 1 && after[0] == routes
    ensures after[|peers|] == Entered(routes, nni, phys, PeerLanes(net, nni.device, rootPort, peers))
    ensures forall i | 0 <= i < |peers| && OnuPort(net, peers[i].device, nni.device).Some? ::
      after[i + 1] == Entered(after[i], nni, phys,
        ChildLanes(rootPort, peers[i].device, OnuPort(net, peers[i].device, nni.device).value.portNo, net[peers[i].device]))
  {
    after := seq(|peers| + 1, i requires 0 <= i <= |peers| => Entered(routes, nni, phys, PeerLanes(net, nni.device, rootPort, peers[..i])));
    forall i | 0 <= i < |peers| && OnuPort(net, peers[i].device, nni.device).Some?
      ensures after[i + 1] == Entered(after[i], nni, phys,
        ChildLanes(rootPort, peers[i].device, OnuPort(net, peers[i].device, nni.device).value.portNo, net[peers[i].device]))
    {
      EnteredPeerNext(net, routes, nni, phys, rootPort, peers, i);
    }
    assert peers[..|peers|] == peers && peers[..0] == [];
  }

  /** Entering along the lanes of one more port. */
  lemma EnteredPortNext(net: Network, routes: RouteMap, nni: LogicalPort, phys: map<Position, nat>, ports: seq<Port>, i: nat)
    requires i < |ports|
    ensures Entered(routes, nni, phys, Lanes(net, nni.device, ports[..i + 1]))
         == if ports[i].kind == PonOlt
            then Entered(Entered(routes, nni, phys, Lanes(net, nni.device, ports[..i])), nni, phys,
                         PeerLanes(net, nni.device, ports[i].portNo, ports[i].peers))
            else Entered(routes, nni, phys, Lanes(net, nni.device, ports[..i]))
  {
    LanesNext(net, nni.device, ports, i);
    EnteredConcat(routes, nni, phys, Lanes(net, nni.device, ports[..i]), PeerLanes(net, nni.device, ports[i].portNo, ports[i].peers));
  }

  /** Every lane leads somewhere over a PON port of the root device. */
  ghost predicate AllLead(net: Network, root: DeviceId, lanes: seq<Lane>) {
    forall i | 0 <= i < |lanes| :: Leads(net, root, lanes[i]) && Offers(net, root, lanes[i].rootPort, lanes[i].child)
  }

  lemma {:induction false} EnteredIsGood(
      net: Network, routes: RouteMap, ports: Ports, n: nat, phys: map<Position, nat>, lanes: seq<Lane>)
    requires Base(net, ports) && IsRoot(ports, n) && Placed(phys, ports) && Good(net, routes, ports)
    requires AllLead(net, ports[n].device, lanes)
    ensures Good(net, Entered(routes, ports[n], phys, lanes), ports)
  {
    if lanes != [] {
      var nni, before, lane := ports[n], Entered(routes, ports[n], phys, lanes[..|lanes| - 1]), lanes[|lanes| - 1];
      EnteredIsGood(net, routes, ports, n, phys, lanes[..|lanes| - 1]);
      var at := Position(lane.child, lane.uni);
      if at in phys {
        var hops := [Hop(nni.device, nni.devicePort, lane.rootPort), Hop(lane.child, lane.childPon, lane.uni)];
        assert IsLeaf(ports, phys[at]);
        if Linked(net, ports) {
          assert LinksOk(net, nni.device);
          assert IsPath(net, nni, ports[phys[at]], hops);
        }
        PutKeepsGood(net, before, ports, n, phys[at], hops);
      }
    }
  }

  lemma {:induction false} EnteredGrows(routes: RouteMap, nni: LogicalPort, phys: map<Position, nat>, lanes: seq<Lane>)
    ensures Grown(routes, Entered(routes, nni, phys, lanes), nni.portNo)
    ensures forall i | 0 <= i < |lanes| && Position(lanes[i].child, lanes[i].uni) in phys ::
      var u := phys[Position(lanes[i].child, lanes[i].uni)];
      PathId(nni.portNo, u) in Entered(routes, nni, phys, lanes) && PathId(u, nni.portNo) in Entered(routes, nni, phys, lanes)
  {
    if lanes != [] {
      EnteredGrows(routes, nni, phys, lanes[..|lanes| - 1]);
      assert forall i | 0 <= i < |lanes| - 1 :: lanes[i] == lanes[..|lanes| - 1][i];
    }
  }

  // ----- Building the routes of one NNI -----

  /** The root device has ports, and every device that one of its PON ports lists is known and faces it. */
  ghost predicate Buildable(net: Network, root: DeviceId) { root in net && net[root] != [] && AllFace(net, net[root], root) }

  ghost predicate AllFace(net: Network, ports: seq<Port>, root: DeviceId) {
    forall i | 0 <= i < |ports| && ports[i].kind == PonOlt :: PeersFace(net, ports[i].peers, root)
  }

  ghost predicate PeersFace(net: Network, peers: seq<Peer>, root: DeviceId) {
    forall i | 0 <= i < |peers| :: OnuPort(net, peers[i].device, root).Some?
  }

  /** The root device has ports, and every device that one of its PON ports lists is known and has a PON port with a link back. */
  ghost predicate LinkedBack(net: Network, root: DeviceId) {
    && root in net && net[root] != []
    && forall i, j | 0 <= i < |net[root]| && net[root][i].kind == PonOlt && 0 <= j < |net[root][i].peers| ::
         var d := net[root][i].peers[j].device; d in net && exists k | 0 <= k < |net[d]| :: LinksTo(net[d][k], root)
  }

  lemma BuildableIff(net: Network, root: DeviceId)
    ensures Buildable(net, root) <==> LinkedBack(net, root)
  {
    if root in net {
      forall i, j | 0 <= i < |net[root]| && net[root][i].kind == PonOlt && 0 <= j < |net[root][i].peers|
        ensures var d := net[root][i].peers[j].device;
          OnuPort(net, d, root).Some? <==> d in net && exists k | 0 <= k < |net[d]| :: LinksTo(net[d][k], root)
      {
        OnuPortIs(net, net[root][i].peers[j].device, root, net[root][i]);
      }
      if LinkedBack(net, root) {
        forall i | 0 <= i < |net[root]| && net[root][i].kind == PonOlt
          ensures PeersFace(net, net[root][i].peers, root)
        {
        }
      }
      if Buildable(net, root) {
        forall i, j | 0 <= i < |net[root]| && net[root][i].kind == PonOlt && 0 <= j < |net[root][i].peers|
          ensures OnuPort(net, net[root][i].peers[j].device, root).Some?
        {
          assert PeersFace(net, net[root][i].peers, root);
        }
      }
    }
  }

  /** The UNI sits on a UNI port of a device that hangs off the root device. */
  predicate Hangs(net: Network, root: DeviceId, u: LogicalPort) {
    && OnuPort(net, u.device, root).Some? && HasUni(net[u.device], u.devicePort) && root in net
    && exists i | 0 <= i < |net[root]| :: net[root][i].kind == PonOlt && Faces(net[root][i], u.device)
  }

  /** The same, port by port: a UNI port with that number, a PON port with a link to the root device, and an OLT port with one back. */
  predicate Reaches(net: Network, root: DeviceId, u: LogicalPort) {
    && u.device in net && root in net
    && (exists i | 0 <= i < |net[u.device]| :: net[u.device][i].kind == EthernetUni && net[u.device][i].portNo == u.devicePort)
    && (exists i | 0 <= i < |net[u.device]| :: LinksTo(net[u.device][i], root))
    && (exists i | 0 <= i < |net[root]| :: net[root][i].kind == PonOlt && LinksTo(net[root][i], u.device))
  }

  lemma HangsIff(net: Network, root: DeviceId, u: LogicalPort)
    ensures Hangs(net, root, u) <==> Reaches(net, root, u)
  {
    if u.device in net && root in net {
      OnuPortIs(net, u.device, root, Port(0, PonOnu, []));
      assert forall i | 0 <= i < |net[root]| && net[root][i].kind == PonOlt :: Faces(net[root][i], u.device) <==> LinksTo(net[root][i], u.device);
    }
  }

  /** NNI `n` has routes to exactly the UNIs that hang off its device. */
  ghost predicate RoutedFor(net: Network, routes: RouteMap, ports: Ports, n: nat) {
    n in ports && forall u | IsLeaf(ports, u) :: (PathId(n, u) in routes <==> Hangs(net, ports[n].device, ports[u]))
  }

  /** No two ports share a position, and every UNI can be reached from every NNI. */
  ghost predicate Wired(net: Network, ports: Ports) {
    Apart(ports) && forall n, u | IsRoot(ports, n) && IsLeaf(ports, u) :: Hangs(net, ports[n].device, ports[u])
  }

  lemma LanesLead(net: Network, root: DeviceId)
    requires root in net
    ensures AllLead(net, root, Lanes(net, root, net[root]))
  {
    var lanes := Lanes(net, root, net[root]);
    forall i | 0 <= i < |lanes|
      ensures Leads(net, root, lanes[i]) && Offers(net, root, lanes[i].rootPort, lanes[i].child)
    {
      LanesAre(net, root, net[root], lanes[i]);
    }
  }

  /** The lane leads to `u`, and `k` is the key of a route between the NNI and `u`. */
  predicate Serves(nni: nat, phys: map<Position, nat>, lane: Lane, k: PathId) {
    var at := Position(lane.child, lane.uni);
    at in phys && (k == PathId(nni, phys[at]) || k == PathId(phys[at], nni))
  }

  /** Only routes along lanes are entered. */
  lemma {:induction false} EnteredOnly(routes: RouteMap, nni: LogicalPort, phys: map<Position, nat>, lanes: seq<Lane>, k: PathId)
    requires k in Entered(routes, nni, phys, lanes) && k !in routes
    ensures exists i | 0 <= i < |lanes| :: Serves(nni.portNo, phys, lanes[i], k)
  {
    var last := |lanes| - 1;
    if !Serves(nni.portNo, phys, lanes[last], k) {
      EnteredOnly(routes, nni, phys, lanes[..last], k);
      var i :| 0 <= i < last && Serves(nni.portNo, phys, lanes[..last][i], k);
      assert lanes[i] == lanes[..last][i];
    }
  }

  /** A UNI that hangs off the root device gets its routes. */
  lemma LaneReaches(net: Network, routes: RouteMap, ports: Ports, n: nat, phys: map<Position, nat>, u: nat)
    requires Base(net, ports) && IsRoot(ports, n) && IsLeaf(ports, u) && Placed(phys, ports) && Apart(ports)
    requires Hangs(net, ports[n].device, ports[u])
    ensures PathId(n, u) in Entered(routes, ports[n], phys, Lanes(net, ports[n].device, net[ports[n].device]))
  {
    var root := ports[n].device;
    var lanes := Lanes(net, root, net[root]);
    EnteredGrows(routes, ports[n], phys, lanes);
    var i :| 0 <= i < |net[root]| && net[root][i].kind == PonOlt && Faces(net[root][i], ports[u].device);
    var lane := Lane(net[root][i].portNo, ports[u].device, OnuPort(net, ports[u].device, root).value.portNo, ports[u].devicePort);
    assert Lists(net[root][i], lane.rootPort, lane.child);
    LanesAre(net, root, net[root], lane);
    var j :| 0 <= j < |lanes| && lanes[j] == lane;
    assert Position(lanes[j].child, lanes[j].uni) == At(ports[u]);
  }

  /** No other UNI does. */
  lemma OnlyLanesReach(net: Network, ports: Ports, n: nat, phys: map<Position, nat>, u: nat)
    requires Base(net, ports) && IsRoot(ports, n) && IsLeaf(ports, u) && Placed(phys, ports) && ports[n].device in net
    requires PathId(n, u) in Entered(map[], ports[n], phys, Lanes(net, ports[n].device, net[ports[n].device]))
    ensures Hangs(net, ports[n].device, ports[u])
  {
    var root := ports[n].device;
    var lanes := Lanes(net, root, net[root]);
    EnteredOnly(map[], ports[n], phys, lanes, PathId(n, u));
    var i :| 0 <= i < |lanes| && Serves(n, phys, lanes[i], PathId(n, u));
    LanesAre(net, root, net[root], lanes[i]);
    assert At(ports[u]) == Position(lanes[i].child, lanes[i].uni);
    var j :| 0 <= j < |net[root]| && Lists(net[root][j], lanes[i].rootPort, lanes[i].child);
  }

  /** Entering the routes along all lanes reaches exactly the UNIs that hang off the root device. */
  lemma LanesReachAll(net: Network, ports: Ports, n: nat, phys: map<Position, nat>)
    requires Base(net, ports) && IsRoot(ports, n) && Placed(phys, ports) && Apart(ports) && ports[n].device in net
    ensures RoutedFor(net, Entered(map[], ports[n], phys, Lanes(net, ports[n].device, net[ports[n].device])), ports, n)
  {
    var after := Entered(map[], ports[n], phys, Lanes(net, ports[n].device, net[ports[n].device]));
    forall u | IsLeaf(ports, u)
      ensures PathId(n, u) in after <==> Hangs(net, ports[n].device, ports[u])
    {
      if Hangs(net, ports[n].device, ports[u]) {
        LaneReaches(net, map[], ports, n, phys, u);
      }
      if PathId(n, u) in after {
        OnlyLanesReach(net, ports, n, phys, u);
      }
    }
  }

  // ----- Several NNIs -----

  function RootPorts(lps: seq<LogicalPort>): seq<LogicalPort> {
    if lps == [] then []
    else
      var last := lps[|lps| - 1];
      RootPorts(lps[..|lps| - 1]) + if last.root then [last] else []
  }

  /** `nnis` lists every NNI once. */
  ghost predicate Enumerates(nnis: seq<LogicalPort>, ports: Ports) {
    && Distinct(nnis)
    && (forall i | 0 <= i < |nnis| :: IsRoot(ports, nnis[i].portNo) && ports[nnis[i].portNo] == nnis[i])
    && (forall n | IsRoot(ports, n) :: Listed(nnis, n))
  }

  predicate Listed(nnis: seq<LogicalPort>, n: nat) { exists i | 0 <= i < |nnis| :: nnis[i].portNo == n }

  lemma EnumeratesNext(nnis: seq<LogicalPort>, ports: Ports, lp: LogicalPort)
    requires Enumerates(nnis, ports) && lp.portNo !in ports
    ensures Enumerates(if lp.root then nnis + [lp] else nnis, ports[lp.portNo := lp])
  {
    var more, all := if lp.root then nnis + [lp] else nnis, ports[lp.portNo := lp];
    forall n | IsRoot(all, n)
      ensures Listed(more, n)
    {
      if n == lp.portNo {
        assert more[|nnis|].portNo == n;
      } else {
        assert IsRoot(ports, n);
        var i :| 0 <= i < |nnis| && nnis[i].portNo == n;
        assert more[i].portNo == n;
      }
    }
  }

  lemma {:induction false} RootPortsEnumerate(lps: seq<LogicalPort>)
    requires Distinct(lps)
    ensures Enumerates(RootPorts(lps), Directory(lps))
  {
    if lps != [] {
      var shorter, last := lps[..|lps| - 1], lps[|lps| - 1];
      RootPortsEnumerate(shorter);
      LastIsNew(lps);
      EnumeratesNext(RootPorts(shorter), Directory(shorter), last);
      assert RootPorts(lps) == if last.root then RootPorts(shorter) + [last] else RootPorts(shorter);
    }
  }

  lemma LastIsNew(lps: seq<LogicalPort>)
    requires Distinct(lps) && lps != []
    ensures lps[|lps| - 1].portNo !in Directory(lps[..|lps| - 1])
  {
    DirectoryHolds(lps[..|lps| - 1]);
  }

  ghost predicate UnroutedFrom(routes: RouteMap, nnis: seq<LogicalPort>, i: nat) {
    forall j | i <= j < |nnis| :: Unrouted(routes, nnis[j].portNo)
  }

  lemma GrownUnrouted(before: RouteMap, after: RouteMap, ports: Ports, nnis: seq<LogicalPort>, i: nat)
    requires Enumerates(nnis, ports) && i < |nnis| && Shaped(after, ports)
    requires UnroutedFrom(before, nnis, i) && Grown(before, after, nnis[i].portNo)
    ensures UnroutedFrom(after, nnis, i + 1)
  {
    forall j, k | i < j < |nnis| && k in after
      ensures !Mentions(k, nnis[j].portNo)
    {
      assert RouteOk(after, ports, k);
      assert Unrouted(before, nnis[j].portNo);
    }
  }

  /** What holds when ComputeRoutes has looked at the first `i` NNIs. */
  ghost predicate Progress(net: Network, routes: RouteMap, ports: Ports, nnis: seq<LogicalPort>, i: nat) {
    && Good(net, routes, ports) && UnroutedFrom(routes, nnis, i)
    && (Apart(ports) && 0 < i <= |nnis| ==> RoutedFor(net, routes, ports, nnis[0].portNo))
    && (Apart(ports) && 1 < i ==> routes == map[])
  }

  /**
    When no two ports share a position: the first two NNIs are routed to exactly the UNIs that can be reached and the others
    to none. If every UNI can be reached, all pairs have routes exactly when there are at most two NNIs or no UNI.
  */
  ghost predicate CompleteUpToTwo(net: Network, routes: RouteMap, ports: Ports, nnis: seq<LogicalPort>) {
    && (Apart(ports) ==> UnroutedFrom(routes, nnis, 2) && forall i | 0 <= i < |nnis| && i < 2 :: RoutedFor(net, routes, ports, nnis[i].portNo))
    && (Wired(net, ports) ==>
          && (forall i | 0 <= i < |nnis| && i < 2 :: CompleteFor(routes, ports, nnis[i].portNo))
          && (Complete(routes, ports) <==> |nnis| <= 2 || Leaves(ports) == {}))
  }

  lemma NoLeavesNoRoutes(routes: RouteMap, ports: Ports)
    requires Shaped(routes, ports) && Leaves(ports) == {}
    ensures routes == map[]
  {
    if routes != map[] {
      var n, u := RoutesJoinTwoPorts(routes, ports);
      assert false;
    }
  }

  /** If one NNI has nothing to route to, no other one gets a route. */
  lemma NothingToRoute(net: Network, routes: RouteMap, ports: Ports, first: nat, n: nat)
    requires Base(net, ports) && IsRoot(ports, first) && IsRoot(ports, n) && Shaped(routes, ports) && Grown(map[], routes, n)
    requires RoutedFor(net, map[], ports, first) && RoutedFor(net, routes, ports, n)
    ensures routes == map[]
  {
    SameForAll(net, ports, first, n);
    forall u | IsLeaf(ports, u)
      ensures PathId(n, u) !in routes
    {
    }
    if k :| k in routes {
      var u := FarEnd(routes, ports, n, k);
      assert false;
    }
  }

  /** All routes being those of one NNI, each has a UNI at its other end. */
  lemma FarEnd(routes: RouteMap, ports: Ports, n: nat, k: PathId) returns (u: nat)
    requires Shaped(routes, ports) && Grown(map[], routes, n) && IsRoot(ports, n) && k in routes
    ensures IsLeaf(ports, u) && PathId(n, u) in routes
  {
    assert RouteOk(routes, ports, k);
    u := if k.ingress == n then k.egress else k.ingress;
    assert PathId(n, u) == k || PathId(n, u) == Swap(k);
  }

  lemma RoutedComplete(net: Network, routes: RouteMap, ports: Ports, n: nat)
    requires Shaped(routes, ports) && Wired(net, ports) && IsRoot(ports, n) && RoutedFor(net, routes, ports, n)
    ensures CompleteFor(routes, ports, n)
  {
    forall u | IsLeaf(ports, u)
      ensures PathId(n, u) in routes && PathId(u, n) in routes
    {
      assert Hangs(net, ports[n].device, ports[u]);
      assert RouteOk(routes, ports, PathId(n, u));
      assert Swap(PathId(n, u)) == PathId(u, n);
    }
  }

  /** With every UNI in reach, all pairs have routes exactly when there are at most two NNIs or no UNI. */
  lemma FirstTwoComplete(net: Network, routes: RouteMap, ports: Ports, nnis: seq<LogicalPort>)
    requires Enumerates(nnis, ports) && Shaped(routes, ports) && UnroutedFrom(routes, nnis, 2)
    requires forall i | 0 <= i < |nnis| && i < 2 :: CompleteFor(routes, ports, nnis[i].portNo)
    ensures Complete(routes, ports) <==> |nnis| <= 2 || Leaves(ports) == {}
  {
    if Leaves(ports) == {} {
      assert forall u :: IsLeaf(ports, u) ==> u in Leaves(ports);
    } else if |nnis| > 2 {
      var u :| u in Leaves(ports);
      assert IsLeaf(ports, u) && IsRoot(ports, nnis[2].portNo);
      assert Unrouted(routes, nnis[2].portNo) && Mentions(PathId(nnis[2].portNo, u), nnis[2].portNo);
      assert !CompleteFor(routes, ports, nnis[2].portNo);
    } else {
      forall n | IsRoot(ports, n)
        ensures CompleteFor(routes, ports, n)
      {
        var j :| 0 <= j < |nnis| && nnis[j].portNo == n;
      }
    }
  }

  lemma FirstTwoRouted(net: Network, routes: RouteMap, ports: Ports, nnis: seq<LogicalPort>)
    requires Enumerates(nnis, ports) && Shaped(routes, ports)
    requires Apart(ports) ==> UnroutedFrom(routes, nnis, 2) && forall i | 0 <= i < |nnis| && i < 2 :: RoutedFor(net, routes, ports, nnis[i].portNo)
    ensures CompleteUpToTwo(net, routes, ports, nnis)
  {
    if Wired(net, ports) {
      forall i | 0 <= i < |nnis| && i < 2
        ensures CompleteFor(routes, ports, nnis[i].portNo)
      {
        RoutedComplete(net, routes, ports, nnis[i].portNo);
      }
      FirstTwoComplete(net, routes, ports, nnis);
    }
  }

  /** All NNIs of a device are routed alike when there is nothing to route to. */
  lemma SameForAll(net: Network, ports: Ports, first: nat, n: nat)
    requires Base(net, ports) && IsRoot(ports, first) && IsRoot(ports, n) && RoutedFor(net, map[], ports, first)
    ensures RoutedFor(net, map[], ports, n)
  {
    forall u | IsLeaf(ports, u)
      ensures !Hangs(net, ports[n].device, ports[u])
    {
      assert !Hangs(net, ports[first].device, ports[u]);
    }
  }

  lemma AllLookedAt(net: Network, routes: RouteMap, ports: Ports, nnis: seq<LogicalPort>)
    requires Base(net, ports) && Enumerates(nnis, ports) && 0 < |nnis| && Progress(net, routes, ports, nnis, |nnis|)
    ensures CompleteUpToTwo(net, routes, ports, nnis)
  {
    if Apart(ports) && |nnis| > 1 {
      SameForAll(net, ports, nnis[0].portNo, nnis[1].portNo);
    }
    FirstTwoRouted(net, routes, ports, nnis);
  }

  // ----- Adding a port -----

  /** The device of a UNI hangs off the device of every NNI. */
  ghost predicate FacesRoots(net: Network, lp: LogicalPort, ports: Ports) {
    forall n | IsRoot(ports, n) :: OnuPort(net, lp.device, ports[n].device).Some?
  }

  /** `lp` can join `before`: it is new, or it is there already and the links are symmetric. */
  ghost predicate Joins(net: Network, before: Ports, lp: LogicalPort) {
    && Base(net, before[lp.portNo := lp])
    && (lp.portNo in before ==> before[lp.portNo] == lp && Linked(net, before))
  }

  lemma JoiningKeepsGood(net: Network, routes: RouteMap, before: Ports, lp: LogicalPort)
    requires Good(net, routes, before) && Joins(net, before, lp)
    ensures Good(net, routes, before[lp.portNo := lp])
    ensures Unrouted(routes, lp.portNo) || Linked(net, before[lp.portNo := lp])
  {
    var ports := before[lp.portNo := lp];
    if lp.portNo in before {
      assert ports == before;
    } else {
      forall k | k in routes
        ensures RouteOk(routes, ports, k) && !Mentions(k, lp.portNo)
      {
        assert RouteOk(routes, before, k);
      }
      if Linked(net, ports) {
        assert Linked(net, before) by {
          assert forall n | IsRoot(before, n) :: IsRoot(ports, n);
        }
        forall n, u | IsRoot(ports, n) && IsLeaf(ports, u) && PathId(n, u) in routes
          ensures Joined(net, routes, ports, n, u)
        {
          assert RouteOk(routes, before, PathId(n, u));
          assert Joined(net, routes, before, n, u);
        }
      }
    }
  }

  /** A new UNI is routed from all NNIs; a new NNI to all UNIs if the first NNI was. */
  ghost predicate NewPortRouted(
      had: RouteMap, before: Ports, nnis: seq<LogicalPort>, routes: RouteMap, ports: Ports, lp: LogicalPort)
  {
    if lp.root then nnis != [] && CompleteFor(had, before, nnis[0].portNo) ==> CompleteFor(routes, ports, lp.portNo)
    else forall n | IsRoot(ports, n) :: PathId(n, lp.portNo) in routes && PathId(lp.portNo, n) in routes
  }

  /** As there are routes, there are an NNI and a UNI already. */
  lemma RoutesJoinTwoPorts(routes: RouteMap, before: Ports) returns (n: nat, u: nat)
    requires Shaped(routes, before) && routes != map[]
    ensures IsRoot(before, n) && IsLeaf(before, u) && n in Roots(before) && u in Leaves(before)
  {
    var k :| k in routes;
    assert RouteOk(routes, before, k);
    n, u := if IsRoot(before, k.ingress) then k.ingress else k.egress, if IsRoot(before, k.ingress) then k.egress else k.ingress;
  }

  lemma CopiedIsRouted(had: RouteMap, routes: RouteMap, before: Ports, nnis: seq<LogicalPort>, lp: LogicalPort)
    requires lp.root && lp.portNo !in before && nnis != [] && IsRoot(before, nnis[0].portNo)
    requires Copied(had, routes, nnis[0].portNo, lp)
    ensures NewPortRouted(had, before, nnis, routes, before[lp.portNo := lp], lp)
  {
    if CompleteFor(had, before, nnis[0].portNo) {
      assert CompleteFor(had, before[lp.portNo := lp], nnis[0].portNo);
      CopyCompletes(had, routes, before[lp.portNo := lp], nnis[0].portNo, lp.portNo);
    }
  }

  lemma CopiedIsComplete(had: RouteMap, routes: RouteMap, before: Ports, lp: LogicalPort, from: nat)
    requires lp.root && IsRoot(before, from) && from != lp.portNo && (lp.portNo in before ==> before[lp.portNo] == lp)
    requires Copied(had, routes, from, lp) && Complete(had, before)
    ensures Complete(routes, before[lp.portNo := lp])
  {
    var ports := before[lp.portNo := lp];
    assert CompleteFor(had, before, from);
    assert CompleteFor(had, ports, from);
    CopyCompletes(had, routes, ports, from, lp.portNo);
    forall n | IsRoot(ports, n)
      ensures CompleteFor(routes, ports, n)
    {
      assert n != lp.portNo ==> CompleteFor(had, before, n);
    }
  }

  /** A new UNI has routes from and to the listed NNIs, and no other route has been touched. */
  ghost predicate UniRouted(net: Network, before: RouteMap, after: RouteMap, lp: LogicalPort, nnis: seq<LogicalPort>) {
    && Grown(before, after, lp.portNo)
    && forall i | 0 <= i < |nnis| ::
         && OnuPort(net, lp.device, nnis[i].device).Some?
         && PathId(nnis[i].portNo, lp.portNo) in after && PathId(lp.portNo, nnis[i].portNo) in after
  }

  lemma UniRoutedNext(
      net: Network, before: RouteMap, after: RouteMap, lp: LogicalPort, nnis: seq<LogicalPort>, n: LogicalPort, hops: seq<Hop>)
    requires UniRouted(net, before, after, lp, nnis) && OnuPort(net, lp.device, n.device).Some?
    ensures UniRouted(net, before, Put(after, n.portNo, lp.portNo, hops), lp, nnis + [n])
  {
  }

  lemma UniIsRouted(net: Network, had: RouteMap, routes: RouteMap, ports: Ports, lp: LogicalPort, nnis: seq<LogicalPort>)
    requires Enumerates(nnis, ports) && UniRouted(net, had, routes, lp, nnis)
    ensures forall n | IsRoot(ports, n) :: PathId(n, lp.portNo) in routes && PathId(lp.portNo, n) in routes
  {
    forall n | IsRoot(ports, n)
      ensures PathId(n, lp.portNo) in routes && PathId(lp.portNo, n) in routes
    {
      var i :| 0 <= i < |nnis| && nnis[i].portNo == n;
    }
  }

  lemma UniIsComplete(
      net: Network, had: RouteMap, routes: RouteMap, before: Ports, lp: LogicalPort, nnis: seq<LogicalPort>)
    requires !lp.root && (lp.portNo in before ==> before[lp.portNo] == lp) && Complete(had, before)
    requires Enumerates(nnis, before[lp.portNo := lp]) && UniRouted(net, had, routes, lp, nnis)
    ensures Complete(routes, before[lp.portNo := lp])
  {
    var ports := before[lp.portNo := lp];
    forall n, u | IsRoot(ports, n) && IsLeaf(ports, u)
      ensures PathId(n, u) in routes && PathId(u, n) in routes
    {
      assert IsRoot(before, n) && CompleteFor(had, before, n);
      var i :| 0 <= i < |nnis| && nnis[i].portNo == n;
      assert u != lp.portNo ==> IsLeaf(before, u);
    }
  }

  // ----- Counting -----

  function Pairs(from: set<nat>, to: set<nat>): set<PathId> { set n, u | n in from && u in to :: PathId(n, u) }

  lemma {:induction false} PairsCount(from: set<nat>, to: set<nat>)
    ensures |Pairs(from, to)| == |from| * |to|
  {
    if from == {} {
      assert Pairs(from, to) == {};
    } else {
      var n :| n in from;
      PairsCount(from - {n}, to);
      PairsNext(n, from, to);
      Distribute(|from - {n}|, |to|);
    }
  }

  lemma PairsNext(n: nat, from: set<nat>, to: set<nat>)
    requires n in from
    ensures |Pairs(from, to)| == |Pairs(from - {n}, to)| + |to|
  {
    RowCount(n, to);
    var rest := Pairs(from - {n}, to);
    assert Pairs(from, to) == rest + Pairs({n}, to);
    assert rest !! Pairs({n}, to);
  }

  lemma Distribute(rows: nat, columns: nat)
    ensures (rows + 1) * columns == rows * columns + columns
  {
  }

  lemma {:induction false} RowCount(n: nat, to: set<nat>)
    ensures |Pairs({n}, to)| == |to|
  {
    if to == {} {
      assert Pairs({n}, to) == {};
    } else {
      var u :| u in to;
      RowCount(n, to - {u});
      assert Pairs({n}, to) == Pairs({n}, to - {u}) + {PathId(n, u)};
    }
  }

  lemma {:induction false} SameSize<T>(a: set<T>, b: set<T>)
    requires a <= b && |a| == |b|
    ensures a == b
  {
    if x :| x in b && x !in a {
      SubsetSize(a, b - {x});
    }
  }

  lemma {:induction false} SubsetSize<T>(a: set<T>, b: set<T>)
    requires a <= b
    ensures |a| <= |b|
  {
    if a != {} {
      var x :| x in a;
      SubsetSize(a - {x}, b - {x});
    }
  }

  /** NNIs and UNIs make up all ports. */
  lemma {:induction false} PortsSplit(ports: Ports)
    ensures |Roots(ports)| + |Leaves(ports)| == |ports|
  {
    assert Roots(ports) + Leaves(ports) == ports.Keys && Roots(ports) !! Leaves(ports);
    assert |ports.Keys| == |ports|;
  }

  /** The keys that a complete set of routes has. */
  function AllKeys(ports: Ports): set<PathId> {
    Pairs(Roots(ports), Leaves(ports)) + Pairs(Leaves(ports), Roots(ports))
  }

  /** The number of routes between `nnis` NNIs and the other ports, in both directions. */
  function RouteCount(nnis: int, ports: int): int { nnis * (ports - nnis) * 2 }

  lemma AllKeysCount(ports: Ports)
    ensures |AllKeys(ports)| == RouteCount(|Roots(ports)|, |ports|)
  {
    PortsSplit(ports);
    PairsCount(Roots(ports), Leaves(ports));
    PairsCount(Leaves(ports), Roots(ports));
    assert Pairs(Roots(ports), Leaves(ports)) !! Pairs(Leaves(ports), Roots(ports));
  }

  lemma KeysAreSome(routes: RouteMap, ports: Ports)
    requires Shaped(routes, ports)
    ensures routes.Keys <= AllKeys(ports)
  {
    forall k | k in routes
      ensures k in AllKeys(ports)
    {
      assert RouteOk(routes, ports, k);
      assert k == PathId(k.ingress, k.egress);
    }
  }

  lemma CompleteIffAllKeys(routes: RouteMap, ports: Ports)
    ensures Complete(routes, ports) <==> AllKeys(ports) <= routes.Keys
  {
    if Complete(routes, ports) {
      forall n, u | n in Roots(ports) && u in Leaves(ports)
        ensures PathId(n, u) in routes && PathId(u, n) in routes
      {
        assert IsRoot(ports, n) && IsLeaf(ports, u) && CompleteFor(routes, ports, n);
      }
    }
    if AllKeys(ports) <= routes.Keys {
      forall n, u | IsRoot(ports, n) && IsLeaf(ports, u)
        ensures PathId(n, u) in routes && PathId(u, n) in routes
      {
        assert n in Roots(ports) && u in Leaves(ports);
        assert PathId(n, u) in AllKeys(ports) && PathId(u, n) in AllKeys(ports);
      }
    }
  }

  /** Counting the routes tells whether any is missing. */
  lemma CountTellsComplete(routes: RouteMap, ports: Ports)
    requires Shaped(routes, ports)
    ensures |routes| == RouteCount(|Roots(ports)|, |ports|) <==> Complete(routes, ports)
  {
    AllKeysCount(ports);
    KeysAreSome(routes, ports);
    CompleteIffAllKeys(routes, ports);
    assert |routes.Keys| == |routes|;
    if |routes| == |AllKeys(ports)| {
      SameSize(routes.Keys, AllKeys(ports));
    }
    if Complete(routes, ports) {
      assert routes.Keys == AllKeys(ports);
    }
  }
}
