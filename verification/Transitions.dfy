/**
  The choice of handlers for a device state transition (rw_core/core/device_state_transitions.go).
*/
module Transitions {

  datatype DeviceType = Parent | Child | AnyType
  datatype Admin = AdminUnknown | Preprovisioned | Enabled | Disabled | DownloadingImage | AdminDeleted
  datatype Connection = ConnectionUnknown | Unreachable | Reachable
  datatype Oper = OperUnknown | Discovered | Activating | Testing | Active | Failed

  datatype DeviceState = DeviceState(admin: Admin, connection: Connection, operational: Oper)

  datatype Handler =
    | CreateLogicalDevice | SetupUNILogicalPorts | RunPostDeviceDelete | DisableAllChildDevices
    | DeleteAllChildDevices | DeleteLogicalDevice | ChildDeviceLost | DeleteLogicalPorts | NotifyInvalidTransition

  /** A list of handlers; a nil list is not an empty one. */
  datatype Handlers = Nil | List(items: seq<Handler>)

  datatype Transition = Transition(deviceType: DeviceType, previous: DeviceState, current: DeviceState, handlers: Handlers)

  /** The handlers of a transition that matches the change, and whether it matches exactly. */
  function GetHandler(p: DeviceState, c: DeviceState, t: Transition): (Handlers, bool) {
    if p == t.previous && c == t.current then (t.handlers, true)
    else if p.admin != t.previous.admin || c.admin != t.current.admin then (Nil, false)
    else if p.admin != c.admin then (t.handlers, false)
    else if p.operational != c.operational && p.operational == t.previous.operational && c.operational == t.current.operational then
      (t.handlers, false)
    else if p.connection != c.connection && p.connection == t.previous.connection && c.connection == t.current.connection then
      (t.handlers, false)
    else (Nil, false)
  }

  // ----- What the choice means, entry by entry -----

  datatype Quality = OwnExact | AnyExact | Partial | NoMatch

  /** How well an entry answers a change: exactly and for the device's own type, exactly for any type, or in the part that changed. */
  function Rank(ty: DeviceType, p: DeviceState, c: DeviceState, t: Transition): Quality {
    if t.deviceType !in {ty, AnyType} || t.handlers.Nil? then NoMatch
    else if (p, c) == (t.previous, t.current) then if t.deviceType == ty then OwnExact else AnyExact
    else if (p.admin, c.admin) != (t.previous.admin, t.current.admin) then NoMatch
    else if p.admin != c.admin then Partial
    else if p.operational != c.operational && (p.operational, c.operational) == (t.previous.operational, t.current.operational) then Partial
    else if p.connection != c.connection && (p.connection, c.connection) == (t.previous.connection, t.current.connection) then Partial
    else NoMatch
  }

  predicate Has(ts: seq<Transition>, ty: DeviceType, p: DeviceState, c: DeviceState, r: Quality) {
    exists i | 0 <= i < |ts| :: Rank(ty, p, c, ts[i]) == r
  }

  /** `h` is the first exact entry for the own type, else the last exact one for any type, else the first partial one, else nothing. */
  predicate Chosen(ts: seq<Transition>, ty: DeviceType, p: DeviceState, c: DeviceState, h: Handlers) {
    if Has(ts, ty, p, c, OwnExact) then
      exists i | 0 <= i < |ts| :: ts[i].handlers == h && Rank(ty, p, c, ts[i]) == OwnExact
        && forall j | 0 <= j < i :: Rank(ty, p, c, ts[j]) != OwnExact
    else if Has(ts, ty, p, c, AnyExact) then
      exists i | 0 <= i < |ts| :: ts[i].handlers == h && Rank(ty, p, c, ts[i]) == AnyExact
        && forall j | i < j < |ts| :: Rank(ty, p, c, ts[j]) != AnyExact
    else if Has(ts, ty, p, c, Partial) then
      exists i | 0 <= i < |ts| :: ts[i].handlers == h && Rank(ty, p, c, ts[i]) == Partial
        && forall j | 0 <= j < i :: Rank(ty, p, c, ts[j]) != Partial
    else h == Nil
  }

  method GetTransitionHandler(ts: seq<Transition>, root: bool, p: DeviceState, c: DeviceState) returns (h: Handlers)
    ensures Chosen(ts, if root then Parent else Child, p, c, h)
  {
    var ty := if root then Parent else Child;
    var currentMatch := Nil;
    var stateMatchFound := false;
    ghost var at := 0;
    for n := 0 to |ts|
      invariant forall j | 0 <= j < n :: Rank(ty, p, c, ts[j]) != OwnExact
      invariant stateMatchFound <==> exists j | 0 <= j < n :: Rank(ty, p, c, ts[j]) == AnyExact
      invariant currentMatch != Nil || stateMatchFound ==> 0 <= at < n && ts[at].handlers == currentMatch
      invariant stateMatchFound ==>
                  Rank(ty, p, c, ts[at]) == AnyExact && forall j | at < j < n :: Rank(ty, p, c, ts[j]) != AnyExact
      invariant !stateMatchFound && currentMatch != Nil ==>
                  Rank(ty, p, c, ts[at]) == Partial && forall j | 0 <= j < at :: Rank(ty, p, c, ts[j]) != Partial
      invariant !stateMatchFound && currentMatch == Nil ==> forall j | 0 <= j < n :: Rank(ty, p, c, ts[j]) != Partial
    {
      if ts[n].deviceType != ty && ts[n].deviceType != AnyType {
        continue;
      }
      var (handlers, exact) := GetHandler(p, c, ts[n]);
      if handlers != Nil {
        if exact && ts[n].deviceType == ty {
          return handlers;
        } else if exact {
          currentMatch, stateMatchFound, at := handlers, true, n;
        } else if currentMatch == Nil && !stateMatchFound {
          currentMatch, at := handlers, n;
        }
      }
    }
    return currentMatch;
  }

  /** An unchanged state selects nothing exactly when the table has no entry from that state to itself. */
  lemma UnchangedState(ts: seq<Transition>, ty: DeviceType, s: DeviceState, h: Handlers)
    requires Chosen(ts, ty, s, s, h)
    ensures h == Nil <==> forall t | t in ts && t.deviceType in {ty, AnyType} && t.handlers != Nil :: !(t.previous == s && t.current == s)
  {
    assert forall t :: Rank(ty, s, s, t) != Partial;
    if Has(ts, ty, s, s, OwnExact) || Has(ts, ty, s, s, AnyExact) {
      var i :| 0 <= i < |ts| && Rank(ty, s, s, ts[i]) in {OwnExact, AnyExact};
      assert ts[i] in ts;
    }
  }

  // ----- The table that ships -----

  function Entry(ty: DeviceType, pa: Admin, po: Oper, ca: Admin, co: Oper, hs: seq<Handler>): Transition {
    Transition(ty, DeviceState(pa, ConnectionUnknown, po), DeviceState(ca, ConnectionUnknown, co), List(hs))
  }

  function Shipped(): seq<Transition> {
    var lost := [ChildDeviceLost, DeleteLogicalPorts, RunPostDeviceDelete];
    [ Entry(Parent, Enabled, Activating, Enabled, Active, [CreateLogicalDevice]),
      Entry(Child, Enabled, Discovered, Enabled, Active, [SetupUNILogicalPorts]),
      Entry(Child, Enabled, Activating, Enabled, Active, [SetupUNILogicalPorts]),
      Entry(AnyType, Preprovisioned, OperUnknown, AdminDeleted, OperUnknown, [RunPostDeviceDelete]),
      Entry(Parent, Disabled, OperUnknown, AdminDeleted, OperUnknown,
            [DisableAllChildDevices, DeleteAllChildDevices, DeleteLogicalDevice, RunPostDeviceDelete]),
      Entry(Child, Disabled, OperUnknown, AdminDeleted, OperUnknown, lost),
      Entry(Child, Enabled, OperUnknown, AdminDeleted, OperUnknown, lost),
      Entry(AnyType, Enabled, Active, Enabled, Activating, [NotifyInvalidTransition]),
      Entry(AnyType, Enabled, Activating, Enabled, OperUnknown, [NotifyInvalidTransition]),
      Entry(AnyType, Preprovisioned, OperUnknown, AdminUnknown, OperUnknown, [NotifyInvalidTransition]),
      Entry(AnyType, Enabled, OperUnknown, DownloadingImage, OperUnknown, [NotifyInvalidTransition]),
      Entry(AnyType, Enabled, OperUnknown, AdminUnknown, OperUnknown, [NotifyInvalidTransition]),
      Entry(Parent, Enabled, Active, Enabled, Activating, [NotifyInvalidTransition]),
      Entry(AnyType, Enabled, Activating, Enabled, OperUnknown, [NotifyInvalidTransition]),
      Entry(AnyType, Enabled, OperUnknown, Preprovisioned, OperUnknown, [NotifyInvalidTransition]),
      Entry(Child, Disabled, OperUnknown, AdminUnknown, OperUnknown, [NotifyInvalidTransition]),
      Entry(AnyType, Disabled, OperUnknown, Preprovisioned, OperUnknown, [NotifyInvalidTransition]),
      Entry(AnyType, DownloadingImage, OperUnknown, Disabled, OperUnknown, [NotifyInvalidTransition]) ]
  }

  /** If only entry `i` answers the change at all, its handlers are chosen. */
  lemma OnlyAnswer(ts: seq<Transition>, ty: DeviceType, p: DeviceState, c: DeviceState, i: nat, h: Handlers)
    requires i < |ts| && Rank(ty, p, c, ts[i]) != NoMatch && Chosen(ts, ty, p, c, h)
    requires forall j | 0 <= j < |ts| && j != i :: Rank(ty, p, c, ts[j]) == NoMatch
    ensures h == ts[i].handlers
  {
    assert Has(ts, ty, p, c, Rank(ty, p, c, ts[i]));
  }

  /** The shipped entry for the deletion of a device; it is the only one for its type and earlier admin state. */
  function DeletionEntry(root: bool, a: Admin): nat {
    if root then 4 else if a == Disabled then 5 else 6
  }

  predicate ForDeletion(t: Transition, root: bool, a: Admin) {
    t.deviceType in {if root then Parent else Child, AnyType} && t.previous.admin == a && t.current.admin == AdminDeleted
  }

  lemma OneDeletionEntry(root: bool, a: Admin)
    requires a == Disabled || (a == Enabled && !root)
    ensures forall j | 0 <= j < |Shipped()| :: ForDeletion(Shipped()[j], root, a) <==> j == DeletionEntry(root, a)
  {
  }

  /**
    With the shipped table a device that is deleted is cleaned up fully, whatever its connection and operational
    states were and become: a child from any provisioned state, a parent once it is disabled.
  */
  lemma DeletionCleansUp(root: bool, p: DeviceState, c: DeviceState, h: Handlers)
    requires c.admin == AdminDeleted && (p.admin == Disabled || (p.admin == Enabled && !root))
    requires Chosen(Shipped(), if root then Parent else Child, p, c, h)
    ensures h == List(if root then [DisableAllChildDevices, DeleteAllChildDevices, DeleteLogicalDevice, RunPostDeviceDelete]
                      else [ChildDeviceLost, DeleteLogicalPorts, RunPostDeviceDelete])
  {
    OneDeletionEntry(root, p.admin);
    var ty := if root then Parent else Child;
    assert forall t :: Rank(ty, p, c, t) != NoMatch ==> ForDeletion(t, root, p.admin);
    OnlyAnswer(Shipped(), ty, p, c, DeletionEntry(root, p.admin), h);
  }

  // ----- The whole table -----

  /** If all entries that answer a change name the same handlers, these are chosen, and nothing is chosen if none answers. */
  lemma SameAnswer(ts: seq<Transition>, ty: DeviceType, p: DeviceState, c: DeviceState, h: Handlers, answer: Handlers)
    requires Chosen(ts, ty, p, c, h)
    requires forall i | 0 <= i < |ts| && Rank(ty, p, c, ts[i]) != NoMatch :: ts[i].handlers == answer
    ensures h == if exists i | 0 <= i < |ts| :: Rank(ty, p, c, ts[i]) != NoMatch then answer else Nil
  {
    if i :| 0 <= i < |ts| && Rank(ty, p, c, ts[i]) != NoMatch {
      assert Has(ts, ty, p, c, Rank(ty, p, c, ts[i]));
    }
  }

  /** What the core does about a change of the administrative state. */
  function OnAdmin(root: bool, from: Admin, to: Admin): Handlers {
    match (from, to)
    case (Preprovisioned, AdminDeleted) => List([RunPostDeviceDelete])
    case (Disabled, AdminDeleted) =>
      List(if root then [DisableAllChildDevices, DeleteAllChildDevices, DeleteLogicalDevice, RunPostDeviceDelete]
           else [ChildDeviceLost, DeleteLogicalPorts, RunPostDeviceDelete])
    case (Enabled, AdminDeleted) => if root then Nil else List([ChildDeviceLost, DeleteLogicalPorts, RunPostDeviceDelete])
    case (Enabled, DownloadingImage) => List([NotifyInvalidTransition])
    case (Enabled, AdminUnknown) => List([NotifyInvalidTransition])
    case (Enabled, Preprovisioned) => List([NotifyInvalidTransition])
    case (Preprovisioned, AdminUnknown) => List([NotifyInvalidTransition])
    case (Disabled, AdminUnknown) => if root then Nil else List([NotifyInvalidTransition])
    case (Disabled, Preprovisioned) => List([NotifyInvalidTransition])
    case (DownloadingImage, Disabled) => List([NotifyInvalidTransition])
    case _ => Nil
  }

  /** What the core does about a change of the operational state of an enabled device. */
  function OnOper(root: bool, from: Oper, to: Oper): Handlers {
    match (from, to)
    case (Activating, Active) => List(if root then [CreateLogicalDevice] else [SetupUNILogicalPorts])
    case (Discovered, Active) => if root then Nil else List([SetupUNILogicalPorts])
    case (Active, Activating) => List([NotifyInvalidTransition])
    case (Activating, OperUnknown) => List([NotifyInvalidTransition])
    case _ => Nil
  }

  function Response(root: bool, p: DeviceState, c: DeviceState): Handlers {
    if p.admin != c.admin then OnAdmin(root, p.admin, c.admin)
    else if p.admin == Enabled then OnOper(root, p.operational, c.operational)
    else Nil
  }

  /** An entry that answers a change is about its administrative states, and about its operational states if the former stay. */
  lemma AnswersWhat(ty: DeviceType, p: DeviceState, c: DeviceState, t: Transition)
    requires t.previous.connection == t.current.connection && t.previous != t.current && !t.handlers.Nil?
    requires t.previous.admin != t.current.admin || t.previous.operational != t.current.operational
    ensures Rank(ty, p, c, t) != NoMatch <==>
      && t.deviceType in {ty, AnyType} && p.admin == t.previous.admin && c.admin == t.current.admin
      && (p.admin != c.admin || (p.operational == t.previous.operational && c.operational == t.current.operational))
  {
  }

  /** Every entry of the shipped table gives the response to the changes it is about. */
  lemma EntriesAgree(root: bool, j: nat)
    requires j < |Shipped()| && Shipped()[j].deviceType in {if root then Parent else Child, AnyType}
    ensures var t := Shipped()[j];
      && t.previous.connection == t.current.connection && t.previous != t.current && !t.handlers.Nil?
      && (t.previous.admin == t.current.admin ==> t.previous.admin == Enabled && t.previous.operational != t.current.operational)
      && t.handlers == Response(root, t.previous, t.current)
  {
  }

  /** The entry that gives the response. */
  function ResponseEntry(root: bool, p: DeviceState, c: DeviceState): nat {
    if p.admin != c.admin then
      match (p.admin, c.admin)
      case (Preprovisioned, AdminDeleted) => 3
      case (Disabled, AdminDeleted) => if root then 4 else 5
      case (Enabled, AdminDeleted) => 6
      case (Preprovisioned, AdminUnknown) => 9
      case (Enabled, DownloadingImage) => 10
      case (Enabled, AdminUnknown) => 11
      case (Enabled, Preprovisioned) => 14
      case (Disabled, AdminUnknown) => 15
      case (Disabled, Preprovisioned) => 16
      case _ => 17
    else match (p.operational, c.operational)
      case (Activating, Active) => if root then 0 else 2
      case (Discovered, Active) => 1
      case (Active, Activating) => 7
      case _ => 8
  }

  lemma ResponseHasEntry(root: bool, p: DeviceState, c: DeviceState)
    requires !Response(root, p, c).Nil?
    ensures var j := ResponseEntry(root, p, c);
      && j < |Shipped()| && Shipped()[j].deviceType in {if root then Parent else Child, AnyType}
      && Shipped()[j].previous.admin == p.admin && Shipped()[j].current.admin == c.admin
      && (p.admin != c.admin || (Shipped()[j].previous.operational == p.operational && Shipped()[j].current.operational == c.operational))
  {
  }

  /** The handlers chosen from the shipped table, for every device and every change. */
  lemma ShippedMeans(root: bool, p: DeviceState, c: DeviceState, h: Handlers)
    requires Chosen(Shipped(), if root then Parent else Child, p, c, h)
    ensures h == Response(root, p, c)
  {
    var ts, ty := Shipped(), if root then Parent else Child;
    forall i | 0 <= i < |ts|
      ensures Rank(ty, p, c, ts[i]) != NoMatch ==> ts[i].handlers == Response(root, p, c)
    {
      if ts[i].deviceType in {ty, AnyType} {
        EntriesAgree(root, i);
        AnswersWhat(ty, p, c, ts[i]);
      }
    }
    SameAnswer(ts, ty, p, c, h, Response(root, p, c));
    if !Response(root, p, c).Nil? {
      var j := ResponseEntry(root, p, c);
      ResponseHasEntry(root, p, c);
      EntriesAgree(root, j);
      AnswersWhat(ty, p, c, ts[j]);
    }
  }

  /** The change makes an enabled device active: an OLT that was activating, or an ONU that was discovered or activating. */
  predicate Activates(root: bool, p: DeviceState, c: DeviceState) {
    && p.admin == Enabled && c.admin == Enabled && c.operational == Active
    && (p.operational == Activating || (p.operational == Discovered && !root))
  }

  /**
    With the shipped table an OLT that becomes active gets its logical device, and an ONU that becomes active its UNI ports,
    whatever their connection states were and become.
  */
  lemma ActivationSetsUp(root: bool, p: DeviceState, c: DeviceState, h: Handlers)
    requires Activates(root, p, c) && Chosen(Shipped(), if root then Parent else Child, p, c, h)
    ensures h == List(if root then [CreateLogicalDevice] else [SetupUNILogicalPorts])
  {
    ShippedMeans(root, p, c, h);
  }
}
