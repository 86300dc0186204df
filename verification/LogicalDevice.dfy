/**
  The flow and meter tables of a logical device (rw_core/core/logical_device_agent.go).

  Every operation works on a copy of the device and writes flows and meters back in separate store updates; rules
  are handed to the devices in between. Each of these steps can fail, and a failure leaves what was written before it.
*/
module LogicalDevice {
  import opened OpenFlow

  const U32: nat := 0x1_0000_0000

  datatype Meter = Meter(id: nat, config: string, flowCount: nat)

  datatype Device = Device(flows: seq<Flow>, meters: seq<Meter>)

  /** Which of the outside steps of an operation succeed. */
  datatype Env = Env(devices: bool, flowStore: bool, meterStore: bool)

  datatype Result = Result(device: Device, ok: bool)

  /** A flow request; `flow` is the entry it describes. */
  datatype FlowMod = FlowMod(flow: Flow, cookieMask: bv64, outPort: nat, outGroup: nat)

  datatype MeterMod = MeterMod(id: nat, config: string)

  // ----- Searching and counting -----

  /** The first meter with an id, or -1. */
  function FindMeter(meters: seq<Meter>, id: nat): (k: int)
    ensures -1 <= k < |meters| && (k >= 0 ==> meters[k].id == id)
    ensures forall i | 0 <= i < (if k == -1 then |meters| else k) :: meters[i].id != id
  {
    if meters == [] then -1
    else if meters[0].id == id then 0
    else
      var k := FindMeter(meters[1..], id);
      if k == -1 then -1 else k + 1
  }

  predicate Names(f: Flow, id: nat) { f.meterId != 0 && f.meterId == id }

  /** The number of flows that name a meter. */
  function Count(flows: seq<Flow>, id: nat): nat {
    if flows == [] then 0
    else Count(flows[..|flows| - 1], id) + if Names(flows[|flows| - 1], id) then 1 else 0
  }

  /** The meter a flow names is in the table (GetMeterConfig). */
  predicate MeterKnown(f: Flow, meters: seq<Meter>) { f.meterId != 0 ==> FindMeter(meters, f.meterId) >= 0 }

  predicate MetersKnown(flows: seq<Flow>, meters: seq<Meter>) { forall f | f in flows :: MeterKnown(f, meters) }

  /** updateFlowCountOfMeterStats: the 32-bit counter of the flow's meter goes up or down by one. */
  function Counted(meters: seq<Meter>, f: Flow, up: bool): seq<Meter> {
    var k := FindMeter(meters, f.meterId);
    if f.meterId == 0 || k == -1 then meters
    else
      var n := meters[k].flowCount;
      meters[k := meters[k].(flowCount := if up then (n + 1) % U32 else (n + U32 - 1) % U32)]
  }

  predicate Forwards(f: Flow, port: nat) { Output(port) in f.actions }

  predicate ForwardsToGroup(f: Flow, group: nat) { Action.Group(group) in f.actions }

  /** The cookies agree in the bits of the mask. */
  predicate AgreeUnder(a: bv64, b: bv64, mask: bv64) { a & mask == b & mask }

  /** A wildcard request covers a flow (FlowMatchesMod). */
  predicate Covers(mod: FlowMod, f: Flow) {
    && AgreeUnder(f.cookie, mod.flow.cookie, mod.cookieMask)
    && (mod.flow.tableId == OFPTT_ALL || f.tableId == mod.flow.tableId)
    && (Low31(mod.outPort) == OFPP_ANY || Forwards(f, mod.outPort))
    && (Low31(mod.outGroup) == OFPG_ANY || ForwardsToGroup(f, mod.outGroup))
    && mod.flow.fields == []
  }

  predicate Deletes(mod: FlowMod, f: Flow) { SameKey(f, mod.flow) || Covers(mod, f) }

  /** The flows that a predicate-like request leaves, and those it removes, in order. */
  function Kept(flows: seq<Flow>, mod: FlowMod): seq<Flow> {
    if flows == [] then []
    else
      var last := flows[|flows| - 1];
      Kept(flows[..|flows| - 1], mod) + if Deletes(mod, last) then [] else [last]
  }

  function Removed(flows: seq<Flow>, mod: FlowMod): seq<Flow> {
    if flows == [] then []
    else
      var last := flows[|flows| - 1];
      Removed(flows[..|flows| - 1], mod) + if Deletes(mod, last) then [last] else []
  }

  /** The flows that do not name a meter, in order. */
  function Unmetered(flows: seq<Flow>, id: nat): seq<Flow> {
    if flows == [] then []
    else
      var last := flows[|flows| - 1];
      Unmetered(flows[..|flows| - 1], id) + if Names(last, id) then [] else [last]
  }

  function Cut<T>(s: seq<T>, k: nat): seq<T>
    requires k < |s|
  {
    s[..k] + s[k + 1..]
  }

  // ----- The operations -----

  /** The entry a request puts in place of `previous`; with the reset flag the counters are carried over. */
  function Replacement(mod: FlowMod, previous: Flow): Flow {
    if HasFlag(mod.flow.flags, OFPFF_RESET_COUNTS)
    then mod.flow.(byteCount := previous.byteCount, packetCount := previous.packetCount)
    else mod.flow
  }

  /** The request meets an entry with its key; a request that asks for an overlap check never looks for one. */
  predicate Replaces(d: Device, mod: FlowMod) {
    !HasFlag(mod.flow.flags, OFPFF_CHECK_OVERLAP) && FindFlow(d.flows, mod.flow) >= 0
  }

  function FlowAdded(d: Device, mod: FlowMod, env: Env): Result {
    if Replaces(d, mod) then
      var k := FindFlow(d.flows, mod.flow);
      var flow := Replacement(mod, d.flows[k]);
      if flow == d.flows[k] then Result(d, true)
      else if !MeterKnown(flow, d.meters) || !env.devices || !env.flowStore then Result(d, false)
      else Result(d.(flows := d.flows[k := flow]), true)
    else if !MeterKnown(mod.flow, d.meters) || !env.devices || !env.flowStore then Result(d, false)
    else
      var added := d.(flows := d.flows + [mod.flow]);
      if mod.flow.meterId == 0 then Result(added, true)
      else if !env.meterStore then Result(added, false)
      else Result(added.(meters := Counted(d.meters, mod.flow, true)), true)
  }

  function FlowDeleted(d: Device, mod: FlowMod, env: Env): Result {
    var gone := Removed(d.flows, mod);
    if gone == [] then Result(d, true)
    else if !MetersKnown(gone, d.meters) || !env.devices || !env.flowStore then Result(d, false)
    else Result(d.(flows := Kept(d.flows, mod)), true)
  }

  function FlowStrictlyDeleted(d: Device, mod: FlowMod, env: Env): Result {
    var k := FindFlow(d.flows, mod.flow);
    if k == -1 then Result(d, false)
    else
      var flow := d.flows[k];
      var changed := flow.meterId != 0 && MeterKnown(flow, d.meters);
      if changed && !env.meterStore then Result(d, false)
      else
        var counted := d.(meters := Counted(d.meters, flow, false));
        if !MeterKnown(flow, d.meters) || !env.devices || !env.flowStore then Result(counted, false)
        else Result(counted.(flows := Cut(d.flows, k)), true)
  }

  function MeterAdded(d: Device, mod: MeterMod, env: Env): Result {
    if FindMeter(d.meters, mod.id) >= 0 then Result(d, true)
    else if !env.meterStore then Result(d, false)
    else Result(d.(meters := d.meters + [Meter(mod.id, mod.config, 0)]), true)
  }

  function MeterDeleted(d: Device, mod: MeterMod, env: Env): Result {
    var k := FindMeter(d.meters, mod.id);
    if k == -1 then Result(d, true)
    else if !env.meterStore then Result(d, false)
    else
      var cut := d.(meters := Cut(d.meters, k));
      if Count(d.flows, mod.id) == 0 then Result(cut, true)
      else if !env.flowStore then Result(cut, false)
      else Result(cut.(flows := Unmetered(d.flows, mod.id)), true)
  }

  function MeterModified(d: Device, mod: MeterMod, env: Env): Result {
    var k := FindMeter(d.meters, mod.id);
    if k == -1 || !env.meterStore then Result(d, false)
    else Result(d.(meters := d.meters[k := Meter(mod.id, mod.config, d.meters[k].flowCount)]), true)
  }

  // ----- The same, as the agent does it -----

  predicate AnyNames(flows: seq<Flow>, id: nat) { exists i | 0 <= i < |flows| :: Names(flows[i], id) }

  /** The metering configurations for a list of flows: fails if some meter is missing, lists each named meter, and no other, once. */
  method GetMeterConfig(flows: seq<Flow>, meters: seq<Meter>) returns (ok: bool, configs: seq<Meter>)
    ensures ok <==> MetersKnown(flows, meters)
    ensures ok ==> forall f | f in flows && f.meterId != 0 :: meters[FindMeter(meters, f.meterId)] in configs
    ensures forall i, j | 0 <= i < j < |configs| :: configs[i].id != configs[j].id
    ensures forall i | 0 <= i < |configs| ::
      AnyNames(flows, configs[i].id) && FindMeter(meters, configs[i].id) >= 0 && configs[i] == meters[FindMeter(meters, configs[i].id)]
  {
    var seen: set<nat> := {};
    configs := [];
    for n := 0 to |flows|
      invariant forall f | f in flows[..n] :: MeterKnown(f, meters)
      invariant forall f | f in flows[..n] && f.meterId != 0 :: f.meterId in seen
      invariant forall id | id in seen :: FindMeter(meters, id) >= 0 && meters[FindMeter(meters, id)] in configs
      invariant forall i | 0 <= i < |configs| :: configs[i].id in seen && configs[i] == meters[FindMeter(meters, configs[i].id)]
      invariant forall id | id in seen :: AnyNames(flows, id)
      invariant forall i, j | 0 <= i < j < |configs| :: configs[i].id != configs[j].id
    {
      var id := flows[n].meterId;
      assert flows[..n + 1] == flows[..n] + [flows[n]];
      if id != 0 && id !in seen {
        var found := false;
        for i := 0 to |meters|
          invariant !found && forall k | 0 <= k < i :: meters[k].id != id
        {
          if meters[i].id == id {
            configs := configs + [meters[i]];
            seen := seen + {id};
            found := true;
            assert FindMeter(meters, id) == i;
            assert Names(flows[n], id);
            break;
          }
        }
        if !found {
          assert flows[n] in flows;
          return false, configs;
        }
      }
    }
    assert flows[..|flows|] == flows;
    ok := true;
  }

  lemma {:induction false} UnmeteredFront(f: Flow, flows: seq<Flow>, id: nat)
    ensures Unmetered([f] + flows, id) == (if Names(f, id) then [] else [f]) + Unmetered(flows, id)
  {
    if flows == [] {
      assert [f] + flows == [f] && [f][..0] == [];
    } else {
      assert ([f] + flows)[..|flows|] == [f] + flows[..|flows| - 1];
      UnmeteredFront(f, flows[..|flows| - 1], id);
    }
  }

  lemma {:induction false} UnmeteredShorter(flows: seq<Flow>, id: nat)
    ensures |Unmetered(flows, id)| <= |flows|
    ensures |Unmetered(flows, id)| < |flows| <==> exists i | 0 <= i < |flows| :: Names(flows[i], id)
  {
    if flows != [] {
      var shorter := flows[..|flows| - 1];
      UnmeteredShorter(shorter, id);
      assert forall i | 0 <= i < |shorter| :: shorter[i] == flows[i];
    }
  }

  lemma LastOfPrefix<T>(s: seq<T>, i: nat, tail: seq<T>)
    requires i < |s|
    ensures var all := s[..i + 1] + tail;
      all[i] == s[i] && all[..i] + all[i + 1..] == s[..i] + tail && all == s[..i] + ([s[i]] + tail)
  {
  }

  /** Removes the flows of a meter from the back of the list, so that positions ahead stay valid. */
  method GetUpdatedFlowsAfterDeleteByMeterID(flows: seq<Flow>, id: nat) returns (changed: bool, updated: seq<Flow>)
    ensures updated == Unmetered(flows, id)
    ensures changed <==> exists i | 0 <= i < |flows| :: Names(flows[i], id)
  {
    updated, changed := flows, false;
    var index := |flows|;
    ghost var tail: seq<Flow> := [];
    while index > 0
      invariant 0 <= index <= |flows|
      invariant tail == Unmetered(flows[index..], id)
      invariant updated == flows[..index] + tail
      invariant |tail| <= |flows| - index && (changed <==> |tail| < |flows| - index)
    {
      index := index - 1;
      assert flows[index..] == [flows[index]] + flows[index + 1..];
      UnmeteredFront(flows[index], flows[index + 1..], id);
      LastOfPrefix(flows, index, tail);
      if updated[index].meterId != 0 && updated[index].meterId == id {
        updated := updated[..index] + updated[index + 1..];
        changed := true;
      } else {
        tail := [flows[index]] + tail;
      }
    }
    assert flows[0..] == flows;
    UnmeteredShorter(flows, id);
  }

  class LogicalDeviceAgent {
    var device: Device

    constructor ()
      ensures device == Device([], [])
    {
      device := Device([], []);
    }

    /** Raises or lowers the counter of the first meter that the flow names; says whether one changed. */
    method UpdateFlowCountOfMeterStats(meters: seq<Meter>, flow: Flow, up: bool) returns (changed: bool, updated: seq<Meter>)
      ensures updated == Counted(meters, flow, up)
      ensures changed <==> flow.meterId != 0 && MeterKnown(flow, meters)
    {
      if flow.meterId == 0 {
        return false, meters;
      }
      for i := 0 to |meters|
        invariant forall k | 0 <= k < i :: meters[k].id != flow.meterId
      {
        if meters[i].id == flow.meterId {
          assert FindMeter(meters, flow.meterId) == i;
          var n := meters[i].flowCount;
          return true, meters[i := meters[i].(flowCount := if up then (n + 1) % U32 else (n + U32 - 1) % U32)];
        }
      }
      return false, meters;
    }

    method FlowAdd(mod: FlowMod, env: Env) returns (ok: bool)
      modifies this
      ensures Result(device, ok) == FlowAdded(old(device), mod, env)
    {
      var flows, flow, updated := device.flows, mod.flow, false;
      if HasFlag(flow.flags, OFPFF_CHECK_OVERLAP) {
        // the search for overlapping flows never finds any
        flows := flows + [flow];
      } else {
        var idx := FindFlow(flows, flow);
        if idx >= 0 {
          if HasFlag(flow.flags, OFPFF_RESET_COUNTS) {
            flow := flow.(byteCount := flows[idx].byteCount, packetCount := flows[idx].packetCount);
          }
          if flow == flows[idx] {
            return true;
          }
          flows := flows[idx := flow];
          updated := true;
        } else {
          flows := flows + [flow];
        }
      }
      var known, _ := GetMeterConfig([flow], device.meters);
      assert known <==> MeterKnown(flow, device.meters) by { assert flow in [flow]; }
      if !known || !env.devices || !env.flowStore {
        return false;
      }
      device := device.(flows := flows);
      if !updated {
        var changed, meters := UpdateFlowCountOfMeterStats(device.meters, flow, true);
        if changed {
          if !env.meterStore {
            return false;
          }
          device := device.(meters := meters);
        }
      }
      return true;
    }

    method FlowDelete(mod: FlowMod, env: Env) returns (ok: bool)
      modifies this
      ensures Result(device, ok) == FlowDeleted(old(device), mod, env)
    {
      var flows := device.flows;
      var toKeep, toDelete := [], [];
      for i := 0 to |flows|
        invariant toKeep == Kept(flows[..i], mod) && toDelete == Removed(flows[..i], mod)
      {
        var longer := flows[..i + 1];
        assert longer[..i] == flows[..i] && longer[i] == flows[i];
        if Deletes(mod, flows[i]) {
          toDelete := toDelete + [flows[i]];
        } else {
          toKeep := toKeep + [flows[i]];
        }
      }
      assert flows[..|flows|] == flows;
      if |toDelete| > 0 {
        var known, _ := GetMeterConfig(toDelete, device.meters);
        if !known || !env.devices || !env.flowStore {
          return false;
        }
        device := device.(flows := toKeep);
      }
      return true;
    }

    method FlowDeleteStrict(mod: FlowMod, env: Env) returns (ok: bool)
      modifies this
      ensures Result(device, ok) == FlowStrictlyDeleted(old(device), mod, env)
    {
      var idx := FindFlow(device.flows, mod.flow);
      if idx == -1 {
        return false;
      }
      var flow := device.flows[idx];
      var changed, meters := UpdateFlowCountOfMeterStats(device.meters, flow, false);
      var known, _ := GetMeterConfig([flow], device.meters);
      assert known <==> MeterKnown(flow, device.meters) by { assert flow in [flow]; }
      if changed {
        if !env.meterStore {
          return false;
        }
        device := device.(meters := meters);
      }
      if !known || !env.devices || !env.flowStore {
        return false;
      }
      device := device.(flows := device.flows[..idx] + device.flows[idx + 1..]);
      return true;
    }

    method MeterAdd(mod: MeterMod, env: Env) returns (ok: bool)
      modifies this
      ensures Result(device, ok) == MeterAdded(old(device), mod, env)
    {
      for i := 0 to |device.meters|
        invariant device == old(device) && forall k | 0 <= k < i :: device.meters[k].id != mod.id
      {
        if device.meters[i].id == mod.id {
          return true;
        }
      }
      if !env.meterStore {
        return false;
      }
      device := device.(meters := device.meters + [Meter(mod.id, mod.config, 0)]);
      return true;
    }

    method MeterDelete(mod: MeterMod, env: Env) returns (ok: bool)
      modifies this
      ensures Result(device, ok) == MeterDeleted(old(device), mod, env)
    {
      var idx := FindMeter(device.meters, mod.id);
      if idx == -1 {
        return true;
      }
      var changedFlow, flows := GetUpdatedFlowsAfterDeleteByMeterID(device.flows, mod.id);
      CountZero(device.flows, mod.id);
      if !env.meterStore {
        return false;
      }
      device := device.(meters := device.meters[..idx] + device.meters[idx + 1..]);
      if changedFlow {
        if !env.flowStore {
          return false;
        }
        device := device.(flows := flows);
      }
      return true;
    }

    method MeterModify(mod: MeterMod, env: Env) returns (ok: bool)
      modifies this
      ensures Result(device, ok) == MeterModified(old(device), mod, env)
    {
      var idx := FindMeter(device.meters, mod.id);
      if idx == -1 || !env.meterStore {
        return false;
      }
      device := device.(meters := device.meters[idx := Meter(mod.id, mod.config, device.meters[idx].flowCount)]);
      return true;
    }
  }

  datatype Op =
    | AddFlow(mod: FlowMod)
    | DeleteFlow(mod: FlowMod)
    | DeleteFlowStrict(mod: FlowMod)
    | AddMeter(meter: MeterMod)
    | DeleteMeter(meter: MeterMod)
    | ModifyMeter(meter: MeterMod)

  function Do(d: Device, op: Op, env: Env): Result {
    match op
    case AddFlow(mod) => FlowAdded(d, mod, env)
    case DeleteFlow(mod) => FlowDeleted(d, mod, env)
    case DeleteFlowStrict(mod) => FlowStrictlyDeleted(d, mod, env)
    case AddMeter(mod) => MeterAdded(d, mod, env)
    case DeleteMeter(mod) => MeterDeleted(d, mod, env)
    case ModifyMeter(mod) => MeterModified(d, mod, env)
  }

  /**
    A modification fails and changes nothing if the meter is unknown or cannot be stored; otherwise the meter takes the new
    configuration and keeps its place and its flow count, and all other meters and all flows stay.
  */
  lemma ModificationIsLocal(d: Device, mod: MeterMod, env: Env)
    ensures var r := MeterModified(d, mod, env);
      && (!r.ok <==> (forall i | 0 <= i < |d.meters| :: d.meters[i].id != mod.id) || !env.meterStore)
      && (!r.ok ==> r.device == d)
      && r.device.flows == d.flows && |r.device.meters| == |d.meters|
      && (forall i | 0 <= i < |d.meters| :: r.device.meters[i].id == d.meters[i].id && r.device.meters[i].flowCount == d.meters[i].flowCount)
      && (forall id :: FindMeter(r.device.meters, id) == FindMeter(d.meters, id))
      && (r.ok ==> forall i | 0 <= i < |d.meters| ::
            if i == FindMeter(d.meters, mod.id) then r.device.meters[i].config == mod.config else r.device.meters[i] == d.meters[i])
  {
    forall id
      ensures FindMeter(MeterModified(d, mod, env).device.meters, id) == FindMeter(d.meters, id)
    {
      FoundBySameIds(d.meters, MeterModified(d, mod, env).device.meters, id);
    }
  }

  lemma {:induction false} FoundBySameIds(meters: seq<Meter>, others: seq<Meter>, id: nat)
    requires |meters| == |others| && forall i | 0 <= i < |meters| :: meters[i].id == others[i].id
    ensures FindMeter(meters, id) == FindMeter(others, id)
  {
    if meters != [] {
      FoundBySameIds(meters[1..], others[1..], id);
    }
  }

  // ----- Meter references -----

  predicate UniqueMeters(meters: seq<Meter>) { forall i, j | 0 <= i < j < |meters| :: meters[i].id != meters[j].id }

  /** Meter ids are unique and every flow that names a meter names one in the table. */
  predicate RefsOk(d: Device) { UniqueMeters(d.meters) && MetersKnown(d.flows, d.meters) }

  /** A meter is deleted but the flows that name it could not be removed. */
  predicate Torn(d: Device, op: Op, env: Env) {
    && op.DeleteMeter? && env.meterStore && !env.flowStore
    && FindMeter(d.meters, op.meter.id) >= 0 && Count(d.flows, op.meter.id) > 0
  }

  lemma {:induction false} CountZero(flows: seq<Flow>, id: nat)
    ensures Count(flows, id) == 0 <==> forall f | f in flows :: !Names(f, id)
    ensures Count(flows, id) <= |flows|
  {
    if flows != [] {
      CountZero(flows[..|flows| - 1], id);
      assert flows == flows[..|flows| - 1] + [flows[|flows| - 1]];
    }
  }

  lemma {:induction false} UnmeteredMembers(flows: seq<Flow>, id: nat)
    ensures forall f :: f in Unmetered(flows, id) <==> f in flows && !Names(f, id)
  {
    if flows != [] {
      UnmeteredMembers(flows[..|flows| - 1], id);
      assert flows == flows[..|flows| - 1] + [flows[|flows| - 1]];
    }
  }

  lemma {:induction false} KeptMembers(flows: seq<Flow>, mod: FlowMod)
    ensures forall f :: f in Kept(flows, mod) <==> f in flows && !Deletes(mod, f)
    ensures forall f :: f in Removed(flows, mod) <==> f in flows && Deletes(mod, f)
  {
    if flows != [] {
      KeptMembers(flows[..|flows| - 1], mod);
      assert flows == flows[..|flows| - 1] + [flows[|flows| - 1]];
    }
  }

  /** After deleting meter `k` a flow's meter is known if it was known and is not that one. */
  lemma KnownAfterCut(meters: seq<Meter>, k: nat, f: Flow)
    requires UniqueMeters(meters) && k < |meters|
    ensures UniqueMeters(Cut(meters, k))
    ensures MeterKnown(f, Cut(meters, k)) <==> MeterKnown(f, meters) && !Names(f, meters[k].id)
  {
    var cut := Cut(meters, k);
    assert forall i | 0 <= i < |cut| :: cut[i] == meters[if i < k then i else i + 1];
    var j := FindMeter(meters, f.meterId);
    if f.meterId != 0 && j >= 0 && j != k {
      assert cut[if j < k then j else j - 1] == meters[j];
    }
  }

  /** Changing the rest of a meter, or adding meters, keeps every known meter known. */
  lemma KnownBySameIds(meters: seq<Meter>, others: seq<Meter>, f: Flow)
    requires |meters| <= |others| && forall i | 0 <= i < |meters| :: others[i].id == meters[i].id
    ensures MeterKnown(f, meters) ==> MeterKnown(f, others)
  {
    if f.meterId != 0 && FindMeter(meters, f.meterId) >= 0 {
      assert others[FindMeter(meters, f.meterId)].id == f.meterId;
    }
  }

  lemma RefsAfterMeterDelete(d: Device, mod: MeterMod, env: Env)
    requires RefsOk(d)
    ensures RefsOk(MeterDeleted(d, mod, env).device) <==> !Torn(d, DeleteMeter(mod), env)
  {
    var k := FindMeter(d.meters, mod.id);
    if k >= 0 {
      forall f { KnownAfterCut(d.meters, k, f); }
      CountZero(d.flows, mod.id);
      UnmeteredMembers(d.flows, mod.id);
    }
  }

  lemma RefsAfterFlowAdd(d: Device, mod: FlowMod, env: Env)
    requires RefsOk(d)
    ensures RefsOk(FlowAdded(d, mod, env).device)
  {
    var d' := FlowAdded(d, mod, env).device;
    forall f { KnownBySameIds(d.meters, d'.meters, f); }
  }

  lemma RefsAfterFlowDeleteStrict(d: Device, mod: FlowMod, env: Env)
    requires RefsOk(d)
    ensures RefsOk(FlowStrictlyDeleted(d, mod, env).device)
  {
    var d' := FlowStrictlyDeleted(d, mod, env).device;
    forall f { KnownBySameIds(d.meters, d'.meters, f); }
  }

  /**
    Every operation, whatever fails on the way, leaves unique meter ids and no dangling meter reference, except a
    meter deletion whose second store update fails while some flow names the meter.
  */
  lemma ReferencesKept(d: Device, op: Op, env: Env)
    requires RefsOk(d)
    ensures RefsOk(Do(d, op, env).device) <==> !Torn(d, op, env)
  {
    match op
    case AddFlow(mod) => RefsAfterFlowAdd(d, mod, env);
    case DeleteFlow(mod) => KeptMembers(d.flows, mod);
    case DeleteFlowStrict(mod) => RefsAfterFlowDeleteStrict(d, mod, env);
    case DeleteMeter(mod) => RefsAfterMeterDelete(d, mod, env);
    case _ => forall f { KnownBySameIds(d.meters, Do(d, op, env).device.meters, f); }
  }

  // ----- Flow counts -----

  predicate CountOk(m: Meter, flows: seq<Flow>) { m.flowCount == Count(flows, m.id) % U32 }

  /** Every meter's counter is the number of flows that name it, in 32 bits. */
  predicate CountsOk(d: Device) { forall i | 0 <= i < |d.meters| :: CountOk(d.meters[i], d.flows) }

  /** The operation changes the flows of some meter without counting, or counts without changing the flows. */
  predicate Skews(d: Device, op: Op, env: Env) {
    match op
    case AddFlow(mod) =>
      if Replaces(d, mod) then
        var k := FindFlow(d.flows, mod.flow);
        mod.flow.meterId != d.flows[k].meterId && MeterKnown(mod.flow, d.meters) && env.devices && env.flowStore
      else
        mod.flow.meterId != 0 && MeterKnown(mod.flow, d.meters) && env.devices && env.flowStore && !env.meterStore
    case DeleteFlow(mod) =>
      env.devices && env.flowStore && exists f | f in Removed(d.flows, mod) :: f.meterId != 0
    case DeleteFlowStrict(mod) =>
      var k := FindFlow(d.flows, mod.flow);
      k >= 0 && d.flows[k].meterId != 0 && env.meterStore && !(env.devices && env.flowStore)
    case _ => false
  }

  function One(f: Flow, id: nat): nat { if Names(f, id) then 1 else 0 }

  lemma {:induction false} CountConcat(s: seq<Flow>, t: seq<Flow>, id: nat)
    ensures Count(s + t, id) == Count(s, id) + Count(t, id)
  {
    if t == [] {
      assert s + t == s;
    } else {
      assert (s + t)[..|s + t| - 1] == s + t[..|t| - 1];
      CountConcat(s, t[..|t| - 1], id);
    }
  }

  lemma CountAppend(s: seq<Flow>, f: Flow, id: nat)
    ensures Count(s + [f], id) == Count(s, id) + One(f, id)
  {
    assert (s + [f])[..|s|] == s;
  }

  lemma CountAt(s: seq<Flow>, k: nat, id: nat)
    requires k < |s|
    ensures Count(s, id) == Count(Cut(s, k), id) + One(s[k], id)
  {
    assert s == s[..k] + ([s[k]] + s[k + 1..]);
    CountConcat(s[..k], [s[k]] + s[k + 1..], id);
    CountConcat([s[k]], s[k + 1..], id);
    CountConcat(s[..k], s[k + 1..], id);
    assert [s[k]][..0] == [];
  }

  lemma CountReplaced(s: seq<Flow>, k: nat, f: Flow, id: nat)
    requires k < |s|
    ensures Count(s[k := f], id) + One(s[k], id) == Count(s, id) + One(f, id)
  {
    CountAt(s, k, id);
    CountAt(s[k := f], k, id);
    assert Cut(s[k := f], k) == Cut(s, k);
  }

  lemma {:induction false} CountKept(flows: seq<Flow>, mod: FlowMod, id: nat)
    ensures Count(flows, id) == Count(Kept(flows, mod), id) + Count(Removed(flows, mod), id)
  {
    if flows != [] {
      var shorter, last := flows[..|flows| - 1], flows[|flows| - 1];
      CountKept(shorter, mod, id);
      CountAppend(Kept(shorter, mod), last, id);
      CountAppend(Removed(shorter, mod), last, id);
      assert Kept(shorter, mod) + [] == Kept(shorter, mod) && Removed(shorter, mod) + [] == Removed(shorter, mod);
    }
  }

  lemma {:induction false} CountUnmetered(flows: seq<Flow>, a: nat, id: nat)
    requires a != id
    ensures Count(Unmetered(flows, a), id) == Count(flows, id)
  {
    if flows != [] {
      var shorter, last := flows[..|flows| - 1], flows[|flows| - 1];
      CountUnmetered(shorter, a, id);
      CountAppend(Unmetered(shorter, a), last, id);
      assert Unmetered(shorter, a) + [] == Unmetered(shorter, a);
    }
  }

  lemma Wraps(n: nat)
    ensures (n % U32 + 1) % U32 == (n + 1) % U32
    ensures n % U32 == ((n + 1) % U32 + U32 - 1) % U32
    ensures n % U32 != (n + 1) % U32
  {
  }

  /** Counting a flow up or down matches adding it to, or removing it from, the table. */
  lemma CountedMatches(d: Device, flows: seq<Flow>, f: Flow, up: bool)
    requires RefsOk(d) && CountsOk(d) && MeterKnown(f, d.meters)
    requires forall id :: if up then Count(flows, id) == Count(d.flows, id) + One(f, id) else Count(d.flows, id) == Count(flows, id) + One(f, id)
    ensures CountsOk(Device(flows, Counted(d.meters, f, up)))
  {
    var after := Counted(d.meters, f, up);
    forall i | 0 <= i < |after|
      ensures CountOk(after[i], flows)
    {
      assert CountOk(d.meters[i], d.flows);
      Wraps(if up then Count(d.flows, d.meters[i].id) else Count(flows, d.meters[i].id));
      assert after[i].id == d.meters[i].id;
    }
  }

  lemma CountsAfterFlowAdd(d: Device, mod: FlowMod, env: Env)
    requires RefsOk(d) && CountsOk(d)
    ensures CountsOk(FlowAdded(d, mod, env).device) <==> !Skews(d, AddFlow(mod), env)
  {
    var d' := FlowAdded(d, mod, env).device;
    if Replaces(d, mod) {
      var k := FindFlow(d.flows, mod.flow);
      var flow := Replacement(mod, d.flows[k]);
      forall id { CountReplaced(d.flows, k, flow, id); }
      if d' != d { CountsAfterReplace(d, k, flow); }
    } else {
      forall id { CountAppend(d.flows, mod.flow, id); }
      if d' != d {
        CountedMatches(d, d'.flows, mod.flow, true);
        if mod.flow.meterId != 0 && !env.meterStore {
          var j := FindMeter(d.meters, mod.flow.meterId);
          assert CountOk(d.meters[j], d.flows);
          assert !CountOk(d'.meters[j], d'.flows);
        }
      }
    }
  }

  lemma CountsAfterReplace(d: Device, k: nat, flow: Flow)
    requires RefsOk(d) && CountsOk(d) && k < |d.flows| && MeterKnown(flow, d.meters)
    ensures CountsOk(d.(flows := d.flows[k := flow])) <==> flow.meterId == d.flows[k].meterId
  {
    var d' := d.(flows := d.flows[k := flow]);
    forall id { CountReplaced(d.flows, k, flow, id); }
    if flow.meterId != d.flows[k].meterId {
      assert d.flows[k] in d.flows;
      var j := FindMeter(d.meters, if flow.meterId != 0 then flow.meterId else d.flows[k].meterId);
      assert CountOk(d.meters[j], d.flows);
      assert !CountOk(d'.meters[j], d'.flows);
    } else {
      forall i | 0 <= i < |d.meters| ensures CountOk(d.meters[i], d'.flows) {
        assert CountOk(d.meters[i], d.flows);
      }
    }
  }

  lemma {:induction false} RemovedFrom(flows: seq<Flow>, mod: FlowMod)
    ensures forall f | f in Removed(flows, mod) :: f in flows
  {
    if flows != [] {
      RemovedFrom(flows[..|flows| - 1], mod);
      assert flows == flows[..|flows| - 1] + [flows[|flows| - 1]];
    }
  }

  lemma UnmeteredDeletion(d: Device, mod: FlowMod)
    requires CountsOk(d) && forall f | f in Removed(d.flows, mod) :: f.meterId == 0
    ensures CountsOk(d.(flows := Kept(d.flows, mod)))
  {
    forall i | 0 <= i < |d.meters|
      ensures CountOk(d.meters[i], Kept(d.flows, mod))
    {
      assert CountOk(d.meters[i], d.flows);
      CountKept(d.flows, mod, d.meters[i].id);
      CountZero(Removed(d.flows, mod), d.meters[i].id);
    }
  }

  lemma MeteredDeletion(d: Device, kept: seq<Flow>, gone: seq<Flow>, f: Flow)
    requires RefsOk(d) && CountsOk(d) && |d.flows| < U32 && f in gone && f in d.flows && f.meterId != 0
    requires Count(d.flows, f.meterId) == Count(kept, f.meterId) + Count(gone, f.meterId)
    ensures !CountsOk(d.(flows := kept))
  {
    assert Names(f, f.meterId);
    CountZero(gone, f.meterId);
    CountZero(d.flows, f.meterId);
    var j := FindMeter(d.meters, f.meterId);
    assert CountOk(d.meters[j], d.flows);
    assert !CountOk(d.meters[j], kept);
  }

  lemma SkewedDeletion(d: Device, mod: FlowMod)
    requires RefsOk(d) && CountsOk(d) && |d.flows| < U32 && exists f | f in Removed(d.flows, mod) :: f.meterId != 0
    ensures !CountsOk(d.(flows := Kept(d.flows, mod)))
  {
    var f :| f in Removed(d.flows, mod) && f.meterId != 0;
    RemovedFrom(d.flows, mod);
    CountKept(d.flows, mod, f.meterId);
    MeteredDeletion(d, Kept(d.flows, mod), Removed(d.flows, mod), f);
  }

  /** Deletion takes the covered rules away or leaves everything as it is. */
  lemma FlowDeletedIs(d: Device, mod: FlowMod, env: Env)
    requires RefsOk(d)
    ensures FlowDeleted(d, mod, env).device
         == if env.devices && env.flowStore && Removed(d.flows, mod) != [] then d.(flows := Kept(d.flows, mod)) else d
  {
    RemovedFrom(d.flows, mod);
  }

  lemma CountsAfterFlowDelete(d: Device, mod: FlowMod, env: Env)
    requires RefsOk(d) && CountsOk(d)
    ensures !Skews(d, DeleteFlow(mod), env) ==> CountsOk(FlowDeleted(d, mod, env).device)
    ensures |d.flows| < U32 && Skews(d, DeleteFlow(mod), env) ==> !CountsOk(FlowDeleted(d, mod, env).device)
  {
    FlowDeletedIs(d, mod, env);
    if exists f | f in Removed(d.flows, mod) :: f.meterId != 0 {
      if |d.flows| < U32 { SkewedDeletion(d, mod); }
    } else {
      UnmeteredDeletion(d, mod);
    }
  }

  lemma CountsAfterFlowDeleteStrict(d: Device, mod: FlowMod, env: Env)
    requires RefsOk(d) && CountsOk(d)
    ensures CountsOk(FlowStrictlyDeleted(d, mod, env).device) <==> !Skews(d, DeleteFlowStrict(mod), env)
  {
    var d' := FlowStrictlyDeleted(d, mod, env).device;
    var k := FindFlow(d.flows, mod.flow);
    if k >= 0 {
      var flow := d.flows[k];
      assert flow in d.flows;
      forall id { CountAt(d.flows, k, id); }
      CountedMatches(d, Cut(d.flows, k), flow, false);
      if Skews(d, DeleteFlowStrict(mod), env) {
        var j := FindMeter(d.meters, flow.meterId);
        assert CountOk(d.meters[j], d.flows);
        Wraps(Count(Cut(d.flows, k), flow.meterId));
        assert !CountOk(d'.meters[j], d'.flows);
      }
    }
  }

  lemma CountsAfterMeterDelete(d: Device, mod: MeterMod, env: Env)
    requires RefsOk(d) && CountsOk(d)
    ensures CountsOk(MeterDeleted(d, mod, env).device)
  {
    var d' := MeterDeleted(d, mod, env).device;
    var k := FindMeter(d.meters, mod.id);
    if d' != d {
      forall i | 0 <= i < |d'.meters|
        ensures CountOk(d'.meters[i], d'.flows)
      {
        var j := if i < k then i else i + 1;
        assert d'.meters[i] == d.meters[j] && d.meters[j].id != mod.id;
        assert CountOk(d.meters[j], d.flows);
        CountUnmetered(d.flows, mod.id, d.meters[j].id);
      }
    }
  }

  lemma CountsAfterMeterAdd(d: Device, mod: MeterMod, env: Env)
    requires RefsOk(d) && CountsOk(d)
    ensures CountsOk(MeterAdded(d, mod, env).device)
  {
    CountZero(d.flows, mod.id);
  }

  /**
    The flow counts stay right exactly when the operation does not skew them: a replacement that changes the meter,
    a non-strict deletion of metered flows and a failure between the two updates do; nothing else does. A fresh meter
    may start at zero because no flow can name it before it is in the table.
  */
  lemma CountsKept(d: Device, op: Op, env: Env)
    requires RefsOk(d) && CountsOk(d)
    ensures !Skews(d, op, env) ==> CountsOk(Do(d, op, env).device)
    ensures |d.flows| < U32 && Skews(d, op, env) ==> !CountsOk(Do(d, op, env).device)
  {
    match op
    case AddFlow(mod) => CountsAfterFlowAdd(d, mod, env);
    case DeleteFlow(mod) => CountsAfterFlowDelete(d, mod, env);
    case DeleteFlowStrict(mod) => CountsAfterFlowDeleteStrict(d, mod, env);
    case AddMeter(mod) => CountsAfterMeterAdd(d, mod, env);
    case DeleteMeter(mod) => CountsAfterMeterDelete(d, mod, env);
    case ModifyMeter(_) =>
  }

  // ----- Flow keys -----

  predicate UniqueKeys(flows: seq<Flow>) { forall i, j | 0 <= i < j < |flows| :: !SameKey(flows[i], flows[j]) }

  /** An addition keeps flow keys unique unless it asks for the overlap check and its key is present. */
  lemma KeysAfterFlowAdd(d: Device, mod: FlowMod, env: Env)
    requires UniqueKeys(d.flows)
    ensures UniqueKeys(FlowAdded(d, mod, env).device.flows) <==>
            !(HasFlag(mod.flow.flags, OFPFF_CHECK_OVERLAP) && FindFlow(d.flows, mod.flow) >= 0
              && MeterKnown(mod.flow, d.meters) && env.devices && env.flowStore)
  {
    var flows := FlowAdded(d, mod, env).device.flows;
    var k := FindFlow(d.flows, mod.flow);
    if |flows| > |d.flows| && k >= 0 {
      assert SameKey(flows[k], flows[|d.flows|]);
    } else if flows != d.flows && k >= 0 {
      assert SameKey(flows[k], d.flows[k]);
    }
  }

  // ----- Runs -----

  datatype Request = Request(op: Op, env: Env)

  function Run(d: Device, rs: seq<Request>): Device {
    if rs == [] then d else Do(Run(d, rs[..|rs| - 1]), rs[|rs| - 1].op, rs[|rs| - 1].env).device
  }

  predicate Clean(d: Device, rs: seq<Request>) {
    forall n | 0 <= n < |rs| ::
      !Torn(Run(d, rs[..n]), rs[n].op, rs[n].env) && !Skews(Run(d, rs[..n]), rs[n].op, rs[n].env)
  }

  lemma {:induction false} CleanRunKeeps(d: Device, rs: seq<Request>)
    requires RefsOk(d) && CountsOk(d) && Clean(d, rs)
    ensures RefsOk(Run(d, rs)) && CountsOk(Run(d, rs))
  {
    if rs != [] {
      var shorter, last := rs[..|rs| - 1], rs[|rs| - 1];
      assert forall n | 0 <= n < |shorter| :: shorter[..n] == rs[..n];
      CleanRunKeeps(d, shorter);
      ReferencesKept(Run(d, shorter), last.op, last.env);
      CountsKept(Run(d, shorter), last.op, last.env);
    }
  }

  /** With fewer than 2^32 flows the counters are exact, and a named meter's counter is not zero. */
  lemma ExactCounts(d: Device)
    requires RefsOk(d) && CountsOk(d) && |d.flows| < U32
    ensures forall i | 0 <= i < |d.meters| :: d.meters[i].flowCount == Count(d.flows, d.meters[i].id)
    ensures forall f | f in d.flows && f.meterId != 0 :: d.meters[FindMeter(d.meters, f.meterId)].flowCount > 0
  {
    forall i | 0 <= i < |d.meters|
      ensures d.meters[i].flowCount == Count(d.flows, d.meters[i].id)
    {
      assert CountOk(d.meters[i], d.flows);
      CountZero(d.flows, d.meters[i].id);
    }
    forall f | f in d.flows && f.meterId != 0
      ensures d.meters[FindMeter(d.meters, f.meterId)].flowCount > 0
    {
      assert Names(f, f.meterId);
      CountZero(d.flows, f.meterId);
    }
  }

  /**
    Every run without a torn meter deletion or a skewing request, from an empty device, keeps meter ids unique, meter
    references known and every counter equal to the number of flows naming the meter; so a strict deletion never
    decrements a counter that is zero.
  */
  lemma {:induction false} CleanRuns(empty: Device, rs: seq<Request>)
    requires empty.flows == [] && empty.meters == [] && Clean(empty, rs)
    ensures var d := Run(empty, rs);
            && RefsOk(d)
            && (|d.flows| < U32 ==> forall i | 0 <= i < |d.meters| :: d.meters[i].flowCount == Count(d.flows, d.meters[i].id))
            && (|d.flows| < U32 ==> forall f | f in d.flows && f.meterId != 0 :: d.meters[FindMeter(d.meters, f.meterId)].flowCount > 0)
  {
    CleanRunKeeps(empty, rs);
    if |Run(empty, rs).flows| < U32 { ExactCounts(Run(empty, rs)); }
  }
}
