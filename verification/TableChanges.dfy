/**
  What the operations of a logical device do to its tables, said by positions in the tables before and after
  (rw_core/core/logical_device_agent.go).
*/
module TableChanges {
  import opened OpenFlow
  import opened LogicalDevice
  import opened Sequences

  /** The five fields that tell entries apart. */
  predicate SameEntry(f: Flow, g: Flow) {
    (f.tableId, f.priority, f.flags, f.cookie, f.fields) == (g.tableId, g.priority, g.flags, g.cookie, g.fields)
  }

  predicate FirstEntry(flows: seq<Flow>, f: Flow, k: int) {
    0 <= k < |flows| && SameEntry(flows[k], f) && forall j | 0 <= j < k :: !SameEntry(flows[j], f)
  }

  predicate NoEntry(flows: seq<Flow>, f: Flow) { forall i | 0 <= i < |flows| :: !SameEntry(flows[i], f) }

  lemma FindFlowIs(flows: seq<Flow>, f: Flow)
    ensures if FindFlow(flows, f) == -1 then NoEntry(flows, f) else FirstEntry(flows, f, FindFlow(flows, f))
    ensures forall k | FirstEntry(flows, f, k) :: FindFlow(flows, f) == k
  {
    assert forall i | 0 <= i < |flows| :: SameKey(flows[i], f) <==> SameEntry(flows[i], f);
  }

  predicate FirstMeter(meters: seq<Meter>, id: nat, k: int) {
    0 <= k < |meters| && meters[k].id == id && forall j | 0 <= j < k :: meters[j].id != id
  }

  predicate NoMeter(meters: seq<Meter>, id: nat) { forall i | 0 <= i < |meters| :: meters[i].id != id }

  predicate MeterThere(meters: seq<Meter>, id: nat) { id == 0 || !NoMeter(meters, id) }

  /** Only the flow count of the first meter with that id differs: it is one more, or one less, in 32 bits. */
  ghost predicate OneCounted(after: seq<Meter>, before: seq<Meter>, id: nat, up: bool) {
    exists k :: FirstMeter(before, id, k) && |after| == |before| && Cut(after, k) == Cut(before, k)
      && after[k].id == id && after[k].config == before[k].config && after[k].flowCount < U32
      && if up then after[k].flowCount == (before[k].flowCount + 1) % U32 else before[k].flowCount % U32 == (after[k].flowCount + 1) % U32
  }

  lemma CutUpdated<T>(s: seq<T>, k: nat, x: T)
    requires k < |s|
    ensures Cut(s[k := x], k) == Cut(s, k)
  {
  }

  lemma DownAndUp(n: nat)
    ensures n % U32 == ((n + U32 - 1) % U32 + 1) % U32
  {
  }

  lemma CountedIs(meters: seq<Meter>, f: Flow, up: bool)
    requires f.meterId != 0 && FindMeter(meters, f.meterId) >= 0
    ensures OneCounted(Counted(meters, f, up), meters, f.meterId, up)
  {
    var k := FindMeter(meters, f.meterId);
    var after := Counted(meters, f, up);
    CutUpdated(meters, k, after[k]);
    DownAndUp(meters[k].flowCount);
    assert FirstMeter(meters, f.meterId, k);
  }

  // ----- Adding a flow -----

  /** The request does not look for an entry, or there is none. */
  predicate Appends(d: Device, mod: FlowMod) { (mod.flow.flags / 2) % 2 == 1 || NoEntry(d.flows, mod.flow) }

  /** The requested rule, with the counters of the entry that it replaces if the request has the reset flag. */
  function Requested(mod: FlowMod, previous: Flow): Flow {
    if (mod.flow.flags / 4) % 2 == 1
    then mod.flow.(byteCount := previous.byteCount, packetCount := previous.packetCount)
    else mod.flow
  }

  predicate ReplacedAt(d: Device, mod: FlowMod, after: seq<Flow>, k: int) {
    && FirstEntry(d.flows, mod.flow, k) && |after| == |d.flows|
    && Cut(after, k) == Cut(d.flows, k) && after[k] == Requested(mod, d.flows[k])
  }

  /**
    A successful addition appends the requested rule, or puts it in the place of the first entry of its key; a failed one
    leaves the flows as they were, or has appended the rule and failed to store the count of its meter.
  */
  lemma FlowAddition(d: Device, mod: FlowMod, env: Env)
    ensures var r := FlowAdded(d, mod, env);
      && (r.ok && Appends(d, mod) ==> r.device.flows == d.flows + [mod.flow])
      && (r.ok && !Appends(d, mod) ==> exists k :: ReplacedAt(d, mod, r.device.flows, k))
      && (!r.ok ==> r.device == d || (Appends(d, mod) && mod.flow.meterId != 0 && !env.meterStore
                                      && r.device == Device(d.flows + [mod.flow], d.meters)))
      && (if r.ok && Appends(d, mod) && mod.flow.meterId != 0 then OneCounted(r.device.meters, d.meters, mod.flow.meterId, true)
          else r.device.meters == d.meters)
  {
    FindFlowIs(d.flows, mod.flow);
    var k := FindFlow(d.flows, mod.flow);
    if Replaces(d, mod) {
      CutUpdated(d.flows, k, Replacement(mod, d.flows[k]));
      assert FlowAdded(d, mod, env).ok ==> ReplacedAt(d, mod, FlowAdded(d, mod, env).device.flows, k);
    } else if mod.flow.meterId != 0 && FindMeter(d.meters, mod.flow.meterId) >= 0 {
      CountedIs(d.meters, mod.flow, true);
    }
  }

  /** It succeeds exactly if the table has the rule already, or the meter is there and all steps succeed. */
  lemma FlowAdditionSucceeds(d: Device, mod: FlowMod, env: Env)
    ensures FlowAdded(d, mod, env).ok <==>
      || (exists k :: !Appends(d, mod) && FirstEntry(d.flows, mod.flow, k) && d.flows[k] == Requested(mod, d.flows[k]))
      || (&& MeterThere(d.meters, mod.flow.meterId) && env.devices && env.flowStore
          && (Appends(d, mod) && mod.flow.meterId != 0 ==> env.meterStore))
  {
    FindFlowIs(d.flows, mod.flow);
    var k := FindFlow(d.flows, mod.flow);
    if Replaces(d, mod) {
      assert FirstEntry(d.flows, mod.flow, k);
    }
  }

  // ----- Deleting flows -----

  /** The request is for all rules of a table, or of all tables, whose cookie, output port and group fit; it has no match fields. */
  predicate Wildcard(mod: FlowMod, f: Flow) {
    && mod.flow.fields == []
    && (mod.flow.tableId == 255 || f.tableId == mod.flow.tableId)
    && AgreeUnder(f.cookie, mod.flow.cookie, mod.cookieMask)
    && (mod.outPort % 0x8000_0000 == 0x7fff_ffff || exists i | 0 <= i < |f.actions| :: f.actions[i] == Output(mod.outPort))
    && (mod.outGroup % 0x8000_0000 == 0x7fff_ffff || exists i | 0 <= i < |f.actions| :: f.actions[i] == Action.Group(mod.outGroup))
  }

  predicate Goes(mod: FlowMod, f: Flow) { SameEntry(f, mod.flow) || Wildcard(mod, f) }

  /** Exactly the rules asked for are gone; the others are there as often as before, in order. */
  ghost predicate Without(after: seq<Flow>, before: seq<Flow>, mod: FlowMod) {
    Subsequence(after, before) && forall f :: multiset(after)[f] == if Goes(mod, f) then 0 else multiset(before)[f]
  }

  lemma GoesIffDeletes(mod: FlowMod, f: Flow)
    ensures Deletes(mod, f) <==> Goes(mod, f)
  {
  }

  lemma {:induction false} KeptInOrder(flows: seq<Flow>, mod: FlowMod)
    ensures Subsequence(Kept(flows, mod), flows)
  {
    if flows != [] {
      var shorter, last := flows[..|flows| - 1], flows[|flows| - 1];
      KeptInOrder(shorter, mod);
      SubsequenceNext(Kept(shorter, mod), shorter, last);
      assert flows == shorter + [last] && Kept(shorter, mod) + [] == Kept(shorter, mod);
    }
  }

  lemma {:induction false} KeptCount(flows: seq<Flow>, mod: FlowMod, f: Flow)
    ensures multiset(Kept(flows, mod))[f] == if Deletes(mod, f) then 0 else multiset(flows)[f]
  {
    if flows != [] {
      var shorter, last := flows[..|flows| - 1], flows[|flows| - 1];
      KeptCount(shorter, mod, f);
      assert flows == shorter + [last];
      if Deletes(mod, last) {
        assert Kept(flows, mod) == Kept(shorter, mod);
      } else {
        assert Kept(flows, mod) == Kept(shorter, mod) + [last];
      }
    }
  }

  lemma KeptIs(flows: seq<Flow>, mod: FlowMod)
    ensures Without(Kept(flows, mod), flows, mod)
  {
    KeptInOrder(flows, mod);
    forall f
      ensures multiset(Kept(flows, mod))[f] == if Goes(mod, f) then 0 else multiset(flows)[f]
    {
      KeptCount(flows, mod, f);
      GoesIffDeletes(mod, f);
    }
  }

  predicate AnyGoes(flows: seq<Flow>, mod: FlowMod) { exists i | 0 <= i < |flows| :: Goes(mod, flows[i]) }

  /** Some rule that goes names a meter that is not there. */
  predicate AnyDangles(d: Device, mod: FlowMod) {
    exists i | 0 <= i < |d.flows| :: Goes(mod, d.flows[i]) && !MeterThere(d.meters, d.flows[i].meterId)
  }

  lemma {:induction false} RemovedAre(flows: seq<Flow>, mod: FlowMod, f: Flow)
    ensures f in Removed(flows, mod) <==> f in flows && Goes(mod, f)
  {
    KeptMembers(flows, mod);
    GoesIffDeletes(mod, f);
  }

  lemma MissingMeters(d: Device, mod: FlowMod)
    ensures Removed(d.flows, mod) != [] <==> AnyGoes(d.flows, mod)
    ensures !MetersKnown(Removed(d.flows, mod), d.meters) <==> AnyDangles(d, mod)
  {
    var gone := Removed(d.flows, mod);
    forall f
      ensures f in gone <==> f in d.flows && Goes(mod, f)
    {
      RemovedAre(d.flows, mod, f);
    }
    if gone != [] {
      assert gone[0] in gone;
      var i :| 0 <= i < |d.flows| && d.flows[i] == gone[0];
    }
    if i :| 0 <= i < |d.flows| && Goes(mod, d.flows[i]) {
      assert d.flows[i] in gone;
    }
    if f :| f in gone && !MeterKnown(f, d.meters) {
      var i :| 0 <= i < |d.flows| && d.flows[i] == f;
      assert Goes(mod, d.flows[i]) && !MeterThere(d.meters, d.flows[i].meterId);
    }
    if i :| 0 <= i < |d.flows| && Goes(mod, d.flows[i]) && !MeterThere(d.meters, d.flows[i].meterId) {
      assert d.flows[i] in gone && !MeterKnown(d.flows[i], d.meters);
    }
  }

  /**
    A deletion takes away exactly the rules asked for, or fails and changes nothing; meters stay as they are. It fails only
    if there is something to delete, and a meter of that is missing or a step fails.
  */
  lemma FlowDeletion(d: Device, mod: FlowMod, env: Env)
    ensures var r := FlowDeleted(d, mod, env);
      && r.device.meters == d.meters
      && (if r.ok then Without(r.device.flows, d.flows, mod) else r.device == d)
      && (!r.ok <==> AnyGoes(d.flows, mod) && (!env.devices || !env.flowStore || AnyDangles(d, mod)))
  {
    KeptIs(d.flows, mod);
    MissingMeters(d, mod);
    if Removed(d.flows, mod) == [] {
      KeptAll(d.flows, mod);
    }
  }

  lemma {:induction false} KeptAll(flows: seq<Flow>, mod: FlowMod)
    requires Removed(flows, mod) == []
    ensures Kept(flows, mod) == flows
  {
    if flows != [] {
      KeptAll(flows[..|flows| - 1], mod);
    }
  }

  lemma MaskDistributes(a: bv64, b: bv64, mask: bv64)
    ensures (a ^ b) & mask == (a & mask) ^ (b & mask)
  {
  }

  lemma DifferInNothing(a: bv64, b: bv64)
    ensures a ^ b == 0 <==> a == b
  {
  }

  /** Cookies agree exactly if no bit of the mask is one in which they differ. */
  lemma AgreeIff(a: bv64, b: bv64, mask: bv64)
    ensures AgreeUnder(a, b, mask) <==> (a ^ b) & mask == 0
  {
    MaskDistributes(a, b, mask);
    DifferInNothing(a & mask, b & mask);
  }

  /** All cookies agree under no mask, and only equal ones under the full one. */
  lemma ExtremeMasks(a: bv64, b: bv64)
    ensures AgreeUnder(a, b, 0)
    ensures AgreeUnder(a, b, 0xffff_ffff_ffff_ffff) <==> a == b
  {
  }

  /** The request restricts nothing but, maybe, the cookie. */
  predicate OnlyCookie(mod: FlowMod) {
    mod.flow.fields == [] && mod.flow.tableId == OFPTT_ALL && mod.outPort == OFPP_ANY && mod.outGroup == OFPG_ANY
  }

  lemma CookieDecides(mod: FlowMod, f: Flow)
    requires OnlyCookie(mod)
    ensures Goes(mod, f) <==> SameEntry(f, mod.flow) || AgreeUnder(f.cookie, mod.flow.cookie, mod.cookieMask)
  {
  }

  /** A request with no restriction at all empties the table; one with the full cookie mask takes the rules of one cookie. */
  lemma BroadDeletions(d: Device, mod: FlowMod, env: Env)
    requires FlowDeleted(d, mod, env).ok && OnlyCookie(mod)
    ensures mod.cookieMask == 0 ==> FlowDeleted(d, mod, env).device.flows == []
    ensures mod.cookieMask == 0xffff_ffff_ffff_ffff ==>
      forall f :: f in FlowDeleted(d, mod, env).device.flows <==> f in d.flows && f.cookie != mod.flow.cookie
  {
    FlowDeletion(d, mod, env);
    var after := FlowDeleted(d, mod, env).device.flows;
    forall f
      ensures f in after <==> f in d.flows && !Goes(mod, f)
    {
      assert f in after <==> multiset(after)[f] > 0;
      assert f in d.flows <==> multiset(d.flows)[f] > 0;
    }
    forall f
      ensures mod.cookieMask == 0 ==> f !in after
      ensures mod.cookieMask == 0xffff_ffff_ffff_ffff ==> (Goes(mod, f) <==> f.cookie == mod.flow.cookie)
    {
      CookieDecides(mod, f);
      ExtremeMasks(f.cookie, mod.flow.cookie);
    }
    if after != [] {
      assert after[0] in after;
    }
  }

  /** What a strict deletion of the entry at `k` does to the flows, and when it succeeds. */
  lemma StrictDeletionFlows(d: Device, mod: FlowMod, env: Env, k: int)
    requires FirstEntry(d.flows, mod.flow, k)
    ensures var r := FlowStrictlyDeleted(d, mod, env);
      && r.device.flows == (if r.ok then Cut(d.flows, k) else d.flows)
      && (r.ok <==> MeterThere(d.meters, d.flows[k].meterId) && env.devices && env.flowStore && (d.flows[k].meterId != 0 ==> env.meterStore))
  {
    FindFlowIs(d.flows, mod.flow);
  }

  /** The count of its meter is lowered before, if there is one and it can be stored, even if the flows then cannot be. */
  lemma StrictDeletionMeters(d: Device, mod: FlowMod, env: Env, k: int)
    requires FirstEntry(d.flows, mod.flow, k)
    ensures var id, after := d.flows[k].meterId, FlowStrictlyDeleted(d, mod, env).device.meters;
      if id != 0 && !NoMeter(d.meters, id) && env.meterStore then OneCounted(after, d.meters, id, false) else after == d.meters
  {
    FindFlowIs(d.flows, mod.flow);
    if d.flows[k].meterId != 0 && FindMeter(d.meters, d.flows[k].meterId) >= 0 {
      CountedIs(d.meters, d.flows[k], false);
    }
  }

  /** Without an entry of that key it fails and changes nothing. */
  lemma StrictDeletionFails(d: Device, mod: FlowMod, env: Env)
    requires NoEntry(d.flows, mod.flow)
    ensures FlowStrictlyDeleted(d, mod, env) == Result(d, false)
  {
    FindFlowIs(d.flows, mod.flow);
    var k := FindFlow(d.flows, mod.flow);
    assert k >= 0 ==> FirstEntry(d.flows, mod.flow, k);
  }

  // ----- Meters -----

  /** A meter is added behind the others, with no flows, unless its id is taken; flows stay. */
  lemma MeterAddition(d: Device, mod: MeterMod, env: Env)
    ensures var r := MeterAdded(d, mod, env);
      && r.device.flows == d.flows && (r.ok <==> !NoMeter(d.meters, mod.id) || env.meterStore)
      && (if NoMeter(d.meters, mod.id) && env.meterStore
          then Cut(r.device.meters, |d.meters|) == d.meters && r.device.meters[|d.meters|] == Meter(mod.id, mod.config, 0)
          else r.device.meters == d.meters)
  {
    if FindMeter(d.meters, mod.id) == -1 && env.meterStore {
      assert Cut(d.meters + [Meter(mod.id, mod.config, 0)], |d.meters|) == d.meters;
    }
  }

  /** The flows that do not name the meter, as often as before and in order. */
  ghost predicate WithoutMeter(after: seq<Flow>, before: seq<Flow>, id: nat) {
    Subsequence(after, before) && forall f :: multiset(after)[f] == if f.meterId != 0 && f.meterId == id then 0 else multiset(before)[f]
  }

  lemma {:induction false} UnmeteredInOrder(flows: seq<Flow>, id: nat)
    ensures Subsequence(Unmetered(flows, id), flows)
  {
    if flows != [] {
      var shorter, last := flows[..|flows| - 1], flows[|flows| - 1];
      UnmeteredInOrder(shorter, id);
      SubsequenceNext(Unmetered(shorter, id), shorter, last);
      assert flows == shorter + [last] && Unmetered(shorter, id) + [] == Unmetered(shorter, id);
    }
  }

  lemma {:induction false} UnmeteredCount(flows: seq<Flow>, id: nat, f: Flow)
    ensures multiset(Unmetered(flows, id))[f] == if Names(f, id) then 0 else multiset(flows)[f]
  {
    if flows != [] {
      var shorter, last := flows[..|flows| - 1], flows[|flows| - 1];
      UnmeteredCount(shorter, id, f);
      assert flows == shorter + [last];
      if Names(last, id) {
        assert Unmetered(flows, id) == Unmetered(shorter, id);
      } else {
        assert Unmetered(flows, id) == Unmetered(shorter, id) + [last];
      }
    }
  }

  lemma UnmeteredIs(flows: seq<Flow>, id: nat)
    ensures WithoutMeter(Unmetered(flows, id), flows, id)
  {
    UnmeteredInOrder(flows, id);
    forall f
      ensures multiset(Unmetered(flows, id))[f] == if f.meterId != 0 && f.meterId == id then 0 else multiset(flows)[f]
    {
      UnmeteredCount(flows, id, f);
    }
  }

  /** If there is no meter with that id, or the meters cannot be stored, nothing changes; otherwise the first one goes. */
  lemma {:induction false} MeterDeletionMeters(d: Device, mod: MeterMod, env: Env)
    ensures var r := MeterDeleted(d, mod, env);
      && (NoMeter(d.meters, mod.id) ==> r == Result(d, true))
      && (!NoMeter(d.meters, mod.id) && !env.meterStore ==> r == Result(d, false))
      && (!NoMeter(d.meters, mod.id) && env.meterStore ==>
            exists k :: FirstMeter(d.meters, mod.id, k) && r.device.meters == Cut(d.meters, k))
  {
    var k := FindMeter(d.meters, mod.id);
    assert k >= 0 ==> FirstMeter(d.meters, mod.id, k);
  }

  /** A meter that is deleted takes all flows that name it along, and only these; if they cannot be stored all stay. */
  lemma {:induction false} MeterDeletionFlows(d: Device, mod: MeterMod, env: Env)
    requires !NoMeter(d.meters, mod.id) && env.meterStore
    ensures var r := MeterDeleted(d, mod, env);
      && (if r.ok then WithoutMeter(r.device.flows, d.flows, mod.id) else r.device.flows == d.flows)
      && (r.ok <==> env.flowStore || !AnyNames(d.flows, mod.id))
  {
    UnmeteredIs(d.flows, mod.id);
    NoneNames(d.flows, mod.id);
  }

  lemma NoneNames(flows: seq<Flow>, id: nat)
    ensures Count(flows, id) == 0 <==> !AnyNames(flows, id)
    ensures Count(flows, id) == 0 ==> Unmetered(flows, id) == flows
    ensures AnyNames(flows, id) <==> id != 0 && exists i | 0 <= i < |flows| :: flows[i].meterId == id
  {
    CountZero(flows, id);
    if Count(flows, id) == 0 {
      UnmeteredAll(flows, id);
      assert forall i | 0 <= i < |flows| :: flows[i] in flows;
    } else {
      var f :| f in flows && Names(f, id);
      var i :| 0 <= i < |flows| && flows[i] == f;
    }
  }

  lemma {:induction false} UnmeteredAll(flows: seq<Flow>, id: nat)
    requires forall f | f in flows :: !Names(f, id)
    ensures Unmetered(flows, id) == flows
  {
    if flows != [] {
      assert flows[|flows| - 1] in flows;
      UnmeteredAll(flows[..|flows| - 1], id);
    }
  }
}
