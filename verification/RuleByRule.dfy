/**
  The logical device hands a new rule to the devices in a request of its own (rw_core/core/logical_device_agent.go), and a
  device files its part under the part's key: when devices hold the tables that all rules together decompose into.
*/
module RuleByRule {
  import opened OpenFlow
  import opened Pipeline
  import opened FlowCompiler
  import opened Choosing
  import opened RouteMaps
  import opened UpstreamRules
  import opened UpstreamMeaning
  import D = DeviceFlows

  /** A rule as a device's table holds it. */
  function AsEntry(f: Flow): D.FlowEntry {
    D.Entry(D.FlowKey(f.tableId, f.priority, f.flags, f.cookie, f.fields),
            D.FlowBody(f.actions, f.gotoTable, f.meterId, f.writeMetadata, f.byteCount, f.packetCount))
  }

  function Entries(table: seq<Flow>): (entries: seq<D.FlowEntry>)
    ensures |entries| == |table| && forall i | 0 <= i < |table| :: entries[i] == AsEntry(table[i])
  {
    seq(|table|, i requires 0 <= i < |table| => AsEntry(table[i]))
  }

  /** The requests that parts come in, one by one. */
  function Requests(parts: seq<Choice>): (rs: seq<D.Request>)
    ensures forall i | 0 <= i < |rs| :: D.WellFormed(rs[i])
  {
    if parts == [] then []
    else
      var last := parts[|parts| - 1];
      Requests(parts[..|parts| - 1]) + if last.Rule? then [D.Add([AsEntry(last.flow)], [])] else []
  }

  const NO_TABLES := D.Device([], [], [], [])

  /** The table of a device after those requests. */
  function Stored(parts: seq<Choice>, bulk: bool): seq<D.FlowEntry> { D.AfterAll(NO_TABLES, bulk, Requests(parts)).flows }

  /** No two parts have the same table, priority, flags, cookie and match, and differ in the rest. */
  ghost predicate NoClash(parts: seq<Choice>) {
    forall f, g | Rule(f) in parts && Rule(g) in parts && SameKey(f, g) :: f == g
  }

  lemma {:induction false} OneAgainstMany<K(!new), V(!new)>(e: D.Entry<K, V>, existing: seq<D.Entry<K, V>>)
    requires e.key !in D.Keys(existing)
    ensures D.Difference([e], existing) == D.Delta([e], [], existing)
  {
    if existing != [] {
      assert existing == existing[..|existing| - 1] + [existing[|existing| - 1]];
      OneAgainstMany(e, existing[..|existing| - 1]);
    }
  }

  lemma {:induction false} SameAgain<K(!new), V(!new)>(e: D.Entry<K, V>, existing: seq<D.Entry<K, V>>)
    requires D.Unique(existing) && e in existing
    ensures D.Difference([e], existing) == D.Delta([], [], existing)
  {
    var last := |existing| - 1;
    assert existing == existing[..last] + [existing[last]];
    if existing[last] == e {
      assert e.key !in D.Keys(existing[..last]);
      OneAgainstMany(e, existing[..last]);
    } else {
      SameAgain(e, existing[..last]);
    }
  }

  /** One more request files its entry, whatever the kind of the device. */
  lemma StoredNext(parts: seq<Choice>, bulk: bool)
    requires parts != []
    ensures var before, last := Stored(parts[..|parts| - 1], bulk), parts[|parts| - 1];
      Stored(parts, bulk) == if last.NoRule? then before else D.Difference([AsEntry(last.flow)], before).All()
  {
    var rs, last := Requests(parts[..|parts| - 1]), parts[|parts| - 1];
    if last.Rule? {
      var r := D.Add([AsEntry(last.flow)], []);
      assert Requests(parts) == rs + [r] && (rs + [r])[..|rs|] == rs;
    } else {
      assert Requests(parts) == rs;
    }
  }

  ghost predicate LatestAt(parts: seq<Choice>, e: D.FlowEntry, i: int) {
    && 0 <= i < |parts| && parts[i].Rule? && AsEntry(parts[i].flow) == e
    && forall j | i < j < |parts| && parts[j].Rule? :: AsEntry(parts[j].flow).key != e.key
  }

  /** A device holds the latest part of every key, each once. */
  lemma {:induction false} LatestStays(parts: seq<Choice>, bulk: bool)
    ensures D.Unique(Stored(parts, bulk))
    ensures forall e :: e in Stored(parts, bulk) <==> exists i :: LatestAt(parts, e, i)
  {
    if parts != [] {
      var shorter, last := parts[..|parts| - 1], parts[|parts| - 1];
      LatestStays(shorter, bulk);
      StoredNext(parts, bulk);
      if last.Rule? {
        D.DifferenceOverrides([AsEntry(last.flow)], Stored(shorter, bulk));
      }
      forall e
        ensures e in Stored(parts, bulk) <==> exists i :: LatestAt(parts, e, i)
      {
        LatestNext(parts, e);
      }
    }
  }

  lemma LatestNext(parts: seq<Choice>, e: D.FlowEntry)
    requires parts != []
    ensures var shorter, last := parts[..|parts| - 1], parts[|parts| - 1];
      (exists i :: LatestAt(parts, e, i))
      <==> (last.Rule? && AsEntry(last.flow) == e)
           || ((exists i :: LatestAt(shorter, e, i)) && (last.Rule? ==> AsEntry(last.flow).key != e.key))
  {
    var shorter, last := parts[..|parts| - 1], parts[|parts| - 1];
    if i :| LatestAt(parts, e, i) {
      assert i < |shorter| ==> LatestAt(shorter, e, i);
    }
    if last.Rule? && AsEntry(last.flow) == e {
      assert LatestAt(parts, e, |shorter|);
    } else if i :| LatestAt(shorter, e, i) {
      assert (last.Rule? ==> AsEntry(last.flow).key != e.key) ==> LatestAt(parts, e, i);
    }
  }

  lemma {:induction false} StoredAsCollected(parts: seq<Choice>, bulk: bool)
    requires NoClash(parts)
    ensures Stored(parts, bulk) == Entries(Collected(parts))
  {
    if parts != [] {
      var shorter, last := parts[..|parts| - 1], parts[|parts| - 1];
      assert parts == shorter + [last];
      StoredAsCollected(shorter, bulk);
      StoredNext(parts, bulk);
      LatestStays(shorter, bulk);
      if last.Rule? {
        forall g | g in Collected(shorter)
          ensures Rule(g) in parts
        {
          CollectedAreParts(shorter, g);
        }
        FiledLast(parts, Collected(shorter), last.flow);
      }
    }
  }

  lemma FiledLast(parts: seq<Choice>, table: seq<Flow>, f: Flow)
    requires NoClash(parts) && Rule(f) in parts && D.Unique(Entries(table))
    requires forall g | g in table :: Rule(g) in parts
    ensures D.Difference([AsEntry(f)], Entries(table)).All() == Entries(WithRule(table, f))
  {
    if f in table {
      var i :| 0 <= i < |table| && table[i] == f;
      assert Entries(table)[i] == AsEntry(f);
      SameAgain(AsEntry(f), Entries(table));
    } else {
      forall i | 0 <= i < |table|
        ensures Entries(table)[i].key != AsEntry(f).key
      {
        assert table[i] in table && Rule(table[i]) in parts && !SameKey(table[i], f);
      }
      OneAgainstMany(AsEntry(f), Entries(table));
    }
  }

  /** A device that gets the rules one by one holds the table of them all exactly when no two parts clash. */
  lemma {:induction false} HoldsTableIffNoClash(parts: seq<Choice>, bulk: bool)
    ensures Stored(parts, bulk) == Entries(Collected(parts)) <==> NoClash(parts)
  {
    if NoClash(parts) {
      StoredAsCollected(parts, bulk);
    } else if Stored(parts, bulk) == Entries(Collected(parts)) {
      var f, g :| Rule(f) in parts && Rule(g) in parts && SameKey(f, g) && f != g;
      LatestStays(parts, bulk);
      BothCollected(parts, f, g);
      assert false;
    }
  }

  lemma BothCollected(parts: seq<Choice>, f: Flow, g: Flow)
    requires Rule(f) in parts && Rule(g) in parts && SameKey(f, g) && f != g
    ensures !D.Unique(Entries(Collected(parts)))
  {
    var table := Collected(parts);
    var i :| 0 <= i < |parts| && parts[i] == Rule(f);
    PartsAreCollected(parts, i);
    var j :| 0 <= j < |parts| && parts[j] == Rule(g);
    PartsAreCollected(parts, j);
    var a :| 0 <= a < |table| && table[a] == f;
    var b :| 0 <= b < |table| && table[b] == g;
    assert Entries(table)[a].key == Entries(table)[b].key && a != b;
  }

  /**
    A device of a logical device, whether it receives changes or whole tables, stores the decomposed table in order, and
    its adapter holds the same entries, exactly when no two parts clash.
  */
  lemma {:induction false} DeviceHoldsTable(env: Env, flows: seq<Flow>, d: DeviceId, bulk: bool)
    requires FromUnis(env, flows)
    ensures var after := D.AfterAll(NO_TABLES, bulk, Requests(PartsOn(env, flows, d)));
      && (after.flows == Entries(TableOf(env, flows, d)) <==> NoClash(PartsOn(env, flows, d)))
      && multiset(after.adapterFlows) == multiset(after.flows)
  {
    var rs := Requests(PartsOn(env, flows, d));
    TableOfIsCollected(env, flows, d);
    HoldsTableIffNoClash(PartsOn(env, flows, d), bulk);
    D.IncrementalEqualsBulk(NO_TABLES, NO_TABLES, rs);
  }

  /** Two rules for the controller that differ in the VLAN id only clash on the ONU exactly when they have the same cookie. */
  lemma VlanTrapsClash(env: Env, t: Flow, s: Flow)
    requires EnvOk(env) && UpstreamRule(env, t) && UpstreamRule(env, s) && DifferInVlan(t, s)
    requires GetVlanVid(t.fields) != GetVlanVid(s.fields)
    ensures var d := env.ports[GetInPort(t.fields)].device;
      && PartOn(env, t, d).Rule? && PartOn(env, s, d).Rule? && PartOn(env, t, d) != PartOn(env, s, d)
      && (SameKey(PartOn(env, t, d).flow, PartOn(env, s, d).flow) <==> t.cookie == s.cookie)
  {
    TrapBecomes(env, t);
    TrapBecomes(env, s);
    var hop, u := FirstHop(env, GetInPort(t.fields)), GetInPort(t.fields);
    assert TrapChild(hop, u, t).actions[1] != TrapChild(hop, u, s).actions[1];
  }
}
