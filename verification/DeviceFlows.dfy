/**
  Flow and group tables of a device (rw_core/core/device_agent.go).

  A request to add or to delete flows and groups is turned into a new stored table and a message for the adapter:
  either the whole table (bulk) or what to remove and what to add (incremental). The computation edits the caller's
  list in place by swap-removal while it walks the stored table.

  A flow is identified by table, priority, flags, cookie and match, a group by its id; the rest is the entry's body.
  An adapter that receives an incremental message removes the entries with the listed keys, then adds.
*/
module DeviceFlows {
  import OpenFlow

  datatype Entry<K, V> = Entry(key: K, body: V)

  datatype FlowKey = FlowKey(tableId: nat, priority: nat, flags: nat, cookie: bv64, fields: seq<OpenFlow.Field>)

  datatype FlowBody = FlowBody(
    actions: seq<OpenFlow.Action>, gotoTable: nat, meterId: nat, writeMetadata: nat, byteCount: nat, packetCount: nat)

  type FlowEntry = Entry<FlowKey, FlowBody>
  type Group = Entry<nat, string>

  function Keys<K(==), V(==)>(s: seq<Entry<K, V>>): set<K> { set e | e in s :: e.key }

  predicate Unique<K(==), V>(s: seq<Entry<K, V>>) { forall i, j | 0 <= i < j < |s| :: s[i].key != s[j].key }

  /** The first position of a key, or -1 (FindFlows, FindGroup). */
  function Find<K(==), V(==)>(s: seq<Entry<K, V>>, key: K): (k: int)
    ensures -1 <= k < |s| && (k >= 0 ==> s[k].key == key)
    ensures k == -1 <==> key !in Keys(s)
  {
    if s == [] then -1
    else if s[0].key == key then 0
    else
      assert s == [s[0]] + s[1..];
      var k := Find(s[1..], key);
      if k == -1 then -1 else k + 1
  }

  // ----- The difference between a request and the stored table -----

  function SwapRemoved<T>(s: seq<T>, idx: nat): seq<T>
    requires idx < |s|
  {
    s[idx := s[|s| - 1]][..|s| - 1]
  }

  /** What is left of the request, the stored entries to delete and those to keep. */
  datatype Delta<K, V> = Delta(news: seq<Entry<K, V>>, toDelete: seq<Entry<K, V>>, kept: seq<Entry<K, V>>) {
    function All(): seq<Entry<K, V>> { kept + news }
  }

  function Compare<K(==), V(==)>(d: Delta<K, V>, e: Entry<K, V>): Delta<K, V> {
    var idx := Find(d.news, e.key);
    if idx == -1 then d.(kept := d.kept + [e])
    else if d.news[idx] == e then d.(news := SwapRemoved(d.news, idx), kept := d.kept + [e])
    else d.(toDelete := d.toDelete + [e])
  }

  function Difference<K(==), V(==)>(news: seq<Entry<K, V>>, existing: seq<Entry<K, V>>): Delta<K, V> {
    if existing == [] then Delta(news, [], [])
    else Compare(Difference(news, existing[..|existing| - 1]), existing[|existing| - 1])
  }

  /** A slot of a slice; removal leaves nil behind. */
  datatype Slot<T> = Nil | Item(value: T)

  predicate Filled<T>(s: seq<Slot<T>>) { forall i | 0 <= i < |s| :: s[i].Item? }

  function Items<T>(s: seq<Slot<T>>): (r: seq<T>)
    requires Filled(s)
    ensures |r| == |s| && forall i | 0 <= i < |s| :: r[i] == s[i].value
  {
    seq(|s|, i requires 0 <= i < |s| => s[i].value)
  }

  /** deleteFlowWithoutPreservingOrder on the first `n` slots. */
  method SwapRemove<T>(a: array<Slot<T>>, n: nat, idx: nat)
    requires idx < n <= a.Length && Filled(a[..n])
    modifies a
    ensures Filled(a[..n - 1]) && Items(a[..n - 1]) == SwapRemoved(old(Items(a[..n])), idx)
    ensures a[n - 1] == Nil && a[n..] == old(a[n..])
  {
    ghost var was := Items(a[..n]);
    a[idx] := a[n - 1];
    a[n - 1] := Nil;
    assert Items(a[..n - 1]) == SwapRemoved(was, idx);
  }

  /** flowsToUpdateToDelete and groupsToUpdateToDelete: the request shrinks to the first `left` slots of `a`. */
  method ToUpdateToDelete<K(==), V(==)>(a: array<Slot<Entry<K, V>>>, existing: seq<Entry<K, V>>)
    returns (left: nat, toDelete: seq<Entry<K, V>>, updatedAll: seq<Entry<K, V>>)
    requires Filled(a[..])
    modifies a
    ensures left <= a.Length && Filled(a[..left])
    ensures var d := Difference(old(Items(a[..])), existing);
            Items(a[..left]) == d.news && toDelete == d.toDelete && updatedAll == d.All()
  {
    ghost var news := Items(a[..]);
    left, toDelete, updatedAll := a.Length, [], [];
    assert a[..left] == a[..];
    for i := 0 to |existing|
      invariant left <= a.Length && Filled(a[..left])
      invariant Difference(news, existing[..i]) == Delta(Items(a[..left]), toDelete, updatedAll)
    {
      var longer := existing[..i + 1];
      assert longer[..i] == existing[..i] && longer[i] == existing[i];
      var e := existing[i];
      var idx := Find(Items(a[..left]), e.key);
      if idx == -1 {
        updatedAll := updatedAll + [e];
      } else if a[idx].value == e {
        SwapRemove(a, left, idx);
        left := left - 1;
        updatedAll := updatedAll + [e];
      } else {
        toDelete := toDelete + [e];
      }
    }
    assert existing[..|existing|] == existing;
    updatedAll := updatedAll + Items(a[..left]);
  }

  /** The entries whose key is not listed, in order. */
  function Except<K(==), V(==)>(s: seq<Entry<K, V>>, keys: set<K>): seq<Entry<K, V>> {
    if s == [] then []
    else
      var last := s[|s| - 1];
      Except(s[..|s| - 1], keys) + if last.key in keys then [] else [last]
  }

  /** The loop of deleteFlowsAndGroupsFromAdapter that selects what to keep. */
  method ToKeep<K(==), V(==)>(existing: seq<Entry<K, V>>, toDelete: seq<Entry<K, V>>) returns (keep: seq<Entry<K, V>>)
    ensures keep == Except(existing, Keys(toDelete))
  {
    keep := [];
    for i := 0 to |existing|
      invariant keep == Except(existing[..i], Keys(toDelete))
    {
      var longer := existing[..i + 1];
      assert longer[..i] == existing[..i] && longer[i] == existing[i];
      if Find(toDelete, existing[i].key) == -1 {
        keep := keep + [existing[i]];
      }
    }
    assert existing[..|existing|] == existing;
  }

  // ----- Conservation and override -----

  lemma {:induction false} KeptOrDeleted<K, V>(news: seq<Entry<K, V>>, existing: seq<Entry<K, V>>)
    ensures var d := Difference(news, existing); multiset(existing) == multiset(d.kept) + multiset(d.toDelete)
  {
    if existing != [] {
      var shorter, last := existing[..|existing| - 1], existing[|existing| - 1];
      KeptOrDeleted(news, shorter);
      assert existing == shorter + [last];
      var d, d' := Difference(news, shorter), Difference(news, existing);
      if d'.kept == d.kept {
        assert d'.toDelete == d.toDelete + [last];
      } else {
        assert d'.kept == d.kept + [last] && d'.toDelete == d.toDelete;
      }
    }
  }

  /** No entry is lost or invented, for all inputs: the stored table and the reduced request make up the new table and the deletions. */
  lemma DifferenceConserves<K, V>(news: seq<Entry<K, V>>, existing: seq<Entry<K, V>>)
    ensures var d := Difference(news, existing);
            multiset(existing) + multiset(d.news) == multiset(d.All()) + multiset(d.toDelete)
  {
    KeptOrDeleted(news, existing);
  }

  lemma SwapRemovedMembers<K(!new), V(!new)>(s: seq<Entry<K, V>>, idx: nat)
    requires idx < |s| && Unique(s)
    ensures Unique(SwapRemoved(s, idx))
    ensures forall e :: e in SwapRemoved(s, idx) <==> e in s && e != s[idx]
  {
    var r := SwapRemoved(s, idx);
    forall e | e in s && e != s[idx]
      ensures e in r
    {
      var i :| 0 <= i < |s| && s[i] == e;
      assert r[if i == |s| - 1 then idx else i] == e;
    }
  }

  /** Listing the key of an entry that is not there makes no difference. */
  lemma {:induction false} ExceptForeign<K, V>(s: seq<Entry<K, V>>, keys: set<K>, key: K)
    requires key !in Keys(s)
    ensures Except(s, keys + {key}) == Except(s, keys)
  {
    if s != [] {
      var shorter, last := s[..|s| - 1], s[|s| - 1];
      assert s == shorter + [last];
      assert last in s;
      ExceptForeign(shorter, keys, key);
    }
  }

  lemma UniqueAppend<K, V>(s: seq<Entry<K, V>>, e: Entry<K, V>)
    requires Unique(s + [e])
    ensures Unique(s) && e.key !in Keys(s)
  {
    assert forall i | 0 <= i < |s| :: (s + [e])[i] == s[i];
    forall f | f in s
      ensures f.key != e.key
    {
      var i :| 0 <= i < |s| && s[i] == f;
      assert (s + [e])[i] == f && (s + [e])[|s|] == e;
    }
  }

  lemma {:induction false} ExceptMembers<K(!new), V(!new)>(s: seq<Entry<K, V>>, keys: set<K>)
    ensures forall e :: e in Except(s, keys) <==> e in s && e.key !in keys
    ensures Unique(s) ==> Unique(Except(s, keys))
  {
    if s != [] {
      var shorter, last := s[..|s| - 1], s[|s| - 1];
      assert s == shorter + [last];
      ExceptMembers(shorter, keys);
      if Unique(s) {
        UniqueAppend(shorter, last);
        forall e | e in Except(shorter, keys)
          ensures e.key != last.key
        {
          assert e in shorter;
        }
        UniqueConcat(Except(shorter, keys), [last]);
      }
    }
  }

  /** What the walk computes when keys are unique on each side, said without the walk. */
  ghost predicate Splits<K(!new), V(!new)>(d: Delta<K, V>, news: seq<Entry<K, V>>, existing: seq<Entry<K, V>>) {
    && Unique(d.news)
    && (forall e :: e in d.news <==> e in news && e !in existing)
    && (forall e :: e in d.toDelete <==> e in existing && e.key in Keys(news) && e !in news)
    && d.kept == Except(existing, Keys(d.toDelete))
  }

  lemma SplitsNew<K(!new), V(!new)>(d: Delta<K, V>, news: seq<Entry<K, V>>, existing: seq<Entry<K, V>>, e: Entry<K, V>)
    requires Unique(news) && e.key !in Keys(existing) && Splits(d, news, existing) && Find(d.news, e.key) == -1
    ensures Splits(Compare(d, e), news, existing + [e])
  {
    assert (existing + [e])[..|existing|] == existing;
    forall f | f in news
      ensures f.key != e.key
    {
      assert f in existing || f in d.news;
    }
  }

  lemma SplitsSame<K(!new), V(!new)>(d: Delta<K, V>, news: seq<Entry<K, V>>, existing: seq<Entry<K, V>>, e: Entry<K, V>)
    requires Unique(news) && e.key !in Keys(existing) && Splits(d, news, existing) && e in d.news
    ensures Splits(Compare(d, e), news, existing + [e])
  {
    assert (existing + [e])[..|existing|] == existing;
    var idx := Find(d.news, e.key);
    assert d.news[idx] == e;
    SwapRemovedMembers(d.news, idx);
  }

  lemma SplitsChanged<K(!new), V(!new)>(d: Delta<K, V>, news: seq<Entry<K, V>>, existing: seq<Entry<K, V>>, e: Entry<K, V>)
    requires Unique(news) && e.key !in Keys(existing) && Splits(d, news, existing)
    requires Find(d.news, e.key) >= 0 && d.news[Find(d.news, e.key)] != e
    ensures Splits(Compare(d, e), news, existing + [e])
  {
    assert (existing + [e])[..|existing|] == existing;
    var f := d.news[Find(d.news, e.key)];
    assert f in news && e !in news;
    ExceptForeign(existing, Keys(d.toDelete), e.key);
    assert Keys(d.toDelete + [e]) == Keys(d.toDelete) + {e.key};
  }

  lemma {:induction false} DifferenceSplits<K(!new), V(!new)>(news: seq<Entry<K, V>>, existing: seq<Entry<K, V>>)
    requires Unique(news) && Unique(existing)
    ensures Splits(Difference(news, existing), news, existing)
  {
    if existing != [] {
      var shorter, last := existing[..|existing| - 1], existing[|existing| - 1];
      assert existing == shorter + [last];
      UniqueAppend(shorter, last);
      DifferenceSplits(news, shorter);
      var d := Difference(news, shorter);
      var idx := Find(d.news, last.key);
      if idx == -1 { SplitsNew(d, news, shorter, last); }
      else if d.news[idx] == last { SplitsSame(d, news, shorter, last); }
      else { SplitsChanged(d, news, shorter, last); }
    }
  }

  /**
    With unique keys on each side, the new table has unique keys and is the stored table overridden by the request:
    its entries are those requested, and those stored under keys that were not requested.
  */
  lemma DifferenceOverrides<K(!new), V(!new)>(news: seq<Entry<K, V>>, existing: seq<Entry<K, V>>)
    requires Unique(news) && Unique(existing)
    ensures var all := Difference(news, existing).All();
            && Unique(all)
            && forall e :: e in all <==> e in news || (e in existing && e.key !in Keys(news))
  {
    DifferenceSplits(news, existing);
    SplitsOverride(Difference(news, existing), news, existing);
  }

  lemma SplitsOverride<K(!new), V(!new)>(d: Delta<K, V>, news: seq<Entry<K, V>>, existing: seq<Entry<K, V>>)
    requires Unique(news) && Unique(existing) && Splits(d, news, existing)
    ensures Unique(d.All()) && forall e :: e in d.All() <==> e in news || (e in existing && e.key !in Keys(news))
  {
    ExceptMembers(existing, Keys(d.toDelete));
    SplitsApart(d, news, existing);
    UniqueConcat(d.kept, d.news);
    forall e
      ensures e in d.kept <==> e in existing && (e in news || e.key !in Keys(news))
    {
      SplitsKept(d, news, existing, e);
    }
  }

  lemma SplitsKept<K(!new), V(!new)>(d: Delta<K, V>, news: seq<Entry<K, V>>, existing: seq<Entry<K, V>>, e: Entry<K, V>)
    requires Unique(news) && Unique(existing) && Splits(d, news, existing)
    ensures e in d.kept <==> e in existing && (e in news || e.key !in Keys(news))
  {
    ExceptMembers(existing, Keys(d.toDelete));
    assert e in existing && e.key in Keys(d.toDelete) ==> e in d.toDelete;
  }

  lemma SplitsApart<K(!new), V(!new)>(d: Delta<K, V>, news: seq<Entry<K, V>>, existing: seq<Entry<K, V>>)
    requires Unique(news) && Unique(existing) && Splits(d, news, existing)
    ensures Unique(d.kept) && forall e, f | e in d.kept && f in d.news :: e.key != f.key
  {
    ExceptMembers(existing, Keys(d.toDelete));
    forall e, f | e in d.kept && f in d.news
      ensures e.key != f.key
    {
      SplitsKept(d, news, existing, e);
    }
  }

  lemma UniqueConcat<K, V>(s: seq<Entry<K, V>>, t: seq<Entry<K, V>>)
    requires Unique(s) && Unique(t) && forall e, f | e in s && f in t :: e.key != f.key
    ensures Unique(s + t)
  {
  }

  /**
    Adding entries and then deleting the same entries restores the stored list, order included, exactly when no
    added key was stored before.
  */
  lemma {:induction false} AddThenDelete<K(!new), V(!new)>(news: seq<Entry<K, V>>, existing: seq<Entry<K, V>>)
    ensures Except(Difference(news, existing).All(), Keys(news)) == existing <==> Keys(news) !! Keys(existing)
  {
    var all := Difference(news, existing).All();
    if Keys(news) !! Keys(existing) {
      DisjointDifference(news, existing);
      ExceptConcat(existing, news, Keys(news));
      ExceptNone(existing, Keys(news));
      ExceptAll(news, Keys(news));
    } else {
      var key :| key in Keys(news) && key in Keys(existing);
      var e :| e in existing && e.key == key;
      ExceptMembers(all, Keys(news));
    }
  }

  lemma {:induction false} DisjointDifference<K, V>(news: seq<Entry<K, V>>, existing: seq<Entry<K, V>>)
    requires Keys(news) !! Keys(existing)
    ensures Difference(news, existing) == Delta(news, [], existing)
  {
    if existing != [] {
      var shorter, last := existing[..|existing| - 1], existing[|existing| - 1];
      assert existing == shorter + [last];
      assert last.key in Keys(existing) && Keys(shorter) <= Keys(existing);
      DisjointDifference(news, shorter);
    }
  }

  lemma {:induction false} ExceptConcat<K, V>(s: seq<Entry<K, V>>, t: seq<Entry<K, V>>, keys: set<K>)
    ensures Except(s + t, keys) == Except(s, keys) + Except(t, keys)
  {
    if t == [] {
      assert s + t == s;
    } else {
      assert (s + t)[..|s + t| - 1] == s + t[..|t| - 1];
      ExceptConcat(s, t[..|t| - 1], keys);
    }
  }

  lemma {:induction false} ExceptNone<K, V>(s: seq<Entry<K, V>>, keys: set<K>)
    requires keys !! Keys(s)
    ensures Except(s, keys) == s
  {
    if s != [] {
      var shorter, last := s[..|s| - 1], s[|s| - 1];
      assert s == shorter + [last];
      assert last.key in Keys(s) && Keys(shorter) <= Keys(s);
      ExceptNone(shorter, keys);
    }
  }

  lemma {:induction false} ExceptAll<K, V>(s: seq<Entry<K, V>>, keys: set<K>)
    requires Keys(s) <= keys
    ensures Except(s, keys) == []
  {
    if s != [] {
      var shorter, last := s[..|s| - 1], s[|s| - 1];
      assert s == shorter + [last];
      assert last.key in Keys(s) && Keys(shorter) <= Keys(s);
      ExceptAll(shorter, keys);
    }
  }

  // ----- The stored tables and the tables the adapter has built -----

  /** A device: the stored flows and groups, and what its adapter holds. */
  datatype Device = Device(flows: seq<FlowEntry>, groups: seq<Group>, adapterFlows: seq<FlowEntry>, adapterGroups: seq<Group>)

  /** What an adapter does with an incremental message. */
  function Patched<K(==), V(==)>(table: seq<Entry<K, V>>, toRemove: seq<Entry<K, V>>, toAdd: seq<Entry<K, V>>): seq<Entry<K, V>> {
    Except(table, Keys(toRemove)) + toAdd
  }

  /** The device after a successful request to add; `bulk` devices receive whole tables. */
  function AfterAdd(d: Device, bulk: bool, flows: seq<FlowEntry>, groups: seq<Group>): Device {
    var fd, gd := Difference(flows, d.flows), Difference(groups, d.groups);
    if flows == [] && groups == [] then d
    else if !bulk then
      Device(fd.All(), gd.All(), Patched(d.adapterFlows, fd.toDelete, fd.news), Patched(d.adapterGroups, gd.toDelete, gd.news))
    else if gd.All() != [] && gd.All() == d.groups && fd.All() != [] && fd.All() == d.flows then d
    else Device(fd.All(), gd.All(), fd.All(), gd.All())
  }

  function AfterDelete(d: Device, bulk: bool, flows: seq<FlowEntry>, groups: seq<Group>): Device {
    var fk, gk := Except(d.flows, Keys(flows)), Except(d.groups, Keys(groups));
    if flows == [] && groups == [] then d
    else if !bulk then Device(fk, gk, Patched(d.adapterFlows, flows, []), Patched(d.adapterGroups, groups, []))
    else if gk != [] && gk == d.groups && fk != [] && fk == d.flows then d
    else Device(fk, gk, fk, gk)
  }

  class DeviceAgent {
    var device: Device
    const bulk: bool

    constructor (bulk: bool)
      ensures this.bulk == bulk && device == Device([], [], [], [])
    {
      this.bulk := bulk;
      device := Device([], [], [], []);
    }

    /**
      addFlowsAndGroupsToAdapter: `typeKnown` says whether the device type is registered, `stored` whether the
      store accepts the update. The message to the adapter leaves before the store is updated.
    */
    method AddFlowsAndGroups(newFlows: array<Slot<FlowEntry>>, newGroups: array<Slot<Group>>, typeKnown: bool, stored: bool) returns (ok: bool)
      requires Filled(newFlows[..]) && Filled(newGroups[..])
      modifies this, newFlows, newGroups
      ensures var after := AfterAdd(old(device), bulk, old(Items(newFlows[..])), old(Items(newGroups[..])));
              && (ok ==> device == after)
              && (!ok && !typeKnown ==> device == old(device))
              && (!ok && typeKnown ==> device == old(device).(adapterFlows := after.adapterFlows, adapterGroups := after.adapterGroups))
      ensures typeKnown && stored ==> ok
    {
      if newFlows.Length == 0 && newGroups.Length == 0 {
        return true;
      }
      ghost var flows, groups := Items(newFlows[..]), Items(newGroups[..]);
      assert flows != [] || groups != [];
      var left, toDelete, allFlows := ToUpdateToDelete(newFlows, device.flows);
      var groupsLeft, groupsToDelete, allGroups := ToUpdateToDelete(newGroups, device.groups);
      if |allFlows| == 0 && |toDelete| == 0 && |allGroups| == 0 && |groupsToDelete| == 0 {
        NothingLeft(flows, device.flows);
        NothingLeft(groups, device.groups);
        return true;
      }
      if !typeKnown {
        return false;
      }
      if bulk {
        if |allGroups| != 0 && device.groups == allGroups && |allFlows| != 0 && device.flows == allFlows {
          return true;
        }
        device := device.(adapterFlows := allFlows, adapterGroups := allGroups);
      } else {
        device := device.(adapterFlows := Patched(device.adapterFlows, toDelete, Items(newFlows[..left])),
                          adapterGroups := Patched(device.adapterGroups, groupsToDelete, Items(newGroups[..groupsLeft])));
      }
      if !stored {
        return false;
      }
      device := device.(flows := allFlows, groups := allGroups);
      return true;
    }

    /** deleteFlowsAndGroupsFromAdapter. */
    method DeleteFlowsAndGroups(flows: seq<FlowEntry>, groups: seq<Group>, typeKnown: bool, stored: bool) returns (ok: bool)
      modifies this
      ensures var after := AfterDelete(old(device), bulk, flows, groups);
              && (ok ==> device == after)
              && (!ok && !typeKnown ==> device == old(device))
              && (!ok && typeKnown ==> device == old(device).(adapterFlows := after.adapterFlows, adapterGroups := after.adapterGroups))
      ensures typeKnown && stored ==> ok
    {
      if |flows| == 0 && |groups| == 0 {
        return true;
      }
      var flowsToKeep := ToKeep(device.flows, flows);
      var groupsToKeep := ToKeep(device.groups, groups);
      if !typeKnown {
        return false;
      }
      if bulk {
        if |groupsToKeep| != 0 && device.groups == groupsToKeep && |flowsToKeep| != 0 && device.flows == flowsToKeep {
          return true;
        }
        device := device.(adapterFlows := flowsToKeep, adapterGroups := groupsToKeep);
      } else {
        device := device.(adapterFlows := Patched(device.adapterFlows, flows, []),
                          adapterGroups := Patched(device.adapterGroups, groups, []));
      }
      if !stored {
        return false;
      }
      device := device.(flows := flowsToKeep, groups := groupsToKeep);
      return true;
    }
  }

  /** The sanity check after the walk only fires when there was nothing on either side. */
  lemma NothingLeft<K, V>(news: seq<Entry<K, V>>, existing: seq<Entry<K, V>>)
    requires Difference(news, existing).All() == [] && Difference(news, existing).toDelete == []
    ensures existing == [] && news == []
  {
    DifferenceConserves(news, existing);
    assert |existing| == |multiset(existing)| == 0;
  }

  // ----- Incremental messages have the effect of bulk ones -----

  datatype Request = Add(flows: seq<FlowEntry>, groups: seq<Group>) | Delete(flows: seq<FlowEntry>, groups: seq<Group>)

  function After(d: Device, bulk: bool, r: Request): Device {
    if r.Add? then AfterAdd(d, bulk, r.flows, r.groups) else AfterDelete(d, bulk, r.flows, r.groups)
  }

  function AfterAll(d: Device, bulk: bool, rs: seq<Request>): Device {
    if rs == [] then d else After(AfterAll(d, bulk, rs[..|rs| - 1]), bulk, rs[|rs| - 1])
  }

  predicate WellFormed(r: Request) { r.Add? ==> Unique(r.flows) && Unique(r.groups) }

  /** The adapter holds the stored entries, each once. */
  predicate InSync(d: Device) {
    && Unique(d.flows) && multiset(d.adapterFlows) == multiset(d.flows)
    && Unique(d.groups) && multiset(d.adapterGroups) == multiset(d.groups)
  }

  lemma {:induction false} ExceptCounts<K, V>(s: seq<Entry<K, V>>, keys: set<K>, e: Entry<K, V>)
    ensures multiset(Except(s, keys))[e] == if e.key in keys then 0 else multiset(s)[e]
  {
    if s != [] {
      var shorter, last := s[..|s| - 1], s[|s| - 1];
      assert s == shorter + [last];
      ExceptCounts(shorter, keys, e);
    }
  }

  lemma ExceptSameBag<K(!new), V(!new)>(s: seq<Entry<K, V>>, t: seq<Entry<K, V>>, keys: set<K>)
    requires multiset(s) == multiset(t)
    ensures multiset(Except(s, keys)) == multiset(Except(t, keys))
  {
    forall e
      ensures multiset(Except(s, keys))[e] == multiset(Except(t, keys))[e]
    {
      ExceptCounts(s, keys, e);
      ExceptCounts(t, keys, e);
    }
  }

  lemma AddStaysInSync<K(!new), V(!new)>(table: seq<Entry<K, V>>, adapter: seq<Entry<K, V>>, news: seq<Entry<K, V>>)
    requires Unique(table) && Unique(news) && multiset(adapter) == multiset(table)
    ensures var d := Difference(news, table);
            Unique(d.All()) && multiset(Patched(adapter, d.toDelete, d.news)) == multiset(d.All())
  {
    DifferenceOverrides(news, table);
    DifferenceSplits(news, table);
    ExceptSameBag(adapter, table, Keys(Difference(news, table).toDelete));
  }

  lemma DeleteStaysInSync<K(!new), V(!new)>(table: seq<Entry<K, V>>, adapter: seq<Entry<K, V>>, gone: seq<Entry<K, V>>)
    requires Unique(table) && multiset(adapter) == multiset(table)
    ensures Unique(Except(table, Keys(gone))) && multiset(Patched(adapter, gone, [])) == multiset(Except(table, Keys(gone)))
  {
    ExceptMembers(table, Keys(gone));
    ExceptSameBag(adapter, table, Keys(gone));
    assert Patched(adapter, gone, []) == Except(adapter, Keys(gone));
  }

  /** One request: a device that receives changes and one that receives tables end with the same store, both in sync. */
  lemma SyncStep(d: Device, b: Device, r: Request)
    requires InSync(d) && InSync(b) && d.flows == b.flows && d.groups == b.groups && WellFormed(r)
    ensures var d', b' := After(d, false, r), After(b, true, r);
            InSync(d') && InSync(b') && d'.flows == b'.flows && d'.groups == b'.groups
  {
    if r.Add? {
      AddStaysInSync(d.flows, d.adapterFlows, r.flows);
      AddStaysInSync(d.groups, d.adapterGroups, r.groups);
    } else {
      DeleteStaysInSync(d.flows, d.adapterFlows, r.flows);
      DeleteStaysInSync(d.groups, d.adapterGroups, r.groups);
    }
  }

  /**
    Over every run of requests from equal, synchronised devices, the table an adapter builds from incremental
    messages, the table in the store and the table another adapter received in bulk hold the same entries.
  */
  lemma {:induction false} IncrementalEqualsBulk(d: Device, b: Device, rs: seq<Request>)
    requires InSync(d) && InSync(b) && d.flows == b.flows && d.groups == b.groups
    requires forall i | 0 <= i < |rs| :: WellFormed(rs[i])
    ensures var d', b' := AfterAll(d, false, rs), AfterAll(b, true, rs);
            && InSync(d') && InSync(b') && d'.flows == b'.flows && d'.groups == b'.groups
            && multiset(d'.adapterFlows) == multiset(b'.adapterFlows)
            && multiset(d'.adapterGroups) == multiset(b'.adapterGroups)
  {
    if rs != [] {
      IncrementalEqualsBulk(d, b, rs[..|rs| - 1]);
      SyncStep(AfterAll(d, false, rs[..|rs| - 1]), AfterAll(b, true, rs[..|rs| - 1]), rs[|rs| - 1]);
    }
  }
}
