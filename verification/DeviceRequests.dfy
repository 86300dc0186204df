/**
  What requests to add and to delete mean for the flows and groups that a device stores and its adapter holds, whether the
  adapter receives changes or whole tables (rw_core/core/device_agent.go).
*/
module DeviceRequests {
  import opened DeviceFlows
  import opened Sequences

  /** Exactly the entries with a listed key are gone; the others are there as often as before. */
  ghost predicate Rid<K(!new), V(!new)>(after: seq<Entry<K, V>>, before: seq<Entry<K, V>>, listed: seq<Entry<K, V>>) {
    forall e :: multiset(after)[e] == if exists i | 0 <= i < |listed| :: listed[i].key == e.key then 0 else multiset(before)[e]
  }

  /** The requested entries, and those from before under other keys; every key once. */
  ghost predicate Overridden<K(!new), V(!new)>(after: seq<Entry<K, V>>, before: seq<Entry<K, V>>, news: seq<Entry<K, V>>) {
    && (forall i, j | 0 <= i < j < |after| :: after[i].key != after[j].key)
    && (forall e :: e in after <==> e in news || (e in before && forall i | 0 <= i < |news| :: news[i].key != e.key))
  }

  /** Entries from before keep their order, and come before all others. */
  ghost predicate KeptFirst<K(!new), V(!new)>(after: seq<Entry<K, V>>, before: seq<Entry<K, V>>, news: seq<Entry<K, V>>) {
    exists n: nat :: n <= |after| && Subsequence(after[..n], before) && forall i | n <= i < |after| :: after[i] in news
  }

  predicate AdapterInSync(d: Device) { multiset(d.adapterFlows) == multiset(d.flows) && multiset(d.adapterGroups) == multiset(d.groups) }

  // ----- Deletion -----

  lemma {:induction false} ExceptInOrder<K, V>(s: seq<Entry<K, V>>, keys: set<K>)
    ensures Subsequence(Except(s, keys), s)
  {
    if s != [] {
      var shorter, last := s[..|s| - 1], s[|s| - 1];
      ExceptInOrder(shorter, keys);
      SubsequenceNext(Except(shorter, keys), shorter, last);
      assert s == shorter + [last] && Except(shorter, keys) + [] == Except(shorter, keys);
    }
  }

  lemma ExceptRids<K(!new), V(!new)>(s: seq<Entry<K, V>>, listed: seq<Entry<K, V>>)
    ensures Rid(Except(s, Keys(listed)), s, listed)
  {
    forall e
      ensures multiset(Except(s, Keys(listed)))[e] == if exists i | 0 <= i < |listed| :: listed[i].key == e.key then 0 else multiset(s)[e]
    {
      ExceptCounts(s, Keys(listed), e);
      ListedIff(listed, e.key);
    }
  }

  lemma ListedIff<K, V>(listed: seq<Entry<K, V>>, key: K)
    ensures key in Keys(listed) <==> exists i | 0 <= i < |listed| :: listed[i].key == key
  {
    if i :| 0 <= i < |listed| && listed[i].key == key {
      assert listed[i] in listed;
    }
  }

  /** A deletion of nothing changes nothing. */
  lemma ExceptNothing<K, V>(s: seq<Entry<K, V>>)
    ensures Except(s, {}) == s
  {
    ExceptNone(s, {});
  }

  lemma StoreAfterDelete(d: Device, bulk: bool, flows: seq<FlowEntry>, groups: seq<Group>)
    ensures var after := AfterDelete(d, bulk, flows, groups);
      after.flows == Except(d.flows, Keys(flows)) && after.groups == Except(d.groups, Keys(groups))
  {
    ExceptNothing(d.flows);
    ExceptNothing(d.groups);
    assert flows == [] ==> Keys(flows) == {};
    assert groups == [] ==> Keys(groups) == {};
  }

  lemma PatchedWithout<K, V>(table: seq<Entry<K, V>>, toRemove: seq<Entry<K, V>>)
    ensures Patched(table, toRemove, []) == Except(table, Keys(toRemove))
    ensures toRemove == [] ==> Except(table, Keys(toRemove)) == table
  {
    if toRemove == [] {
      assert Keys(toRemove) == {};
      ExceptNothing(table);
    }
  }

  lemma AdapterAfterDelete(d: Device, bulk: bool, flows: seq<FlowEntry>, groups: seq<Group>)
    requires bulk ==> AdapterInSync(d)
    ensures var after := AfterDelete(d, bulk, flows, groups);
      && multiset(after.adapterFlows) == multiset(Except(d.adapterFlows, Keys(flows)))
      && multiset(after.adapterGroups) == multiset(Except(d.adapterGroups, Keys(groups)))
  {
    PatchedWithout(d.adapterFlows, flows);
    PatchedWithout(d.adapterGroups, groups);
    if bulk {
      ExceptSameBag(d.adapterFlows, d.flows, Keys(flows));
      ExceptSameBag(d.adapterGroups, d.groups, Keys(groups));
    }
  }

  /**
    After a deletion no flow and no group with a listed key is left, in the store or at the adapter; every other entry is
    there as often as before, and the store keeps its order.
  */
  lemma DeletionIs(d: Device, bulk: bool, flows: seq<FlowEntry>, groups: seq<Group>)
    requires bulk ==> AdapterInSync(d)
    ensures var after := AfterDelete(d, bulk, flows, groups);
      && Rid(after.flows, d.flows, flows) && Subsequence(after.flows, d.flows)
      && Rid(after.groups, d.groups, groups) && Subsequence(after.groups, d.groups)
      && Rid(after.adapterFlows, d.adapterFlows, flows) && Rid(after.adapterGroups, d.adapterGroups, groups)
  {
    StoreAfterDelete(d, bulk, flows, groups);
    AdapterAfterDelete(d, bulk, flows, groups);
    ExceptInOrder(d.flows, Keys(flows));
    ExceptInOrder(d.groups, Keys(groups));
    ExceptRids(d.flows, flows);
    ExceptRids(d.groups, groups);
    ExceptRids(d.adapterFlows, flows);
    ExceptRids(d.adapterGroups, groups);
  }

  // ----- Addition -----

  lemma AddNothing<K(!new), V(!new)>(s: seq<Entry<K, V>>)
    ensures Difference([], s).All() == s
  {
    var none: seq<Entry<K, V>> := [];
    assert Keys(none) == {};
    DisjointDifference(none, s);
    assert s + none == s;
  }

  lemma StoreAfterAdd(d: Device, bulk: bool, flows: seq<FlowEntry>, groups: seq<Group>)
    ensures var after := AfterAdd(d, bulk, flows, groups);
      after.flows == Difference(flows, d.flows).All() && after.groups == Difference(groups, d.groups).All()
  {
    AddNothing(d.flows);
    AddNothing(d.groups);
  }

  lemma {:induction false} DifferenceInOrder<K, V>(news: seq<Entry<K, V>>, existing: seq<Entry<K, V>>)
    ensures Subsequence(Difference(news, existing).kept, existing)
    ensures forall e | e in Difference(news, existing).news :: e in news
  {
    if existing != [] {
      var shorter, last := existing[..|existing| - 1], existing[|existing| - 1];
      DifferenceInOrder(news, shorter);
      SubsequenceNext(Difference(news, shorter).kept, shorter, last);
      assert existing == shorter + [last];
    }
  }

  lemma DifferenceIs<K(!new), V(!new)>(news: seq<Entry<K, V>>, existing: seq<Entry<K, V>>)
    requires Unique(news) && Unique(existing)
    ensures Overridden(Difference(news, existing).All(), existing, news)
  {
    DifferenceOverrides(news, existing);
    forall e: Entry<K, V>
      ensures e.key !in Keys(news) <==> forall i | 0 <= i < |news| :: news[i].key != e.key
    {
      ListedIff(news, e.key);
    }
  }

  lemma DifferenceKeepsFirst<K(!new), V(!new)>(news: seq<Entry<K, V>>, existing: seq<Entry<K, V>>)
    ensures KeptFirst(Difference(news, existing).All(), existing, news)
  {
    var diff := Difference(news, existing);
    DifferenceInOrder(news, existing);
    assert diff.All()[..|diff.kept|] == diff.kept;
    forall i | |diff.kept| <= i < |diff.All()|
      ensures diff.All()[i] in news
    {
      assert diff.All()[i] == diff.news[i - |diff.kept|];
    }
  }

  /**
    After an addition the device stores the requested flows and groups, and those that it had under other keys, each key
    once, the earlier ones first and in order; and its adapter holds the same entries.
  */
  lemma AdditionIs(d: Device, bulk: bool, flows: seq<FlowEntry>, groups: seq<Group>)
    requires InSync(d) && Unique(flows) && Unique(groups)
    ensures var after := AfterAdd(d, bulk, flows, groups);
      && Overridden(after.flows, d.flows, flows) && KeptFirst(after.flows, d.flows, flows)
      && Overridden(after.groups, d.groups, groups) && KeptFirst(after.groups, d.groups, groups)
      && multiset(after.adapterFlows) == multiset(after.flows) && multiset(after.adapterGroups) == multiset(after.groups)
  {
    StoreAfterAdd(d, bulk, flows, groups);
    DifferenceIs(flows, d.flows);
    DifferenceIs(groups, d.groups);
    DifferenceKeepsFirst(flows, d.flows);
    DifferenceKeepsFirst(groups, d.groups);
    AddStaysInSync(d.flows, d.adapterFlows, flows);
    AddStaysInSync(d.groups, d.adapterGroups, groups);
  }

  /**
    Adding flows and groups and then deleting them again restores what the device stores, order included, if and only if it
    had none of their keys before; and the adapter is in sync again.
  */
  lemma AddThenDeleteRestores(d: Device, bulk: bool, flows: seq<FlowEntry>, groups: seq<Group>)
    ensures var after := AfterDelete(AfterAdd(d, bulk, flows, groups), bulk, flows, groups);
      after.flows == d.flows && after.groups == d.groups <==> Keys(flows) !! Keys(d.flows) && Keys(groups) !! Keys(d.groups)
    ensures InSync(d) && Unique(flows) && Unique(groups) ==> InSync(AfterDelete(AfterAdd(d, bulk, flows, groups), bulk, flows, groups))
  {
    var added := AfterAdd(d, bulk, flows, groups);
    StoreAfterAdd(d, bulk, flows, groups);
    StoreAfterDelete(added, bulk, flows, groups);
    AddThenDelete(flows, d.flows);
    AddThenDelete(groups, d.groups);
    if InSync(d) && Unique(flows) && Unique(groups) {
      AdditionIs(d, bulk, flows, groups);
      AdapterAfterDelete(added, bulk, flows, groups);
      ExceptMembers(added.flows, Keys(flows));
      ExceptMembers(added.groups, Keys(groups));
      ExceptSameBag(added.adapterFlows, added.flows, Keys(flows));
      ExceptSameBag(added.adapterGroups, added.groups, Keys(groups));
    }
  }
}
