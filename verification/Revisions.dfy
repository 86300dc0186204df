/**
  Lists of child revisions that must agree with the store (db/model/non_persisted_revision.go and
  db/model/persisted_revision.go): the merge that must not lose a child, and the replay of watch events, each of
  which reports a version of one child.

  The hash of a child covers its name and its data and is taken to be injective, so two children have the same hash
  exactly when name and data agree.
*/
module Revisions {

  type Data = string

  /** A child revision; its name is the child type, a slash and the child's key. */
  datatype Rev = Rev(name: string, data: Data, version: int) {
    function Hash(): (string, Data) { (name, data) }
  }

  predicate Unique(rs: seq<Rev>) { forall i, j | 0 <= i < j < |rs| :: rs[i].name != rs[j].name }

  function Names(rs: seq<Rev>): set<string> { set r | r in rs :: r.name }

  // ----- What the merge computes -----

  function Last(rs: seq<Rev>): Rev
    requires rs != []
  {
    rs[|rs| - 1]
  }

  /** The revisions whose name is not among `names`, in order. */
  function Without(rs: seq<Rev>, names: set<string>): seq<Rev> {
    if rs == [] then []
    else Without(rs[..|rs| - 1], names) + if Last(rs).name in names then [] else [Last(rs)]
  }

  /** The last position of a name, or -1. */
  function LastIndex(rs: seq<Rev>, name: string): (k: int)
    ensures -1 <= k < |rs| && (k >= 0 ==> rs[k].name == name)
    ensures forall i | k < i < |rs| :: rs[i].name != name
  {
    if rs == [] then -1
    else if Last(rs).name == name then |rs| - 1
    else LastIndex(rs[..|rs| - 1], name)
  }

  /** A given child, or the existing revision of the same name when the data is the same. */
  function Pick(existing: seq<Rev>, given: Rev): Rev {
    var k := LastIndex(existing, given.name);
    if k >= 0 && existing[k].data == given.data then existing[k] else given
  }

  function Picked(existing: seq<Rev>, given: seq<Rev>): seq<Rev> {
    if given == [] then [] else Picked(existing, given[..|given| - 1]) + [Pick(existing, Last(given))]
  }

  function Merge(existing: seq<Rev>, given: seq<Rev>): seq<Rev> {
    Without(existing, Names(given)) + Picked(existing, given)
  }

  /** A map from each name to its last position. */
  method IndexByName(rs: seq<Rev>) returns (index: map<string, nat>)
    ensures index.Keys == Names(rs)
    ensures forall n | n in index :: index[n] == LastIndex(rs, n)
  {
    index := map[];
    for i := 0 to |rs|
      invariant index.Keys == Names(rs[..i])
      invariant forall n | n in index :: index[n] == LastIndex(rs[..i], n)
    {
      var longer := rs[..i + 1];
      assert longer[..i] == rs[..i] && longer == rs[..i] + [rs[i]];
      index := index[rs[i].name := i];
    }
    assert rs[..|rs|] == rs;
  }

  /** Walks the given children, taking the existing revision wherever the data has not changed. */
  method MergeGiven(existing: seq<Rev>, existingNames: map<string, nat>, given: seq<Rev>) returns (picked: seq<Rev>)
    requires existingNames.Keys == Names(existing)
    requires forall n | n in existingNames :: existingNames[n] == LastIndex(existing, n)
    ensures picked == Picked(existing, given)
  {
    picked := [];
    for i := 0 to |given|
      invariant picked == Picked(existing, given[..i])
    {
      var longer := given[..i + 1];
      assert longer[..i] == given[..i] && Last(longer) == given[i];
      var n := given[i].name;
      if n in existingNames && existing[existingNames[n]].data == given[i].data {
        picked := picked + [existing[existingNames[n]]];
      } else {
        assert LastIndex(existing, n) >= 0 ==> existing[LastIndex(existing, n)] in existing;
        picked := picked + [given[i]];
      }
    }
    assert given[..|given|] == given;
  }

  /** UpdateChildren: the children of the new revision, from those of the branch's latest one and the given list. */
  method UpdateChildren(latest: map<string, seq<Rev>>, name: string, given: seq<Rev>) returns (children: map<string, seq<Rev>>)
    ensures children == latest[name := if name in latest then Merge(latest[name], given) else given]
  {
    if name !in latest {
      return latest[name := given];
    }
    var existing := latest[name];
    var newNames := IndexByName(given);
    var existingNames := IndexByName(existing);
    var updated: seq<Rev> := [];
    for i := 0 to |existing|
      invariant updated == Without(existing[..i], Names(given))
    {
      var longer := existing[..i + 1];
      assert longer[..i] == existing[..i] && Last(longer) == existing[i];
      if existing[i].name !in newNames {
        updated := updated + [existing[i]];
      }
    }
    assert existing[..|existing|] == existing;
    var picked := MergeGiven(existing, existingNames, given);
    children := latest[name := updated + picked];
  }

  // ----- No child is lost -----

  lemma {:induction false} WithoutMembers(rs: seq<Rev>, names: set<string>)
    ensures forall r :: r in Without(rs, names) <==> r in rs && r.name !in names
    ensures Unique(rs) ==> Unique(Without(rs, names))
  {
    if rs != [] {
      WithoutMembers(rs[..|rs| - 1], names);
      assert rs == rs[..|rs| - 1] + [Last(rs)];
    }
  }

  lemma {:induction false} PickedAt(existing: seq<Rev>, given: seq<Rev>)
    ensures |Picked(existing, given)| == |given|
    ensures forall i | 0 <= i < |given| :: Picked(existing, given)[i] == Pick(existing, given[i])
  {
    if given != [] { PickedAt(existing, given[..|given| - 1]); }
  }

  /** The given children come after the kept ones, each with the given name and data. */
  lemma GivenAt(existing: seq<Rev>, given: seq<Rev>, i: nat)
    requires i < |given|
    ensures var k := |Without(existing, Names(given))| + i;
            && k < |Merge(existing, given)|
            && Merge(existing, given)[k] == Pick(existing, given[i])
            && Merge(existing, given)[k].name == given[i].name
            && Merge(existing, given)[k].data == given[i].data
  {
    PickedAt(existing, given);
  }

  lemma MergeUnique(existing: seq<Rev>, given: seq<Rev>)
    requires Unique(existing) && Unique(given)
    ensures Unique(Merge(existing, given))
  {
    WithoutMembers(existing, Names(given));
    PickedAt(existing, given);
    var kept, merged := Without(existing, Names(given)), Merge(existing, given);
    forall i, j | 0 <= i < j < |merged|
      ensures merged[i].name != merged[j].name
    {
      if |kept| <= j {
        GivenAt(existing, given, j - |kept|);
        assert given[j - |kept|] in given;
        if |kept| <= i { GivenAt(existing, given, i - |kept|); }
        else { assert merged[i] in kept; }
      }
    }
  }

  /** A revision that the given list does not name, or names with the same data, stays. */
  lemma MergeKeeps(existing: seq<Rev>, given: seq<Rev>, e: Rev)
    requires Unique(existing) && e in existing && forall g | g in given && g.name == e.name :: g.data == e.data
    ensures e in Merge(existing, given)
  {
    WithoutMembers(existing, Names(given));
    if e.name in Names(given) {
      var g :| g in given && g.name == e.name;
      var i :| 0 <= i < |given| && given[i] == g;
      GivenAt(existing, given, i);
      assert existing[LastIndex(existing, e.name)] == e;
    }
  }

  lemma MergeOrigin(existing: seq<Rev>, given: seq<Rev>, r: Rev)
    requires r in Merge(existing, given)
    ensures (r in existing && r.name !in Names(given)) || exists g | g in given :: g.name == r.name && g.data == r.data && (r == g || r in existing)
  {
    WithoutMembers(existing, Names(given));
    PickedAt(existing, given);
    var kept := Without(existing, Names(given));
    var k :| 0 <= k < |Merge(existing, given)| && Merge(existing, given)[k] == r;
    if k < |kept| {
      assert r in kept;
    } else {
      GivenAt(existing, given, k - |kept|);
      assert given[k - |kept|] in given;
    }
  }

  lemma NameKept(existing: seq<Rev>, given: seq<Rev>, e: Rev)
    requires Unique(existing) && e in existing
    ensures e.name in Names(Merge(existing, given))
  {
    if e.name in Names(given) {
      var g :| g in given && g.name == e.name;
      var i :| 0 <= i < |given| && given[i] == g;
      GivenAt(existing, given, i);
      assert Merge(existing, given)[|Without(existing, Names(given))| + i] in Merge(existing, given);
    } else {
      MergeKeeps(existing, given, e);
    }
  }

  lemma UniqueAt(rs: seq<Rev>, r: Rev, k: int)
    requires Unique(rs) && r in rs && 0 <= k < |rs| && rs[k].name == r.name
    ensures rs[k] == r
  {
    var i :| 0 <= i < |rs| && rs[i] == r;
  }

  /** Under a given name the merge has the given data. */
  lemma MergeData(existing: seq<Rev>, given: seq<Rev>, r: Rev, g: Rev)
    requires Unique(given) && r in Merge(existing, given) && g in given && r.name == g.name
    ensures r.data == g.data
  {
    MergeOrigin(existing, given, r);
    var h :| h in given && h.name == r.name && h.data == r.data;
    var i :| 0 <= i < |given| && given[i] == h;
    UniqueAt(given, g, i);
  }

  /** An existing revision survives exactly if every given revision of its name has its data, or is it. */
  lemma SurvivesIff(existing: seq<Rev>, given: seq<Rev>, e: Rev)
    requires Unique(existing) && Unique(given) && e in existing
    ensures e in Merge(existing, given) <==> forall g | g in given && g.name == e.name :: g.data == e.data || g == e
  {
    if e in Merge(existing, given) {
      forall g | g in given && g.name == e.name
        ensures g.data == e.data
      {
        MergeData(existing, given, e, g);
      }
    }
    if forall g | g in given && g.name == e.name :: g.data == e.data || g == e {
      MergeKeeps(existing, given, e);
    }
  }

  /**
    With unique names in each list, the merge has unique names, exactly those of the two lists; every given name
    carries the given data; and a revision of the branch stays exactly if the given list does not name it, repeats its data,
    or has that very revision. In particular a child added to the branch after the caller read it survives.
  */
  lemma NoChildLost(existing: seq<Rev>, given: seq<Rev>)
    requires Unique(existing) && Unique(given)
    ensures Unique(Merge(existing, given))
    ensures Names(Merge(existing, given)) == Names(existing) + Names(given)
    ensures forall g | g in given :: exists r | r in Merge(existing, given) :: r.name == g.name && r.data == g.data
    ensures forall e | e in existing ::
      e in Merge(existing, given) <==> forall g | g in given && g.name == e.name :: g.data == e.data || g == e
  {
    MergeUnique(existing, given);
    var merged := Merge(existing, given);
    forall g | g in given
      ensures exists r | r in merged :: r.name == g.name && r.data == g.data
    {
      var i :| 0 <= i < |given| && given[i] == g;
      GivenAt(existing, given, i);
      assert merged[|Without(existing, Names(given))| + i] in merged;
    }
    forall e | e in existing
      ensures e in merged <==> forall g | g in given && g.name == e.name :: g.data == e.data || g == e
    {
      SurvivesIff(existing, given, e);
    }
    forall e | e in existing
      ensures e.name in Names(merged)
    {
      NameKept(existing, given, e);
    }
    forall r | r in merged
      ensures r.name in Names(existing) + Names(given)
    {
      MergeOrigin(existing, given, r);
    }
  }

  // ----- Watch events applied to the children of the parent's latest revision -----

  /** A PUT reported by the watch. */
  datatype Event = Event(data: Data, version: int)

  /** What a watcher meets: reports, and operations that begin and end on the proxy of its child. */
  datatype Input = Put(event: Event) | OperationStarts | OperationEnds

  /** What a report means for a child: a newer version replaces data and version, any other changes nothing. */
  function Refresh(r: Rev, data: Data, version: int): Rev {
    if r.version < version then Rev(r.name, data, version) else r
  }

  function FindByName(rs: seq<Rev>, name: string): (k: int)
    ensures -1 <= k < |rs| && (k >= 0 ==> rs[k].name == name)
    ensures k == -1 <==> name !in Names(rs)
  {
    if rs == [] then -1
    else if rs[0].name == name then 0
    else
      assert rs == [rs[0]] + rs[1..];
      var k := FindByName(rs[1..], name);
      if k == -1 then -1 else k + 1
  }

  lemma {:induction false} WithoutAll(rs: seq<Rev>, names: set<string>)
    requires forall r | r in rs :: r.name in names
    ensures Without(rs, names) == []
  {
    if rs != [] {
      assert Last(rs) in rs;
      WithoutAll(rs[..|rs| - 1], names);
    }
  }

  /** A given list that repeats the existing names in place, and adds new ones behind, is the result of the merge. */
  lemma MergeCovers(existing: seq<Rev>, given: seq<Rev>)
    requires Unique(existing) && Unique(given) && |existing| <= |given|
    requires forall i | 0 <= i < |existing| ::
               given[i].name == existing[i].name && (given[i].data == existing[i].data ==> given[i] == existing[i])
    ensures Merge(existing, given) == given
  {
    WithoutMembers(existing, Names(given));
    PickedAt(existing, given);
    forall e | e in existing
      ensures e.name in Names(given)
    {
      var i :| 0 <= i < |existing| && existing[i] == e;
      assert given[i] in given;
    }
    WithoutAll(existing, Names(given));
    forall i | 0 <= i < |given|
      ensures Picked(existing, given)[i] == given[i]
    {
      if i < |existing| {
        assert LastIndex(existing, given[i].name) == i;
      } else {
        assert forall k | 0 <= k < |existing| :: existing[k].name == given[k].name && given[k].name != given[i].name;
      }
    }
  }

  /** The parent's latest revision: its children, by type. */
  class Parent {
    var children: map<string, seq<Rev>>

    ghost predicate Valid()
      reads this
    {
      forall t | t in children :: Unique(children[t])
    }

    constructor (children: map<string, seq<Rev>>)
      requires forall t | t in children :: Unique(children[t])
      ensures Valid() && this.children == children
    {
      this.children := children;
    }

    /** Removes the first child with the given hash, if there is one. */
    method ChildDrop(childType: string, childHash: (string, Data))
      requires Valid()
      modifies this
      ensures Valid()
      ensures childType == "" || childType !in old(children) || (forall r | r in old(children)[childType] :: r.Hash() != childHash) ==>
                children == old(children)
      ensures childType != "" && childType in old(children) ==>
                forall i | 0 <= i < |old(children)[childType]| && old(children)[childType][i].Hash() == childHash ::
                  children == old(children)[childType := old(children)[childType][..i] + old(children)[childType][i + 1..]]
    {
      if childType != "" && childType in children {
        var list := children[childType];
        for i := 0 to |list|
          invariant children == old(children)
          invariant forall j | 0 <= j < i :: list[j].Hash() != childHash
        {
          if list[i].Hash() == childHash {
            children := children[childType := list[..i] + list[i + 1..]];
            assert forall j | 0 <= j < |list| && list[j].Hash() == childHash :: list[j].name == list[i].name && j == i;
            return;
          }
        }
      }
    }

    /** Puts a revision with other data in the place of child `k` and drops the previous one. */
    method ReplaceChild(typeName: string, k: nat, r: Rev)
      requires Valid() && typeName in children && k < |children[typeName]|
      requires r.name == children[typeName][k].name && r.data != children[typeName][k].data
      modifies this
      ensures Valid()
      ensures children == old(children)[typeName := old(children)[typeName][k := r]]
    {
      var list := children[typeName];
      var replaced := list[k := r];
      MergeCovers(list, replaced);
      children := UpdateChildren(children, typeName, replaced);
      assert forall i | 0 <= i < |replaced| :: replaced[i].Hash() != list[k].Hash();
      ChildDrop(typeName, list[k].Hash());
    }

    /** Adds a child with a name of its own behind the others of its type. */
    method AddChild(typeName: string, r: Rev)
      requires Valid() && (typeName in children ==> r.name !in Names(children[typeName]))
      modifies this
      ensures Valid()
      ensures children == old(children)[typeName := (if typeName in old(children) then old(children)[typeName] else []) + [r]]
    {
      var list := if typeName in children then children[typeName] else [];
      assert forall i | 0 <= i < |list| :: list[i] in list;
      MergeCovers(list, list + [r]);
      children := UpdateChildren(children, typeName, list + [r]);
    }

    /** Applies one stored entry to memory: refreshes the child of that name, or adds it. */
    method VerifyPersistedEntry(typeName: string, name: string, data: Data, version: int) returns (response: Rev)
      requires Valid()
      modifies this
      ensures Valid()
      ensures var list := if typeName in old(children) then old(children)[typeName] else [];
              var k := FindByName(list, name);
              if k >= 0 then
                response == Refresh(list[k], data, version) && children == old(children)[typeName := list[k := response]]
              else
                response == Rev(name, data, version) && children == old(children)[typeName := list + [response]]
    {
      var list := if typeName in children then children[typeName] else [];
      var k := FindByName(list, name);
      if k >= 0 {
        if list[k].data != data && list[k].version < version {
          response := Rev(name, data, version);
          ReplaceChild(typeName, k, response);
        } else {
          response := if list[k].version < version then list[k].(version := version) else list[k];
          children := children[typeName := list[k := response]];
        }
      } else {
        response := Rev(name, data, version);
        AddChild(typeName, response);
      }
    }

    /** One turn of the event loop of startWatching, for the child at position `k`. */
    method Receive(typeName: string, name: string, i: Input, proxied: bool, w: Watching, ghost k: int) returns (after: Watching)
      requires Valid() && typeName in children && k == FindByName(children[typeName], name) && k >= 0
      requires children[typeName][k] == w.child
      modifies this
      ensures Valid() && after == Turn(w, i, proxied)
      ensures children == old(children)[typeName := old(children)[typeName][k := after.child]]
    {
      ghost var list := children[typeName];
      assert list[k := w.child] == list;
      match i
      case OperationStarts => return w.(busy := true);
      case OperationEnds => return w.(busy := false);
      case Put(e) =>
        if w.mine >= e.version || (proxied && w.busy) {
          return w;
        }
        var child := VerifyPersistedEntry(typeName, name, e.data, e.version);
        if w.child.data != e.data && w.child.version < e.version {
          return Watching(child, w.mine, false, w.busy || proxied);
        }
        return Watching(child, if w.listed then e.version else w.mine, w.listed, w.busy || proxied);
    }

    /**
      The event loop of startWatching for one child: `proxied` says whether the child has a proxy, `busy` whether an operation
      is on it. A watcher compares reports with the version of the revision that it was started for, which is listed until
      the child's data first changes.
    */
    method Replay(typeName: string, name: string, inputs: seq<Input>, proxied: bool, busy: bool)
      requires Valid() && typeName in children && name in Names(children[typeName])
      modifies this
      ensures Valid()
      ensures var list := old(children)[typeName];
              var k := FindByName(list, name);
              children == old(children)[typeName := list[k := Watched(list[k], inputs, proxied, busy).child]]
    {
      var list := children[typeName];
      var k := FindByName(list, name);
      var w := Watching(list[k], list[k].version, true, busy);
      assert list[k := list[k]] == list;
      for i := 0 to |inputs|
        invariant Valid() && w == Watched(list[k], inputs[..i], proxied, busy)
        invariant children == old(children)[typeName := list[k := w.child]]
      {
        assert inputs[..i + 1][..i] == inputs[..i] && inputs[..i + 1][i] == inputs[i];
        ghost var was := w.child;
        UniqueFind(list, k, was);
        w := Receive(typeName, name, inputs[i], proxied, w, k);
        assert list[k := was][k := w.child] == list[k := w.child];
      }
      assert inputs[..|inputs|] == inputs;
    }
  }

  // ----- What a watcher makes of its inputs -----

  /** A watched child; `mine` is the version of the watcher's own revision, `listed` whether that is the listed one still. */
  datatype Watching = Watching(child: Rev, mine: int, listed: bool, busy: bool)

  function Turn(w: Watching, i: Input, proxied: bool): Watching {
    match i
    case OperationStarts => w.(busy := true)
    case OperationEnds => w.(busy := false)
    case Put(e) =>
      if w.mine >= e.version || (proxied && w.busy) then w
      else
        var replaced := w.child.data != e.data && w.child.version < e.version;
        Watching(Refresh(w.child, e.data, e.version), if w.listed && !replaced then e.version else w.mine,
                 w.listed && !replaced, w.busy || proxied)
  }

  function Watched(r: Rev, inputs: seq<Input>, proxied: bool, busy: bool): (w: Watching)
    ensures w.child.name == r.name
  {
    if inputs == [] then Watching(r, r.version, true, busy)
    else Turn(Watched(r, inputs[..|inputs| - 1], proxied, busy), inputs[|inputs| - 1], proxied)
  }

  function Reports(inputs: seq<Input>): seq<Event> {
    if inputs == [] then []
    else Reports(inputs[..|inputs| - 1]) + if inputs[|inputs| - 1].Put? then [inputs[|inputs| - 1].event] else []
  }

  /** The watcher's own revision is never ahead of the listed one. */
  lemma {:induction false} OwnVersionLags(r: Rev, inputs: seq<Input>, proxied: bool, busy: bool)
    ensures var w := Watched(r, inputs, proxied, busy); w.mine <= w.child.version && (w.listed ==> w.mine == w.child.version)
  {
    if inputs != [] {
      OwnVersionLags(r, inputs[..|inputs| - 1], proxied, busy);
    }
  }

  /** Without a proxy every report counts: skipping those that are not newer than the watcher's own revision loses nothing. */
  lemma {:induction false} WithoutProxyAllCount(r: Rev, inputs: seq<Input>, busy: bool)
    ensures Watched(r, inputs, false, busy).child == Settled(r, Reports(inputs))
  {
    if inputs != [] {
      var shorter, last := inputs[..|inputs| - 1], inputs[|inputs| - 1];
      WithoutProxyAllCount(r, shorter, busy);
      OwnVersionLags(r, shorter, false, busy);
      if last.Put? {
        var reports := Reports(inputs);
        assert reports[..|reports| - 1] == Reports(shorter) && reports[|reports| - 1] == last.event;
      } else {
        assert Reports(inputs) == Reports(shorter);
      }
    }
  }

  /** With a proxy, the report after one that was applied is dropped unless an operation ends in between. */
  lemma SecondReportDropped(w: Watching, e: Event, f: Event)
    requires !w.busy && w.mine < e.version
    ensures Turn(Turn(w, Put(e), true), Put(f), true) == Turn(w, Put(e), true)
  {
  }

  // ----- When a proxy is free, read off the inputs -----

  /** The proxy is free after input `j`: an operation ends there, or it was free from the start. */
  predicate FreedAt(inputs: seq<Input>, busy: bool, j: int) {
    if j == -1 then !busy else 0 <= j < |inputs| && inputs[j].OperationEnds?
  }

  /** Input `k` is a report of a version after that of the watcher's own revision. */
  ghost predicate Newer(r: Rev, inputs: seq<Input>, busy: bool, k: nat)
    requires k < |inputs|
    decreases k, 2
  {
    inputs[k].Put? && inputs[k].event.version > OwnVersion(r, inputs, busy, k)
  }

  /** When input `i` comes, nothing but reports that are not newer has come since the proxy was free. */
  ghost predicate FreeAt(r: Rev, inputs: seq<Input>, busy: bool, i: nat)
    requires i <= |inputs|
    decreases i, 0
  {
    exists j {:trigger FreedAt(inputs, busy, j)} | -1 <= j < i ::
      FreedAt(inputs, busy, j) && forall k | j < k < i :: inputs[k].Put? && !Newer(r, inputs, busy, k)
  }

  /** Input `k` is a newer report that comes while the proxy is free. */
  ghost predicate Applied(r: Rev, inputs: seq<Input>, busy: bool, k: nat): (applied: bool)
    requires k < |inputs|
    ensures applied ==> inputs[k].Put?
    decreases k, 3
  {
    Newer(r, inputs, busy, k) && FreeAt(r, inputs, busy, k)
  }

  predicate Repeats(r: Rev, i: Input) { i.Put? && i.event.data == r.data }

  /** No report with other data has been applied before input `i`. */
  ghost predicate Unchanged(r: Rev, inputs: seq<Input>, busy: bool, i: nat)
    requires i <= |inputs|
    decreases i, 0
  {
    forall k | 0 <= k < i && Applied(r, inputs, busy, k) :: Repeats(r, inputs[k])
  }

  /** The version of the watcher's own revision: reports that repeat its data raise it, until one with other data comes. */
  ghost function OwnVersion(r: Rev, inputs: seq<Input>, busy: bool, i: nat): int
    requires i <= |inputs|
    decreases i, 1
  {
    if i == 0 then r.version
    else if Applied(r, inputs, busy, i - 1) && Unchanged(r, inputs, busy, i) then inputs[i - 1].event.version
    else OwnVersion(r, inputs, busy, i - 1)
  }

  lemma FreeNext(r: Rev, inputs: seq<Input>, busy: bool, i: nat)
    requires i < |inputs|
    ensures FreeAt(r, inputs, busy, i + 1)
       <==> match inputs[i]
            case OperationStarts => false
            case OperationEnds => true
            case Put(_) => FreeAt(r, inputs, busy, i) && !Newer(r, inputs, busy, i)
  {
    if inputs[i].OperationEnds? {
      assert FreedAt(inputs, busy, i);
    } else if inputs[i].Put? && FreeAt(r, inputs, busy, i) && !Newer(r, inputs, busy, i) {
      var j :| -1 <= j < i && FreedAt(inputs, busy, j) && forall k | j < k < i :: inputs[k].Put? && !Newer(r, inputs, busy, k);
      assert FreedAt(inputs, busy, j);
    }
    if FreeAt(r, inputs, busy, i + 1) {
      var j :| -1 <= j < i + 1 && FreedAt(inputs, busy, j) && forall k | j < k < i + 1 :: inputs[k].Put? && !Newer(r, inputs, busy, k);
      assert FreedAt(inputs, busy, j);
    }
  }

  lemma FreeFirst(r: Rev, inputs: seq<Input>, busy: bool)
    ensures FreeAt(r, inputs, busy, 0) <==> !busy
  {
    assert FreedAt(inputs, busy, -1) <==> !busy;
  }

  lemma UnchangedNext(r: Rev, inputs: seq<Input>, busy: bool, i: nat)
    requires i < |inputs|
    ensures Unchanged(r, inputs, busy, i + 1)
       <==> Unchanged(r, inputs, busy, i) && (Applied(r, inputs, busy, i) ==> Repeats(r, inputs[i]))
  {
  }

  lemma OwnVersionNext(r: Rev, inputs: seq<Input>, busy: bool, i: nat)
    requires i < |inputs|
    ensures OwnVersion(r, inputs, busy, i + 1)
         == if Applied(r, inputs, busy, i) && Unchanged(r, inputs, busy, i + 1) then inputs[i].event.version
            else OwnVersion(r, inputs, busy, i)
  {
  }

  lemma AppliedIff(r: Rev, inputs: seq<Input>, busy: bool, k: nat)
    requires k < |inputs|
    ensures Newer(r, inputs, busy, k) <==> inputs[k].Put? && inputs[k].event.version > OwnVersion(r, inputs, busy, k)
    ensures Applied(r, inputs, busy, k)
       <==> inputs[k].Put? && inputs[k].event.version > OwnVersion(r, inputs, busy, k) && FreeAt(r, inputs, busy, k)
  {
  }

  /** What a watcher with a proxy remembers when input `i` comes is what the inputs say. */
  ghost predicate Remembers(r: Rev, inputs: seq<Input>, busy: bool, i: nat, w: Watching)
    requires i <= |inputs|
  {
    && (w.busy <==> !FreeAt(r, inputs, busy, i)) && w.mine == OwnVersion(r, inputs, busy, i)
    && (w.listed <==> Unchanged(r, inputs, busy, i)) && (w.listed ==> w.child.data == r.data && w.child.version == w.mine)
  }

  lemma RemembersNext(r: Rev, inputs: seq<Input>, busy: bool, i: nat, w: Watching)
    requires i < |inputs| && Remembers(r, inputs, busy, i, w)
    ensures Remembers(r, inputs, busy, i + 1, Turn(w, inputs[i], true))
  {
    FreeNext(r, inputs, busy, i);
    UnchangedNext(r, inputs, busy, i);
    OwnVersionNext(r, inputs, busy, i);
    AppliedIff(r, inputs, busy, i);
  }

  lemma {:induction false} WatchedIs(r: Rev, inputs: seq<Input>, busy: bool, i: nat)
    requires i <= |inputs|
    ensures Remembers(r, inputs, busy, i, Watched(r, inputs[..i], true, busy))
    decreases i
  {
    if i == 0 {
      FreeFirst(r, inputs, busy);
    } else {
      WatchedIs(r, inputs, busy, i - 1);
      RemembersNext(r, inputs, busy, i - 1, Watched(r, inputs[..i - 1], true, busy));
      assert inputs[..i][..i - 1] == inputs[..i - 1] && inputs[..i][i - 1] == inputs[i - 1];
    }
  }

  /** The reports that are applied before input `i`. */
  ghost function AppliedReports(r: Rev, inputs: seq<Input>, busy: bool, i: nat): seq<Event>
    requires i <= |inputs|
  {
    if i == 0 then []
    else AppliedReports(r, inputs, busy, i - 1) + if Applied(r, inputs, busy, i - 1) then [inputs[i - 1].event] else []
  }

  lemma AppliedRefreshes(r: Rev, inputs: seq<Input>, busy: bool, i: nat, w: Watching)
    requires i < |inputs| && Remembers(r, inputs, busy, i, w)
    ensures Turn(w, inputs[i], true).child
         == if Applied(r, inputs, busy, i) then Refresh(w.child, inputs[i].event.data, inputs[i].event.version) else w.child
  {
    AppliedIff(r, inputs, busy, i);
  }

  /** With a proxy a child settles to what the applied reports say, as if there had been no others. */
  lemma {:induction false} AppliedCount(r: Rev, inputs: seq<Input>, busy: bool, i: nat)
    requires i <= |inputs|
    ensures Watched(r, inputs[..i], true, busy).child == Settled(r, AppliedReports(r, inputs, busy, i))
    decreases i
  {
    if i > 0 {
      AppliedCount(r, inputs, busy, i - 1);
      WatchedIs(r, inputs, busy, i - 1);
      AppliedRefreshes(r, inputs, busy, i - 1, Watched(r, inputs[..i - 1], true, busy));
      assert inputs[..i][..i - 1] == inputs[..i - 1] && inputs[..i][i - 1] == inputs[i - 1];
      var before, all := AppliedReports(r, inputs, busy, i - 1), AppliedReports(r, inputs, busy, i);
      if Applied(r, inputs, busy, i - 1) {
        assert all[..|all| - 1] == before && all[|all| - 1] == inputs[i - 1].event;
      } else {
        assert all == before;
      }
    }
  }

  /** Report `i` has version `v` and comes while no operation is on the proxy. */
  ghost predicate InTime(r: Rev, inputs: seq<Input>, busy: bool, v: int, i: int) {
    0 <= i < |inputs| && inputs[i].Put? && inputs[i].event.version == v && FreeAt(r, inputs, busy, i)
  }

  predicate AtMost(inputs: seq<Input>, v: int) { forall i | 0 <= i < |inputs| && inputs[i].Put? :: inputs[i].event.version <= v }

  /**
    With a proxy, a child gets to the newest version that is reported if and only if a report of that version comes while the
    proxy is free: nothing but reports that are not newer than the watcher's revision came since an operation ended, or
    since the start if it started free.
  */
  lemma {:induction false} NewestIffInTime(r: Rev, inputs: seq<Input>, busy: bool, v: int)
    requires r.version < v && AtMost(inputs, v)
    ensures Watched(r, inputs, true, busy).child.version <= v
    ensures Watched(r, inputs, true, busy).child.version == v <==> exists i :: InTime(r, inputs, busy, v, i)
  {
    if inputs != [] {
      var shorter, last := inputs[..|inputs| - 1], |inputs| - 1;
      assert AtMost(shorter, v) by {
        assert forall i | 0 <= i < |shorter| :: shorter[i] == inputs[i];
      }
      NewestIffInTime(r, shorter, busy, v);
      OwnVersionLags(r, shorter, true, busy);
      WatchedIs(r, inputs, busy, last);
      InTimePrefix(r, inputs, busy, v);
      if i :| InTime(r, shorter, busy, v, i) {
        assert InTime(r, inputs, busy, v, i);
      } else {
        assert (exists i :: InTime(r, inputs, busy, v, i)) <==> InTime(r, inputs, busy, v, last);
      }
    }
  }

  lemma InTimePrefix(r: Rev, inputs: seq<Input>, busy: bool, v: int)
    requires inputs != []
    ensures forall i | 0 <= i < |inputs| - 1 :: InTime(r, inputs, busy, v, i) <==> InTime(r, inputs[..|inputs| - 1], busy, v, i)
  {
    var shorter := inputs[..|inputs| - 1];
    forall i | 0 <= i < |shorter|
      ensures InTime(r, inputs, busy, v, i) <==> InTime(r, shorter, busy, v, i)
    {
      assert shorter[..i] == inputs[..i];
      WatchedIs(r, inputs, busy, i);
      WatchedIs(r, shorter, busy, i);
    }
  }

  /** The child after a sequence of reports. */
  function Settled(r: Rev, events: seq<Event>): (s: Rev)
    ensures s.name == r.name
  {
    if events == [] then r
    else
      var e := events[|events| - 1];
      Refresh(Settled(r, events[..|events| - 1]), e.data, e.version)
  }

  lemma UniqueFind(list: seq<Rev>, k: int, r: Rev)
    requires Unique(list) && 0 <= k < |list| && r.name == list[k].name
    ensures FindByName(list[k := r], r.name) == k
  {
    var j := FindByName(list[k := r], r.name);
    assert list[k := r][k] in list[k := r];
  }

  /** Reports never lower the version; the last state is the newest version seen, with data some report of that version carried. */
  lemma {:induction false} SettledIsNewest(r: Rev, events: seq<Event>)
    ensures var s := Settled(r, events);
            && r.version <= s.version
            && (forall e | e in events :: e.version <= s.version)
            && (s == r || exists e | e in events :: e.version == s.version && e.data == s.data)
  {
    if events != [] {
      var shorter, e := events[..|events| - 1], events[|events| - 1];
      SettledIsNewest(r, shorter);
      assert events == shorter + [e];
      assert e in events;
      var t := Settled(r, shorter);
      if t != r {
        var d :| d in shorter && d.version == t.version && d.data == t.data;
        assert d in events;
      }
    }
  }

  predicate Reported(events: seq<Event>, version: int) { exists e | e in events :: e.version == version }

  lemma NotNewer(r: Rev, events: seq<Event>, others: seq<Event>)
    requires forall v | Reported(events, v) :: Reported(others, v)
    ensures Settled(r, events).version <= Settled(r, others).version
  {
    SettledIsNewest(r, events);
    SettledIsNewest(r, others);
    assert Settled(r, events) == r || Reported(events, Settled(r, events).version);
  }

  lemma SettledData(r: Rev, events: seq<Event>, dataOf: int -> Data)
    requires r.data == dataOf(r.version) && forall e | e in events :: e.data == dataOf(e.version)
    ensures Settled(r, events).data == dataOf(Settled(r, events).version)
  {
    SettledIsNewest(r, events);
  }

  /** When versions determine data, replays of the same reports agree, in any order and with any repeats. */
  lemma ReplaysConverge(r: Rev, events: seq<Event>, others: seq<Event>, dataOf: int -> Data)
    requires r.data == dataOf(r.version)
    requires forall e | e in events :: e.data == dataOf(e.version)
    requires forall e | e in others :: e.data == dataOf(e.version)
    requires forall v :: Reported(events, v) <==> Reported(others, v)
    ensures Settled(r, events) == Settled(r, others)
    ensures Settled(r, events).data == dataOf(Settled(r, events).version)
  {
    SettledData(r, events, dataOf);
    SettledData(r, others, dataOf);
    NotNewer(r, events, others);
    NotNewer(r, others, events);
  }
}
