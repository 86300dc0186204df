/**
  Concurrent watchers of the children of one parent (startWatching and verifyPersistedEntry in
  db/model/persisted_revision.go).

  Every child has a watcher of its own. To apply a report a watcher copies the parent's list of children without a lock,
  looks its child up in the copy, and later, under the parent's lock, merges the changed copy into the list as it is by then;
  after that it drops the previous revision of its child by its hash. Copy, look-up, merge and drop of different watchers
  interleave freely. Revisions are shared objects: their version can be raised in place.
*/
module Watchers {
  import Revisions

  type Name = string
  type Data = Revisions.Data
  type Id = nat
  type Children = map<Name, Id>

  datatype Obj = Obj(name: Name, data: Data, version: int)

  datatype Option<T> = None | Some(value: T)

  /** `at` is when the copy was made. */
  datatype Phase =
    | Idle
    | Copied(copy: Children, data: Data, version: int, at: nat)
    | Merging(given: Children, previous: Option<Id>, at: nat)
    | Dropping(gone: Id)

  /**
    `first` are the revisions whose versions the watchers compare reports with. History: `own` is the revision that each
    child's own watcher put into the list last, at time `changed`.
  */
  datatype State = State(
    heap: map<Id, Obj>,
    list: Children,
    phases: map<Name, Phase>,
    first: Children,
    next: Id,
    clock: nat,
    own: Children,
    changed: map<Name, nat>)
  {
    function Phase(w: Name): Phase { if w in phases then phases[w] else Idle }

    function Enter(w: Name, p: Phase): State { this.(phases := phases[w := p]) }
  }

  datatype Step =
    | Report(w: Name, data: Data, version: int)   // a report that is newer than the watcher's own revision; copies the list
    | Act(w: Name)                                // looks the child up in the copy
    | Merge(w: Name)
    | Drop(w: Name)

  predicate Enabled(s: State, st: Step) {
    match st
    case Report(w, _, version) => s.Phase(w).Idle? && w in s.first && s.first[w] in s.heap && s.heap[s.first[w]].version < version
    case Act(w) => s.Phase(w).Copied? && (w in s.Phase(w).copy ==> s.Phase(w).copy[w] in s.heap)
    case Merge(w) => s.Phase(w).Merging? && w in s.Phase(w).given
    case Drop(w) => s.Phase(w).Dropping?
  }

  predicate SameData(heap: map<Id, Obj>, i: Id, j: Id) { i in heap && j in heap && heap[i].data == heap[j].data }

  /** UpdateChildren on the list: a given child replaces the one of its name unless the data is the same. */
  function Merged(heap: map<Id, Obj>, list: Children, given: Children): Children {
    map n | n in list.Keys + given.Keys ::
      if n !in given then list[n]
      else if n in list && SameData(heap, list[n], given[n]) then list[n]
      else given[n]
  }

  function Apply(s: State, st: Step): State
    requires Enabled(s, st)
  {
    var t := s.(clock := s.clock + 1);
    match st
    case Report(w, data, version) => t.Enter(w, Copied(s.list, data, version, s.clock))
    case Act(w) =>
      var Copied(copy, data, version, at) := s.Phase(w);
      if w in copy && (s.heap[copy[w]].data == data || s.heap[copy[w]].version >= version) then
        var child := s.heap[copy[w]];
        t.(heap := s.heap[copy[w] := child.(version := if child.version < version then version else child.version)]).Enter(w, Idle)
      else
        t.(heap := s.heap[s.next := Obj(w, data, version)], next := s.next + 1)
         .Enter(w, Merging(copy[w := s.next], if w in copy then Some(copy[w]) else None, at))
    case Merge(w) =>
      var Merging(given, previous, at) := s.Phase(w);
      var list := Merged(s.heap, s.list, given);
      t.(list := list, own := s.own[w := list[w]], changed := s.changed[w := t.clock])
       .Enter(w, if previous.Some? then Dropping(previous.value) else Idle)
    case Drop(w) =>
      var gone := s.Phase(w).gone;
      (if w in s.list && SameData(s.heap, s.list[w], gone) then t.(list := s.list - {w}) else t).Enter(w, Idle)
  }

  // ----- What a step does to the children -----

  /** No child disappears and no child's version falls. */
  ghost predicate Keeps(s: State, st: Step)
    requires Enabled(s, st)
  {
    var t := Apply(s, st);
    forall y | y in s.list && s.list[y] in s.heap ::
      y in t.list && t.list[y] in t.heap && t.heap[t.list[y]].version >= s.heap[s.list[y]].version
  }

  /** A merge is fresh for sibling `y` if the copy has the data that the list has now. */
  predicate FreshFor(s: State, given: Children, y: Name) { y in given && y in s.list ==> SameData(s.heap, given[y], s.list[y]) }

  /** Every merge carries the current data of all siblings. */
  ghost predicate Fresh(s: State, st: Step)
    requires Enabled(s, st)
  {
    st.Merge? ==> forall y | y != st.w :: FreshFor(s, s.Phase(st.w).given, y)
  }

  // ----- The invariant of fresh runs -----

  /** A copy made at time `at` has every child's own revision, or an earlier one of a lower version if it has changed since. */
  ghost predicate CopyOk(s: State, copy: Children, at: nat, y: Name) {
    y in copy ==>
      && y in s.own && s.own[y] in s.heap && copy[y] in s.heap && s.heap[copy[y]].name == y
      && (copy[y] == s.own[y] <==> y in s.changed && s.changed[y] <= at)
      && (copy[y] != s.own[y] ==> s.heap[copy[y]].version < s.heap[s.own[y]].version)
  }

  ghost predicate PhaseOk(s: State, w: Name) {
    match s.Phase(w)
    case Idle => true
    case Copied(copy, _, _, at) =>
      at < s.clock && w in copy && w in s.own && copy[w] == s.own[w] && forall y {:trigger CopyOk(s, copy, at, y)} :: CopyOk(s, copy, at, y)
    case Merging(given, previous, at) =>
      && at < s.clock && w in s.own && s.own[w] in s.heap && w in given && previous == Some(s.own[w])
      && given[w] in s.heap && s.heap[given[w]].name == w && given[w] != s.own[w]
      && !SameData(s.heap, given[w], s.own[w]) && s.heap[s.own[w]].version < s.heap[given[w]].version
      && forall y {:trigger CopyOk(s, given, at, y)} :: y != w ==> CopyOk(s, given, at, y)
    case Dropping(gone) =>
      w in s.own && gone in s.heap && !SameData(s.heap, gone, s.own[w])
  }

  ghost predicate Inv(s: State) {
    && s.list == s.own && s.changed.Keys == s.own.Keys
    && (forall i | i in s.heap :: i < s.next)
    && (forall y | y in s.own :: s.own[y] in s.heap && s.heap[s.own[y]].name == y && s.changed[y] <= s.clock)
    && (forall w {:trigger PhaseOk(s, w)} :: PhaseOk(s, w))
    && s.first.Keys == s.own.Keys && (forall y {:trigger CopyOk(s, s.first, 0, y)} :: CopyOk(s, s.first, 0, y))
  }

  ghost predicate Initial(s: State) {
    && s.list == s.own == s.first && s.phases == map[] && s.clock == 0
    && s.changed == (map y | y in s.own :: 0)
    && (forall i | i in s.heap :: i < s.next)
    && (forall y | y in s.own :: s.own[y] in s.heap && s.heap[s.own[y]].name == y)
  }

  lemma InvInitial(s: State)
    requires Initial(s)
    ensures Inv(s)
  {
    forall y
      ensures CopyOk(s, s.first, 0, y)
    {
    }
    forall w
      ensures PhaseOk(s, w)
    {
    }
  }

  /** A fresh merge changes the merging watcher's child only. */
  lemma FreshMerge(s: State, w: Name)
    requires Inv(s) && Enabled(s, Merge(w)) && Fresh(s, Merge(w))
    ensures Merged(s.heap, s.list, s.Phase(w).given) == s.list[w := s.Phase(w).given[w]]
  {
    assert PhaseOk(s, w);
    var given := s.Phase(w).given;
    forall y | y in given && y != w
      ensures y in s.list && SameData(s.heap, s.list[y], given[y])
    {
      assert CopyOk(s, given, s.Phase(w).at, y) && FreshFor(s, given, y);
    }
  }

  /** What a copy promises of a child outlives every fresh step. */
  lemma CopyOkStep(s: State, st: Step, copy: Children, at: nat, y: Name)
    requires Inv(s) && Enabled(s, st) && Fresh(s, st) && CopyOk(s, copy, at, y) && at <= s.clock
    ensures CopyOk(Apply(s, st), copy, at, y)
  {
    assert PhaseOk(s, st.w);
    if st.Merge? {
      FreshMerge(s, st.w);
    }
  }

  /** Another watcher's own revision stays, and so does what it promises about it. */
  lemma OthersStay(s: State, st: Step, w: Name)
    requires Inv(s) && Enabled(s, st) && Fresh(s, st) && w != st.w
    ensures var t := Apply(s, st);
      && t.Phase(w) == s.Phase(w) && s.clock < t.clock && (w in t.own <==> w in s.own) && (w in s.own ==> t.own[w] == s.own[w])
      && (forall i | i in s.heap :: i in t.heap && t.heap[i].name == s.heap[i].name && t.heap[i].data == s.heap[i].data)
      && (forall i | i in s.heap && s.heap[i].name == w :: t.heap[i] == s.heap[i])
  {
    assert PhaseOk(s, st.w);
    if st.Merge? {
      FreshMerge(s, st.w);
    }
  }

  lemma OtherPhaseStep(s: State, st: Step, w: Name)
    requires Inv(s) && Enabled(s, st) && Fresh(s, st) && w != st.w
    ensures PhaseOk(Apply(s, st), w)
  {
    assert PhaseOk(s, w);
    var t := Apply(s, st);
    OthersStay(s, st, w);
    match s.Phase(w)
    case Copied(copy, _, _, at) =>
      forall y
        ensures CopyOk(t, copy, at, y)
      {
        assert CopyOk(s, copy, at, y);
        CopyOkStep(s, st, copy, at, y);
      }
    case Merging(given, _, at) =>
      forall y | y != w
        ensures CopyOk(t, given, at, y)
      {
        assert CopyOk(s, given, at, y);
        CopyOkStep(s, st, given, at, y);
      }
    case _ =>
  }

  lemma OwnPhaseStep(s: State, st: Step)
    requires Inv(s) && Enabled(s, st) && Fresh(s, st)
    ensures PhaseOk(Apply(s, st), st.w)
  {
    var w, t := st.w, Apply(s, st);
    assert PhaseOk(s, w);
    match st
    case Report(_, _, _) =>
      forall y
        ensures CopyOk(t, s.list, s.clock, y)
      {
      }
    case Act(_) =>
      var Copied(copy, data, version, at) := s.Phase(w);
      if t.Phase(w).Merging? {
        var given := t.Phase(w).given;
        forall y | y != w
          ensures CopyOk(t, given, at, y)
        {
          assert CopyOk(s, copy, at, y);
          CopyOkStep(s, st, copy, at, y);
        }
      }
    case Merge(_) => FreshMerge(s, w);
    case Drop(_) =>
  }

  lemma ListStep(s: State, st: Step)
    requires Inv(s) && Enabled(s, st) && Fresh(s, st)
    ensures var t := Apply(s, st);
      && t.list == t.own && t.changed.Keys == t.own.Keys && t.first == s.first && s.first.Keys == t.own.Keys
      && (forall i | i in t.heap :: i < t.next)
  {
    assert PhaseOk(s, st.w);
    if st.Merge? {
      FreshMerge(s, st.w);
    }
  }

  lemma OwnStep(s: State, st: Step)
    requires Inv(s) && Enabled(s, st) && Fresh(s, st)
    ensures var t := Apply(s, st);
      forall y | y in t.own :: t.own[y] in t.heap && t.heap[t.own[y]].name == y && y in t.changed && t.changed[y] <= t.clock
  {
    assert PhaseOk(s, st.w);
    if st.Merge? {
      FreshMerge(s, st.w);
    }
  }

  lemma FreshKeeps(s: State, st: Step)
    requires Inv(s) && Enabled(s, st) && Fresh(s, st)
    ensures Keeps(s, st)
  {
    assert PhaseOk(s, st.w);
    if st.Merge? {
      FreshMerge(s, st.w);
    }
  }

  lemma InvStep(s: State, st: Step)
    requires Inv(s) && Enabled(s, st) && Fresh(s, st)
    ensures Inv(Apply(s, st)) && Keeps(s, st)
  {
    var t := Apply(s, st);
    ListStep(s, st);
    OwnStep(s, st);
    FreshKeeps(s, st);
    forall w
      ensures PhaseOk(t, w)
    {
      if w == st.w { OwnPhaseStep(s, st); } else { OtherPhaseStep(s, st, w); }
    }
    forall y
      ensures CopyOk(t, t.first, 0, y)
    {
      assert CopyOk(s, s.first, 0, y);
      CopyOkStep(s, st, s.first, 0, y);
    }
  }

  /** A merge that is not fresh takes a sibling back to an earlier revision. */
  lemma StaleLowers(s: State, st: Step)
    requires Inv(s) && Enabled(s, st) && !Fresh(s, st)
    ensures !Keeps(s, st)
  {
    assert PhaseOk(s, st.w);
    var given := s.Phase(st.w).given;
    var y :| y != st.w && !FreshFor(s, given, y);
    assert CopyOk(s, given, s.Phase(st.w).at, y);
    assert Apply(s, st).list[y] == given[y];
  }

  // ----- Runs -----

  predicate IsRun(s: State, steps: seq<Step>)
    decreases |steps|
  {
    steps == [] || (Enabled(s, steps[0]) && IsRun(Apply(s, steps[0]), steps[1..]))
  }

  ghost predicate FreshRun(s: State, steps: seq<Step>)
    requires IsRun(s, steps)
    decreases |steps|
  {
    steps == [] || (Fresh(s, steps[0]) && FreshRun(Apply(s, steps[0]), steps[1..]))
  }

  ghost predicate KeepingRun(s: State, steps: seq<Step>)
    requires IsRun(s, steps)
    decreases |steps|
  {
    steps == [] || (Keeps(s, steps[0]) && KeepingRun(Apply(s, steps[0]), steps[1..]))
  }

  lemma {:induction false} KeepsIffFreshFrom(s: State, steps: seq<Step>)
    requires Inv(s) && IsRun(s, steps)
    ensures KeepingRun(s, steps) <==> FreshRun(s, steps)
    decreases |steps|
  {
    if steps != [] {
      if Fresh(s, steps[0]) {
        InvStep(s, steps[0]);
        KeepsIffFreshFrom(Apply(s, steps[0]), steps[1..]);
      } else {
        StaleLowers(s, steps[0]);
      }
    }
  }

  /** In every interleaving, no child is lost and no version ever falls, if and only if every merge carries the current data of all siblings. */
  lemma KeepsIffFresh(s: State, steps: seq<Step>)
    requires Initial(s) && IsRun(s, steps)
    ensures KeepingRun(s, steps) <==> FreshRun(s, steps)
  {
    InvInitial(s);
    KeepsIffFreshFrom(s, steps);
  }

  // ----- Fresh merges and recent copies -----

  /** A copy made at time `at` is no older than the last change of `y`. */
  predicate RecentFor(s: State, at: nat, y: Name) { y in s.changed ==> s.changed[y] <= at }

  /** Every merge uses a copy that is no older than the last change of any sibling. */
  ghost predicate Recent(s: State, st: Step)
    requires Enabled(s, st)
  {
    st.Merge? ==> forall y | y != st.w && y in s.Phase(st.w).given :: RecentFor(s, s.Phase(st.w).at, y)
  }

  /** No child ever returns to data that it had before. */
  ghost predicate NoReturn(s: State) {
    forall i, j | i in s.heap && j in s.heap && i != j && s.heap[i].name == s.heap[j].name :: s.heap[i].data != s.heap[j].data
  }

  /** A merge with a recent copy is fresh; if no child returns to earlier data, a merge with an older copy is not. */
  lemma FreshIffRecent(s: State, st: Step)
    requires Inv(s) && Enabled(s, st)
    ensures Recent(s, st) ==> Fresh(s, st)
    ensures NoReturn(s) ==> (Fresh(s, st) <==> Recent(s, st))
  {
    if st.Merge? {
      assert PhaseOk(s, st.w);
      var given, at := s.Phase(st.w).given, s.Phase(st.w).at;
      forall y | y != st.w && y in given
        ensures RecentFor(s, at, y) ==> FreshFor(s, given, y)
        ensures NoReturn(s) ==> (FreshFor(s, given, y) <==> RecentFor(s, at, y))
      {
        assert CopyOk(s, given, at, y);
      }
    }
  }

  ghost predicate RecentRun(s: State, steps: seq<Step>)
    requires IsRun(s, steps)
    decreases |steps|
  {
    steps == [] || (Recent(s, steps[0]) && RecentRun(Apply(s, steps[0]), steps[1..]))
  }

  ghost predicate NeverReturns(s: State, steps: seq<Step>)
    requires IsRun(s, steps)
    decreases |steps|
  {
    NoReturn(s) && (steps == [] || NeverReturns(Apply(s, steps[0]), steps[1..]))
  }

  lemma {:induction false} KeepsIffRecentFrom(s: State, steps: seq<Step>)
    requires Inv(s) && IsRun(s, steps) && NeverReturns(s, steps)
    ensures KeepingRun(s, steps) <==> RecentRun(s, steps)
    decreases |steps|
  {
    if steps != [] {
      FreshIffRecent(s, steps[0]);
      if Fresh(s, steps[0]) {
        InvStep(s, steps[0]);
        KeepsIffRecentFrom(Apply(s, steps[0]), steps[1..]);
      } else {
        StaleLowers(s, steps[0]);
      }
    }
  }

  /**
    In every interleaving in which no child returns to data that it had before, no child is lost and no version falls, if and
    only if no merge uses a copy that is older than the last change of a sibling.
  */
  lemma KeepsIffRecent(s: State, steps: seq<Step>)
    requires Initial(s) && IsRun(s, steps) && NeverReturns(s, steps)
    ensures KeepingRun(s, steps) <==> RecentRun(s, steps)
  {
    InvInitial(s);
    KeepsIffRecentFrom(s, steps);
  }

  /** As long as merges are fresh, the revision that a watcher compares reports with is never ahead of the listed one. */
  lemma OwnRevisionLags(s: State, w: Name)
    requires Inv(s) && w in s.first
    ensures w in s.list && s.first[w] in s.heap && s.list[w] in s.heap && s.heap[s.first[w]].version <= s.heap[s.list[w]].version
  {
    assert CopyOk(s, s.first, 0, w);
  }

  // ----- A watcher left alone -----

  /** The steps of one report, as many as it takes. */
  function StepsOf(w: Name, data: Data, version: int, changed: bool): seq<Step> {
    if changed then [Report(w, data, version), Act(w), Merge(w), Drop(w)] else [Report(w, data, version), Act(w)]
  }

  /** What a report makes of a child: newer data and version replace the old ones, anything else changes nothing. */
  function Refreshed(o: Obj, data: Data, version: int): Obj { if o.version < version then Obj(o.name, data, version) else o }

  predicate Replaces(o: Obj, data: Data, version: int) { o.data != data && o.version < version }

  /** The child is refreshed, and all other children are as they were. */
  predicate OnlyRefreshed(s: State, t: State, w: Name, data: Data, version: int) {
    && w in s.list && s.list[w] in s.heap && w in t.list && t.list[w] in t.heap
    && t.heap[t.list[w]] == Refreshed(s.heap[s.list[w]], data, version)
    && t.list.Keys == s.list.Keys && forall y | y in s.list && y != w && s.list[y] in s.heap ::
         t.list[y] == s.list[y] && t.list[y] in t.heap && t.heap[t.list[y]] == s.heap[s.list[y]]
  }

  /** Report and look-up: the child's version is raised in place, or a new revision waits to be merged. */
  lemma AloneActs(s: State, w: Name, data: Data, version: int) returns (s1: State, s2: State)
    requires Inv(s) && Enabled(s, Report(w, data, version))
    ensures w in s.list && s.list[w] in s.heap && s.next !in s.heap
    ensures s1 == Apply(s, Report(w, data, version)) && Enabled(s1, Act(w)) && s2 == Apply(s1, Act(w)) && s2.list == s.list
    ensures if Replaces(s.heap[s.list[w]], data, version)
      then s2.heap == s.heap[s.next := Obj(w, data, version)] && s2.Phase(w).Merging?
           && s2.Phase(w).given == s.list[w := s.next] && s2.Phase(w).previous == Some(s.list[w])
      else s2.heap == s.heap[s.list[w] := Refreshed(s.heap[s.list[w]], data, version)]
  {
    s1 := Apply(s, Report(w, data, version));
    s2 := Apply(s1, Act(w));
  }

  lemma TwoSteps(s: State, s1: State, s2: State, a: Step, b: Step)
    requires Enabled(s, a) && s1 == Apply(s, a) && Enabled(s1, b) && s2 == Apply(s1, b)
    ensures IsTrace([s, s1, s2], [a, b])
  {
  }

  lemma TraceConcat(xs: seq<State>, front: seq<Step>, ys: seq<State>, back: seq<Step>)
    requires IsTrace(xs, front) && IsTrace(ys, back) && xs[|front|] == ys[0]
    ensures IsTrace(xs + ys[1..], front + back) && (xs + ys[1..])[|front + back|] == ys[|back|]
  {
    var states, steps := xs + ys[1..], front + back;
    forall i | 0 <= i < |steps|
      ensures Enabled(states[i], steps[i]) && states[i + 1] == Apply(states[i], steps[i])
    {
      if i >= |front| {
        assert states[i] == ys[i - |front|] && states[i + 1] == ys[i - |front| + 1] && steps[i] == back[i - |front|];
      }
    }
  }

  lemma RaisedIsRefreshed(s: State, t: State, w: Name, data: Data, version: int)
    requires Inv(s) && w in s.list && s.list[w] in s.heap && !Replaces(s.heap[s.list[w]], data, version)
    requires t.list == s.list && t.heap == s.heap[s.list[w] := Refreshed(s.heap[s.list[w]], data, version)]
    ensures OnlyRefreshed(s, t, w, data, version)
  {
    NamesApart(s, w);
  }

  lemma ReplacedIsRefreshed(s: State, t: State, w: Name, data: Data, version: int)
    requires Inv(s) && w in s.list && s.list[w] in s.heap && s.next !in s.heap && Replaces(s.heap[s.list[w]], data, version)
    requires t.list == s.list[w := s.next] && t.heap == s.heap[s.next := Obj(w, data, version)]
    ensures OnlyRefreshed(s, t, w, data, version)
  {
    NamesApart(s, w);
  }

  /** In every state of a fresh run, a watcher that is not interrupted does what the report says and touches no other child. */
  lemma AloneRefreshes(s: State, w: Name, data: Data, version: int) returns (states: seq<State>)
    requires Inv(s) && Enabled(s, Report(w, data, version))
    ensures w in s.list && s.list[w] in s.heap
    ensures var steps := StepsOf(w, data, version, Replaces(s.heap[s.list[w]], data, version));
      IsTrace(states, steps) && states[0] == s && OnlyRefreshed(s, states[|steps|], w, data, version)
  {
    var s1, s2 := AloneActs(s, w, data, version);
    TwoSteps(s, s1, s2, Report(w, data, version), Act(w));
    states := [s, s1, s2];
    if Replaces(s.heap[s.list[w]], data, version) {
      NamesApart(s, w);
      var s3 := AloneMerges(s, s2, w);
      var s4 := AloneDrops(s3, w, s.list[w]);
      TwoSteps(s2, s3, s4, Merge(w), Drop(w));
      TraceConcat(states, [Report(w, data, version), Act(w)], [s2, s3, s4], [Merge(w), Drop(w)]);
      states := states + [s2, s3, s4][1..];
      assert [Report(w, data, version), Act(w)] + [Merge(w), Drop(w)] == StepsOf(w, data, version, true);
      ReplacedIsRefreshed(s, s4, w, data, version);
    } else {
      RaisedIsRefreshed(s, s2, w, data, version);
    }
  }

  /** Different children are different revisions. */
  lemma NamesApart(s: State, w: Name)
    requires Inv(s) && w in s.list
    ensures s.list[w] in s.heap && s.heap[s.list[w]].name == w && forall y | y in s.list && y != w :: s.list[y] in s.heap && s.list[y] != s.list[w]
  {
  }

  lemma AloneDrops(t: State, w: Name, gone: Id) returns (u: State)
    requires t.Phase(w) == Dropping(gone) && w in t.list && !SameData(t.heap, t.list[w], gone)
    ensures Enabled(t, Drop(w)) && u == Apply(t, Drop(w)) && u.list == t.list && u.heap == t.heap
  {
    u := Apply(t, Drop(w));
  }

  lemma AloneMerges(s: State, t: State, w: Name) returns (u: State)
    requires w in s.list && t.list == s.list && (forall n | n in s.list :: s.list[n] in t.heap)
    requires t.Phase(w).Merging? && t.Phase(w).given == s.list[w := s.next] && t.Phase(w).previous == Some(s.list[w])
    requires !SameData(t.heap, s.list[w], s.next)
    ensures Enabled(t, Merge(w)) && u == Apply(t, Merge(w))
    ensures u.list == s.list[w := s.next] && u.heap == t.heap && u.Phase(w) == Dropping(s.list[w])
  {
    MergedAtOnce(t.heap, s.list, w, s.next);
    u := Apply(t, Merge(w));
  }

  // ----- How a child is lost -----

  predicate IsTrace(states: seq<State>, steps: seq<Step>) {
    |states| == |steps| + 1 && forall i | 0 <= i < |steps| :: Enabled(states[i], steps[i]) && states[i + 1] == Apply(states[i], steps[i])
  }

  predicate NewData(s: State, x: Name, d: Data, v: int) {
    x in s.list && s.list[x] in s.heap && s.heap[s.list[x]].data != d && s.heap[s.list[x]].version < v
  }

  /** A child whose watcher is about to merge `i` into the copy of the list as it was in `s`. */
  predicate AboutToMerge(s: State, t: State, x: Name, i: Id) {
    x in s.list && t.Phase(x).Merging? && t.Phase(x).given == s.list[x := i] && t.Phase(x).previous == Some(s.list[x])
  }

  /** Both watchers copy the list, and both find new data. */
  lemma BothCopy(s: State, x: Name, y: Name, d: Data, v: int, e: Data, u: int) returns (states: seq<State>, steps: seq<Step>)
    requires Initial(s) && x != y && NewData(s, x, d, v) && NewData(s, y, e, u)
    ensures steps == [Report(x, d, v), Report(y, e, u), Act(x), Act(y)] && IsTrace(states, steps) && states[0] == s
    ensures var t := states[4];
      && t.list == s.list && t.heap == s.heap[s.next := Obj(x, d, v)][s.next + 1 := Obj(y, e, u)]
      && AboutToMerge(s, t, x, s.next) && AboutToMerge(s, t, y, s.next + 1)
  {
    var s1 := Apply(s, Report(x, d, v));
    var s2 := Apply(s1, Report(y, e, u));
    var s3 := Apply(s2, Act(x));
    var s4 := Apply(s3, Act(y));
    states := [s, s1, s2, s3, s4];
    steps := [Report(x, d, v), Report(y, e, u), Act(x), Act(y)];
  }

  /** A merge from a copy of the list as it was: only the merging child and those that changed since are touched. */
  lemma MergedFromCopy(heap: map<Id, Obj>, list: Children, copied: Children, x: Name, y: Name, i: Id, j: Id)
    requires x in copied && y in copied && x != y && list == copied[x := i]
    requires !SameData(heap, i, copied[x]) && !SameData(heap, copied[y], j) && (forall n | n in copied :: copied[n] in heap)
    ensures Merged(heap, list, copied[y := j]) == copied[y := j]
  {
  }

  lemma MergedAtOnce(heap: map<Id, Obj>, copied: Children, x: Name, i: Id)
    requires x in copied && !SameData(heap, copied[x], i) && (forall n | n in copied :: copied[n] in heap)
    ensures Merged(heap, copied, copied[x := i]) == copied[x := i]
  {
  }

  lemma AfterMerge(t: State, x: Name, y: Name)
    requires Enabled(t, Merge(x)) && x != y
    ensures var r := Apply(t, Merge(x));
      && r.list == Merged(t.heap, t.list, t.Phase(x).given) && r.heap == t.heap && r.Phase(y) == t.Phase(y)
      && (t.Phase(x).previous.Some? ==> r.Phase(x) == Dropping(t.Phase(x).previous.value))
  {
  }

  /** Both watchers merge. */
  lemma BothMerge(s: State, t: State, x: Name, y: Name) returns (states: seq<State>)
    requires x != y && x in s.list && y in s.list && t.list == s.list && (forall n | n in s.list :: s.list[n] in t.heap)
    requires !SameData(t.heap, s.list[x], s.next) && !SameData(t.heap, s.list[y], s.next + 1)
    requires AboutToMerge(s, t, x, s.next) && AboutToMerge(s, t, y, s.next + 1)
    ensures IsTrace(states, [Merge(x), Merge(y)]) && states[0] == t
    ensures states[1].list == s.list[x := s.next] && states[1].heap == t.heap
    ensures states[2].list == s.list[y := s.next + 1] && states[2].heap == t.heap && states[2].Phase(x) == Dropping(s.list[x])
  {
    MergedAtOnce(t.heap, s.list, x, s.next);
    AfterMerge(t, x, y);
    var t1 := Apply(t, Merge(x));
    MergedFromCopy(t.heap, t1.list, s.list, x, y, s.next, s.next + 1);
    AfterMerge(t1, y, x);
    states := [t, t1, Apply(t1, Merge(y))];
  }

  /**
    Whenever two children are reported with new data at the same time, both watchers may copy the list before either merges.
    The second merge then brings the first child back to its earlier revision, and the drop of that revision removes the child.
  */
  lemma {:induction false} ChildIsLost(s: State, x: Name, y: Name, d: Data, v: int, e: Data, u: int)
      returns (states: seq<State>, steps: seq<Step>, more: seq<State>)
    requires Initial(s) && x != y && NewData(s, x, d, v) && NewData(s, y, e, u)
    ensures IsTrace(states, steps) && states[0] == s
    ensures IsTrace(more, [Merge(x), Merge(y)]) && more[0] == states[|steps|]
    ensures x in more[1].list && more[1].list[x] in more[1].heap && more[1].heap[more[1].list[x]] == Obj(x, d, v)
    ensures x in more[2].list && more[2].list[x] == s.list[x]
    ensures Enabled(more[2], Drop(x)) && x !in Apply(more[2], Drop(x)).list
  {
    states, steps := BothCopy(s, x, y, d, v, e, u);
    more := BothMerge(s, states[4], x, y);
  }

  // ----- The merge of lists is the merge of names -----

  /** What UpdateChildren leaves under a name: the given revision, unless none is given or the data is the same. */
  lemma {:induction false} MergeByName(existing: seq<Revisions.Rev>, given: seq<Revisions.Rev>, n: Name)
    requires Revisions.Unique(existing) && Revisions.Unique(given)
    requires n in Revisions.Names(existing) + Revisions.Names(given)
    ensures var i, j := Revisions.FindByName(existing, n), Revisions.FindByName(given, n);
      var k := Revisions.FindByName(Revisions.Merge(existing, given), n);
      && k >= 0
      && Revisions.Merge(existing, given)[k]
         == if j == -1 then existing[i]
            else if i >= 0 && existing[i].data == given[j].data then existing[i]
            else given[j]
  {
    Revisions.NoChildLost(existing, given);
    var merged := Revisions.Merge(existing, given);
    var i, j, k := Revisions.FindByName(existing, n), Revisions.FindByName(given, n), Revisions.FindByName(merged, n);
    if j == -1 || (i >= 0 && existing[i].data == given[j].data) {
      Revisions.MergeKeeps(existing, given, existing[i]);
      Revisions.UniqueAt(merged, existing[i], k);
    } else {
      Revisions.GivenAt(existing, given, j);
      Revisions.UniqueAt(merged, given[j], k);
    }
  }
}
