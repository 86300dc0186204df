/**
  Concurrent loading of devices (loadDevice in rw_core/core/device_manager.go).

  Any number of threads ask for any devices. The first one to ask for a device that is neither in memory nor
  being loaded loads it outside the lock; the others leave a channel in the in-progress list and block until that
  channel is closed. Each critical section is one step; threads interleave freely, and agents can be added or
  removed by other operations at any time.
*/
module SingleFlight {

  type Thread = int
  type Chan = int
  type Id = string

  /** Where a thread stands. `loaded` remembers that the load it made, or waited for, succeeded. */
  datatype Pc =
    | Idle
    | Loading(id: Id)
    | Announcing(id: Id, loaded: bool)
    | Waiting(id: Id, ch: Chan)
    | Awake(id: Id, loaded: bool)
    | Done(id: Id, found: bool)

  /**
    `next` is the first unused channel; `good` the channels closed after a successful load and `removed` the devices
    whose agent was removed since their last successful load are history.
  */
  datatype State = State(
    pc: map<Thread, Pc>,
    inProgress: map<Id, seq<Chan>>,
    agents: set<Id>,
    closed: set<Chan>,
    next: Chan,
    good: set<Chan>,
    removed: set<Id>)
  {
    /** A thread that has made no call yet is idle. */
    function Pc(t: Thread): Pc { if t in pc then pc[t] else Idle }

    function Enter(t: Thread, p: Pc): State { this.(pc := pc[t := p]) }
  }

  datatype Step =
    | Call(t: Thread, id: Id)
    | Load(t: Thread, ok: bool)     // read the model, start the agent, add it to the map
    | Announce(t: Thread)
    | Wake(t: Thread)
    | Return(t: Thread)
    | AddAgent(id: Id)              // another operation created the agent
    | RemoveAgent(id: Id)

  predicate Enabled(s: State, st: Step) {
    match st
    case Call(t, _) => s.Pc(t).Idle? || s.Pc(t).Done?
    case Load(t, _) => s.Pc(t).Loading?
    case Announce(t) => s.Pc(t).Announcing?
    case Wake(t) => s.Pc(t).Waiting? && s.Pc(t).ch in s.closed
    case Return(t) => s.Pc(t).Awake?
    case _ => true
  }

  function Apply(s: State, st: Step): State
    requires Enabled(s, st)
  {
    match st
    case Call(t, id) =>
      if id == "" then s.Enter(t, Done(id, false))
      else if id in s.inProgress then
        s.(inProgress := s.inProgress[id := s.inProgress[id] + [s.next]], next := s.next + 1).Enter(t, Waiting(id, s.next))
      else if id in s.agents then s.Enter(t, Awake(id, false))
      else s.(inProgress := s.inProgress[id := [s.next]], next := s.next + 1).Enter(t, Loading(id))
    case Load(t, ok) =>
      var id := s.Pc(t).id;
      (if ok then s.(agents := s.agents + {id}, removed := s.removed - {id}) else s).Enter(t, Announcing(id, ok))
    case Announce(t) =>
      var Announcing(id, ok) := s.Pc(t);
      var chans := if id in s.inProgress then set ch | ch in s.inProgress[id] else {};
      s.(closed := s.closed + chans,
         good := if ok then s.good + chans else s.good,
         inProgress := s.inProgress - {id}).Enter(t, Awake(id, ok))
    case Wake(t) => s.Enter(t, Awake(s.Pc(t).id, s.Pc(t).ch in s.good))
    case Return(t) => s.Enter(t, Done(s.Pc(t).id, s.Pc(t).id in s.agents))
    case AddAgent(id) => s.(agents := s.agents + {id})
    case RemoveAgent(id) => s.(agents := s.agents - {id}, removed := s.removed + {id})
  }

  predicate Loads(p: Pc, id: Id) { (p.Loading? || p.Announcing?) && p.id == id }

  // ----- The invariant -----

  /** Only devices in progress are being loaded, each by one thread. */
  ghost predicate OneLoader(s: State) {
    && (forall t | t in s.pc && (s.pc[t].Loading? || s.pc[t].Announcing?) :: s.pc[t].id in s.inProgress)
    && (forall t, u, id | t in s.pc && u in s.pc && Loads(s.pc[t], id) && Loads(s.pc[u], id) :: t == u)
  }

  /** A device in progress is being loaded. */
  ghost predicate HasLoader(s: State) {
    forall id | id in s.inProgress :: exists t :: t in s.pc && Loads(s.pc[t], id)
  }

  predicate Lists(s: State, id: Id, ch: Chan) { id in s.inProgress && ch in s.inProgress[id] }

  /** Listed channels are open, each listed once, under one device. */
  ghost predicate ChansOk(s: State) {
    && (forall ch | ch in s.closed :: ch < s.next)
    && (forall id, ch | Lists(s, id, ch) :: ch < s.next && ch !in s.closed)
    && (forall id, jd, ch | Lists(s, id, ch) && Lists(s, jd, ch) :: id == jd)
    && (forall id, i, j | id in s.inProgress && 0 <= i < j < |s.inProgress[id]| ::
          s.inProgress[id][i] != s.inProgress[id][j])
    && s.good <= s.closed
  }

  /** A blocked waiter's channel stays listed under its device until it is closed. */
  ghost predicate WaitersListed(s: State) {
    forall t | t in s.pc && s.pc[t].Waiting? ::
      s.pc[t].ch < s.next && (s.pc[t].ch in s.closed || Lists(s, s.pc[t].id, s.pc[t].ch))
  }

  /** Thread state `p` knows of a successful load. */
  predicate KnowsLoaded(s: State, p: Pc) {
    ((p.Announcing? || p.Awake?) && p.loaded) || (p.Waiting? && p.ch in s.good)
  }

  /** Whoever knows that a load succeeded finds the agent in the map, unless it was removed since the last such load. */
  ghost predicate LoadedPresent(s: State) {
    forall t | t in s.pc && KnowsLoaded(s, s.pc[t]) :: s.pc[t].id in s.agents || s.pc[t].id in s.removed
  }

  ghost predicate Inv(s: State) {
    OneLoader(s) && HasLoader(s) && ChansOk(s) && WaitersListed(s) && LoadedPresent(s)
  }

  ghost predicate Initial(s: State) {
    s.pc == map[] && s.inProgress == map[] && s.closed == {} && s.good == {} && s.removed == {}
  }

  lemma OneLoaderStep(s: State, st: Step)
    requires OneLoader(s) && Enabled(s, st)
    ensures OneLoader(Apply(s, st))
  {
    if st.Announce? {
      assert Loads(s.pc[st.t], s.pc[st.t].id);
      assert forall u | u in s.pc && u != st.t :: !Loads(s.pc[u], s.pc[st.t].id);
    }
  }

  lemma HasLoaderStep(s: State, st: Step)
    requires HasLoader(s) && Enabled(s, st)
    ensures HasLoader(Apply(s, st))
  {
    var s' := Apply(s, st);
    forall id | id in s'.inProgress
      ensures exists t :: t in s'.pc && Loads(s'.pc[t], id)
    {
      if id in s.inProgress {
        var t :| t in s.pc && Loads(s.pc[t], id);
        assert Loads(s'.pc[t], id);
      } else {
        assert Loads(s'.pc[st.t], id);
      }
    }
  }

  lemma ChansOkStep(s: State, st: Step)
    requires ChansOk(s) && Enabled(s, st)
    ensures ChansOk(Apply(s, st))
  {
    assert forall id, i | id in s.inProgress && 0 <= i < |s.inProgress[id]| :: Lists(s, id, s.inProgress[id][i]);
    var s' := Apply(s, st);
    assert forall id, ch | Lists(s', id, ch) :: Lists(s, id, ch) || (ch == s.next && st.Call? && id == st.id);
    if st.Announce? {
      assert forall ch | ch in s'.closed && ch !in s.closed :: Lists(s, s.pc[st.t].id, ch);
    }
  }

  lemma WaitersStep(s: State, st: Step)
    requires Inv(s) && Enabled(s, st)
    ensures WaitersListed(Apply(s, st))
  {
  }

  lemma LoadedStep(s: State, st: Step)
    requires Inv(s) && Enabled(s, st)
    ensures LoadedPresent(Apply(s, st))
  {
    if st.Announce? {
      var id := s.Pc(st.t).id;
      assert forall ch | id in s.inProgress && ch in s.inProgress[id] :: Lists(s, id, ch);
    }
  }

  lemma InvStep(s: State, st: Step)
    requires Inv(s) && Enabled(s, st)
    ensures Inv(Apply(s, st))
  {
    OneLoaderStep(s, st);
    HasLoaderStep(s, st);
    ChansOkStep(s, st);
    WaitersStep(s, st);
    LoadedStep(s, st);
  }

  // ----- Runs -----

  predicate IsRun(s: State, steps: seq<Step>)
    decreases |steps|
  {
    steps == [] || (Enabled(s, steps[0]) && IsRun(Apply(s, steps[0]), steps[1..]))
  }

  function Run(s: State, steps: seq<Step>): State
    requires IsRun(s, steps)
    decreases |steps|
  {
    if steps == [] then s else Run(Apply(s, steps[0]), steps[1..])
  }

  lemma {:induction false} InvRun(s: State, steps: seq<Step>)
    requires Inv(s) && IsRun(s, steps)
    ensures Inv(Run(s, steps))
    decreases |steps|
  {
    if steps != [] {
      InvStep(s, steps[0]);
      InvRun(Apply(s, steps[0]), steps[1..]);
    }
  }

  /** In every reachable state at most one thread loads a device, and no channel would be closed twice. */
  lemma SingleLoader(s: State, steps: seq<Step>, t: Thread, u: Thread, id: Id)
    requires Initial(s) && IsRun(s, steps)
    requires Loads(Run(s, steps).Pc(t), id)
    ensures Loads(Run(s, steps).Pc(u), id) ==> t == u
    ensures var r := Run(s, steps);
            && id in r.inProgress
            && (forall i | 0 <= i < |r.inProgress[id]| :: r.inProgress[id][i] !in r.closed)
            && (forall i, j | 0 <= i < j < |r.inProgress[id]| :: r.inProgress[id][i] != r.inProgress[id][j])
  {
    InvRun(s, steps);
    var r := Run(s, steps);
    assert forall i | 0 <= i < |r.inProgress[id]| :: Lists(r, id, r.inProgress[id][i]);
  }

  /** A thread that wakes after a successful load finds the agent in the map, unless it was removed since the last successful load. */
  lemma LoadedBeforeWake(s: State, steps: seq<Step>, t: Thread)
    requires Initial(s) && IsRun(s, steps)
    requires var p := Run(s, steps).Pc(t); p.Awake? && p.loaded
    ensures var r := Run(s, steps); r.Pc(t).id in r.agents || r.Pc(t).id in r.removed
  {
    InvRun(s, steps);
  }

  lemma RunTwo(s: State, a: Step, b: Step)
    requires Enabled(s, a) && Enabled(Apply(s, a), b)
    ensures IsRun(s, [a, b]) && Run(s, [a, b]) == Apply(Apply(s, a), b)
  {
    assert [a, b][1..] == [b] && [b][1..] == [];
    assert Run(Apply(s, a), [b]) == Apply(Apply(s, a), b);
  }

  /**
    No wakeup is lost: a blocked waiter's channel is listed under its device, and the thread that loads the device
    can always go on, whatever its load returns, to close that channel.
  */
  lemma NoLostWakeup(s: State, steps: seq<Step>, t: Thread, ok: bool) returns (more: seq<Step>)
    requires Initial(s) && IsRun(s, steps)
    requires Run(s, steps).Pc(t).Waiting?
    ensures var r := Run(s, steps);
            && (r.Pc(t).ch in r.closed || Lists(r, r.Pc(t).id, r.Pc(t).ch))
            && IsRun(r, more)
            && Run(r, more).Pc(t) == r.Pc(t) && Enabled(Run(r, more), Wake(t))
            && |more| <= 2
            && (ok && r.Pc(t).ch !in r.closed && (exists u :: r.Pc(u) == Loading(r.Pc(t).id)) ==> r.Pc(t).id in Run(r, more).agents)
  {
    InvRun(s, steps);
    var r := Run(s, steps);
    more := [];
    if r.Pc(t).ch !in r.closed {
      var id := r.pc[t].id;
      var u :| u in r.pc && Loads(r.pc[u], id);
      assert forall v | v in r.pc && Loads(r.pc[v], id) :: v == u;
      if r.pc[u].Loading? {
        more := [Load(u, ok), Announce(u)];
        RunTwo(r, Load(u, ok), Announce(u));
      } else {
        more := [Announce(u)];
        assert more[1..] == [];
      }
    }
  }

  lemma {:induction false} RunMore(s: State, steps: seq<Step>, st: Step)
    requires IsRun(s, steps) && Enabled(Run(s, steps), st)
    ensures IsRun(s, steps + [st]) && Run(s, steps + [st]) == Apply(Run(s, steps), st)
    decreases |steps|
  {
    if steps == [] {
      assert steps + [st] == [st] && [st][1..] == [];
    } else {
      assert (steps + [st])[1..] == steps[1..] + [st];
      RunMore(Apply(s, steps[0]), steps[1..], st);
    }
  }

  /** A thread starts a load only if the device is neither in memory nor being loaded, and has an id. */
  lemma LoadsOnlyIfMissing(s: State, st: Step, t: Thread, id: Id)
    requires Enabled(s, st) && Loads(Apply(s, st).Pc(t), id) && !Loads(s.Pc(t), id)
    ensures st == Call(t, id) && id != "" && id !in s.agents && id !in s.inProgress
  {
  }

  /** Agents come by successful loads or by other operations, and go by other operations only. */
  lemma AgentsChange(s: State, st: Step, id: Id)
    requires Enabled(s, st)
    ensures id in Apply(s, st).agents && id !in s.agents ==>
      st == AddAgent(id) || (st.Load? && st.ok && s.Pc(st.t) == Loading(id))
    ensures id !in Apply(s, st).agents && id in s.agents ==> st == RemoveAgent(id)
    ensures st == AddAgent(id) || (st.Load? && st.ok && s.Pc(st.t).id == id) ==> id in Apply(s, st).agents
    ensures st == RemoveAgent(id) ==> id !in Apply(s, st).agents
  {
  }

  /** A call for a device in memory that is not being loaded needs no load, and one without an id is turned down. */
  lemma CallsAnsweredAtOnce(s: State, t: Thread, id: Id)
    requires Enabled(s, Call(t, id))
    ensures id == "" ==> Apply(s, Call(t, id)).Pc(t) == Done(id, false)
    ensures id != "" && id in s.agents && id !in s.inProgress ==>
      var u := Apply(s, Call(t, id)); Enabled(u, Return(t)) && Apply(u, Return(t)).Pc(t) == Done(id, true) && u.inProgress == s.inProgress
  {
  }

  /**
    The answer is right: a call that returns in a reachable state says whether the agent is in the map then, and says yes
    if the load it made, or waited for, succeeded and the agent was not removed since.
  */
  lemma AnswerIsRight(s: State, steps: seq<Step>, t: Thread)
    requires Initial(s) && IsRun(s, steps) && Run(s, steps).Pc(t).Awake?
    ensures var r := Run(s, steps);
      && Enabled(r, Return(t))
      && Apply(r, Return(t)).Pc(t).Done? && Apply(r, Return(t)).Pc(t).id == r.Pc(t).id
      && (Apply(r, Return(t)).Pc(t).found <==> r.Pc(t).id in r.agents)
      && (r.Pc(t).loaded && r.Pc(t).id !in r.removed ==> Apply(r, Return(t)).Pc(t).found)
  {
    InvRun(s, steps);
  }

  /** A thread that waits for a load that succeeds wakes knowing it. */
  lemma WakesKnowing(s: State, steps: seq<Step>, t: Thread, u: Thread)
    requires Initial(s) && IsRun(s, steps)
    requires var r := Run(s, steps); r.Pc(t).Waiting? && r.Pc(t).ch !in r.closed && r.Pc(u) == Announcing(r.Pc(t).id, true)
    ensures var v := Apply(Run(s, steps), Announce(u));
      Enabled(v, Wake(t)) && Apply(v, Wake(t)).Pc(t) == Awake(Run(s, steps).Pc(t).id, true)
  {
    InvRun(s, steps);
    var r := Run(s, steps);
    assert Lists(r, r.pc[t].id, r.pc[t].ch);
  }

  /** Steps by which a thread that is past waiting comes to its answer. */
  lemma Answers(r: State, t: Thread, ok: bool) returns (more: seq<Step>)
    requires r.Pc(t).Loading? || r.Pc(t).Announcing? || r.Pc(t).Awake?
    ensures IsRun(r, more) && |more| <= 3
    ensures Run(r, more).Pc(t) == Done(r.Pc(t).id, r.Pc(t).id in Run(r, more).agents)
    ensures r.Pc(t).Loading? && ok ==> Run(r, more).Pc(t).found
  {
    more := [];
    if r.Pc(t).Loading? {
      RunMore(r, more, Load(t, ok));
      more := more + [Load(t, ok)];
    }
    if Run(r, more).Pc(t).Announcing? {
      RunMore(r, more, Announce(t));
      more := more + [Announce(t)];
    }
    RunMore(r, more, Return(t));
    more := more + [Return(t)];
  }

  /** Every call that is under way in a reachable state can come to an answer in at most four steps. */
  lemma EveryCallReturns(s: State, steps: seq<Step>, t: Thread, ok: bool) returns (more: seq<Step>)
    requires Initial(s) && IsRun(s, steps)
    requires !Run(s, steps).Pc(t).Idle? && !Run(s, steps).Pc(t).Done?
    ensures var r := Run(s, steps);
      && IsRun(r, more) && |more| <= 4
      && Run(r, more).Pc(t) == Done(r.Pc(t).id, r.Pc(t).id in Run(r, more).agents)
      && (ok && r.Pc(t).Loading? ==> Run(r, more).Pc(t).found)
      && (ok && r.Pc(t).Waiting? && r.Pc(t).ch !in r.closed && (exists u :: r.Pc(u) == Loading(r.Pc(t).id)) ==> Run(r, more).Pc(t).found)
  {
    var r := Run(s, steps);
    if r.Pc(t).Waiting? {
      more := NoLostWakeup(s, steps, t, ok);
      RunMore(r, more, Wake(t));
      more := more + [Wake(t)];
      RunMore(r, more, Return(t));
      more := more + [Return(t)];
    } else {
      more := Answers(r, t, ok);
    }
  }
}
