/**
  What the two-core protocol is for: a request that was served is recognised as such by the other core, and a request whose
  core crashed is served by the survivor.
*/
module Progress {
  import opened Transaction

  // ----- After a completion mark -----

  /** A step of `c` in which the store answers and no timer ends a watch that has seen nothing. */
  predicate Attentive(s: State, c: Core, st: Step) {
    !st.Expire? && st.c == c && !st.Crash? && !st.GetFails? && !(st.Timeout? && s.At(c).phase == Watching(false))
  }

  predicate AttentiveRun(s: State, c: Core, steps: seq<Step>)
    decreases |steps|
  {
    steps == [] || (Attentive(s, c, steps[0]) && Enabled(s, steps[0]) && AttentiveRun(Apply(s, steps[0]), c, steps[1..]))
  }

  /** `o` closed the request with a mark, and `c`, which lives on, has taken notice of it or will. */
  predicate Marked(s: State, c: Core, o: Core) {
    && o == Other(c) && s.At(c).alive && s.At(o).alive && s.At(o).phase == Closed(true) && !Executing(s.At(c).phase)
    && (if s.key.Held? then s.key == Held(Complete, o) && (s.At(c).phase.Watching? ==> Decide(s.At(c).events) == WillComplete)
        else s.At(c).phase.NotAcquired?)
  }

  lemma CloseMarks(s: State, steps: seq<Step>, o: Core)
    requires Initial(s) && CarefulRun(s, steps)
    requires var t := Run(s, steps); t.At(o).alive && t.At(Other(o)).alive && t.At(o).phase == Serving(true)
    ensures Enabled(Run(s, steps), Close(o)) && Marked(Apply(Run(s, steps), Close(o)), Other(o), o)
  {
    InvInitial(s);
    InvRun(s, steps);
    DecideAppend(Run(s, steps).At(Other(o)).events, Put(Complete));
  }

  lemma MarkedStep(s: State, c: Core, o: Core, st: Step)
    requires Marked(s, c, o) && Enabled(s, st) && Attentive(s, c, st)
    ensures Careful(s, st) && Marked(Apply(s, st), c, o)
  {
  }

  lemma {:induction false} MarkedRun(s: State, c: Core, o: Core, steps: seq<Step>)
    requires Marked(s, c, o) && AttentiveRun(s, c, steps)
    ensures CarefulRun(s, steps) && Marked(Run(s, steps), c, o)
    decreases |steps|
  {
    if steps != [] {
      MarkedStep(s, c, o, steps[0]);
      MarkedRun(Apply(s, steps[0]), c, o, steps[1..]);
    }
  }

  /** The core has neither come to an end nor given up. */
  predicate Learning(p: Phase) { Pending(p) || p.Deleting? }

  /** What a core does next to learn that the request was served. */
  function NextToLearn(cs: CoreState, c: Core): Step {
    match cs.phase
    case Start => if cs.reserves then Reserve(c) else WatchOnly(c)
    case Denied => Register(c)
    case Registered => Get(c)
    case Deleting => DeleteKey(c)
    case _ => Deliver(c)
  }

  function Stage(p: Phase): nat {
    match p
    case Start => 5
    case Denied => 4
    case Registered => 3
    case Watching(_) => 2
    case Deleting => 1
    case _ => 0
  }

  /** By its own steps a core that has not finished learns of the mark, and removes it. */
  lemma {:induction false} Learns(s: State, c: Core, o: Core) returns (steps: seq<Step>)
    requires Marked(s, c, o) && Learning(s.At(c).phase)
    ensures AttentiveRun(s, c, steps) && CarefulRun(s, steps)
    ensures Run(s, steps).At(c).phase == NotAcquired && Run(s, steps).key == Absent
    decreases Stage(s.At(c).phase), |s.At(c).events|
  {
    var st := NextToLearn(s.At(c), c);
    MarkedStep(s, c, o, st);
    var t, rest := Apply(s, st), [];
    if Learning(t.At(c).phase) {
      rest := Learns(t, c, o);
    }
    steps := [st] + rest;
    assert steps[1..] == rest;
  }

  /**
    After every careful run in which a core with a live peer closes the request, the completion mark is under the key.
    However the peer goes on by its own steps, it never executes the request, and from wherever it stands, short of
    having given up, its own steps take it to the end without the request and remove the mark.
  */
  lemma CompletionIsSeen(s: State, steps: seq<Step>, o: Core, more: seq<Step>) returns (rest: seq<Step>)
    requires Initial(s) && CarefulRun(s, steps)
    requires var t := Run(s, steps); t.At(o).alive && t.At(Other(o)).alive && t.At(o).phase == Serving(true)
    requires Enabled(Run(s, steps), Close(o)) && AttentiveRun(Apply(Run(s, steps), Close(o)), Other(o), more)
    ensures Apply(Run(s, steps), Close(o)).key == Held(Complete, o)
    ensures CarefulRun(Apply(Run(s, steps), Close(o)), more)
    ensures var u := Run(Apply(Run(s, steps), Close(o)), more);
      && !Executing(u.At(Other(o)).phase)
      && (Learning(u.At(Other(o)).phase) ==>
            && AttentiveRun(u, Other(o), rest) && CarefulRun(u, rest)
            && Run(u, rest).At(Other(o)).phase == NotAcquired && Run(u, rest).key == Absent)
  {
    CloseMarks(s, steps, o);
    var t := Apply(Run(s, steps), Close(o));
    MarkedRun(t, Other(o), o, more);
    rest := [];
    if Learning(Run(t, more).At(Other(o)).phase) {
      rest := Learns(Run(t, more), Other(o), o);
    }
  }

  /** The exception is real: a timer that fires before the watch has seen anything makes the peer execute a served request. */
  lemma UnseenMarkRepeats(s: State)
    requires Initial(s) && s.a.reserves
    ensures var t := Apply(Apply(Apply(s, WatchOnly(B)), Register(B)), Get(B));
            var u := Apply(Apply(t, Reserve(A)), Close(A));
            && u.key == Held(Complete, A) && u.b.events == [Put(OwnedBy(A)), Put(Complete)]
            && Enabled(u, Timeout(B)) && !Careful(u, Timeout(B)) && !Safe(Apply(u, Timeout(B)))
  {
  }

  // ----- What watchers hear -----

  /** While the key is absent, a watcher has a deletion or a mark in its queue, or has seen and will see nothing. */
  predicate Heard(cs: CoreState, key: Key) {
    Listening(cs.phase) && key.Absent? ==> Decide(cs.events) != Undecided || (cs.events == [] && cs.phase != Watching(true))
  }

  /** While the key is held, a watcher that has seen nothing has something in its queue. */
  predicate Informed(cs: CoreState, key: Key) { cs.phase == Watching(false) && key.Held? ==> cs.events != [] }

  lemma HeardMove(v: View, st: Step)
    requires CanMove(v, st) && Heard(v.me, v.key) && Heard(v.peer, v.key)
    ensures Heard(Move(v, st).me, Move(v, st).key) && Heard(Move(v, st).peer, Move(v, st).key)
  {
    DecideAppend(v.me.events, Deleted);
    DecideAppend(v.peer.events, Deleted);
  }

  lemma InformedMove(v: View, st: Step)
    requires CanMove(v, st) && !st.GetFails? && Informed(v.me, v.key) && Informed(v.peer, v.key)
    ensures Informed(Move(v, st).me, Move(v, st).key) && Informed(Move(v, st).peer, Move(v, st).key)
  {
  }

  lemma {:induction false} HeardRun(s: State, steps: seq<Step>)
    requires CarefulRun(s, steps) && Heard(s.a, s.key) && Heard(s.b, s.key)
    ensures var t := Run(s, steps); Heard(t.a, t.key) && Heard(t.b, t.key)
    decreases |steps|
  {
    if steps != [] {
      HeardMove(s.Seen(Actor(s, steps[0])), steps[0]);
      HeardRun(Apply(s, steps[0]), steps[1..]);
    }
  }

  predicate StoreAnswers(steps: seq<Step>) { forall i | 0 <= i < |steps| :: !steps[i].GetFails? }

  lemma {:induction false} InformedRun(s: State, steps: seq<Step>)
    requires CarefulRun(s, steps) && StoreAnswers(steps) && Informed(s.a, s.key) && Informed(s.b, s.key)
    ensures var t := Run(s, steps); Informed(t.a, t.key) && Informed(t.b, t.key)
    decreases |steps|
  {
    if steps != [] {
      InformedMove(s.Seen(Actor(s, steps[0])), steps[0]);
      InformedRun(Apply(s, steps[0]), steps[1..]);
    }
  }

  /**
    As long as the store answers, a watcher that has taken in all its events acts on its timer only if the key is absent:
    nobody has reserved the request.
  */
  lemma IdleTimerMeansNoOwner(s: State, steps: seq<Step>, c: Core)
    requires Initial(s) && CarefulRun(s, steps) && StoreAnswers(steps)
    requires var t := Run(s, steps); t.At(c).alive && t.At(c).phase.Watching? && t.At(c).events == []
    ensures var t := Run(s, steps); t.key.Held? ==> Apply(t, Timeout(c)) == t
  {
    InformedRun(s, steps);
  }

  // ----- After a crash -----

  /** What a core does next when its peer is dead; the lease of the peer runs out in time. */
  function NextToFinish(s: State, c: Core): Step {
    if s.At(c).phase.Watching? && s.At(c).events == [] then if s.key.Held? then Expire else Timeout(c)
    else NextToLearn(s.At(c), c)
  }

  predicate Finished(s: State, c: Core) { Executing(s.At(c).phase) || s.At(c).phase.NotAcquired? }

  predicate Alone(s: State, c: Core) { s.At(c).alive && !s.At(Other(c)).alive && Heard(s.At(c), s.key) && Heard(s.At(Other(c)), s.key) }

  predicate Closer(s: State, t: State, c: Core) {
    || Stage(t.At(c).phase) < Stage(s.At(c).phase)
    || (t.At(c).phase.Watching? && s.At(c).phase.Watching? && s.key.Held? && t.key.Absent?)
    || (t.At(c).phase.Watching? && s.At(c).phase.Watching? && s.key == t.key && |t.At(c).events| < |s.At(c).events|)
  }

  lemma FinishStep(s: State, c: Core)
    requires Alone(s, c) && Learning(s.At(c).phase)
    ensures var st := NextToFinish(s, c);
      && Enabled(s, st) && Careful(s, st) && Alone(Apply(s, st), c)
      && (Finished(Apply(s, st), c) || (Learning(Apply(s, st).At(c).phase) && Closer(s, Apply(s, st), c)))
  {
    var st := NextToFinish(s, c);
    HeardMove(s.Seen(Actor(s, st)), st);
  }

  lemma {:induction false} Finishes(s: State, c: Core) returns (steps: seq<Step>)
    requires Alone(s, c) && Learning(s.At(c).phase)
    ensures CarefulRun(s, steps) && Finished(Run(s, steps), c)
    ensures forall i | 0 <= i < |steps| :: steps[i].Expire? || (!steps[i].Crash? && steps[i].c == c)
    decreases Stage(s.At(c).phase), if s.key.Held? then 1 else 0, |s.At(c).events|
  {
    var st := NextToFinish(s, c);
    FinishStep(s, c);
    var t, rest := Apply(s, st), [];
    if !Finished(t, c) {
      rest := Finishes(t, c);
    }
    steps := [st] + rest;
    assert steps[1..] == rest;
  }

  /**
    No request is lost: wherever in a careful run a core crashes, a live peer that has not finished can go on, by its own
    steps and the expiry of the lease, until it executes the request or the crashed core turns out to have completed it.
  */
  lemma SurvivorFinishes(s: State, steps: seq<Step>, c: Core) returns (more: seq<Step>)
    requires Initial(s) && CarefulRun(s, steps)
    requires var t := Run(s, steps); t.At(c).alive && !t.At(Other(c)).alive && Learning(t.At(c).phase)
    ensures var t := Run(s, steps);
      && CarefulRun(t, more)
      && (forall i | 0 <= i < |more| :: more[i].Expire? || (!more[i].Crash? && more[i].c == c))
      && (Executing(Run(t, more).At(c).phase) || (Run(t, more).At(c).phase.NotAcquired? && t.At(Other(c)).phase == Closed(true)))
  {
    HeardRun(s, steps);
    InvInitial(s);
    InvRun(s, steps);
    more := Finishes(Run(s, steps), c);
    InvRun(Run(s, steps), more);
    PeerStays(Run(s, steps), more, c);
  }

  lemma {:induction false} PeerStays(s: State, steps: seq<Step>, c: Core)
    requires CarefulRun(s, steps) && forall i | 0 <= i < |steps| :: steps[i].Expire? || steps[i].c == c
    ensures Run(s, steps).At(Other(c)).phase == s.At(Other(c)).phase
    decreases |steps|
  {
    if steps != [] {
      PeerStays(Apply(s, steps[0]), steps[1..], c);
    }
  }

  /** A core that crashed takes no further step, whatever happens. */
  lemma {:induction false} CrashIsFinal(s: State, c: Core, steps: seq<Step>)
    requires Enabled(s, Crash(c)) && CarefulRun(Apply(s, Crash(c)), steps)
    ensures var t := Run(Apply(s, Crash(c)), steps); !t.At(c).alive && t.At(c).phase == s.At(c).phase
  {
    DeadStays(Apply(s, Crash(c)), c, steps);
  }

  lemma {:induction false} DeadStays(s: State, c: Core, steps: seq<Step>)
    requires !s.At(c).alive && CarefulRun(s, steps)
    ensures !Run(s, steps).At(c).alive && Run(s, steps).At(c).phase == s.At(c).phase
    decreases |steps|
  {
    if steps != [] {
      DeadStays(Apply(s, steps[0]), c, steps[1..]);
    }
  }
}
