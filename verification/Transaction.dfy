/**
  The two-core transaction protocol (rw_core/core/transaction.go).

  Two cores receive the same request and race on one key of a KV store. The winner serves the request
  and closes it by writing a completion mark; the loser watches the key, and takes the request over when the
  key disappears or was never created. The protocol is a step system: any interleaving of the cores' KV
  operations, of watch deliveries, of timers, of crashes and of lease expiry is a run.

  Assumed of the store: Reserve, Get, Put and Delete are atomic, and a watch delivers every change made after
  its registration, in order.
*/
module Transaction {

  datatype Core = A | B

  function Other(c: Core): Core { if c == A then B else A }

  /** The text stored under the transaction key. */
  datatype Value = OwnedBy(core: Core) | Complete

  /** The transaction key: `lease` is the core whose lease the stored value hangs on. */
  datatype Key = Absent | Held(value: Value, lease: Core)

  datatype Event = Put(value: Value) | Deleted

  /** Where a core stands in the handling of the request; `seized` tells a reservation from a takeover. */
  datatype Phase =
    | Start
    | Denied
    | Registered
    | Watching(acquiredByOther: bool)
    | Deleting
    | NotAcquired
    | GaveUp
    | Serving(seized: bool)
    | Closed(seized: bool)

  /** `reserves` is true for a generic request and for a core that owns the resource of the request. */
  datatype CoreState = CoreState(alive: bool, reserves: bool, phase: Phase, events: seq<Event>) {
    function Notified(e: Event): CoreState {
      if Listening(phase) then this.(events := events + [e]) else this
    }
  }

  datatype State = State(a: CoreState, b: CoreState, key: Key) {
    function At(c: Core): CoreState { if c == A then a else b }

    function Seen(c: Core): View { View(At(c), At(Other(c)), key) }
  }

  /** The state as one core sees it. */
  datatype View = View(me: CoreState, peer: CoreState, key: Key) {
    function Enter(p: Phase): View { this.(me := me.(phase := p)) }

    /** The store changes the key and queues the event for every registered watch. */
    function Write(k: Key, e: Event): View { View(me.Notified(e), peer.Notified(e), k) }

    function Whole(c: Core): State {
      if c == A then State(me, peer, key) else State(peer, me, key)
    }
  }

  // ----- The select loop of Watch -----

  /** `Garbled` is a PUT of another key, one that cannot be read, or an event that is neither PUT nor DELETE. */
  datatype Input = Arrived(event: Event) | Garbled | TimerFired

  /** What the initial Get finds: an error counts as nothing. */
  datatype Found = Nothing | Readable(value: Value) | Unreadable

  datatype Verdict = Continue(acquiredByOther: bool) | CompletedByOther | AbandonedByOther | AbandonedWatchBySelf | Unknown

  /** One turn of the select statement in Watch. */
  function Select(acquiredByOther: bool, i: Input): Verdict {
    match i
    case Arrived(Deleted) => AbandonedByOther
    case Arrived(Put(Complete)) => CompletedByOther
    case Arrived(Put(OwnedBy(_))) => Continue(true)
    case Garbled => Unknown
    case TimerFired => if acquiredByOther then Continue(true) else AbandonedByOther
  }

  /** Input `i` leaves the watcher waiting: news of an owner, or a timer once the transaction is known to exist. */
  predicate Ignored(known: bool, inputs: seq<Input>, i: nat)
    requires i < |inputs|
  {
    match inputs[i]
    case Arrived(Put(OwnedBy(_))) => true
    case TimerFired => known || exists j | 0 <= j < i :: inputs[j].Arrived?
    case _ => false
  }

  /**
    Watch after its registration: `found` is what the initial Get finds, `inputs` what the select statement receives.
    `used` inputs are consumed; `deletes` says whether the key is removed.
  */
  method Watch(found: Found, inputs: seq<Input>) returns (verdict: Verdict, used: nat, deletes: bool)
    ensures used <= |inputs|
    ensures deletes <==> verdict == CompletedByOther
    ensures found == Unreadable <==> verdict == AbandonedWatchBySelf
    ensures found == Readable(Complete) || found == Unreadable ==> verdict in {CompletedByOther, AbandonedWatchBySelf} && used == 0
    ensures found != Readable(Complete) && found != Unreadable ==>
              && (forall i: nat | i < used && (i < used - 1 || verdict.Continue?) :: Ignored(found.Readable?, inputs, i))
              && (verdict.Continue? ==> used == |inputs|)
              && (!verdict.Continue? ==> used > 0 && !Ignored(found.Readable?, inputs, used - 1))
              && (used > 0 && inputs[used - 1] == Arrived(Put(Complete)) <==> verdict == CompletedByOther)
              && (used > 0 && inputs[used - 1] == Garbled <==> verdict == Unknown)
  {
    used := 0;
    if found.Readable? && found.value == Complete {
      return CompletedByOther, 0, true;
    }
    if found.Unreadable? {
      return AbandonedWatchBySelf, 0, false;
    }
    var acquiredByOther := found.Readable?;
    verdict := Continue(acquiredByOther);
    while used < |inputs| && verdict.Continue?
      invariant used <= |inputs|
      invariant forall i: nat | i < used && (i < used - 1 || verdict.Continue?) :: Ignored(found.Readable?, inputs, i)
      invariant acquiredByOther <==> found.Readable? || exists j | 0 <= j < used :: inputs[j].Arrived?
      invariant !verdict.Continue? ==> used > 0 && !Ignored(found.Readable?, inputs, used - 1)
      invariant used > 0 && inputs[used - 1] == Arrived(Put(Complete)) <==> verdict == CompletedByOther
      invariant used > 0 && inputs[used - 1] == Garbled <==> verdict == Unknown
      invariant verdict != AbandonedWatchBySelf
    {
      verdict := Select(acquiredByOther, inputs[used]);
      acquiredByOther := acquiredByOther || inputs[used].Arrived?;
      used := used + 1;
    }
    deletes := verdict == CompletedByOther;
  }

  // ----- The step system -----

  datatype Step =
    | Reserve(c: Core)        // tryToReserveTxn, with the outcome the store gives it
    | WatchOnly(c: Core)      // the resource is not owned, or Reserve returned an error
    | Register(c: Core)
    | Get(c: Core)
    | GetFails(c: Core)       // the error of Get is dropped and the key counts as absent
    | Misread(c: Core)        // the watch ends over something that cannot be read
    | Deliver(c: Core)
    | Timeout(c: Core)
    | DeleteKey(c: Core)
    | DeleteFails(c: Core)
    | Close(c: Core)
    | CloseFails(c: Core)     // the completion mark could not be written
    | Crash(c: Core)
    | Expire                  // the lease behind the key runs out

  predicate Listening(p: Phase) { p.Registered? || p.Watching? }

  predicate Executing(p: Phase) { p.Serving? || p.Closed? }

  predicate Seized(p: Phase) { Executing(p) && p.seized }

  predicate Pending(p: Phase) { p.Start? || p.Denied? || Listening(p) }

  /** The core that takes the step; a lease runs out on its holder. */
  function Actor(s: State, st: Step): Core {
    if !st.Expire? then st.c else if s.key.Held? then s.key.lease else A
  }

  predicate Enabled(s: State, st: Step) {
    CanMove(s.Seen(Actor(s, st)), st)
  }

  predicate CanMove(v: View, st: Step) {
    if st.Expire? then v.key.Held?
    else
      v.me.alive &&
      match st
      case Reserve(_) => v.me.phase.Start? && v.me.reserves
      case WatchOnly(_) => v.me.phase.Start?
      case Register(_) => v.me.phase.Denied?
      case Get(_) | GetFails(_) => v.me.phase.Registered?
      case Misread(_) => Listening(v.me.phase)
      case Deliver(_) => v.me.phase.Watching? && v.me.events != []
      case Timeout(_) => v.me.phase.Watching?
      case DeleteKey(_) | DeleteFails(_) => v.me.phase.Deleting?
      case Close(_) => v.me.phase.Serving?
      case CloseFails(_) => v.me.phase == Serving(true)
      case Crash(_) => true
  }

  function Decided(v: View, verdict: Verdict): View {
    match verdict
    case Continue(known) => v.Enter(Watching(known))
    case CompletedByOther => v.Enter(Deleting)
    case AbandonedByOther => v.Enter(Serving(false))
    case AbandonedWatchBySelf | Unknown => v.Enter(GaveUp)
  }

  function Move(v: View, st: Step): View
    requires CanMove(v, st)
  {
    match st
    case Reserve(c) =>
      if v.key.Absent? then v.Write(Held(OwnedBy(c), c), Put(OwnedBy(c))).Enter(Serving(true))
      else if v.key.value == OwnedBy(c) then v.Enter(Serving(true))
      else v.Enter(Denied)
    case WatchOnly(_) => v.Enter(Denied)
    case Register(_) => v.(me := v.me.(phase := Registered, events := []))
    case Get(_) =>
      if v.key.Held? && v.key.value == Complete then v.Enter(Deleting) else v.Enter(Watching(v.key.Held?))
    case GetFails(_) => v.Enter(Watching(false))
    case Misread(_) => v.Enter(GaveUp)
    case Deliver(_) =>
      Decided(v.(me := v.me.(events := v.me.events[1..])), Select(v.me.phase.acquiredByOther, Arrived(v.me.events[0])))
    case Timeout(_) => Decided(v, Select(v.me.phase.acquiredByOther, TimerFired))
    case DeleteKey(_) => (if v.key.Held? then v.Write(Absent, Deleted) else v).Enter(NotAcquired)
    case DeleteFails(_) => v.Enter(NotAcquired)
    case Close(c) =>
      if v.me.phase.seized then v.Write(Held(Complete, c), Put(Complete)).Enter(Closed(true)) else v.Enter(Closed(false))
    case CloseFails(_) => v.Enter(Closed(true))
    case Crash(_) => v.(me := v.me.(alive := false))
    case Expire => v.Write(Absent, Deleted)
  }

  function Apply(s: State, st: Step): State
    requires Enabled(s, st)
  {
    Move(s.Seen(Actor(s, st)), st).Whole(Actor(s, st))
  }

  predicate Initial(s: State) {
    && s.key.Absent?
    && s.a.alive && s.a.phase.Start? && s.a.events == []
    && s.b.alive && s.b.phase.Start? && s.b.events == []
  }

  /** At most one live core executes the request. */
  predicate Safe(s: State) {
    !(s.a.alive && s.b.alive && Executing(s.a.phase) && Executing(s.b.phase))
  }

  // ----- When a step is careful -----

  datatype Outlook = Undecided | WillComplete | WillAbandon

  /** What a watcher concludes from a queue of events: the first completion mark or deletion decides. */
  function Decide(events: seq<Event>): Outlook {
    if events == [] then Undecided
    else match events[0]
      case Put(Complete) => WillComplete
      case Deleted => WillAbandon
      case _ => Decide(events[1..])
  }

  /** Losing the key now would make a live core in state `cs` execute the request. */
  predicate Exposed(cs: CoreState) {
    (cs.phase.Start? && cs.reserves) || (Listening(cs.phase) && Decide(cs.events) != WillComplete)
  }

  /**
    A timer may end a watch only when the peer is dead, or is neither executing nor about to reserve; a lease may
    run out only when its holder is dead, or the peer is dead, or the peer is not exposed.
  */
  predicate Careful(s: State, st: Step)
    requires Enabled(s, st)
  {
    CarefulMove(s.Seen(Actor(s, st)), st)
  }

  predicate CarefulMove(v: View, st: Step)
    requires CanMove(v, st)
  {
    match st
    case Timeout(_) =>
      v.me.phase.acquiredByOther || !(v.peer.alive && (Executing(v.peer.phase) || (v.peer.phase.Start? && v.peer.reserves)))
    case Expire => !(v.me.alive && v.peer.alive && Exposed(v.peer))
    case _ => true
  }

  predicate CarefulRun(s: State, steps: seq<Step>)
    decreases |steps|
  {
    steps == [] || (Enabled(s, steps[0]) && Careful(s, steps[0]) && CarefulRun(Apply(s, steps[0]), steps[1..]))
  }

  function Run(s: State, steps: seq<Step>): State
    requires CarefulRun(s, steps)
    decreases |steps|
  {
    if steps == [] then s else Run(Apply(s, steps[0]), steps[1..])
  }

  predicate KeyOk(c: Core, v: View) {
    v.key.Held? ==>
      var holder := if v.key.lease == c then v.me else v.peer;
      && Seized(holder.phase)
      && (v.key.value == Complete ==> holder.phase.Closed?)
      && (v.key.value != Complete ==> v.key.value == OwnedBy(v.key.lease))
  }

  /** What is true of core `c` when its peer is `o`, in every state a careful run reaches. */
  predicate PairOk(c: CoreState, o: CoreState, key: Key) {
    && (c.phase.Deleting? || c.phase.NotAcquired? ==> o.phase == Closed(true))
    && (Listening(c.phase) && Decide(c.events) == WillComplete ==> o.phase == Closed(true))
    && (c.alive && o.alive ==>
          && (Executing(c.phase) ==> !Executing(o.phase))
          && (c.phase.Start? && c.reserves && Seized(o.phase) ==> key.Held?)
          && (Executing(c.phase) && !c.phase.seized ==> !(o.phase.Start? && o.reserves))
          && (Listening(c.phase) ==> Decide(c.events) != WillAbandon))
  }

  predicate InvSeen(c: Core, v: View) { KeyOk(c, v) && PairOk(v.me, v.peer, v.key) && PairOk(v.peer, v.me, v.key) }

  predicate Inv(s: State) { InvSeen(A, s.Seen(A)) }

  lemma {:induction false} DecideAppend(events: seq<Event>, e: Event)
    ensures Decide(events + [e]) == if Decide(events) != Undecided then Decide(events) else Decide([e])
  {
    if events == [] {
      assert events + [e] == [e];
    } else {
      assert (events + [e])[1..] == events[1..] + [e];
      DecideAppend(events[1..], e);
    }
  }

  /** Steps of a core that leave the key alone. */
  predicate LeavesKey(st: Step) { !(st.Reserve? || st.Close? || st.DeleteKey? || st.Expire?) }

  lemma InvLocalMove(c: Core, v: View, st: Step)
    requires InvSeen(c, v) && CanMove(v, st) && CarefulMove(v, st) && LeavesKey(st) && c == st.c
    ensures InvSeen(c, Move(v, st))
  {
  }

  /** A change of the key is queued for every registered watch; it keeps what queued events promise. */
  lemma InvPutMove(c: Core, v: View, st: Step)
    requires InvSeen(c, v) && CanMove(v, st) && (st.Reserve? || st.Close?) && c == st.c
    ensures InvSeen(c, Move(v, st))
  {
    DecideAppend(v.peer.events, Put(if st.Reserve? then OwnedBy(c) else Complete));
  }

  lemma InvDeleteMove(c: Core, v: View, st: Step)
    requires InvSeen(c, v) && CanMove(v, st) && CarefulMove(v, st) && (st.DeleteKey? || st.Expire?)
    requires if st.Expire? then c == v.key.lease else c == st.c
    ensures InvSeen(c, Move(v, st))
  {
    DecideAppend(v.peer.events, Deleted);
  }

  lemma InvMove(c: Core, v: View, st: Step)
    requires InvSeen(c, v) && CanMove(v, st) && CarefulMove(v, st)
    requires if st.Expire? then c == v.key.lease else c == st.c
    ensures InvSeen(c, Move(v, st))
  {
    if LeavesKey(st) { InvLocalMove(c, v, st); }
    else if st.Reserve? || st.Close? { InvPutMove(c, v, st); }
    else { InvDeleteMove(c, v, st); }
  }

  lemma InvStep(s: State, st: Step)
    requires Inv(s) && Enabled(s, st) && Careful(s, st)
    ensures Inv(Apply(s, st))
  {
    InvMove(Actor(s, st), s.Seen(Actor(s, st)), st);
  }

  lemma {:induction false} InvRun(s: State, steps: seq<Step>)
    requires Inv(s) && CarefulRun(s, steps)
    ensures Inv(Run(s, steps))
    decreases |steps|
  {
    if steps != [] {
      InvStep(s, steps[0]);
      InvRun(Apply(s, steps[0]), steps[1..]);
    }
  }

  lemma InvInitial(s: State)
    requires Initial(s)
    ensures Inv(s)
  {
  }

  /** Every careful run, in every interleaving, keeps at most one live core executing the request. */
  lemma CarefulRunsAreSafe(s: State, steps: seq<Step>)
    requires Initial(s) && CarefulRun(s, steps)
    ensures Safe(Run(s, steps))
  {
    InvInitial(s);
    InvRun(s, steps);
  }

  /** A watcher whose queue ends in an undisturbed deletion takes the request over by draining the queue. */
  lemma {:induction false} Drain(s: State, c: Core) returns (steps: seq<Step>)
    requires s.At(c).alive && s.At(c).phase.Watching? && Decide(s.At(c).events) == WillAbandon
    ensures CarefulRun(s, steps)
    ensures Run(s, steps).At(c).alive && Executing(Run(s, steps).At(c).phase)
    ensures Run(s, steps).At(Other(c)) == s.At(Other(c))
    decreases |s.At(c).events|
  {
    var t := Apply(s, Deliver(c));
    if s.At(c).events[0] == Deleted {
      steps := [];
    } else {
      steps := Drain(t, c);
    }
    var rest := steps;
    steps := [Deliver(c)] + rest;
    assert steps[1..] == rest;
  }

  /** A live core that is exposed when the key is lost ends up executing, and its peer is left as it was. */
  lemma TakeOver(s: State, c: Core) returns (steps: seq<Step>)
    requires s.At(c).alive && s.key.Absent?
    requires (s.At(c).phase.Start? && s.At(c).reserves) || (Listening(s.At(c).phase) && Decide(s.At(c).events) == WillAbandon)
    ensures CarefulRun(s, steps)
    ensures Run(s, steps).At(c).alive && Executing(Run(s, steps).At(c).phase)
    ensures Listening(s.At(Other(c)).phase) || Run(s, steps).At(Other(c)) == s.At(Other(c))
  {
    match s.At(c).phase
    case Start =>
      steps := [Reserve(c)];
      assert steps[1..] == [];
    case Registered =>
      var rest := Drain(Apply(s, Get(c)), c);
      steps := [Get(c)] + rest;
      assert steps[1..] == rest;
    case _ =>
      steps := Drain(s, c);
  }

  /**
    The condition is exact: a step that is not careful, taken in any state a careful run reaches, can be followed
    by a careful run that ends with two live cores executing the request.
  */
  lemma CarelessStepIsUnsafe(s: State, steps: seq<Step>, st: Step) returns (more: seq<Step>)
    requires Initial(s) && CarefulRun(s, steps)
    requires Enabled(Run(s, steps), st) && !Careful(Run(s, steps), st)
    ensures CarefulRun(Apply(Run(s, steps), st), more)
    ensures !Safe(Run(Apply(Run(s, steps), st), more))
  {
    InvInitial(s);
    InvRun(s, steps);
    var t := Run(s, steps);
    var o := Other(Actor(t, st));
    DecideAppend(t.At(o).events, Deleted);
    if Executing(t.At(o).phase) {
      more := [];
    } else {
      more := TakeOver(Apply(t, st), o);
    }
  }

  // ----- Generic requests -----

  /** Both cores reserve, the store answers every call, and no key expires on a live holder while a live peer waits for it. */
  predicate Dependable(s: State, st: Step)
    requires Enabled(s, st)
  {
    DependableMove(s.Seen(Actor(s, st)), st)
  }

  predicate DependableMove(v: View, st: Step) {
    match st
    case WatchOnly(_) | GetFails(_) => false
    case Expire => !(v.me.alive && v.peer.alive && Pending(v.peer.phase))
    case _ => true
  }

  predicate DependableRun(s: State, steps: seq<Step>)
    decreases |steps|
  {
    steps == [] || (Enabled(s, steps[0]) && Dependable(s, steps[0]) && DependableRun(Apply(s, steps[0]), steps[1..]))
  }

  /** Beyond PairOk: while both cores live, a core that lost the race still sees the winner's key. */
  predicate GenericOk(c: CoreState, o: CoreState, key: Key) {
    && c.reserves
    && (Executing(c.phase) && !c.phase.seized ==> !o.alive)
    && (c.alive && o.alive ==>
          && (Pending(c.phase) && (!c.phase.Start? || Seized(o.phase)) ==> Seized(o.phase) && key.Held?)
          && c.phase != Watching(false))
  }

  predicate GenericSeen(c: Core, v: View) {
    InvSeen(c, v) && GenericOk(v.me, v.peer, v.key) && GenericOk(v.peer, v.me, v.key)
  }

  predicate GenericInv(s: State) { GenericSeen(A, s.Seen(A)) }

  lemma GenericMove(c: Core, v: View, st: Step)
    requires GenericSeen(c, v) && CanMove(v, st) && DependableMove(v, st)
    requires if st.Expire? then c == v.key.lease else c == st.c
    ensures CarefulMove(v, st) && GenericSeen(c, Move(v, st))
  {
    InvMove(c, v, st);
  }

  lemma GenericStep(s: State, st: Step)
    requires GenericInv(s) && Enabled(s, st) && Dependable(s, st)
    ensures Careful(s, st) && GenericInv(Apply(s, st))
  {
    GenericMove(Actor(s, st), s.Seen(Actor(s, st)), st);
  }

  lemma {:induction false} GenericRun(s: State, steps: seq<Step>)
    requires GenericInv(s) && DependableRun(s, steps)
    ensures CarefulRun(s, steps) && GenericInv(Run(s, steps))
    decreases |steps|
  {
    if steps != [] {
      GenericStep(s, steps[0]);
      GenericRun(Apply(s, steps[0]), steps[1..]);
    }
  }

  /**
    For a generic request nothing need be assumed of the watcher's timer: every dependable run is careful, and a core
    acquires the request as abandoned only if the other core crashed.
  */
  lemma TakeoverOnlyAfterCrash(s: State, steps: seq<Step>)
    requires Initial(s) && s.a.reserves && s.b.reserves && DependableRun(s, steps)
    ensures CarefulRun(s, steps) && Safe(Run(s, steps))
    ensures forall c :: Run(s, steps).At(c).phase in {Serving(false), Closed(false)} ==> !Run(s, steps).At(Other(c)).alive
  {
    InvInitial(s);
    GenericRun(s, steps);
  }

  /** Without the lease assumption a generic request is executed twice: the completion mark expires before the second core starts. */
  lemma LateCoreRepeatsRequest(s: State)
    requires Initial(s) && s.a.reserves && s.b.reserves
    ensures var t := Apply(Apply(s, Reserve(A)), Close(A));
            && t.key == Held(Complete, A) && !Dependable(t, Expire) && !Careful(t, Expire)
            && !Safe(Apply(Apply(t, Expire), Reserve(B)))
  {
  }

  /** While the mark is there the second core is denied, and a look at the key tells it that the request was served. */
  lemma LateCoreFindsMark(s: State)
    requires Initial(s) && s.a.reserves && s.b.reserves
    ensures var t := Apply(Apply(Apply(s, Reserve(A)), Close(A)), Reserve(B));
            t.b.phase == Denied && Apply(Apply(t, Register(B)), Get(B)).b.phase == Deleting
  {
  }

  /** A core that does not own the resource takes the request from a live owner that is slower than its timer. */
  lemma SlowOwnerLosesRequest(s: State)
    requires Initial(s) && s.a.reserves && !s.b.reserves
    ensures var t := Apply(Apply(Apply(s, WatchOnly(B)), Register(B)), Get(B));
            && !Careful(t, Timeout(B))
            && !Safe(Apply(Apply(t, Timeout(B)), Reserve(A)))
  {
  }
}
