/**
  How a live core comes to own a key that is free, whatever it is doing; and so what an expiry under a live claim leads to.
*/
module Takeover {
  import opened Ownership

  /** Steps that `d` still has to take to own `k`, which nobody holds. */
  function Effort(cs: CoreState, k: Key): nat {
    if k in cs.deviceMap then
      if cs.deviceMap[k].owned then 0
      else if cs.deviceMap[k].chnl !in cs.monitors then 0
      else match cs.monitors[cs.deviceMap[k].chnl].pc
        case Sleeping => 3
        case Retrying => 2
        case Answered(yes) => if yes then 1 else 4
    else if cs.call.NoCall? then 6
    else if cs.call.key == k then 5
    else 7
  }

  /** What `d` does next to own `k`. */
  function NextEffort(cs: CoreState, d: CoreId, k: Key): Step {
    if k in cs.deviceMap && cs.deviceMap[k].chnl in cs.monitors then
      match cs.monitors[cs.deviceMap[k].chnl].pc
      case Sleeping => Tick(d, cs.deviceMap[k].chnl)
      case Retrying => Retry(d, cs.deviceMap[k].chnl, true)
      case Answered(_) => Record(d, cs.deviceMap[k].chnl)
    else if cs.call.NoCall? then Ask(d, k, true)
    else AddEntry(d)
  }

  /** The key is free, or `d` has got it already. */
  ghost predicate Free(s: State, d: CoreId, k: Key) {
    (k in s.kv ==> s.kv[k] == d) && (d in s.cores && Claims(s.cores[d], k) ==> k in s.kv)
  }

  lemma EffortKeeps(s: State, d: CoreId, k: Key)
    requires Live(s, d) && Fresh(s) && Monitored(s) && Free(s, d, k) && !Owns(s.cores[d], k)
    ensures var st := NextEffort(s.cores[d], d, k);
      Enabled(s, st) && Careful(s, st) && Free(Apply(s, st), d, k)
  {
    assert HasMonitor(s, d, k);
  }

  lemma EffortShrinks(s: State, d: CoreId, k: Key)
    requires Live(s, d) && Fresh(s) && Monitored(s) && !Owns(s.cores[d], k) && (k in s.kv ==> s.kv[k] == d)
    requires Enabled(s, NextEffort(s.cores[d], d, k))
    ensures var t := Apply(s, NextEffort(s.cores[d], d, k));
      Live(t, d) && OthersKept(s, t, d) && (Owns(t.cores[d], k) || Effort(t.cores[d], k) < Effort(s.cores[d], k))
  {
    assert HasMonitor(s, d, k);
  }

  /** One step brings `d` closer to owning a key that is free. */
  lemma EffortStep(s: State, d: CoreId, k: Key)
    requires Live(s, d) && Fresh(s) && Monitored(s) && Free(s, d, k) && !Owns(s.cores[d], k)
    ensures var st := NextEffort(s.cores[d], d, k);
      && Enabled(s, st) && Careful(s, st)
      && Live(Apply(s, st), d) && Fresh(Apply(s, st)) && Monitored(Apply(s, st)) && Free(Apply(s, st), d, k)
      && OthersKept(s, Apply(s, st), d)
      && (Owns(Apply(s, st).cores[d], k) || Effort(Apply(s, st).cores[d], k) < Effort(s.cores[d], k))
  {
    EffortKeeps(s, d, k);
    EffortShrinks(s, d, k);
    FreshStep(s, NextEffort(s.cores[d], d, k));
    MonitoredStep(s, NextEffort(s.cores[d], d, k));
  }

  /** Any live core, whatever it is doing, can come to own a free key while all others stay as they are. */
  lemma {:induction false} Seize(s: State, d: CoreId, k: Key) returns (steps: seq<Step>)
    requires Live(s, d) && Fresh(s) && Monitored(s) && Free(s, d, k)
    ensures CarefulRun(s, steps) && OthersKept(s, Run(s, steps), d) && Owns(Run(s, steps).cores[d], k)
    ensures Fresh(Run(s, steps)) && Free(Run(s, steps), d, k)
    decreases Effort(s.cores[d], k)
  {
    if Owns(s.cores[d], k) {
      steps := [];
    } else {
      var st := NextEffort(s.cores[d], d, k);
      EffortStep(s, d, k);
      RunOne(s, st);
      var t := Apply(s, st);
      var rest := [];
      if !Owns(t.cores[d], k) {
        rest := Seize(t, d, k);
      }
      steps := [st] + rest;
      RunConcat(s, [st], rest);
    }
  }

  /**
    The condition on expiry is exact: if the key expires in a reachable state while its live holder claims it, then every
    other live core, whatever it is doing, can end up owning it together with the holder. A standby core gets there by its
    monitor. The claim need not be an entry: the answer of a Reserve call that was overtaken by an abandonment is enough.
  */
  lemma CarelessExpiryIsUnsafe(s: State, steps: seq<Step>, k: Key, d: CoreId) returns (more: seq<Step>)
    requires Initial(s) && CarefulRun(s, steps)
    requires Enabled(Run(s, steps), Expire(k)) && !Careful(Run(s, steps), Expire(k))
    requires var t := Run(s, steps); t.kv[k] != d && Live(t, d)
    ensures var t := Run(s, steps);
            var u := Apply(t, Expire(k));
            && CarefulRun(u, more)
            && t.kv[k] in Run(u, more).cores && Owns(Run(u, more).cores[t.kv[k]], k)
            && d in Run(u, more).cores && Owns(Run(u, more).cores[d], k)
  {
    InvInitial(s);
    InvRun(s, steps);
    var t := Run(s, steps);
    var u := Apply(t, Expire(k));
    FreshStep(t, Expire(k));
    MonitoredStep(t, Expire(k));
    assert ClaimHeld(t, d, k);
    var seize := Seize(u, d, k);
    var w := Run(u, seize);
    var rest := ClaimBecomesOwner(w, t.kv[k], k);
    more := seize + rest;
    RunConcat(u, seize, rest);
  }

  lemma RunMore(s: State, steps: seq<Step>, st: Step)
    requires CarefulRun(s, steps) && Enabled(Run(s, steps), st) && Careful(Run(s, steps), st)
    ensures CarefulRun(s, steps + [st]) && Run(s, steps + [st]) == Apply(Run(s, steps), st)
  {
    RunOne(Run(s, steps), st);
    RunConcat(s, steps, [st]);
  }

  /** A core that the store failed to answer has an entry without owning the key, and its monitor will ask again. */
  lemma AsksAgain(s: State, c: CoreId, k: Key) returns (steps: seq<Step>)
    requires Initial(s) && Live(s, c)
    ensures CarefulRun(s, steps)
    ensures var t := Run(s, steps);
      && t.kv == map[] && Live(t, c) && k in t.cores[c].deviceMap && !t.cores[c].deviceMap[k].owned
      && s.next in t.cores[c].monitors && t.cores[c].monitors[s.next] == Monitor(k, Retrying)
  {
    steps := [Ask(c, k, false)];
    RunOne(s, Ask(c, k, false));
    RunMore(s, steps, AddEntry(c));
    steps := steps + [AddEntry(c)];
    RunMore(s, steps, Tick(c, s.next));
    steps := steps + [Tick(c, s.next)];
  }

  /**
    An abandonment alone does not make expiry careful: from every initial state there is a run to where a core has abandoned
    a key while its monitor already holds a favourable answer.
  */
  lemma AbandonedYetClaimed(s: State, c: CoreId, k: Key) returns (steps: seq<Step>)
    requires Initial(s) && Live(s, c)
    ensures CarefulRun(s, steps)
    ensures var t := Run(s, steps);
      c in t.cores && k !in t.cores[c].deviceMap && Enabled(t, Expire(k)) && !Careful(t, Expire(k))
  {
    steps := AsksAgain(s, c, k);
    RunMore(s, steps, Retry(c, s.next, true));
    steps := steps + [Retry(c, s.next, true)];
    RunMore(s, steps, Abandon(c, k));
    steps := steps + [Abandon(c, k)];
    assert Run(s, steps).cores[c].monitors[s.next] == Monitor(k, Answered(true));
  }
}
