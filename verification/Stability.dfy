/**
  How long a core owns a key (monitorOwnership in rw_core/core/device_ownership.go): until it crashes or abandons the key,
  unless a monitor of an earlier entry still has something to say; and who owns it after a crash.
*/
module Stability {
  import opened Ownership
  import opened Takeover

  /** No monitor for `k` asks the store or holds an unfavourable answer, and no call for `k` is under way. */
  ghost predicate Quiet(cs: CoreState, k: Key) {
    && (forall m | m in cs.monitors && cs.monitors[m].key == k :: cs.monitors[m].pc in {Sleeping, Answered(true)})
    && !(cs.call.Reserved? && cs.call.key == k)
  }

  ghost predicate Secure(s: State, c: CoreId, k: Key) { c in s.cores && Owns(s.cores[c], k) && Quiet(s.cores[c], k) }

  /** Neither does `c` crash nor does it abandon `k`. */
  predicate Holds(st: Step, c: CoreId, k: Key) { st != Crash(c) && st != Abandon(c, k) }

  lemma SecureStep(s: State, st: Step, c: CoreId, k: Key)
    requires Secure(s, c, k) && Enabled(s, st) && Holds(st, c, k)
    ensures Secure(Apply(s, st), c, k)
  {
  }

  /** A quiet owner stays the owner, whatever the store answers and whatever other cores do. */
  lemma {:induction false} OwnersStay(s: State, steps: seq<Step>, c: CoreId, k: Key)
    requires Secure(s, c, k) && CarefulRun(s, steps) && forall i | 0 <= i < |steps| :: Holds(steps[i], c, k)
    ensures Secure(Run(s, steps), c, k)
    decreases |steps|
  {
    if steps != [] {
      SecureStep(s, steps[0], c, k);
      OwnersStay(Apply(s, steps[0]), steps[1..], c, k);
    }
  }

  /**
    The condition on monitors is exact: if one that asks the store, or holds an unfavourable answer, is left, the owner can
    lose its ownership by that monitor alone, although the key is still its own.
  */
  lemma StaleMonitorDisowns(s: State, c: CoreId, k: Key, m: Chan) returns (steps: seq<Step>)
    requires Live(s, c) && Owns(s.cores[c], k) && m in s.cores[c].monitors && s.cores[c].monitors[m].key == k
    requires s.cores[c].monitors[m].pc in {Retrying, Answered(false)}
    ensures CarefulRun(s, steps) && c in Run(s, steps).cores && !Owns(Run(s, steps).cores[c], k)
    ensures Run(s, steps).kv == s.kv && OthersKept(s, Run(s, steps), c)
  {
    if s.cores[c].monitors[m].pc == Retrying {
      steps := [Retry(c, m, false), Record(c, m)];
      RunOne(s, Retry(c, m, false));
      RunOne(Apply(s, Retry(c, m, false)), Record(c, m));
      RunConcat(s, [Retry(c, m, false)], [Record(c, m)]);
      assert steps == [Retry(c, m, false)] + [Record(c, m)];
    } else {
      steps := [Record(c, m)];
      RunOne(s, Record(c, m));
    }
  }

  /** A core that asks for a key that it has not asked for before, and gets it, owns it securely. */
  lemma FirstClaimIsSecure(s: State, c: CoreId, k: Key)
    requires Live(s, c) && Fresh(s) && Enabled(s, Ask(c, k, true)) && (k in s.kv ==> s.kv[k] == c)
    requires forall m | m in s.cores[c].monitors :: s.cores[c].monitors[m].key != k
    ensures var t := Apply(s, Ask(c, k, true)); Enabled(t, AddEntry(c)) && Secure(Apply(t, AddEntry(c)), c, k)
    ensures var t := Apply(Apply(s, Ask(c, k, true)), AddEntry(c)); k in t.kv && t.kv[k] == c
  {
  }

  /** A monitor whose entry is gone comes to its end by its own steps. */
  lemma OrphanStops(s: State, c: CoreId, m: Chan) returns (steps: seq<Step>)
    requires Live(s, c) && m in s.cores[c].monitors
    requires forall k | k in s.cores[c].deviceMap :: s.cores[c].deviceMap[k].chnl != m
    ensures CarefulRun(s, steps) && |steps| <= 3
    ensures Live(Run(s, steps), c) && m !in Run(s, steps).cores[c].monitors && OthersKept(s, Run(s, steps), c)
    ensures Run(s, steps).cores[c].deviceMap.Keys == s.cores[c].deviceMap.Keys
  {
    var t := s;
    steps := [];
    if t.cores[c].monitors[m].pc.Retrying? {
      RunMore(s, steps, Retry(c, m, false));
      steps := steps + [Retry(c, m, false)];
      t := Run(s, steps);
    }
    if t.cores[c].monitors[m].pc.Answered? {
      RunMore(s, steps, Record(c, m));
      steps := steps + [Record(c, m)];
      t := Run(s, steps);
    }
    RunMore(s, steps, Stop(c, m));
    steps := steps + [Stop(c, m)];
  }

  /** A core that crashed stays as it was, whatever happens. */
  lemma {:induction false} CrashIsFinal(s: State, c: CoreId, steps: seq<Step>)
    requires Enabled(s, Crash(c)) && CarefulRun(Apply(s, Crash(c)), steps)
    ensures var t := Run(Apply(s, Crash(c)), steps); c in t.cores && t.cores[c] == s.cores[c].(alive := false)
  {
    DeadStays(Apply(s, Crash(c)), c, steps);
  }

  lemma {:induction false} DeadStays(s: State, c: CoreId, steps: seq<Step>)
    requires c in s.cores && !s.cores[c].alive && CarefulRun(s, steps)
    ensures c in Run(s, steps).cores && Run(s, steps).cores[c] == s.cores[c]
    decreases |steps|
  {
    if steps != [] {
      DeadStays(Apply(s, steps[0]), c, steps[1..]);
    }
  }

  /**
    Failover: wherever in a careful run a core crashes, the keys it held expire without harm, and any live core can then come
    to own them, alone.
  */
  lemma Failover(s: State, steps: seq<Step>, c: CoreId, k: Key, d: CoreId) returns (more: seq<Step>)
    requires Initial(s) && CarefulRun(s, steps)
    requires var t := Run(s, steps); Live(t, c) && k in t.kv && t.kv[k] == c && Live(t, d) && d != c
    ensures var t := Run(s, steps);
      && CarefulRun(t, more) && |more| >= 2 && more[0] == Crash(c) && more[1] == Expire(k)
      && d in Run(t, more).cores && Owns(Run(t, more).cores[d], k)
      && forall e | e in Run(t, more).cores && Owns(Run(t, more).cores[e], k) :: e == d
  {
    InvInitial(s);
    InvRun(s, steps);
    var t := Run(s, steps);
    InvStep(t, Crash(c));
    var u := Apply(t, Crash(c));
    InvStep(u, Expire(k));
    var v := Apply(u, Expire(k));
    RunOne(t, Crash(c));
    RunMore(t, [Crash(c)], Expire(k));
    assert ClaimHeld(v, d, k);
    var seize := Seize(v, d, k);
    RunConcat(t, [Crash(c)] + [Expire(k)], seize);
    more := [Crash(c)] + [Expire(k)] + seize;
    InvRun(v, seize);
    OneOwner(Run(v, seize), d, k);
  }

  lemma OneOwner(s: State, d: CoreId, k: Key)
    requires ClaimsHeld(s) && d in s.cores && Owns(s.cores[d], k)
    ensures forall e | e in s.cores && Owns(s.cores[e], k) :: e == d
  {
    assert ClaimHeld(s, d, k);
    forall e | e in s.cores && Owns(s.cores[e], k)
      ensures e == d
    {
      assert ClaimHeld(s, e, k);
    }
  }
}
