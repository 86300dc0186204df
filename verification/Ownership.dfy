/**
  Exclusive ownership of devices by competing cores (rw_core/core/device_ownership.go).

  Every core keeps a table of ownership entries. OwnedByMe reserves a KV key and adds an entry; a monitor per entry
  renews an owned key and keeps trying to reserve one that is not; AbandonDevice forgets the entry, after which the
  key is no longer renewed. The store calls and the table updates of OwnedByMe and of a monitor are separate steps,
  so an abandonment, a crash or an expiry can fall between them. There are any number of cores, keys and monitors.

  Assumed of the store: Reserve is atomic, and renewals made by a live owner succeed.
*/
module Ownership {

  type CoreId = int
  type Key = string
  type Chan = int

  /** An ownership entry; `chnl` is the channel that stops its monitor when closed. */
  datatype Entry = Entry(owned: bool, chnl: Chan)

  /** A monitor waits for its ticker, is about to call Reserve, or holds the answer of Reserve. */
  datatype MonitorPc = Sleeping | Retrying | Answered(reserved: bool)

  datatype Monitor = Monitor(key: Key, pc: MonitorPc)

  /** OwnedByMe between its reservation and the new entry; the ownership lock admits one such call. */
  datatype Call = NoCall | Reserved(key: Key, reserved: bool)

  datatype CoreState = CoreState(
    alive: bool,
    deviceMap: map<Key, Entry>,
    monitors: map<Chan, Monitor>,
    call: Call)

  datatype State = State(kv: map<Key, CoreId>, cores: map<CoreId, CoreState>, next: Chan) {
    function Put(c: CoreId, cs: CoreState): State { this.(cores := cores[c := cs]) }
  }

  // ----- The sequential operations -----

  /** The value of the key after core `c` asked for it; `ok` is false when the store fails. */
  function KvAfter(kv: map<Key, CoreId>, k: Key, c: CoreId, ok: bool): map<Key, CoreId> {
    if ok && k !in kv then kv[k := c] else kv
  }

  /** tryToReserveKey: whether the key now holds this core's id. */
  predicate Granted(kv: map<Key, CoreId>, k: Key, c: CoreId, ok: bool) {
    ok && (k !in kv || kv[k] == c)
  }

  /** setOwnership changes an existing entry and never adds one. */
  function SetOwned(m: map<Key, Entry>, k: Key, owned: bool): map<Key, Entry> {
    if k in m then m[k := m[k].(owned := owned)] else m
  }

  datatype Option<T> = None | Some(value: T)

  /**
    The tables of one core and the operations on them, as the source writes them. A monitor is known by the channel that
    stops it; `started` records for which key each was started.
  */
  class DeviceOwnership {
    var deviceMap: map<Key, Entry>
    var deviceToKeyMap: map<Key, Key>
    var closed: set<Chan>
    var next: Chan
    ghost var started: map<Chan, Key>

    /** Devices resolve to entries, and a monitor is told to stop exactly when the entry that it was started for is gone. */
    ghost predicate Valid()
      reads this
    {
      (forall d | d in deviceToKeyMap :: deviceToKeyMap[d] in deviceMap) && MonitorsOk()
    }

    ghost predicate MonitorsOk()
      reads this
    {
      && (forall k | k in deviceMap :: deviceMap[k].chnl in started && started[deviceMap[k].chnl] == k)
      && (forall m | m in closed :: m in started)
      && (forall m | m in started :: m < next && (m !in closed <==> started[m] in deviceMap && deviceMap[started[m]].chnl == m))
    }

    constructor ()
      ensures Valid() && deviceMap == map[] && deviceToKeyMap == map[] && closed == {} && started == map[]
    {
      deviceMap, deviceToKeyMap, closed, next, started := map[], map[], {}, 0, map[];
    }

    method GetOwnership(id: Key) returns (known: bool, mine: bool)
      ensures known <==> id in deviceMap
      ensures mine <==> known && deviceMap[id].owned
    {
      if id in deviceMap {
        return true, deviceMap[id].owned;
      }
      return false, false;
    }

    method SetOwnership(id: Key, owner: bool) returns (found: bool)
      requires Valid()
      modifies this`deviceMap
      ensures Valid() && deviceMap == SetOwned(old(deviceMap), id, owner)
      ensures found <==> id in old(deviceMap)
    {
      if id in deviceMap {
        deviceMap := deviceMap[id := deviceMap[id].(owned := owner)];
        return true;
      }
      return false;
    }

    /** Adds the entry for an ownership key and starts its monitor. */
    method StartMonitor(key: Key, reserved: bool)
      requires MonitorsOk() && key !in deviceMap
      modifies this`deviceMap, this`next, this`started
      ensures MonitorsOk()
      ensures deviceMap == old(deviceMap)[key := Entry(reserved, old(next))]
      ensures old(next) !in old(started) && started == old(started)[old(next) := key]
    {
      deviceMap := deviceMap[key := Entry(reserved, next)];
      started := started[next := key];
      next := next + 1;
    }

    /**
      Says whether this core owns what a device resolves to: `parent` is what the device manager knows, `reserved` what the
      store would answer. Only the first question about a key reserves it and starts a monitor.
    */
    method OwnedByMe(id: Key, parent: Option<Key>, reserved: bool) returns (mine: Option<bool>)
      requires Valid()
      modifies this
      ensures Valid() && closed == old(closed)
      ensures mine.None? <==> id !in old(deviceToKeyMap) && parent.None?
      ensures mine.None? ==> unchanged(this)
      ensures mine.Some? ==>
        && id in deviceToKeyMap && deviceToKeyMap == old(deviceToKeyMap)[id := deviceToKeyMap[id]]
        && deviceToKeyMap[id] == (if id in old(deviceToKeyMap) then old(deviceToKeyMap)[id] else parent.value)
        && mine.value == deviceMap[deviceToKeyMap[id]].owned
        && (forall k | k in old(deviceMap) :: k in deviceMap && deviceMap[k] == old(deviceMap)[k])
        && deviceMap.Keys == old(deviceMap).Keys + {deviceToKeyMap[id]}
        && if deviceToKeyMap[id] in old(deviceMap) then started == old(started)
           else mine.value == reserved && exists m | m !in old(started) :: started == old(started)[m := deviceToKeyMap[id]]
    {
      if id !in deviceToKeyMap && parent.None? {
        return None;
      }
      var key := if id in deviceToKeyMap then deviceToKeyMap[id] else parent.value;
      deviceToKeyMap := deviceToKeyMap[id := key];
      var known, owned := GetOwnership(key);
      if known {
        return Some(owned);
      }
      StartMonitor(key, reserved);
      return Some(reserved);
    }

    /** Forgets an ownership key and every device that resolves to it, or else just the device. */
    method AbandonDevice(id: Key) returns (ok: bool)
      requires Valid()
      modifies this
      ensures Valid() && started == old(started)
      ensures ok <==> id != ""
      ensures !ok ==> unchanged(this)
      ensures ok ==> deviceMap == old(deviceMap) - {id}
      ensures ok && id in old(deviceMap) ==>
                && closed == old(closed) + {old(deviceMap)[id].chnl}
                && deviceToKeyMap == map d | d in old(deviceToKeyMap) && old(deviceToKeyMap)[d] != id :: old(deviceToKeyMap)[d]
      ensures ok && id !in old(deviceMap) ==> closed == old(closed) && deviceToKeyMap == old(deviceToKeyMap) - {id}
    {
      if id == "" {
        return false;
      }
      if id in deviceMap {
        var todo := deviceToKeyMap.Keys;
        while todo != {}
          invariant todo <= old(deviceToKeyMap).Keys
          invariant deviceToKeyMap.Keys <= old(deviceToKeyMap).Keys
          invariant forall d | d in old(deviceToKeyMap) ::
                      d in deviceToKeyMap <==> d in todo || old(deviceToKeyMap)[d] != id
          invariant forall d | d in deviceToKeyMap :: deviceToKeyMap[d] == old(deviceToKeyMap)[d]
          invariant deviceMap == old(deviceMap) && closed == old(closed) && started == old(started) && next == old(next)
        {
          var d :| d in todo;
          if deviceToKeyMap[d] == id {
            deviceToKeyMap := deviceToKeyMap - {d};
          }
          todo := todo - {d};
        }
        closed := closed + {deviceMap[id].chnl};
        deviceMap := deviceMap - {id};
        return true;
      }
      deviceToKeyMap := deviceToKeyMap - {id};
      return true;
    }
  }

  // ----- The step system -----

  datatype Step =
    | Ask(c: CoreId, k: Key, ok: bool)       // OwnedByMe finds no entry and calls Reserve
    | AddEntry(c: CoreId)                    // OwnedByMe records the answer and starts a monitor
    | Tick(c: CoreId, m: Chan)               // a monitor's ticker fires and it reads its entry
    | Retry(c: CoreId, m: Chan, ok: bool)    // a monitor calls Reserve
    | Record(c: CoreId, m: Chan)             // a monitor calls setOwnership with the answer
    | Stop(c: CoreId, m: Chan)               // a monitor sees its channel closed
    | Abandon(c: CoreId, k: Key)
    | Crash(c: CoreId)
    | Expire(k: Key)

  predicate Live(s: State, c: CoreId) { c in s.cores && s.cores[c].alive }

  predicate Enabled(s: State, st: Step) {
    match st
    case Ask(c, k, _) => Live(s, c) && s.cores[c].call.NoCall? && k !in s.cores[c].deviceMap
    case AddEntry(c) => Live(s, c) && s.cores[c].call.Reserved?
    case Tick(c, m) => Live(s, c) && m in s.cores[c].monitors && s.cores[c].monitors[m].pc.Sleeping?
    case Retry(c, m, _) => Live(s, c) && m in s.cores[c].monitors && s.cores[c].monitors[m].pc.Retrying?
    case Record(c, m) => Live(s, c) && m in s.cores[c].monitors && s.cores[c].monitors[m].pc.Answered?
    case Stop(c, m) =>
      && Live(s, c) && m in s.cores[c].monitors && s.cores[c].monitors[m].pc.Sleeping?
      && forall k | k in s.cores[c].deviceMap :: s.cores[c].deviceMap[k].chnl != m
    case Abandon(c, _) => Live(s, c)
    case Crash(c) => Live(s, c)
    case Expire(k) => k in s.kv
  }

  function Apply(s: State, st: Step): State
    requires Enabled(s, st)
  {
    match st
    case Ask(c, k, ok) =>
      s.(kv := KvAfter(s.kv, k, c, ok)).Put(c, s.cores[c].(call := Reserved(k, Granted(s.kv, k, c, ok))))
    case AddEntry(c) =>
      var cs := s.cores[c];
      s.(next := s.next + 1).Put(c, cs.(deviceMap := cs.deviceMap[cs.call.key := Entry(cs.call.reserved, s.next)],
                                        monitors := cs.monitors[s.next := Monitor(cs.call.key, Sleeping)],
                                        call := NoCall))
    case Tick(c, m) =>
      var cs := s.cores[c];
      var k := cs.monitors[m].key;
      if k in cs.deviceMap && cs.deviceMap[k].owned then s
      else s.Put(c, cs.(monitors := cs.monitors[m := Monitor(k, Retrying)]))
    case Retry(c, m, ok) =>
      var cs := s.cores[c];
      var k := cs.monitors[m].key;
      s.(kv := KvAfter(s.kv, k, c, ok)).Put(c, cs.(monitors := cs.monitors[m := Monitor(k, Answered(Granted(s.kv, k, c, ok)))]))
    case Record(c, m) =>
      var cs := s.cores[c];
      var Monitor(k, Answered(yes)) := cs.monitors[m];
      s.Put(c, cs.(deviceMap := SetOwned(cs.deviceMap, k, yes), monitors := cs.monitors[m := Monitor(k, Sleeping)]))
    case Stop(c, m) => s.Put(c, s.cores[c].(monitors := s.cores[c].monitors - {m}))
    case Abandon(c, k) => s.Put(c, s.cores[c].(deviceMap := s.cores[c].deviceMap - {k}))
    case Crash(c) => s.Put(c, s.cores[c].(alive := false))
    case Expire(k) => s.(kv := s.kv - {k})
  }

  predicate Owns(cs: CoreState, k: Key) { cs.alive && k in cs.deviceMap && cs.deviceMap[k].owned }

  /** A live core owns the key, or carries an answer that will make it an owner. */
  ghost predicate Claims(cs: CoreState, k: Key) {
    cs.alive &&
    (|| (k in cs.deviceMap && cs.deviceMap[k].owned)
     || cs.call == Reserved(k, true)
     || exists m :: m in cs.monitors && cs.monitors[m] == Monitor(k, Answered(true)))
  }

  /** A key expires only when its holder is dead or makes no claim to it. */
  ghost predicate Careful(s: State, st: Step)
    requires Enabled(s, st)
  {
    st.Expire? ==> !(s.kv[st.k] in s.cores && Claims(s.cores[s.kv[st.k]], st.k))
  }

  ghost predicate ClaimHeld(s: State, c: CoreId, k: Key) { c in s.cores && Claims(s.cores[c], k) ==> k in s.kv && s.kv[k] == c }

  ghost predicate ClaimsHeld(s: State) { forall c, k {:trigger ClaimHeld(s, c, k)} :: ClaimHeld(s, c, k) }

  predicate UsedBefore(s: State, c: CoreId, m: Chan) { c in s.cores && m in s.cores[c].monitors ==> m < s.next }

  ghost predicate Fresh(s: State) { forall c, m {:trigger UsedBefore(s, c, m)} :: UsedBefore(s, c, m) }

  predicate HasMonitor(s: State, c: CoreId, k: Key) {
    c in s.cores && k in s.cores[c].deviceMap ==>
      s.cores[c].deviceMap[k].chnl in s.cores[c].monitors && s.cores[c].monitors[s.cores[c].deviceMap[k].chnl].key == k
  }

  /** Every entry has its monitor: the one that its channel stops. */
  ghost predicate Monitored(s: State) { forall c, k {:trigger HasMonitor(s, c, k)} :: HasMonitor(s, c, k) }

  ghost predicate Inv(s: State) { ClaimsHeld(s) && Fresh(s) && Monitored(s) }

  ghost predicate Initial(s: State) {
    s.kv == map[] && forall c | c in s.cores ::
      s.cores[c].deviceMap == map[] && s.cores[c].monitors == map[] && s.cores[c].call == NoCall
  }

  lemma InvInitial(s: State)
    requires Initial(s)
    ensures Inv(s)
  {
    forall c, k
      ensures ClaimHeld(s, c, k) && HasMonitor(s, c, k)
    {
    }
    forall c, m
      ensures UsedBefore(s, c, m)
    {
    }
  }

  lemma ClaimsStep(s: State, st: Step)
    requires ClaimsHeld(s) && Enabled(s, st) && Careful(s, st)
    ensures ClaimsHeld(Apply(s, st))
  {
    forall c, k
      ensures ClaimHeld(Apply(s, st), c, k)
    {
      assert ClaimHeld(s, c, k);
    }
  }

  lemma FreshStep(s: State, st: Step)
    requires Fresh(s) && Enabled(s, st)
    ensures Fresh(Apply(s, st))
  {
    forall c, m
      ensures UsedBefore(Apply(s, st), c, m)
    {
      assert UsedBefore(s, c, m);
    }
  }

  lemma MonitoredStep(s: State, st: Step)
    requires Fresh(s) && Monitored(s) && Enabled(s, st)
    ensures Monitored(Apply(s, st))
  {
    forall c, k
      ensures HasMonitor(Apply(s, st), c, k)
    {
      assert HasMonitor(s, c, k);
      if c in s.cores && k in s.cores[c].deviceMap {
        assert UsedBefore(s, c, s.cores[c].deviceMap[k].chnl);
      }
    }
  }

  /** Every careful step keeps the invariant. */
  lemma InvStep(s: State, st: Step)
    requires Inv(s) && Enabled(s, st) && Careful(s, st)
    ensures Inv(Apply(s, st))
  {
    ClaimsStep(s, st);
    FreshStep(s, st);
    MonitoredStep(s, st);
  }

  ghost predicate CarefulRun(s: State, steps: seq<Step>)
    decreases |steps|
  {
    steps == [] || (Enabled(s, steps[0]) && Careful(s, steps[0]) && CarefulRun(Apply(s, steps[0]), steps[1..]))
  }

  ghost function Run(s: State, steps: seq<Step>): State
    requires CarefulRun(s, steps)
    decreases |steps|
  {
    if steps == [] then s else Run(Apply(s, steps[0]), steps[1..])
  }

  lemma {:induction false} InvRun(s: State, steps: seq<Step>)
    requires Inv(s) && CarefulRun(s, steps)
    ensures Inv(Run(s, steps))
    decreases |steps|
  {
    if steps != [] {
      InvStep(s, steps[0]);
      InvRun(Apply(s, steps[0]), steps[1..]);
    }
  }

  /** In every state a careful run reaches, an owner's id is under the key in the store, so two live cores never both own it. */
  lemma OwnershipIsExclusive(s: State, steps: seq<Step>, c: CoreId, k: Key)
    requires Initial(s) && CarefulRun(s, steps)
    requires c in Run(s, steps).cores && Owns(Run(s, steps).cores[c], k)
    ensures k in Run(s, steps).kv && Run(s, steps).kv[k] == c
    ensures forall d | d in Run(s, steps).cores && Owns(Run(s, steps).cores[d], k) :: d == c
  {
    InvInitial(s);
    InvRun(s, steps);
    var t := Run(s, steps);
    assert ClaimHeld(t, c, k);
    forall d | d in t.cores && Owns(t.cores[d], k)
      ensures d == c
    {
      assert ClaimHeld(t, d, k);
    }
  }

  lemma {:induction false} RunConcat(s: State, xs: seq<Step>, ys: seq<Step>)
    requires CarefulRun(s, xs) && CarefulRun(Run(s, xs), ys)
    ensures CarefulRun(s, xs + ys) && Run(s, xs + ys) == Run(Run(s, xs), ys)
    decreases |xs|
  {
    if xs == [] {
      assert xs + ys == ys;
    } else {
      assert (xs + ys)[1..] == xs[1..] + ys;
      RunConcat(Apply(s, xs[0]), xs[1..], ys);
    }
  }

  lemma RunOne(s: State, st: Step)
    requires Enabled(s, st) && Careful(s, st)
    ensures CarefulRun(s, [st]) && Run(s, [st]) == Apply(s, st)
  {
    assert [st][1..] == [];
  }

  /** Steps that `c` still has to take before its monitor can record an answer for `k`. */
  function Distance(cs: CoreState, k: Key): nat {
    if k in cs.deviceMap then 0 else if cs.call.NoCall? then 2 else if cs.call.key == k then 1 else 3
  }

  ghost predicate OthersKept(s: State, t: State, c: CoreId) {
    s.cores.Keys == t.cores.Keys && forall d | d in s.cores && d != c :: t.cores[d] == s.cores[d]
  }

  /** A monitor's late answer turns into an owned entry, whoever holds the key by then. */
  lemma {:induction false} LateAnswer(s: State, c: CoreId, k: Key, m: Chan) returns (steps: seq<Step>)
    requires Live(s, c) && m in s.cores[c].monitors && s.cores[c].monitors[m] == Monitor(k, Answered(true))
    requires Fresh(s) && k in s.kv && s.kv[k] != c
    ensures CarefulRun(s, steps) && OthersKept(s, Run(s, steps), c) && Owns(Run(s, steps).cores[c], k)
    decreases Distance(s.cores[c], k)
  {
    var cs := s.cores[c];
    var st := if k in cs.deviceMap then Record(c, m) else if cs.call.NoCall? then Ask(c, k, true) else AddEntry(c);
    assert UsedBefore(s, c, m);
    FreshStep(s, st);
    RunOne(s, st);
    var t := Apply(s, st);
    var rest := [];
    if k !in cs.deviceMap {
      rest := LateAnswer(t, c, k, m);
    }
    steps := [st] + rest;
    RunConcat(s, [st], rest);
  }

  /** Any claim turns into an owned entry. */
  lemma ClaimBecomesOwner(s: State, c: CoreId, k: Key) returns (steps: seq<Step>)
    requires c in s.cores && Claims(s.cores[c], k) && Fresh(s) && k in s.kv && s.kv[k] != c
    ensures CarefulRun(s, steps) && OthersKept(s, Run(s, steps), c) && Owns(Run(s, steps).cores[c], k)
  {
    var cs := s.cores[c];
    if Owns(cs, k) {
      steps := [];
    } else if cs.call == Reserved(k, true) {
      steps := [AddEntry(c)];
      RunOne(s, AddEntry(c));
    } else {
      var m :| m in cs.monitors && cs.monitors[m] == Monitor(k, Answered(true));
      steps := LateAnswer(s, c, k, m);
    }
  }

  /** Core `c` asks for no ownership of `k` on behalf of a request. */
  predicate NeverAsks(steps: seq<Step>, c: CoreId, k: Key) {
    forall i | 0 <= i < |steps| :: !(steps[i].Ask? && steps[i].c == c && steps[i].k == k)
  }

  /** Core `c` has no entry for `k`, and none on its way. */
  predicate NoEntry(s: State, c: CoreId, k: Key) {
    c in s.cores && k !in s.cores[c].deviceMap && !(s.cores[c].call.Reserved? && s.cores[c].call.key == k)
  }

  /** Abandoned keys stay abandoned: whatever monitors do, only a new OwnedByMe call for the key adds an entry. */
  lemma {:induction false} MonitorsAddNoEntry(s: State, steps: seq<Step>, c: CoreId, k: Key)
    requires CarefulRun(s, steps) && NoEntry(s, c, k) && NeverAsks(steps, c, k)
    ensures NoEntry(Run(s, steps), c, k)
    decreases |steps|
  {
    if steps != [] {
      MonitorsAddNoEntry(Apply(s, steps[0]), steps[1..], c, k);
    }
  }
}
