/**
  Which rule of a table applies to a packet, said by position: tables are made of parts, one from every rule of the logical
  device, and a rule may have no part in a table.
*/
module Choosing {
  import opened OpenFlow
  import opened Pipeline
  import opened FlowCompiler

  /** Part `i` is a rule that matches. */
  predicate TakesPart(parts: seq<Choice>, i: int, at: Arrival, p: Packet) {
    0 <= i < |parts| && parts[i].Rule? && Matches(parts[i].flow, at, p)
  }

  /** The first part of highest priority that takes part, or -1. */
  function Winner(parts: seq<Choice>, at: Arrival, p: Packet): (k: int)
    ensures -1 <= k < |parts| && (k >= 0 ==> parts[k].Rule?)
  {
    if parts == [] then -1
    else
      var k, last := Winner(parts[..|parts| - 1], at, p), |parts| - 1;
      if TakesPart(parts, last, at, p) && (k == -1 || parts[last].flow.priority > parts[k].flow.priority) then last else k
  }

  /** Part `k` comes before part `i`. */
  predicate Before(parts: seq<Choice>, k: int, i: int)
    requires 0 <= k < |parts| && 0 <= i < |parts| && parts[k].Rule? && parts[i].Rule?
  {
    parts[i].flow.priority < parts[k].flow.priority || (parts[i].flow.priority == parts[k].flow.priority && k <= i)
  }

  /** Part `k` takes part and comes before all others that do. */
  ghost predicate Wins(parts: seq<Choice>, k: int, at: Arrival, p: Packet) {
    TakesPart(parts, k, at, p) && forall i {:trigger TakesPart(parts, i, at, p)} :: TakesPart(parts, i, at, p) ==> Before(parts, k, i)
  }

  lemma TakesPartPrefix(parts: seq<Choice>, i: int, at: Arrival, p: Packet)
    requires parts != [] && i < |parts| - 1
    ensures TakesPart(parts, i, at, p) <==> TakesPart(parts[..|parts| - 1], i, at, p)
  {
  }

  /** The winner wins; without one no part takes part. */
  lemma {:induction false} WinnerWins(parts: seq<Choice>, at: Arrival, p: Packet)
    ensures var k := Winner(parts, at, p);
      if k == -1 then forall i {:trigger TakesPart(parts, i, at, p)} :: !TakesPart(parts, i, at, p) else Wins(parts, k, at, p)
  {
    if parts != [] {
      var shorter, k := parts[..|parts| - 1], Winner(parts[..|parts| - 1], at, p);
      WinnerWins(shorter, at, p);
      forall i | TakesPart(parts, i, at, p) && i < |shorter|
        ensures k >= 0 && TakesPart(shorter, i, at, p) && Before(shorter, k, i)
      {
        TakesPartPrefix(parts, i, at, p);
      }
      if k >= 0 {
        assert TakesPart(shorter, k, at, p);
        TakesPartPrefix(parts, k, at, p);
      }
    }
  }

  /** There is one winner. */
  lemma WinnerIs(parts: seq<Choice>, k: int, at: Arrival, p: Packet)
    requires Wins(parts, k, at, p)
    ensures Winner(parts, at, p) == k
  {
    WinnerWins(parts, at, p);
    var w := Winner(parts, at, p);
    assert TakesPart(parts, k, at, p);
    assert TakesPart(parts, w, at, p);
  }

  function ChoiceAt(parts: seq<Choice>, k: int): Choice
    requires -1 <= k < |parts|
  {
    if k == -1 then NoRule else parts[k]
  }

  // ----- Tables made of parts -----

  /** The choice after one more rule. */
  function Preferred(best: Choice, f: Flow, takesPart: bool): Choice {
    if takesPart && (best.NoRule? || f.priority > best.flow.priority) then Rule(f) else best
  }

  lemma NextChoice(table: seq<Flow>, belongs: bool, f: Flow, at: Arrival, p: Packet)
    ensures Best(table + if belongs then [f] else [], at, p) == Preferred(Best(table, at, p), f, belongs && Matches(f, at, p))
  {
    assert table + [] == table;
    assert (table + [f])[..|table|] == table;
  }

  lemma {:induction false} NextRule(table: seq<Flow>, r: Flow, at: Arrival, p: Packet)
    ensures Best(WithRule(table, r), at, p) == Preferred(Best(table, at, p), r, Matches(r, at, p))
  {
    if r in table {
      BestIsHighest(table, at, p);
    } else {
      NextChoice(table, true, r, at, p);
    }
  }

  /** The rules of a logical table among all rules. */
  function TableParts(flows: seq<Flow>, t: nat): seq<Choice> {
    seq(|flows|, i requires 0 <= i < |flows| => if flows[i].tableId == t then Rule(flows[i]) else NoRule)
  }

  lemma {:induction false} BestInTable(flows: seq<Flow>, t: nat, at: Arrival, p: Packet)
    ensures Best(InTable(flows, t), at, p) == ChoiceAt(TableParts(flows, t), Winner(TableParts(flows, t), at, p))
  {
    if flows != [] {
      var shorter, f := flows[..|flows| - 1], flows[|flows| - 1];
      BestInTable(shorter, t, at, p);
      assert TableParts(flows, t)[..|flows| - 1] == TableParts(shorter, t);
      NextChoice(InTable(shorter, t), f.tableId == t, f, at, p);
    }
  }

  /** The table that a device gets from one rule at a time; each rule is there once. */
  function Collected(parts: seq<Choice>): seq<Flow> {
    if parts == [] then []
    else
      var before, last := Collected(parts[..|parts| - 1]), parts[|parts| - 1];
      if last.NoRule? then before else WithRule(before, last.flow)
  }

  /** A table that was collected rule by rule, without repetitions, chooses the winner among the parts. */
  lemma {:induction false} BestCollected(parts: seq<Choice>, at: Arrival, p: Packet)
    ensures Best(Collected(parts), at, p) == ChoiceAt(parts, Winner(parts, at, p))
  {
    if parts != [] {
      var shorter, last := parts[..|parts| - 1], parts[|parts| - 1];
      BestCollected(shorter, at, p);
      if last.Rule? {
        NextRule(Collected(shorter), last.flow, at, p);
      }
    }
  }

  lemma {:induction false} CollectedAreParts(parts: seq<Choice>, r: Flow)
    requires r in Collected(parts)
    ensures Rule(r) in parts
  {
    if parts != [] && parts[|parts| - 1] != Rule(r) {
      CollectedAreParts(parts[..|parts| - 1], r);
    }
  }

  lemma {:induction false} PartsAreCollected(parts: seq<Choice>, i: nat)
    requires i < |parts| && parts[i].Rule?
    ensures parts[i].flow in Collected(parts)
  {
    if i < |parts| - 1 {
      PartsAreCollected(parts[..|parts| - 1], i);
    }
  }
}
