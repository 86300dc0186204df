/**
  The lease arithmetic of a transaction (Acquired and holdOnToTxnUntilProcessingCompleted in
  rw_core/core/transaction.go) and what it means over time.
*/
module Lease {

  const NumTxnRenewalPerRequest := 2
  const MinTxnRenewalIntervalInSec := 3
  const MinTxnReservationDurationInSec := 5

  /** Integer division that truncates toward zero. */
  function TruncDiv(a: int, b: int): int
    requires b > 0
  {
    if a >= 0 then a / b else -((-a) / b)
  }

  function DurationInSecs(minDuration: int): int {
    var secs := TruncDiv(minDuration, 1000);
    var rounded := if minDuration - 1000 * secs > 0 then secs + 1 else secs;
    if rounded < MinTxnReservationDurationInSec then MinTxnReservationDurationInSec else rounded
  }

  /** The time to live given to Reserve. */
  function ReservationInSecs(minDuration: int): int { DurationInSecs(minDuration) * 2 }

  function RenewInterval(reservation: int): int {
    var interval := TruncDiv(reservation, NumTxnRenewalPerRequest);
    if interval < MinTxnRenewalIntervalInSec then MinTxnRenewalIntervalInSec else interval
  }

  /** For every timeout, the lease lasts two renewal intervals; an interval is the least whole number of seconds, at least five, that covers the timeout. */
  lemma LeaseLastsTwoIntervals(minDuration: int)
    ensures var interval := RenewInterval(ReservationInSecs(minDuration));
            && ReservationInSecs(minDuration) == 2 * interval
            && 1000 * interval >= minDuration && interval >= 5
            && (interval > 5 ==> 1000 * (interval - 1) < minDuration)
  {
    var secs := TruncDiv(minDuration, 1000);
    if minDuration < 0 {
      assert secs <= 0 && 1000 * secs >= minDuration;
    }
  }

  // ----- The renewal loop over time -----

  /** One turn of the loop: the attempt comes `delay` after its timer is due; the store renews the lease or fails. */
  datatype Turn = Turn(delay: real, ok: bool)

  /** A core that holds on to its key. The timer runs from the last attempt, the lease from the last success. */
  datatype Holder = Holder(attemptAt: real, renewedAt: real, lost: bool)

  function Attempted(h: Holder, t: Turn, interval: real, lease: real): Holder {
    var now := h.attemptAt + interval + t.delay;
    var lost := h.lost || now >= h.renewedAt + lease;
    Holder(now, if t.ok && !lost then now else h.renewedAt, lost)
  }

  function AfterTurns(start: real, turns: seq<Turn>, interval: real, lease: real): Holder {
    if turns == [] then Holder(start, start, false)
    else Attempted(AfterTurns(start, turns[..|turns| - 1], interval, lease), turns[|turns| - 1], interval, lease)
  }

  /** The key is still there at Close, `tail` after the last attempt. */
  predicate KeptUntilClose(h: Holder, tail: real, lease: real) { !h.lost && h.attemptAt + tail < h.renewedAt + lease }

  predicate Forward(turns: seq<Turn>, tail: real) { tail >= 0.0 && forall i | 0 <= i < |turns| :: turns[i].delay >= 0.0 }

  // ----- When the key survives, read off the turns -----

  /** The time from the last success to the last attempt. */
  function Waited(turns: seq<Turn>, interval: real): real {
    if turns == [] || turns[|turns| - 1].ok then 0.0
    else Waited(turns[..|turns| - 1], interval) + interval + turns[|turns| - 1].delay
  }

  /** Every attempt comes less than two intervals after the last success before it. */
  predicate GapsAreShort(turns: seq<Turn>, interval: real) {
    turns == [] || (
      && GapsAreShort(turns[..|turns| - 1], interval)
      && Waited(turns[..|turns| - 1], interval) + interval + turns[|turns| - 1].delay < 2.0 * interval)
  }

  lemma {:induction false} LostIffGap(start: real, turns: seq<Turn>, interval: real)
    ensures var h := AfterTurns(start, turns, interval, 2.0 * interval);
      && (h.lost <==> !GapsAreShort(turns, interval))
      && (!h.lost ==> h.attemptAt - h.renewedAt == Waited(turns, interval))
  {
    if turns != [] {
      LostIffGap(start, turns[..|turns| - 1], interval);
    }
  }

  /**
    No attempt is late by a whole interval, every attempt but the last succeeds, and Close comes in time: within what the
    last attempt leaves of an interval if it failed, and within two intervals otherwise.
  */
  predicate Steady(turns: seq<Turn>, tail: real, interval: real) {
    && (forall i | 0 <= i < |turns| :: turns[i].delay < interval)
    && (forall i | 0 <= i < |turns| - 1 :: turns[i].ok)
    && if turns != [] && !turns[|turns| - 1].ok then turns[|turns| - 1].delay + tail < interval else tail < 2.0 * interval
  }

  lemma {:induction false} GapsIffSteady(turns: seq<Turn>, interval: real)
    requires interval > 0.0 && Forward(turns, 0.0)
    ensures GapsAreShort(turns, interval)
       <==> (forall i | 0 <= i < |turns| :: turns[i].delay < interval) && (forall i | 0 <= i < |turns| - 1 :: turns[i].ok)
    ensures GapsAreShort(turns, interval) ==>
      Waited(turns, interval) == if turns == [] || turns[|turns| - 1].ok then 0.0 else interval + turns[|turns| - 1].delay
  {
    if turns != [] {
      var shorter := turns[..|turns| - 1];
      assert forall i | 0 <= i < |shorter| :: shorter[i] == turns[i];
      GapsIffSteady(shorter, interval);
      NonNegativeWait(shorter, interval);
    }
  }

  lemma {:induction false} NonNegativeWait(turns: seq<Turn>, interval: real)
    requires interval > 0.0 && Forward(turns, 0.0)
    ensures if turns == [] || turns[|turns| - 1].ok then Waited(turns, interval) == 0.0 else Waited(turns, interval) >= interval
  {
    if turns != [] {
      NonNegativeWait(turns[..|turns| - 1], interval);
    }
  }

  /** Along all turns a live holder keeps its key until Close if and only if the turns are steady. */
  lemma KeptIffSteady(start: real, turns: seq<Turn>, tail: real, interval: real)
    requires interval > 0.0 && Forward(turns, tail)
    ensures KeptUntilClose(AfterTurns(start, turns, interval, 2.0 * interval), tail, 2.0 * interval) <==> Steady(turns, tail, interval)
  {
    LostIffGap(start, turns, interval);
    GapsIffSteady(turns, interval);
  }

  /** One failed renewal with another attempt still to come before Close loses the key, whatever the delays. */
  lemma FailureLosesKey(start: real, turns: seq<Turn>, tail: real, interval: real, i: nat)
    requires interval > 0.0 && Forward(turns, tail) && i < |turns| - 1 && !turns[i].ok
    ensures !KeptUntilClose(AfterTurns(start, turns, interval, 2.0 * interval), tail, 2.0 * interval)
  {
    KeptIffSteady(start, turns, tail, interval);
  }

  /**
    The loop of a core that reserved a key for a request with the given timeout: it tells whether the key is still there
    at Close, and it is if and only if the turns are steady.
  */
  method HoldOnToTxnUntilProcessingCompleted(minDuration: int, start: real, turns: seq<Turn>, tail: real) returns (kept: bool)
    requires Forward(turns, tail)
    ensures kept <==> Steady(turns, tail, RenewInterval(ReservationInSecs(minDuration)) as real)
  {
    LeaseLastsTwoIntervals(minDuration);
    var lease := ReservationInSecs(minDuration) as real;
    var interval := RenewInterval(ReservationInSecs(minDuration)) as real;
    var attemptAt, renewedAt, lost := start, start, false;
    for i := 0 to |turns|
      invariant Holder(attemptAt, renewedAt, lost) == AfterTurns(start, turns[..i], interval, lease)
    {
      assert turns[..i + 1][..i] == turns[..i];
      attemptAt := attemptAt + interval + turns[i].delay;
      lost := lost || attemptAt >= renewedAt + lease;
      if turns[i].ok && !lost {
        renewedAt := attemptAt;
      }
    }
    assert turns[..|turns|] == turns;
    KeptIffSteady(start, turns, tail, interval);
    return !lost && attemptAt + tail < renewedAt + lease;
  }
}
