/**
 * The token bucket behind the per-key backoff (pkg/router/handler.go): one token every five seconds, ten at most.
 * Time and tokens are real numbers. The bucket is shown to be the same as a single "zero time" that every reservation
 * moves five seconds ahead, and from that follows how many reservations can fall into any window.
 */
module Limiter {
  import opened Kube

  const BURST := 10.0
  const SECONDS_PER_TOKEN := 5.0

  datatype Bucket = Bucket(tokens: real, last: real)

  /** A bucket is full when it is first used. */
  function Full(now: real): Bucket {
    Bucket(BURST, now)
  }

  function Min(a: real, b: real): real { if a < b then a else b }
  function Max(a: real, b: real): real { if a < b then b else a }

  /** The tokens in the bucket at a time; a clock that went backwards adds none. */
  function Balance(b: Bucket, now: real): real {
    var last := if now < b.last then now else b.last;
    Min(BURST, b.tokens + (now - last) / SECONDS_PER_TOKEN)
  }

  /** Takes one token, on credit if need be. */
  function Reserve(b: Bucket, now: real): Bucket {
    Bucket(Balance(b, now) - 1.0, now)
  }

  /** When the holder of a reservation made at `now`, which left the bucket as `b`, may act. */
  function TimeToAct(b: Bucket, now: real): real {
    if b.tokens < 0.0 then now + -b.tokens * SECONDS_PER_TOKEN else now
  }

  // ----- the zero time -----

  /** The time at which the bucket would have had no token, going by its rate alone. */
  function Zero(b: Bucket): real {
    b.last - b.tokens * SECONDS_PER_TOKEN
  }

  lemma ReserveMovesZero(b: Bucket, now: real)
    requires b.last <= now
    ensures Zero(Reserve(b, now)) == Max(now - 50.0, Zero(b)) + 5.0
    ensures TimeToAct(Reserve(b, now), now) == Max(now, Zero(Reserve(b, now)))
  {}

  lemma BalanceByZero(b: Bucket, now: real)
    requires b.last <= now
    ensures Balance(b, now) == Min(10.0, (now - Zero(b)) / 5.0)
  {}

  /** From a bucket that owes nothing, no reservation has to wait more than five seconds. */
  lemma DelayIsBounded(b: Bucket, now: real)
    requires Balance(b, now) >= 0.0
    ensures TimeToAct(Reserve(b, now), now) - now <= 5.0
  {}

  // ----- sequences of reservations -----

  ghost predicate Ascending(times: seq<real>) {
    forall i, j :: 0 <= i <= j < |times| ==> times[i] <= times[j]
  }

  /** The bucket after reservations at these times, starting full at the first. */
  function After(times: seq<real>): Bucket
    requires times != []
  {
    var n := |times| - 1;
    Reserve(if n == 0 then Full(times[0]) else After(times[..n]), times[n])
  }

  /** When the i-th of these reservations may act. */
  function Act(times: seq<real>, i: nat): real
    requires i < |times|
  {
    TimeToAct(After(times[..i + 1]), times[i])
  }

  lemma AfterStep(times: seq<real>, i: nat)
    requires Ascending(times) && i < |times|
    ensures var b := After(times[..i + 1]);
            && b.last == times[i]
            && Zero(b) >= times[i] - 45.0
            && Act(times, i) == Max(times[i], Zero(b))
            && (i > 0 ==> Zero(b) >= Zero(After(times[..i])) + 5.0)
  {
    assert times[..i + 1][..i] == times[..i];
    if i == 0 {
      ReserveMovesZero(Full(times[0]), times[0]);
    } else {
      var b := After(times[..i]);
      assert b.last == times[i - 1] by {
        assert times[..i][i - 1] == times[i - 1];
      }
      ReserveMovesZero(b, times[i]);
    }
  }

  lemma {:induction false} ZeroMovesOn(times: seq<real>, i: nat, j: nat)
    requires Ascending(times) && i <= j < |times|
    ensures Zero(After(times[..j + 1])) >= Zero(After(times[..i + 1])) + 5.0 * (j - i) as real
    decreases j
  {
    if i < j {
      ZeroMovesOn(times, i, j - 1);
      AfterStep(times, j);
    }
  }

  /** Reservations act in the order they were made. */
  lemma ActsAscend(times: seq<real>, i: nat, j: nat)
    requires Ascending(times) && i <= j < |times|
    ensures Act(times, i) <= Act(times, j)
  {
    AfterStep(times, i);
    AfterStep(times, j);
    ZeroMovesOn(times, i, j);
  }

  /** Reservations i to j cannot all act within less time than it takes to earn what the burst does not cover. */
  lemma SpanBound(times: seq<real>, i: nat, j: nat)
    requires Ascending(times) && i <= j < |times|
    ensures (j - i + 1) as real <= 10.0 + (Act(times, j) - Act(times, i)) / 5.0
  {
    AfterStep(times, i);
    AfterStep(times, j);
    ZeroMovesOn(times, i, j);
  }

  ghost function InWindow(times: seq<real>, from: real, length: real): set<nat> {
    set i: nat | i < |times| && from <= Act(times, i) <= from + length
  }

  function UpTo(n: nat): (s: set<nat>)
    ensures forall i: nat :: i in s <==> i < n
    ensures |s| == n
  {
    if n == 0 then {} else UpTo(n - 1) + {n - 1}
  }

  lemma Extremes(s: set<nat>) returns (lo: nat, hi: nat)
    requires s != {}
    ensures lo in s && hi in s && forall i :: i in s ==> lo <= i <= hi
  {
    var x :| x in s;
    if s == {x} {
      lo, hi := x, x;
    } else {
      lo, hi := Extremes(s - {x});
      assert forall i :: i in s ==> i == x || i in s - {x};
      lo, hi := if x < lo then x else lo, if x > hi then x else hi;
    }
  }

  /** Of all reservations from one bucket, at most 10 + T/5 may act in any window of T seconds. */
  lemma RateBound(times: seq<real>, from: real, length: real)
    requires Ascending(times) && length >= 0.0
    ensures |InWindow(times, from, length)| as real <= 10.0 + length / 5.0
  {
    var hits := InWindow(times, from, length);
    if hits != {} {
      var lo, hi := Extremes(hits);
      SpanBound(times, lo, hi);
      var span := UpTo(hi + 1) - UpTo(lo);
      assert UpTo(hi + 1) == span + UpTo(lo);
      SubsetSize(hits, span);
    }
  }
}
