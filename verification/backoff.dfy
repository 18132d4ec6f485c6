/**
 * The per-key backoff and its replays (pkg/router/handler.go): a plain change of a key that is throttled is dropped,
 * and a sleeping replay of the key answers for it.
 */
module Backoff {
  import opened Kube
  import opened Limiter

  datatype LimiterKey = LimiterKey(key: string, gvk: GVK)

  /** A goroutine asleep until `wake`; then it ends the wait of its key and asks for a replay. */
  datatype Sleeper = Sleeper(key: LimiterKey, wake: real)

  /**
   * The limiter state. `made` is a history variable: when the current limiter of each key was asked for a reservation.
   */
  datatype Gate = Gate(limiters: map<LimiterKey, Bucket>,
                       waiting: set<LimiterKey>,
                       sleepers: seq<Sleeper>,
                       made: map<LimiterKey, seq<real>>)

  /**
   * Whether a plain change of `k` may go ahead. The reservation is made at `now`, and how long it has to wait is asked
   * a moment later, at `later`.
   */
  function CheckDelay(g: Gate, k: LimiterKey, now: real, later: real): (Gate, bool) {
    if k in g.waiting then (g, false)
    else
      var b := Reserve(if k in g.limiters then g.limiters[k] else Full(now), now);
      var made := (if k in g.limiters && k in g.made then g.made[k] else []) + [now];
      var act := TimeToAct(b, now);
      var g' := g.(limiters := g.limiters[k := b], made := g.made[k := made]);
      if act - later > 0.0
      then (g'.(waiting := g.waiting + {k}, sleepers := g.sleepers + [Sleeper(k, act)]), false)
      else (g', true)
  }

  function Forget(g: Gate, k: LimiterKey): Gate {
    g.(limiters := g.limiters - {k}, made := g.made - {k})
  }

  /** The i-th sleeper wakes. */
  function Wake(g: Gate, i: nat): Gate
    requires i < |g.sleepers|
  {
    g.(waiting := g.waiting - {g.sleepers[i].key}, sleepers := g.sleepers[..i] + g.sleepers[i + 1..])
  }

  // ----- what always holds -----

  /** A key waits exactly while one replay for it is outstanding. */
  ghost predicate OneSleeperEach(g: Gate) {
    && (forall i, j :: 0 <= i < j < |g.sleepers| ==> g.sleepers[i].key != g.sleepers[j].key)
    && (forall k :: k in g.waiting <==> exists i :: 0 <= i < |g.sleepers| && g.sleepers[i].key == k)
  }

  /** A limiter's bucket is what its reservations make it. */
  ghost predicate Accounted(g: Gate, now: real) {
    forall k :: k in g.limiters ==>
      && k in g.made && g.made[k] != [] && Ascending(g.made[k])
      && g.limiters[k] == After(g.made[k]) && g.limiters[k].last <= now
  }

  /** A key that does not wait owes nothing; one that does owes nothing by the time its replay comes. */
  ghost predicate Solvent(g: Gate, now: real) {
    && (forall k :: k in g.limiters && k !in g.waiting ==> Balance(g.limiters[k], now) >= 0.0)
    && (forall s :: s in g.sleepers && s.key in g.limiters ==> Zero(g.limiters[s.key]) <= s.wake)
  }

  /** No replay is more than five seconds away. */
  ghost predicate Soon(g: Gate, now: real) {
    forall s :: s in g.sleepers ==> s.wake <= now + 5.0
  }

  ghost predicate Sound(g: Gate, now: real) {
    OneSleeperEach(g) && Accounted(g, now) && Solvent(g, now) && Soon(g, now)
  }

  lemma SoundLater(g: Gate, now: real, later: real)
    requires Sound(g, now) && now <= later
    ensures Sound(g, later)
  {
    forall k | k in g.limiters && k !in g.waiting ensures Balance(g.limiters[k], later) >= 0.0 {
      assert Balance(g.limiters[k], now) >= 0.0;
    }
  }

  /** A reservation by a key that does not wait is late by at most five seconds. */
  lemma CheckDelayReserves(g: Gate, k: LimiterKey, now: real, later: real)
    requires Sound(g, now) && now <= later && k !in g.waiting
    ensures var (g', ok) := CheckDelay(g, k, now, later);
            var b, times := g'.limiters[k], g'.made[k];
            && b == After(times) && Ascending(times) && b.last == now
            && Zero(b) <= now + 5.0
            && ok == (Zero(b) <= later)
            && (ok ==> Balance(b, later) >= 0.0)
            && (!ok ==> g'.sleepers == g.sleepers + [Sleeper(k, Zero(b))])
  {
    var before := if k in g.limiters then g.limiters[k] else Full(now);
    var b := Reserve(before, now);
    if k in g.limiters {
      var times := g.made[k] + [now];
      assert times[..|g.made[k]|] == g.made[k];
      LastReservation(g.made[k]);
    }
    ReserveMovesZero(before, now);
    BalanceByZero(before, now);
    BalanceByZero(b, later);
  }

  lemma LastReservation(times: seq<real>)
    requires times != []
    ensures After(times).last == times[|times| - 1]
  {}

  lemma CheckDelayAccounts(g: Gate, k: LimiterKey, now: real, later: real)
    requires Accounted(g, later) && Sound(g, now) && now <= later && k !in g.waiting
    ensures Accounted(CheckDelay(g, k, now, later).0, later)
  {
    CheckDelayReserves(g, k, now, later);
  }

  lemma CheckDelaySolvent(g: Gate, k: LimiterKey, now: real, later: real)
    requires Solvent(g, later) && Sound(g, now) && now <= later && k !in g.waiting
    requires forall s :: s in g.sleepers ==> s.key != k
    ensures Solvent(CheckDelay(g, k, now, later).0, later)
  {
    CheckDelayReserves(g, k, now, later);
    var g' := CheckDelay(g, k, now, later).0;
    forall x | x in g'.limiters && x !in g'.waiting ensures Balance(g'.limiters[x], later) >= 0.0 {
      if x != k { assert x in g.limiters && x !in g.waiting; }
    }
    forall s | s in g'.sleepers && s.key in g'.limiters ensures Zero(g'.limiters[s.key]) <= s.wake {
      assert s in g.sleepers || s.key == k;
    }
  }

  lemma CheckDelaySoon(g: Gate, k: LimiterKey, now: real, later: real)
    requires Soon(g, later) && Sound(g, now) && now <= later && k !in g.waiting
    ensures Soon(CheckDelay(g, k, now, later).0, later)
  {
    CheckDelayReserves(g, k, now, later);
  }

  lemma CheckDelayKeeps(g: Gate, k: LimiterKey, now: real, later: real)
    requires Sound(g, now) && now <= later
    ensures Sound(CheckDelay(g, k, now, later).0, later)
    ensures var (g', ok) := CheckDelay(g, k, now, later);
            && (ok ==> k !in g'.waiting)
            && (!ok ==> k in g'.waiting)
            && g.waiting <= g'.waiting
  {
    SoundLater(g, now, later);
    if k !in g.waiting {
      var g' := CheckDelay(g, k, now, later).0;
      forall s | s in g.sleepers ensures s.key != k {
        var i :| 0 <= i < |g.sleepers| && g.sleepers[i] == s;
      }
      CheckDelayAccounts(g, k, now, later);
      CheckDelaySolvent(g, k, now, later);
      CheckDelaySoon(g, k, now, later);
      assert OneSleeperEach(g') by {
        if k in g'.waiting {
          SleeperAdded(g, g', k);
        }
      }
    }
  }

  lemma SleeperAdded(g: Gate, g': Gate, k: LimiterKey)
    requires OneSleeperEach(g) && k !in g.waiting && g'.waiting == g.waiting + {k}
    requires |g'.sleepers| == |g.sleepers| + 1 && g'.sleepers[..|g.sleepers|] == g.sleepers
    requires g'.sleepers[|g.sleepers|].key == k
    ensures OneSleeperEach(g')
  {
    var n := |g.sleepers|;
    assert forall i :: 0 <= i < n ==> g'.sleepers[i] == g.sleepers[i];
    forall x | x in g'.waiting ensures exists i :: 0 <= i < |g'.sleepers| && g'.sleepers[i].key == x {
      if x == k {
        assert g'.sleepers[n].key == x;
      } else {
        var i :| 0 <= i < |g.sleepers| && g.sleepers[i].key == x;
        assert g'.sleepers[i].key == x;
      }
    }
  }

  lemma ForgetKeeps(g: Gate, k: LimiterKey, now: real)
    requires Sound(g, now)
    ensures Sound(Forget(g, k), now)
  {}

  lemma WakeKeeps(g: Gate, i: nat, now: real)
    requires Sound(g, now) && i < |g.sleepers| && g.sleepers[i].wake <= now
    ensures Sound(Wake(g, i), now)
    ensures Wake(g, i).waiting == g.waiting - {g.sleepers[i].key} && g.sleepers[i].key in g.waiting
  {
    var g', k := Wake(g, i), g.sleepers[i].key;
    assert forall j :: 0 <= j < |g'.sleepers| ==> g'.sleepers[j] == g.sleepers[if j < i then j else j + 1];
    assert g.sleepers[i].key == k;
    forall x | x in g'.waiting ensures exists j :: 0 <= j < |g'.sleepers| && g'.sleepers[j].key == x {
      var j :| 0 <= j < |g.sleepers| && g.sleepers[j].key == x;
      assert g'.sleepers[if j < i then j else j - 1].key == x;
    }
    forall x | x in g'.limiters && x !in g'.waiting ensures Balance(g'.limiters[x], now) >= 0.0 {
      if x == k {
        assert g.sleepers[i] in g.sleepers;
        BalanceByZero(g.limiters[x], now);
      }
    }
    forall s | s in g'.sleepers ensures s in g.sleepers {}
  }
}
