/**
 * The throttled queue seen from its events alone (pkg/router/handler.go): which plain changes of a key asked for a
 * reservation since its limiter was last forgotten, and what the rate of one in five seconds with a burst of ten then
 * means for the next one. Neither the buckets nor any history kept with them is mentioned.
 */
module Metering {
  import opened Kube
  import opened Limiter
  import opened Backoff
  import opened Throttling

  // ----- the rate, by counting -----

  /** Of the requests from the j-th on there are no more than the burst and the time since then allow. */
  predicate Covered(asked: seq<real>, j: nat, t: real)
    requires j < |asked|
  {
    (|asked| - j) as real <= 10.0 + (t - asked[j]) / 5.0
  }

  ghost predicate AllCovered(asked: seq<real>, t: real) {
    forall j :: 0 <= j < |asked| ==> Covered(asked, j, t)
  }

  /** The last of these requests may act at this time. */
  ghost predicate MayGo(asked: seq<real>, t: real)
    requires asked != []
  {
    asked[|asked| - 1] <= t && AllCovered(asked, t)
  }

  /** The least time at which it may. */
  ghost predicate IsDue(asked: seq<real>, t: real)
    requires asked != []
  {
    MayGo(asked, t) && forall earlier :: earlier < t ==> !MayGo(asked, earlier)
  }

  lemma CoveredByOneMore(asked: seq<real>, j: nat, t: real)
    requires j < |asked| - 1
    ensures Covered(asked, j, t) <==> Covered(asked[..|asked| - 1], j, t - 5.0)
  {}

  lemma AllCoveredByOneMore(asked: seq<real>, t: real)
    requires asked != []
    ensures AllCovered(asked, t) <==> AllCovered(asked[..|asked| - 1], t - 5.0) && asked[|asked| - 1] - 45.0 <= t
  {
    var n := |asked| - 1;
    var init, sooner := asked[..n], t - 5.0;
    assert Covered(asked, n, t) <==> asked[n] - 45.0 <= t;
    if AllCovered(asked, t) {
      forall j | 0 <= j < |init| ensures Covered(init, j, sooner) {
        CoveredByOneMore(asked, j, t);
      }
    }
    if AllCovered(init, sooner) && asked[n] - 45.0 <= t {
      forall j | 0 <= j < |asked| ensures Covered(asked, j, t) {
        if j < n {
          assert Covered(init, j, sooner);
          CoveredByOneMore(asked, j, t);
        }
      }
    }
  }

  /** The bucket's debt, by counting. */
  lemma {:induction false} ZeroExactly(asked: seq<real>, t: real)
    requires asked != [] && Ascending(asked)
    ensures Limiter.Zero(After(asked)) <= t <==> AllCovered(asked, t)
    decreases |asked|
  {
    var n := |asked| - 1;
    var init := asked[..n];
    AllCoveredByOneMore(asked, t);
    if n == 0 {
      ReserveMovesZero(Full(asked[0]), asked[0]);
    } else {
      ZeroExactly(init, t - 5.0);
      LastReservation(init);
      ReserveMovesZero(After(init), asked[n]);
    }
  }

  /** A reservation may act exactly when counting says so: neither earlier nor later. */
  lemma ActsExactly(asked: seq<real>, t: real)
    requires asked != [] && Ascending(asked)
    ensures Act(asked, |asked| - 1) <= t <==> MayGo(asked, t)
  {
    var n := |asked| - 1;
    assert asked[..n + 1] == asked;
    AfterStep(asked, n);
    ZeroExactly(asked, t);
  }

  lemma DueExactly(asked: seq<real>, t: real)
    requires asked != [] && Ascending(asked)
    ensures IsDue(asked, t) <==> t == Act(asked, |asked| - 1)
  {
    var act := Act(asked, |asked| - 1);
    ActsExactly(asked, t);
    ActsExactly(asked, act);
    forall earlier | earlier < act ensures !MayGo(asked, earlier) {
      ActsExactly(asked, earlier);
    }
  }

  // ----- the meter of a key, from the events of a run -----

  /** When the key's plain changes asked since its limiter was last forgotten, and whether it waits for a replay. */
  datatype Meter = Meter(asked: seq<real>, waiting: bool)

  ghost function MeterStep(m: Meter, s: System, e: Event, k: LimiterKey): Meter
    requires Enabled(s, e)
  {
    match e
    case Begin(job, later, gone) =>
      if job.key != k || (job.mode.Plain? && m.waiting) then m
      else if job.mode.Plain? && !MayGo(m.asked + [s.now], later) then Meter(m.asked + [s.now], true)
      else if gone then m.(asked := [])
      else if job.mode.Plain? then m.(asked := m.asked + [s.now])
      else m
    case Awake(i) => if s.gate.sleepers[i].key == k then m.(waiting := false) else m
    case _ => m
  }

  ghost function Metered(run: seq<System>, events: seq<Event>, n: nat, k: LimiterKey): Meter
    requires Reachable(run, events) && n <= |events|
  {
    if n == 0 then Meter([], false) else MeterStep(Metered(run, events, n - 1, k), run[n - 1], events[n - 1], k)
  }

  /** The gate keeps what the meter says. */
  ghost predicate Agrees(g: Gate, k: LimiterKey, m: Meter) {
    && (k in g.waiting <==> m.waiting)
    && (k in g.limiters ==> k in g.made && g.made[k] == m.asked)
    && (k !in g.limiters ==> m.asked == [])
  }

  /** One check of a key that does not wait. */
  lemma CheckExactly(g: Gate, k: LimiterKey, now: real, later: real, m: Meter)
    requires Sound(g, now) && now <= later && k !in g.waiting && Agrees(g, k, m)
    ensures var (g', ok) := CheckDelay(g, k, now, later);
            var asked := m.asked + [now];
            && (ok <==> MayGo(asked, later))
            && Agrees(g', k, Meter(asked, !ok))
            && (ok ==> g'.waiting == g.waiting && g'.sleepers == g.sleepers)
            && (!ok ==> g'.waiting == g.waiting + {k} && Adds(g, g', k, asked))
  {
    var (g', ok) := CheckDelay(g, k, now, later);
    var asked := m.asked + [now];
    CheckDelayReserves(g, k, now, later);
    assert g'.made[k] == asked;
    assert asked[..|asked|] == asked;
    AfterStep(asked, |asked| - 1);
    ActsExactly(asked, later);
    if !ok {
      DueExactly(asked, Limiter.Zero(g'.limiters[k]));
    }
  }

  /** A replay is put to sleep until the request is due. */
  ghost predicate Adds(g: Gate, g': Gate, k: LimiterKey, asked: seq<real>)
    requires asked != []
  {
    && |g'.sleepers| == |g.sleepers| + 1 && g'.sleepers[..|g.sleepers|] == g.sleepers
    && g'.sleepers[|g.sleepers|].key == k && IsDue(asked, g'.sleepers[|g.sleepers|].wake)
  }

  lemma MeterStepAgrees(s: System, e: Event, k: LimiterKey, m: Meter)
    requires Invariant(s) && Enabled(s, e) && Agrees(s.gate, k, m)
    ensures Agrees(Next(s, e).gate, k, MeterStep(m, s, e, k))
  {
    match e
    case Begin(job, later, gone) =>
      if job.key == k && job.mode.Plain? && k !in s.gate.waiting {
        CheckExactly(s.gate, k, s.now, later, m);
      }
    case Awake(i) => WakeKeeps(s.gate, i, s.now);
    case _ =>
  }

  /** In every reachable state. */
  lemma {:induction false} AlwaysAgrees(run: seq<System>, events: seq<Event>, n: nat, k: LimiterKey)
    requires Reachable(run, events) && n <= |events|
    ensures Agrees(run[n].gate, k, Metered(run, events, n, k))
  {
    if n > 0 {
      AlwaysAgrees(run, events, n - 1, k);
      AlwaysInvariant(run, events, n - 1);
      MeterStepAgrees(run[n - 1], events[n - 1], k, Metered(run, events, n - 1, k));
    }
  }

  /** Whether a job that is begun goes ahead, going by the events so far. */
  ghost predicate GoesAhead(m: Meter, job: Job, now: real, later: real) {
    !job.mode.Plain? || (!m.waiting && MayGo(m.asked + [now], later))
  }

  /**
   * A job that is begun goes ahead exactly if it is a triggered one or a replay, or its key does not wait and the rate
   * allows it. One that does not is dropped; its key waits, for the replay it already has or for one at the time its own
   * request is due.
   */
  lemma BeginExactly(run: seq<System>, events: seq<Event>, n: nat)
    requires Reachable(run, events) && n < |events| && events[n].Begin?
    ensures var s, s', job := run[n], run[n + 1], events[n].job;
            var m := Metered(run, events, n, job.key);
            if GoesAhead(m, job, s.now, events[n].later) then
              && s'.busy == s.busy + {Run(job, At(s.latest, job.key))}
              && s'.gate.waiting == s.gate.waiting && s'.gate.sleepers == s.gate.sleepers
            else
              && s'.busy == s.busy && s'.gate.waiting == s.gate.waiting + {job.key}
              && if m.waiting then s'.gate == s.gate else Adds(s.gate, s'.gate, job.key, m.asked + [s.now])
  {
    var s, job := run[n], events[n].job;
    var m := Metered(run, events, n, job.key);
    AlwaysAgrees(run, events, n, job.key);
    AlwaysInvariant(run, events, n);
    if job.mode.Plain? && !m.waiting {
      CheckExactly(s.gate, job.key, s.now, events[n].later, m);
    }
  }

  /** The requests that are due in a window. */
  ghost predicate DueWithin(asked: seq<real>, i: nat, from: real, length: real)
    requires i < |asked|
  {
    LastIsDueWithin(asked[..i + 1], from, length)
  }

  ghost predicate LastIsDueWithin(asked: seq<real>, from: real, length: real)
    requires asked != []
  {
    exists t :: from <= t <= from + length && IsDue(asked, t)
  }

  lemma DueWithinExactly(asked: seq<real>, i: nat, from: real, length: real)
    requires i < |asked| && Ascending(asked)
    ensures DueWithin(asked, i, from, length) <==> from <= Act(asked, i) <= from + length
  {
    var init := asked[..i + 1];
    assert init[..i + 1] == init;
    assert Ascending(init);
    DueExactly(init, Act(init, i));
    if DueWithin(asked, i, from, length) {
      var t :| from <= t <= from + length && IsDue(init, t);
      DueExactly(init, t);
    }
  }

  /** Since the limiter of a key was last forgotten, at most 10 + T/5 of its requests are due in any window of T seconds. */
  lemma RequestsAreRateBound(run: seq<System>, events: seq<Event>, n: nat, k: LimiterKey, from: real, length: real)
    requires Reachable(run, events) && n <= |events| && length >= 0.0
    ensures var asked := Metered(run, events, n, k).asked;
            |set i: nat | i < |asked| && DueWithin(asked, i, from, length)| as real <= 10.0 + length / 5.0
  {
    var asked := Metered(run, events, n, k).asked;
    AlwaysAgrees(run, events, n, k);
    AlwaysInvariant(run, events, n);
    assert Ascending(asked);
    forall i: nat | i < |asked|
      ensures DueWithin(asked, i, from, length) <==> i in InWindow(asked, from, length)
    {
      DueWithinExactly(asked, i, from, length);
    }
    assert (set i: nat | i < |asked| && DueWithin(asked, i, from, length)) == InWindow(asked, from, length);
    RateBound(asked, from, length);
  }
}
