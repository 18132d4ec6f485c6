/**
 * Runs of the throttled queue (pkg/router/handler.go): changes arrive, are delivered, are suppressed by the limiter or
 * handled, fail and come back, and sleeping replays wake, in any order and with time passing in between. No change is
 * ever lost, and the limiter's promises hold in every reachable state.
 */
module Throttling {
  import opened Limiter
  import opened Backoff
  import opened Cascade

  datatype Job = Job(key: LimiterKey, mode: Mode)

  /** A handler at work on a key; `version` is the version of the object it read when it began. */
  datatype Run = Run(job: Job, version: nat)

  /**
   * `news` holds the changes not yet delivered to the queue, `latest` the version of each object, and `handled` the
   * newest version a handler finished with.
   */
  datatype System = System(now: real,
                           gate: Gate,
                           news: set<LimiterKey>,
                           queue: set<Job>,
                           busy: set<Run>,
                           latest: map<LimiterKey, nat>,
                           handled: map<LimiterKey, nat>)

  function At(versions: map<LimiterKey, nat>, k: LimiterKey): nat {
    if k in versions then versions[k] else 0
  }

  datatype Event =
    | Change(key: LimiterKey)
    | Deliver(key: LimiterKey)
    | Enqueue(job: Job)
    | Begin(job: Job, later: real, gone: bool)
    | Finish(run: Run, ok: bool)
    | Awake(sleeper: nat)
    | Tick(later: real)

  /** When an event can happen. A key is not worked on twice at once, and only the limiter asks for replays. */
  predicate Enabled(s: System, e: Event) {
    match e
    case Change(_) => true
    case Deliver(k) => k in s.news
    case Enqueue(job) => !job.mode.Replayed?
    case Begin(job, later, _) => job in s.queue && s.now <= later && forall r :: r in s.busy ==> r.job != job
    case Finish(run, _) => run in s.busy
    case Awake(i) => i < |s.gate.sleepers| && s.gate.sleepers[i].wake <= s.now
    case Tick(later) => s.now <= later
  }

  /** Only plain jobs ask the limiter. When the object is gone, its limiter is forgotten. */
  function Attempt(g: Gate, job: Job, now: real, later: real, gone: bool): (Gate, bool) {
    var (g', ok) := if job.mode.Plain? then CheckDelay(g, job.key, now, later) else (g, true);
    (if ok && gone then Forget(g', job.key) else g', ok)
  }

  /** A job that goes ahead reads the latest version; a failed one is queued again. */
  function Next(s: System, e: Event): System
    requires Enabled(s, e)
  {
    match e
    case Change(k) => s.(latest := s.latest[k := At(s.latest, k) + 1], news := s.news + {k})
    case Deliver(k) => s.(news := s.news - {k}, queue := s.queue + {Job(k, Plain)})
    case Enqueue(job) => s.(queue := s.queue + {job})
    case Begin(job, later, gone) =>
      var (gate, ok) := Attempt(s.gate, job, s.now, later, gone);
      s.(now := later, gate := gate, queue := s.queue - {job},
         busy := if ok then s.busy + {Run(job, At(s.latest, job.key))} else s.busy)
    case Finish(run, ok) =>
      if ok then
        var k := run.job.key;
        var version := if At(s.handled, k) < run.version then run.version else At(s.handled, k);
        s.(busy := s.busy - {run}, handled := s.handled[k := version])
      else s.(busy := s.busy - {run}, queue := s.queue + {run.job})
    case Awake(i) =>
      s.(gate := Wake(s.gate, i), queue := s.queue + {Job(s.gate.sleepers[i].key, Replayed)})
    case Tick(later) => s.(now := later)
  }

  ghost predicate Reachable(run: seq<System>, events: seq<Event>) {
    && |run| == |events| + 1
    && run[0].gate == Gate(map[], {}, [], map[])
    && run[0].news == {} && run[0].queue == {} && run[0].busy == {} && run[0].latest == map[] && run[0].handled == map[]
    && forall i :: 0 <= i < |events| ==> Enabled(run[i], events[i]) && run[i + 1] == Next(run[i], events[i])
  }

  // ----- no change is lost -----

  /** Something is still going to look at the latest version of the object. */
  predicate Pending(s: System, k: LimiterKey) {
    || k in s.news
    || (exists job :: job in s.queue && job.key == k)
    || k in s.gate.waiting
    || (exists run :: run in s.busy && run.job.key == k && run.version == At(s.latest, k))
  }

  ghost predicate NothingLost(s: System) {
    forall k :: At(s.handled, k) != At(s.latest, k) ==> Pending(s, k)
  }

  ghost predicate NothingInvented(s: System) {
    && (forall k :: At(s.handled, k) <= At(s.latest, k))
    && (forall r :: r in s.busy ==> r.version <= At(s.latest, r.job.key))
  }

  ghost predicate Invariant(s: System) {
    Sound(s.gate, s.now) && NothingLost(s) && NothingInvented(s)
  }

  lemma NextIsSound(s: System, e: Event)
    requires Sound(s.gate, s.now) && Enabled(s, e)
    ensures Sound(Next(s, e).gate, Next(s, e).now)
  {
    match e
    case Begin(job, later, gone) =>
      SoundLater(s.gate, s.now, later);
      if job.mode.Plain? {
        CheckDelayKeeps(s.gate, job.key, s.now, later);
        ForgetKeeps(CheckDelay(s.gate, job.key, s.now, later).0, job.key, later);
      } else {
        ForgetKeeps(s.gate, job.key, later);
      }
    case Awake(i) => WakeKeeps(s.gate, i, s.now);
    case Tick(later) => SoundLater(s.gate, s.now, later);
    case _ =>
  }

  lemma NextInventsNothing(s: System, e: Event)
    requires NothingInvented(s) && Enabled(s, e)
    ensures NothingInvented(Next(s, e))
  {}

  /** A job of another key, or one put back, keeps the key pending. */
  lemma NextLosesNothing(s: System, e: Event, k: LimiterKey)
    requires Sound(s.gate, s.now) && NothingInvented(s) && Enabled(s, e)
    requires At(s.handled, k) != At(s.latest, k) ==> Pending(s, k)
    ensures At(Next(s, e).handled, k) != At(Next(s, e).latest, k) ==> Pending(Next(s, e), k)
  {
    var s' := Next(s, e);
    match e
    case Change(x) =>
      if x != k && At(s.handled, k) != At(s.latest, k) { assert Pending(s', k); }
    case Deliver(x) =>
      assert Job(x, Plain) in s'.queue;
    case Enqueue(job) =>
      QueueGrows(s, s', k);
    case Begin(job, later, _) =>
      if At(s.handled, k) != At(s.latest, k) { BeginLosesNothing(s, e, k); }
    case Finish(run, ok) =>
      if ok { QueueGrows(s, s', k); } else { assert run.job in s'.queue; QueueGrows(s, s', k); }
    case Awake(i) =>
      var woken := Job(s.gate.sleepers[i].key, Replayed);
      assert woken in s'.queue;
      QueueGrows(s, s', k);
    case Tick(_) =>
  }

  lemma QueueGrows(s: System, s': System, k: LimiterKey)
    requires s.queue <= s'.queue
    ensures (exists job :: job in s.queue && job.key == k) ==> exists job :: job in s'.queue && job.key == k
  {}

  lemma BeginLosesNothing(s: System, e: Event, k: LimiterKey)
    requires e.Begin? && Sound(s.gate, s.now) && Enabled(s, e) && Pending(s, k)
    ensures Pending(Next(s, e), k)
  {
    var s' := Next(s, e);
    if e.job.mode.Plain? {
      CheckDelayKeeps(s.gate, e.job.key, s.now, e.later);
    }
    if e.job.key == k {
      if e.job.mode.Plain? && !CheckDelay(s.gate, k, s.now, e.later).1 {
        assert k in s'.gate.waiting;
      } else {
        assert Run(e.job, At(s'.latest, k)) in s'.busy;
      }
    } else if exists job :: job in s.queue && job.key == k {
      var job :| job in s.queue && job.key == k;
      assert job in s'.queue;
    } else if exists run :: run in s.busy && run.job.key == k && run.version == At(s.latest, k) {
      var run :| run in s.busy && run.job.key == k && run.version == At(s.latest, k);
      assert run in s'.busy;
    }
  }

  lemma NextKeeps(s: System, e: Event)
    requires Invariant(s) && Enabled(s, e)
    ensures Invariant(Next(s, e))
  {
    NextIsSound(s, e);
    NextInventsNothing(s, e);
    forall k | At(Next(s, e).handled, k) != At(Next(s, e).latest, k) ensures Pending(Next(s, e), k) {
      NextLosesNothing(s, e, k);
    }
  }

  /** Every reachable state keeps the invariant. */
  lemma {:induction false} AlwaysInvariant(run: seq<System>, events: seq<Event>, i: nat)
    requires Reachable(run, events) && i < |run|
    ensures Invariant(run[i])
  {
    if i > 0 {
      AlwaysInvariant(run, events, i - 1);
      NextKeeps(run[i - 1], events[i - 1]);
    }
  }

  /** A key waits exactly while one replay of it is outstanding, and that replay is at most five seconds away. */
  lemma WaitingHasOneReplay(run: seq<System>, events: seq<Event>, i: nat, k: LimiterKey)
    requires Reachable(run, events) && i < |run|
    ensures var g := run[i].gate;
            var replays := set j | 0 <= j < |g.sleepers| && g.sleepers[j].key == k;
            && (k in g.waiting <==> replays != {})
            && (forall a, b :: a in replays && b in replays ==> a == b)
            && (forall a :: a in replays ==> g.sleepers[a].wake <= run[i].now + 5.0)
  {
    AlwaysInvariant(run, events, i);
    var g := run[i].gate;
    var replays := set j | 0 <= j < |g.sleepers| && g.sleepers[j].key == k;
    if k in g.waiting {
      var j :| 0 <= j < |g.sleepers| && g.sleepers[j].key == k;
      assert j in replays;
    }
    forall a | a in replays ensures g.sleepers[a].wake <= run[i].now + 5.0 {
      assert g.sleepers[a] in g.sleepers;
    }
  }

  /** A key that does not wait has a balance that is not negative, so no delay is ever longer than five seconds. */
  lemma NoDelayExceedsFive(run: seq<System>, events: seq<Event>, i: nat, k: LimiterKey)
    requires Reachable(run, events) && i < |run| && k in run[i].gate.limiters && k !in run[i].gate.waiting
    ensures var b, now := run[i].gate.limiters[k], run[i].now;
            Balance(b, now) >= 0.0 && TimeToAct(Reserve(b, now), now) - now <= 5.0
  {
    AlwaysInvariant(run, events, i);
    DelayIsBounded(run[i].gate.limiters[k], run[i].now);
  }

  /** When nothing is left to do, every object was handled at its latest version. */
  lemma NothingIsForgotten(run: seq<System>, events: seq<Event>, i: nat, k: LimiterKey)
    requires Reachable(run, events) && i < |run|
    requires run[i].news == {} && run[i].queue == {} && run[i].busy == {} && run[i].gate.sleepers == []
    ensures At(run[i].handled, k) == At(run[i].latest, k)
  {
    AlwaysInvariant(run, events, i);
  }

  /** While the limiter of a key is kept, at most 10 + T/5 of its reservations may act in any window of T seconds. */
  lemma KeyIsRateBound(run: seq<System>, events: seq<Event>, i: nat, k: LimiterKey, from: real, length: real)
    requires Reachable(run, events) && i < |run| && k in run[i].gate.limiters && length >= 0.0
    ensures k in run[i].gate.made
    ensures |InWindow(run[i].gate.made[k], from, length)| as real <= 10.0 + length / 5.0
  {
    AlwaysInvariant(run, events, i);
    RateBound(run[i].gate.made[k], from, length);
  }

  // ----- a suppressed change is answered by its replay -----

  /** A key stops waiting only when its replay is queued. */
  lemma WaitEndsInReplay(s: System, e: Event, k: LimiterKey)
    requires Enabled(s, e) && k in s.gate.waiting && k !in Next(s, e).gate.waiting
    ensures e.Awake? && Job(k, Replayed) in Next(s, e).queue
  {}

  /** A queued replay leaves the queue only for a handler that reads the latest version there is. */
  lemma ReplayIsHandled(s: System, e: Event, k: LimiterKey)
    requires Enabled(s, e) && Job(k, Replayed) in s.queue && Job(k, Replayed) !in Next(s, e).queue
    ensures e.Begin? && Run(Job(k, Replayed), At(s.latest, k)) in Next(s, e).busy
  {}

  /**
   * A change suppressed at step i and no longer awaiting a replay at step n was answered: in between, a handler began
   * for its replay and read the version of that moment, or that replay is still queued.
   */
  lemma {:induction false} SuppressedIsAnswered(run: seq<System>, events: seq<Event>, i: nat, n: nat, k: LimiterKey)
    requires Reachable(run, events) && i <= n < |run|
    requires k in run[i].gate.waiting || Job(k, Replayed) in run[i].queue
    ensures
      || k in run[n].gate.waiting
      || Job(k, Replayed) in run[n].queue
      || WasAnswered(run, i, n, k)
    decreases n - i
  {
    if i < n {
      if Job(k, Replayed) in run[i].queue && Job(k, Replayed) !in run[i + 1].queue {
        ReplayIsHandled(run[i], events[i], k);
        assert Answered(run, i, i, n, k);
      } else {
        if Job(k, Replayed) !in run[i].queue && k !in run[i + 1].gate.waiting {
          WaitEndsInReplay(run[i], events[i], k);
        }
        SuppressedIsAnswered(run, events, i + 1, n, k);
        if WasAnswered(run, i + 1, n, k) {
          var j :| Answered(run, i + 1, j, n, k);
          assert Answered(run, i, j, n, k);
        }
      }
    }
  }

  ghost predicate WasAnswered(run: seq<System>, i: int, n: int, k: LimiterKey) {
    exists j :: Answered(run, i, j, n, k)
  }

  ghost predicate Answered(run: seq<System>, i: int, j: int, n: int, k: LimiterKey) {
    0 <= i <= j < n < |run| && Run(Job(k, Replayed), At(run[j].latest, k)) in run[j + 1].busy
  }
}
