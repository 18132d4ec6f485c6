/**
 * The controller and its work queue (pkg/runtime/controller.go): keys that come before the queue exists are kept aside,
 * workers take keys and put failed ones back. One run of the controller; any number of workers, in any order.
 */
module Controllers {
  import opened Kube
  import opened Codecs

  // ----- the work queue -----

  /** Keys to be worked on in order, keys that need work, keys being worked on, and keys that come back at a time. */
  datatype Queue = Queue(queue: seq<string>, dirty: set<string>, processing: set<string>, delayed: map<string, real>)

  function Added(q: Queue, k: string): Queue {
    if k in q.dirty then q
    else q.(dirty := q.dirty + {k}, queue := if k in q.processing then q.queue else q.queue + [k])
  }

  /** A key that is already to come back comes back at the earlier time. */
  function AddedAfter(q: Queue, k: string, after: real, now: real): Queue {
    if after <= 0.0 then Added(q, k)
    else if k in q.delayed && q.delayed[k] <= now + after then q
    else q.(delayed := q.delayed[k := now + after])
  }

  function Taken(q: Queue): Queue
    requires q.queue != []
  {
    q.(queue := q.queue[1..], dirty := q.dirty - {q.queue[0]}, processing := q.processing + {q.queue[0]})
  }

  function Released(q: Queue, k: string): Queue {
    q.(processing := q.processing - {k}, queue := if k in q.dirty then q.queue + [k] else q.queue)
  }

  // ----- the controller -----

  datatype StartKey = StartKey(key: string, after: real)

  /** `failed` is a history variable: the keys whose last sync failed and that have not been taken since. */
  datatype State = State(now: real, startKeys: seq<StartKey>, workqueue: Option<Queue>, failed: set<string>)

  /** Ways for a key to arrive: from the informer or a trigger, rate-limited, or after a delay. */
  datatype Event =
    | EnqueueKey(key: string)
    | EnqueueLimited(key: string, backoff: real)
    | EnqueueAfter(key: string, after: real)
    | Start
    | Get
    | Finish(key: string, ok: bool, backoff: real)
    | Fire(key: string)
    | Tick(later: real)

  predicate Enabled(s: State, e: Event) {
    match e
    case Start => s.workqueue.None?
    case Get => s.workqueue.Some? && s.workqueue.value.queue != []
    case Finish(k, _, _) => s.workqueue.Some? && k in s.workqueue.value.processing
    case Fire(k) => s.workqueue.Some? && k in s.workqueue.value.delayed && s.workqueue.value.delayed[k] <= s.now
    case Tick(later) => s.now <= later
    case _ => true
  }

  /** The queue made at the start, with the first so many start keys. */
  function Flushed(starts: seq<StartKey>, now: real): Queue {
    if starts == [] then Queue([], {}, {}, map[])
    else
      var n := |starts| - 1;
      var q := Flushed(starts[..n], now);
      if starts[n].after == 0.0 then Added(q, starts[n].key) else AddedAfter(q, starts[n].key, starts[n].after, now)
  }

  function Arrive(s: State, k: string, after: real, startAfter: real): State {
    if s.workqueue.None? then s.(startKeys := s.startKeys + [StartKey(k, startAfter)])
    else s.(workqueue := Some(AddedAfter(s.workqueue.value, k, after, s.now)))
  }

  /** A failed key is put back before it is marked as done. */
  function Next(s: State, e: Event): State
    requires Enabled(s, e)
  {
    match e
    case EnqueueKey(k) => Arrive(s, k, 0.0, 0.0)
    case EnqueueLimited(k, backoff) => Arrive(s, k, backoff, 0.0)
    case EnqueueAfter(k, after) => Arrive(s, k, after, after)
    case Start => s.(startKeys := [], workqueue := Some(Flushed(s.startKeys, s.now)))
    case Get =>
      var q := s.workqueue.value;
      s.(workqueue := Some(Taken(q)), failed := s.failed - {q.queue[0]})
    case Finish(k, ok, backoff) =>
      var q := s.workqueue.value;
      if ok then s.(workqueue := Some(Released(q, k)))
      else s.(workqueue := Some(Released(AddedAfter(q, k, backoff, s.now), k)), failed := s.failed + {k})
    case Fire(k) =>
      var q := s.workqueue.value;
      s.(workqueue := Some(Added(q.(delayed := q.delayed - {k}), k)))
    case Tick(later) => s.(now := later)
  }

  ghost predicate Run(run: seq<State>, events: seq<Event>) {
    && |run| == |events| + 1
    && run[0].startKeys == [] && run[0].workqueue == None && run[0].failed == {}
    && forall i :: 0 <= i < |events| ==> Enabled(run[i], events[i]) && run[i + 1] == Next(run[i], events[i])
  }

  // ----- what always holds -----

  /** The queue holds exactly the keys that need work and are not being worked on, each once. */
  ghost predicate Sound(q: Queue) {
    NoDup(q.queue) && forall k :: k in q.queue <==> k in q.dirty && k !in q.processing
  }

  predicate InStartKeys(starts: seq<StartKey>, k: string) {
    exists i :: 0 <= i < |starts| && starts[i].key == k
  }

  predicate InQueue(q: Queue, k: string) {
    k in q.dirty || k in q.delayed
  }

  /** The key is going to be synced, from now on. */
  predicate Scheduled(s: State, k: string) {
    if s.workqueue.None? then InStartKeys(s.startKeys, k) else InQueue(s.workqueue.value, k)
  }

  ghost predicate Invariant(s: State) {
    && (s.workqueue.Some? ==> s.startKeys == [] && Sound(s.workqueue.value))
    && (s.workqueue.None? ==> s.failed == {})
    && (forall k :: k in s.failed ==> Scheduled(s, k))
  }

  lemma AddKeeps(q: Queue, k: string)
    requires Sound(q)
    ensures Sound(Added(q, k)) && k in Added(q, k).dirty
    ensures forall x :: InQueue(q, x) ==> InQueue(Added(q, k), x)
  {
    if k !in q.dirty && k !in q.processing {
      NoDupAppend(q.queue, [k]);
    }
  }

  lemma AddAfterKeeps(q: Queue, k: string, after: real, now: real)
    requires Sound(q)
    ensures Sound(AddedAfter(q, k, after, now)) && InQueue(AddedAfter(q, k, after, now), k)
    ensures forall x :: InQueue(q, x) ==> InQueue(AddedAfter(q, k, after, now), x)
  {
    if after <= 0.0 {
      AddKeeps(q, k);
    }
  }

  lemma TakeKeeps(q: Queue)
    requires Sound(q) && q.queue != []
    ensures Sound(Taken(q)) && q.queue[0] !in q.processing
    ensures forall x :: InQueue(q, x) && x != q.queue[0] ==> InQueue(Taken(q), x)
  {
    assert q.queue == [q.queue[0]] + q.queue[1..];
    assert q.queue[0] in q.queue;
    assert forall i :: 0 <= i < |q.queue[1..]| ==> q.queue[1..][i] == q.queue[i + 1] != q.queue[0];
  }

  lemma DoneKeeps(q: Queue, k: string)
    requires Sound(q) && k in q.processing
    ensures Sound(Released(q, k))
    ensures forall x :: InQueue(q, x) <==> InQueue(Released(q, k), x)
  {
    if k in q.dirty {
      NoDupAppend(q.queue, [k]);
    }
  }

  /** Every start key gets into the queue. */
  lemma {:induction false} FlushKeeps(starts: seq<StartKey>, now: real, k: string)
    ensures Sound(Flushed(starts, now))
    ensures InStartKeys(starts, k) ==> InQueue(Flushed(starts, now), k)
    decreases |starts|
  {
    if starts != [] {
      var n := |starts| - 1;
      FlushKeeps(starts[..n], now, k);
      AddKeeps(Flushed(starts[..n], now), starts[n].key);
      AddAfterKeeps(Flushed(starts[..n], now), starts[n].key, starts[n].after, now);
      if InStartKeys(starts, k) && starts[n].key != k {
        var i :| 0 <= i < |starts| && starts[i].key == k;
        assert starts[..n][i].key == k;
      }
    }
  }

  lemma ArriveKeeps(s: State, k: string, after: real, startAfter: real)
    requires Invariant(s)
    ensures Invariant(Arrive(s, k, after, startAfter)) && Scheduled(Arrive(s, k, after, startAfter), k)
    ensures forall x :: Scheduled(s, x) ==> Scheduled(Arrive(s, k, after, startAfter), x)
  {
    var s' := Arrive(s, k, after, startAfter);
    if s.workqueue.Some? {
      AddAfterKeeps(s.workqueue.value, k, after, s.now);
    } else {
      assert s'.startKeys[|s.startKeys|].key == k;
      forall x | Scheduled(s, x) ensures Scheduled(s', x) {
        var i :| 0 <= i < |s.startKeys| && s.startKeys[i].key == x;
        assert s'.startKeys[i].key == x;
      }
    }
  }

  predicate Accepts(e: Event, k: string) {
    (e.EnqueueKey? || e.EnqueueLimited? || e.EnqueueAfter?) && e.key == k
  }

  /** A worker takes the key; whatever it is going to see, it sees after this moment. */
  predicate Takes(s: State, e: Event, k: string)
    requires Enabled(s, e)
  {
    e.Get? && s.workqueue.value.queue[0] == k
  }

  /** A scheduled key stays scheduled until a worker takes it; accepting a key and failing on it schedule it. */
  lemma NextKeeps(s: State, e: Event)
    requires Invariant(s) && Enabled(s, e)
    ensures Invariant(Next(s, e))
    ensures forall k :: Scheduled(s, k) && !Takes(s, e, k) ==> Scheduled(Next(s, e), k)
    ensures forall k :: Accepts(e, k) ==> Scheduled(Next(s, e), k)
    ensures e.Finish? && !e.ok ==> Scheduled(Next(s, e), e.key)
  {
    match e
    case EnqueueKey(k) => ArriveKeeps(s, k, 0.0, 0.0);
    case EnqueueLimited(k, backoff) => ArriveKeeps(s, k, backoff, 0.0);
    case EnqueueAfter(k, after) => ArriveKeeps(s, k, after, after);
    case Start =>
      FlushKeeps(s.startKeys, s.now, "");
      forall k | InStartKeys(s.startKeys, k) ensures InQueue(Flushed(s.startKeys, s.now), k) {
        FlushKeeps(s.startKeys, s.now, k);
      }
    case Get => TakeKeeps(s.workqueue.value);
    case Finish(k, ok, backoff) => FinishKeeps(s, k, ok, backoff);
    case Fire(k) =>
      var q := s.workqueue.value;
      AddKeeps(q.(delayed := q.delayed - {k}), k);
    case Tick(_) =>
  }

  lemma FinishKeeps(s: State, k: string, ok: bool, backoff: real)
    requires Invariant(s) && Enabled(s, Finish(k, ok, backoff))
    ensures Invariant(Next(s, Finish(k, ok, backoff)))
    ensures forall x :: Scheduled(s, x) ==> Scheduled(Next(s, Finish(k, ok, backoff)), x)
    ensures !ok ==> Scheduled(Next(s, Finish(k, ok, backoff)), k)
  {
    var q := s.workqueue.value;
    if ok {
      DoneKeeps(q, k);
    } else {
      AddAfterKeeps(q, k, backoff, s.now);
      DoneKeeps(AddedAfter(q, k, backoff, s.now), k);
    }
  }

  lemma {:induction false} AlwaysInvariant(run: seq<State>, events: seq<Event>, i: nat)
    requires Run(run, events) && i < |run|
    ensures Invariant(run[i])
  {
    if i > 0 {
      AlwaysInvariant(run, events, i - 1);
      NextKeeps(run[i - 1], events[i - 1]);
    }
  }

  /** Some step between i and j takes the key. */
  ghost predicate TakenBetween(run: seq<State>, events: seq<Event>, i: nat, j: nat, k: string)
    requires Run(run, events) && i <= j < |run|
  {
    exists n :: i <= n < j && Takes(run[n], events[n], k)
  }

  lemma {:induction false} StaysScheduled(run: seq<State>, events: seq<Event>, i: nat, j: nat, k: string)
    requires Run(run, events) && i <= j < |run| && Scheduled(run[i], k)
    ensures Scheduled(run[j], k) || TakenBetween(run, events, i, j, k)
    decreases j - i
  {
    if i < j {
      AlwaysInvariant(run, events, i);
      NextKeeps(run[i], events[i]);
      if !Takes(run[i], events[i], k) {
        StaysScheduled(run, events, i + 1, j, k);
        if TakenBetween(run, events, i + 1, j, k) {
          var n :| i + 1 <= n < j && Takes(run[n], events[n], k);
          assert i <= n < j && Takes(run[n], events[n], k);
        }
      }
    }
  }

  /** No accepted key is lost, whether it came before or after the start: it is scheduled until a later sync takes it. */
  lemma NoEnqueueIsLost(run: seq<State>, events: seq<Event>, i: nat, j: nat, k: string)
    requires Run(run, events) && i < j < |run| && Accepts(events[i], k)
    ensures Scheduled(run[j], k) || TakenBetween(run, events, i + 1, j, k)
  {
    AlwaysInvariant(run, events, i);
    NextKeeps(run[i], events[i]);
    StaysScheduled(run, events, i + 1, j, k);
  }

  /** A key whose last sync failed is still scheduled, or has been taken again. */
  lemma FailedIsRetried(run: seq<State>, events: seq<Event>, i: nat, j: nat)
    requires Run(run, events) && i < j < |run| && events[i].Finish? && !events[i].ok
    ensures Scheduled(run[j], events[i].key) || TakenBetween(run, events, i + 1, j, events[i].key)
  {
    AlwaysInvariant(run, events, i);
    NextKeeps(run[i], events[i]);
    StaysScheduled(run, events, i + 1, j, events[i].key);
  }

  /** No two workers ever work on the same key, and a key that needs work and has no worker is in the queue. */
  lemma OneWorkerEach(run: seq<State>, events: seq<Event>, i: nat, k: string)
    requires Run(run, events) && i < |run| && run[i].workqueue.Some?
    ensures var q := run[i].workqueue.value;
            && (i < |events| && Takes(run[i], events[i], k) ==> k !in q.processing)
            && (k in q.dirty && k !in q.processing ==> k in q.queue)
            && (k in run[i].failed ==> InQueue(q, k))
  {
    AlwaysInvariant(run, events, i);
    if i < |events| && Takes(run[i], events[i], k) {
      TakeKeeps(run[i].workqueue.value);
    }
  }

  // ----- delays -----

  /** The key needs work already, or comes back by the given time. */
  predicate DueBy(s: State, k: string, time: real) {
    s.workqueue.Some? && (k in s.workqueue.value.dirty
                          || (k in s.workqueue.value.delayed && s.workqueue.value.delayed[k] <= time))
  }

  lemma DueStep(s: State, e: Event, k: string, time: real)
    requires Enabled(s, e) && DueBy(s, k, time) && !Takes(s, e, k)
    ensures DueBy(Next(s, e), k, time)
  {}

  /** A delay is never made longer: a key put off for some time comes back by then, however it is put off again. */
  lemma {:induction false} DelayIsKept(run: seq<State>, events: seq<Event>, i: nat, j: nat, k: string, time: real)
    requires Run(run, events) && i <= j < |run| && DueBy(run[i], k, time)
    ensures DueBy(run[j], k, time) || TakenBetween(run, events, i, j, k)
    decreases j - i
  {
    if i < j && !Takes(run[i], events[i], k) {
      DueStep(run[i], events[i], k, time);
      DelayIsKept(run, events, i + 1, j, k, time);
      if TakenBetween(run, events, i + 1, j, k) {
        var n :| i + 1 <= n < j && Takes(run[n], events[n], k);
        assert i <= n < j && Takes(run[n], events[n], k);
      }
    }
  }

  // ----- when a key comes back -----

  /** Not before now, and after the delay if it is one. */
  function Due(now: real, after: real): real {
    if after > 0.0 then now + after else now
  }

  /** The step puts the key off by this delay, in a queue that was made: asked for, rate-limited, or after a failed sync. */
  predicate PutsOff(s: State, e: Event, k: string, after: real) {
    && s.workqueue.Some?
    && (e == Event.EnqueueAfter(k, after) || e == EnqueueLimited(k, after) || e == Finish(k, false, after))
  }

  lemma PutOffIsDue(s: State, e: Event, k: string, after: real)
    requires Invariant(s) && Enabled(s, e) && PutsOff(s, e, k, after)
    ensures DueBy(Next(s, e), k, Due(s.now, after))
  {}

  /** A key that is put off, by a request or because its sync failed, comes back by then at the latest. */
  lemma PutOffComesBack(run: seq<State>, events: seq<Event>, i: nat, j: nat, k: string, after: real)
    requires Run(run, events) && i < j < |run| && PutsOff(run[i], events[i], k, after)
    ensures DueBy(run[j], k, Due(run[i].now, after)) || TakenBetween(run, events, i + 1, j, k)
  {
    AlwaysInvariant(run, events, i);
    PutOffIsDue(run[i], events[i], k, after);
    DelayIsKept(run, events, i + 1, j, k, Due(run[i].now, after));
  }

  lemma {:induction false} FlushedIsDue(starts: seq<StartKey>, now: real, i: nat)
    requires i < |starts|
    ensures var q, k, time := Flushed(starts, now), starts[i].key, Due(now, starts[i].after);
            k in q.dirty || (k in q.delayed && q.delayed[k] <= time)
    decreases |starts|
  {
    if i < |starts| - 1 {
      FlushedIsDue(starts[..|starts| - 1], now, i);
    }
  }

  /** Before the start a key is kept aside, with the delay it was put off by; a rate-limited one without any. */
  lemma KeepsAside(s: State, e: Event)
    requires Enabled(s, e) && s.workqueue.None? && (e.EnqueueKey? || e.EnqueueLimited? || e.EnqueueAfter?)
    ensures Next(s, e) == s.(startKeys := s.startKeys + [StartKey(e.key, if e.EnqueueAfter? then e.after else 0.0)])
  {}

  /** A key kept aside stays so, with its delay, until the start. */
  lemma {:induction false} KeptAside(run: seq<State>, events: seq<Event>, i: nat, n: nat, k: string, after: real)
    requires Run(run, events) && i < n < |run| && run[n].workqueue.None? && events[i] == Event.EnqueueAfter(k, after)
    ensures run[i].workqueue.None? && StartKey(k, after) in run[n].startKeys
    decreases n
  {
    if n > i + 1 {
      KeptAside(run, events, i, n - 1, k, after);
    }
  }

  /** A key put off before the start comes back by its delay after the start at the latest. */
  lemma StartKeyComesBack(run: seq<State>, events: seq<Event>, i: nat, n: nat, j: nat, k: string, after: real)
    requires Run(run, events) && i < n < j < |run| && events[i] == Event.EnqueueAfter(k, after) && events[n].Start?
    ensures DueBy(run[j], k, Due(run[n].now, after)) || TakenBetween(run, events, n + 1, j, k)
  {
    KeptAside(run, events, i, n, k, after);
    var starts := run[n].startKeys;
    var x :| 0 <= x < |starts| && starts[x] == StartKey(k, after);
    FlushedIsDue(starts, run[n].now, x);
    DelayIsKept(run, events, n + 1, j, k, Due(run[n].now, after));
  }

  /** The step asks for the key to come back at this time, and not before. */
  predicate AsksFor(s: State, e: Event, k: string, time: real) {
    if e.Start? then exists x :: 0 <= x < |s.startKeys| && IsDelay(s.startKeys[x], k, time - s.now)
    else time > s.now && PutsOff(s, e, k, time - s.now)
  }

  predicate IsDelay(start: StartKey, k: string, after: real) {
    start == StartKey(k, after) && after > 0.0
  }

  lemma {:induction false} FlushedWasAsked(starts: seq<StartKey>, now: real, k: string) returns (x: nat)
    requires k in Flushed(starts, now).delayed
    ensures x < |starts| && IsDelay(starts[x], k, Flushed(starts, now).delayed[k] - now)
    decreases |starts|
  {
    var n := |starts| - 1;
    var before := Flushed(starts[..n], now);
    if k in before.delayed && before.delayed[k] == Flushed(starts, now).delayed[k] {
      x := FlushedWasAsked(starts[..n], now, k);
    } else {
      x := n;
    }
  }

  lemma DelayStep(s: State, e: Event, k: string)
    requires Enabled(s, e) && Next(s, e).workqueue.Some? && k in Next(s, e).workqueue.value.delayed
    ensures var time := Next(s, e).workqueue.value.delayed[k];
            || (s.workqueue.Some? && k in s.workqueue.value.delayed && s.workqueue.value.delayed[k] == time)
            || AsksFor(s, e, k, time)
  {
    if e.Start? {
      var x := FlushedWasAsked(s.startKeys, s.now, k);
    }
  }

  /** No key comes back at a time nobody asked for. */
  lemma {:induction false} DelayWasAsked(run: seq<State>, events: seq<Event>, j: nat, k: string) returns (i: nat)
    requires Run(run, events) && j < |run| && run[j].workqueue.Some? && k in run[j].workqueue.value.delayed
    ensures i < j && AsksFor(run[i], events[i], k, run[j].workqueue.value.delayed[k])
  {
    DelayStep(run[j - 1], events[j - 1], k);
    if AsksFor(run[j - 1], events[j - 1], k, run[j].workqueue.value.delayed[k]) {
      i := j - 1;
    } else {
      i := DelayWasAsked(run, events, j - 1, k);
    }
  }

  /** The step calls for the key at once: without a delay, or because its delay is over. */
  ghost predicate CallsFor(s: State, e: Event, k: string) {
    || (s.workqueue.Some? && e == Event.EnqueueKey(k))
    || (exists after :: after <= 0.0 && PutsOff(s, e, k, after))
    || (e.Start? && exists x :: 0 <= x < |s.startKeys| && s.startKeys[x].key == k && s.startKeys[x].after <= 0.0)
    || (e == Fire(k) && s.workqueue.Some? && k in s.workqueue.value.delayed && s.workqueue.value.delayed[k] <= s.now)
  }

  lemma {:induction false} FlushedWasCalled(starts: seq<StartKey>, now: real, k: string)
    ensures k in Flushed(starts, now).dirty <==> exists x :: 0 <= x < |starts| && starts[x].key == k && starts[x].after <= 0.0
    decreases |starts|
  {
    if starts != [] {
      var n := |starts| - 1;
      FlushedWasCalled(starts[..n], now, k);
      assert forall x :: 0 <= x < n ==> starts[..n][x] == starts[x];
    }
  }

  /** What a step does to the keys that need work and to those that are being worked on. */
  lemma WorkExactly(s: State, e: Event, k: string)
    requires Enabled(s, e) && Next(s, e).workqueue.Some?
    ensures var q, q' := if s.workqueue.Some? then s.workqueue.value else Queue([], {}, {}, map[]), Next(s, e).workqueue.value;
            && (k in q'.dirty <==> CallsFor(s, e, k) || (k in q.dirty && !Takes(s, e, k)))
            && (k in q'.processing <==> Takes(s, e, k) || (k in q.processing && !(e.Finish? && e.key == k)))
  {
    match e
    case Start =>
      FlushedWasCalled(s.startKeys, s.now, k);
      FlushedIsIdle(s.startKeys, s.now);
    case EnqueueAfter(x, after) => assert after <= 0.0 && x == k ==> PutsOff(s, e, k, after);
    case EnqueueLimited(x, after) => assert after <= 0.0 && x == k ==> PutsOff(s, e, k, after);
    case Finish(x, ok, after) => assert !ok && after <= 0.0 && x == k ==> PutsOff(s, e, k, after);
    case _ =>
  }

  /** Keys are taken in the order in which they were put in. */
  lemma QueuedInOrder(s: State, e: Event)
    requires Enabled(s, e) && s.workqueue.Some?
    ensures var q, q' := s.workqueue.value.queue, Next(s, e).workqueue.value.queue;
            (if e.Get? then q[1..] else q) <= q'
  {}

  lemma {:induction false} FlushedIsIdle(starts: seq<StartKey>, now: real)
    ensures Flushed(starts, now).processing == {}
    decreases |starts|
  {
    if starts != [] {
      FlushedIsIdle(starts[..|starts| - 1], now);
    }
  }

  // ----- in the form of the program -----

  class WorkQueue {
    var queue: seq<string>
    var dirty: set<string>
    var processing: set<string>
    var delayed: map<string, real>

    function Value(): Queue
      reads this
    {
      Queue(queue, dirty, processing, delayed)
    }

    constructor ()
      ensures Value() == Queue([], {}, {}, map[])
    {
      queue, dirty, processing, delayed := [], {}, {}, map[];
    }

    method Add(k: string)
      modifies this
      ensures Value() == Added(old(Value()), k)
    {
      if k in dirty {
        return;
      }
      dirty := dirty + {k};
      if k in processing {
        return;
      }
      queue := queue + [k];
    }

    method AddAfter(k: string, after: real, now: real)
      modifies this
      ensures Value() == AddedAfter(old(Value()), k, after, now)
    {
      if after <= 0.0 {
        Add(k);
        return;
      }
      if k !in delayed || delayed[k] > now + after {
        delayed := delayed[k := now + after];
      }
    }

    method Get() returns (k: string)
      requires queue != []
      modifies this
      ensures k == old(queue)[0] && Value() == Taken(old(Value()))
    {
      k := queue[0];
      queue, dirty, processing := queue[1..], dirty - {k}, processing + {k};
    }

    method Done(k: string)
      modifies this
      ensures Value() == Released(old(Value()), k)
    {
      processing := processing - {k};
      if k in dirty {
        queue := queue + [k];
      }
    }
  }

  class Controller {
    var startKeys: seq<StartKey>
    var workqueue: WorkQueue?
    ghost var failed: set<string>

    ghost function At(now: real): State
      reads this, workqueue
    {
      State(now, startKeys, if workqueue == null then None else Some(workqueue.Value()), failed)
    }

    constructor ()
      ensures workqueue == null && startKeys == [] && failed == {}
    {
      startKeys, workqueue, failed := [], null, {};
    }

    /** Makes the queue, and fills it with the keys kept aside. */
    method Run(now: real)
      requires workqueue == null
      modifies this
      ensures fresh(workqueue) && At(now) == Next(old(At(now)), Start)
    {
      var q := new WorkQueue();
      for i := 0 to |startKeys|
        invariant fresh(q) && startKeys == old(startKeys) && failed == old(failed) && workqueue == null
        invariant q.Value() == Flushed(startKeys[..i], now)
      {
        var start := startKeys[i];
        assert startKeys[..i + 1][..i] == startKeys[..i];
        if start.after == 0.0 {
          q.Add(start.key);
        } else {
          q.AddAfter(start.key, start.after, now);
        }
      }
      assert startKeys[..|startKeys|] == startKeys;
      workqueue, startKeys := q, [];
    }

    /** Keys from triggers and from the informer; `obj` keys are formatted the same way. */
    method EnqueueKey(key: string, now: real)
      modifies this, workqueue
      ensures workqueue == old(workqueue) && At(now) == Next(old(At(now)), Event.EnqueueKey(key))
    {
      if workqueue == null {
        startKeys := startKeys + [StartKey(key, 0.0)];
      } else {
        workqueue.Add(key);
      }
    }

    method Enqueue(ns: string, name: string, backoff: real, now: real)
      modifies this, workqueue
      ensures workqueue == old(workqueue) && At(now) == Next(old(At(now)), EnqueueLimited(KeyFunc(ns, name), backoff))
    {
      var key := KeyFunc(ns, name);
      if workqueue == null {
        startKeys := startKeys + [StartKey(key, 0.0)];
      } else {
        workqueue.AddAfter(key, backoff, now);
      }
    }

    method EnqueueAfter(ns: string, name: string, after: real, now: real)
      modifies this, workqueue
      ensures workqueue == old(workqueue) && At(now) == Next(old(At(now)), Event.EnqueueAfter(KeyFunc(ns, name), after))
    {
      var key := KeyFunc(ns, name);
      if workqueue == null {
        startKeys := startKeys + [StartKey(key, after)];
      } else {
        workqueue.AddAfter(key, after, now);
      }
    }

    /** The end of processing a key, whose sync succeeded or not: a failed key is put back, then it is done. */
    method ProcessSingleItem(key: string, ok: bool, backoff: real, now: real)
      requires workqueue != null && key in workqueue.processing
      modifies this, workqueue
      ensures workqueue == old(workqueue) && At(now) == Next(old(At(now)), Finish(key, ok, backoff))
    {
      if !ok {
        workqueue.AddAfter(key, backoff, now);
        failed := failed + {key};
      }
      workqueue.Done(key);
    }
  }
}
