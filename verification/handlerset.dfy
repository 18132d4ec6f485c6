/** The handler set in the form the program has it (pkg/router/handler.go): limiters, waiting keys and sleeping replays. */
module HandlerSets {
  import opened Kube
  import opened Text
  import opened Server
  import opened Limiter
  import opened Backoff
  import opened Cascade
  import opened Codecs
  import opened Metering
  import T = Throttling

  /** What becomes of a queue key. A change that is suppressed reports no error. */
  datatype Outcome = Suppressed | GetError | Handles(key: string, obj: Option<Obj>, fromTrigger: bool)

  function JobOf(gvk: GVK, queued: string): T.Job {
    var d := Decode(queued);
    T.Job(LimiterKey(d.key, gvk), d.mode)
  }

  class HandlerSet {
    var limiters: map<LimiterKey, Bucket>
    var waiting: set<LimiterKey>
    var sleepers: seq<Sleeper>
    ghost var made: map<LimiterKey, seq<real>>

    ghost function Gate(): Gate
      reads this
    {
      Backoff.Gate(limiters, waiting, sleepers, made)
    }

    /** The reservations asked of the limiter of a key. */
    ghost function Asked(k: LimiterKey): seq<real>
      reads this
    {
      if k in limiters && k in made then made[k] else []
    }

    constructor ()
      ensures Gate() == Backoff.Gate(map[], {}, [], map[])
    {
      limiters, waiting, sleepers, made := map[], {}, [], map[];
    }

    method CheckDelay(k: LimiterKey, now: real, later: real) returns (ok: bool)
      modifies this
      ensures (Gate(), ok) == Backoff.CheckDelay(old(Gate()), k, now, later)
      ensures k in old(waiting) ==> !ok && Gate() == old(Gate())
      ensures k !in old(waiting) && now <= later && Sound(old(Gate()), now) ==>
                (ok <==> MayGo(old(Asked(k)) + [now], later))
    {
      if k in waiting {
        return false;
      }
      ghost var m := Meter(Asked(k), false);
      if now <= later && Sound(Gate(), now) {
        CheckExactly(Gate(), k, now, later, m);
      }
      made := made[k := (if k in limiters && k in made then made[k] else []) + [now]];
      if k !in limiters {
        limiters := limiters[k := Full(now)];
      }
      var b := Reserve(limiters[k], now);
      limiters := limiters[k := b];
      assert limiters == old(limiters)[k := b];
      var delay := TimeToAct(b, now) - later;
      if delay > 0.0 {
        assert later + delay == TimeToAct(b, now);
        waiting := waiting + {k};
        sleepers := sleepers + [Sleeper(k, later + delay)];
        return false;
      }
      return true;
    }

    method ForgetBackoff(k: LimiterKey)
      modifies this
      ensures Gate() == Forget(old(Gate()), k)
    {
      limiters, made := limiters - {k}, made - {k};
    }

    /** The end of a sleep: the queue key returned is always taken for a replay of the key that slept. */
    method WakeUp(i: nat) returns (queued: string)
      requires i < |sleepers|
      modifies this
      ensures Gate() == Wake(old(Gate()), i)
      ensures Decode(queued) == Decoded(old(sleepers[i].key.key), Replayed)
    {
      var s := sleepers[i];
      waiting, sleepers := waiting - {s.key}, sleepers[..i] + sleepers[i + 1..];
      queued := Encode(REPLAY_PREFIX + s.key.key, false);
      ReplayIsRecovered(s.key.key);
    }

    /**
     * A key taken from the queue. `cached` is the object the controller found for it, `got` what reading it again
     * under the lock gave; an object that is gone by then is still handled as the controller found it.
     */
    method OnChange(gvk: GVK, queued: string, cached: Option<Obj>, got: GetResult, now: real, later: real)
      returns (out: Outcome)
      modifies this
      ensures var job := JobOf(gvk, queued);
              var gone := got.Missing? && cached.None?;
              && Gate() == T.Attempt(old(Gate()), job, now, later, gone).0
              && (out.Suppressed? <==> !T.Attempt(old(Gate()), job, now, later, gone).1)
              && (!out.Suppressed? ==> (out.GetError? <==> got.GetFailed?))
              && (out.Handles? ==>
                    && out.key == job.key.key && out.fromTrigger == job.mode.Triggered?
                    && out.obj == if got.Found? then Some(got.obj) else cached)
      ensures !JobOf(gvk, queued).mode.Plain? ==>
                !out.Suppressed? && waiting == old(waiting) && sleepers == old(sleepers)
      ensures JobOf(gvk, queued).mode.Plain? && JobOf(gvk, queued).key in old(waiting) ==>
                out.Suppressed? && Gate() == old(Gate())
    {
      var key, fromTrigger, fromReplay := queued, false, false;
      if HasPrefix(key, TRIGGER_PREFIX) {
        fromTrigger := true;
        key := TrimPrefix(key, TRIGGER_PREFIX);
      }
      if HasPrefix(key, REPLAY_PREFIX) {
        fromTrigger, fromReplay := false, true;
        key := TrimPrefix(key, REPLAY_PREFIX);
      }
      if !fromReplay && !fromTrigger {
        var ok := CheckDelay(LimiterKey(key, gvk), now, later);
        if !ok {
          return Suppressed;
        }
      }
      var obj := cached;
      match got {
        case Found(o) => obj := Some(o);
        case Missing =>
        case GetFailed => return GetError;
      }
      if obj.None? {
        ForgetBackoff(LimiterKey(key, gvk));
      }
      out := Handles(key, obj, fromTrigger);
    }
  }
}
