/**
 * The resuming watcher (pkg/watcher/watcher.go): a callback is fed the server's log of changes across any pattern of
 * disconnects, refused connections, bookmarks and conflicts. How the server answers each connection, what the callback
 * replies, and when the context ends are arbitrary.
 */
module Watchers {
  import opened Kube

  datatype Item = Item(rv: string, finalizers: seq<string>, deleting: bool, body: string)

  datatype Event = Bookmark(rv: string) | Added(item: Item) | Modified(item: Item) | Deleted(item: Item)
                 | ErrorEvent(status: string)

  /** How a connection ends: the server closes it, or the context is done first. */
  datatype Connection = Gone | Refused | Stream(events: seq<Event>, cancelled: bool)

  datatype CallbackError = NoError | Conflict | OtherError(text: string)

  datatype Reply = Reply(done: bool, err: CallbackError)

  datatype Failure = RevisionGone | Terminating | WatchStatus(status: string) | Callback(text: string)
                   | ContextDone | ListFailed

  datatype WatchResult = WatchResult(cont: bool, lastRevision: string, nonTerminal: bool, terminal: Option<Failure>)

  /** What the callback gets to see of a change: a deleted object never has finalizers, and always a deletion time. */
  function Delivered(e: Event): Item
    requires IsChange(e)
  {
    if e.Deleted? then e.item.(deleting := true, finalizers := []) else e.item
  }

  // ----- the server -----

  /** The log of changes of what is watched, and how many of them a revision includes. */
  datatype Log = Log(entries: seq<Event>, position: string -> nat)

  ghost predicate WellFormed(log: Log) {
    forall i :: 0 <= i < |log.entries| ==>
      var e := log.entries[i];
      IsChange(e) && e.item.rv != "" && log.position(e.item.rv) == i + 1
  }

  /** What the server may send when `pos` changes are known: the next change, a truthful bookmark, or an error. */
  ghost predicate Offers(log: Log, pos: nat, e: Event) {
    match e
    case Bookmark(rv) => rv == "" || log.position(rv) == pos
    case ErrorEvent(_) => true
    case _ => pos < |log.entries| && e == log.entries[pos]
  }

  predicate IsChange(e: Event) {
    e.Added? || e.Modified? || e.Deleted?
  }

  ghost predicate Faithful(log: Log, pos: nat, events: seq<Event>)
    decreases |events|
  {
    events == [] ||
    (Offers(log, pos, events[0]) && Faithful(log, if IsChange(events[0]) then pos + 1 else pos, events[1..]))
  }

  // ----- the order of calls -----

  type Callback = (nat, Item) -> Reply

  /** Where the calls so far have brought the watch: still going, ended by the last call, or not following the log. */
  datatype Progress = At(pos: nat) | Ended | Broken

  /** What a change is shown as: a deleted object with a deletion time and no finalizers, any other as it is. */
  predicate Shows(e: Event, item: Item)
    requires IsChange(e)
  {
    if e.Deleted? then item.deleting && item.finalizers == [] && item.rv == e.item.rv && item.body == e.item.body
    else item == e.item
  }

  ghost predicate IsNext(log: Log, pos: nat, item: Item) {
    && pos < |log.entries|
    && IsChange(log.entries[pos])
    && Shows(log.entries[pos], item)
  }

  lemma OfferedIsNext(log: Log, pos: nat, e: Event)
    requires WellFormed(log) && Offers(log, pos, e) && IsChange(e)
    ensures IsNext(log, pos, Delivered(e)) && Delivered(e).rv != "" && log.position(Delivered(e).rv) == pos + 1
  {}

  ghost function AfterCall(log: Log, pos: nat, item: Item, r: Reply): Progress {
    if !IsNext(log, pos, item) then Broken
    else if r.err.Conflict? then At(pos)
    else if r.err.NoError? && !r.done then At(pos + 1)
    else Ended
  }

  /** Follows the log from position p with these items; the callback's first reply to them is number `base`. */
  ghost function Follow(log: Log, cb: Callback, p: nat, base: nat, items: seq<Item>): Progress
    decreases |items|
  {
    if items == [] then At(p)
    else
      var n := |items| - 1;
      var before := Follow(log, cb, p, base, items[..n]);
      if before.At? then AfterCall(log, before.pos, items[n], cb(base + n, items[n])) else Broken
  }

  lemma FollowOneMore(log: Log, cb: Callback, p: nat, base: nat, items: seq<Item>, item: Item)
    requires Follow(log, cb, p, base, items).At?
    ensures Follow(log, cb, p, base, items + [item]) ==
            AfterCall(log, Follow(log, cb, p, base, items).pos, item, cb(base + |items|, item))
  {
    assert (items + [item])[..|items|] == items;
  }

  /** How many of the calls were not asked for again. */
  function Advances(cb: Callback, base: nat, items: seq<Item>): nat {
    if items == [] then 0
    else
      var n := |items| - 1;
      Advances(cb, base, items[..n]) + if cb(base + n, items[n]).err.Conflict? then 0 else 1
  }

  /**
   * What following the log comes to: the callback sees each change after position p in order with none left out, the same
   * one again only after a conflict, and nothing more once it is done or has failed.
   */
  lemma FollowIsInOrder(log: Log, cb: Callback, p: nat, base: nat, items: seq<Item>, j: nat)
    requires !Follow(log, cb, p, base, items).Broken? && j < |items|
    ensures IsNext(log, p + Advances(cb, base, items[..j]), items[j])
    ensures Advances(cb, base, items[..j + 1]) ==
            Advances(cb, base, items[..j]) + if cb(base + j, items[j]).err.Conflict? then 0 else 1
    ensures j < |items| - 1 ==> cb(base + j, items[j]) == Reply(false, NoError) || cb(base + j, items[j]).err.Conflict?
  {
    FollowsNext(log, cb, p, base, items, j);
    assert items[..j + 1][..j] == items[..j];
    if j < |items| - 1 {
      StopsAtTheEnd(log, cb, p, base, items, j);
    }
  }

  lemma {:induction false} FollowsNext(log: Log, cb: Callback, p: nat, base: nat, items: seq<Item>, j: nat)
    requires !Follow(log, cb, p, base, items).Broken? && j < |items|
    ensures IsNext(log, p + Advances(cb, base, items[..j]), items[j])
    decreases |items|
  {
    var n := |items| - 1;
    if j < n {
      FollowsNext(log, cb, p, base, items[..n], j);
      assert items[..n][..j] == items[..j];
    } else {
      PositionIsAdvances(log, cb, p, base, items[..n]);
    }
  }

  lemma {:induction false} PositionIsAdvances(log: Log, cb: Callback, p: nat, base: nat, items: seq<Item>)
    requires Follow(log, cb, p, base, items).At?
    ensures Follow(log, cb, p, base, items).pos == p + Advances(cb, base, items)
    decreases |items|
  {
    if items != [] {
      PositionIsAdvances(log, cb, p, base, items[..|items| - 1]);
    }
  }

  lemma {:induction false} StopsAtTheEnd(log: Log, cb: Callback, p: nat, base: nat, items: seq<Item>, j: nat)
    requires !Follow(log, cb, p, base, items).Broken? && j < |items| - 1
    ensures cb(base + j, items[j]) == Reply(false, NoError) || cb(base + j, items[j]).err.Conflict?
    decreases |items|
  {
    var n := |items| - 1;
    if j < n - 1 {
      StopsAtTheEnd(log, cb, p, base, items[..n], j);
    }
  }

  /** How a whole watch from position p may end, after these calls. */
  ghost predicate WatchOutcome(log: Log, cb: Callback, p: nat, base: nat, items: seq<Item>,
                               got: Option<Item>, err: Option<Failure>)
  {
    var end := Follow(log, cb, p, base, items);
    && got == (if items == [] then None else Some(items[|items| - 1]))
    && (if err.None? then end.Ended? && LastReply(cb, base, items) == Reply(true, NoError)
        else if err.value.Callback? then end.Ended? && LastReply(cb, base, items).err == OtherError(err.value.text)
        else end.At? && !err.value.ListFailed?)
  }

  function LastReply(cb: Callback, base: nat, items: seq<Item>): Reply {
    if items == [] then Reply(false, NoError) else cb(base + |items| - 1, items[|items| - 1])
  }

  /** Nothing but a change that was taken, or one asked for again, has another call after it. */
  ghost predicate NoneAfterTheEnd(cb: Callback, base: nat, items: seq<Item>) {
    forall j :: 0 <= j < |items| - 1 ==>
      cb(base + j, items[j]) == Reply(false, NoError) || cb(base + j, items[j]).err.Conflict?
  }

  /** Some call was answered with done and no error. */
  ghost predicate SaidDone(cb: Callback, base: nat, items: seq<Item>) {
    exists j :: 0 <= j < |items| && cb(base + j, items[j]) == Reply(true, NoError)
  }

  /** Some call was answered with this error, which is not a conflict. */
  ghost predicate SaidError(cb: Callback, base: nat, items: seq<Item>, text: string) {
    exists j :: 0 <= j < |items| && cb(base + j, items[j]).err == OtherError(text)
  }

  /**
   * When a watch is over: no call comes after one that said done or failed; the watch ends without an error exactly if a
   * call said done, which was the last one, and its item is returned; and with the callback's error exactly if it failed.
   */
  ghost predicate EndsRightly(cb: Callback, base: nat, items: seq<Item>, got: Option<Item>, err: Option<Failure>) {
    && NoneAfterTheEnd(cb, base, items)
    && (err.None? <==> SaidDone(cb, base, items))
    && (err.None? ==> items != [] && got == Some(items[|items| - 1]) && LastReply(cb, base, items) == Reply(true, NoError))
    && (forall text :: err == Some(Callback(text)) <==> SaidError(cb, base, items, text))
  }

  lemma OutcomeExactly(log: Log, cb: Callback, p: nat, base: nat, items: seq<Item>, got: Option<Item>, err: Option<Failure>)
    requires WatchOutcome(log, cb, p, base, items, got, err)
    ensures EndsRightly(cb, base, items, got, err)
  {
    forall j | 0 <= j < |items| - 1
      ensures cb(base + j, items[j]) == Reply(false, NoError) || cb(base + j, items[j]).err.Conflict?
    {
      StopsAtTheEnd(log, cb, p, base, items, j);
    }
    if items != [] {
      assert cb(base + (|items| - 1), items[|items| - 1]) == LastReply(cb, base, items);
    }
  }

  /** A watch that still goes on has heard nothing that ends it. */
  lemma StillGoing(log: Log, cb: Callback, p: nat, base: nat, items: seq<Item>)
    requires Follow(log, cb, p, base, items).At?
    ensures NoneAfterTheEnd(cb, base, items) && !SaidDone(cb, base, items)
  {
    OutcomeExactly(log, cb, p, base, items, if items == [] then None else Some(items[|items| - 1]), Some(ContextDone));
  }

  ghost predicate IsLastDone(cb: Callback, base: nat, items: seq<Item>, j: nat)
    requires j < |items|
  {
    cb(base + j, items[j]).done && forall i :: j < i < |items| ==> !cb(base + i, items[i]).done
  }

  /** The last item the callback was done with. */
  function LastDone(cb: Callback, base: nat, items: seq<Item>): (item: Option<Item>)
    ensures item.None? <==> forall j :: 0 <= j < |items| ==> !cb(base + j, items[j]).done
  {
    if items == [] then None
    else
      var n := |items| - 1;
      if cb(base + n, items[n]).done then Some(items[n]) else LastDone(cb, base, items[..n])
  }

  lemma {:induction false} LastDoneExactly(cb: Callback, base: nat, items: seq<Item>, j: nat)
    requires j < |items| && IsLastDone(cb, base, items, j)
    ensures LastDone(cb, base, items) == Some(items[j])
  {
    var n := |items| - 1;
    if j < n {
      assert !cb(base + n, items[n]).done;
      LastDoneExactly(cb, base, items[..n], j);
    }
  }

  /**
   * What showing a list comes to: the items in order, also after the callback said done, up to the first error; the last
   * item it was done with is returned, together with the error if there is one.
   */
  ghost predicate ListOutcome(cb: Callback, base: nat, items: seq<Item>, shown: seq<Item>,
                              got: Option<Item>, err: Option<Failure>)
  {
    && shown <= items
    && (forall j :: 0 <= j < |shown| - 1 ==> cb(base + j, shown[j]).err.NoError?)
    && (err.None? ==> shown == items)
    && (err.None? <==> LastReply(cb, base, shown).err.NoError?)
    && got == LastDone(cb, base, shown)
  }

  lemma ListOneMore(cb: Callback, base: nat, items: seq<Item>, i: nat, got: Option<Item>)
    requires i < |items| && ListOutcome(cb, base, items[..i], items[..i], got, None)
    ensures var r := cb(base + i, items[i]);
            var got' := if r.done then Some(items[i]) else got;
            && (r.err.NoError? ==> ListOutcome(cb, base, items[..i + 1], items[..i + 1], got', None))
            && (!r.err.NoError? ==> forall text :: ListOutcome(cb, base, items, items[..i + 1], got', Some(Callback(text))))
  {
    var shown := items[..i + 1];
    assert shown[..i] == items[..i];
    forall j | 0 <= j < i ensures cb(base + j, shown[j]).err.NoError? {
      if j == i - 1 {
        assert LastReply(cb, base, items[..i]) == cb(base + j, shown[j]);
      }
    }
  }

  // ----- the watcher -----

  class Watcher {
    const cb: Callback
    const serve: (nat, string) -> Connection
    ghost const log: Log
    var calls: seq<Item>
    var last: Option<Item>
    /** The revisions connections were asked for. */
    ghost var connects: seq<string>

    /** The server answers every connection faithfully; it may refuse it, cut it short, or send an error at any time. */
    ghost predicate Valid() {
      WellFormed(log) && forall n, r :: ServedAt(n, r)
    }

    ghost predicate ServedAt(n: nat, r: string) {
      serve(n, r).Stream? ==> Faithful(log, log.position(r), serve(n, r).events)
    }

    /** The calls since there were `base` of them. */
    ghost function Since(base: nat): seq<Item>
      requires base <= |calls|
      reads this
    {
      calls[base..]
    }

    constructor (cb: Callback, serve: (nat, string) -> Connection, ghost log: Log)
      ensures this.cb == cb && this.serve == serve && this.log == log && calls == [] && last == None && connects == []
    {
      this.cb, this.serve, this.log, calls, last, connects := cb, serve, log, [], None, [];
    }

    method Call(item: Item) returns (r: Reply)
      modifies `calls, `last
      ensures calls == old(calls) + [item] && last == Some(item) && r == cb(|old(calls)|, item)
    {
      r := cb(|calls|, item);
      calls, last := calls + [item], Some(item);
    }

    /** Shows the callback an item, as one step of following the log. */
    method Show(item: Item, ghost base: nat, ghost p: nat) returns (r: Reply)
      requires base <= |calls| && Follow(log, cb, p, base, Since(base)).At?
      modifies `calls, `last
      ensures calls == old(calls) + [item] && r == cb(|old(calls)|, item)
      ensures old(calls) <= calls && |calls| > base && last == Some(calls[|calls| - 1])
      ensures Follow(log, cb, p, base, Since(base)) == AfterCall(log, old(Follow(log, cb, p, base, Since(base)).pos), item, r)
      ensures LastReply(cb, base, Since(base)) == r && Since(base)[|Since(base)| - 1] == last.value
    {
      FollowOneMore(log, cb, p, base, Since(base), item);
      ghost var before := Since(base);
      r := Call(item);
      assert Since(base) == before + [item];
    }

    /**
     * What one event does: a bookmark moves the revision on, an error ends the connection, and a change is shown, after
     * which the revision is the change's, unless there is a result.
     */
    ghost predicate Handled(event: Event, revision: string, before: seq<Item>, calls: seq<Item>,
                            lastRevision: string, result: Option<WatchResult>)
    {
      match event
      case Bookmark(rv) => calls == before && result.None? && lastRevision == if rv != "" then rv else revision
      case ErrorEvent(status) =>
        calls == before && result == Some(WatchResult(false, revision, false, Some(WatchStatus(status))))
      case _ =>
        && |calls| == |before| + 1 && calls[..|before|] == before && Shows(event, calls[|before|])
        && (result.None? ==> lastRevision == if event.item.rv != "" then event.item.rv else revision)
    }

    /** One event: the watch goes on from the revision returned, or has its result. */
    method HandleEvent(event: Event, revision: string, ghost base: nat, ghost p: nat)
      returns (lastRevision: string, result: Option<WatchResult>)
      requires WellFormed(log) && base <= |calls| && Stands(revision, base, p)
      requires Offers(log, log.position(revision), event)
      modifies `calls, `last
      ensures result.Some? ==> Ordinary(result.value)
      ensures Handled(event, revision, old(calls), calls, lastRevision, result)
      ensures old(calls) <= calls
      ensures last == if |calls| == base then None else Some(calls[|calls| - 1])
      ensures result.Some? ==> Settled(result.value, base, p) && result.value.lastRevision == revision
      ensures result.None? ==>
                && Stands(lastRevision, base, p)
                && (lastRevision == "" ==> revision == "")
                && log.position(lastRevision) ==
                   if IsChange(event) then log.position(revision) + 1 else log.position(revision)
    {
      lastRevision, result := revision, None;
      if event.Bookmark? {
        if event.rv != "" {
          lastRevision := event.rv;
        }
      } else if event.ErrorEvent? {
        StillGoing(log, cb, p, base, Since(base));
        result := Some(WatchResult(false, lastRevision, false, Some(WatchStatus(event.status))));
      } else {
        var item := ToDeliver(event);
        OfferedIsNext(log, log.position(revision), event);
        result := HandleChange(item, lastRevision, base, p);
        if result.None? && item.rv != "" {
          lastRevision := item.rv;
        }
      }
    }

    /** One change: what the callback replies to it decides whether the watch goes on. */
    method HandleChange(item: Item, revision: string, ghost base: nat, ghost p: nat) returns (result: Option<WatchResult>)
      requires base <= |calls|
      requires Follow(log, cb, p, base, Since(base)) == At(log.position(revision))
      requires IsNext(log, log.position(revision), item)
      modifies `calls, `last
      ensures old(calls) <= calls && |calls| > base && last == Some(calls[|calls| - 1])
      ensures result.Some? ==> Settled(result.value, base, p) && result.value.lastRevision == revision
      ensures result.None? ==> Follow(log, cb, p, base, Since(base)) == At(log.position(revision) + 1)
      ensures calls == old(calls) + [item]
      ensures var reply := cb(|old(calls)|, item);
              && (result.None? <==> reply == Reply(false, NoError))
              && (reply == Reply(true, NoError) ==> result == Some(WatchResult(true, revision, false, None)))
              && (reply.err.Conflict? ==> result == Some(WatchResult(false, revision, true, None)))
              && (reply.err.OtherError? ==> result == Some(WatchResult(false, revision, false, Some(Callback(reply.err.text)))))
    {
      var reply := Show(item, base, p);
      if reply.err.Conflict? {
        StillGoing(log, cb, p, base, Since(base));
        return Some(WatchResult(false, revision, true, None));
      }
      if !reply.err.NoError? {
        OutcomeExactly(log, cb, p, base, Since(base), last, Some(Callback(reply.err.text)));
        return Some(WatchResult(false, revision, false, Some(Callback(reply.err.text))));
      }
      if reply.done {
        OutcomeExactly(log, cb, p, base, Since(base), last, None);
        return Some(WatchResult(true, revision, false, None));
      }
      return None;
    }

    /** Neither a revision that is gone nor the end of the context. */
    predicate Ordinary(r: WatchResult) {
      r.terminal != Some(RevisionGone) && r.terminal != Some(ContextDone)
    }

    /** The watch that began after `base` calls at position p goes on from this revision. */
    ghost predicate Stands(revision: string, base: nat, p: nat)
      requires base <= |calls|
      reads this
    {
      && Follow(log, cb, p, base, Since(base)) == At(log.position(revision))
      && last == if |calls| == base then None else Some(calls[|calls| - 1])
    }

    /** What a connection's result says: the watch is over, or stands at the revision returned. */
    ghost predicate Settled(r: WatchResult, base: nat, p: nat)
      requires base <= |calls|
      reads this
    {
      && (r.cont ==> !r.nonTerminal && r.terminal.None?)
      && (r.terminal.Some? ==> !r.nonTerminal)
      && (r.cont <==> SaidDone(cb, base, Since(base)))
      && NoneAfterTheEnd(cb, base, Since(base))
      && (if r.cont then WatchOutcome(log, cb, p, base, Since(base), last, None)
          else if r.terminal.Some? then WatchOutcome(log, cb, p, base, Since(base), last, r.terminal)
          else Follow(log, cb, p, base, Since(base)) == At(log.position(r.lastRevision)))
    }

    /** None of the connections since there were `base` of them found its revision gone. */
    ghost predicate NoneGone(base: nat, connects: seq<string>) {
      forall n :: base <= n < |connects| ==> !GoneAt(n - base, connects[n])
    }

    predicate GoneAt(attempt: nat, revision: string) {
      serve(attempt, revision).Gone?
    }

    /**
     * The connections of a whole watch: the first is from the revision given; a revision that is gone ends the watch with
     * that error, and no other connection does; the context's end is met only after all its waits.
     */
    ghost predicate Connected(before: seq<string>, connects: seq<string>, revision: string, rounds: nat, err: Option<Failure>) {
      var base, n := |before|, |connects| - |before|;
      && before <= connects && 0 < n <= rounds + 1 && connects[base] == revision
      && NoneGone(base, connects[..|connects| - 1])
      && (err == Some(RevisionGone) <==> GoneAt(n - 1, connects[|connects| - 1]))
      && (err == Some(ContextDone) ==> n == rounds + 1)
    }

    /** Before the n-th connection, which is to be from revision `rev`. */
    ghost predicate Connecting(before: seq<string>, connects: seq<string>, revision: string, rev: string, n: nat) {
      && before <= connects && |connects| == |before| + n && NoneGone(|before|, connects)
      && (if n == 0 then rev == revision else connects[|before|] == revision)
    }

    lemma ConnectsMore(before: seq<string>, was: seq<string>, connects: seq<string>, revision: string, rev: string,
                       n: nat, rounds: nat, next: string)
      requires Connecting(before, was, revision, rev, n) && connects == was + [rev] && n <= rounds
      ensures !GoneAt(n, rev) ==> Connecting(before, connects, revision, next, n + 1)
      ensures forall err :: (err == Some(RevisionGone) <==> GoneAt(n, rev)) && (err == Some(ContextDone) ==> n == rounds) ==>
                Connected(before, connects, revision, rounds, err)
    {
      assert connects[..|connects| - 1] == was;
    }

    /**
     * One connection. The watch began after `base` calls at position p of the log; it stands at the revision asked for,
     * and when it is to be resumed it stands at the revision returned.
     */
    method DoWatch(revision: string, attempt: nat, ghost base: nat, ghost p: nat) returns (r: WatchResult)
      requires Valid() && base <= |calls| && Stands(revision, base, p)
      modifies this
      ensures connects == old(connects) + [revision]
      ensures serve(attempt, revision).Gone? ==>
                calls == old(calls) && r == WatchResult(false, revision, false, Some(RevisionGone))
      ensures serve(attempt, revision).Refused? ==> calls == old(calls) && r == WatchResult(false, revision, true, None)
      ensures serve(attempt, revision).Stream? ==> Ordinary(r)
      ensures old(calls) <= calls
      ensures last == if |calls| == base then None else Some(calls[|calls| - 1])
      ensures Settled(r, base, p)
      ensures r.lastRevision == "" ==> revision == ""
    {
      var lastRevision := revision;
      connects := connects + [revision];
      StillGoing(log, cb, p, base, Since(base));
      var conn := serve(attempt, revision);
      assert ServedAt(attempt, revision);
      if conn.Gone? {
        return WatchResult(false, lastRevision, false, Some(RevisionGone));
      }
      if conn.Refused? {
        return WatchResult(false, lastRevision, true, None);
      }
      r := ReadEvents(conn.events, conn.cancelled, revision, base, p);
    }

    /** The loop over the events of a connection. */
    method ReadEvents(events: seq<Event>, cancelled: bool, revision: string, ghost base: nat, ghost p: nat)
      returns (r: WatchResult)
      requires WellFormed(log) && base <= |calls| && Stands(revision, base, p)
      requires Faithful(log, log.position(revision), events)
      modifies `calls, `last
      ensures Ordinary(r)
      ensures old(calls) <= calls
      ensures last == if |calls| == base then None else Some(calls[|calls| - 1])
      ensures Settled(r, base, p)
      ensures r.lastRevision == "" ==> revision == ""
    {
      var lastRevision, rest := revision, events;
      while rest != []
        invariant old(calls) <= calls && Stands(lastRevision, base, p)
        invariant lastRevision == "" ==> revision == ""
        invariant Faithful(log, log.position(lastRevision), rest)
        decreases |rest|
      {
        var next, result := HandleEvent(rest[0], lastRevision, base, p);
        if result.Some? {
          return result.value;
        }
        lastRevision, rest := next, rest[1..];
      }
      StillGoing(log, cb, p, base, Since(base));
      return WatchResult(false, lastRevision, false, if cancelled then Some(Terminating) else None);
    }

    /** A deleted object is given a deletion time, and its finalizers are taken away. */
    method ToDeliver(event: Event) returns (item: Item)
      requires IsChange(event)
      ensures item == Delivered(event)
      ensures event.Deleted? ==>
                item.deleting && item.finalizers == [] && item.rv == event.item.rv && item.body == event.item.body
      ensures !event.Deleted? ==> item == event.item
    {
      item := event.item;
      if event.Deleted? {
        if !item.deleting {
          item := item.(deleting := true);
        }
        if |item.finalizers| > 0 {
          item := item.(finalizers := []);
        }
      }
    }

    /** Connects again and again until the callback is done, an error ends it, or the context does, after `rounds` waits. */
    method RetryWatch(revision: string, rounds: nat) returns (got: Option<Item>, err: Option<Failure>)
      requires Valid()
      modifies this
      ensures old(calls) <= calls
      ensures WatchOutcome(log, cb, log.position(revision), |old(calls)|, Since(|old(calls)|), got, err)
      ensures EndsRightly(cb, |old(calls)|, Since(|old(calls)|), got, err)
      ensures Connected(old(connects), connects, revision, rounds, err)
    {
      ghost var base, p := |calls|, log.position(revision);
      var rev, n := revision, 0;
      last := None;
      while true
        invariant n <= rounds && old(calls) <= calls && Stands(rev, base, p)
        invariant Connecting(old(connects), connects, revision, rev, n)
        decreases rounds - n
      {
        ghost var was := connects;
        var r := DoWatch(rev, n, base, p);
        ConnectsMore(old(connects), was, connects, revision, rev, n, rounds,
                     if r.lastRevision != "" then r.lastRevision else rev);
        if r.nonTerminal {
        } else if r.terminal.Some? {
          OutcomeExactly(log, cb, p, base, Since(base), last, r.terminal);
          return last, r.terminal;
        } else if r.cont {
          OutcomeExactly(log, cb, p, base, Since(base), last, None);
          return last, None;
        }
        if r.lastRevision != "" {
          rev := r.lastRevision;
        }
        if n == rounds {
          OutcomeExactly(log, cb, p, base, Since(base), last, Some(ContextDone));
          return last, Some(ContextDone);
        }
        n := n + 1;
      }
    }

    method ShowList(items: seq<Item>) returns (got: Option<Item>, err: Option<Failure>)
      modifies this
      ensures old(calls) <= calls
      ensures ListOutcome(cb, |old(calls)|, items, Since(|old(calls)|), got, err)
    {
      ghost var base := |calls|;
      got, err := None, None;
      for i := 0 to |items|
        invariant calls == old(calls) + items[..i]
        invariant ListOutcome(cb, base, items[..i], items[..i], got, None)
      {
        ListOneMore(cb, base, items, i, got);
        var reply := Call(items[i]);
        assert Since(base) == items[..i + 1];
        if reply.done {
          got := Some(items[i]);
        }
        if !reply.err.NoError? {
          return got, Some(Callback(if reply.err.OtherError? then reply.err.text else "conflict"));
        }
      }
      assert Since(base) == items[..|items|] == items;
      return got, None;
    }

    /** Lists, shows the list, and if that settled nothing watches from the revision of the list. */
    method BySelector(list: Option<(seq<Item>, string)>, rounds: nat) returns (got: Option<Item>, err: Option<Failure>)
      requires Valid()
      modifies this
      ensures old(calls) <= calls
      ensures list.None? ==> calls == old(calls) && err == Some(ListFailed)
      ensures list.Some? ==>
                var items, base := list.value.0, |old(calls)|;
                if ListOutcome(cb, base, items, items, None, None) then
                  && old(calls) + items <= calls
                  && WatchOutcome(log, cb, log.position(list.value.1), base + |items|, Since(base + |items|), got, err)
                else ListOutcome(cb, base, items, Since(base), got, err)
    {
      if list.None? {
        return None, Some(ListFailed);
      }
      got, err := ShowList(list.value.0);
      if got.Some? || err.Some? {
        return;
      }
      assert calls == old(calls) + list.value.0;
      got, err := RetryWatch(list.value.1, rounds);
    }
  }
}
