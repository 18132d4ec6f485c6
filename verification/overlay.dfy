/**
 * The write-through cache (pkg/runtime/cached.go): a map of recent writes laid over informers that lag behind the server.
 * Own and foreign writes, deletions, informers moving on, purges and the passing of time are interleaved in any way; a
 * write is first made on the server and remembered by the cache in a later step.
 */
module Overlay {
  import opened Kube
  import opened Server
  import opened Versions

  const CACHE_DURATION := 10.0

  datatype ObjectKey = ObjectKey(gvk: GVK, key: Key) {
    /** The same object is visible under every version of its kind. */
    function Slot(): Slot {
      Server.Slot(gvk.GroupKind(), key)
    }
  }

  datatype Copy = Copy(rv: string, body: string)

  datatype Recent = Recent(copy: Copy, inserted: real)

  /** A write of this client that the server has made and the cache has not remembered yet. */
  datatype Write = Write(key: ObjectKey, copy: Copy)

  type Histories = map<Slot, seq<Option<Copy>>>

  function StatesOf(history: Histories, s: Slot): seq<Option<Copy>> {
    if s in history then history[s] else []
  }

  /**
   * `history` holds all states an object ever had, None where it was removed; `seen` is how many of them the informer of
   * each kind has received.
   */
  datatype System = System(now: real,
                           rev: nat,
                           history: Histories,
                           seen: map<ObjectKey, nat>,
                           recent: map<ObjectKey, Recent>,
                           pending: set<Write>,
                           forgetting: set<ObjectKey>)
  {
    function History(s: Slot): seq<Option<Copy>> {
      StatesOf(history, s)
    }

    function Seen(k: ObjectKey): nat {
      if k in seen then seen[k] else 0
    }

    function Latest(s: Slot): Option<Copy> {
      var h := History(s);
      if h == [] then None else h[|h| - 1]
    }

    /** What the informer shows. */
    function View(k: ObjectKey): Option<Copy> {
      var h := History(k.Slot());
      if 0 < Seen(k) <= |h| then h[Seen(k) - 1] else None
    }
  }

  // ----- the cache's own operations -----

  /** A read: not found when the informer has nothing, whatever was written; else the newer of the two copies. */
  function Overlaid(recent: map<ObjectKey, Recent>, k: ObjectKey, cached: Option<Copy>): Option<Copy> {
    if cached.None? then None
    else if k in recent && Newer(cached.value.rv, recent[k].copy.rv) then Some(recent[k].copy)
    else cached
  }

  function Store(recent: map<ObjectKey, Recent>, k: ObjectKey, c: Copy, now: real): map<ObjectKey, Recent> {
    recent[k := Recent(c, now)]
  }

  function Purge(recent: map<ObjectKey, Recent>, now: real): map<ObjectKey, Recent> {
    map k | k in recent && !(recent[k].inserted + CACHE_DURATION < now) :: recent[k]
  }

  function Read(s: System, k: ObjectKey): Option<Copy> {
    Overlaid(s.recent, k, s.View(k))
  }

  // ----- runs -----

  datatype Event =
    | OwnWrite(key: ObjectKey, body: string)
    | NoOpWrite(key: ObjectKey)
    | Remember(write: Write)
    | OwnDelete(key: ObjectKey, lingers: Option<string>)
    | Forget(key: ObjectKey)
    | ForeignWrite(slot: Slot, body: string)
    | ForeignDelete(slot: Slot)
    | Advance(key: ObjectKey, to: nat)
    | PurgeOld
    | Tick(later: real)

  /** Revisions of the server are 64-bit integers. A write that changes nothing is answered with the latest version. */
  predicate Enabled(s: System, e: Event) {
    match e
    case OwnWrite(_, _) => s.rev < MAX_INT
    case NoOpWrite(k) => s.Latest(k.Slot()).Some?
    case Remember(w) => w in s.pending
    case OwnDelete(_, _) => s.rev < MAX_INT
    case Forget(k) => k in s.forgetting
    case ForeignWrite(_, _) => s.rev < MAX_INT
    case ForeignDelete(_) => s.rev < MAX_INT
    case Advance(k, to) => s.Seen(k) <= to <= |s.History(k.Slot())|
    case PurgeOld => true
    case Tick(later) => s.now <= later
  }

  function Commit(s: System, slot: Slot, body: Option<string>): System {
    var copy := if body.None? then None else Some(Copy(Decimal(s.rev + 1), body.value));
    s.(rev := s.rev + 1, history := s.history[slot := s.History(slot) + [copy]])
  }

  predicate Writes(e: Event) {
    e.OwnWrite? || e.NoOpWrite?
  }

  /** What the server answers to a write. */
  function Answer(s: System, e: Event): Copy
    requires Enabled(s, e) && Writes(e)
  {
    if e.OwnWrite? then Copy(Decimal(s.rev + 1), e.body) else s.Latest(e.key.Slot()).value
  }

  function Next(s: System, e: Event): System
    requires Enabled(s, e)
  {
    match e
    case OwnWrite(k, body) =>
      Commit(s, k.Slot(), Some(body)).(pending := s.pending + {Write(k, Answer(s, e))})
    case NoOpWrite(k) => s.(pending := s.pending + {Write(k, Answer(s, e))})
    case Remember(w) => s.(recent := Store(s.recent, w.key, w.copy, s.now), pending := s.pending - {w})
    case OwnDelete(k, lingers) => Commit(s, k.Slot(), lingers).(forgetting := s.forgetting + {k})
    case Forget(k) => s.(recent := s.recent - {k}, forgetting := s.forgetting - {k})
    case ForeignWrite(slot, body) => Commit(s, slot, Some(body))
    case ForeignDelete(slot) => Commit(s, slot, None)
    case Advance(k, to) => s.(seen := s.seen[k := to])
    case PurgeOld => s.(recent := Purge(s.recent, s.now))
    case Tick(later) => s.(now := later)
  }

  ghost predicate Run(run: seq<System>, events: seq<Event>) {
    && |run| == |events| + 1
    && (exists now :: run[0] == System(now, 0, map[], map[], map[], {}, {}))
    && forall i :: 0 <= i < |events| ==> Enabled(run[i], events[i]) && run[i + 1] == Next(run[i], events[i])
  }

  // ----- the invariant -----

  predicate Numbered(c: Copy) {
    Digits(c.rv) && c.rv != "" && InRange(c.rv)
  }

  function Rev(c: Copy): nat {
    if Digits(c.rv) then Value(c.rv) else 0
  }

  /** The server once held this. */
  predicate Held(s: System, slot: Slot, c: Copy) {
    Some(c) in s.History(slot)
  }

  ghost predicate WellNumbered(h: seq<Option<Copy>>, rev: nat) {
    && (forall i :: 0 <= i < |h| && h[i].Some? ==> Numbered(h[i].value) && Rev(h[i].value) <= rev)
    && (forall i, j :: 0 <= i < j < |h| && h[i].Some? && h[j].Some? ==> Rev(h[i].value) < Rev(h[j].value))
  }

  ghost predicate AllNumbered(history: Histories, rev: nat) {
    forall slot :: WellNumbered(StatesOf(history, slot), rev)
  }

  ghost predicate SeenFits(history: Histories, seen: map<ObjectKey, nat>) {
    forall k :: k in seen ==> seen[k] <= |StatesOf(history, k.Slot())|
  }

  ghost predicate RecentIsReal(history: Histories, recent: map<ObjectKey, Recent>, now: real) {
    forall k :: k in recent ==> Some(recent[k].copy) in StatesOf(history, k.Slot()) && recent[k].inserted <= now
  }

  ghost predicate PendingIsReal(history: Histories, pending: set<Write>) {
    forall w :: w in pending ==> Some(w.copy) in StatesOf(history, w.key.Slot())
  }

  ghost predicate Invariant(s: System) {
    && AllNumbered(s.history, s.rev)
    && SeenFits(s.history, s.seen)
    && RecentIsReal(s.history, s.recent, s.now)
    && PendingIsReal(s.history, s.pending)
  }

  lemma Appended(h: seq<Option<Copy>>, rev: nat, body: Option<string>)
    requires WellNumbered(h, rev) && rev < MAX_INT
    ensures WellNumbered(h, rev + 1)
    ensures WellNumbered(h + [if body.None? then None else Some(Copy(Decimal(rev + 1), body.value))], rev + 1)
  {
    DecimalValue(rev + 1);
  }

  lemma CommitKeeps(s: System, slot: Slot, body: Option<string>)
    requires Invariant(s) && s.rev < MAX_INT
    ensures Invariant(Commit(s, slot, body))
    ensures body.Some? ==> Held(Commit(s, slot, body), slot, Copy(Decimal(s.rev + 1), body.value))
  {
    var s' := Commit(s, slot, body);
    forall t ensures WellNumbered(StatesOf(s'.history, t), s'.rev) {
      Appended(StatesOf(s.history, t), s.rev, body);
    }
    assert forall t :: StatesOf(s.history, t) <= StatesOf(s'.history, t);
  }

  lemma NextKeeps(s: System, e: Event)
    requires Invariant(s) && Enabled(s, e)
    ensures Invariant(Next(s, e))
  {
    match e
    case OwnWrite(k, body) => CommitKeeps(s, k.Slot(), Some(body));
    case OwnDelete(k, lingers) => CommitKeeps(s, k.Slot(), lingers);
    case ForeignWrite(slot, body) => CommitKeeps(s, slot, Some(body));
    case ForeignDelete(slot) => CommitKeeps(s, slot, None);
    case _ =>
  }

  lemma {:induction false} AlwaysInvariant(run: seq<System>, events: seq<Event>, i: nat)
    requires Run(run, events) && i < |run|
    ensures Invariant(run[i])
  {
    if i > 0 {
      AlwaysInvariant(run, events, i - 1);
      NextKeeps(run[i - 1], events[i - 1]);
    }
  }

  // ----- what a read returns -----

  lemma HeldIsNumbered(s: System, slot: Slot, c: Copy)
    requires Invariant(s) && Held(s, slot, c)
    ensures Numbered(c) && Rev(c) <= s.rev
  {
    assert WellNumbered(StatesOf(s.history, slot), s.rev);
  }

  lemma ViewIsHeld(s: System, k: ObjectKey)
    requires s.View(k).Some?
    ensures Held(s, k.Slot(), s.View(k).value)
  {}

  /**
   * In every reachable state a read is not found exactly when the informer has nothing, and otherwise returns a version
   * the server held: the newer, by number, of the informer's copy and the last remembered write.
   */
  lemma ReadIsReal(run: seq<System>, events: seq<Event>, i: nat, k: ObjectKey)
    requires Run(run, events) && i < |run|
    ensures var s := run[i];
            && (Read(s, k).None? <==> s.View(k).None?)
            && (Read(s, k).Some? ==>
                  var got, cached := Read(s, k).value, s.View(k).value;
                  && Held(s, k.Slot(), got) && Numbered(got) && Numbered(cached)
                  && (k !in s.recent ==> got == cached)
                  && (k in s.recent ==>
                        var stored := s.recent[k].copy;
                        && Numbered(stored)
                        && (got == cached || got == stored)
                        && Rev(got) >= Rev(cached) && Rev(got) >= Rev(stored)))
  {
    AlwaysInvariant(run, events, i);
    var s := run[i];
    if s.View(k).Some? {
      ReadIsMax(s, k);
    }
  }

  function Max(a: nat, b: nat): nat { if a < b then b else a }

  lemma ReadIsMax(s: System, k: ObjectKey)
    requires Invariant(s) && s.View(k).Some?
    ensures Read(s, k).Some? && Held(s, k.Slot(), Read(s, k).value)
    ensures Numbered(Read(s, k).value) && Numbered(s.View(k).value)
    ensures k in s.recent ==>
              && Numbered(s.recent[k].copy)
              && Rev(Read(s, k).value) == Max(Rev(s.View(k).value), Rev(s.recent[k].copy))
    ensures k !in s.recent ==> Read(s, k) == s.View(k)
  {
    ViewIsHeld(s, k);
    HeldIsNumbered(s, k.Slot(), s.View(k).value);
    if k in s.recent {
      HeldIsNumbered(s, k.Slot(), s.recent[k].copy);
      NewerIsNumeric(s.View(k).value.rv, s.recent[k].copy.rv);
    }
  }

  // ----- when reads go back -----

  /** The newest version the cache has for the key that the informer does not have yet, if any. */
  ghost predicate Ahead(s: System, k: ObjectKey)
    requires s.View(k).Some?
  {
    k in s.recent && Rev(s.recent[k].copy) > Rev(s.View(k).value)
  }

  /**
   * What makes a read of the key go back: a purge, or the end of a delete, that drops a write the informer lacks, and
   * remembering a write older than one the informer lacks.
   */
  ghost predicate Regresses(s: System, e: Event, k: ObjectKey)
    requires s.View(k).Some? && Enabled(s, e)
  {
    Ahead(s, k) &&
    match e
    case PurgeOld => s.recent[k].inserted + 10.0 < s.now
    case Forget(x) => x == k
    case Remember(w) => w.key == k && Rev(w.copy) < Rev(s.recent[k].copy)
    case _ => false
  }

  lemma HistoryGrows(s: System, e: Event, slot: Slot)
    requires Enabled(s, e)
    ensures s.History(slot) <= Next(s, e).History(slot)
  {}

  lemma SeenGrows(s: System, e: Event, k: ObjectKey)
    requires Enabled(s, e)
    ensures s.Seen(k) <= Next(s, e).Seen(k)
    ensures !e.Advance? ==> s.Seen(k) == Next(s, e).Seen(k)
  {}

  lemma ViewMovesOn(s: System, s': System, k: ObjectKey)
    requires Invariant(s) && Invariant(s')
    requires s.History(k.Slot()) <= s'.History(k.Slot()) && s.Seen(k) <= s'.Seen(k)
    requires s.View(k).Some? && s'.View(k).Some?
    ensures Numbered(s.View(k).value) && Numbered(s'.View(k).value)
    ensures Rev(s.View(k).value) <= Rev(s'.View(k).value)
    ensures s.Seen(k) == s'.Seen(k) ==> s.View(k) == s'.View(k)
  {
    assert WellNumbered(StatesOf(s'.history, k.Slot()), s'.rev);
    assert s.View(k) == s'.History(k.Slot())[s.Seen(k) - 1];
  }

  /** What a step does to the remembered write of a key. */
  lemma RecentStep(s: System, e: Event, k: ObjectKey)
    requires Enabled(s, e)
    ensures
      var was := if k in s.recent then Some(s.recent[k]) else None;
      var after := if k in Next(s, e).recent then Some(Next(s, e).recent[k]) else None;
      after == if e.Remember? && e.write.key == k then Some(Recent(e.write.copy, s.now))
            else if e.Forget? && e.key == k then None
            else if e.PurgeOld? && was.Some? && was.value.inserted + CACHE_DURATION < s.now then None
            else was
  {}

  /** A read goes back when the last remembered write was ahead of the informer, and nothing that new is left. */
  lemma BackMeansDropped(s: System, s': System, k: ObjectKey)
    requires Invariant(s) && Invariant(s') && s.View(k).Some? && s'.View(k).Some?
    requires Rev(s.View(k).value) <= Rev(s'.View(k).value)
    ensures Read(s, k).Some? && Read(s', k).Some?
    ensures Rev(Read(s', k).value) < Rev(Read(s, k).value) <==>
            && Ahead(s, k)
            && Rev(s'.View(k).value) < Rev(s.recent[k].copy)
            && (k in s'.recent ==> Rev(s'.recent[k].copy) < Rev(s.recent[k].copy))
  {
    ReadIsMax(s, k);
    ReadIsMax(s', k);
  }

  /** A step makes a read go back exactly in these cases. */
  lemma GoesBackExactly(s: System, e: Event, k: ObjectKey)
    requires Invariant(s) && Enabled(s, e) && s.View(k).Some? && Next(s, e).View(k).Some?
    ensures Read(s, k).Some? && Read(Next(s, e), k).Some?
    ensures Rev(Read(Next(s, e), k).value) < Rev(Read(s, k).value) <==> Regresses(s, e, k)
  {
    var s' := Next(s, e);
    NextKeeps(s, e);
    assert Rev(s.View(k).value) <= Rev(s'.View(k).value) && (!e.Advance? ==> s.View(k) == s'.View(k)) by {
      HistoryGrows(s, e, k.Slot());
      SeenGrows(s, e, k);
      ViewMovesOn(s, s', k);
    }
    BackMeansDropped(s, s', k);
    RecentStep(s, e, k);
  }

  // ----- runs in which reads only move on -----

  /** The first so many steps from i on keep the key's remembered write, or replace it by a newer one. */
  ghost predicate Steady(run: seq<System>, events: seq<Event>, i: nat, j: nat, k: ObjectKey)
    requires Run(run, events) && i <= j < |run|
  {
    forall n :: i <= n < j ==> StepIsSteady(run[n], events[n], k)
  }

  predicate StepIsSteady(s: System, e: Event, k: ObjectKey) {
    match e
    case PurgeOld => k in s.recent ==> s.now <= s.recent[k].inserted + 10.0
    case Forget(x) => x != k
    case Remember(w) => w.key == k && k in s.recent ==> !Newer(w.copy.rv, s.recent[k].copy.rv)
    case _ => true
  }

  /** The number of the last remembered write; a step that is steady does not lower it. */
  lemma RecentMovesOn(s: System, e: Event, k: ObjectKey)
    requires Invariant(s) && Enabled(s, e) && StepIsSteady(s, e, k) && k in s.recent
    ensures k in Next(s, e).recent
    ensures Numbered(s.recent[k].copy) && Numbered(Next(s, e).recent[k].copy)
    ensures Rev(s.recent[k].copy) <= Rev(Next(s, e).recent[k].copy)
  {
    RecentStep(s, e, k);
    HeldIsNumbered(s, k.Slot(), s.recent[k].copy);
    if e.Remember? && e.write.key == k {
      HeldIsNumbered(s, k.Slot(), e.write.copy);
      NewerIsNumeric(e.write.copy.rv, s.recent[k].copy.rv);
    }
  }

  lemma {:induction false} RecentNeverBack(run: seq<System>, events: seq<Event>, i: nat, j: nat, k: ObjectKey)
    requires Run(run, events) && i <= j < |run| && Steady(run, events, i, j, k) && k in run[i].recent
    ensures k in run[j].recent
    ensures Numbered(run[i].recent[k].copy) && Numbered(run[j].recent[k].copy)
    ensures Rev(run[i].recent[k].copy) <= Rev(run[j].recent[k].copy)
    decreases j - i
  {
    AlwaysInvariant(run, events, i);
    HeldIsNumbered(run[i], k.Slot(), run[i].recent[k].copy);
    if i < j {
      RecentMovesOn(run[i], events[i], k);
      RecentNeverBack(run, events, i + 1, j, k);
    }
  }

  lemma {:induction false} HistoryAndSeenGrow(run: seq<System>, events: seq<Event>, i: nat, j: nat, k: ObjectKey)
    requires Run(run, events) && i <= j < |run|
    ensures run[i].History(k.Slot()) <= run[j].History(k.Slot()) && run[i].Seen(k) <= run[j].Seen(k)
    decreases j - i
  {
    if i < j {
      HistoryGrows(run[i], events[i], k.Slot());
      SeenGrows(run[i], events[i], k);
      HistoryAndSeenGrow(run, events, i + 1, j, k);
    }
  }

  /**
   * Reads do not go back, however long the informer lags and whatever others write, as long as no purge or delete drops
   * the key's remembered write and writes are remembered in version order.
   */
  lemma ReadsMoveOn(run: seq<System>, events: seq<Event>, i: nat, j: nat, k: ObjectKey)
    requires Run(run, events) && i <= j < |run| && Steady(run, events, i, j, k)
    requires Read(run[i], k).Some? && Read(run[j], k).Some?
    ensures Numbered(Read(run[i], k).value) && Numbered(Read(run[j], k).value)
    ensures Rev(Read(run[i], k).value) <= Rev(Read(run[j], k).value)
  {
    AlwaysInvariant(run, events, i);
    AlwaysInvariant(run, events, j);
    HistoryAndSeenGrow(run, events, i, j, k);
    ViewMovesOn(run[i], run[j], k);
    ReadIsMax(run[i], k);
    ReadIsMax(run[j], k);
    if k in run[i].recent {
      RecentNeverBack(run, events, i, j, k);
    }
  }

  // ----- reading one's own writes -----

  lemma {:induction false} TimeMovesOn(run: seq<System>, events: seq<Event>, i: nat, j: nat)
    requires Run(run, events) && i <= j < |run|
    ensures run[i].now <= run[j].now
    decreases j - i
  {
    if i < j {
      TimeMovesOn(run, events, i + 1, j);
    }
  }

  /** The key is not deleted through this client, and its writes are remembered in version order. */
  ghost predicate Ordered(run: seq<System>, events: seq<Event>, i: nat, j: nat, k: ObjectKey)
    requires Run(run, events) && i <= j < |run|
  {
    forall n :: i <= n < j && !events[n].PurgeOld? ==> StepIsSteady(run[n], events[n], k)
  }

  lemma {:induction false} FreshWritesSurvive(run: seq<System>, events: seq<Event>, i: nat, j: nat, k: ObjectKey, since: real)
    requires Run(run, events) && i <= j < |run| && Ordered(run, events, i, j, k)
    requires k in run[i].recent && run[i].recent[k].inserted >= since && since <= run[i].now
    requires run[j].now <= since + 10.0
    ensures Steady(run, events, i, j, k)
    decreases j - i
  {
    if i < j {
      TimeMovesOn(run, events, i, j);
      RecentStep(run[i], events[i], k);
      AlwaysInvariant(run, events, i);
      assert StepIsSteady(run[i], events[i], k);
      RecentMovesOn(run[i], events[i], k);
      TimeMovesOn(run, events, i + 1, j);
      FreshWritesSurvive(run, events, i + 1, j, k, since);
    }
  }

  /**
   * For ten seconds after a write is remembered, every read that finds the object returns that write or a newer one, even
   * if purges happen and the informer knows nothing of it.
   */
  lemma ReadsOwnWrite(run: seq<System>, events: seq<Event>, i: nat, j: nat, w: Write)
    requires Run(run, events) && i < j < |run| && events[i] == Remember(w)
    requires Ordered(run, events, i + 1, j, w.key) && run[j].now <= run[i].now + 10.0
    requires Read(run[j], w.key).Some?
    ensures Numbered(w.copy) && Numbered(Read(run[j], w.key).value)
    ensures Rev(Read(run[j], w.key).value) >= Rev(w.copy)
  {
    AlwaysInvariant(run, events, i);
    AlwaysInvariant(run, events, j);
    TimeMovesOn(run, events, i, i + 1);
    FreshWritesSurvive(run, events, i + 1, j, w.key, run[i].now);
    RecentNeverBack(run, events, i + 1, j, w.key);
    ReadIsMax(run[j], w.key);
  }

  // ----- writes made one after another are remembered in order -----

  predicate OnePendingEach(s: System) {
    && (forall v, w :: v in s.pending && w in s.pending && v.key == w.key ==> v == w)
    && (forall w :: w in s.pending && w.key in s.recent ==> Rev(s.recent[w.key].copy) <= Rev(w.copy))
  }

  /** No write of a key is begun before the previous one is remembered, as when handlers take a lock on the key. */
  ghost predicate Serial(run: seq<System>, events: seq<Event>)
    requires Run(run, events)
  {
    forall n :: 0 <= n < |events| && Writes(events[n]) ==> forall w :: w in run[n].pending ==> w.key != events[n].key
  }

  /** What the server answers to a write is at least as new as anything it held before. */
  lemma AnswerIsLatest(s: System, e: Event, c: Copy)
    requires Invariant(s) && Enabled(s, e) && Writes(e) && Held(s, e.key.Slot(), c)
    ensures Rev(c) <= Rev(Answer(s, e))
  {
    HeldIsNumbered(s, e.key.Slot(), c);
    if e.OwnWrite? {
      DecimalValue(s.rev + 1);
    } else {
      assert WellNumbered(StatesOf(s.history, e.key.Slot()), s.rev);
    }
  }

  lemma PendingGrowsByOne(s: System, e: Event)
    requires Enabled(s, e)
    ensures e.Remember? ==> Next(s, e).pending == s.pending - {e.write}
    ensures !e.Remember? && !Writes(e) ==> Next(s, e).pending == s.pending
    ensures Writes(e) ==> Next(s, e).pending == s.pending + {Write(e.key, Answer(s, e))}
  {}

  lemma SerialStep(s: System, e: Event)
    requires Invariant(s) && Enabled(s, e) && OnePendingEach(s)
    requires Writes(e) ==> forall w :: w in s.pending ==> w.key != e.key
    ensures OnePendingEach(Next(s, e))
  {
    PendingGrowsByOne(s, e);
    forall w | w in Next(s, e).pending && w.key in Next(s, e).recent
      ensures Rev(Next(s, e).recent[w.key].copy) <= Rev(w.copy)
    {
      RecentStep(s, e, w.key);
      if w !in s.pending {
        AnswerIsLatest(s, e, s.recent[w.key].copy);
      }
    }
  }

  lemma {:induction false} SerialWritesAreOrdered(run: seq<System>, events: seq<Event>, n: nat, k: ObjectKey)
    requires Run(run, events) && Serial(run, events) && n < |run|
    ensures OnePendingEach(run[n])
    ensures n < |events| && events[n].Remember? ==> StepIsSteady(run[n], events[n], k)
  {
    if n > 0 {
      SerialWritesAreOrdered(run, events, n - 1, k);
      AlwaysInvariant(run, events, n - 1);
      SerialStep(run[n - 1], events[n - 1]);
    }
    if n < |events| && events[n].Remember? && events[n].write.key == k && k in run[n].recent {
      AlwaysInvariant(run, events, n);
      HeldIsNumbered(run[n], k.Slot(), events[n].write.copy);
      HeldIsNumbered(run[n], k.Slot(), run[n].recent[k].copy);
      NewerIsNumeric(events[n].write.copy.rv, run[n].recent[k].copy.rv);
    }
  }

  // ----- in the form of the program -----

  /** What the wrapped client answers to a write. */
  datatype Written = Written(copy: Copy) | WriteFailed

  class CacheClient {
    var recent: map<ObjectKey, Recent>

    constructor ()
      ensures recent == map[]
    {
      recent := map[];
    }

    /** Create, update and patch; an object in an uncached holder goes past the cache. */
    method Write(k: ObjectKey, holder: bool, answer: Written, now: real) returns (ok: bool)
      modifies this
      ensures ok <==> answer.Written?
      ensures recent == if ok && !holder then Store(old(recent), k, answer.copy, now) else old(recent)
    {
      if answer.WriteFailed? {
        return false;
      }
      if !holder {
        recent := recent[k := Recent(answer.copy, now)];
      }
      return true;
    }

    method Delete(k: ObjectKey, holder: bool, ok: bool)
      modifies this
      ensures recent == if ok && !holder then old(recent) - {k} else old(recent)
    {
      if ok && !holder {
        recent := recent - {k};
      }
    }

    method Get(k: ObjectKey, holder: bool, cached: Option<Copy>, uncached: Option<Copy>) returns (got: Option<Copy>)
      ensures got == if holder then uncached else Overlaid(recent, k, cached)
    {
      if holder {
        return uncached;
      }
      if cached.None? {
        return None;
      }
      if k in recent && Newer(cached.value.rv, recent[k].copy.rv) {
        return Some(recent[k].copy);
      }
      return cached;
    }

    /** One round of the purge: every entry is visited once, in any order, and deleted if it is too old. */
    method PurgeRound(now: real)
      modifies this
      ensures recent == Purge(old(recent), now)
      ensures forall k :: k in recent <==> k in old(recent) && now <= old(recent)[k].inserted + 10.0
      ensures forall k :: k in recent ==> recent[k] == old(recent)[k]
    {
      var todo := recent.Keys;
      while todo != {}
        invariant todo <= recent.Keys <= old(recent).Keys
        invariant forall k :: k in recent ==> recent[k] == old(recent)[k]
        invariant forall k :: k in old(recent) && k !in todo ==>
                    (k in recent <==> !(old(recent)[k].inserted + CACHE_DURATION < now))
        decreases todo
      {
        var k :| k in todo;
        if recent[k].inserted + CACHE_DURATION < now {
          recent := recent - {k};
        }
        todo := todo - {k};
      }
    }
  }
}
