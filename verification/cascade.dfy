/**
 * Trigger cascades end (pkg/router/trigger.go, pkg/router/handler.go). The contents of the server are fixed, every kind
 * is already watched, and handlers neither fail nor ask for a retry; they may register any watches for the object they
 * are called with. Keys are taken from the queue in any order, and any plain key may be throttled.
 */
module Cascade {
  import opened Kube
  import opened Text
  import opened Triggers

  /** Plain keys come from changes, triggered ones from the registry, replayed ones from the limiter. */
  datatype Mode = Plain | Triggered | Replayed

  datatype Item = Item(target: Target, mode: Mode)

  datatype State = State(queue: set<Item>, registry: set<Entry>)

  datatype Setting = Setting(meaning: Meaning, contents: Target -> Option<Obj>)

  function RequestFor(env: Setting, i: Item): Request {
    var p := Cut(i.target.key, '/');
    Request(i.target.gvk, i.target.key, if p.found then p.before else "", if p.found then p.after else i.target.key,
            env.contents(i.target), i.mode.Triggered?)
  }

  /** The key of an object with a namespace, and of one without, give the request the object's own name. */
  lemma RequestNames(env: Setting, ns: string, name: string, gvk: GVK, mode: Mode)
    requires '/' !in ns && (ns == "" ==> '/' !in name)
    ensures var key := if ns == "" then name else ns + "/" + name;
            RequestFor(env, Item(Target(key, gvk), mode))
            == Request(gvk, key, ns, name, env.contents(Target(key, gvk)), mode == Triggered)
  {
    if ns != "" {
      CutJoin(ns, '/', name);
    }
  }

  function Targets(entries: set<Entry>): set<Target> {
    set e | e in entries :: e.target
  }

  /** The targets an object being handled makes run again. */
  ghost function Fired(env: Setting, entries: set<Entry>, req: Request): set<Target> {
    set t | t in Targets(entries) && Woken(env.meaning, entries, req, t)
  }

  function Again(ts: set<Target>): set<Item> {
    set t | t in ts :: Item(t, Triggered)
  }

  /**
   * Handling a key: the handler registers watches for the object; then a deleted object is unregistered and wakes who
   * watched it, a plain or replayed change wakes who watches it, and a triggered run wakes nobody.
   */
  ghost predicate Handle(env: Setting, s: State, i: Item, watches: set<Entry>, s': State) {
    var req := RequestFor(env, i);
    var known := s.registry + watches;
    var fired := if req.obj.None? || !req.fromTrigger then Fired(env, known, req) else {};
    && i in s.queue
    && (forall e :: e in watches ==> e.target == i.target)
    && s'.registry == (if req.obj.None? then Kept(known, req) else known)
    && s'.queue == s.queue - {i} + Again(fired)
  }

  /** A throttled key comes back as a replay, or is dropped because a replay is already on its way. */
  ghost predicate Throttle(s: State, i: Item, s': State) {
    && i in s.queue && i.mode.Plain? && s'.registry == s.registry
    && (s'.queue == s.queue - {i} + {Item(i.target, Replayed)} || s'.queue == s.queue - {i})
  }

  ghost predicate Handles(env: Setting, s: State, i: Item, s': State) {
    exists watches :: Handle(env, s, i, watches, s')
  }

  ghost predicate Step(env: Setting, s: State, s': State) {
    exists i :: Throttle(s, i, s') || Handles(env, s, i, s')
  }

  // ----- the measure -----

  /** Registered targets whose object is deleted. */
  function Doomed(env: Setting, s: State): set<Target> {
    set t | t in Targets(s.registry) && env.contents(t).None?
  }

  /** Whether handling the item can wake anyone without making the first component smaller. */
  predicate Loud(env: Setting, s: State, i: Item) {
    !i.mode.Triggered? || (env.contents(i.target).None? && i.target !in Targets(s.registry))
  }

  function LoudOnes(env: Setting, s: State): set<Item> {
    set i | i in s.queue && Loud(env, s, i)
  }

  function PlainOnes(s: State): set<Item> {
    set i | i in s.queue && i.mode.Plain?
  }

  ghost predicate Smaller(env: Setting, s': State, s: State) {
    var (d', l', p', q') := (|Doomed(env, s')|, |LoudOnes(env, s')|, |PlainOnes(s')|, |s'.queue|);
    var (d, l, p, q) := (|Doomed(env, s)|, |LoudOnes(env, s)|, |PlainOnes(s)|, |s.queue|);
    || d' < d
    || (d' == d && l' < l)
    || (d' == d && l' == l && p' < p)
    || (d' == d && l' == l && p' == p && q' < q)
  }

  lemma OneFewer<T>(a: set<T>, b: set<T>, x: T)
    requires a <= b && x in b && x !in a
    ensures |a| < |b|
  {
    SubsetSize(a, b);
  }

  lemma ThrottleDecreases(env: Setting, s: State, i: Item, s': State)
    requires Throttle(s, i, s')
    ensures Smaller(env, s', s)
  {
    assert Doomed(env, s') == Doomed(env, s);
    OneFewer(PlainOnes(s'), PlainOnes(s), i);
    var replay := Item(i.target, Replayed);
    assert LoudOnes(env, s') <= LoudOnes(env, s) - {i} + {replay};
    assert |LoudOnes(env, s) - {i}| == |LoudOnes(env, s)| - 1;
    SubsetSize(LoudOnes(env, s'), LoudOnes(env, s) - {i} + {replay});
  }

  /** An existing object: its watches stay, nothing it wakes is loud, and it was loud itself if it wakes anyone. */
  lemma HandleExistingDecreases(env: Setting, s: State, i: Item, watches: set<Entry>, s': State)
    requires Handle(env, s, i, watches, s') && env.contents(i.target).Some?
    ensures Smaller(env, s', s)
  {
    assert Doomed(env, s') == Doomed(env, s) by {
      forall t ensures t in Doomed(env, s') <==> t in Doomed(env, s) {
        TargetsGrow(s.registry, watches, i.target, t);
      }
    }
    forall j | j in LoudOnes(env, s') ensures j in LoudOnes(env, s) && j != i {
      TargetsGrow(s.registry, watches, i.target, j.target);
    }
    if i.mode.Triggered? {
      assert s'.queue == s.queue - {i};
      SubsetSize(LoudOnes(env, s'), LoudOnes(env, s));
      SubsetSize(PlainOnes(s'), PlainOnes(s));
      OneFewer(s'.queue, s.queue, i);
    } else {
      OneFewer(LoudOnes(env, s'), LoudOnes(env, s), i);
    }
  }

  lemma TargetsGrow(registry: set<Entry>, watches: set<Entry>, own: Target, t: Target)
    requires forall e :: e in watches ==> e.target == own
    ensures t in Targets(registry) ==> t in Targets(registry + watches)
    ensures t in Targets(registry + watches) ==> t in Targets(registry) || t == own
  {
    if t in Targets(registry) {
      var e :| e in registry && e.target == t;
      assert e in registry + watches;
    }
  }

  /** A deleted object is unregistered: if it was registered, one doomed target fewer; if not, it was loud. */
  lemma HandleDeletedDecreases(env: Setting, s: State, i: Item, watches: set<Entry>, s': State)
    requires Handle(env, s, i, watches, s') && env.contents(i.target).None?
    ensures Smaller(env, s', s)
  {
    var req := RequestFor(env, i);
    assert req.Self() == i.target;
    forall t | t in Doomed(env, s') ensures t in Doomed(env, s) && t != i.target {
      KeptTargets(s.registry, watches, req, t);
    }
    SubsetSize(Doomed(env, s'), Doomed(env, s));
    if i.target in Targets(s.registry) {
      OneFewer(Doomed(env, s'), Doomed(env, s), i.target);
    } else if Doomed(env, s') == Doomed(env, s) {
      forall j | j in LoudOnes(env, s') ensures j in LoudOnes(env, s) && j != i {
        assert j.target in Doomed(env, s) ==> j.target in Doomed(env, s');
        TargetsGrow(s.registry, watches, i.target, j.target);
      }
      OneFewer(LoudOnes(env, s'), LoudOnes(env, s), i);
    }
  }

  lemma KeptTargets(registry: set<Entry>, watches: set<Entry>, req: Request, t: Target)
    requires forall e :: e in watches ==> e.target == req.Self()
    ensures t in Targets(Kept(registry + watches, req)) ==> t in Targets(registry) && t != req.Self()
  {
    if t in Targets(Kept(registry + watches, req)) {
      var e :| e in Kept(registry + watches, req) && e.target == t;
      assert e in registry;
    }
  }

  /** Every step makes the measure smaller. */
  lemma StepDecreases(env: Setting, s: State, s': State)
    requires Step(env, s, s')
    ensures Smaller(env, s', s)
  {
    var i :| Throttle(s, i, s') || Handles(env, s, i, s');
    if Throttle(s, i, s') {
      ThrottleDecreases(env, s, i, s');
    } else {
      var watches :| Handle(env, s, i, watches, s');
      if env.contents(i.target).None? {
        HandleDeletedDecreases(env, s, i, watches, s');
      } else {
        HandleExistingDecreases(env, s, i, watches, s');
      }
    }
  }

  /** From any queue and any registry, every run reaches an empty queue. */
  lemma EveryRunDrains(env: Setting, run: nat -> State, i: nat) returns (n: nat)
    requires forall j: nat :: run(j).queue != {} ==> Step(env, run(j), run(j + 1))
    ensures n >= i && run(n).queue == {}
    decreases |Doomed(env, run(i))|, |LoudOnes(env, run(i))|, |PlainOnes(run(i))|, |run(i).queue|
  {
    if run(i).queue == {} {
      n := i;
    } else {
      StepDecreases(env, run(i), run(i + 1));
      n := EveryRunDrains(env, run, i + 1);
    }
  }

  // ----- the program takes only such steps -----

  class HandlerLoop {
    const env: Setting
    const registry: Registry
    var queue: set<Item>

    ghost predicate Valid()
      reads this, registry
    {
      registry.Valid() && registry.meaning == env.meaning
    }

    ghost function Now(): State
      reads this, registry
    {
      State(queue, registry.entries)
    }

    constructor (env: Setting, registry: Registry, queue: set<Item>)
      requires registry.Valid() && registry.meaning == env.meaning
      ensures Valid() && Now() == State(queue, registry.entries) && this.env == env
    {
      this.env, this.registry, this.queue := env, registry, queue;
    }

    /** Handles one key; `watches` are the kinds and matchers its handler asks to watch. */
    method HandleKey(i: Item, watches: seq<(GVK, Matcher)>)
      requires Valid() && i in queue
      modifies this, registry
      ensures Valid() && Handles(env, old(Now()), i, Now())
      ensures |registry.triggered| >= |old(registry.triggered)|
      ensures forall x :: x in queue <==>
                || (x in old(queue) && x != i)
                || (x.mode.Triggered? && x.target in registry.triggered[|old(registry.triggered)|..])
      ensures i.mode.Triggered? && env.contents(i.target).Some? ==> registry.triggered == old(registry.triggered)
    {
      queue := queue - {i};
      ghost var asked := RegisterAll(i.target, watches);
      var req, before := RequestFor(env, i), |registry.triggered|;
      ghost var known := registry.entries;
      if req.obj.None? {
        registry.UnregisterAndTrigger(req);
      } else {
        registry.Trigger(req);
      }
      var fired := registry.triggered[before..];
      queue := queue + (set t | t in fired :: Item(t, Triggered));
      FiredAre(env, known, req, fired);
      assert Handle(env, old(Now()), i, asked, Now());
    }

    method RegisterAll(own: Target, watches: seq<(GVK, Matcher)>) returns (ghost asked: set<Entry>)
      requires Valid()
      modifies registry`matchers, registry`entries
      ensures Valid() && registry.entries == old(registry.entries) + asked
      ensures forall e :: e in asked ==> e.target == own
    {
      asked := {};
      for j := 0 to |watches|
        invariant Valid() && registry.entries == old(registry.entries) + asked
        invariant forall e :: e in asked ==> e.target == own
      {
        registry.Register(own.gvk, own.key, watches[j].0, watches[j].1);
        asked := asked + {Entry(watches[j].0, own, watches[j].1)};
      }
    }
  }

  lemma FiredAre(env: Setting, known: set<Entry>, req: Request, fired: seq<Target>)
    requires
      || (req.obj.None? && forall t :: multiset(fired)[t] == if t.key == req.key && t.gvk == req.gvk then 0
                                                             else |Calling(env.meaning, known, req, t)|)
      || (req.obj.Some? && req.fromTrigger && fired == [])
      || (req.obj.Some? && !req.fromTrigger && forall t :: t in fired <==> Woken(env.meaning, known, req, t))
    ensures (set t | t in fired :: Item(t, Triggered))
            == Again(if req.obj.None? || !req.fromTrigger then Fired(env, known, req) else {})
  {
    if req.obj.None? || !req.fromTrigger {
      forall t ensures t in fired <==> t in Fired(env, known, req) {
        assert t in fired <==> multiset(fired)[t] > 0;
        WokenIsFitting(env.meaning, known, req, t);
        CallingIsFitting(env.meaning, known, req, t);
        if Woken(env.meaning, known, req, t) {
          var o :| Entry(req.gvk, t, o) in known && Fits(env.meaning, o, req);
          assert t in Targets(known);
        }
      }
    }
  }

  lemma WokenIsFitting(m: Meaning, known: set<Entry>, req: Request, t: Target)
    ensures Wakes(m, known, req, t) <==> |Fitting(m, known, req, t)| > 0
  {
    if Wakes(m, known, req, t) {
      var o :| Entry(req.gvk, t, o) in known && Fits(m, o, req);
      assert Entry(req.gvk, t, o).matcher in Fitting(m, known, req, t);
    }
    if |Fitting(m, known, req, t)| > 0 {
      var o :| o in Fitting(m, known, req, t);
      var e :| e in known && e.watched == req.gvk && e.target == t && Fits(m, e.matcher, req) && e.matcher == o;
      assert e == Entry(req.gvk, t, o);
    }
  }
}
