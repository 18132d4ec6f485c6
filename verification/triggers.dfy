/** The registry of watches and the re-runs they cause (pkg/router/trigger.go, pkg/router/matcher.go). */
module Triggers {
  import opened Kube

  /** Selectors are known by their text; an absent selector is None. */
  datatype Matcher = Matcher(ns: string, name: string, selector: Option<string>, fields: Option<string>)

  /** What selector texts mean. An object that offers no fields has no answer for a field selector. */
  datatype Meaning = Meaning(labels: (string, Obj) -> bool, fields: (string, Obj) -> Option<bool>)

  /** `key` of kind `gvk` is to be run again. */
  datatype Target = Target(key: string, gvk: GVK)

  datatype Request = Request(gvk: GVK, key: string, ns: string, name: string, obj: Option<Obj>, fromTrigger: bool) {
    function Self(): Target {
      Target(key, gvk)
    }
  }

  /** One fact of the registry: when an object of kind `watched` fits `matcher`, run `target` again. */
  datatype Entry = Entry(watched: GVK, target: Target, matcher: Matcher)

  function Equals(a: Matcher, b: Matcher): bool {
    if a.name != b.name then false
    else if a.ns != b.ns then false
    else if a.selector.None? != b.selector.None? then false
    else if a.selector.Some? && a.selector.value != b.selector.value then false
    else if a.fields.None? != b.fields.None? then false
    else if a.fields.Some? && a.fields.value != b.fields.value then false
    else true
  }

  lemma EqualsIsEquality(a: Matcher, b: Matcher)
    ensures Equals(a, b) <==> a == b
  {}

  function Match(m: Meaning, o: Matcher, ns: string, name: string, obj: Option<Obj>): bool {
    if o.name != "" then o.name == name && o.ns == ns
    else if o.ns != "" && o.ns != ns then false
    else if o.selector.Some? || o.fields.Some? then
      if obj.None? then false
      else
        var selectorMatches := o.selector.Some? ==> m.labels(o.selector.value, obj.value);
        var fieldMatches := o.fields.Some? ==> m.fields(o.fields.value, obj.value) != Some(false);
        selectorMatches && fieldMatches
    else o.ns == "" || o.ns == ns
  }

  predicate Fits(m: Meaning, o: Matcher, req: Request) {
    Match(m, o, req.ns, req.name, req.obj)
  }

  /** A deletion is only noticed by selectors when the last state of the object is at hand. */
  lemma DeletedMatch(m: Meaning, o: Matcher, ns: string, name: string)
    ensures Match(m, o, ns, name, None) <==>
              if o.name != "" then o.name == name && o.ns == ns
              else (o.ns == "" || o.ns == ns) && o.selector.None? && o.fields.None?
  {}

  // ----- what a watch is on -----

  /** A watch that names the object, with its namespace. */
  predicate IsOn(o: Matcher, req: Request) {
    o.name != "" && o.name == req.name && o.ns == req.ns
  }

  /**
   * A watch without a name: on the object's namespace or on all, and the object meets its selectors. A field selector is
   * met by an object that offers no fields; no selector is met by an object that is not at hand.
   */
  predicate Selects(m: Meaning, o: Matcher, req: Request) {
    && o.name == "" && (o.ns == "" || o.ns == req.ns)
    && (o.selector.Some? ==> req.obj.Some? && m.labels(o.selector.value, req.obj.value))
    && (o.fields.Some? ==> req.obj.Some? && m.fields(o.fields.value, req.obj.value) != Some(false))
  }

  lemma FitsExactly(m: Meaning, o: Matcher, req: Request)
    ensures Fits(m, o, req) <==> IsOn(o, req) || Selects(m, o, req)
  {}

  /** What a request enqueues: any other target with a watch, on the request's kind, that names or selects the object. */
  ghost predicate Enqueues(m: Meaning, entries: set<Entry>, req: Request, t: Target) {
    && (t.key != req.key || t.gvk != req.gvk)
    && exists o :: Entry(req.gvk, t, o) in entries && (IsOn(o, req) || Selects(m, o, req))
  }

  lemma EnqueuesExactly(m: Meaning, entries: set<Entry>, req: Request, t: Target)
    ensures Woken(m, entries, req, t) <==> Enqueues(m, entries, req, t)
  {
    if Woken(m, entries, req, t) {
      var o :| Entry(req.gvk, t, o) in entries && Fits(m, o, req);
      FitsExactly(m, o, req);
    }
    if Enqueues(m, entries, req, t) {
      var o :| Entry(req.gvk, t, o) in entries && (IsOn(o, req) || Selects(m, o, req));
      FitsExactly(m, o, req);
    }
  }

  /** The target's watches that name or select the object. */
  ghost function Calling(m: Meaning, entries: set<Entry>, req: Request, t: Target): set<Matcher> {
    set e | e in entries && e.watched == req.gvk && e.target == t && (IsOn(e.matcher, req) || Selects(m, e.matcher, req))
      :: e.matcher
  }

  lemma CallingIsFitting(m: Meaning, entries: set<Entry>, req: Request, t: Target)
    ensures Calling(m, entries, req, t) == Fitting(m, entries, req, t)
  {
    forall e | e in entries ensures Fits(m, e.matcher, req) <==> IsOn(e.matcher, req) || Selects(m, e.matcher, req) {
      FitsExactly(m, e.matcher, req);
    }
  }

  // ----- the registry as a set of facts -----

  /** Some watch of the target fits the changed object. */
  ghost predicate Wakes(m: Meaning, entries: set<Entry>, req: Request, t: Target) {
    exists o :: Entry(req.gvk, t, o) in entries && Fits(m, o, req)
  }

  /** The targets to run again. An object does not wake itself. */
  ghost predicate Woken(m: Meaning, entries: set<Entry>, req: Request, t: Target) {
    t != req.Self() && Wakes(m, entries, req, t)
  }

  /** What unregistering removes: all watches of the object, and all watches on exactly this object. */
  predicate Leaves(req: Request, e: Entry) {
    e.target == req.Self() || (e.watched == req.gvk && e.matcher.ns == req.ns && e.matcher.name == req.name)
  }

  function Kept(entries: set<Entry>, req: Request): set<Entry> {
    set e | e in entries && !Leaves(req, e)
  }

  /** The watches of a target that fit the request. */
  function Fitting(m: Meaning, entries: set<Entry>, req: Request, t: Target): set<Matcher> {
    set e | e in entries && e.watched == req.gvk && e.target == t && Fits(m, e.matcher, req) :: e.matcher
  }

  // ----- the nested map -----

  type Watches = map<Target, seq<Matcher>>
  type Matchers = map<GVK, Watches>

  function MatchersOf(ws: Watches, t: Target): seq<Matcher> {
    if t in ws then ws[t] else []
  }

  function WatchesOf(ms: Matchers, g: GVK): Watches {
    if g in ms then ms[g] else map[]
  }

  function At(ms: Matchers, g: GVK, t: Target): seq<Matcher> {
    MatchersOf(WatchesOf(ms, g), t)
  }

  function Put(ms: Matchers, g: GVK, t: Target, os: seq<Matcher>): Matchers {
    ms[g := WatchesOf(ms, g)[t := os]]
  }

  lemma PutAt(ms: Matchers, g: GVK, t: Target, os: seq<Matcher>, g': GVK, t': Target)
    ensures At(Put(ms, g, t, os), g', t') == if g' == g && t' == t then os else At(ms, g', t')
  {}

  /** The map holds exactly these facts, each once. */
  ghost predicate Represents(ms: Matchers, entries: set<Entry>) {
    && (forall g, t :: NoDup(At(ms, g, t)))
    && (forall e: Entry :: e in entries <==> e.matcher in At(ms, e.watched, e.target))
  }

  lemma RepresentsPut(ms: Matchers, entries: set<Entry>, g: GVK, t: Target, o: Matcher)
    requires Represents(ms, entries) && o !in At(ms, g, t)
    ensures Represents(Put(ms, g, t, At(ms, g, t) + [o]), entries + {Entry(g, t, o)})
  {
    var os := At(ms, g, t) + [o];
    var ms' := Put(ms, g, t, os);
    NoDupAppend(At(ms, g, t), [o]);
    forall g', t' ensures NoDup(At(ms', g', t')) {
      PutAt(ms, g, t, os, g', t');
    }
    forall e: Entry ensures e in entries + {Entry(g, t, o)} <==> e.matcher in At(ms', e.watched, e.target) {
      PutAt(ms, g, t, os, e.watched, e.target);
    }
  }

  lemma RepresentsEmptyKind(ms: Matchers, entries: set<Entry>, g: GVK)
    requires Represents(ms, entries) && g !in ms
    ensures Represents(ms[g := map[]], entries)
  {
    var ms' := ms[g := map[]];
    forall g', t ensures NoDup(At(ms', g', t)) {
      assert At(ms', g', t) == At(ms, g', t);
    }
    forall e: Entry ensures e in entries <==> e.matcher in At(ms', e.watched, e.target) {
      assert At(ms', e.watched, e.target) == At(ms, e.watched, e.target);
    }
  }

  class Registry {
    const meaning: Meaning
    var matchers: Matchers
    /** The calls made to the backend: what was asked to run again, in order. */
    var triggered: seq<Target>
    ghost var entries: set<Entry>

    ghost predicate Valid()
      reads this
    {
      Represents(matchers, entries)
    }

    constructor (meaning: Meaning)
      ensures Valid() && entries == {} && triggered == [] && this.meaning == meaning
    {
      this.meaning, matchers, triggered, entries := meaning, map[], [], {};
    }

    /** Adds one fact; registering the same watch twice changes nothing. */
    method Register(gvk: GVK, key: string, targetGVK: GVK, mr: Matcher)
      requires Valid()
      modifies `matchers, `entries
      ensures Valid() && entries == old(entries) + {Entry(targetGVK, Target(key, gvk), mr)}
    {
      var target := Target(key, gvk);
      if targetGVK !in matchers {
        RepresentsEmptyKind(matchers, entries, targetGVK);
        matchers := matchers[targetGVK := map[]];
      }
      var existing := At(matchers, targetGVK, target);
      for i := 0 to |existing|
        invariant Valid() && entries == old(entries)
        invariant existing == At(matchers, targetGVK, target) && mr !in existing[..i]
      {
        if Equals(existing[i], mr) {
          EqualsIsEquality(existing[i], mr);
          assert existing[i] in existing;
          var e := Entry(targetGVK, target, mr);
          assert e in entries <==> e.matcher in At(matchers, e.watched, e.target);
          assert entries == entries + {Entry(targetGVK, target, mr)};
          return;
        }
        EqualsIsEquality(existing[i], mr);
        assert existing[..i + 1] == existing[..i] + [existing[i]];
      }
      assert existing[..|existing|] == existing;
      RepresentsPut(matchers, entries, targetGVK, target, mr);
      matchers := Put(matchers, targetGVK, target, existing + [mr]);
      entries := entries + {Entry(targetGVK, target, mr)};
    }

    /** Does some matcher of the list fit? */
    method AnyFits(os: seq<Matcher>, req: Request) returns (fits: bool)
      ensures fits <==> exists o :: o in os && Fits(meaning, o, req)
    {
      for i := 0 to |os|
        invariant forall o :: o in os[..i] ==> !Fits(meaning, o, req)
      {
        if Match(meaning, os[i], req.ns, req.name, req.obj) {
          assert os[i] in os;
          return true;
        }
        assert os[..i + 1] == os[..i] + [os[i]];
      }
      assert os[..|os|] == os;
      return false;
    }

    /** Runs again, once each, exactly the targets woken by the request. */
    method InvokeTriggers(req: Request)
      requires Valid()
      modifies `triggered
      ensures |triggered| >= |old(triggered)| && triggered[..|old(triggered)|] == old(triggered)
      ensures var fired := triggered[|old(triggered)|..];
              && NoDup(fired)
              && (forall t :: t in fired <==> Woken(meaning, entries, req, t))
              && (forall t :: t in fired <==> Enqueues(meaning, entries, req, t))
    {
      var ws := WatchesOf(matchers, req.gvk);
      var todo, fired := ws.Keys, [];
      while todo != {}
        invariant todo <= ws.Keys && triggered == old(triggered) + fired && NoDup(fired)
        invariant forall t :: t in fired <==> t in ws.Keys - todo && Woken(meaning, entries, req, t)
      {
        var target :| target in todo;
        todo := todo - {target};
        if target.gvk == req.gvk && target.key == req.key {
          continue;
        }
        var fits := AnyFits(ws[target], req);
        WakesByList(meaning, matchers, entries, req, target);
        if fits {
          NoDupAppend(fired, [target]);
          fired, triggered := fired + [target], triggered + [target];
        }
      }
      forall t | Woken(meaning, entries, req, t) ensures t in ws {
        var o :| Entry(req.gvk, t, o) in entries && Fits(meaning, o, req);
        assert o in At(matchers, req.gvk, t);
      }
      forall t ensures Woken(meaning, entries, req, t) <==> Enqueues(meaning, entries, req, t) {
        EnqueuesExactly(meaning, entries, req, t);
      }
    }

    method Trigger(req: Request)
      requires Valid()
      modifies `triggered
      ensures req.fromTrigger ==> triggered == old(triggered)
      ensures |triggered| >= |old(triggered)| && triggered[..|old(triggered)|] == old(triggered)
      ensures !req.fromTrigger ==>
                var fired := triggered[|old(triggered)|..];
                && NoDup(fired)
                && (forall t :: t in fired <==> Woken(meaning, entries, req, t))
                && (forall t :: t in fired <==> Enqueues(meaning, entries, req, t))
    {
      if !req.fromTrigger {
        InvokeTriggers(req);
      }
    }

    /**
     * For a deleted object: forgets all its watches and all watches on exactly it, and runs again every other target,
     * once for each of its watches that fit.
     */
    method UnregisterAndTrigger(req: Request)
      requires Valid()
      modifies this
      ensures Valid() && entries == Kept(old(entries), req)
      ensures forall e :: e in entries <==>
                && e in old(entries)
                && (e.target.key != req.key || e.target.gvk != req.gvk)
                && (e.watched != req.gvk || e.matcher.ns != req.ns || e.matcher.name != req.name)
      ensures |triggered| >= |old(triggered)| && triggered[..|old(triggered)|] == old(triggered)
      ensures var fired := triggered[|old(triggered)|..];
              forall t :: multiset(fired)[t] == if t.key == req.key && t.gvk == req.gvk then 0
                                                else |Calling(meaning, old(entries), req, t)|
    {
      var remaining: Matchers := map[];
      ghost var fired: seq<Target> := [];
      var kinds := matchers.Keys;
      while kinds != {}
        invariant Valid() && matchers == old(matchers) && entries == old(entries) && kinds <= matchers.Keys
        invariant triggered == old(triggered) + fired
        invariant forall g, t :: At(remaining, g, t) == if g in kinds then [] else Rest(req, matchers, g, t)
        invariant forall t :: multiset(fired)[t] == if req.gvk in kinds then 0 else Rings(meaning, req, matchers, req.gvk, t)
      {
        var g :| g in kinds;
        kinds := kinds - {g};
        ghost var before := remaining;
        ghost var more;
        remaining, more := UnregisterKind(req, g, remaining);
        fired := fired + more;
      }
      RepresentsRest(req, matchers, entries, remaining);
      forall t
        ensures multiset(fired)[t] == if t.key == req.key && t.gvk == req.gvk then 0
                                      else |Calling(meaning, old(entries), req, t)|
      {
        HitsAreFitting(meaning, req, matchers, entries, t);
        CallingIsFitting(meaning, entries, req, t);
      }
      matchers := remaining;
      entries := Kept(entries, req);
    }

    method UnregisterKind(req: Request, g: GVK, from: Matchers) returns (remaining: Matchers, ghost fired: seq<Target>)
      requires g in matchers && forall t :: At(from, g, t) == []
      modifies `triggered
      ensures triggered == old(triggered) + fired
      ensures HalfDone(req, matchers, g, from, {}, remaining)
      ensures RungAll(meaning, req, matchers, g, {}, fired)
    {
      remaining, fired := from, [];
      var ws := matchers[g];
      var todo := ws.Keys;
      NothingDone(meaning, req, matchers, g, from);
      while todo != {}
        invariant todo <= ws.Keys && triggered == old(triggered) + fired
        invariant HalfDone(req, matchers, g, from, todo, remaining)
        invariant RungAll(meaning, req, matchers, g, todo, fired)
      {
        var target :| target in todo;
        ghost var more, was, rung, before := [], remaining, fired, todo;
        todo := todo - {target};
        if target.gvk == req.gvk && target.key == req.key {
          SelfIsSkipped(meaning, req, matchers, g, from, before, target, remaining, fired);
          continue;
        }
        assert ws[target] == At(matchers, g, target);
        assert At(remaining, g, target) == Halfway(req, matchers, g, from, before, g, target) == [];
        remaining, more := UnregisterTarget(req, g, target, ws[target], remaining);
        fired := fired + more;
        OneMoreTarget(meaning, req, matchers, g, from, before, target, was, remaining, rung, more);
      }
    }

    method UnregisterTarget(req: Request, g: GVK, target: Target, os: seq<Matcher>, from: Matchers)
      returns (remaining: Matchers, ghost fired: seq<Target>)
      requires At(from, g, target) == []
      modifies `triggered
      ensures triggered == old(triggered) + fired
      ensures OneList(from, remaining, g, target, Survivors(req, g, os))
      ensures OnlyRings(fired, target, if g == req.gvk then Hits(meaning, req, os) else 0)
    {
      remaining, fired := from, [];
      for i := 0 to |os|
        invariant triggered == old(triggered) + fired
        invariant forall g', t :: At(remaining, g', t) ==
                    if g' == g && t == target then Survivors(req, g, os[..i]) else At(from, g', t)
        invariant forall t :: multiset(fired)[t] == if t == target && g == req.gvk then Hits(meaning, req, os[..i]) else 0
      {
        var mt := os[i];
        assert os[..i + 1][..i] == os[..i];
        if g != req.gvk || mt.ns != req.ns || mt.name != req.name {
          var was := remaining;
          remaining := Put(was, g, target, At(was, g, target) + [mt]);
          forall g', t
            ensures At(remaining, g', t) == if g' == g && t == target then At(was, g, target) + [mt] else At(was, g', t)
          {
            PutAt(was, g, target, At(was, g, target) + [mt], g', t);
          }
        }
        if g == req.gvk && Match(meaning, mt, req.ns, req.name, req.obj) {
          triggered, fired := triggered + [target], fired + [target];
        }
      }
      assert os[..|os|] == os;
    }
  }

  // ----- what unregistering does to one list of matchers -----

  function Survivors(req: Request, g: GVK, os: seq<Matcher>): seq<Matcher> {
    if os == [] then []
    else
      var o := os[|os| - 1];
      Survivors(req, g, os[..|os| - 1]) + if g != req.gvk || o.ns != req.ns || o.name != req.name then [o] else []
  }

  function Hits(m: Meaning, req: Request, os: seq<Matcher>): nat {
    if os == [] then 0
    else Hits(m, req, os[..|os| - 1]) + if Fits(m, os[|os| - 1], req) then 1 else 0
  }

  function Rest(req: Request, ms: Matchers, g: GVK, t: Target): seq<Matcher> {
    if t == req.Self() then [] else Survivors(req, g, At(ms, g, t))
  }

  function Rings(m: Meaning, req: Request, ms: Matchers, g: GVK, t: Target): nat {
    if t == req.Self() then 0 else Hits(m, req, At(ms, g, t))
  }

  /** One map is the other with this list put in. */
  ghost predicate OneList(from: Matchers, remaining: Matchers, g: GVK, target: Target, os: seq<Matcher>) {
    forall g', t :: At(remaining, g', t) == if g' == g && t == target then os else At(from, g', t)
  }

  /** Only this target is there, so many times. */
  ghost predicate OnlyRings(fired: seq<Target>, target: Target, times: nat) {
    forall t :: multiset(fired)[t] == if t == target then times else 0
  }

  ghost predicate HalfDone(req: Request, ms: Matchers, g: GVK, from: Matchers, todo: set<Target>, remaining: Matchers) {
    forall g', t :: At(remaining, g', t) == Halfway(req, ms, g, from, todo, g', t)
  }

  lemma HalfDoneStep(req: Request, ms: Matchers, g: GVK, from: Matchers, todo: set<Target>, target: Target,
                     was: Matchers, remaining: Matchers)
    requires target in todo && target != req.Self() && HalfDone(req, ms, g, from, todo, was)
    requires OneList(was, remaining, g, target, Survivors(req, g, At(ms, g, target)))
    ensures HalfDone(req, ms, g, from, todo - {target}, remaining)
  {
    forall g', t ensures At(remaining, g', t) == Halfway(req, ms, g, from, todo - {target}, g', t) {
      assert At(was, g', t) == Halfway(req, ms, g, from, todo, g', t);
    }
  }

  ghost predicate RungAll(m: Meaning, req: Request, ms: Matchers, g: GVK, todo: set<Target>, fired: seq<Target>) {
    forall t :: multiset(fired)[t] == RungSoFar(m, req, ms, g, todo, t)
  }

  lemma RungStep(m: Meaning, req: Request, ms: Matchers, g: GVK, todo: set<Target>, target: Target,
                 fired: seq<Target>, more: seq<Target>)
    requires target in todo && target != req.Self() && RungAll(m, req, ms, g, todo, fired)
    requires OnlyRings(more, target, if g == req.gvk then Hits(m, req, At(ms, g, target)) else 0)
    ensures RungAll(m, req, ms, g, todo - {target}, fired + more)
  {
    assert multiset(fired + more) == multiset(fired) + multiset(more);
    forall t ensures multiset(fired + more)[t] == RungSoFar(m, req, ms, g, todo - {target}, t) {
      assert multiset(fired)[t] == RungSoFar(m, req, ms, g, todo, t);
    }
  }

  lemma OneMoreTarget(m: Meaning, req: Request, ms: Matchers, g: GVK, from: Matchers, todo: set<Target>, target: Target,
                      was: Matchers, remaining: Matchers, fired: seq<Target>, more: seq<Target>)
    requires target in todo && target != req.Self()
    requires HalfDone(req, ms, g, from, todo, was) && RungAll(m, req, ms, g, todo, fired)
    requires OneList(was, remaining, g, target, Survivors(req, g, At(ms, g, target)))
    requires OnlyRings(more, target, if g == req.gvk then Hits(m, req, At(ms, g, target)) else 0)
    ensures HalfDone(req, ms, g, from, todo - {target}, remaining) && RungAll(m, req, ms, g, todo - {target}, fired + more)
  {
    HalfDoneStep(req, ms, g, from, todo, target, was, remaining);
    RungStep(m, req, ms, g, todo, target, fired, more);
  }

  lemma NothingDone(m: Meaning, req: Request, ms: Matchers, g: GVK, from: Matchers)
    requires g in ms && forall t :: At(from, g, t) == []
    ensures HalfDone(req, ms, g, from, ms[g].Keys, from) && RungAll(m, req, ms, g, ms[g].Keys, [])
  {
    forall t | t !in ms[g] ensures Rest(req, ms, g, t) == [] && Rings(m, req, ms, g, t) == 0 {
      assert At(ms, g, t) == [];
    }
  }

  lemma SelfIsSkipped(m: Meaning, req: Request, ms: Matchers, g: GVK, from: Matchers, todo: set<Target>, target: Target,
                      remaining: Matchers, fired: seq<Target>)
    requires target == req.Self() && HalfDone(req, ms, g, from, todo, remaining) && RungAll(m, req, ms, g, todo, fired)
    ensures HalfDone(req, ms, g, from, todo - {target}, remaining) && RungAll(m, req, ms, g, todo - {target}, fired)
  {
    forall g', t ensures At(remaining, g', t) == Halfway(req, ms, g, from, todo - {target}, g', t) {
      assert At(remaining, g', t) == Halfway(req, ms, g, from, todo, g', t);
    }
    forall t ensures multiset(fired)[t] == RungSoFar(m, req, ms, g, todo - {target}, t) {
      assert multiset(fired)[t] == RungSoFar(m, req, ms, g, todo, t);
    }
  }

  /** The lists of the rebuilt map while the targets in `todo` still have to be looked at. */
  function Halfway(req: Request, ms: Matchers, g: GVK, from: Matchers, todo: set<Target>, g': GVK, t: Target): seq<Matcher> {
    if g' != g then At(from, g', t) else if t in todo then [] else Rest(req, ms, g, t)
  }

  function RungSoFar(m: Meaning, req: Request, ms: Matchers, g: GVK, todo: set<Target>, t: Target): nat {
    if t in todo || g != req.gvk then 0 else Rings(m, req, ms, g, t)
  }

  lemma {:induction false} SurvivorsAre(req: Request, g: GVK, os: seq<Matcher>)
    requires NoDup(os)
    ensures NoDup(Survivors(req, g, os))
    ensures forall o :: o in Survivors(req, g, os) <==> o in os && (g != req.gvk || o.ns != req.ns || o.name != req.name)
  {
    if os != [] {
      NoDupInit(os);
      SurvivorsAre(req, g, os[..|os| - 1]);
    }
  }

  lemma {:induction false} HitsAre(m: Meaning, req: Request, os: seq<Matcher>)
    requires NoDup(os)
    ensures Hits(m, req, os) == |set o | o in os && Fits(m, o, req)|
  {
    if os == [] {
      assert (set o | o in os && Fits(m, o, req)) == {};
    } else {
      var init, last := os[..|os| - 1], os[|os| - 1];
      NoDupInit(os);
      HitsAre(m, req, init);
      var some := set o | o in init && Fits(m, o, req);
      assert (set o | o in os && Fits(m, o, req)) == some + if Fits(m, last, req) then {last} else {};
    }
  }

  lemma RepresentsRest(req: Request, ms: Matchers, entries: set<Entry>, remaining: Matchers)
    requires Represents(ms, entries) && forall g, t :: At(remaining, g, t) == Rest(req, ms, g, t)
    ensures Represents(remaining, Kept(entries, req))
  {
    forall g, t ensures NoDup(At(remaining, g, t)) {
      SurvivorsAre(req, g, At(ms, g, t));
    }
    forall e: Entry ensures e in Kept(entries, req) <==> e.matcher in At(remaining, e.watched, e.target) {
      assert At(remaining, e.watched, e.target) == Rest(req, ms, e.watched, e.target);
      SurvivorsAre(req, e.watched, At(ms, e.watched, e.target));
    }
  }

  lemma HitsAreFitting(m: Meaning, req: Request, ms: Matchers, entries: set<Entry>, t: Target)
    requires Represents(ms, entries)
    ensures Hits(m, req, At(ms, req.gvk, t)) == |Fitting(m, entries, req, t)|
  {
    var os := At(ms, req.gvk, t);
    HitsAre(m, req, os);
    var fits := set o | o in os && Fits(m, o, req);
    forall o ensures o in fits <==> o in Fitting(m, entries, req, t) {
      var e := Entry(req.gvk, t, o);
      assert e in entries <==> e.matcher in At(ms, e.watched, e.target);
    }
    assert fits == Fitting(m, entries, req, t);
  }

  lemma WakesByList(m: Meaning, ms: Matchers, entries: set<Entry>, req: Request, t: Target)
    requires Represents(ms, entries)
    ensures Wakes(m, entries, req, t) <==> exists o :: o in At(ms, req.gvk, t) && Fits(m, o, req)
  {
    forall o: Matcher ensures Entry(req.gvk, t, o) in entries <==> o in At(ms, req.gvk, t) {
      var e := Entry(req.gvk, t, o);
      assert e in entries <==> e.matcher in At(ms, e.watched, e.target);
    }
  }
}
