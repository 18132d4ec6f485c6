/**
 * The API server, as the environment of the engine: one object per slot, calls that may fail, and a log of
 * every change made. Which calls fail is an arbitrary function of the call number.
 */
module Server {
  import opened Kube

  datatype Slot = Slot(gk: GK, key: Key)

  datatype Event =
    | Created(slot: Slot, after: Obj)
    | Patched(slot: Slot, before: Obj, after: Obj)
    | Deleted(slot: Slot, before: Obj)

  datatype World = World(objs: map<Slot, Obj>, calls: nat, log: seq<Event>) {
    function At(s: Slot): Option<Obj> {
      if s in objs then Some(objs[s]) else None
    }

    function Tick(): World {
      this.(calls := calls + 1)
    }
  }

  type Faults = nat -> bool

  datatype Status = Ok | AlreadyExists | NotFound | Failed

  datatype GetResult = Found(obj: Obj) | Missing | GetFailed

  /** The server ignores a deletion timestamp on a new object. */
  function Fresh(o: Obj): Obj {
    o.(deleting := false)
  }

  function Create(f: Faults, w: World, s: Slot, o: Obj): (World, Status) {
    if f(w.calls) then (w.Tick(), Failed)
    else if s in w.objs then (w.Tick(), AlreadyExists)
    else (World(w.objs[s := Fresh(o)], w.calls + 1, w.log + [Created(s, Fresh(o))]), Ok)
  }

  function Get(f: Faults, w: World, s: Slot): (World, GetResult) {
    (w.Tick(), if f(w.calls) then GetFailed else if s in w.objs then Found(w.objs[s]) else Missing)
  }

  function Patch(f: Faults, w: World, s: Slot, after: Obj): (World, Status) {
    if f(w.calls) then (w.Tick(), Failed)
    else if s !in w.objs then (w.Tick(), NotFound)
    else (World(w.objs[s := after], w.calls + 1, w.log + [Patched(s, w.objs[s], after)]), Ok)
  }

  /** An object with finalizers lingers with a deletion timestamp; one without is gone at once. */
  function AfterDelete(o: Obj): Option<Obj> {
    if o.finalizers == [] then None else Some(o.(deleting := true))
  }

  function Delete(f: Faults, w: World, s: Slot): (World, Status) {
    if f(w.calls) then (w.Tick(), Failed)
    else if s !in w.objs then (w.Tick(), NotFound)
    else
      var left := AfterDelete(w.objs[s]);
      (World(if left.None? then w.objs - {s} else w.objs[s := left.value],
             w.calls + 1, w.log + [Deleted(s, w.objs[s])]), Ok)
  }

  /** What a change makes of the contents. */
  function Redo(objs: map<Slot, Obj>, e: Event): map<Slot, Obj> {
    match e
    case Created(s, after) => objs[s := after]
    case Patched(s, _, after) => objs[s := after]
    case Deleted(s, before) =>
      var left := AfterDelete(before);
      if left.None? then objs - {s} else objs[s := left.value]
  }

  /** A change is recorded truthfully: what it says was there, was there. */
  predicate Truthful(objs: map<Slot, Obj>, e: Event) {
    match e
    case Created(s, _) => s !in objs
    case Patched(s, before, _) => s in objs && objs[s] == before
    case Deleted(s, before) => s in objs && objs[s] == before
  }

  /** `after` is reached from `before` by making exactly the recorded changes, each recorded truthfully. */
  predicate Explains(before: map<Slot, Obj>, log: seq<Event>, after: map<Slot, Obj>)
    decreases |log|
  {
    if log == [] then before == after
    else Truthful(before, log[0]) && Explains(Redo(before, log[0]), log[1..], after)
  }

  lemma {:induction false} ExplainsAppend(a: map<Slot, Obj>, l1: seq<Event>, b: map<Slot, Obj>, l2: seq<Event>, c: map<Slot, Obj>)
    requires Explains(a, l1, b) && Explains(b, l2, c)
    ensures Explains(a, l1 + l2, c)
    decreases |l1|
  {
    if l1 == [] {
      assert l1 + l2 == l2;
    } else {
      ExplainsAppend(Redo(a, l1[0]), l1[1..], b, l2, c);
      assert (l1 + l2)[1..] == l1[1..] + l2;
    }
  }

  /** One world grew out of another: the log was only extended, and it explains every difference. */
  predicate Grew(w: World, w': World) {
    |w.log| <= |w'.log| && w'.log[..|w.log|] == w.log && Explains(w.objs, w'.log[|w.log|..], w'.objs)
  }

  lemma GrewTransitive(a: World, b: World, c: World)
    requires Grew(a, b) && Grew(b, c)
    ensures Grew(a, c)
  {
    ExplainsAppend(a.objs, b.log[|a.log|..], b.objs, c.log[|b.log|..], c.objs);
    assert c.log[|a.log|..] == b.log[|a.log|..] + c.log[|b.log|..];
    assert c.log[..|a.log|] == c.log[..|b.log|][..|a.log|];
  }

  lemma GrewByOne(w: World, w': World, e: Event)
    requires w'.log == w.log + [e] && Truthful(w.objs, e) && w'.objs == Redo(w.objs, e)
    ensures Grew(w, w')
  {
    assert w'.log[|w.log|..] == [e];
    assert Explains(w'.objs, [e][1..], w'.objs);
  }

  lemma GrewByNone(w: World, w': World)
    requires w'.log == w.log && w'.objs == w.objs
    ensures Grew(w, w')
  {
    assert w'.log[|w.log|..] == [];
  }

  /** An object no recorded change touched in that state is still there, unchanged. */
  lemma {:induction false} UntouchedStays(before: map<Slot, Obj>, log: seq<Event>, after: map<Slot, Obj>, s: Slot)
    requires Explains(before, log, after) && s in before
    requires forall e :: e in log && !e.Created? && e.slot == s ==> e.before != before[s]
    ensures s in after && after[s] == before[s]
    decreases |log|
  {
    if log != [] {
      assert log[0] in log;
      assert forall e :: e in log[1..] ==> e in log;
      UntouchedStays(Redo(before, log[0]), log[1..], after, s);
    }
  }
}
