/**
 * Finalizer handlers (pkg/router/finalizer.go) and the chain they run in (pkg/router/handlers.go), on a server with
 * optimistic locking. Handlers may be given any state the object ever had, and others may change it before every call.
 */
module Finalizers {
  import opened Kube

  datatype State = State(finalizers: seq<string>, deleting: bool, status: string) {
    predicate Gone() {
      deleting && finalizers == []
    }
  }

  /** What others do: change the object, delete it, or be finalizer handlers themselves. */
  datatype Change = Touch(status: string) | MarkDeleted | Takes(id: string) | Adds(id: string)

  function Apply(s: State, c: Change): State {
    if s.Gone() then s
    else
      match c
      case Touch(status) => s.(status := status)
      case MarkDeleted => s.(deleting := true)
      case Takes(id) =>
        if s.deleting && s.finalizers != [] && s.finalizers[0] == id then s.(finalizers := s.finalizers[1..]) else s
      case Adds(id) =>
        if !s.deleting && id !in s.finalizers then s.(finalizers := s.finalizers + [id]) else s
  }

  /** A copy of the object as of version `rv`; its status may have been edited. */
  datatype Copy = Copy(rv: nat, state: State)

  predicate Real(c: Copy, history: seq<State>) {
    && c.rv < |history|
    && c.state.finalizers == history[c.rv].finalizers && c.state.deleting == history[c.rv].deleting
  }

  // ----- what every change to the list keeps -----

  predicate Appends(a: seq<string>, b: seq<string>) {
    |b| == |a| + 1 && b[..|a|] == a && b[|a|] !in a
  }

  /** Before deletion the list grows by new names at its end; afterwards it shrinks from its head. */
  predicate LawfulStep(a: State, b: State) {
    if a.deleting then
      b.deleting && (b.finalizers == a.finalizers || (a.finalizers != [] && b.finalizers == a.finalizers[1..]))
    else b.finalizers == a.finalizers
         || (!b.deleting && Appends(a.finalizers, b.finalizers))
  }

  ghost predicate Lawful(history: seq<State>) {
    && (forall i :: 0 <= i < |history| ==> NoDup(history[i].finalizers))
    && (forall i :: 0 < i < |history| ==> LawfulStep(history[i - 1], history[i]))
  }

  lemma NoDupKept(a: State, b: State)
    requires NoDup(a.finalizers) && LawfulStep(a, b)
    ensures NoDup(b.finalizers)
  {
    if !a.deleting && b.finalizers != a.finalizers {
      var id := b.finalizers[|a.finalizers|];
      NoDupAppend(a.finalizers, [id]);
      assert b.finalizers == a.finalizers + [id];
    }
  }

  lemma OneMoreState(history: seq<State>, s: State)
    requires Lawful(history) && history != [] && LawfulStep(history[|history| - 1], s)
    ensures Lawful(history + [s])
  {
    NoDupKept(history[|history| - 1], s);
  }

  /** After deletion the list is always a suffix of what it was then. */
  lemma {:induction false} SuffixAfterDeletion(history: seq<State>, i: nat, j: nat) returns (taken: nat)
    requires Lawful(history) && i <= j < |history| && history[i].deleting
    ensures history[j].deleting
    ensures taken <= |history[i].finalizers| && history[j].finalizers == history[i].finalizers[taken..]
    decreases j - i
  {
    if i == j {
      taken := 0;
    } else {
      taken := SuffixAfterDeletion(history, i, j - 1);
      assert LawfulStep(history[j - 1], history[j]);
      if history[j].finalizers != history[j - 1].finalizers {
        taken := taken + 1;
      }
    }
  }

  /** Two states after deletion with the same finalizer at the head have the same list. */
  lemma SameHeadSameList(history: seq<State>, i: nat, j: nat)
    requires Lawful(history) && i <= j < |history| && history[i].deleting
    requires history[i].finalizers != [] && history[j].finalizers != []
    requires history[i].finalizers[0] == history[j].finalizers[0]
    ensures history[i].finalizers == history[j].finalizers
  {
    var taken := SuffixAfterDeletion(history, i, j);
    assert history[j].finalizers[0] == history[i].finalizers[taken];
  }

  /**
   * What a handler writes is the rest of the list it was given, to a version of the object that may be newer. It is the
   * rest of that version's list as well, for every two moments at which its finalizer is at the head, exactly if the list
   * at deletion has no name twice.
   */
  lemma RestIsRightExactly(list: seq<string>)
    ensures NoDup(list) <==>
            forall i, j :: 0 <= i <= j < |list| && list[i..][0] == list[j..][0] ==> list[i..][1..] == list[j..][1..]
  {
    forall i, j | 0 <= i < j < |list| && list[i] == list[j] ensures list[i..][1..] != list[j..][1..] {
      assert |list[i..][1..]| > |list[j..][1..]|;
    }
    if !NoDup(list) {
      var i, j :| 0 <= i < j < |list| && list[i] == list[j];
      assert list[i..][0] == list[j..][0];
    }
  }

  // ----- the server -----

  /** What finalizer handlers wrote, with the version it made. */
  datatype Entry = Added(id: string, rv: nat) | Removed(id: string, rv: nat)

  predicate Truthful(e: Entry, history: seq<State>) {
    0 < e.rv < |history| &&
    var (before, after) := (history[e.rv - 1], history[e.rv]);
    if e.Added? then !before.deleting && e.id !in before.finalizers && after.finalizers == before.finalizers + [e.id]
    else before.deleting && before.finalizers == [e.id] + after.finalizers
  }

  /** A finalizer in the list stays there until deletion, so it is not added again. */
  lemma {:induction false} AddedOnce(history: seq<State>, e: Entry, f: Entry)
    requires Lawful(history) && Truthful(e, history) && Truthful(f, history)
    requires e.Added? && f.Added? && e.id == f.id && e.rv <= f.rv
    ensures e.rv == f.rv
  {
    assert history[e.rv].finalizers[|history[e.rv - 1].finalizers|] == e.id;
    if e.rv < f.rv {
      StaysUntilDeletion(history, e.id, e.rv, f.rv - 1);
    }
  }

  lemma {:induction false} StaysUntilDeletion(history: seq<State>, id: string, i: nat, j: nat)
    requires Lawful(history) && i <= j < |history| && !history[j].deleting
    ensures !history[i].deleting
    ensures id in history[i].finalizers ==> id in history[j].finalizers
    decreases j - i
  {
    if i < j {
      assert LawfulStep(history[j - 1], history[j]);
      StaysUntilDeletion(history, id, i, j - 1);
    }
  }

  /** The states the object goes through when these changes are made. */
  function Played(s: State, changes: seq<Change>): (states: seq<State>)
    ensures |states| == |changes|
    decreases |changes|
  {
    if changes == [] then []
    else
      var next := Apply(s, changes[0]);
      [next] + Played(next, changes[1..])
  }

  lemma PlayedStep(s: State, changes: seq<Change>, i: nat)
    requires i < |changes|
    ensures Played(s, changes[i..]) == [Apply(s, changes[i])] + Played(Apply(s, changes[i]), changes[i + 1..])
  {
    assert changes[i..][0] == changes[i] && changes[i..][1..] == changes[i + 1..];
  }

  class Server {
    const others: nat -> seq<Change>
    var turn: nat
    var history: seq<State>
    var log: seq<Entry>

    /** What is promised is promised of an object that had no name twice in its list to begin with. */
    ghost predicate Valid()
      reads this
    {
      history != [] &&
      (NoDup(history[0].finalizers) ==> Lawful(history) && forall e :: e in log ==> Truthful(e, history))
    }

    constructor (others: nat -> seq<Change>, first: State)
      ensures Valid() && history == [first] && log == [] && turn == 0 && this.others == others
    {
      this.others, turn, history, log := others, 0, [first], [];
    }

    function Latest(): State
      requires history != []
      reads this
    {
      history[|history| - 1]
    }

    /** The history once others have had their next turn. */
    ghost function Next(): (h: seq<State>)
      requires history != []
      reads this
      ensures history <= h
    {
      history + Played(Latest(), others(turn))
    }

    /** Others get a turn. */
    method Others()
      requires Valid()
      modifies this
      ensures Valid() && history == old(Next()) && turn == old(turn) + 1 && log == old(log)
    {
      var changes := others(turn);
      turn := turn + 1;
      ghost var h := old(Next());
      for i := 0 to |changes|
        invariant Valid() && log == old(log) && turn == old(turn) + 1 && old(history) <= history
        invariant h == history + Played(Latest(), changes[i..])
      {
        PlayedStep(Latest(), changes, i);
        Append(Apply(Latest(), changes[i]));
      }
    }

    method Append(s: State)
      requires Valid() && (NoDup(history[0].finalizers) ==> LawfulStep(Latest(), s))
      modifies `history
      ensures Valid() && history == old(history) + [s]
    {
      if NoDup(history[0].finalizers) {
        OneMoreState(history, s);
      }
      history := history + [s];
    }

    predicate Rightful(c: Copy, finalizers: seq<string>, entry: Entry) {
      if entry.Added? then
        !c.state.deleting && entry.id !in c.state.finalizers && finalizers == c.state.finalizers + [entry.id]
      else c.state.deleting && c.state.finalizers == [entry.id] + finalizers
    }

    /** The server takes a write to this version, after the next turn of others. */
    ghost predicate Takes(rv: nat)
      requires history != []
      reads this
    {
      rv == |Next()| - 1 && !Next()[rv].Gone()
    }

    /** Writes the list of a copy; refused when the copy is not of the latest version, or the object is gone. */
    method Update(c: Copy, finalizers: seq<string>, entry: Entry) returns (written: Option<Copy>)
      requires Valid() && Real(c, history)
      requires NoDup(history[0].finalizers) && c.rv == |history| - 1 ==> Rightful(c, finalizers, entry)
      modifies this
      ensures Valid() && old(Next()) <= history
      ensures written.Some? <==> old(Takes(c.rv))
      ensures written.None? ==> log == old(log) && history == old(Next())
      ensures written.Some? ==>
                && history == old(Next()) + [old(Next())[c.rv].(finalizers := finalizers)]
                && written.value == Copy(c.rv + 1, Latest())
                && log == old(log) + [if entry.Added? then Added(entry.id, c.rv + 1) else Removed(entry.id, c.rv + 1)]
    {
      Others();
      if c.rv != |history| - 1 || Latest().Gone() {
        return None;
      }
      var next := Latest().(finalizers := finalizers);
      Append(next);
      log := log + [if entry.Added? then Added(entry.id, c.rv + 1) else Removed(entry.id, c.rv + 1)];
      return Some(Copy(c.rv + 1, next));
    }

    method UpdateStatus(c: Copy) returns (written: Option<Copy>)
      requires Valid() && Real(c, history)
      modifies this
      ensures Valid() && old(history) <= history && log == old(log)
      ensures written.Some? <==> old(Takes(c.rv))
      ensures old(Next()) <= history
      ensures written.Some? ==>
                && history == old(Next()) + [old(Next())[c.rv].(status := c.state.status)]
                && Real(written.value, history) && written.value.rv == |history| - 1 == c.rv + 1
                && written.value.state.finalizers == c.state.finalizers
    {
      Others();
      if c.rv != |history| - 1 || Latest().Gone() {
        return None;
      }
      var next := Latest().(status := c.state.status);
      Append(next);
      return Some(Copy(c.rv + 1, next));
    }
  }

  // ----- the handlers -----

  /** What tells objects apart. An object need not carry its kind; then it is not known for what it is. */
  datatype Ident = Ident(gvk: GVK, ns: string, name: string)

  datatype Object = Object(ident: Ident, copy: Copy)

  /** The test the handlers make. */
  predicate IsObjectForRequest(req: Ident, o: Ident): (same: bool)
    ensures same <==> o == req
  {
    o.name == req.name && o.ns == req.ns && o.gvk == req.gvk
  }

  datatype Returned = Returned(ident: Ident, rv: nat, status: string)

  /**
   * What a handler does: the status it leaves on the object it was given, the delays after which it asks to be run again,
   * the objects it hands back, and whether it fails or forbids pruning. A wrapped handler leaves finalizers alone.
   */
  datatype Reply = Reply(failed: bool, asks: seq<int>, noPrune: bool, status: string, objs: seq<Returned>)

  /** What a handler adds to the response. */
  datatype Addition = Addition(asks: seq<int>, noPrune: bool, objs: seq<Object>)

  const Nothing := Addition([], false, [])

  /** A wrapped handler's last request for a retry is the one that counts. */
  function LastAsk(asks: seq<int>): int {
    if asks == [] then 0 else asks[|asks| - 1]
  }

  /** A version of the object that does not exist yet is the latest one; of other objects nothing is known. */
  function Resolve(req: Ident, history: seq<State>, r: Returned): (o: Object)
    requires history != []
    ensures o.ident == r.ident && (o.ident == req ==> Real(o.copy, history))
  {
    if r.ident == req then
      var at := if r.rv < |history| then r.rv else |history| - 1;
      Object(r.ident, Copy(at, history[at].(status := r.status)))
    else Object(r.ident, Copy(r.rv, State([], false, r.status)))
  }

  function ResolveAll(req: Ident, history: seq<State>, returned: seq<Returned>): (objs: seq<Object>)
    requires history != []
    ensures |objs| == |returned| && AllReal(req, objs, history)
  {
    if returned == [] then []
    else
      var n := |returned| - 1;
      ResolveAll(req, history, returned[..n]) + [Resolve(req, history, returned[n])]
  }

  /** Every object that is taken for the object of the request is some version of it. */
  ghost predicate AllReal(req: Ident, objs: seq<Object>, history: seq<State>) {
    forall o :: o in objs && o.ident == req ==> Real(o.copy, history)
  }

  /** The object with the status a handler left on it. */
  function Edited(o: Object, status: string): Object {
    o.(copy := o.copy.(state := o.copy.state.(status := status)))
  }

  /** The object of the request among those handed back: the last one, or else the one there was. */
  function LastOwn(req: Ident, obj: Option<Object>, objs: seq<Object>): (left: Option<Object>)
    ensures obj.Some? ==> left.Some?
  {
    if objs == [] then obj
    else
      var n := |objs| - 1;
      if objs[n].ident == req then Some(objs[n]) else LastOwn(req, obj, objs[..n])
  }

  /** All other objects, in order. */
  function Others(req: Ident, objs: seq<Object>): (kept: seq<Object>)
    ensures forall o :: o in kept <==> o in objs && o.ident != req
  {
    if objs == [] then []
    else
      var n := |objs| - 1;
      Others(req, objs[..n]) + if objs[n].ident == req then [] else [objs[n]]
  }

  /** Of several objects of the request the last one handed back is left, and the one there was if there is none. */
  lemma {:induction false} LastOwnExactly(req: Ident, obj: Option<Object>, objs: seq<Object>, i: int)
    requires -1 <= i < |objs| && (i >= 0 ==> objs[i].ident == req) && forall j :: i < j < |objs| ==> objs[j].ident != req
    ensures LastOwn(req, obj, objs) == if i >= 0 then Some(objs[i]) else obj
  {
    var n := |objs| - 1;
    if i < n {
      assert objs[n].ident != req;
      LastOwnExactly(req, obj, objs[..n], i);
    }
  }

  lemma {:induction false} LastOwnIsReal(req: Ident, obj: Option<Object>, objs: seq<Object>, history: seq<State>)
    requires AllReal(req, objs, history) && (obj.Some? ==> Real(obj.value.copy, history))
    ensures LastOwn(req, obj, objs).Some? ==> Real(LastOwn(req, obj, objs).value.copy, history)
  {
    if objs != [] {
      assert objs[|objs| - 1] in objs;
      LastOwnIsReal(req, obj, objs[..|objs| - 1], history);
    }
  }

  /** The version of the object a finalizer handler goes on with once the wrapped handler has replied. */
  function GoesOnWith(req: Ident, history: seq<State>, obj: Object, reply: Reply): Object
    requires history != []
  {
    LastOwn(req, Some(Edited(obj, reply.status)), ResolveAll(req, history, reply.objs)).value
  }

  class FinalizerHandler {
    const id: string

    constructor (id: string)
      ensures this.id == id
    {
      this.id := id;
    }

    /** The object handed in is to be finalized by this handler. */
    predicate AtHead(c: Copy) {
      c.state.deleting && c.state.finalizers != [] && c.state.finalizers[0] == id
    }

    /**
     * Before deletion the finalizer is added, if the copy lacks it. Afterwards, once it is at the head, the wrapped
     * handler runs, and the finalizer is removed only if that succeeded and asked for no retry, in this very call.
     */
    method Handle(server: Server, req: Ident, obj: Option<Object>, reply: Reply) returns (failed: bool, added: Addition)
      requires server.Valid() && (obj.Some? ==> Real(obj.value.copy, server.history))
      modifies server
      ensures server.Valid() && old(server.history) <= server.history
      ensures AllReal(req, added.objs, server.history)
      ensures server.log == old(server.log) || Wrote(server.history, server.log, old(server.log), obj, reply, added, failed)
      // a removal needs a wrapped handler that succeeded, and whose last request for a retry, if any, was for none
      ensures obj.Some? && obj.value.copy.state.deleting && server.log != old(server.log) ==>
                !reply.failed && (reply.asks == [] || reply.asks[|reply.asks| - 1] == 0)
      // nothing to do
      ensures obj.None? ==> !failed && added == Nothing && server.history == old(server.history)
      ensures obj.Some? && !AtHead(obj.value.copy) && (obj.value.copy.state.deleting || id in obj.value.copy.state.finalizers)
              ==> !failed && added == Nothing && server.history == old(server.history)
      ensures obj.Some? && !AtHead(obj.value.copy) ==> added.asks == [] && !added.noPrune
      // an addition, exactly if the server takes it
      ensures obj.Some? && !obj.value.copy.state.deleting && id !in obj.value.copy.state.finalizers ==>
                && failed == !old(server.Takes(obj.value.copy.rv))
                && (failed ==> added == Nothing && server.log == old(server.log))
                && (!failed ==> server.log == old(server.log) + [Added(id, obj.value.copy.rv + 1)])
      // a finalization
      ensures obj.Some? && AtHead(obj.value.copy) ==>
                Finalized(reply, failed, added) && Removes(server.history, server.log, old(server.log), reply, failed, added)
    {
      if obj.None? {
        return false, Nothing;
      }
      var o := obj.value.copy;
      if !o.state.deleting {
        if id !in o.state.finalizers {
          var written := server.Update(o, o.state.finalizers + [id], Added(id, 0));
          if written.None? {
            return true, Nothing;
          }
          added := Nothing.(objs := [Object(obj.value.ident, written.value)]);
          assert server.log[|server.log| - 1] == Added(id, o.rv + 1);
          return false, added;
        }
        return false, Nothing;
      }
      if |o.state.finalizers| == 0 || o.state.finalizers[0] != id {
        return false, Nothing;
      }
      failed, added := Finalize(server, req, obj.value, reply);
    }

    /**
     * The writes of one call: at most one, an addition before deletion or a removal after it. It writes the list that was
     * handed in, with the finalizer at its end or without its head, and hands on the version it made.
     */
    ghost predicate Wrote(history: seq<State>, log: seq<Entry>, before: seq<Entry>, obj: Option<Object>, reply: Reply,
                          added: Addition, failed: bool)
    {
      && obj.Some? && !failed && |log| == |before| + 1 && log[..|before|] == before
      && var e, given := log[|before|], obj.value.copy.state;
      && e.id == id && e.rv < |history|
      && added.objs != [] && added.objs[|added.objs| - 1].copy == Copy(e.rv, history[e.rv])
      && if given.deleting then
           && e.Removed? && !reply.failed && LastAsk(reply.asks) == 0
           && given.finalizers != [] && history[e.rv].finalizers == given.finalizers[1..]
         else e.Added? && id !in given.finalizers && history[e.rv].finalizers == given.finalizers + [id]
    }

    /** What a finalization passes on of the wrapped handler's reply. */
    ghost predicate Finalized(reply: Reply, failed: bool, added: Addition) {
      if reply.failed then failed && added == Nothing
      else
        && added.asks == (if LastAsk(reply.asks) == 0 then [] else [LastAsk(reply.asks)])
        && added.noPrune == reply.noPrune
        && |reply.objs| <= |added.objs| <= |reply.objs| + 1
        && forall i :: 0 <= i < |reply.objs| ==> added.objs[i].ident == reply.objs[i].ident
    }

    /** It removes the finalizer if it may and the version it goes on with still has it at the head, or else it fails. */
    ghost predicate Removes(history: seq<State>, log: seq<Entry>, before: seq<Entry>, reply: Reply, failed: bool,
                            added: Addition)
    {
      && (|added.objs| > |reply.objs| <==> log != before)
      && (LastAsk(reply.asks) != 0 || reply.failed ==> log == before)
    }

    /** Writes the rest of the list the handler was given to the version it goes on with. */
    method Remove(server: Server, o: Copy, newObj: Copy) returns (written: Option<Copy>)
      requires server.Valid() && Real(o, server.history) && Real(newObj, server.history)
      requires AtHead(o) && newObj.state.finalizers != [] && newObj.state.finalizers[0] == id
      modifies server
      ensures server.Valid() && old(server.Next()) <= server.history
      ensures written.Some? <==> old(server.Takes(newObj.rv))
      ensures written.None? ==> server.log == old(server.log)
      ensures written.Some? ==>
                && server.history == old(server.Next()) + [written.value.state] && written.value.rv == newObj.rv + 1
                && written.value.state.finalizers == o.state.finalizers[1..]
                && server.log == old(server.log) + [Removed(id, written.value.rv)]
    {
      if NoDup(server.history[0].finalizers) {
        SameListAsGiven(server.history, o, newObj);
      }
      written := server.Update(newObj, o.state.finalizers[1..], Removed(id, 0));
    }

    /** After the wrapped handler: saves the status it left, and takes the finalizer off. `objs` is what it handed back. */
    method Finish(server: Server, obj: Object, newObj: Object, objs: seq<Object>, reply: Reply)
      returns (failed: bool, made: Option<Copy>)
      requires server.Valid() && Real(obj.copy, server.history) && AtHead(obj.copy) && Real(newObj.copy, server.history)
      modifies server
      ensures server.Valid() && old(server.history) <= server.history
      ensures made.None? ==> server.log == old(server.log)
      ensures made.Some? ==>
                && !failed && LastAsk(reply.asks) == 0
                && 0 < made.value.rv < |server.history| && made.value.state == server.history[made.value.rv]
                && made.value.state.finalizers == obj.copy.state.finalizers[1..]
                && server.log == old(server.log) + [Removed(id, made.value.rv)]
      // the status the wrapped handler left is saved first, if it is another one
      ensures newObj.copy.state.status != obj.copy.state.status ==>
                Saves(old(server.Next()), old(server.Takes(newObj.copy.rv)), server.history, newObj.copy, failed, made.Some?)
      // undisturbed, it does take it off
      ensures LastAsk(reply.asks) == 0 && newObj.copy.state.status == obj.copy.state.status
              && newObj.copy.state.finalizers != [] && newObj.copy.state.finalizers[0] == id
              && old(server.Takes(newObj.copy.rv)) ==>
                && made.Some? && server.history == old(server.Next()) + [made.value.state]
    {
      var current := newObj.copy;
      if obj.copy.state.status != current.state.status {
        var written := server.UpdateStatus(current);
        if written.None? {
          return true, None;
        }
        current := written.value;
      }
      if LastAsk(reply.asks) == 0 && |current.state.finalizers| > 0 && current.state.finalizers[0] == id {
        var written := Remove(server, obj.copy, current);
        return written.None?, written;
      }
      return false, None;
    }

    /** The next version has the status of this copy, if the server takes it; if not the handler fails, and writes nothing. */
    ghost predicate Saves(before: seq<State>, taken: bool, history: seq<State>, newer: Copy, failed: bool, wrote: bool) {
      if taken then
        && newer.rv < |before| < |history| && before <= history
        && history[|before|] == before[newer.rv].(status := newer.state.status)
      else failed && !wrote
    }

    /** What is passed on of the wrapped handler's reply, with the version that was made at the end. */
    method Conclude(server: Server, req: Ident, obj: Object, newObj: Object, objs: seq<Object>, reply: Reply)
      returns (failed: bool, added: Addition)
      requires server.Valid() && Real(obj.copy, server.history) && AtHead(obj.copy) && Real(newObj.copy, server.history)
      requires AllReal(req, objs, server.history) && !reply.failed && |objs| == |reply.objs|
      requires forall i :: 0 <= i < |objs| ==> objs[i].ident == reply.objs[i].ident
      modifies server
      ensures server.Valid() && old(server.history) <= server.history
      ensures AllReal(req, added.objs, server.history)
      ensures server.log == old(server.log)
              || Wrote(server.history, server.log, old(server.log), Some(obj), reply, added, failed)
      ensures Finalized(reply, failed, added) && Removes(server.history, server.log, old(server.log), reply, failed, added)
      ensures newObj.copy.state.status != obj.copy.state.status ==>
                Saves(old(server.Next()), old(server.Takes(newObj.copy.rv)), server.history, newObj.copy, failed,
                      server.log != old(server.log))
      ensures LastAsk(reply.asks) == 0 && newObj.copy.state.status == obj.copy.state.status
              && newObj.copy.state.finalizers != [] && newObj.copy.state.finalizers[0] == id
              && old(server.Takes(newObj.copy.rv)) ==>
                && !failed && |server.history| == |old(server.Next())| + 1
                && server.history[|old(server.Next())|].finalizers == obj.copy.state.finalizers[1..]
    {
      var delay := LastAsk(reply.asks);
      added := Addition(if delay != 0 then [delay] else [], reply.noPrune, objs);
      var made;
      failed, made := Finish(server, obj, newObj, objs, reply);
      if made.Some? {
        added := added.(objs := objs + [Object(newObj.ident, made.value)]);
      }
    }

    method Finalize(server: Server, req: Ident, obj: Object, reply: Reply) returns (failed: bool, added: Addition)
      requires server.Valid() && Real(obj.copy, server.history) && AtHead(obj.copy)
      modifies server
      ensures server.Valid() && old(server.Next()) <= server.history
      ensures AllReal(req, added.objs, server.history)
      ensures server.log == old(server.log)
              || Wrote(server.history, server.log, old(server.log), Some(obj), reply, added, failed)
      ensures Finalized(reply, failed, added) && Removes(server.history, server.log, old(server.log), reply, failed, added)
      ensures !reply.failed ==>
                SavesStatus(old(server.Next()), old(server.others(server.turn + 1)), req, obj, reply, server.history, failed,
                            server.log != old(server.log))
      ensures Undisturbed(old(server.Next()), old(server.others(server.turn + 1)), req, obj, reply) ==>
                && !failed && |server.history| == |old(server.Next())| + 1
                && server.history[|old(server.Next())|].finalizers == obj.copy.state.finalizers[1..]
    {
      server.Others();
      if reply.failed {
        return true, Nothing;
      }
      assert server.others(server.turn) == [] ==> server.Next() == server.history;
      var newObj, objs := HandedBack(req, server.history, Edited(obj, reply.status), reply.objs);
      failed, added := Conclude(server, req, obj, newObj, objs, reply);
    }

    /** A status other than the one handed in is saved on the version gone on with, if that is still the latest. */
    ghost predicate SavesStatus(before: seq<State>, others: seq<Change>, req: Ident, obj: Object, reply: Reply,
                                history: seq<State>, failed: bool, wrote: bool)
      requires before != []
    {
      var newer, next := GoesOnWith(req, before, obj, reply).copy, before + Played(before[|before| - 1], others);
      newer.state.status != obj.copy.state.status ==>
        Saves(next, newer.rv == |next| - 1 && !next[newer.rv].Gone(), history, newer, failed, wrote)
    }

    /**
     * The wrapped handler succeeded for good and left a latest version with the finalizer at its head, and others do
     * nothing before it is written.
     */
    predicate Undisturbed(history: seq<State>, others: seq<Change>, req: Ident, obj: Object, reply: Reply)
      requires history != []
    {
      var newObj := GoesOnWith(req, history, obj, reply).copy;
      && !reply.failed && LastAsk(reply.asks) == 0 && newObj.state.status == obj.copy.state.status
      && newObj.state.finalizers != [] && newObj.state.finalizers[0] == id
      && newObj.rv == |history| - 1 && !history[newObj.rv].Gone() && others == []
    }
  }

  /** After the first i objects handed back. */
  ghost predicate Handed(req: Ident, history: seq<State>, o: Object, returned: seq<Returned>, i: nat,
                         newObj: Object, objs: seq<Object>)
    requires history != [] && i <= |returned|
  {
    && objs == ResolveAll(req, history, returned[..i])
    && Real(newObj.copy, history) && LastOwn(req, Some(o), objs) == Some(newObj)
    && forall j :: 0 <= j < |objs| ==> objs[j].ident == returned[j].ident
  }

  lemma HandedOneMore(req: Ident, history: seq<State>, o: Object, returned: seq<Returned>, i: nat,
                      newObj: Object, objs: seq<Object>, next: Object)
    requires history != [] && i < |returned| && Handed(req, history, o, returned, i, newObj, objs)
    requires next == Resolve(req, history, returned[i])
    ensures Handed(req, history, o, returned, i + 1, if next.ident == req then next else newObj, objs + [next])
  {
    assert returned[..i + 1][..i] == returned[..i];
    assert (objs + [next])[..i] == objs;
  }

  /** What a handler handed back, and which version of the object it leaves to go on with. */
  method HandedBack(req: Ident, history: seq<State>, o: Object, returned: seq<Returned>)
    returns (newObj: Object, objs: seq<Object>)
    requires history != [] && Real(o.copy, history)
    ensures objs == ResolveAll(req, history, returned)
    ensures Real(newObj.copy, history) && LastOwn(req, Some(o), objs) == Some(newObj)
    ensures forall i :: 0 <= i < |objs| ==> objs[i].ident == returned[i].ident
  {
    newObj, objs := o, [];
    for i := 0 to |returned|
      invariant Handed(req, history, o, returned, i, newObj, objs)
    {
      var respObj := Resolve(req, history, returned[i]);
      HandedOneMore(req, history, o, returned, i, newObj, objs, respObj);
      if IsObjectForRequest(req, respObj.ident) {
        newObj := respObj;
      }
      objs := objs + [respObj];
    }
    assert returned[..|returned|] == returned;
  }

  /** The list about to be written comes from the copy given; it is right for the version written to. */
  lemma SameListAsGiven(history: seq<State>, o: Copy, newer: Copy)
    requires Lawful(history) && Real(o, history) && Real(newer, history) && o.state.deleting
    requires o.state.finalizers != [] && newer.state.finalizers != []
    requires o.state.finalizers[0] == newer.state.finalizers[0]
    ensures newer.state.deleting ==> newer.state.finalizers == [o.state.finalizers[0]] + o.state.finalizers[1..]
    ensures !newer.state.deleting ==> newer.rv < |history| - 1
  {
    if !newer.state.deleting {
      var taken := SuffixAfterDeletion(history, o.rv, |history| - 1);
    } else if o.rv <= newer.rv {
      SameHeadSameList(history, o.rv, newer.rv);
    } else {
      SameHeadSameList(history, newer.rv, o.rv);
    }
  }

  // ----- a list with a name twice -----

  /** Others take the first so many finalizers. */
  function TakesFirst(list: seq<string>, n: nat): seq<Change>
    requires n <= |list|
  {
    if n == 0 then [] else [Takes(list[0])] + TakesFirst(list[1..], n - 1)
  }

  lemma {:induction false} TakenFirst(s: State, n: nat)
    requires s.deleting && n < |s.finalizers|
    ensures var states := [s] + Played(s, TakesFirst(s.finalizers, n));
            |states| == n + 1 && states[n] == s.(finalizers := s.finalizers[n..])
    decreases n
  {
    var changes := TakesFirst(s.finalizers, n);
    if n == 0 {
      assert s.finalizers[0..] == s.finalizers;
    } else {
      var next := Apply(s, changes[0]);
      assert changes[1..] == TakesFirst(next.finalizers, n - 1);
      TakenFirst(next, n - 1);
      assert s.finalizers[1..][n - 1..] == s.finalizers[n..];
      assert [s] + Played(s, changes) == [s] + ([next] + Played(next, changes[1..]));
    }
  }

  /**
   * A run of the handler on any list that has the name at its head again later: others take the finalizers up to there
   * while the wrapped handler runs, the wrapped handler returns the latest version, and the handler removes nothing: it
   * brings back what others took, but for one name.
   */
  method ComesBack(list: seq<string>, j: nat) returns (server: Server)
    requires 0 < j < |list| && list[0] == list[j]
    ensures |server.history| == j + 2
    ensures server.history[0].finalizers == list && server.history[j].finalizers == list[j..]
    ensures server.history[j + 1].finalizers == list[1..] && |list[1..]| >= |list[j..]|
    ensures server.history[j + 1].finalizers != server.history[j].finalizers[1..]
    ensures j > 1 ==> !LawfulStep(server.history[j], server.history[j + 1])
  {
    var s := State(list, true, "");
    var req := Ident(GVK("", "v1", "Pod"), "ns", "name");
    server := new Server((n: nat) => if n == 0 then TakesFirst(list, j) else [], s);
    var handler := new FinalizerHandler(list[0]);
    var reply := Reply(false, [], false, "", [Returned(req, j, "")]);
    TakenFirst(s, j);
    var obj := Object(req, Copy(0, s));
    ghost var h := server.Next();
    assert h == [s] + Played(s, TakesFirst(list, j));
    ReturnsLatest(req, h, obj, j);
    var failed, added := handler.Finalize(server, req, obj, reply);
    assert server.history[j] == h[j];
  }

  lemma ReturnsLatest(req: Ident, history: seq<State>, obj: Object, j: nat)
    requires |history| == j + 1 && history[j].status == ""
    ensures GoesOnWith(req, history, obj, Reply(false, [], false, "", [Returned(req, j, "")])) == Object(req, Copy(j, history[j]))
  {
    var returned := [Returned(req, j, "")];
    assert returned[..0] == [];
    assert ResolveAll(req, history, returned) == [Object(req, Copy(j, history[j]))];
  }
}
