/** The handlers of a kind, run one after another (pkg/router/handlers.go), and the response they share. */
module HandlerChain {
  import opened Kube
  import opened Finalizers

  // ----- the response -----

  function AfterAsk(delay: int, ask: int): int {
    if delay == 0 || ask < delay then ask else delay
  }

  /** The delay of a response after all these requests for a retry. */
  function Merged(delay: int, asks: seq<int>): int {
    if asks == [] then delay else AfterAsk(Merged(delay, asks[..|asks| - 1]), asks[|asks| - 1])
  }

  predicate IsLeast(asks: seq<int>, least: int) {
    least in asks && forall a :: a in asks ==> least <= a
  }

  /** A fresh response ends up with the least delay asked for, unless a zero is among them that is not the last. */
  lemma {:induction false} MergedIsLeastExactly(asks: seq<int>, least: int)
    requires IsLeast(asks, least)
    ensures Merged(0, asks) == least <==> 0 !in asks || least < 0 || asks[|asks| - 1] == 0
  {
    MergedKeeps(asks);
    var n := |asks| - 1;
    if 0 !in asks {
      assert Merged(0, asks) in asks;
    }
    if asks[n] == 0 && least >= 0 {
      assert 0 in asks;
    }
  }

  /** Nothing negative is forgotten, and nothing positive unless a zero comes after it. */
  lemma {:induction false} MergedKeeps(asks: seq<int>)
    ensures asks != [] ==> Merged(0, asks) in asks
    ensures (exists a :: a in asks && a < 0) ==> Merged(0, asks) < 0 && forall a :: a in asks ==> Merged(0, asks) <= a
    ensures 0 !in asks ==> forall a :: a in asks ==> Merged(0, asks) <= a
    ensures (forall a :: a in asks ==> a >= 0) && asks != [] ==> (Merged(0, asks) == 0 <==> asks[|asks| - 1] == 0)
  {
    if asks != [] {
      var init, last := asks[..|asks| - 1], asks[|asks| - 1];
      MergedKeeps(init);
      assert forall a :: a in asks <==> a in init || a == last;
    }
  }

  class Response {
    var delay: int
    var noPrune: bool
    var objects: seq<Object>

    constructor ()
      ensures delay == 0 && !noPrune && objects == []
    {
      delay, noPrune, objects := 0, false, [];
    }

    method DisablePrune()
      modifies `noPrune
      ensures noPrune
    {
      noPrune := true;
    }

    method RetryAfter(after: int)
      modifies `delay
      ensures delay == AfterAsk(old(delay), after)
    {
      if delay == 0 || after < delay {
        delay := after;
      }
    }

    method Objects(objs: seq<Object>)
      modifies `objects
      ensures objects == old(objects) + objs
    {
      objects := objects + objs;
    }

    /** Everything one handler adds. */
    method Take(added: Addition)
      modifies this
      ensures delay == Merged(old(delay), added.asks)
      ensures noPrune == (old(noPrune) || added.noPrune)
      ensures objects == old(objects) + added.objs
    {
      for i := 0 to |added.asks|
        invariant delay == Merged(old(delay), added.asks[..i]) && noPrune == old(noPrune) && objects == old(objects)
      {
        assert added.asks[..i + 1][..i] == added.asks[..i];
        RetryAfter(added.asks[i]);
      }
      assert added.asks[..|added.asks|] == added.asks;
      if added.noPrune {
        DisablePrune();
      }
      Objects(added.objs);
    }
  }

  // ----- the chain -----

  /** A handler of the chain: one that finalizes, or any other. */
  datatype Link = Finalizes(handler: FinalizerHandler) | Other

  /** What a link adds, in terms of its reply. */
  ghost predicate Fits(link: Link, reply: Reply, added: Addition) {
    if link.Finalizes? then
      && (added.asks == [] || (LastAsk(reply.asks) != 0 && added.asks == [LastAsk(reply.asks)]))
      && (added.noPrune ==> reply.noPrune)
    else
      && added.asks == reply.asks && added.noPrune == reply.noPrune && |added.objs| == |reply.objs|
      && forall i :: 0 <= i < |reply.objs| ==> added.objs[i].ident == reply.objs[i].ident
  }

  /** The object of the request after a link: edited in place by any but a finalizing one, then taken from what it adds. */
  function LeftBy(req: Ident, obj: Option<Object>, link: Link, reply: Reply, added: Addition): Option<Object> {
    LastOwn(req, if obj.Some? && link.Other? then Some(Edited(obj.value, reply.status)) else obj, added.objs)
  }

  /**
   * The last object of the request among those handed back is the one left; without any it is the one there was, with the
   * status that a handler that does not finalize left on it.
   */
  lemma LeftExactly(req: Ident, obj: Option<Object>, link: Link, reply: Reply, added: Addition, i: int)
    requires -1 <= i < |added.objs| && (i >= 0 ==> added.objs[i].ident == req)
    requires forall j :: i < j < |added.objs| ==> added.objs[j].ident != req
    ensures var left := LeftBy(req, obj, link, reply, added);
            if i >= 0 then left == Some(added.objs[i])
            else if obj.None? || link.Finalizes? then left == obj
            else
              && left.Some? && left.value.ident == obj.value.ident && left.value.copy.rv == obj.value.copy.rv
              && left.value.copy.state.status == reply.status
              && left.value.copy.state.finalizers == obj.value.copy.state.finalizers
              && left.value.copy.state.deleting == obj.value.copy.state.deleting
  {
    LastOwnExactly(req, if obj.Some? && link.Other? then Some(Edited(obj.value, reply.status)) else obj, added.objs, i);
  }

  function LeftByAll(req: Ident, obj: Option<Object>, links: seq<Link>, replies: seq<Reply>, adds: seq<Addition>)
    : Option<Object>
    requires |links| == |replies| == |adds|
  {
    if links == [] then obj
    else
      var n := |links| - 1;
      LeftBy(req, LeftByAll(req, obj, links[..n], replies[..n], adds[..n]), links[n], replies[n], adds[n])
  }

  function AllAsks(adds: seq<Addition>): seq<int> {
    if adds == [] then [] else AllAsks(adds[..|adds| - 1]) + adds[|adds| - 1].asks
  }

  function AllObjects(adds: seq<Addition>): seq<Object> {
    if adds == [] then [] else AllObjects(adds[..|adds| - 1]) + adds[|adds| - 1].objs
  }

  predicate AnyNoPrune(adds: seq<Addition>) {
    exists i :: 0 <= i < |adds| && adds[i].noPrune
  }

  lemma {:induction false} MergedMore(delay: int, a: seq<int>, b: seq<int>)
    ensures Merged(delay, a + b) == Merged(Merged(delay, a), b)
  {
    if b == [] {
      assert a + b == a;
    } else {
      assert (a + b)[..|a + b| - 1] == a + b[..|b| - 1];
      MergedMore(delay, a, b[..|b| - 1]);
    }
  }

  lemma {:induction false} OthersMore(req: Ident, a: seq<Object>, b: seq<Object>)
    ensures Others(req, a + b) == Others(req, a) + Others(req, b)
  {
    if b == [] {
      assert a + b == a;
    } else {
      assert (a + b)[..|a + b| - 1] == a + b[..|b| - 1];
      OthersMore(req, a, b[..|b| - 1]);
    }
  }

  lemma {:induction false} OthersTwice(req: Ident, objs: seq<Object>)
    ensures Others(req, Others(req, objs)) == Others(req, objs)
  {
    if objs != [] {
      var init := objs[..|objs| - 1];
      OthersTwice(req, init);
      OthersMore(req, Others(req, init), if objs[|objs| - 1].ident == req then [] else [objs[|objs| - 1]]);
    }
  }

  /** A write of the chain is by one of its finalizing handlers; a removal only where the wrapped handler succeeded for good. */
  ghost predicate LicensedBy(links: seq<Link>, replies: seq<Reply>, e: Entry)
    requires |replies| == |links|
  {
    exists k :: Licenses(links, replies, k, e)
  }

  predicate Licenses(links: seq<Link>, replies: seq<Reply>, k: int, e: Entry)
    requires |replies| == |links|
  {
    && 0 <= k < |links| && links[k].Finalizes? && e.id == links[k].handler.id
    && (e.Removed? ==> !replies[k].failed && LastAsk(replies[k].asks) == 0)
  }

  ghost predicate AllLicensed(links: seq<Link>, replies: seq<Reply>, log: seq<Entry>, from: nat)
    requires |replies| == |links|
  {
    forall n :: from <= n < |log| ==> LicensedBy(links, replies, log[n])
  }

  lemma LicensedMore(links: seq<Link>, replies: seq<Reply>, before: seq<Entry>, log: seq<Entry>, from: nat, k: nat)
    requires |replies| == |links| && from <= |before| && before <= log && k < |links|
    requires AllLicensed(links, replies, before, from)
    requires AllLicensed([links[k]], [replies[k]], log, |before|)
    ensures AllLicensed(links, replies, log, from)
  {
    forall n | from <= n < |log| ensures LicensedBy(links, replies, log[n]) {
      if n < |before| {
        assert log[n] == before[n];
      } else {
        assert LicensedBy([links[k]], [replies[k]], log[n]);
        assert Licenses(links, replies, k, log[n]);
      }
    }
  }

  /**
   * After the first i handlers, which added `adds`: the object of the request as they left it, and the response with the
   * delays merged, pruning forbidden if any forbade it, and every object but the object of the request, in order.
   */
  ghost predicate SoFar(req: Ident, obj: Option<Object>, links: seq<Link>, replies: seq<Reply>, i: nat,
                        adds: seq<Addition>, left: Option<Object>, delay: int, noPrune: bool, objects: seq<Object>)
    requires i <= |links| == |replies|
  {
    && |adds| == i && (forall j :: 0 <= j < i ==> Fits(links[j], replies[j], adds[j]))
    && left == LeftByAll(req, obj, links[..i], replies[..i], adds)
    && delay == Merged(0, AllAsks(adds)) && noPrune == AnyNoPrune(adds)
    && objects == Others(req, AllObjects(adds))
  }

  /** Which handlers failed, and how many: an ordinary one if it said so. */
  ghost predicate Counts(links: seq<Link>, replies: seq<Reply>, n: nat, fails: seq<bool>, errs: nat)
    requires n <= |replies| == |links|
  {
    && |fails| == n && errs == multiset(fails)[true]
    && forall i :: 0 <= i < n && links[i].Other? ==> fails[i] == replies[i].failed
  }

  lemma CountsMore(links: seq<Link>, replies: seq<Reply>, n: nat, fails: seq<bool>, errs: nat, failed: bool)
    requires n < |replies| == |links| && Counts(links, replies, n, fails, errs)
    requires links[n].Other? ==> failed == replies[n].failed
    ensures Counts(links, replies, n + 1, fails + [failed], if failed then errs + 1 else errs)
  {}

  class Handlers {
    const handlers: seq<Link>

    constructor (handlers: seq<Link>)
      ensures this.handlers == handlers
    {
      this.handlers := handlers;
    }

    /**
     * Runs the handlers one after another, each with the object as those before it left it, and whether they fail or not.
     * `adds` is what each added. The response gets the merged delays, and every object but the object of the request.
     */
    method Handle(server: Server, resp: Response, req: Ident, obj: Option<Object>, replies: seq<Reply>)
      returns (errs: nat, left: Option<Object>, ghost adds: seq<Addition>, ghost fails: seq<bool>)
      requires |replies| == |handlers|
      requires server.Valid() && (obj.Some? ==> Real(obj.value.copy, server.history))
      requires resp.delay == 0 && !resp.noPrune && resp.objects == []
      modifies server, resp
      ensures server.Valid() && old(server.history) <= server.history && old(server.log) <= server.log
      ensures AllLicensed(handlers, replies, server.log, |old(server.log)|)
      ensures SoFar(req, obj, handlers, replies, |handlers|, adds, left, resp.delay, resp.noPrune, resp.objects)
      ensures Counts(handlers, replies, |handlers|, fails, errs)
      ensures left.Some? ==> Real(left.value.copy, server.history)
    {
      errs, left, adds, fails := 0, obj, [], [];
      ghost var history, log := server.history, server.log;
      ChainStarts(req, obj, handlers, replies, log);
      for i := 0 to |handlers|
        invariant Running(server, resp, req, obj, replies, i, errs, left, adds, fails, history, log)
      {
        errs, left, adds, fails := HandleOne(server, resp, req, obj, replies, i, errs, left, adds, fails, history, log);
      }
    }

    /** After the first i handlers, from when the server had this history and log. */
    ghost predicate Running(server: Server, resp: Response, req: Ident, obj: Option<Object>, replies: seq<Reply>, i: nat,
                            errs: nat, left: Option<Object>, adds: seq<Addition>, fails: seq<bool>,
                            history: seq<State>, log: seq<Entry>)
      requires i <= |handlers| == |replies|
      reads server, resp
    {
      && server.Valid() && history <= server.history && log <= server.log
      && (left.Some? ==> Real(left.value.copy, server.history)) && NoneOwn(req, resp.objects)
      && Chain(req, obj, handlers, replies, i, adds, left, resp.delay, resp.noPrune, resp.objects, server.log, |log|,
               fails, errs)
    }

    /** The next handler, and then the object of the request out of the response. */
    method HandleOne(server: Server, resp: Response, req: Ident, ghost obj: Option<Object>, replies: seq<Reply>, i: nat,
                     errs: nat, left: Option<Object>, ghost adds: seq<Addition>, ghost fails: seq<bool>,
                     ghost history: seq<State>, ghost log: seq<Entry>)
      returns (errs': nat, left': Option<Object>, ghost adds': seq<Addition>, ghost fails': seq<bool>)
      requires i < |handlers| == |replies|
      requires Running(server, resp, req, obj, replies, i, errs, left, adds, fails, history, log)
      modifies server, resp
      ensures Running(server, resp, req, obj, replies, i + 1, errs', left', adds', fails', history, log)
    {
      ghost var before, delay, noPrune, objects := server.log, resp.delay, resp.noPrune, resp.objects;
      var failed;
      ghost var added;
      failed, left', added := RunInto(server, resp, req, left, handlers[i], replies[i]);
      ChainGoesOn(req, obj, handlers, replies, i, adds, left, delay, noPrune, objects, before, |log|, added, server.log,
                  fails, errs, failed);
      adds', fails' := adds + [added], fails + [failed];
      errs' := errs;
      if failed {
        errs' := errs + 1;
      }
    }

    /** One handler: what it does to the object in place, and what it adds. */
    method RunLink(server: Server, req: Ident, obj: Option<Object>, link: Link, reply: Reply)
      returns (failed: bool, edited: Option<Object>, added: Addition)
      requires server.Valid() && (obj.Some? ==> Real(obj.value.copy, server.history))
      modifies server
      ensures server.Valid() && old(server.history) <= server.history && old(server.log) <= server.log
      ensures AllLicensed([link], [reply], server.log, |old(server.log)|)
      ensures Fits(link, reply, added) && (link.Other? ==> failed == reply.failed)
      ensures LastOwn(req, edited, added.objs) == LeftBy(req, obj, link, reply, added)
      ensures LeftBy(req, obj, link, reply, added).Some? ==> Real(LeftBy(req, obj, link, reply, added).value.copy, server.history)
    {
      edited := obj;
      if link.Finalizes? {
        failed, added := link.handler.Handle(server, req, obj, reply);
      } else {
        server.Others();
        if obj.Some? {
          edited := Some(Edited(obj.value, reply.status));
        }
        failed, added := reply.failed, Addition(reply.asks, reply.noPrune, ResolveAll(req, server.history, reply.objs));
        ResolvedIdents(req, server.history, reply.objs);
      }
      LastOwnIsReal(req, edited, added.objs, server.history);
      assert forall n :: |old(server.log)| <= n < |server.log| ==> Licenses([link], [reply], 0, server.log[n]);
    }

    /** Runs one handler into the shared response, and takes the object of the request out of it again. */
    method RunInto(server: Server, resp: Response, req: Ident, obj: Option<Object>, link: Link, reply: Reply)
      returns (failed: bool, left: Option<Object>, ghost added: Addition)
      requires server.Valid() && (obj.Some? ==> Real(obj.value.copy, server.history))
      requires NoneOwn(req, resp.objects)
      modifies server, resp
      ensures server.Valid() && old(server.history) <= server.history && old(server.log) <= server.log
      ensures AllLicensed([link], [reply], server.log, |old(server.log)|)
      ensures Fits(link, reply, added) && left == LeftBy(req, obj, link, reply, added)
      ensures link.Other? ==> failed == reply.failed
      ensures left.Some? ==> Real(left.value.copy, server.history)
      ensures resp.delay == Merged(old(resp.delay), added.asks) && resp.noPrune == (old(resp.noPrune) || added.noPrune)
      ensures resp.objects == Others(req, old(resp.objects) + added.objs) && NoneOwn(req, resp.objects)
    {
      var adds;
      failed, left, adds := RunLink(server, req, obj, link, reply);
      added := adds;
      resp.Take(adds);
      LastOwnSkips(req, left, old(resp.objects), adds.objs);
      var rest;
      left, rest := TakeOwn(req, left, resp.objects);
      resp.objects := rest;
    }

    /** The object of the request is taken out of the response; the last one found is the one to go on with. */
    method TakeOwn(req: Ident, obj: Option<Object>, objects: seq<Object>) returns (left: Option<Object>, rest: seq<Object>)
      ensures left == LastOwn(req, obj, objects) && rest == Others(req, objects)
    {
      left, rest := obj, [];
      for i := 0 to |objects|
        invariant left == LastOwn(req, obj, objects[..i]) && rest == Others(req, objects[..i])
      {
        assert objects[..i + 1][..i] == objects[..i];
        if IsObjectForRequest(req, objects[i].ident) {
          left := Some(objects[i]);
        } else {
          rest := rest + [objects[i]];
        }
      }
      assert objects[..|objects|] == objects;
    }
  }

  ghost predicate NoneOwn(req: Ident, objects: seq<Object>) {
    forall o :: o in objects ==> o.ident != req
  }

  lemma {:induction false} LastOwnSkips(req: Ident, obj: Option<Object>, a: seq<Object>, b: seq<Object>)
    requires NoneOwn(req, a)
    ensures LastOwn(req, obj, a + b) == LastOwn(req, obj, b)
  {
    if b != [] {
      assert (a + b)[..|a + b| - 1] == a + b[..|b| - 1];
      LastOwnSkips(req, obj, a, b[..|b| - 1]);
    } else {
      assert a + b == a;
      LastOwnExactly(req, obj, a, -1);
    }
  }

  lemma {:induction false} ResolvedIdents(req: Ident, history: seq<State>, returned: seq<Returned>)
    requires history != []
    ensures forall i :: 0 <= i < |returned| ==> ResolveAll(req, history, returned)[i].ident == returned[i].ident
  {
    if returned != [] {
      ResolvedIdents(req, history, returned[..|returned| - 1]);
    }
  }

  lemma OneMore(req: Ident, obj: Option<Object>, links: seq<Link>, replies: seq<Reply>, i: nat, adds: seq<Addition>,
                was: Option<Object>, delay: int, noPrune: bool, objects: seq<Object>, added: Addition)
    requires i < |links| == |replies| && SoFar(req, obj, links, replies, i, adds, was, delay, noPrune, objects)
    requires Fits(links[i], replies[i], added)
    ensures SoFar(req, obj, links, replies, i + 1, adds + [added], LeftBy(req, was, links[i], replies[i], added),
                  Merged(delay, added.asks), noPrune || added.noPrune, Others(req, objects + added.objs))
  {
    LeftMore(req, obj, links, replies, i, adds, added);
    AddedMore(req, adds, added);
    NoPruneMore(adds, added);
  }

  lemma LeftMore(req: Ident, obj: Option<Object>, links: seq<Link>, replies: seq<Reply>, i: nat, adds: seq<Addition>,
                 added: Addition)
    requires i < |links| == |replies| && |adds| == i
    ensures LeftByAll(req, obj, links[..i + 1], replies[..i + 1], adds + [added])
            == LeftBy(req, LeftByAll(req, obj, links[..i], replies[..i], adds), links[i], replies[i], added)
  {
    assert (adds + [added])[..i] == adds && links[..i + 1][..i] == links[..i] && replies[..i + 1][..i] == replies[..i];
  }

  lemma AddedMore(req: Ident, adds: seq<Addition>, added: Addition)
    ensures Merged(0, AllAsks(adds + [added])) == Merged(Merged(0, AllAsks(adds)), added.asks)
    ensures Others(req, AllObjects(adds + [added])) == Others(req, Others(req, AllObjects(adds)) + added.objs)
  {
    assert (adds + [added])[..|adds|] == adds;
    MergedMore(0, AllAsks(adds), added.asks);
    OthersTwice(req, AllObjects(adds));
    OthersMore(req, Others(req, AllObjects(adds)), added.objs);
    OthersMore(req, AllObjects(adds), added.objs);
  }

  /** The response so far, and the licence of every write so far. */
  ghost predicate Chain(req: Ident, obj: Option<Object>, links: seq<Link>, replies: seq<Reply>, i: nat,
                        adds: seq<Addition>, left: Option<Object>, delay: int, noPrune: bool, objects: seq<Object>,
                        log: seq<Entry>, from: nat, fails: seq<bool>, errs: nat)
    requires i <= |links| == |replies|
  {
    && SoFar(req, obj, links, replies, i, adds, left, delay, noPrune, objects)
    && from <= |log| && AllLicensed(links, replies, log, from)
    && Counts(links, replies, i, fails, errs)
  }

  lemma ChainStarts(req: Ident, obj: Option<Object>, links: seq<Link>, replies: seq<Reply>, log: seq<Entry>)
    requires |links| == |replies|
    ensures Chain(req, obj, links, replies, 0, [], obj, 0, false, [], log, |log|, [], 0)
  {
    SoFarNothing(req, obj, links, replies);
  }

  lemma ChainGoesOn(req: Ident, obj: Option<Object>, links: seq<Link>, replies: seq<Reply>, i: nat, adds: seq<Addition>,
                    was: Option<Object>, delay: int, noPrune: bool, objects: seq<Object>, before: seq<Entry>, from: nat,
                    added: Addition, log: seq<Entry>, fails: seq<bool>, errs: nat, failed: bool)
    requires i < |links| == |replies|
    requires Chain(req, obj, links, replies, i, adds, was, delay, noPrune, objects, before, from, fails, errs)
    requires links[i].Other? ==> failed == replies[i].failed
    requires Fits(links[i], replies[i], added) && before <= log && AllLicensed([links[i]], [replies[i]], log, |before|)
    ensures Chain(req, obj, links, replies, i + 1, adds + [added], LeftBy(req, was, links[i], replies[i], added),
                  Merged(delay, added.asks), noPrune || added.noPrune, Others(req, objects + added.objs), log, from,
                  fails + [failed], if failed then errs + 1 else errs)
  {
    CountsMore(links, replies, i, fails, errs, failed);
    LicensedMore(links, replies, before, log, from, i);
    OneMore(req, obj, links, replies, i, adds, was, delay, noPrune, objects, added);
  }

  lemma SoFarNothing(req: Ident, obj: Option<Object>, links: seq<Link>, replies: seq<Reply>)
    requires |links| == |replies|
    ensures SoFar(req, obj, links, replies, 0, [], obj, 0, false, [])
  {}

  lemma NoPruneMore(adds: seq<Addition>, added: Addition)
    ensures AnyNoPrune(adds + [added]) == (AnyNoPrune(adds) || added.noPrune)
  {
    var more := adds + [added];
    if AnyNoPrune(adds) {
      var j :| 0 <= j < |adds| && adds[j].noPrune;
      assert more[j].noPrune;
    }
    if added.noPrune {
      assert more[|adds|].noPrune;
    }
  }
}
