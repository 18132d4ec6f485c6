/**
 * What an apply leaves when calls fail (pkg/apply/desiredset_process.go, pkg/apply/desiredset_apply.go): each key stands
 * or falls by its own call, and each kind by its own turn.
 */
module Failures {
  import opened Kube
  import opened Server
  import opened Process
  import opened Ownership
  import opened Apply
  import opened Contents

  /** A create in a free slot: one call, which makes the desired object, or fails and is counted. */
  lemma CreateStepExactly(c: Ctx, p: Pass, k: Key)
    requires k in c.objs && p.w.At(c.SlotOf(k)).None?
    ensures var q, s := CreateStep(c, p, k), c.SlotOf(k);
            && q.existing == p.existing && q.toUpdate == p.toUpdate && q.toReplace == p.toReplace
            && q.w.calls == p.w.calls + 1
            && if c.faults(p.w.calls) then q.w.objs == p.w.objs && q.w.log == p.w.log && q.errs == p.errs + 1
               else
                 && s in q.w.objs && IsDesired(c.rules, c.objs[k], q.w.objs[s]) && q.w.objs == p.w.objs[s := q.w.objs[s]]
                 && q.w.log == p.w.log + [Created(s, q.w.objs[s])] && q.errs == p.errs
  {}

  /** An update: what the comparison says is done, with one call if there is something to write. */
  lemma UpdateStepExactly(c: Ctx, p: Pass, k: Key)
    requires k in c.objs && k in p.existing && c.SlotOf(k) in p.w.objs
    ensures var q, s, live, want := UpdateStep(c, p, k), c.SlotOf(k), p.existing[k], c.objs[k];
            && q.existing == p.existing && q.toUpdate == p.toUpdate
            && match c.rules.compare(live, want)
               case Unchanged => q == p
               case CompareFailed => q == p.(errs := p.errs + 1)
               case Replace => q == if Replaceable(live, want) then p.(toReplace := p.toReplace + [k]) else p
               case Patched(merged) =>
                 && q.toReplace == p.toReplace && q.w.calls == p.w.calls + 1
                 && if c.faults(p.w.calls) then q.w.objs == p.w.objs && q.w.log == p.w.log && q.errs == p.errs + 1
                    else q.w.objs == p.w.objs[s := merged] && q.errs == p.errs
                         && q.w.log == p.w.log + [Event.Patched(s, p.w.objs[s], merged)]
  {
    assert Replaceable(p.existing[k], c.objs[k]) <==> MayReplace(p.existing[k], c.objs[k]);
  }

  /** A deletion: one call. */
  lemma DeleteStepExactly(c: Ctx, p: Pass, k: Key)
    requires c.SlotOf(k) in p.w.objs
    ensures var q, s, live := DeleteStep(c, p, k), c.SlotOf(k), p.w.objs[c.SlotOf(k)];
            && q.existing == p.existing && q.toUpdate == p.toUpdate && q.toReplace == p.toReplace
            && q.w.calls == p.w.calls + 1
            && if c.faults(p.w.calls) then q.w.objs == p.w.objs && q.w.log == p.w.log && q.errs == p.errs + 1
               else
                 && q.errs == p.errs && q.w.log == p.w.log + [Deleted(s, live)]
                 && if live.finalizers == [] then q.w.objs == p.w.objs - {s}
                    else s in q.w.objs && Lingers(live, q.w.objs[s]) && q.w.objs == p.w.objs[s := q.w.objs[s]]
  {}

  lemma LeftAlone(c: Ctx, p: Pass, q: Pass, ks: seq<Key>, k: Key)
    requires OnlyAt(c, p, q, ks) && k !in ks
    ensures q.w.At(c.SlotOf(k)) == p.w.At(c.SlotOf(k)) && q.Existing(k) == p.Existing(k)
  {}

  lemma LastIsApart(ks: seq<Key>, i: nat)
    requires NoDup(ks) && i < |ks|
    ensures var n := |ks| - 1;
            && NoDup(ks[..n]) && ks[n] !in ks[..n]
            && (i < n ==> ks[..n][i] == ks[i] && ks[..n][..i] == ks[..i] && ks[i] !in [ks[n]])
  {
    NoDupInit(ks);
  }

  /** What a free key holds after a create by the call of this number. */
  predicate CreatedBy(c: Ctx, k: Key, call: nat, at: Option<Obj>)
    requires k in c.objs
  {
    if c.faults(call) then at.None? else at.Some? && IsDesired(c.rules, c.objs[k], at.value)
  }

  lemma CreatesLast(c: Ctx, p: Pass, q: Pass, k: Key)
    requires k in c.objs && p.w.At(c.SlotOf(k)).None? && q.w.At(c.SlotOf(k)) == p.w.At(c.SlotOf(k))
    ensures CreatedBy(c, k, q.w.calls, CreateStep(c, q, k).w.At(c.SlotOf(k)))
  {
    CreateStepExactly(c, q, k);
  }

  lemma CreatedStays(c: Ctx, q: Pass, r: Pass, last: Key, k: Key, call: nat)
    requires OnlyAt(c, q, r, [last]) && k != last && k in c.objs && CreatedBy(c, k, call, q.w.At(c.SlotOf(k)))
    ensures CreatedBy(c, k, call, r.w.At(c.SlotOf(k)))
  {
    LeftAlone(c, q, r, [last], k);
  }

  /** One more key: it gets its own object, and leaves the others theirs. */
  lemma OneMoreCreate(c: Ctx, p: Pass, ks: seq<Key>)
    requires WellKeyed(c, p) && NoDup(ks) && ks != [] && forall x :: x in ks ==> x in c.objs
    ensures var q, r, last := CreateAll(c, p, ks[..|ks| - 1]), CreateAll(c, p, ks), ks[|ks| - 1];
            && OnlyAt(c, q, r, [last])
            && (p.w.At(c.SlotOf(last)).None? ==> CreatedBy(c, last, q.w.calls, r.w.At(c.SlotOf(last))))
  {
    var n := |ks| - 1;
    var q := CreateAll(c, p, ks[..n]);
    NoDupInit(ks);
    CreateStepFrame(c, q, ks[n]);
    CreateAllFrame(c, p, ks[..n]);
    LeftAlone(c, p, q, ks[..n], ks[n]);
    if p.w.At(c.SlotOf(ks[n])).None? {
      CreatesLast(c, p, q, ks[n]);
    }
  }

  /** In the create pass a free key gets its object, whatever failed before it and fails after it, if its own call does not. */
  lemma {:induction false} CreatedOnItsOwn(c: Ctx, p: Pass, ks: seq<Key>, i: nat)
    requires WellKeyed(c, p) && NoDup(ks) && forall x :: x in ks ==> x in c.objs
    requires i < |ks| && p.w.At(c.SlotOf(ks[i])).None?
    ensures CreatedBy(c, ks[i], CreateAll(c, p, ks[..i]).w.calls, CreateAll(c, p, ks).w.At(c.SlotOf(ks[i])))
    decreases |ks|
  {
    var n := |ks| - 1;
    OneMoreCreate(c, p, ks);
    if i < n {
      LastIsApart(ks, i);
      CreatedOnItsOwn(c, p, ks[..n], i);
      CreatedStays(c, CreateAll(c, p, ks[..n]), CreateAll(c, p, ks), ks[n], ks[i], CreateAll(c, p, ks[..i]).w.calls);
    }
  }

  /** What a taken key holds after a patch by the call of this number. */
  predicate PatchedBy(c: Ctx, was: Option<Obj>, merged: Obj, call: nat, at: Option<Obj>) {
    at == if c.faults(call) then was else Some(merged)
  }

  lemma PatchesLast(c: Ctx, p: Pass, q: Pass, k: Key)
    requires k in c.objs && k in p.existing && k in q.existing && q.existing[k] == p.existing[k]
    requires p.w.At(c.SlotOf(k)).Some? && q.w.At(c.SlotOf(k)) == p.w.At(c.SlotOf(k))
    requires c.rules.compare(p.existing[k], c.objs[k]).Patched?
    ensures PatchedBy(c, p.w.At(c.SlotOf(k)), c.rules.compare(p.existing[k], c.objs[k]).merged, q.w.calls,
                      UpdateStep(c, q, k).w.At(c.SlotOf(k)))
  {
    UpdateStepExactly(c, q, k);
  }

  lemma OneMoreUpdate(c: Ctx, p: Pass, ks: seq<Key>)
    requires WellKeyed(c, p) && NoDup(ks) && ks != [] && forall x :: x in ks ==> x in c.objs && x in p.existing
    ensures var q, r, last := UpdateAll(c, p, ks[..|ks| - 1]), UpdateAll(c, p, ks), ks[|ks| - 1];
            && OnlyAt(c, q, r, [last])
            && var was, v := p.w.At(c.SlotOf(last)), c.rules.compare(p.existing[last], c.objs[last]);
               was.Some? && v.Patched? ==> PatchedBy(c, was, v.merged, q.w.calls, r.w.At(c.SlotOf(last)))
  {
    var n := |ks| - 1;
    var q := UpdateAll(c, p, ks[..n]);
    NoDupInit(ks);
    UpdateStepFrame(c, q, ks[n]);
    UpdateAllFrame(c, p, ks[..n]);
    LeftAlone(c, p, q, ks[..n], ks[n]);
    if p.w.At(c.SlotOf(ks[n])).Some? && c.rules.compare(p.existing[ks[n]], c.objs[ks[n]]).Patched? {
      PatchesLast(c, p, q, ks[n]);
    }
  }

  /** In the update pass a key that needs a patch gets it if its own call does not fail. */
  lemma {:induction false} UpdatedOnItsOwn(c: Ctx, p: Pass, ks: seq<Key>, i: nat)
    requires WellKeyed(c, p) && NoDup(ks) && forall x :: x in ks ==> x in c.objs && x in p.existing
    requires i < |ks| && p.w.At(c.SlotOf(ks[i])).Some? && c.rules.compare(p.existing[ks[i]], c.objs[ks[i]]).Patched?
    ensures PatchedBy(c, p.w.At(c.SlotOf(ks[i])), c.rules.compare(p.existing[ks[i]], c.objs[ks[i]]).merged,
                      UpdateAll(c, p, ks[..i]).w.calls, UpdateAll(c, p, ks).w.At(c.SlotOf(ks[i])))
    decreases |ks|
  {
    var n := |ks| - 1;
    OneMoreUpdate(c, p, ks);
    if i < n {
      LastIsApart(ks, i);
      UpdatedOnItsOwn(c, p, ks[..n], i);
      LeftAlone(c, UpdateAll(c, p, ks[..n]), UpdateAll(c, p, ks), [ks[n]], ks[i]);
    }
  }

  /** What a taken key holds after a deletion by the call of this number. */
  predicate DeletedBy(c: Ctx, was: Obj, call: nat, at: Option<Obj>) {
    if c.faults(call) then at == Some(was)
    else if was.finalizers == [] then at.None?
    else at.Some? && Lingers(was, at.value)
  }

  lemma DeletesLast(c: Ctx, p: Pass, q: Pass, k: Key)
    requires p.w.At(c.SlotOf(k)).Some? && q.w.At(c.SlotOf(k)) == p.w.At(c.SlotOf(k))
    ensures DeletedBy(c, p.w.At(c.SlotOf(k)).value, q.w.calls, DeleteStep(c, q, k).w.At(c.SlotOf(k)))
  {
    DeleteStepExactly(c, q, k);
  }

  lemma {:induction false} DeleteAllCalls(c: Ctx, p: Pass, ks: seq<Key>)
    ensures DeleteAll(c, p, ks).w.calls == p.w.calls + |ks|
  {
    if ks != [] {
      DeleteAllCalls(c, p, ks[..|ks| - 1]);
    }
  }

  /** The same in the prune pass; the i-th deletion is the i-th call. */
  lemma {:induction false} DeletedOnItsOwn(c: Ctx, p: Pass, ks: seq<Key>, i: nat)
    requires NoDup(ks) && i < |ks| && p.w.At(c.SlotOf(ks[i])).Some?
    ensures DeletedBy(c, p.w.At(c.SlotOf(ks[i])).value, p.w.calls + i, DeleteAll(c, p, ks).w.At(c.SlotOf(ks[i])))
    decreases |ks|
  {
    var n := |ks| - 1;
    var q := DeleteAll(c, p, ks[..n]);
    LastIsApart(ks, i);
    if i < n {
      DeletedOnItsOwn(c, p, ks[..n], i);
      DeleteStepFrame(c, q, ks[n]);
      LeftAlone(c, q, DeleteStep(c, q, ks[n]), [ks[n]], ks[i]);
    } else {
      DeleteAllFrame(c, p, ks[..n]);
      LeftAlone(c, p, q, ks[..n], ks[n]);
      DeleteAllCalls(c, p, ks[..n]);
      DeletesLast(c, p, q, ks[n]);
    }
  }

  /** If the objects cannot be listed nothing is done. */
  lemma FailedListingDoesNothing(c: Ctx, w: World, plan: Plan)
    requires Follows(c, w, plan) && c.selector.Some? && c.faults(w.calls)
    ensures Outcome(c, w, plan) == (w.(calls := w.calls + 1), 1)
  {}

  /** The first turns of an apply are an apply. */
  lemma {:induction false} FirstTurns(cfg: Config, desired: ObjectMap, w: World, legs: seq<Leg>, m: nat)
    requires ApplyRun(cfg, desired, w, legs) && m <= |legs|
    ensures ApplyRun(cfg, desired, w, legs[..m])
    decreases |legs|
  {
    if m == |legs| {
      assert legs[..m] == legs;
    } else {
      FirstTurns(cfg, desired, w, legs[..|legs| - 1], m);
      assert legs[..|legs| - 1][..m] == legs[..m];
    }
  }

  /** The turns of a whole apply: each runs on what the one before left, failed or not, and errors add up. */
  lemma EveryTurnRuns(cfg: Config, desired: ObjectMap, w: World, legs: seq<Leg>, i: nat)
    requires ApplyRun(cfg, desired, w, legs) && i < |legs|
    ensures ApplyRun(cfg, desired, w, legs[..i]) && ApplyRun(cfg, desired, w, legs[..i + 1])
    ensures var before, after := ApplyAll(cfg, desired, w, legs[..i]), ApplyAll(cfg, desired, w, legs[..i + 1]);
            var c := CtxFor(cfg, desired, legs[i].gvk, legs[i].objs);
            if KnownScope(cfg, legs[i].gvk) then
              && Follows(c, before.0, legs[i].plan)
              && after.0 == Outcome(c, before.0, legs[i].plan).0
              && after.1 == before.1 + Outcome(c, before.0, legs[i].plan).1
            else after == (before.0, before.1 + 1)
  {
    FirstTurns(cfg, desired, w, legs, i);
    FirstTurns(cfg, desired, w, legs, i + 1);
    LastTurn(cfg, desired, w, legs[..i + 1]);
    assert legs[..i + 1][..i] == legs[..i];
  }

  lemma LastTurn(cfg: Config, desired: ObjectMap, w: World, legs: seq<Leg>)
    requires ApplyRun(cfg, desired, w, legs) && legs != []
    ensures var init, leg := legs[..|legs| - 1], legs[|legs| - 1];
            && ApplyRun(cfg, desired, w, init) && LegOk(cfg, desired, ApplyAll(cfg, desired, w, init).0, leg)
            && ApplyAll(cfg, desired, w, legs) == AddLeg(cfg, desired, ApplyAll(cfg, desired, w, init), leg)
  {}
}
