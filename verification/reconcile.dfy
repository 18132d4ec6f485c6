/**
 * What a successful `process` amounts to: the five passes, in whatever order they take their keys, do to each slot
 * exactly what a decision about that slot alone would do.
 */
module Reconcile {
  import opened Kube
  import opened Server
  import opened Process
  import opened Ownership

  // ----- the decision about one slot -----

  /** The live object at a desired key is looked at: it was listed, or a create ran into it. */
  predicate Considered(c: Ctx, k: Key, live: Obj)
    requires k in c.objs
  {
    Listed(c, k, live) || c.objs[k].Should(AnnotationCreate)
  }

  /** What becomes of a desired key. */
  function Wanted(c: Ctx, k: Key, at: Option<Obj>): Option<Obj>
    requires k in c.objs
  {
    var want := c.objs[k];
    match at
    case None => if want.Should(AnnotationCreate) then Some(Fresh(Prepare(c.rules, want))) else None
    case Some(live) =>
      if !Considered(c, k, live) || !want.Should(AnnotationUpdate) then at
      else
        match c.rules.compare(live, want)
        case Patched(merged) => Some(merged)
        case Replace =>
          if !MayReplace(live, want) then at
          else if AfterDelete(live).None? then Some(Fresh(Prepare(c.rules, want)))
          else AfterDelete(live)
        case _ => at
  }

  /** What becomes of any other key: pruned, or left alone. */
  function Unwanted(c: Ctx, k: Key, at: Option<Obj>): Option<Obj> {
    if at.Some? && !c.noPrune && Listed(c, k, at.value) && Prunable(c, at.value) && !Shielded(c, k)
    then AfterDelete(at.value)
    else at
  }

  function Decide(c: Ctx, s: Slot, at: Option<Obj>): Option<Obj> {
    if s.gk != c.gvk.GroupKind() then at
    else if s.key in c.objs then Wanted(c, s.key, at)
    else Unwanted(c, s.key, at)
  }

  function Merged(v: Verdict, at: Option<Obj>): Option<Obj> {
    match v
    case Patched(merged) => Some(merged)
    case _ => at
  }

  // ----- what each pass does at one key when it reports no error -----

  lemma {:induction false} CreateAllAt(c: Ctx, p: Pass, ks: seq<Key>, k: Key)
    requires WellKeyed(c, p) && NoDup(ks) && forall x :: x in ks ==> x in c.objs
    requires CreateAll(c, p, ks).errs == p.errs
    ensures var q, at := CreateAll(c, p, ks), p.w.At(c.SlotOf(k));
            && (k in ks && at.None? ==>
                  q.w.At(c.SlotOf(k)) == Some(Fresh(Prepare(c.rules, c.objs[k]))) && q.Existing(k) == p.Existing(k))
            && (k in ks && at.Some? ==>
                  q.w.At(c.SlotOf(k)) == at && q.Existing(k) == at && MayTakeOver(c.rules, at.value, c.objs[k]))
            && (k in q.toUpdate <==>
                  k in p.toUpdate || (k in ks && at.Some? && c.objs[k].Should(AnnotationUpdate)))
  {
    if ks != [] {
      var init, last := ks[..|ks| - 1], ks[|ks| - 1];
      NoDupInit(ks);
      var q := CreateAll(c, p, init);
      CreateAllFrame(c, p, init);
      CreateStepFrame(c, q, last);
      CreateAllAt(c, p, init, k);
      assert q.w.At(c.SlotOf(last)) == p.w.At(c.SlotOf(last));
      assert q.Existing(last) == p.Existing(last);
      CreateStepAt(c, q, last);
      if k != last {
        assert k !in [last];
      }
    }
  }

  lemma CreateStepAt(c: Ctx, q: Pass, k: Key)
    requires k in c.objs && CreateStep(c, q, k).errs == q.errs
    ensures var r, at := CreateStep(c, q, k), q.w.At(c.SlotOf(k));
            && (at.None? ==> r.w.At(c.SlotOf(k)) == Some(Fresh(Prepare(c.rules, c.objs[k])))
                             && r.Existing(k) == q.Existing(k) && r.toUpdate == q.toUpdate)
            && (at.Some? ==> r.w.At(c.SlotOf(k)) == at && r.Existing(k) == at
                             && MayTakeOver(c.rules, at.value, c.objs[k])
                             && r.toUpdate == if c.objs[k].Should(AnnotationUpdate) then q.toUpdate + [k] else q.toUpdate)
  {}

  lemma {:induction false} UpdateAllAt(c: Ctx, p: Pass, ks: seq<Key>, k: Key)
    requires WellKeyed(c, p) && NoDup(ks) && forall x :: x in ks ==> x in c.objs && x in p.existing
    requires UpdateAll(c, p, ks).errs == p.errs
    ensures var q, at := UpdateAll(c, p, ks), p.w.At(c.SlotOf(k));
            && (k in ks ==> q.w.At(c.SlotOf(k)) == Merged(c.rules.compare(p.existing[k], c.objs[k]), at))
            && (k in ks ==> !c.rules.compare(p.existing[k], c.objs[k]).CompareFailed?)
            && (k in q.toReplace <==>
                  || k in p.toReplace
                  || (k in ks && c.rules.compare(p.existing[k], c.objs[k]).Replace? && MayReplace(p.existing[k], c.objs[k])))
  {
    if ks != [] {
      var init, last := ks[..|ks| - 1], ks[|ks| - 1];
      NoDupInit(ks);
      var q := UpdateAll(c, p, init);
      UpdateAllFrame(c, p, init);
      UpdateStepFrame(c, q, last);
      UpdateAllAt(c, p, init, k);
      assert q.w.At(c.SlotOf(last)) == p.w.At(c.SlotOf(last));
      if k != last {
        assert k !in [last];
      }
    }
  }

  lemma {:induction false} DeleteAllAt(c: Ctx, p: Pass, ks: seq<Key>, k: Key)
    requires NoDup(ks) && DeleteAll(c, p, ks).errs == p.errs
    ensures k in ks ==>
              && p.w.At(c.SlotOf(k)).Some?
              && DeleteAll(c, p, ks).w.At(c.SlotOf(k)) == AfterDelete(p.w.At(c.SlotOf(k)).value)
  {
    if ks != [] {
      var init, last := ks[..|ks| - 1], ks[|ks| - 1];
      NoDupInit(ks);
      var q := DeleteAll(c, p, init);
      DeleteAllFrame(c, p, init);
      DeleteStepFrame(c, q, last);
      DeleteAllAt(c, p, init, k);
      assert q.w.At(c.SlotOf(last)) == p.w.At(c.SlotOf(last));
      if k != last {
        assert k !in [last];
      }
    }
  }

  // ----- the listing -----

  ghost predicate IsListing(c: Ctx, w: World, existing: map<Key, Obj>) {
    forall k: Key :: (k in existing <==> w.At(c.SlotOf(k)).Some? && Listed(c, k, w.At(c.SlotOf(k)).value))
                     && (k in existing ==> existing[k] == w.At(c.SlotOf(k)).value)
  }

  lemma {:induction false} ProbeFinds(c: Ctx, w: World, ks: seq<Key>)
    ensures var (w', acc) := Probe(c, w, ks);
            && w'.objs == w.objs && w'.log == w.log
            && (acc.Some? ==> forall k: Key ::
                  (k in acc.value <==> k in ks && w.At(c.SlotOf(k)).Some?)
                  && (k in acc.value ==> acc.value[k] == w.At(c.SlotOf(k)).value))
  {
    if ks != [] {
      ProbeFinds(c, w, ks[..|ks| - 1]);
      assert ks == ks[..|ks| - 1] + [ks[|ks| - 1]];
    }
  }

  /** Both ways of listing find what `Listed` says, and reading changes nothing. */
  lemma ListFinds(c: Ctx, w: World, plan: Plan)
    requires ProbeFor(c, plan)
    ensures var (w', existing) := List(c, w, plan.probe);
            && w'.objs == w.objs && w'.log == w.log
            && (existing.Some? ==> IsListing(c, w, existing.value))
  {
    if c.selector.None? {
      ProbeFinds(c, w, plan.probe);
    } else {
      var listing := SelectorListing(c, w);
      forall k: Key | w.At(c.SlotOf(k)).Some? && Listed(c, k, w.At(c.SlotOf(k)).value)
        ensures k in listing && listing[k] == w.At(c.SlotOf(k)).value
      {
        assert c.SlotOf(k) in w.objs;
      }
    }
  }

  // ----- the whole run -----

  /** No pass loses an error, and none touches a slot of another kind. */
  lemma RunFrame(c: Ctx, w: World, existing: map<Key, Obj>, plan: Plan)
    requires PlanFor(c, existing, plan)
    ensures var p1, p2 := AfterCreate(c, w, existing, plan), AfterUpdate(c, w, existing, plan);
            var p3, p4 := AfterPrune(c, w, existing, plan), AfterClear(c, w, existing, plan);
            var p5 := Run(c, w, existing, plan);
            && p1.errs <= p2.errs <= p3.errs <= p4.errs <= p5.errs
            && p3.toReplace == p2.toReplace && p4.toReplace == p2.toReplace
            && (forall s: Slot :: s.gk != c.gvk.GroupKind() ==> p5.w.At(s) == w.At(s))
  {
    var p0 := Pass(w, existing, plan.toUpdate, [], 0);
    var p1, p2 := AfterCreate(c, w, existing, plan), AfterUpdate(c, w, existing, plan);
    var p3, p4 := AfterPrune(c, w, existing, plan), AfterClear(c, w, existing, plan);
    CreateAllFrame(c, p0, plan.toCreate);
    UpdateAllFrame(c, p1, p1.toUpdate);
    DeleteAllFrame(c, p2, plan.toDelete);
    DeleteAllFrame(c, p3, p3.toReplace);
    CreateAllFrame(c, p4, p4.toReplace);
    assert Run(c, w, existing, plan) == CreateAll(c, p4, p4.toReplace);
    forall s: Slot | s.gk != c.gvk.GroupKind() ensures Run(c, w, existing, plan).w.At(s) == w.At(s) {
      assert p1.w.At(s) == p0.w.At(s);
      assert p2.w.At(s) == p1.w.At(s);
      assert p3.w.At(s) == p2.w.At(s);
      assert p4.w.At(s) == p3.w.At(s);
    }
  }

  /** No key is queued twice, so the pass lemmas above apply. */
  lemma QueuesAreDistinct(c: Ctx, w: World, existing: map<Key, Obj>, plan: Plan)
    requires PlanFor(c, existing, plan) && Run(c, w, existing, plan).errs == 0
    ensures NoDup(AfterCreate(c, w, existing, plan).toUpdate)
    ensures NoDup(AfterUpdate(c, w, existing, plan).toReplace)
  {
    var p0 := Pass(w, existing, plan.toUpdate, [], 0);
    var p1 := AfterCreate(c, w, existing, plan);
    CreateQueueDistinct(c, p0, plan.toCreate);
    UpdateQueueDistinct(c, p1, p1.toUpdate);
  }

  lemma {:induction false} CreateQueueDistinct(c: Ctx, p: Pass, ks: seq<Key>)
    requires WellKeyed(c, p) && forall k :: k in ks ==> k in c.objs
    requires NoDup(p.toUpdate) && NoDup(ks) && Apart(p.toUpdate, ks)
    ensures NoDup(CreateAll(c, p, ks).toUpdate)
    ensures forall k :: k in CreateAll(c, p, ks).toUpdate ==> k in p.toUpdate || k in ks
  {
    if ks != [] {
      NoDupInit(ks);
      CreateQueueDistinct(c, p, ks[..|ks| - 1]);
    }
  }

  lemma {:induction false} UpdateQueueDistinct(c: Ctx, p: Pass, ks: seq<Key>)
    requires WellKeyed(c, p) && forall k :: k in ks ==> k in c.objs && k in p.existing
    requires NoDup(p.toReplace) && NoDup(ks) && Apart(p.toReplace, ks)
    ensures NoDup(UpdateAll(c, p, ks).toReplace)
    ensures forall k :: k in UpdateAll(c, p, ks).toReplace ==> k in p.toReplace || k in ks
  {
    if ks != [] {
      NoDupInit(ks);
      UpdateQueueDistinct(c, p, ks[..|ks| - 1]);
    }
  }

  lemma UndesiredUntilPrune(c: Ctx, w: World, existing: map<Key, Obj>, plan: Plan, k: Key)
    requires PlanFor(c, existing, plan) && k !in c.objs
    ensures AfterUpdate(c, w, existing, plan).w.At(c.SlotOf(k)) == w.At(c.SlotOf(k))
  {
    var p0 := Pass(w, existing, plan.toUpdate, [], 0);
    var p1 := AfterCreate(c, w, existing, plan);
    CreateAllFrame(c, p0, plan.toCreate);
    assert p1.w.At(c.SlotOf(k)) == w.At(c.SlotOf(k));
    UpdateAllFrame(c, p1, p1.toUpdate);
  }

  lemma PrunedAt(c: Ctx, w: World, existing: map<Key, Obj>, plan: Plan, k: Key)
    requires PlanFor(c, existing, plan) && IsListing(c, w, existing)
    requires Run(c, w, existing, plan).errs == 0 && k !in c.objs
    ensures AfterPrune(c, w, existing, plan).w.At(c.SlotOf(k)) == Unwanted(c, k, w.At(c.SlotOf(k)))
  {
    RunFrame(c, w, existing, plan);
    UndesiredUntilPrune(c, w, existing, plan, k);
    if !c.noPrune {
      var p2 := AfterUpdate(c, w, existing, plan);
      DeleteAllFrame(c, p2, plan.toDelete);
      DeleteAllAt(c, p2, plan.toDelete, k);
    }
  }

  lemma RunAtUnwanted(c: Ctx, w: World, existing: map<Key, Obj>, plan: Plan, k: Key)
    requires PlanFor(c, existing, plan) && IsListing(c, w, existing)
    requires Run(c, w, existing, plan).errs == 0 && k !in c.objs
    ensures Run(c, w, existing, plan).w.At(c.SlotOf(k)) == Unwanted(c, k, w.At(c.SlotOf(k)))
  {
    var p3, p4 := AfterPrune(c, w, existing, plan), AfterClear(c, w, existing, plan);
    PrunedAt(c, w, existing, plan, k);
    DeleteAllFrame(c, p3, p3.toReplace);
    CreateAllFrame(c, p4, p4.toReplace);
    var s := c.SlotOf(k);
    assert p4.w.At(s) == p3.w.At(s);
    assert Run(c, w, existing, plan).w.At(s) == p4.w.At(s);
  }

  /** The state of a desired key once the create and update passes are over. */
  lemma UpdatedAt(c: Ctx, w: World, existing: map<Key, Obj>, plan: Plan, k: Key)
    requires PlanFor(c, existing, plan) && IsListing(c, w, existing)
    requires Run(c, w, existing, plan).errs == 0 && k in c.objs
    ensures var p3, at := AfterPrune(c, w, existing, plan), w.At(c.SlotOf(k));
            var want := c.objs[k];
            var looked := at.Some? && Considered(c, k, at.value) && want.Should(AnnotationUpdate);
            && (at.None? ==>
                  && k !in p3.toReplace
                  && p3.w.At(c.SlotOf(k)) ==
                     if want.Should(AnnotationCreate) then Some(Fresh(Prepare(c.rules, want))) else None)
            && (at.Some? ==>
                  && (looked ==> !c.rules.compare(at.value, want).CompareFailed?)
                  && p3.w.At(c.SlotOf(k)) == (if looked then Merged(c.rules.compare(at.value, want), at) else at)
                  && (k in p3.toReplace <==>
                        looked && c.rules.compare(at.value, want).Replace? && MayReplace(at.value, want)))
  {
    var p0 := Pass(w, existing, plan.toUpdate, [], 0);
    var p1, p2 := AfterCreate(c, w, existing, plan), AfterUpdate(c, w, existing, plan);
    var p3 := AfterPrune(c, w, existing, plan);
    RunFrame(c, w, existing, plan);
    QueuesAreDistinct(c, w, existing, plan);
    var s := c.SlotOf(k);
    CreateAllFrame(c, p0, plan.toCreate);
    CreateAllAt(c, p0, plan.toCreate, k);
    assert k !in plan.toCreate ==> p1.w.At(s) == w.At(s) && p1.Existing(k) == p0.Existing(k);
    UpdateAllFrame(c, p1, p1.toUpdate);
    UpdateAllAt(c, p1, p1.toUpdate, k);
    assert k !in p1.toUpdate ==> p2.w.At(s) == p1.w.At(s);
    DeleteAllFrame(c, p2, plan.toDelete);
    assert k !in plan.toDelete;
    assert p3.w.At(s) == p2.w.At(s);
    if k in p1.toUpdate {
      assert p1.Existing(k) == w.At(s);
    }
  }

  lemma RunAtWanted(c: Ctx, w: World, existing: map<Key, Obj>, plan: Plan, k: Key)
    requires PlanFor(c, existing, plan) && IsListing(c, w, existing)
    requires Run(c, w, existing, plan).errs == 0 && k in c.objs
    ensures Run(c, w, existing, plan).w.At(c.SlotOf(k)) == Wanted(c, k, w.At(c.SlotOf(k)))
  {
    var p3, p4 := AfterPrune(c, w, existing, plan), AfterClear(c, w, existing, plan);
    RunFrame(c, w, existing, plan);
    QueuesAreDistinct(c, w, existing, plan);
    UpdatedAt(c, w, existing, plan, k);
    var s := c.SlotOf(k);
    DeleteAllFrame(c, p3, p3.toReplace);
    DeleteAllAt(c, p3, p3.toReplace, k);
    CreateAllFrame(c, p4, p4.toReplace);
    CreateAllAt(c, p4, p4.toReplace, k);
    if k !in p3.toReplace {
      assert p4.w.At(s) == p3.w.At(s);
      assert Run(c, w, existing, plan).w.At(s) == p4.w.At(s);
    }
  }

  /** A comparison that fails is always reported. */
  lemma NoFailedComparison(c: Ctx, w: World, plan: Plan, k: Key)
    requires Follows(c, w, plan) && Outcome(c, w, plan).1 == 0 && k in c.objs
    requires w.At(c.SlotOf(k)).Some? && Considered(c, k, w.At(c.SlotOf(k)).value) && c.objs[k].Should(AnnotationUpdate)
    ensures !c.rules.compare(w.At(c.SlotOf(k)).value, c.objs[k]).CompareFailed?
  {
    var (w1, listing) := List(c, w, plan.probe);
    ListFinds(c, w, plan);
    assert forall x: Slot :: w1.At(x) == w.At(x);
    UpdatedAt(c, w1, listing.value, plan, k);
  }

  /**
   * The passes refine the per-slot decision: when `process` reports no error, every slot of the server holds what
   * the decision about that slot says, so the outcome does not depend on the order of the passes.
   */
  lemma ProcessDecides(c: Ctx, w: World, plan: Plan, s: Slot)
    requires Follows(c, w, plan) && Outcome(c, w, plan).1 == 0
    ensures Outcome(c, w, plan).0.At(s) == Decide(c, s, w.At(s))
  {
    var (w1, listing) := List(c, w, plan.probe);
    var existing := listing.value;
    ListFinds(c, w, plan);
    assert IsListing(c, w1, existing) by {
      assert forall x: Slot :: w1.At(x) == w.At(x);
    }
    RunFrame(c, w1, existing, plan);
    assert w1.At(s) == w.At(s);
    if s.gk == c.gvk.GroupKind() {
      assert s == c.SlotOf(s.key);
      if s.key in c.objs {
        RunAtWanted(c, w1, existing, plan, s.key);
      } else {
        RunAtUnwanted(c, w1, existing, plan, s.key);
      }
    }
  }
}
