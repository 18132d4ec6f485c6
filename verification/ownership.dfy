/**
 * Ownership: no pass of `process` patches, replaces or deletes an object another owner holds, whatever calls fail.
 */
module Ownership {
  import opened Kube
  import opened Server
  import opened Process

  /** The engine may change an object it holds, or one the takeover test lets it have. */
  predicate MayTouch(c: Ctx, k: Key, live: Obj) {
    || (c.selector.Some? && live.Label(LabelHash) == c.selector.value)
    || (k in c.objs && MayTakeOver(c.rules, live, c.objs[k]))
  }

  /** Only a desired object, to be replaced, or one that no version of the kind declares, if pruning is on. */
  predicate MayDelete(c: Ctx, k: Key) {
    k in c.objs || (!c.noPrune && !Shielded(c, k))
  }

  predicate Licensed(c: Ctx, e: Event) {
    && e.slot.gk == c.gvk.GroupKind()
    && match e
       case Created(s, _) => s.key in c.objs
       case Patched(s, before, _) => s.key in c.objs && MayTouch(c, s.key, before)
       case Deleted(s, before) => MayTouch(c, s.key, before) && MayDelete(c, s.key)
  }

  /** Everything done between the two worlds is on the log and licensed. */
  ghost predicate Lawful(c: Ctx, w: World, w': World) {
    Grew(w, w') && forall i :: |w.log| <= i < |w'.log| ==> Licensed(c, w'.log[i])
  }

  lemma LawfulTransitive(c: Ctx, a: World, b: World, d: World)
    requires Lawful(c, a, b) && Lawful(c, b, d)
    ensures Lawful(c, a, d)
  {
    GrewTransitive(a, b, d);
    forall i | |a.log| <= i < |d.log| ensures Licensed(c, d.log[i]) {
      if i < |b.log| {
        assert d.log[i] == d.log[..|b.log|][i] == b.log[i];
      }
    }
  }

  lemma LawfulByOne(c: Ctx, w: World, w': World, e: Event)
    requires w'.log == w.log + [e] && Truthful(w.objs, e) && w'.objs == Redo(w.objs, e) && Licensed(c, e)
    ensures Lawful(c, w, w')
  {
    GrewByOne(w, w', e);
  }

  lemma LawfulByNone(c: Ctx, w: World, w': World)
    requires w'.log == w.log && w'.objs == w.objs
    ensures Lawful(c, w, w')
  {
    GrewByNone(w, w');
  }

  // ----- frames -----

  /** A pass over `ks` leaves all other slots and all other listed objects alone, and never loses an error. */
  ghost predicate OnlyAt(c: Ctx, p: Pass, q: Pass, ks: seq<Key>) {
    && p.errs <= q.errs
    && (forall s: Slot :: s.gk != c.gvk.GroupKind() || s.key !in ks ==> q.w.At(s) == p.w.At(s))
    && (forall k: Key :: k !in ks ==> q.Existing(k) == p.Existing(k))
  }

  lemma OnlyAtStep(c: Ctx, p: Pass, q: Pass, r: Pass, ks: seq<Key>)
    requires ks != [] && OnlyAt(c, p, q, ks[..|ks| - 1]) && OnlyAt(c, q, r, [ks[|ks| - 1]])
    ensures OnlyAt(c, p, r, ks)
  {
    forall k: Key | k !in ks ensures k !in ks[..|ks| - 1] && k !in [ks[|ks| - 1]] {}
  }

  lemma CreateStepFrame(c: Ctx, p: Pass, k: Key)
    requires k in c.objs
    ensures OnlyAt(c, p, CreateStep(c, p, k), [k])
  {}

  lemma UpdateStepFrame(c: Ctx, p: Pass, k: Key)
    requires k in c.objs && k in p.existing
    ensures OnlyAt(c, p, UpdateStep(c, p, k), [k])
  {}

  lemma DeleteStepFrame(c: Ctx, p: Pass, k: Key)
    ensures OnlyAt(c, p, DeleteStep(c, p, k), [k])
  {}

  lemma {:induction false} CreateAllFrame(c: Ctx, p: Pass, ks: seq<Key>)
    requires WellKeyed(c, p) && forall k :: k in ks ==> k in c.objs
    ensures OnlyAt(c, p, CreateAll(c, p, ks), ks)
  {
    if ks != [] {
      var q := CreateAll(c, p, ks[..|ks| - 1]);
      CreateAllFrame(c, p, ks[..|ks| - 1]);
      CreateStepFrame(c, q, ks[|ks| - 1]);
      OnlyAtStep(c, p, q, CreateAll(c, p, ks), ks);
    }
  }

  lemma {:induction false} UpdateAllFrame(c: Ctx, p: Pass, ks: seq<Key>)
    requires WellKeyed(c, p) && forall k :: k in ks ==> k in c.objs && k in p.existing
    ensures OnlyAt(c, p, UpdateAll(c, p, ks), ks)
  {
    if ks != [] {
      var q := UpdateAll(c, p, ks[..|ks| - 1]);
      UpdateAllFrame(c, p, ks[..|ks| - 1]);
      UpdateStepFrame(c, q, ks[|ks| - 1]);
      OnlyAtStep(c, p, q, UpdateAll(c, p, ks), ks);
    }
  }

  lemma {:induction false} DeleteAllFrame(c: Ctx, p: Pass, ks: seq<Key>)
    ensures OnlyAt(c, p, DeleteAll(c, p, ks), ks)
  {
    if ks != [] {
      var q := DeleteAll(c, p, ks[..|ks| - 1]);
      DeleteAllFrame(c, p, ks[..|ks| - 1]);
      DeleteStepFrame(c, q, ks[|ks| - 1]);
      OnlyAtStep(c, p, q, DeleteAll(c, p, ks), ks);
    }
  }

  // ----- snapshots -----

  /** What was listed or taken over at this key is still what the server holds, and the engine may change it. */
  ghost predicate Current(c: Ctx, p: Pass, k: Key) {
    && p.Existing(k).Some?
    && p.w.At(c.SlotOf(k)) == p.Existing(k)
    && MayTouch(c, k, p.existing[k])
  }

  ghost predicate AllCurrent(c: Ctx, p: Pass, ks: seq<Key>) {
    NoDup(ks) && forall k :: k in ks ==> Current(c, p, k)
  }

  ghost predicate Apart(a: seq<Key>, b: seq<Key>) {
    forall k :: k in a ==> k !in b
  }

  lemma StaysCurrent(c: Ctx, p: Pass, q: Pass, ks: seq<Key>, touched: seq<Key>)
    requires AllCurrent(c, p, ks) && OnlyAt(c, p, q, touched) && Apart(ks, touched)
    ensures AllCurrent(c, q, ks)
  {
    forall k | k in ks ensures Current(c, q, k) {
      assert k !in touched;
      assert q.Existing(k) == p.Existing(k);
      assert q.w.At(c.SlotOf(k)) == p.w.At(c.SlotOf(k));
    }
  }

  lemma {:induction false} CreateAllLawful(c: Ctx, p: Pass, ks: seq<Key>)
    requires WellKeyed(c, p) && NoDup(ks) && forall k :: k in ks ==> k in c.objs
    requires AllCurrent(c, p, p.toUpdate) && Apart(p.toUpdate, ks)
    ensures var q := CreateAll(c, p, ks);
            && Lawful(c, p.w, q.w)
            && AllCurrent(c, q, q.toUpdate)
            && (forall k :: k in q.toUpdate ==> k in p.toUpdate || k in ks)
  {
    if ks == [] {
      LawfulByNone(c, p.w, p.w);
    } else {
      var init, k := ks[..|ks| - 1], ks[|ks| - 1];
      NoDupInit(ks);
      CreateAllLawful(c, p, init);
      var q := CreateAll(c, p, init);
      var r := CreateStep(c, q, k);
      CreateStepFrame(c, q, k);
      assert k !in q.toUpdate;
      StaysCurrent(c, q, r, q.toUpdate, [k]);
      CreateStepLawful(c, q, k);
      LawfulTransitive(c, p.w, q.w, r.w);
    }
  }

  lemma CreateStepLawful(c: Ctx, q: Pass, k: Key)
    requires k in c.objs
    ensures var r := CreateStep(c, q, k);
            && Lawful(c, q.w, r.w)
            && (r.toUpdate == q.toUpdate || (r.toUpdate == q.toUpdate + [k] && Current(c, r, k)))
  {
    var r := CreateStep(c, q, k);
    if |r.w.log| == |q.w.log| {
      LawfulByNone(c, q.w, r.w);
    } else {
      LawfulByOne(c, q.w, r.w, r.w.log[|q.w.log|]);
    }
  }

  lemma UpdateStepLawful(c: Ctx, q: Pass, k: Key)
    requires k in c.objs && Current(c, q, k)
    ensures var r := UpdateStep(c, q, k);
            && Lawful(c, q.w, r.w)
            && (r.toReplace == q.toReplace || (r.toReplace == q.toReplace + [k] && r.w == q.w))
  {
    var r := UpdateStep(c, q, k);
    if |r.w.log| == |q.w.log| {
      LawfulByNone(c, q.w, r.w);
    } else {
      LawfulByOne(c, q.w, r.w, r.w.log[|q.w.log|]);
    }
  }

  lemma {:induction false} UpdateAllLawful(c: Ctx, p: Pass, ks: seq<Key>)
    requires WellKeyed(c, p) && forall k :: k in ks ==> k in c.objs && k in p.existing
    requires AllCurrent(c, p, ks) && AllCurrent(c, p, p.toReplace) && Apart(p.toReplace, ks)
    ensures var q := UpdateAll(c, p, ks);
            && Lawful(c, p.w, q.w)
            && AllCurrent(c, q, q.toReplace)
            && (forall k :: k in q.toReplace ==> k in p.toReplace || k in ks)
  {
    if ks == [] {
      LawfulByNone(c, p.w, p.w);
    } else {
      var init, k := ks[..|ks| - 1], ks[|ks| - 1];
      NoDupInit(ks);
      UpdateAllLawful(c, p, init);
      var q := UpdateAll(c, p, init);
      UpdateAllFrame(c, p, init);
      StaysCurrent(c, p, q, [k], init);
      assert Current(c, q, k) by { assert k in [k]; }
      UpdateKeepsQueue(c, q, k);
      LawfulTransitive(c, p.w, q.w, UpdateStep(c, q, k).w);
    }
  }

  lemma UpdateKeepsQueue(c: Ctx, q: Pass, k: Key)
    requires k in c.objs && Current(c, q, k) && AllCurrent(c, q, q.toReplace) && k !in q.toReplace
    ensures var r := UpdateStep(c, q, k);
            && Lawful(c, q.w, r.w)
            && AllCurrent(c, r, r.toReplace)
            && (forall x :: x in r.toReplace ==> x in q.toReplace || x == k)
  {
    var r := UpdateStep(c, q, k);
    UpdateStepFrame(c, q, k);
    UpdateStepLawful(c, q, k);
    StaysCurrent(c, q, r, q.toReplace, [k]);
  }

  lemma {:induction false} DeleteAllLawful(c: Ctx, p: Pass, ks: seq<Key>)
    requires AllCurrent(c, p, ks) && forall k :: k in ks ==> MayDelete(c, k)
    ensures Lawful(c, p.w, DeleteAll(c, p, ks).w)
  {
    if ks == [] {
      LawfulByNone(c, p.w, p.w);
    } else {
      var init, k := ks[..|ks| - 1], ks[|ks| - 1];
      NoDupInit(ks);
      DeleteAllLawful(c, p, init);
      var q := DeleteAll(c, p, init);
      var r := DeleteStep(c, q, k);
      DeleteAllFrame(c, p, init);
      StaysCurrent(c, p, q, [k], init);
      assert Current(c, q, k);
      if |r.w.log| == |q.w.log| {
        LawfulByNone(c, q.w, r.w);
      } else {
        LawfulByOne(c, q.w, r.w, Deleted(c.SlotOf(k), q.w.objs[c.SlotOf(k)]));
      }
      LawfulTransitive(c, p.w, q.w, r.w);
    }
  }

  /** Recreating what was just deleted only creates; whatever lingered in its place is at most read. */
  lemma {:induction false} CreateAllOnlyCreates(c: Ctx, p: Pass, ks: seq<Key>)
    requires WellKeyed(c, p) && forall k :: k in ks ==> k in c.objs
    ensures Lawful(c, p.w, CreateAll(c, p, ks).w)
  {
    if ks == [] {
      LawfulByNone(c, p.w, p.w);
    } else {
      var q := CreateAll(c, p, ks[..|ks| - 1]);
      CreateAllOnlyCreates(c, p, ks[..|ks| - 1]);
      CreateStepLawful(c, q, ks[|ks| - 1]);
      LawfulTransitive(c, p.w, q.w, CreateAll(c, p, ks).w);
    }
  }

  /** Everything one `process` in selector mode does is licensed, whatever the order of its passes and the faults. */
  lemma ProcessIsLawful(c: Ctx, w: World, plan: Plan)
    requires c.selector.Some? && Follows(c, w, plan)
    ensures Lawful(c, w, Outcome(c, w, plan).0)
  {
    var (w1, listing) := List(c, w, plan.probe);
    LawfulByNone(c, w, w1);
    if listing.Some? {
      var existing := listing.value;
      RunIsLawful(c, w1, existing, plan);
      LawfulTransitive(c, w, w1, Run(c, w1, existing, plan).w);
    }
  }

  lemma RunIsLawful(c: Ctx, w: World, existing: map<Key, Obj>, plan: Plan)
    requires c.selector.Some? && existing == SelectorListing(c, w) && PlanFor(c, existing, plan)
    ensures Lawful(c, w, Run(c, w, existing, plan).w)
  {
    var p0 := Pass(w, existing, plan.toUpdate, [], 0);
    assert AllCurrent(c, p0, plan.toUpdate) && AllCurrent(c, p0, plan.toDelete);
    var p1 := AfterCreate(c, w, existing, plan);
    CreateAllLawful(c, p0, plan.toCreate);
    CreateAllFrame(c, p0, plan.toCreate);
    StaysCurrent(c, p0, p1, plan.toDelete, plan.toCreate);
    var p2 := AfterUpdate(c, w, existing, plan);
    UpdateAllLawful(c, p1, p1.toUpdate);
    UpdateAllFrame(c, p1, p1.toUpdate);
    StaysCurrent(c, p1, p2, plan.toDelete, p1.toUpdate);
    LawfulTransitive(c, w, p1.w, p2.w);
    var p3 := AfterPrune(c, w, existing, plan);
    if !c.noPrune {
      DeleteAllLawful(c, p2, plan.toDelete);
      DeleteAllFrame(c, p2, plan.toDelete);
      StaysCurrent(c, p2, p3, p2.toReplace, plan.toDelete);
      LawfulTransitive(c, w, p2.w, p3.w);
    }
    var p4 := AfterClear(c, w, existing, plan);
    DeleteAllLawful(c, p3, p3.toReplace);
    LawfulTransitive(c, w, p3.w, p4.w);
    CreateAllOnlyCreates(c, p4, p4.toReplace);
    LawfulTransitive(c, w, p4.w, Run(c, w, existing, plan).w);
  }
}
