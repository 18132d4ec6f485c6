/** Idempotence: applying the same objects again to what a successful apply left changes nothing on the server. */
module Idempotence {
  import opened Kube
  import opened Server
  import opened Process
  import opened Ownership
  import opened Reconcile
  import opened Normalise
  import opened Apply
  import opened Convergence

  /**
   * What is assumed of the merge library: merging twice, or comparing an object with what it was created from, finds
   * nothing to do, and a deletion timestamp does not turn a replacement into something else.
   */
  ghost predicate Settles(rules: Rules) {
    forall live, want :: SettlesAt(rules, live, want)
  }

  ghost predicate SettlesAt(rules: Rules, live: Obj, want: Obj) {
    && rules.compare(Fresh(Prepare(rules, want)), want).Unchanged?
    && match rules.compare(live, want)
       case Patched(merged) => rules.compare(merged, want).Unchanged?
       case Replace => rules.compare(live.(deleting := true), want).Replace?
       case _ => true
  }

  /** A merge that puts the desired labels and annotations over the live ones. */
  function PutOver(live: Obj, want: Obj): Verdict {
    var merged := live.(labels := live.labels + want.labels,
                        annotations := live.annotations + (want.annotations - {LabelApplied}));
    if merged == live then Unchanged else Verdict.Patched(merged)
  }

  /** The laws assumed of the merge library are met by such a merge, together. */
  lemma PutOverMeetsTheLaws(rules: Rules)
    requires rules.compare == PutOver
    ensures Merges(rules) && Settles(rules)
  {
    forall live, want ensures MergeAt(rules, live, want) && SettlesAt(rules, live, want) {
      PutOverTwice(live, want);
      var made := Fresh(Prepare(rules, want));
      assert made.labels + want.labels == made.labels;
      assert made.annotations + (want.annotations - {LabelApplied}) == made.annotations;
    }
  }

  lemma PutOverTwice(live: Obj, want: Obj)
    ensures PutOver(live, want).Unchanged? ==> Carries(live, want)
    ensures PutOver(live, want).Patched? ==>
              Carries(PutOver(live, want).merged, want) && PutOver(PutOver(live, want).merged, want).Unchanged?
  {
    var labels, annotations := live.labels + want.labels, live.annotations + (want.annotations - {LabelApplied});
    assert labels + want.labels == labels;
    assert annotations + (want.annotations - {LabelApplied}) == annotations;
    assert forall l :: l in want.annotations && l != LabelApplied ==>
        l in annotations && annotations[l] == want.annotations[l];
    assert forall l :: l in want.labels ==> l in labels && labels[l] == want.labels[l];
  }

  /** Processing a desired slot in this state changes nothing, even if calls fail. */
  ghost predicate StableWanted(c: Ctx, k: Key, at: Option<Obj>)
    requires k in c.objs
  {
    match at
    case None => !c.objs[k].Should(AnnotationCreate)
    case Some(live) =>
      Considered(c, k, live) && c.objs[k].Should(AnnotationUpdate) ==>
        match c.rules.compare(live, c.objs[k])
        case Patched(_) => false
        case Replace => MayReplace(live, c.objs[k]) ==> AfterDelete(live) == at
        case _ => true
  }

  ghost predicate Stable(c: Ctx, k: Key, at: Option<Obj>) {
    if k in c.objs then StableWanted(c, k, at) else Spared(c, k, at)
  }

  ghost predicate AllStable(c: Ctx, w: World) {
    forall k: Key :: Stable(c, k, w.At(c.SlotOf(k)))
  }

  lemma DecisionIsStable(c: Ctx, k: Key, at: Option<Obj>)
    requires Settles(c.rules)
    ensures Stable(c, k, Decide(c, c.SlotOf(k), at))
  {
    if k in c.objs {
      assert at.Some? ==> SettlesAt(c.rules, at.value, c.objs[k]);
      assert at.None? ==> SettlesAt(c.rules, c.objs[k], c.objs[k]);
    }
  }

  // ----- a stable world stays as it is -----

  lemma {:induction false} CreateAllStable(c: Ctx, p: Pass, ks: seq<Key>)
    requires WellKeyed(c, p) && forall k :: k in ks ==> k in c.objs
    requires forall k :: k in ks ==> p.w.At(c.SlotOf(k)).Some?
    ensures var q := CreateAll(c, p, ks);
            && q.w.objs == p.w.objs
            && forall k :: k in q.toUpdate ==> k in p.toUpdate || (k in ks && c.objs[k].Should(AnnotationUpdate))
    ensures forall k: Key :: CreateAll(c, p, ks).Existing(k) == p.Existing(k)
                             || CreateAll(c, p, ks).Existing(k) == p.w.At(c.SlotOf(k))
  {
    if ks != [] {
      CreateAllStable(c, p, ks[..|ks| - 1]);
      assert ks[|ks| - 1] in ks;
      assert CreateAll(c, p, ks[..|ks| - 1]).w.At(c.SlotOf(ks[|ks| - 1])) == p.w.At(c.SlotOf(ks[|ks| - 1]));
    }
  }

  lemma {:induction false} UpdateAllStable(c: Ctx, p: Pass, ks: seq<Key>)
    requires WellKeyed(c, p) && forall k :: k in ks ==> k in c.objs && k in p.existing
    requires forall k :: k in ks ==> !c.rules.compare(p.existing[k], c.objs[k]).Patched?
    ensures var q := UpdateAll(c, p, ks);
            && q.w.objs == p.w.objs
            && forall k :: k in q.toReplace ==>
                 || k in p.toReplace
                 || (k in ks && c.rules.compare(p.existing[k], c.objs[k]).Replace? && MayReplace(p.existing[k], c.objs[k]))
  {
    if ks != [] {
      UpdateAllStable(c, p, ks[..|ks| - 1]);
    }
  }

  lemma {:induction false} DeleteAllStable(c: Ctx, p: Pass, ks: seq<Key>)
    requires forall k :: k in ks ==> p.w.At(c.SlotOf(k)).Some?
                                     && AfterDelete(p.w.At(c.SlotOf(k)).value) == p.w.At(c.SlotOf(k))
    ensures DeleteAll(c, p, ks).w.objs == p.w.objs
  {
    if ks != [] {
      DeleteAllStable(c, p, ks[..|ks| - 1]);
      assert ks[|ks| - 1] in ks;
      assert DeleteAll(c, p, ks[..|ks| - 1]).w.At(c.SlotOf(ks[|ks| - 1])) == p.w.At(c.SlotOf(ks[|ks| - 1]));
    }
  }

  /** After the create pass every key queued for update is considered, and compared with what the server holds. */
  lemma StableCreate(c: Ctx, w: World, existing: map<Key, Obj>, plan: Plan)
    requires PlanFor(c, existing, plan) && IsListing(c, w, existing) && AllStable(c, w)
    ensures var p1 := AfterCreate(c, w, existing, plan);
            && p1.w.objs == w.objs
            && forall k :: k in p1.toUpdate ==>
                 p1.Existing(k) == w.At(c.SlotOf(k)) && w.At(c.SlotOf(k)).Some?
                 && Considered(c, k, w.At(c.SlotOf(k)).value) && c.objs[k].Should(AnnotationUpdate)
  {
    var p0 := Pass(w, existing, plan.toUpdate, [], 0);
    forall k | k in plan.toCreate ensures w.At(c.SlotOf(k)).Some? {
      assert Stable(c, k, w.At(c.SlotOf(k)));
    }
    CreateAllStable(c, p0, plan.toCreate);
    var p1 := AfterCreate(c, w, existing, plan);
    CreateAllFrame(c, p0, plan.toCreate);
    forall k | k in p1.toUpdate
      ensures p1.Existing(k) == w.At(c.SlotOf(k)) && Considered(c, k, w.At(c.SlotOf(k)).value)
    {
      assert k in p1.existing;
      if k in plan.toUpdate {
        assert p0.Existing(k) == w.At(c.SlotOf(k));
      }
    }
  }

  lemma StableUpdate(c: Ctx, w: World, existing: map<Key, Obj>, plan: Plan)
    requires PlanFor(c, existing, plan) && IsListing(c, w, existing) && AllStable(c, w)
    ensures var p2 := AfterUpdate(c, w, existing, plan);
            && p2.w.objs == w.objs
            && forall k :: k in p2.toReplace ==>
                 w.At(c.SlotOf(k)).Some? && AfterDelete(w.At(c.SlotOf(k)).value) == w.At(c.SlotOf(k))
  {
    StableCreate(c, w, existing, plan);
    var p1 := AfterCreate(c, w, existing, plan);
    forall k | k in p1.toUpdate
      ensures !c.rules.compare(p1.existing[k], c.objs[k]).Patched?
      ensures c.rules.compare(p1.existing[k], c.objs[k]).Replace? && MayReplace(p1.existing[k], c.objs[k]) ==>
                AfterDelete(w.At(c.SlotOf(k)).value) == w.At(c.SlotOf(k))
    {
      assert Stable(c, k, w.At(c.SlotOf(k)));
    }
    UpdateAllStable(c, p1, p1.toUpdate);
  }

  lemma RunStable(c: Ctx, w: World, existing: map<Key, Obj>, plan: Plan)
    requires PlanFor(c, existing, plan) && IsListing(c, w, existing) && AllStable(c, w)
    ensures Run(c, w, existing, plan).w.objs == w.objs
  {
    StableUpdate(c, w, existing, plan);
    var p2, p3, p4 := AfterUpdate(c, w, existing, plan), AfterPrune(c, w, existing, plan), AfterClear(c, w, existing, plan);
    if !c.noPrune {
      forall k ensures k !in plan.toDelete {
        assert Stable(c, k, w.At(c.SlotOf(k)));
      }
      assert plan.toDelete == [];
    }
    assert p3.w.objs == w.objs && p3.toReplace == p2.toReplace;
    forall k | k in p3.toReplace
      ensures p3.w.At(c.SlotOf(k)).Some? && AfterDelete(p3.w.At(c.SlotOf(k)).value) == p3.w.At(c.SlotOf(k))
    {
      assert p3.w.At(c.SlotOf(k)) == w.At(c.SlotOf(k));
    }
    DeleteAllStable(c, p3, p3.toReplace);
    forall k | k in p4.toReplace ensures p4.w.At(c.SlotOf(k)).Some? {
      assert p4.w.At(c.SlotOf(k)) == p3.w.At(c.SlotOf(k));
    }
    CreateAllStable(c, p4, p4.toReplace);
  }

  /** Whatever fails and whatever it reports, `process` leaves a stable world as it is. */
  lemma ProcessKeepsStable(c: Ctx, w: World, plan: Plan)
    requires Follows(c, w, plan) && AllStable(c, w)
    ensures Outcome(c, w, plan).0.objs == w.objs
  {
    var (w1, listing) := List(c, w, plan.probe);
    ListFinds(c, w, plan);
    if listing.Some? {
      assert forall x: Slot :: w1.At(x) == w.At(x);
      assert AllStable(c, w1) by {
        forall k: Key ensures Stable(c, k, w1.At(c.SlotOf(k))) {
          assert Stable(c, k, w.At(c.SlotOf(k)));
        }
      }
      RunStable(c, w1, listing.value, plan);
    }
  }

  // ----- a successful apply leaves a stable world -----

  /** No object is desired in two versions of its kind. */
  ghost predicate OneVersionEach(legs: seq<Leg>) {
    forall i, j, k ::
      0 <= i < |legs| && 0 <= j < |legs| && i != j && k in legs[i].objs && k in legs[j].objs ==>
        legs[i].gvk.GroupKind() != legs[j].gvk.GroupKind()
  }

  lemma FewerVersions(legs: seq<Leg>)
    requires OneVersionEach(legs) && legs != []
    ensures OneVersionEach(legs[..|legs| - 1])
  {
    assert forall i :: 0 <= i < |legs| - 1 ==> legs[..|legs| - 1][i] == legs[i];
  }

  ghost predicate Settled(cfg: Config, desired: ObjectMap, legs: seq<Leg>, w: World) {
    forall i :: 0 <= i < |legs| ==> AllStable(CtxFor(cfg, desired, legs[i].gvk, legs[i].objs), w)
  }

  lemma StableUnderOther(c: Ctx, d: Ctx, k: Key, at: Option<Obj>)
    requires Stable(c, k, at) && d.gvk.GroupKind() == c.gvk.GroupKind()
    requires k in c.objs ==> Shielded(d, k) && k !in d.objs
    requires k in d.objs ==> Shielded(c, k)
    ensures Stable(c, k, Decide(d, c.SlotOf(k), at))
  {
    if k !in c.objs {
      DecideSpares(c, d, k, at);
    }
  }

  lemma {:induction false} ApplySettles(cfg: Config, desired: ObjectMap, w: World, legs: seq<Leg>)
    requires ApplyRun(cfg, desired, w, legs) && ApplyAll(cfg, desired, w, legs).1 == 0
    requires Settles(cfg.rules) && SafeLegs(cfg, desired, legs) && OneVersionEach(legs)
    ensures Settled(cfg, desired, legs, ApplyAll(cfg, desired, w, legs).0)
  {
    if legs != [] {
      var init, leg := legs[..|legs| - 1], legs[|legs| - 1];
      LastLeg(cfg, desired, w, legs);
      FewerLegs(cfg, desired, w, legs);
      FewerVersions(legs);
      ApplySettles(cfg, desired, w, init);
      forall i | 0 <= i < |legs|
        ensures AllStable(CtxFor(cfg, desired, legs[i].gvk, legs[i].objs), ApplyAll(cfg, desired, w, legs).0)
      {
        if i < |init| {
          assert init[i] == legs[i];
          LegKeepsStable(cfg, desired, w, legs, i);
        } else {
          LegSettles(cfg, desired, w, legs);
        }
      }
    }
  }

  lemma LegSettles(cfg: Config, desired: ObjectMap, w: World, legs: seq<Leg>)
    requires ApplyRun(cfg, desired, w, legs) && ApplyAll(cfg, desired, w, legs).1 == 0 && legs != []
    requires Settles(cfg.rules)
    ensures var leg := legs[|legs| - 1];
            AllStable(CtxFor(cfg, desired, leg.gvk, leg.objs), ApplyAll(cfg, desired, w, legs).0)
  {
    var leg := legs[|legs| - 1];
    LastLeg(cfg, desired, w, legs);
    var c, w1 := CtxFor(cfg, desired, leg.gvk, leg.objs), ApplyAll(cfg, desired, w, legs[..|legs| - 1]).0;
    forall k: Key ensures Stable(c, k, ApplyAll(cfg, desired, w, legs).0.At(c.SlotOf(k))) {
      ProcessDecides(c, w1, leg.plan, c.SlotOf(k));
      DecisionIsStable(c, k, w1.At(c.SlotOf(k)));
    }
  }

  lemma LegKeepsStable(cfg: Config, desired: ObjectMap, w: World, legs: seq<Leg>, i: nat)
    requires ApplyRun(cfg, desired, w, legs) && ApplyAll(cfg, desired, w, legs).1 == 0
    requires SafeLegs(cfg, desired, legs) && OneVersionEach(legs) && i < |legs| - 1
    requires AllStable(CtxFor(cfg, desired, legs[i].gvk, legs[i].objs), ApplyAll(cfg, desired, w, legs[..|legs| - 1]).0)
    ensures AllStable(CtxFor(cfg, desired, legs[i].gvk, legs[i].objs), ApplyAll(cfg, desired, w, legs).0)
  {
    var leg := legs[|legs| - 1];
    LastLeg(cfg, desired, w, legs);
    var c, d := CtxFor(cfg, desired, legs[i].gvk, legs[i].objs), CtxFor(cfg, desired, leg.gvk, leg.objs);
    var w1 := ApplyAll(cfg, desired, w, legs[..|legs| - 1]).0;
    forall k: Key ensures Stable(c, k, ApplyAll(cfg, desired, w, legs).0.At(c.SlotOf(k))) {
      assert Stable(c, k, w1.At(c.SlotOf(k)));
      ProcessDecides(d, w1, leg.plan, c.SlotOf(k));
      if d.gvk.GroupKind() == c.gvk.GroupKind() {
        assert k in legs[i].objs ==> k !in leg.objs;
        assert SafeFrom(cfg, desired, legs[i], leg) && SafeFrom(cfg, desired, leg, legs[i]);
        assert Shielded(c, k) <==> Shielded(d, k);
        StableUnderOther(c, d, k, w1.At(c.SlotOf(k)));
      }
    }
  }

  // ----- applying again -----

  /** The second apply processes the same kinds with the same normalised objects, in any order of its passes. */
  ghost predicate SameObjects(cfg: Config, legs: seq<Leg>, again: seq<Leg>) {
    forall j :: 0 <= j < |again| && KnownScope(cfg, again[j].gvk) ==> HasLeg(legs, again[j].gvk, again[j].objs)
  }

  ghost predicate HasLeg(legs: seq<Leg>, g: GVK, objs: map<Key, Obj>) {
    exists i :: 0 <= i < |legs| && legs[i].gvk == g && legs[i].objs == objs
  }

  lemma {:induction false} ApplyKeepsSettled(cfg: Config, faults: Faults, desired: ObjectMap, legs: seq<Leg>, w: World,
                                             again: seq<Leg>)
    requires Settled(cfg, desired, legs, w) && SameObjects(cfg, legs, again)
    requires ApplyRun(cfg.(faults := faults), desired, w, again)
    ensures ApplyAll(cfg.(faults := faults), desired, w, again).0.objs == w.objs
  {
    if again != [] {
      var cfg', init, leg := cfg.(faults := faults), again[..|again| - 1], again[|again| - 1];
      assert SameObjects(cfg, legs, init) by {
        assert forall j :: 0 <= j < |init| ==> init[j] == again[j];
      }
      ApplyKeepsSettled(cfg, faults, desired, legs, w, init);
      var w1 := ApplyAll(cfg', desired, w, init).0;
      if KnownScope(cfg', leg.gvk) {
        assert HasLeg(legs, leg.gvk, leg.objs);
        SettledLeg(cfg, faults, desired, legs, w, w1, leg);
        ProcessKeepsStable(CtxFor(cfg', desired, leg.gvk, leg.objs), w1, leg.plan);
      }
    }
  }

  lemma SettledLeg(cfg: Config, faults: Faults, desired: ObjectMap, legs: seq<Leg>, w: World, w1: World, leg: Leg)
    requires Settled(cfg, desired, legs, w) && HasLeg(legs, leg.gvk, leg.objs) && w1.objs == w.objs
    ensures AllStable(CtxFor(cfg.(faults := faults), desired, leg.gvk, leg.objs), w1)
  {
    var c, c' := CtxFor(cfg, desired, leg.gvk, leg.objs), CtxFor(cfg.(faults := faults), desired, leg.gvk, leg.objs);
    assert AllStable(c, w);
    forall k: Key ensures Stable(c', k, w1.At(c'.SlotOf(k))) {
      assert Stable(c, k, w.At(c.SlotOf(k)));
    }
  }

  /** No two objects of a cluster-scoped kind clash when their namespaces are cleared. */
  ghost predicate NoClashes(cfg: Config, desired: ObjectMap) {
    forall g, k1, k2 :: !cfg.scope(g).NamespacedScope? ==> !Clash(OwnerAssigned(cfg, g, Objects(desired, g)), k1, k2)
  }

  /** Normalising is then a function of what was declared. */
  lemma NormalFormIsUnique(cfg: Config, desired: ObjectMap, g: GVK, a: map<Key, Obj>, b: map<Key, Obj>)
    requires NoClashes(cfg, desired)
    requires NormalForm(cfg, g, Objects(desired, g), a) && NormalForm(cfg, g, Objects(desired, g), b)
    ensures a == b
  {
    if !cfg.scope(g).NamespacedScope? {
      ClearIsUniqueWithoutClash(OwnerAssigned(cfg, g, Objects(desired, g)), a, b);
    }
  }

  /** The second apply processes no kind the first one did not. */
  ghost predicate SameKinds(legs: seq<Leg>, again: seq<Leg>) {
    forall j :: 0 <= j < |again| ==> exists i :: 0 <= i < |legs| && legs[i].gvk == again[j].gvk
  }

  lemma SameSetSameObjects(cfg: Config, faults: Faults, desired: ObjectMap, w: World, legs: seq<Leg>,
                           w': World, again: seq<Leg>)
    requires NoClashes(cfg, desired) && SameKinds(legs, again)
    requires ApplyRun(cfg, desired, w, legs) && ApplyRun(cfg.(faults := faults), desired, w', again)
    ensures SameObjects(cfg, legs, again)
  {
    forall j | 0 <= j < |again| && KnownScope(cfg, again[j].gvk) ensures HasLeg(legs, again[j].gvk, again[j].objs) {
      var i :| 0 <= i < |legs| && legs[i].gvk == again[j].gvk;
      RunIsNormal(cfg, desired, w, legs, i);
      RunIsNormal(cfg.(faults := faults), desired, w', again, j);
      NormalFormIsUnique(cfg, desired, again[j].gvk, legs[i].objs, again[j].objs);
    }
  }

  /**
   * A second apply of the same set, against what a successful first one left, changes no object, whatever calls fail and
   * whatever errors it reports; objects that linger with a deletion timestamp are no exception.
   */
  lemma ApplyIsIdempotent(cfg: Config, faults: Faults, desired: ObjectMap, w: World, legs: seq<Leg>,
                          w': World, again: seq<Leg>)
    requires ApplyRun(cfg, desired, w, legs) && ApplyAll(cfg, desired, w, legs).1 == 0
    requires Settles(cfg.rules) && SafeLegs(cfg, desired, legs) && OneVersionEach(legs) && NoClashes(cfg, desired)
    requires w'.objs == ApplyAll(cfg, desired, w, legs).0.objs
    requires SameKinds(legs, again) && ApplyRun(cfg.(faults := faults), desired, w', again)
    ensures ApplyAll(cfg.(faults := faults), desired, w', again).0.objs == w'.objs
  {
    ApplySettles(cfg, desired, w, legs);
    var w1 := ApplyAll(cfg, desired, w, legs).0;
    forall i | 0 <= i < |legs| ensures AllStable(CtxFor(cfg, desired, legs[i].gvk, legs[i].objs), w') {
      var c := CtxFor(cfg, desired, legs[i].gvk, legs[i].objs);
      forall k: Key ensures Stable(c, k, w'.At(c.SlotOf(k))) {
        assert Stable(c, k, w1.At(c.SlotOf(k)));
      }
    }
    SameSetSameObjects(cfg, faults, desired, w, legs, w', again);
    ApplyKeepsSettled(cfg, faults, desired, legs, w', again);
  }

  /** Two versions that desire an object with different labels are never both content with it. */
  lemma TwoVersionsDisagree(c: Ctx, d: Ctx, k: Key, live: Obj, l: Label)
    requires c.rules == d.rules && c.rules.compare == PutOver && k in c.objs && k in d.objs
    requires OptsIn(c.objs[k]) && OptsIn(d.objs[k])
    requires l in c.objs[k].labels && l in d.objs[k].labels && c.objs[k].labels[l] != d.objs[k].labels[l]
    ensures !Stable(c, k, Some(live)) || !Stable(d, k, Some(live))
  {
    PutOverTwice(live, c.objs[k]);
    PutOverTwice(live, d.objs[k]);
  }
}
