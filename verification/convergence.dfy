/**
 * Convergence: what a successful apply leaves behind is what was asked for.
 */
module Convergence {
  import opened Kube
  import opened Server
  import opened Process
  import opened Reconcile
  import opened Normalise
  import opened Apply

  /** The desired labels and annotations are all there, but for the engine's own record, whatever else is. */
  ghost predicate Carries(live: Obj, want: Obj) {
    && (forall l :: l in want.labels ==> l in live.labels && live.labels[l] == want.labels[l])
    && (forall l :: l in want.annotations && l != LabelApplied ==>
          l in live.annotations && live.annotations[l] == want.annotations[l])
  }

  /** What is assumed of the merge library: an empty or applied patch means that the desired metadata is in place. */
  ghost predicate Merges(rules: Rules) {
    forall live, want :: MergeAt(rules, live, want)
  }

  ghost predicate MergeAt(rules: Rules, live: Obj, want: Obj) {
    match rules.compare(live, want)
    case Unchanged => Carries(live, want)
    case Patched(merged) =>
      Carries(merged, want) && merged.key == live.key
      && merged.finalizers == live.finalizers && merged.deleting == live.deleting
    case _ => true
  }

  predicate Owned(at: Option<Obj>, hash: string) {
    at.Some? && LabelHash in at.value.labels && at.value.labels[LabelHash] == hash
  }

  predicate OptsIn(want: Obj) {
    want.Should(AnnotationCreate) && want.Should(AnnotationUpdate)
  }

  /** A live object that has to be replaced cannot be: it, or the desired object, opts out, or it has finalizers. */
  predicate Blocked(c: Ctx, hash: string, k: Key, live: Obj)
    requires k in c.objs
  {
    && OptsIn(c.objs[k])
    && c.rules.compare(live, c.objs[k]).Replace?
    && (!MayReplace(live, c.objs[k]) || live.finalizers != [])
    && !Owned(Some(live), hash)
  }

  ghost predicate Stamps(c: Ctx, hash: string) {
    && c.selector == Some(hash)
    && (forall k :: k in c.objs ==> LabelHash in c.objs[k].labels && c.objs[k].labels[LabelHash] == hash)
  }

  // ----- one GVK -----

  /**
   * After a `process` that reports no error, a desired object that does not opt out is there with the owner's hash
   * exactly unless the live object it found was one it could not replace.
   */
  lemma ProcessConverges(c: Ctx, hash: string, w: World, plan: Plan, k: Key)
    requires Follows(c, w, plan) && Outcome(c, w, plan).1 == 0
    requires Merges(c.rules) && Stamps(c, hash) && k in c.objs && OptsIn(c.objs[k])
    ensures var at := w.At(c.SlotOf(k));
            Owned(Outcome(c, w, plan).0.At(c.SlotOf(k)), hash) <==> at.None? || !Blocked(c, hash, k, at.value)
  {
    var at := w.At(c.SlotOf(k));
    ProcessDecides(c, w, plan, c.SlotOf(k));
    if at.Some? {
      NoFailedComparison(c, w, plan, k);
    }
    WantedConverges(c, hash, k, at);
  }

  lemma WantedConverges(c: Ctx, hash: string, k: Key, at: Option<Obj>)
    requires Merges(c.rules) && Stamps(c, hash) && k in c.objs && OptsIn(c.objs[k])
    requires at.Some? ==> !c.rules.compare(at.value, c.objs[k]).CompareFailed?
    ensures Owned(Wanted(c, k, at), hash) <==> at.None? || !Blocked(c, hash, k, at.value)
  {
    if at.Some? {
      assert MergeAt(c.rules, at.value, c.objs[k]);
    }
  }

  // ----- the whole apply -----

  /** What one leg desires and another version of the kind does not, the other leg's cross-version filter protects. */
  ghost predicate SafeFrom(cfg: Config, desired: ObjectMap, a: Leg, b: Leg) {
    a.gvk.GroupKind() == b.gvk.GroupKind() ==>
      forall k :: k in a.objs && k !in b.objs ==> Shielded(CtxFor(cfg, desired, b.gvk, b.objs), k)
  }

  /** No desired object can be pruned through another version of its kind. */
  ghost predicate SafeLegs(cfg: Config, desired: ObjectMap, legs: seq<Leg>) {
    forall i, j :: 0 <= i < |legs| && 0 <= j < |legs| && i != j ==> SafeFrom(cfg, desired, legs[i], legs[j])
  }

  /** Some leg desires the slot and could not replace what was there at the start. */
  ghost predicate Stuck(cfg: Config, desired: ObjectMap, w: World, legs: seq<Leg>, s: Slot) {
    exists i :: 0 <= i < |legs| && StuckFor(cfg, desired, w, legs[i], s)
  }

  predicate StuckFor(cfg: Config, desired: ObjectMap, w: World, leg: Leg, s: Slot) {
    && leg.gvk.GroupKind() == s.gk && s.key in leg.objs && w.At(s).Some?
    && Blocked(CtxFor(cfg, desired, leg.gvk, leg.objs), IdentityHash(cfg), s.key, w.At(s).value)
  }

  function IdentityHash(cfg: Config): string {
    ObjectSetHash(IdentityOf(cfg).Annotations())
  }

  /** Seen from one leg, a slot it does not desire holds nothing that the leg would prune. */
  ghost predicate Spared(c: Ctx, k: Key, at: Option<Obj>) {
    at.None? || c.noPrune || !Listed(c, k, at.value) || !Prunable(c, at.value) || Shielded(c, k)
  }

  /** Every desired object that is not stuck is there with the owner's hash; what else has it is exempt from pruning. */
  ghost predicate Converged(cfg: Config, desired: ObjectMap, w: World, legs: seq<Leg>, w': World) {
    forall i, k: Key :: 0 <= i < |legs| ==>
      SlotConverged(cfg, desired, legs[i], w', k, Stuck(cfg, desired, w, legs, Slot(legs[i].gvk.GroupKind(), k)))
  }

  ghost predicate SlotConverged(cfg: Config, desired: ObjectMap, leg: Leg, w: World, k: Key, stuck: bool) {
    var c := CtxFor(cfg, desired, leg.gvk, leg.objs);
    if k in leg.objs then OptsIn(leg.objs[k]) && !stuck ==> Owned(w.At(c.SlotOf(k)), IdentityHash(cfg))
    else Spared(c, k, w.At(c.SlotOf(k)))
  }

  /** What the apply may have made of a slot so far. */
  predicate Progress(hash: string, orig: Option<Obj>, at: Option<Obj>) {
    at == orig || at.None? || Owned(at, hash)
  }

  lemma DecideProgress(c: Ctx, hash: string, s: Slot, orig: Option<Obj>, at: Option<Obj>)
    requires Merges(c.rules) && Stamps(c, hash) && Progress(hash, orig, at)
    requires s.gk == c.gvk.GroupKind() && s.key in c.objs && orig.Some? ==> !Blocked(c, hash, s.key, orig.value)
    ensures Progress(hash, orig, Decide(c, s, at))
    ensures Owned(at, hash) && (s.gk == c.gvk.GroupKind() && s.key !in c.objs ==> Shielded(c, s.key)) ==>
              Owned(Decide(c, s, at), hash)
  {
    if s.gk == c.gvk.GroupKind() && s.key in c.objs && at.Some? {
      assert MergeAt(c.rules, at.value, c.objs[s.key]);
    }
  }

  lemma DecideOwns(c: Ctx, hash: string, k: Key, orig: Option<Obj>, at: Option<Obj>)
    requires Merges(c.rules) && Stamps(c, hash) && Progress(hash, orig, at)
    requires k in c.objs && OptsIn(c.objs[k])
    requires orig.Some? ==> !Blocked(c, hash, k, orig.value)
    requires at.Some? ==> !c.rules.compare(at.value, c.objs[k]).CompareFailed?
    ensures Owned(Wanted(c, k, at), hash)
  {
    if at.Some? {
      assert MergeAt(c.rules, at.value, c.objs[k]);
    }
  }

  lemma DecideSpares(c: Ctx, d: Ctx, k: Key, at: Option<Obj>)
    requires Spared(c, k, at) && d.gvk.GroupKind() == c.gvk.GroupKind()
    requires k in d.objs ==> Shielded(c, k)
    ensures Spared(c, k, Decide(d, c.SlotOf(k), at))
  {}

  lemma SpareAtOnce(c: Ctx, k: Key, at: Option<Obj>)
    ensures Spared(c, k, Unwanted(c, k, at))
  {}

  lemma LegStamps(cfg: Config, desired: ObjectMap, leg: Leg)
    requires cfg.subContext != "" || cfg.owner.Some?
    requires WellFormed(desired) && AllStamped(cfg, desired)
    requires NormalForm(cfg, leg.gvk, Objects(desired, leg.gvk), leg.objs)
    ensures Stamps(CtxFor(cfg, desired, leg.gvk, leg.objs), IdentityHash(cfg))
  {
    forall k | k in leg.objs
      ensures LabelHash in leg.objs[k].labels && leg.objs[k].labels[LabelHash] == IdentityHash(cfg)
    {
      var d := NormalFrom(cfg, leg.gvk, Objects(desired, leg.gvk), leg.objs, k);
      assert Stamped(IdentityOf(cfg), desired[leg.gvk][d]);
      assert LabelHash in IdentityOf(cfg).Labels();
    }
  }

  ghost predicate AllStamped(cfg: Config, desired: ObjectMap) {
    forall g, k :: g in desired && k in desired[g] ==> Stamped(IdentityOf(cfg), desired[g][k])
  }

  lemma StampStamps(id: Identity, o: Obj)
    ensures Stamped(id, Stamp(id, o)) && Stamp(id, o).key == o.key
  {}

  /** Injection stamps every object, so what is applied always satisfies the hypothesis of the theorems here. */
  lemma InjectStamps(cfg: Config, desired: ObjectMap)
    requires WellFormed(desired)
    ensures WellFormed(Inject(IdentityOf(cfg), desired)) && AllStamped(cfg, Inject(IdentityOf(cfg), desired))
  {
    var id := IdentityOf(cfg);
    var all: ObjectMap := Inject(id, desired);
    forall g: GVK, k: Key | g in all && k in all[g] ensures all[g][k].key == k && Stamped(id, all[g][k]) {
      assert KeysAgree(desired[g]);
      StampStamps(id, desired[g][k]);
    }
  }

  ghost predicate InProgress(cfg: Config, desired: ObjectMap, w: World, legs: seq<Leg>, w': World) {
    forall s: Slot :: !Stuck(cfg, desired, w, legs, s) ==> Progress(IdentityHash(cfg), w.At(s), w'.At(s))
  }

  /** The hypotheses under which an apply is followed leg by leg. */
  ghost predicate Ready(cfg: Config, desired: ObjectMap, w: World, legs: seq<Leg>) {
    && (cfg.subContext != "" || cfg.owner.Some?)
    && Merges(cfg.rules) && WellFormed(desired) && AllStamped(cfg, desired)
    && ApplyRun(cfg, desired, w, legs) && ApplyAll(cfg, desired, w, legs).1 == 0
    && SafeLegs(cfg, desired, legs)
  }

  lemma FewerLegs(cfg: Config, desired: ObjectMap, w: World, legs: seq<Leg>)
    requires legs != []
    ensures SafeLegs(cfg, desired, legs) ==> SafeLegs(cfg, desired, legs[..|legs| - 1])
    ensures forall s :: Stuck(cfg, desired, w, legs[..|legs| - 1], s) ==> Stuck(cfg, desired, w, legs, s)
  {
    assert forall i :: 0 <= i < |legs| - 1 ==> legs[..|legs| - 1][i] == legs[i];
  }

  lemma LastLeg(cfg: Config, desired: ObjectMap, w: World, legs: seq<Leg>)
    requires ApplyRun(cfg, desired, w, legs) && legs != [] && ApplyAll(cfg, desired, w, legs).1 == 0
    ensures var init, leg := legs[..|legs| - 1], legs[|legs| - 1];
            && ApplyRun(cfg, desired, w, init) && ApplyAll(cfg, desired, w, init).1 == 0
            && var w1 := ApplyAll(cfg, desired, w, init).0;
            && KnownScope(cfg, leg.gvk) && LegOk(cfg, desired, w1, leg)
            && Outcome(CtxFor(cfg, desired, leg.gvk, leg.objs), w1, leg.plan).1 == 0
            && ApplyAll(cfg, desired, w, legs).0 == Outcome(CtxFor(cfg, desired, leg.gvk, leg.objs), w1, leg.plan).0
  {}

  lemma ReadyInit(cfg: Config, desired: ObjectMap, w: World, legs: seq<Leg>)
    requires Ready(cfg, desired, w, legs) && legs != []
    ensures var init, leg := legs[..|legs| - 1], legs[|legs| - 1];
            && Ready(cfg, desired, w, init)
            && var w1 := ApplyAll(cfg, desired, w, init).0;
            && KnownScope(cfg, leg.gvk) && LegOk(cfg, desired, w1, leg)
            && Outcome(CtxFor(cfg, desired, leg.gvk, leg.objs), w1, leg.plan).1 == 0
            && ApplyAll(cfg, desired, w, legs).0 == Outcome(CtxFor(cfg, desired, leg.gvk, leg.objs), w1, leg.plan).0
            && Stamps(CtxFor(cfg, desired, leg.gvk, leg.objs), IdentityHash(cfg))
  {
    FewerLegs(cfg, desired, w, legs);
    LastLeg(cfg, desired, w, legs);
    LegStamps(cfg, desired, legs[|legs| - 1]);
  }

  /**
   * After an apply that reports no error: every desired object that does not opt out is there with the owner's hash,
   * and every other object of a processed kind that has the hash is one the prune must leave.
   */
  lemma {:induction false} ApplyConverges(cfg: Config, desired: ObjectMap, w: World, legs: seq<Leg>)
    requires Ready(cfg, desired, w, legs)
    ensures var w' := ApplyAll(cfg, desired, w, legs).0;
            Converged(cfg, desired, w, legs, w') && InProgress(cfg, desired, w, legs, w')
  {
    if legs != [] {
      var init, leg := legs[..|legs| - 1], legs[|legs| - 1];
      ReadyInit(cfg, desired, w, legs);
      FewerLegs(cfg, desired, w, legs);
      ApplyConverges(cfg, desired, w, init);
      var w1 := ApplyAll(cfg, desired, w, init).0;
      var w2 := ApplyAll(cfg, desired, w, legs).0;
      forall s: Slot | !Stuck(cfg, desired, w, legs, s) ensures Progress(IdentityHash(cfg), w.At(s), w2.At(s)) {
        LegProgress(cfg, desired, w, legs, s);
      }
      forall i, k: Key | 0 <= i < |legs|
        ensures SlotConverged(cfg, desired, legs[i], w2, k, Stuck(cfg, desired, w, legs, Slot(legs[i].gvk.GroupKind(), k)))
      {
        var s := Slot(legs[i].gvk.GroupKind(), k);
        if i == |init| {
          LegConverges(cfg, desired, w, legs, k);
        } else {
          assert init[i] == legs[i];
          assert SlotConverged(cfg, desired, init[i], w1, k, Stuck(cfg, desired, w, init, s));
          LegKeeps(cfg, desired, w, legs, i, k);
        }
      }
    }
  }

  /** The last leg, at one slot. */
  lemma LegProgress(cfg: Config, desired: ObjectMap, w: World, legs: seq<Leg>, s: Slot)
    requires Ready(cfg, desired, w, legs) && legs != [] && !Stuck(cfg, desired, w, legs, s)
    requires InProgress(cfg, desired, w, legs[..|legs| - 1], ApplyAll(cfg, desired, w, legs[..|legs| - 1]).0)
    ensures Progress(IdentityHash(cfg), w.At(s), ApplyAll(cfg, desired, w, legs).0.At(s))
  {
    var leg := legs[|legs| - 1];
    ReadyInit(cfg, desired, w, legs);
    FewerLegs(cfg, desired, w, legs);
    var c := CtxFor(cfg, desired, leg.gvk, leg.objs);
    var w1 := ApplyAll(cfg, desired, w, legs[..|legs| - 1]).0;
    ProcessDecides(c, w1, leg.plan, s);
    assert !StuckFor(cfg, desired, w, leg, s);
    assert s.gk == c.gvk.GroupKind() ==> s == c.SlotOf(s.key);
    DecideProgress(c, IdentityHash(cfg), s, w.At(s), w1.At(s));
  }

  lemma LegConverges(cfg: Config, desired: ObjectMap, w: World, legs: seq<Leg>, k: Key)
    requires Ready(cfg, desired, w, legs) && legs != []
    requires InProgress(cfg, desired, w, legs[..|legs| - 1], ApplyAll(cfg, desired, w, legs[..|legs| - 1]).0)
    ensures var s := Slot(legs[|legs| - 1].gvk.GroupKind(), k);
            SlotConverged(cfg, desired, legs[|legs| - 1], ApplyAll(cfg, desired, w, legs).0, k, Stuck(cfg, desired, w, legs, s))
  {
    var leg := legs[|legs| - 1];
    ReadyInit(cfg, desired, w, legs);
    FewerLegs(cfg, desired, w, legs);
    var c := CtxFor(cfg, desired, leg.gvk, leg.objs);
    var w1 := ApplyAll(cfg, desired, w, legs[..|legs| - 1]).0;
    var s := c.SlotOf(k);
    ProcessDecides(c, w1, leg.plan, s);
    if k !in leg.objs {
      SpareAtOnce(c, k, w1.At(s));
    } else if OptsIn(leg.objs[k]) && !Stuck(cfg, desired, w, legs, s) {
      assert !StuckFor(cfg, desired, w, leg, s);
      if w1.At(s).Some? {
        NoFailedComparison(c, w1, leg.plan, k);
      }
      DecideOwns(c, IdentityHash(cfg), k, w.At(s), w1.At(s));
    }
  }

  /** The last leg leaves alone what an earlier leg achieved. */
  lemma LegKeeps(cfg: Config, desired: ObjectMap, w: World, legs: seq<Leg>, i: nat, k: Key)
    requires Ready(cfg, desired, w, legs) && i < |legs| - 1
    requires InProgress(cfg, desired, w, legs[..|legs| - 1], ApplyAll(cfg, desired, w, legs[..|legs| - 1]).0)
    requires var init, s := legs[..|legs| - 1], Slot(legs[i].gvk.GroupKind(), k);
             SlotConverged(cfg, desired, legs[i], ApplyAll(cfg, desired, w, init).0, k, Stuck(cfg, desired, w, init, s))
    ensures var s := Slot(legs[i].gvk.GroupKind(), k);
            SlotConverged(cfg, desired, legs[i], ApplyAll(cfg, desired, w, legs).0, k, Stuck(cfg, desired, w, legs, s))
  {
    var leg, s := legs[|legs| - 1], Slot(legs[i].gvk.GroupKind(), k);
    ReadyInit(cfg, desired, w, legs);
    FewerLegs(cfg, desired, w, legs);
    var c, d := CtxFor(cfg, desired, legs[i].gvk, legs[i].objs), CtxFor(cfg, desired, leg.gvk, leg.objs);
    var w1 := ApplyAll(cfg, desired, w, legs[..|legs| - 1]).0;
    ProcessDecides(d, w1, leg.plan, s);
    assert SafeFrom(cfg, desired, legs[i], leg) && SafeFrom(cfg, desired, leg, legs[i]);
    if k !in legs[i].objs {
      SparedStays(c, d, k, w1.At(s));
    } else if OptsIn(legs[i].objs[k]) && !Stuck(cfg, desired, w, legs, s) {
      assert !StuckFor(cfg, desired, w, leg, s);
      OwnedStays(c, d, IdentityHash(cfg), k, w.At(s), w1.At(s));
    }
  }

  lemma SparedStays(c: Ctx, d: Ctx, k: Key, at: Option<Obj>)
    requires Spared(c, k, at)
    requires d.gvk.GroupKind() == c.gvk.GroupKind() && k in d.objs ==> Shielded(c, k)
    ensures Spared(c, k, Decide(d, c.SlotOf(k), at))
  {
    if d.gvk.GroupKind() == c.gvk.GroupKind() {
      DecideSpares(c, d, k, at);
    }
  }

  lemma OwnedStays(c: Ctx, d: Ctx, hash: string, k: Key, orig: Option<Obj>, at: Option<Obj>)
    requires Merges(d.rules) && Stamps(d, hash) && Progress(hash, orig, at) && Owned(at, hash)
    requires d.gvk.GroupKind() == c.gvk.GroupKind() && k in d.objs && orig.Some? ==> !Blocked(d, hash, k, orig.value)
    requires d.gvk.GroupKind() == c.gvk.GroupKind() && k !in d.objs ==> Shielded(d, k)
    ensures Owned(Decide(d, c.SlotOf(k), at), hash)
  {
    DecideProgress(d, hash, c.SlotOf(k), orig, at);
  }

  /**
   * A kind processed in two versions: once another version's leg reports no error, an owned object that version does
   * not desire survived exactly if it is shielded. (`ShieldedExactly` says when that is.)
   */
  lemma CrossVersionExactly(c: Ctx, w: World, plan: Plan, k: Key)
    requires Follows(c, w, plan) && Outcome(c, w, plan).1 == 0 && !c.noPrune && k !in c.objs
    requires w.At(c.SlotOf(k)).Some?
    requires Listed(c, k, w.At(c.SlotOf(k)).value) && Prunable(c, w.At(c.SlotOf(k)).value)
    ensures Outcome(c, w, plan).0.At(c.SlotOf(k)) == w.At(c.SlotOf(k)) <==> Shielded(c, k)
  {
    ProcessDecides(c, w, plan, c.SlotOf(k));
  }

  /** Objects of other kinds, and undesired objects without the owner's hash, are not touched by a successful leg. */
  lemma ProcessFrame(c: Ctx, hash: string, w: World, plan: Plan, s: Slot)
    requires Follows(c, w, plan) && Outcome(c, w, plan).1 == 0 && c.selector == Some(hash)
    requires s.gk == c.gvk.GroupKind() ==> s.key !in c.objs && !Owned(w.At(s), hash)
    ensures Outcome(c, w, plan).0.At(s) == w.At(s)
  {
    ProcessDecides(c, w, plan, s);
  }
}
