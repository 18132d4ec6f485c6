/**
 * A kind processed in several versions (pkg/apply/desiredset_process.go): each version's turn sees the objects of the
 * others as ones it does not desire, and the cross-version filter has to keep it from pruning them. Here is exactly when
 * it does, in terms of how the objects were declared, what follows for a whole apply, and what happens when it does not.
 */
module CrossVersion {
  import opened Kube
  import opened Server
  import opened Process
  import opened Ownership
  import opened Reconcile
  import opened Normalise
  import opened Apply
  import opened Convergence
  import opened Idempotence
  import opened History

  // ----- the hypothesis of the theorems, in terms of the declaration -----

  /** Every object declared as a `g` is found again by the filter of an `h`, or declared as an `h` too. */
  ghost predicate DeclaredSafely(cfg: Config, desired: ObjectMap, g: GVK, h: GVK) {
    g.GroupKind() == h.GroupKind() ==>
      forall d :: d in Objects(desired, g) ==>
        || FoundAgain(cfg, desired, g, d)
        || HasNormalKey(cfg, h, Objects(desired, h), NormalKey(cfg, g, d))
  }

  lemma SafeFromExactly(cfg: Config, desired: ObjectMap, a: Leg, b: Leg)
    requires WellFormed(desired) && Normal(cfg, desired, a) && Normal(cfg, desired, b)
    ensures SafeFrom(cfg, desired, a, b) <==> DeclaredSafely(cfg, desired, a.gvk, b.gvk)
  {
    if a.gvk.GroupKind() == b.gvk.GroupKind() {
      forall d | d in Objects(desired, a.gvk)
        ensures var k := NormalKey(cfg, a.gvk, d);
                && k in a.objs
                && (k in b.objs <==> HasNormalKey(cfg, b.gvk, Objects(desired, b.gvk), k))
                && (Shielded(CtxFor(cfg, desired, b.gvk, b.objs), k) <==> FoundAgain(cfg, desired, a.gvk, d))
      {
        NormalTo(cfg, a.gvk, Objects(desired, a.gvk), a.objs, d);
        NormalKeysExactly(cfg, b.gvk, Objects(desired, b.gvk), b.objs, NormalKey(cfg, a.gvk, d));
        ShieldedExactly(cfg, desired, a.gvk, b.gvk, b.objs, d);
      }
      forall k | k in a.objs ensures HasNormalKey(cfg, a.gvk, Objects(desired, a.gvk), k) {
        NormalKeysExactly(cfg, a.gvk, Objects(desired, a.gvk), a.objs, k);
      }
    }
  }

  /** Every two kinds an apply processes are declared safely. */
  ghost predicate SafeDeclaration(cfg: Config, desired: ObjectMap, legs: seq<Leg>) {
    forall i, j :: 0 <= i < |legs| && 0 <= j < |legs| && i != j ==>
      DeclaredSafely(cfg, desired, legs[i].gvk, legs[j].gvk)
  }

  /** The legs of an apply are safe from each other exactly when the objects were declared safely. */
  lemma SafeLegsExactly(cfg: Config, desired: ObjectMap, w: World, legs: seq<Leg>)
    requires WellFormed(desired) && ApplyRun(cfg, desired, w, legs) && ApplyAll(cfg, desired, w, legs).1 == 0
    ensures SafeLegs(cfg, desired, legs) <==> SafeDeclaration(cfg, desired, legs)
  {
    forall i, j | 0 <= i < |legs| && 0 <= j < |legs| && i != j
      ensures SafeFrom(cfg, desired, legs[i], legs[j]) <==> DeclaredSafely(cfg, desired, legs[i].gvk, legs[j].gvk)
    {
      RunIsNormal(cfg, desired, w, legs, i);
      RunIsNormal(cfg, desired, w, legs, j);
      SafeFromExactly(cfg, desired, legs[i], legs[j]);
    }
  }

  /** A declaration whose namespaces are given where they belong, or filled in with the default. */
  ghost predicate PlainlyDeclared(cfg: Config, desired: ObjectMap) {
    forall g, d :: d in Objects(desired, g) ==>
      if cfg.scope(g).NamespacedScope? then d.ns != "" || FilledWithDefault(cfg) else d.ns == ""
  }

  /** Such a declaration is safe, and so is any in which no two versions of a kind are processed. */
  lemma PlainlyDeclaredIsSafe(cfg: Config, desired: ObjectMap, legs: seq<Leg>)
    requires
      || PlainlyDeclared(cfg, desired)
      || forall i, j :: 0 <= i < j < |legs| ==> legs[i].gvk.GroupKind() != legs[j].gvk.GroupKind()
    ensures SafeDeclaration(cfg, desired, legs)
  {
    if PlainlyDeclared(cfg, desired) {
      forall g: GVK, h: GVK, d | g.GroupKind() == h.GroupKind() && d in Objects(desired, g)
        ensures FoundAgain(cfg, desired, g, d)
      {
        ShieldedExactly(cfg, desired, g, h, map[], d);
      }
    }
  }

  // ----- whole applies -----

  /**
   * From the objects an owner declares to what the server holds: after an apply without errors, every desired object that
   * does not opt out and is not stuck has the owner's hash, and what else has it is exempt from pruning.
   */
  lemma DeclaredObjectsConverge(cfg: Config, declared: ObjectMap, w: World, legs: seq<Leg>)
    requires WellFormed(declared) && (cfg.subContext != "" || cfg.owner.Some?) && Merges(cfg.rules)
    requires var desired := Inject(IdentityOf(cfg), declared);
             && ApplyRun(cfg, desired, w, legs) && ApplyAll(cfg, desired, w, legs).1 == 0
             && SafeDeclaration(cfg, desired, legs)
    ensures var desired := Inject(IdentityOf(cfg), declared);
            var w' := ApplyAll(cfg, desired, w, legs).0;
            Converged(cfg, desired, w, legs, w') && InProgress(cfg, desired, w, legs, w')
  {
    var desired := Inject(IdentityOf(cfg), declared);
    InjectStamps(cfg, declared);
    SafeLegsExactly(cfg, desired, w, legs);
    ApplyConverges(cfg, desired, w, legs);
  }

  lemma PlainlyInjected(cfg: Config, declared: ObjectMap)
    requires PlainlyDeclared(cfg, declared)
    ensures PlainlyDeclared(cfg, Inject(IdentityOf(cfg), declared))
  {
    var desired := Inject(IdentityOf(cfg), declared);
    forall g, d | d in Objects(desired, g) ensures d in Objects(declared, g) {}
  }

  /** The same for objects that are declared plainly, or whose kinds are each processed in one version. */
  lemma PlainObjectsConverge(cfg: Config, declared: ObjectMap, w: World, legs: seq<Leg>)
    requires WellFormed(declared) && (cfg.subContext != "" || cfg.owner.Some?) && Merges(cfg.rules)
    requires
      || PlainlyDeclared(cfg, declared)
      || forall i, j :: 0 <= i < j < |legs| ==> legs[i].gvk.GroupKind() != legs[j].gvk.GroupKind()
    requires var desired := Inject(IdentityOf(cfg), declared);
             ApplyRun(cfg, desired, w, legs) && ApplyAll(cfg, desired, w, legs).1 == 0
    ensures var desired := Inject(IdentityOf(cfg), declared);
            var w' := ApplyAll(cfg, desired, w, legs).0;
            Converged(cfg, desired, w, legs, w') && InProgress(cfg, desired, w, legs, w')
  {
    var desired := Inject(IdentityOf(cfg), declared);
    if PlainlyDeclared(cfg, declared) {
      PlainlyInjected(cfg, declared);
    }
    PlainlyDeclaredIsSafe(cfg, desired, legs);
    DeclaredObjectsConverge(cfg, declared, w, legs);
  }

  /** No object is declared, by its normalised key, in two versions of its kind. */
  ghost predicate OneVersionDeclared(cfg: Config, desired: ObjectMap, g: GVK, h: GVK) {
    g.GroupKind() == h.GroupKind() ==>
      forall d :: d in Objects(desired, g) ==> !HasNormalKey(cfg, h, Objects(desired, h), NormalKey(cfg, g, d))
  }

  lemma OneVersionFollows(cfg: Config, desired: ObjectMap, w: World, legs: seq<Leg>)
    requires WellFormed(desired) && ApplyRun(cfg, desired, w, legs) && ApplyAll(cfg, desired, w, legs).1 == 0
    requires forall i, j :: 0 <= i < |legs| && 0 <= j < |legs| && i != j ==>
               OneVersionDeclared(cfg, desired, legs[i].gvk, legs[j].gvk)
    ensures OneVersionEach(legs)
  {
    forall i, j, k | 0 <= i < |legs| && 0 <= j < |legs| && i != j && k in legs[i].objs && k in legs[j].objs
      ensures legs[i].gvk.GroupKind() != legs[j].gvk.GroupKind()
    {
      var g, h := legs[i].gvk, legs[j].gvk;
      RunIsNormal(cfg, desired, w, legs, i);
      RunIsNormal(cfg, desired, w, legs, j);
      var d := NormalFrom(cfg, g, Objects(desired, g), legs[i].objs, k);
      NormalKeysExactly(cfg, h, Objects(desired, h), legs[j].objs, k);
      assert OneVersionDeclared(cfg, desired, g, h);
    }
  }

  /**
   * Applying what an owner declares a second time, after a first apply without errors, changes nothing on the server,
   * whatever calls then fail. What is asked of the declaration can all be seen from it.
   */
  lemma DeclaredObjectsStay(cfg: Config, faults: Faults, declared: ObjectMap, w: World, legs: seq<Leg>,
                            w': World, again: seq<Leg>)
    requires WellFormed(declared) && Settles(cfg.rules)
    requires var desired := Inject(IdentityOf(cfg), declared);
             && ApplyRun(cfg, desired, w, legs) && ApplyAll(cfg, desired, w, legs).1 == 0
             && w'.objs == ApplyAll(cfg, desired, w, legs).0.objs
             && ApplyRun(cfg.(faults := faults), desired, w', again) && SameKinds(legs, again)
             && NoClashes(cfg, desired) && SafeDeclaration(cfg, desired, legs)
             && forall i, j :: 0 <= i < |legs| && 0 <= j < |legs| && i != j ==>
                  OneVersionDeclared(cfg, desired, legs[i].gvk, legs[j].gvk)
    ensures ApplyAll(cfg.(faults := faults), Inject(IdentityOf(cfg), declared), w', again).0.objs == w'.objs
  {
    var desired := Inject(IdentityOf(cfg), declared);
    InjectStamps(cfg, declared);
    SafeLegsExactly(cfg, desired, w, legs);
    OneVersionFollows(cfg, desired, w, legs);
    ApplyIsIdempotent(cfg, faults, desired, w, legs, w', again);
  }

  /** The deletion is of a desired object, to be replaced, or of one that no known version of the kind desires. */
  ghost predicate DeletedRightly(r: Round, e: Event) {
    exists i :: 0 <= i < |r.legs| && KnownScope(r.cfg, r.legs[i].gvk) && Licensed(r.Ctx(i), e) && RightIn(r, i, e)
  }

  ghost predicate RightIn(r: Round, i: nat, e: Event)
    requires i < |r.legs|
  {
    || e.slot.key in r.legs[i].objs
    || forall j :: 0 <= j < |r.legs| && KnownScope(r.cfg, r.legs[j].gvk) && r.legs[j].gvk.GroupKind() == e.slot.gk ==>
         e.slot.key !in r.legs[j].objs
  }

  /**
   * Cross-version safety of a whole apply: of objects declared safely none that is desired is ever pruned through another
   * version of its kind, whatever fails on the way.
   */
  lemma DesiredIsNeverPruned(r: Round, w: World, n: nat)
    requires r.Selects() && ApplyRun(r.cfg, r.objs, w, r.legs) && WellFormed(r.objs)
    requires SafeDeclaration(r.cfg, r.objs, r.legs)
    requires var w' := ApplyAll(r.cfg, r.objs, w, r.legs).0; |w.log| <= n < |w'.log| && w'.log[n].Deleted?
    ensures DeletedRightly(r, ApplyAll(r.cfg, r.objs, w, r.legs).0.log[n])
  {
    var e := ApplyAll(r.cfg, r.objs, w, r.legs).0.log[n];
    LegsAreLawful(r, w, r.legs);
    assert LicensedIn(r, e);
    var i :| 0 <= i < |r.legs| && KnownScope(r.cfg, r.legs[i].gvk) && Licensed(r.Ctx(i), e);
    if e.slot.key !in r.legs[i].objs {
      RunIsNormal(r.cfg, r.objs, w, r.legs, i);
      forall j | 0 <= j < |r.legs| && KnownScope(r.cfg, r.legs[j].gvk) && r.legs[j].gvk.GroupKind() == e.slot.gk
        ensures e.slot.key !in r.legs[j].objs
      {
        if j != i {
          RunIsNormal(r.cfg, r.objs, w, r.legs, j);
          SafeFromExactly(r.cfg, r.objs, r.legs[j], r.legs[i]);
        }
      }
    }
    assert RightIn(r, i, e);
  }

  // ----- one object, two versions of its kind -----

  /** One object is declared, as a `g`; the kind is processed as a `g` and then as an `h`. */
  ghost predicate TwoVersions(cfg: Config, desired: ObjectMap, g: GVK, h: GVK, d: Key, o: Obj) {
    && desired == map[g := map[d := o]] && o.key == d && g != h && g.GroupKind() == h.GroupKind()
    && cfg.scope(g) == cfg.scope(h) && cfg.owner.Some? && Stamped(IdentityOf(cfg), o)
    && o.Should(AnnotationCreate) && o.Should(AnnotationPrune) && !cfg.noPrune
    && (cfg.listerNs == "" || NormalKey(cfg, g, d).ns == cfg.listerNs)
  }

  /** One declared object makes one normalised object. */
  lemma OneObject(cfg: Config, g: GVK, d: Key, o: Obj, objs: map<Key, Obj>)
    requires o.key == d && NormalForm(cfg, g, map[d := o], objs)
    ensures objs.Keys == {NormalKey(cfg, g, d)}
    ensures var made := objs[NormalKey(cfg, g, d)]; made.labels == o.labels && made.annotations == o.annotations
  {
    var declared, k := map[d := o], NormalKey(cfg, g, d);
    NormalTo(cfg, g, declared, objs, d);
    forall x | x in objs ensures x == k {
      var from := NormalFrom(cfg, g, declared, objs, x);
    }
    var from := NormalFrom(cfg, g, declared, objs, k);
  }

  lemma NoObject(cfg: Config, h: GVK, objs: map<Key, Obj>)
    requires NormalForm(cfg, h, map[], objs)
    ensures objs == map[]
  {
    forall k ensures k !in objs {
      NormalKeysExactly(cfg, h, map[], objs, k);
    }
  }

  /** What the first leg creates, the second may prune if the filter does not find it. */
  lemma CreatedIsPrunable(cfg: Config, desired: ObjectMap, g: GVK, h: GVK, d: Key, o: Obj, objs: map<Key, Obj>, made: Obj)
    requires TwoVersions(cfg, desired, g, h, d, o) && made.labels == o.labels && made.annotations == o.annotations
    ensures var c, live := CtxFor(cfg, desired, h, objs), Fresh(Prepare(cfg.rules, made));
            Listed(c, NormalKey(cfg, g, d), live) && Prunable(c, live)
  {
    var id, live := IdentityOf(cfg), Fresh(Prepare(cfg.rules, made));
    assert LabelHash in id.Labels() && live.labels[LabelHash] == id.Labels()[LabelHash];
    assert forall l :: l in id.annotations ==> l in live.annotations && live.annotations[l] == id.annotations[l];
    assert OwnerText(live.annotations) == OwnerText(id.annotations);
  }

  /**
   * In every such apply that reports no error the object just created is still there at the end, and not being deleted,
   * exactly if the filter finds it again; otherwise it is pruned, although it is desired.
   */
  lemma SurvivesExactly(cfg: Config, desired: ObjectMap, g: GVK, h: GVK, d: Key, o: Obj, w: World, a: Leg, b: Leg)
    requires TwoVersions(cfg, desired, g, h, d, o) && a.gvk == g && b.gvk == h
    requires ApplyRun(cfg, desired, w, [a, b]) && ApplyAll(cfg, desired, w, [a, b]).1 == 0
    requires w.At(Slot(g.GroupKind(), NormalKey(cfg, g, d))).None?
    ensures var at := ApplyAll(cfg, desired, w, [a, b]).0.At(Slot(g.GroupKind(), NormalKey(cfg, g, d)));
            at.Some? && !at.value.deleting <==> FoundAgain(cfg, desired, g, d)
  {
    var k, w1 := NormalKey(cfg, g, d), ApplyAll(cfg, desired, w, [a]).0;
    TwoLegs(cfg, desired, w, a, b);
    OneObject(cfg, g, d, o, a.objs);
    NoObject(cfg, h, b.objs);
    Creates(CtxFor(cfg, desired, g, a.objs), w, a.plan, k);
    CreatedIsPrunable(cfg, desired, g, h, d, o, b.objs, a.objs[k]);
    PrunesExactly(CtxFor(cfg, desired, h, b.objs), w1, b.plan, k);
    ShieldedExactly(cfg, desired, g, h, b.objs, d);
  }

  lemma TwoLegs(cfg: Config, desired: ObjectMap, w: World, a: Leg, b: Leg)
    requires ApplyRun(cfg, desired, w, [a, b]) && ApplyAll(cfg, desired, w, [a, b]).1 == 0
    ensures Normal(cfg, desired, a) && Normal(cfg, desired, b)
    ensures ApplyRun(cfg, desired, w, [a])
    ensures var c1, c2 := CtxFor(cfg, desired, a.gvk, a.objs), CtxFor(cfg, desired, b.gvk, b.objs);
            var w1 := ApplyAll(cfg, desired, w, [a]).0;
            && Follows(c1, w, a.plan) && Outcome(c1, w, a.plan) == (w1, 0)
            && Follows(c2, w1, b.plan) && Outcome(c2, w1, b.plan) == (ApplyAll(cfg, desired, w, [a, b]).0, 0)
  {
    RunIsNormal(cfg, desired, w, [a, b], 0);
    RunIsNormal(cfg, desired, w, [a, b], 1);
    LastLeg(cfg, desired, w, [a, b]);
    assert [a, b][..1] == [a];
    LastLeg(cfg, desired, w, [a]);
    assert [a][..0] == [];
  }

  lemma Creates(c: Ctx, w: World, plan: Plan, k: Key)
    requires Follows(c, w, plan) && Outcome(c, w, plan).1 == 0
    requires k in c.objs && c.objs[k].Should(AnnotationCreate) && w.At(c.SlotOf(k)).None?
    ensures Outcome(c, w, plan).0.At(c.SlotOf(k)) == Some(Fresh(Prepare(c.rules, c.objs[k])))
  {
    ProcessDecides(c, w, plan, c.SlotOf(k));
  }

  lemma PrunesExactly(c: Ctx, w: World, plan: Plan, k: Key)
    requires Follows(c, w, plan) && Outcome(c, w, plan).1 == 0 && !c.noPrune && k !in c.objs
    requires w.At(c.SlotOf(k)).Some?
    requires Listed(c, k, w.At(c.SlotOf(k)).value) && Prunable(c, w.At(c.SlotOf(k)).value)
    ensures var at := Outcome(c, w, plan).0.At(c.SlotOf(k)); at.Some? && !at.value.deleting <==> Shielded(c, k)
  {
    ProcessDecides(c, w, plan, c.SlotOf(k));
  }

  // ----- such applies exist -----

  lemma NormalFormExists(cfg: Config, g: GVK, declared: map<Key, Obj>) returns (objs: map<Key, Obj>)
    requires KeysAgree(declared)
    ensures NormalForm(cfg, g, declared, objs)
  {
    var mid := OwnerAssigned(cfg, g, declared);
    if cfg.scope(g).NamespacedScope? {
      objs := Adjusted(cfg.defaultNs, mid);
    } else {
      AssignedAgree(cfg, g, declared);
      var order := SomeOrder(mid.Keys);
      objs := ClearAlong(mid, order);
      ClearAlongClears(mid, order);
    }
  }

  lemma CreatePlan(c: Ctx, w: World, k: Key) returns (plan: Plan)
    requires c.selector.Some? && c.objs.Keys == {k} && c.objs[k].Should(AnnotationCreate)
    requires w.objs == map[] && forall n :: !c.faults(n)
    ensures Follows(c, w, plan) && Outcome(c, w, plan).1 == 0
    ensures Outcome(c, w, plan).0.objs == map[c.SlotOf(k) := Fresh(Prepare(c.rules, c.objs[k]))]
  {
    plan := Plan([k], [k], [], []);
    assert SelectorListing(c, w) == map[];
    var p := Pass(w.Tick(), map[], [], [], 0);
    assert [k][..0] == [];
    assert CreateAll(c, p, [k]) == CreateStep(c, p, k);
  }

  lemma PrunePlan(c: Ctx, w: World, k: Key, live: Obj) returns (plan: Plan)
    requires c.selector.Some? && c.objs == map[] && forall n :: !c.faults(n)
    requires w.objs == map[c.SlotOf(k) := live] && Listed(c, k, live) && Prunable(c, live) && !Shielded(c, k)
    ensures Follows(c, w, plan) && Outcome(c, w, plan).1 == 0
  {
    plan := Plan([], [], [k], []);
    var s, listing := c.SlotOf(k), SelectorListing(c, w);
    assert s in w.objs && w.objs[s] == live;
    assert listing == map[k := live];
    var p := Pass(w.Tick(), listing, [], [], 0);
    assert [k][..0] == [];
    assert DeleteAll(c, p, [k]) == DeleteStep(c, p, k);
  }

  /** What ends with a desired object pruned: an apply of one leg after the other to an empty server, without errors. */
  ghost predicate EndsPruned(cfg: Config, desired: ObjectMap, a: Leg, b: Leg, k: Key) {
    var w := World(map[], 0, []);
    && ApplyRun(cfg, desired, w, [a, b]) && ApplyAll(cfg, desired, w, [a, b]).1 == 0
    && a.gvk.GroupKind() == b.gvk.GroupKind() && k in a.objs && a.objs[k].Should(AnnotationCreate)
    && var at := ApplyAll(cfg, desired, w, [a, b]).0.At(Slot(a.gvk.GroupKind(), k)); at.None? || at.value.deleting
  }

  ghost predicate Succeeds(cfg: Config, desired: ObjectMap, w: World, leg: Leg, w': World) {
    KnownScope(cfg, leg.gvk) && LegOk(cfg, desired, w, leg) && LegOutcome(cfg, desired, w, leg) == (w', 0)
  }

  lemma LegSucceeds(cfg: Config, desired: ObjectMap, w: World, leg: Leg)
    requires Normal(cfg, desired, leg)
    requires var c := CtxFor(cfg, desired, leg.gvk, leg.objs); Follows(c, w, leg.plan) && Outcome(c, w, leg.plan).1 == 0
    ensures Succeeds(cfg, desired, w, leg, Outcome(CtxFor(cfg, desired, leg.gvk, leg.objs), w, leg.plan).0)
  {}

  lemma FirstObjects(cfg: Config, desired: ObjectMap, g: GVK, h: GVK, d: Key, o: Obj) returns (objs: map<Key, Obj>)
    requires TwoVersions(cfg, desired, g, h, d, o)
    ensures NormalForm(cfg, g, Objects(desired, g), objs) && objs.Keys == {NormalKey(cfg, g, d)}
    ensures var made := objs[NormalKey(cfg, g, d)]; made.labels == o.labels && made.annotations == o.annotations
  {
    objs := NormalFormExists(cfg, g, map[d := o]);
    OneObject(cfg, g, d, o, objs);
  }

  lemma FirstLeg(cfg: Config, desired: ObjectMap, g: GVK, h: GVK, d: Key, o: Obj) returns (a: Leg, w1: World, made: Obj)
    requires TwoVersions(cfg, desired, g, h, d, o) && KnownScope(cfg, g) && forall n :: !cfg.faults(n)
    ensures a.gvk == g && Succeeds(cfg, desired, World(map[], 0, []), a, w1)
    ensures a.objs.Keys == {NormalKey(cfg, g, d)}
    ensures made.labels == o.labels && made.annotations == o.annotations && a.objs[NormalKey(cfg, g, d)] == made
    ensures w1.objs == map[Slot(g.GroupKind(), NormalKey(cfg, g, d)) := Fresh(Prepare(cfg.rules, made))]
  {
    var objs := FirstObjects(cfg, desired, g, h, d, o);
    var c, k, w := CtxFor(cfg, desired, g, objs), NormalKey(cfg, g, d), World(map[], 0, []);
    made := objs[k];
    var plan := CreatePlan(c, w, k);
    a, w1 := Leg(g, objs, plan), Outcome(c, w, plan).0;
    LegSucceeds(cfg, desired, w, a);
  }

  lemma SecondObjects(cfg: Config, desired: ObjectMap, g: GVK, h: GVK, d: Key, o: Obj)
    requires TwoVersions(cfg, desired, g, h, d, o)
    ensures NormalForm(cfg, h, Objects(desired, h), map[])
  {
    var none := NormalFormExists(cfg, h, map[]);
    NoObject(cfg, h, none);
  }

  lemma SecondLeg(cfg: Config, desired: ObjectMap, g: GVK, h: GVK, d: Key, o: Obj, w1: World, made: Obj)
    returns (b: Leg, w2: World)
    requires TwoVersions(cfg, desired, g, h, d, o) && KnownScope(cfg, h) && forall n :: !cfg.faults(n)
    requires !FoundAgain(cfg, desired, g, d) && made.labels == o.labels && made.annotations == o.annotations
    requires w1.objs == map[Slot(g.GroupKind(), NormalKey(cfg, g, d)) := Fresh(Prepare(cfg.rules, made))]
    ensures b.gvk == h && Succeeds(cfg, desired, w1, b, w2)
  {
    SecondObjects(cfg, desired, g, h, d, o);
    var c, k := CtxFor(cfg, desired, h, map[]), NormalKey(cfg, g, d);
    CreatedIsPrunable(cfg, desired, g, h, d, o, map[], made);
    ShieldedExactly(cfg, desired, g, h, map[], d);
    var plan := PrunePlan(c, w1, k, Fresh(Prepare(cfg.rules, made)));
    b, w2 := Leg(h, map[], plan), Outcome(c, w1, plan).0;
    LegSucceeds(cfg, desired, w1, b);
  }

  lemma BothLegs(cfg: Config, desired: ObjectMap, w: World, w1: World, w2: World, a: Leg, b: Leg)
    requires Succeeds(cfg, desired, w, a, w1) && Succeeds(cfg, desired, w1, b, w2)
    ensures ApplyRun(cfg, desired, w, [a, b]) && ApplyAll(cfg, desired, w, [a, b]).1 == 0
  {
    assert Reached(cfg, desired, w, [], w, 0);
    ReachedMore(cfg, desired, w, [], w, 0, a, w1, 0);
    ReachedMore(cfg, desired, w, [] + [a], w1, 0, b, w2, 0);
    assert [] + [a] + [b] == [a, b];
  }

  /** Whenever the filter does not find the object again, there is an apply without errors that ends with it pruned. */
  lemma PrunedThoughDesired(cfg: Config, desired: ObjectMap, g: GVK, h: GVK, d: Key, o: Obj) returns (a: Leg, b: Leg)
    requires TwoVersions(cfg, desired, g, h, d, o) && !FoundAgain(cfg, desired, g, d)
    requires KnownScope(cfg, g) && forall n :: !cfg.faults(n)
    ensures a.gvk == g && b.gvk == h && EndsPruned(cfg, desired, a, b, NormalKey(cfg, g, d))
  {
    var w1, made, w2;
    a, w1, made := FirstLeg(cfg, desired, g, h, d, o);
    b, w2 := SecondLeg(cfg, desired, g, h, d, o, w1, made);
    var w := World(map[], 0, []);
    BothLegs(cfg, desired, w, w1, w2, a, b);
    SurvivesExactly(cfg, desired, g, h, d, o, w, a, b);
  }

  /** An object without labels and annotations of its own, stamped for the owner. */
  function Plain(cfg: Config, d: Key): Obj {
    Stamp(IdentityOf(cfg), Obj(d, map[], map[], [], [], false, ""))
  }

  lemma PlainIsStamped(cfg: Config, d: Key)
    requires cfg.owner.Some?
    ensures Stamped(IdentityOf(cfg), Plain(cfg, d)) && Plain(cfg, d).key == d
    ensures Plain(cfg, d).Should(AnnotationCreate) && Plain(cfg, d).Should(AnnotationPrune)
  {}

  function PlainSet(cfg: Config, g: GVK, d: Key): ObjectMap {
    map[g := map[d := Plain(cfg, d)]]
  }

  ghost predicate Ordinary(cfg: Config, g: GVK, h: GVK) {
    && g != h && g.GroupKind() == h.GroupKind() && cfg.scope(g) == cfg.scope(h) && cfg.owner.Some?
    && KnownScope(cfg, g) && !cfg.noPrune && cfg.listerNs == "" && forall n :: !cfg.faults(n)
  }

  lemma PlainTwoVersions(cfg: Config, g: GVK, h: GVK, d: Key)
    requires Ordinary(cfg, g, h)
    ensures TwoVersions(cfg, PlainSet(cfg, g, d), g, h, d, Plain(cfg, d))
    ensures FoundAgain(cfg, PlainSet(cfg, g, d), g, d) <==>
            NormalKey(cfg, g, d) == d || (cfg.scope(g).NamespacedScope? && d.ns == "" && FilledWithDefault(cfg))
  {
    PlainIsStamped(cfg, d);
    var all := PlainSet(cfg, g, d);
    assert g in all && d in all[g];
    forall k ensures k in DeclaredKeys(all, g.GroupKind()) <==> k == d {}
  }

  /** A namespace filled in from an owner outside the default namespace is not found again, and the object is pruned. */
  lemma OwnerFilledIsPruned(cfg: Config, g: GVK, h: GVK, name: string) returns (a: Leg, b: Leg)
    requires Ordinary(cfg, g, h) && cfg.scope(g).NamespacedScope?
    requires cfg.owner.value.key.ns != "" && cfg.owner.value.key.ns != cfg.defaultNs
    ensures a.gvk == g && b.gvk == h
    ensures EndsPruned(cfg, PlainSet(cfg, g, Key("", name)), a, b, Key(cfg.owner.value.key.ns, name))
  {
    var d := Key("", name);
    PlainTwoVersions(cfg, g, h, d);
    a, b := PrunedThoughDesired(cfg, PlainSet(cfg, g, d), g, h, d, Plain(cfg, d));
  }

  /** A namespace given to a cluster-scoped object is not found again once it is cleared, and the object is pruned. */
  lemma ClearedIsPruned(cfg: Config, g: GVK, h: GVK, d: Key) returns (a: Leg, b: Leg)
    requires Ordinary(cfg, g, h) && cfg.scope(g).ClusterScope? && d.ns != ""
    ensures a.gvk == g && b.gvk == h
    ensures EndsPruned(cfg, PlainSet(cfg, g, d), a, b, Key("", d.name))
  {
    PlainTwoVersions(cfg, g, h, d);
    a, b := PrunedThoughDesired(cfg, PlainSet(cfg, g, d), g, h, d, Plain(cfg, d));
  }

  function Deployments(version: string): GVK {
    GVK("apps", version, "Deployment")
  }

  /** An owner in namespace "o" applying with the default namespace "default", as the router does. */
  function RouterConfig(rules: Rules, scope: Scope): Config {
    Config(rules, n => false, g => scope, "", "default", false, "router",
           Some(Owner(GVK("example.com", "v1", "App"), Key("o", "app"), "uid")), {Deployments("v1beta1")})
  }

  /** Both happen: one object, declared without a namespace or with one, is created and pruned by the same apply. */
  lemma BothAreReal(rules: Rules) returns (a: Leg, b: Leg, c: Leg, d: Leg)
    ensures var cfg := RouterConfig(rules, NamespacedScope);
            EndsPruned(cfg, PlainSet(cfg, Deployments("v1"), Key("", "x")), a, b, Key("o", "x"))
    ensures var cfg := RouterConfig(rules, ClusterScope);
            EndsPruned(cfg, PlainSet(cfg, Deployments("v1"), Key("n", "x")), c, d, Key("", "x"))
  {
    a, b := OwnerFilledIsPruned(RouterConfig(rules, NamespacedScope), Deployments("v1"), Deployments("v1beta1"), "x");
    c, d := ClearedIsPruned(RouterConfig(rules, ClusterScope), Deployments("v1"), Deployments("v1beta1"), Key("n", "x"));
  }
}
