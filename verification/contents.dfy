/**
 * What a successful apply leaves on the server, slot by slot and field by field, traced back to what was declared.
 */
module Contents {
  import opened Kube
  import opened Server
  import opened Process
  import opened Ownership
  import opened Reconcile
  import opened Normalise
  import opened Apply
  import opened Convergence
  import opened Idempotence
  import opened CrossVersion

  /** The annotation is there and says no. */
  predicate OptsOut(o: Obj, l: Label) {
    l in o.annotations && o.annotations[l] == "false"
  }

  /** All of the desired object, with the record of what was applied, and not being deleted. */
  predicate IsDesired(rules: Rules, want: Obj, at: Obj) {
    && at.key == want.key && at.labels == want.labels && at.owners == want.owners
    && at.finalizers == want.finalizers && at.body == want.body && !at.deleting
    && at.annotations == want.annotations[LabelApplied := rules.serialize(want)]
  }

  /** Only a deletion has been asked for. */
  predicate Lingers(live: Obj, at: Obj) {
    && at.key == live.key && at.labels == live.labels && at.annotations == live.annotations
    && at.owners == live.owners && at.finalizers == live.finalizers && at.body == live.body && at.deleting
  }

  // ----- one GVK -----

  /** A live object is compared with the desired one if it carries the selected hash, or a create may run into it. */
  predicate Compared(c: Ctx, k: Key, live: Obj, want: Obj) {
    && !OptsOut(want, AnnotationUpdate)
    && (|| !OptsOut(want, AnnotationCreate)
        || c.selector.None?
        || (&& LabelHash in live.labels && live.labels[LabelHash] == c.selector.value
            && (c.listerNs == "" || !c.namespaced || k.ns == c.listerNs)))
  }

  /** The desired object insists on being replaced, or the live one opts out neither of pruning nor of being created. */
  predicate Replaceable(live: Obj, want: Obj) {
    || (AnnotationUpdate in want.annotations && want.annotations[AnnotationUpdate] == "true")
    || (!OptsOut(live, AnnotationPrune) && !OptsOut(live, AnnotationCreate))
  }

  /** What a desired key holds afterwards, by what it held before and what comparing the two says. */
  predicate AsDesired(c: Ctx, k: Key, want: Obj, before: Option<Obj>, after: Option<Obj>) {
    if before.None? then
      if OptsOut(want, AnnotationCreate) then after.None? else after.Some? && IsDesired(c.rules, want, after.value)
    else if !Compared(c, k, before.value, want) then after == before
    else
      match c.rules.compare(before.value, want)
      case Unchanged => after == before
      case Patched(merged) => after == Some(merged)
      case CompareFailed => false
      case Replace =>
        if !Replaceable(before.value, want) then after == before
        else after.Some? && if before.value.finalizers == [] then IsDesired(c.rules, want, after.value)
                            else Lingers(before.value, after.value)
  }

  lemma ComparedExactly(c: Ctx, k: Key, live: Obj)
    requires k in c.objs
    ensures Compared(c, k, live, c.objs[k]) <==> Considered(c, k, live) && c.objs[k].Should(AnnotationUpdate)
  {}

  lemma WantedIs(c: Ctx, k: Key, at: Option<Obj>)
    requires k in c.objs
    requires at.Some? && Compared(c, k, at.value, c.objs[k]) ==> !c.rules.compare(at.value, c.objs[k]).CompareFailed?
    ensures AsDesired(c, k, c.objs[k], at, Wanted(c, k, at))
  {
    if at.Some? {
      ComparedExactly(c, k, at.value);
      if Compared(c, k, at.value, c.objs[k]) && c.rules.compare(at.value, c.objs[k]).Replace? {
        assert Replaceable(at.value, c.objs[k]) <==> MayReplace(at.value, c.objs[k]);
      }
    }
  }

  /** After a call without errors every desired key, free or taken, holds what it should. */
  lemma DesiredExactly(c: Ctx, w: World, plan: Plan, k: Key)
    requires Follows(c, w, plan) && Outcome(c, w, plan).1 == 0 && k in c.objs
    ensures AsDesired(c, k, c.objs[k], w.At(c.SlotOf(k)), Outcome(c, w, plan).0.At(c.SlotOf(k)))
  {
    ProcessDecides(c, w, plan, c.SlotOf(k));
    var at := w.At(c.SlotOf(k));
    if at.Some? && Compared(c, k, at.value, c.objs[k]) {
      ComparedExactly(c, k, at.value);
      NoFailedComparison(c, w, plan, k);
    }
    WantedIs(c, k, at);
  }

  /** The objects of this owner that go when they are not desired. */
  predicate Goes(c: Ctx, k: Key, live: Obj) {
    && c.selector.Some? && !c.noPrune && !live.deleting && !OptsOut(live, AnnotationPrune)
    && LabelHash in live.labels && live.labels[LabelHash] == c.selector.value
    && live.labels[LabelHash] == ObjectSetHash(live.annotations)
    && (c.listerNs == "" || !c.namespaced || k.ns == c.listerNs)
    && k !in c.declared && !(k.ns == c.defaultNs && Key("", k.name) in c.declared)
  }

  /** A key that is not desired: pruned, to linger if it has finalizers, or left alone. */
  lemma PrunedExactly(c: Ctx, w: World, plan: Plan, k: Key)
    requires Follows(c, w, plan) && Outcome(c, w, plan).1 == 0
    requires k !in c.objs && c.SlotOf(k) in w.objs
    ensures var s, live, objs := c.SlotOf(k), w.objs[c.SlotOf(k)], Outcome(c, w, plan).0.objs;
            if !Goes(c, k, live) then s in objs && objs[s] == live
            else if live.finalizers == [] then s !in objs
            else s in objs && Lingers(live, objs[s])
  {
    ProcessDecides(c, w, plan, c.SlotOf(k));
  }

  // ----- a whole apply -----

  /**
   * After an apply without errors, of objects safe from each other across versions, every slot that one version of the
   * kind desires holds what it should, by what it held at the start.
   */
  lemma {:induction false} ApplyLeavesDesired(cfg: Config, desired: ObjectMap, w: World, legs: seq<Leg>, i: nat, k: Key)
    requires ApplyRun(cfg, desired, w, legs) && ApplyAll(cfg, desired, w, legs).1 == 0
    requires SafeLegs(cfg, desired, legs) && OneVersionEach(legs)
    requires i < |legs| && k in legs[i].objs
    ensures var c := CtxFor(cfg, desired, legs[i].gvk, legs[i].objs);
            AsDesired(c, k, legs[i].objs[k], w.At(c.SlotOf(k)), ApplyAll(cfg, desired, w, legs).0.At(c.SlotOf(k)))
    decreases |legs|
  {
    var n := |legs| - 1;
    var init, leg := legs[..n], legs[n];
    var w1 := ApplyAll(cfg, desired, w, init).0;
    LastLeg(cfg, desired, w, legs);
    if i == n {
      UntouchedBefore(cfg, desired, w, legs, n, k);
      DesiredExactly(CtxFor(cfg, desired, leg.gvk, leg.objs), w1, leg.plan, k);
    } else {
      assert init[i] == legs[i];
      FewerLegs(cfg, desired, w, legs);
      ApplyLeavesDesired(cfg, desired, w, init, i, k);
      OtherVersionLeaves(cfg, desired, w1, legs[i], leg, k);
    }
  }

  /** The turn of another version leaves the slot alone. */
  lemma OtherVersionLeaves(cfg: Config, desired: ObjectMap, w: World, a: Leg, b: Leg, k: Key)
    requires SafeFrom(cfg, desired, a, b) && k in a.objs
    requires a.gvk.GroupKind() == b.gvk.GroupKind() ==> k !in b.objs
    requires var c := CtxFor(cfg, desired, b.gvk, b.objs); Follows(c, w, b.plan) && Outcome(c, w, b.plan).1 == 0
    ensures var s := Slot(a.gvk.GroupKind(), k);
            Outcome(CtxFor(cfg, desired, b.gvk, b.objs), w, b.plan).0.At(s) == w.At(s)
  {
    ProcessDecides(CtxFor(cfg, desired, b.gvk, b.objs), w, b.plan, Slot(a.gvk.GroupKind(), k));
  }

  lemma {:induction false} UntouchedBefore(cfg: Config, desired: ObjectMap, w: World, legs: seq<Leg>, m: nat, k: Key)
    requires legs != [] && m <= |legs| - 1
    requires ApplyRun(cfg, desired, w, legs[..m]) && ApplyAll(cfg, desired, w, legs[..m]).1 == 0
    requires SafeLegs(cfg, desired, legs) && OneVersionEach(legs) && k in legs[|legs| - 1].objs
    ensures var s := Slot(legs[|legs| - 1].gvk.GroupKind(), k);
            ApplyAll(cfg, desired, w, legs[..m]).0.At(s) == w.At(s)
    decreases m
  {
    if m > 0 {
      assert legs[..m][..m - 1] == legs[..m - 1] && legs[..m][m - 1] == legs[m - 1];
      LastLeg(cfg, desired, w, legs[..m]);
      UntouchedBefore(cfg, desired, w, legs, m - 1, k);
      OtherVersionLeaves(cfg, desired, ApplyAll(cfg, desired, w, legs[..m - 1]).0, legs[|legs| - 1], legs[m - 1], k);
    }
  }

  // ----- back to the declaration -----

  /** The annotations that name the owner, put over others. */
  function WithIdentity(cfg: Config, a: map<Label, string>): map<Label, string> {
    if cfg.owner.None? then a[LabelSubContext := cfg.subContext]
    else a[LabelSubContext := cfg.subContext][LabelGVK := GVKText(cfg.owner.value.gvk)]
          [LabelName := cfg.owner.value.key.name][LabelNamespace := cfg.owner.value.key.ns]
  }

  /** What stamping makes of an object: the hash, and the identity of the owner; nothing else changes. */
  predicate IsStamped(cfg: Config, o: Obj, made: Obj) {
    && made.key == o.key && made.owners == o.owners && made.finalizers == o.finalizers
    && made.deleting == o.deleting && made.body == o.body
    && made.labels == o.labels[LabelHash := IdentityHash(cfg)]
    && made.annotations == WithIdentity(cfg, o.annotations - {LabelApplied})
  }

  lemma StampIsExact(cfg: Config, o: Obj)
    requires cfg.subContext != "" || cfg.owner.Some?
    ensures IsStamped(cfg, o, Stamp(IdentityOf(cfg), o))
  {
    var id := IdentityOf(cfg);
    assert o.labels + id.Labels() == o.labels[LabelHash := IdentityHash(cfg)];
    var a := o.annotations - {LabelApplied};
    if cfg.owner.None? {
      assert a + id.Annotations() == a[LabelSubContext := cfg.subContext];
    } else {
      assert a + id.Annotations() == WithIdentity(cfg, a);
    }
  }

  /** Without an identity nothing is stamped; only the old record is dropped. */
  lemma UnstampedIsExact(cfg: Config, o: Obj)
    requires cfg.subContext == "" && cfg.owner.None?
    ensures Stamp(IdentityOf(cfg), o) == o.(annotations := o.annotations - {LabelApplied})
  {
    assert o.labels + map[] == o.labels;
    assert (o.annotations - {LabelApplied}) + map[] == o.annotations - {LabelApplied};
  }

  /**
   * An object gets a reference to its owner unless it has one by that UID, or the owner has no UID, or the object opts out
   * of pruning, or the reference would cross namespaces.
   */
  ghost predicate GetsReference(cfg: Config, g: GVK, d: Key, o: Obj) {
    && cfg.owner.Some? && cfg.owner.value.uid != "" && !OptsOut(o, AnnotationPrune)
    && (forall i :: 0 <= i < |o.owners| ==> o.owners[i].uid != cfg.owner.value.uid)
    && (cfg.scope(cfg.owner.value.gvk).NamespacedScope? ==>
          cfg.scope(g).NamespacedScope? && (d.ns == "" || d.ns == cfg.owner.value.key.ns))
  }

  /** All that normalising changes of an object: its key, and at most one reference more. */
  ghost predicate IsNormalised(cfg: Config, g: GVK, d: Key, o: Obj, made: Obj) {
    && made.key == NormalKey(cfg, g, d)
    && made.labels == o.labels && made.annotations == o.annotations
    && made.finalizers == o.finalizers && made.deleting == o.deleting && made.body == o.body
    && made.owners ==
       if GetsReference(cfg, g, d, o) then
         o.owners + [OwnerRef(cfg.owner.value.gvk, cfg.owner.value.key.name, cfg.owner.value.uid)]
       else o.owners
  }

  lemma WithOwnerExactly(own: Owner, o: Obj)
    ensures WithOwner(own, o) ==
            if own.uid != "" && !OptsOut(o, AnnotationPrune) && forall i :: 0 <= i < |o.owners| ==> o.owners[i].uid != own.uid
            then o.(owners := o.owners + [OwnerRef(own.gvk, own.key.name, own.uid)]) else o
  {
    if exists i :: 0 <= i < |o.owners| && o.owners[i].uid == own.uid {
      var i :| 0 <= i < |o.owners| && o.owners[i].uid == own.uid;
      assert o.owners[i] in o.owners;
    }
  }

  /** The same in every field but the key. */
  predicate SameButKey(a: Obj, b: Obj) {
    && a.labels == b.labels && a.annotations == b.annotations && a.owners == b.owners
    && a.finalizers == b.finalizers && a.deleting == b.deleting && a.body == b.body
  }

  /** The object with its owner reference, if it gets one. */
  ghost function Referring(cfg: Config, g: GVK, d: Key, o: Obj): Obj {
    if GetsReference(cfg, g, d, o)
    then o.(owners := o.owners + [OwnerRef(cfg.owner.value.gvk, cfg.owner.value.key.name, cfg.owner.value.uid)]) else o
  }

  lemma AssignOneIs(cfg: Config, g: GVK, d: Key, o: Obj)
    requires cfg.owner.Some? && o.key == d
    requires var own := cfg.owner.value; !(cfg.scope(own.gvk).NamespacedScope? && !cfg.scope(g).NamespacedScope?)
    ensures var own, nsed := cfg.owner.value, cfg.scope(g).NamespacedScope?;
            var made := AssignOne(own, cfg.scope(own.gvk).NamespacedScope?, nsed)(d, o);
            SameButKey(made, Referring(cfg, g, d, o)) && made.key == To(own.key.ns, nsed, d)
  {
    var own := cfg.owner.value;
    WithOwnerExactly(own, o);
    WithOwnerExactly(own, InNamespace(o, own.key.ns));
  }

  lemma AssignedIs(cfg: Config, g: GVK, declared: map<Key, Obj>, k: Key) returns (d: Key)
    requires KeysAgree(declared) && k in OwnerAssigned(cfg, g, declared)
    ensures d in declared && k == AssignedKey(cfg, g, d)
    ensures var o := OwnerAssigned(cfg, g, declared)[k]; o.key == k && SameButKey(o, Referring(cfg, g, d, declared[d]))
    ensures cfg.scope(g).NamespacedScope? && cfg.owner.Some? && k.ns == cfg.owner.value.key.ns && Key("", k.name) in declared
            ==> d == Key("", k.name)
  {
    d := k;
    if cfg.owner.Some? {
      var own := cfg.owner.value;
      var ownerNsed, nsed := cfg.scope(own.gvk).NamespacedScope?, cfg.scope(g).NamespacedScope?;
      if !(ownerNsed && !nsed) {
        RehomedFrom(own.key.ns, nsed, AssignOne(own, ownerNsed, nsed), declared, k);
        d := From(own.key.ns, nsed, declared.Keys, k);
        AssignOneIs(cfg, g, d, declared[d]);
      }
    }
  }

  lemma PlacedIs(cfg: Config, g: GVK, mid: map<Key, Obj>, objs: map<Key, Obj>, k: Key) returns (m: Key)
    requires KeysAgree(mid) && Placed(cfg, g, mid, objs) && k in objs
    ensures m in mid && k == PlacedKey(cfg, g, m) && objs[k].key == k && SameButKey(objs[k], mid[m])
    ensures cfg.scope(g).NamespacedScope? && k.ns == cfg.defaultNs && Key("", k.name) in mid ==> m == Key("", k.name)
  {
    if cfg.scope(g).NamespacedScope? {
      RehomedFrom(cfg.defaultNs, true, AdjustOne(cfg.defaultNs), mid, k);
      m := From(cfg.defaultNs, true, mid.Keys, k);
    } else {
      assert ClearedFrom(mid, k.name, objs[k]);
      m := SourceOf(mid, k.name, objs[k]);
    }
  }

  /** Every normalised object is one declared object, with its new key and its owner reference. */
  lemma NormalContents(cfg: Config, g: GVK, declared: map<Key, Obj>, objs: map<Key, Obj>, k: Key) returns (d: Key)
    requires KeysAgree(declared) && NormalForm(cfg, g, declared, objs) && k in objs
    ensures d in declared && k == NormalKey(cfg, g, d) && IsNormalised(cfg, g, d, declared[d], objs[k])
  {
    var mid := OwnerAssigned(cfg, g, declared);
    AssignedAgree(cfg, g, declared);
    var m := PlacedIs(cfg, g, mid, objs, k);
    d := AssignedIs(cfg, g, declared, m);
    NormalKeyInSteps(cfg, g, d);
  }

  /** An object declared without a namespace keeps the place it is moved to, whoever was there. */
  lemma AssignedWins(cfg: Config, g: GVK, declared: map<Key, Obj>, d: Key)
    requires KeysAgree(declared) && d in declared && d.ns == "" && cfg.scope(g).NamespacedScope?
    ensures var mid, k := OwnerAssigned(cfg, g, declared), AssignedKey(cfg, g, d);
            k in mid && SameButKey(mid[k], Referring(cfg, g, d, declared[d]))
  {
    AssignedTo(cfg, g, declared, d);
    assert d == Key("", d.name);
    var from := AssignedIs(cfg, g, declared, AssignedKey(cfg, g, d));
  }

  lemma PlacedWins(cfg: Config, g: GVK, mid: map<Key, Obj>, objs: map<Key, Obj>, m: Key)
    requires KeysAgree(mid) && Placed(cfg, g, mid, objs) && m in mid && cfg.scope(g).NamespacedScope?
    requires m.ns == "" || Key("", m.name) !in mid
    ensures var k := PlacedKey(cfg, g, m); k in objs && SameButKey(objs[k], mid[m])
  {
    var k := PlacedKey(cfg, g, m);
    PlacedTo(cfg, g, mid, objs, m);
    assert m.ns == "" ==> m == Key("", m.name);
    var from := PlacedIs(cfg, g, mid, objs, k);
  }

  /** Once an owner filled in its namespace no object is without one. */
  lemma NoneUnplaced(cfg: Config, g: GVK, declared: map<Key, Obj>, name: string)
    requires KeysAgree(declared) && cfg.scope(g).NamespacedScope? && cfg.owner.Some? && cfg.owner.value.key.ns != ""
    ensures Key("", name) !in OwnerAssigned(cfg, g, declared)
  {
    if Key("", name) in OwnerAssigned(cfg, g, declared) {
      var d := AssignedIs(cfg, g, declared, Key("", name));
    }
  }

  lemma UnplacedWins(cfg: Config, g: GVK, declared: map<Key, Obj>, objs: map<Key, Obj>, d: Key)
    requires KeysAgree(declared) && NormalForm(cfg, g, declared, objs)
    requires d in declared && d.ns == "" && cfg.scope(g).NamespacedScope?
    ensures var k := NormalKey(cfg, g, d); k in objs && IsNormalised(cfg, g, d, declared[d], objs[k])
  {
    var mid, k := OwnerAssigned(cfg, g, declared), NormalKey(cfg, g, d);
    AssignedAgree(cfg, g, declared);
    AssignedWins(cfg, g, declared, d);
    if cfg.owner.Some? && cfg.owner.value.key.ns != "" {
      NoneUnplaced(cfg, g, declared, d.name);
    }
    PlacedWins(cfg, g, mid, objs, AssignedKey(cfg, g, d));
    NormalKeyInSteps(cfg, g, d);
    var from := NormalContents(cfg, g, declared, objs, k);
  }

  /** Nothing else of the kind is declared that ends up under the same key, or it has to give way. */
  ghost predicate Wins(cfg: Config, desired: ObjectMap, g: GVK, d: Key) {
    || (d.ns == "" && cfg.scope(g).NamespacedScope?)
    || forall x :: x in Objects(desired, g) && NormalKey(cfg, g, x) == NormalKey(cfg, g, d) ==> x == d
  }

  /** What is processed for an object that shares its key with no other, or has it before any other. */
  lemma ProcessedIs(cfg: Config, declared: ObjectMap, leg: Leg, d: Key)
    requires WellFormed(declared) && (cfg.subContext != "" || cfg.owner.Some?)
    requires Normal(cfg, Inject(IdentityOf(cfg), declared), leg)
    requires d in Objects(declared, leg.gvk) && Wins(cfg, declared, leg.gvk, d)
    ensures var k := NormalKey(cfg, leg.gvk, d);
            && k in leg.objs && IsNormalised(cfg, leg.gvk, d, Stamp(IdentityOf(cfg), declared[leg.gvk][d]), leg.objs[k])
            && IsStamped(cfg, declared[leg.gvk][d], Stamp(IdentityOf(cfg), declared[leg.gvk][d]))
  {
    var desired, g := Inject(IdentityOf(cfg), declared), leg.gvk;
    InjectStamps(cfg, declared);
    StampIsExact(cfg, declared[g][d]);
    if d.ns == "" && cfg.scope(g).NamespacedScope? {
      UnplacedWins(cfg, g, Objects(desired, g), leg.objs, d);
    } else {
      NormalTo(cfg, g, Objects(desired, g), leg.objs, d);
      var from := NormalContents(cfg, g, Objects(desired, g), leg.objs, NormalKey(cfg, g, d));
      assert from in Objects(declared, g) && from == d;
    }
  }

  /** The object on the server is the declared one, stamped, in its place, with its owner reference and the record. */
  ghost predicate IsDeclared(cfg: Config, g: GVK, d: Key, o: Obj, record: string, at: Obj) {
    && at.key == NormalKey(cfg, g, d) && !at.deleting
    && at.body == o.body && at.finalizers == o.finalizers
    && at.labels == o.labels[LabelHash := IdentityHash(cfg)]
    && at.annotations == WithIdentity(cfg, o.annotations)[LabelApplied := record]
    && at.owners ==
       if GetsReference(cfg, g, d, o) then
         o.owners + [OwnerRef(cfg.owner.value.gvk, cfg.owner.value.key.name, cfg.owner.value.uid)]
       else o.owners
  }

  lemma RecordIsRenewed(cfg: Config, a: map<Label, string>, record: string)
    ensures WithIdentity(cfg, a - {LabelApplied})[LabelApplied := record] == WithIdentity(cfg, a)[LabelApplied := record]
  {}

  /** From the declared object to the created one, through stamping, normalising and preparing. */
  lemma DeclaredThroughout(cfg: Config, rules: Rules, g: GVK, d: Key, o: Obj, stamped: Obj, want: Obj, at: Obj)
    requires IsStamped(cfg, o, stamped) && IsNormalised(cfg, g, d, stamped, want) && IsDesired(rules, want, at)
    ensures IsDeclared(cfg, g, d, o, rules.serialize(want), at)
  {
    RecordIsRenewed(cfg, o.annotations, rules.serialize(want));
    assert OptsOut(stamped, AnnotationPrune) <==> OptsOut(o, AnnotationPrune);
  }

  /** Stamping and normalising leave the opting-out annotations alone. */
  lemma OptsAsDeclared(cfg: Config, g: GVK, d: Key, o: Obj, stamped: Obj, want: Obj)
    requires IsStamped(cfg, o, stamped) && IsNormalised(cfg, g, d, stamped, want)
    ensures forall l :: l in {AnnotationCreate, AnnotationUpdate, AnnotationPrune} ==> (OptsOut(want, l) <==> OptsOut(o, l))
  {}

  /**
   * From what an owner declares to what the server holds: after an apply without errors a declared object whose slot was
   * free is there with its contents, its owner's identity and hash, its owner reference, and the record of what was
   * applied; unless it opts out of being created, and then the slot is still free.
   */
  lemma DeclaredIsCreated(cfg: Config, declared: ObjectMap, w: World, legs: seq<Leg>, i: nat, d: Key)
    requires WellFormed(declared) && (cfg.subContext != "" || cfg.owner.Some?)
    requires var desired := Inject(IdentityOf(cfg), declared);
             && ApplyRun(cfg, desired, w, legs) && ApplyAll(cfg, desired, w, legs).1 == 0
             && SafeDeclaration(cfg, desired, legs)
             && forall i, j :: 0 <= i < |legs| && 0 <= j < |legs| && i != j ==>
                  OneVersionDeclared(cfg, desired, legs[i].gvk, legs[j].gvk)
    requires i < |legs| && d in Objects(declared, legs[i].gvk) && Wins(cfg, declared, legs[i].gvk, d)
    requires Slot(legs[i].gvk.GroupKind(), NormalKey(cfg, legs[i].gvk, d)) !in w.objs
    ensures var g, k := legs[i].gvk, NormalKey(cfg, legs[i].gvk, d);
            var o, s, objs := declared[g][d], Slot(g.GroupKind(), k), ApplyAll(cfg, Inject(IdentityOf(cfg), declared), w, legs).0.objs;
            && k in legs[i].objs
            && if OptsOut(o, AnnotationCreate) then s !in objs
               else s in objs && IsDeclared(cfg, g, d, o, cfg.rules.serialize(legs[i].objs[k]), objs[s])
  {
    var desired, g, k := Inject(IdentityOf(cfg), declared), legs[i].gvk, NormalKey(cfg, legs[i].gvk, d);
    InjectStamps(cfg, declared);
    SafeLegsExactly(cfg, desired, w, legs);
    OneVersionFollows(cfg, desired, w, legs);
    RunIsNormal(cfg, desired, w, legs, i);
    ProcessedIs(cfg, declared, legs[i], d);
    ApplyLeavesDesired(cfg, desired, w, legs, i, k);
    var want, at := legs[i].objs[k], ApplyAll(cfg, desired, w, legs).0.At(Slot(g.GroupKind(), k));
    OptsAsDeclared(cfg, g, d, declared[g][d], Stamp(IdentityOf(cfg), declared[g][d]), want);
    if at.Some? {
      DeclaredThroughout(cfg, cfg.rules, g, d, declared[g][d], Stamp(IdentityOf(cfg), declared[g][d]), want, at.value);
    }
  }
}
