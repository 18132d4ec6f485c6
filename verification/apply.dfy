/**
 * A whole apply (pkg/apply/desiredset_apply.go): stamp the desired objects, then process one GVK after another.
 */
module Apply {
  import opened Kube
  import opened Server
  import opened Process
  import opened Normalise

  datatype Scope = NamespacedScope | ClusterScope | UnknownScope

  datatype Config = Config(rules: Rules,
                           faults: Faults,
                           scope: GVK -> Scope,
                           listerNs: string,
                           defaultNs: string,
                           noPrune: bool,
                           subContext: string,
                           owner: Option<Owner>,
                           pruneTypes: set<GVK>)

  type ObjectMap = map<GVK, map<Key, Obj>>

  // ----- stamping -----

  datatype Identity = NoIdentity | Identity(annotations: map<Label, string>) {
    function Labels(): map<Label, string> {
      if NoIdentity? then map[] else map[LabelHash := ObjectSetHash(annotations)]
    }
    function Annotations(): map<Label, string> {
      if NoIdentity? then map[] else annotations
    }
    /** With no labels there is nothing to select by, and existing objects are looked up by key. */
    function Selector(): Option<string> {
      if NoIdentity? then None else Some(ObjectSetHash(annotations))
    }
  }

  function IdentityOf(cfg: Config): Identity {
    if cfg.subContext == "" && cfg.owner.None? then NoIdentity
    else
      Identity(map[LabelSubContext := cfg.subContext] +
               if cfg.owner.None? then map[]
               else map[LabelGVK := GVKText(cfg.owner.value.gvk),
                        LabelName := cfg.owner.value.key.name,
                        LabelNamespace := cfg.owner.value.key.ns])
  }

  function Stamp(id: Identity, o: Obj): Obj {
    o.(labels := o.labels + id.Labels(), annotations := (o.annotations - {LabelApplied}) + id.Annotations())
  }

  function StampAll(id: Identity, objs: map<Key, Obj>): map<Key, Obj> {
    map k | k in objs :: Stamp(id, objs[k])
  }

  function Inject(id: Identity, desired: ObjectMap): ObjectMap {
    map g | g in desired :: StampAll(id, desired[g])
  }

  ghost predicate Stamped(id: Identity, o: Obj) {
    && (forall l :: l in id.Labels() ==> l in o.labels && o.labels[l] == id.Labels()[l])
    && (forall l :: l in id.Annotations() ==> l in o.annotations && o.annotations[l] == id.Annotations()[l])
  }

  // ----- normal forms -----

  function Objects(desired: ObjectMap, g: GVK): map<Key, Obj> {
    if g in desired then desired[g] else map[]
  }

  function DeclaredKeys(desired: ObjectMap, gk: GK): set<Key> {
    set g, k | g in desired && g.GroupKind() == gk && k in desired[g] :: k
  }

  function OwnerAssigned(cfg: Config, g: GVK, objs: map<Key, Obj>): map<Key, Obj> {
    if cfg.owner.None? then objs
    else Assigned(cfg.owner.value, cfg.scope(cfg.owner.value.gvk).NamespacedScope?, cfg.scope(g).NamespacedScope?, objs)
  }

  /** Namespaces are filled in with the default, or cleared. */
  ghost predicate Placed(cfg: Config, g: GVK, mid: map<Key, Obj>, objs: map<Key, Obj>) {
    if cfg.scope(g).NamespacedScope? then objs == Adjusted(cfg.defaultNs, mid) else Cleared(mid, objs)
  }

  /** `objs` is what normalising the declared objects of a GVK can lead to. */
  ghost predicate NormalForm(cfg: Config, g: GVK, declared: map<Key, Obj>, objs: map<Key, Obj>) {
    Placed(cfg, g, OwnerAssigned(cfg, g, declared), objs)
  }

  /** The key an object is processed under, in terms of the key it was declared with. */
  function NormalKey(cfg: Config, g: GVK, k: Key): Key {
    if !cfg.scope(g).NamespacedScope? then Key("", k.name)
    else if k.ns != "" then k
    else if cfg.owner.Some? && cfg.owner.value.key.ns != "" then Key(cfg.owner.value.key.ns, k.name)
    else Key(cfg.defaultNs, k.name)
  }

  // ----- one GVK after another -----

  function CtxFor(cfg: Config, desired: ObjectMap, g: GVK, objs: map<Key, Obj>): Ctx {
    Ctx(cfg.rules, cfg.faults, g, cfg.scope(g).NamespacedScope?, objs, DeclaredKeys(desired, g.GroupKind()),
        IdentityOf(cfg).Selector(), cfg.listerNs, cfg.defaultNs, cfg.noPrune)
  }

  /** One call of `process`: its GVK, the normalised objects, and the order of its passes. */
  datatype Leg = Leg(gvk: GVK, objs: map<Key, Obj>, plan: Plan)

  /** A GVK, or an owner's GVK, the REST mapper does not know ends the call before it does anything. */
  predicate KnownScope(cfg: Config, g: GVK) {
    !cfg.scope(g).UnknownScope? && (cfg.owner.Some? ==> !cfg.scope(cfg.owner.value.gvk).UnknownScope?)
  }

  ghost predicate LegOk(cfg: Config, desired: ObjectMap, w: World, leg: Leg) {
    KnownScope(cfg, leg.gvk) ==>
      && NormalForm(cfg, leg.gvk, Objects(desired, leg.gvk), leg.objs)
      && Follows(CtxFor(cfg, desired, leg.gvk, leg.objs), w, leg.plan)
  }

  function LegOutcome(cfg: Config, desired: ObjectMap, w: World, leg: Leg): (World, nat)
    requires LegOk(cfg, desired, w, leg)
  {
    if KnownScope(cfg, leg.gvk) then Outcome(CtxFor(cfg, desired, leg.gvk, leg.objs), w, leg.plan)
    else (w, 1)
  }

  ghost predicate ApplyRun(cfg: Config, desired: ObjectMap, w: World, legs: seq<Leg>)
    decreases |legs|, 0
  {
    legs == [] ||
    (ApplyRun(cfg, desired, w, legs[..|legs| - 1]) &&
     LegOk(cfg, desired, ApplyAll(cfg, desired, w, legs[..|legs| - 1]).0, legs[|legs| - 1]))
  }

  /** The world after all legs, and the number of errors; an error in one leg does not stop the next. */
  function ApplyAll(cfg: Config, desired: ObjectMap, w: World, legs: seq<Leg>): (World, nat)
    requires ApplyRun(cfg, desired, w, legs)
    decreases |legs|, 1
  {
    if legs == [] then (w, 0)
    else AddLeg(cfg, desired, ApplyAll(cfg, desired, w, legs[..|legs| - 1]), legs[|legs| - 1])
  }

  function AddLeg(cfg: Config, desired: ObjectMap, sofar: (World, nat), leg: Leg): (World, nat)
    requires LegOk(cfg, desired, sofar.0, leg)
  {
    var (w, errs) := LegOutcome(cfg, desired, sofar.0, leg);
    (w, sofar.1 + errs)
  }

  lemma LastLegAdds(cfg: Config, desired: ObjectMap, w: World, legs: seq<Leg>)
    requires legs != [] && ApplyRun(cfg, desired, w, legs[..|legs| - 1])
    requires LegOk(cfg, desired, ApplyAll(cfg, desired, w, legs[..|legs| - 1]).0, legs[|legs| - 1])
    ensures ApplyRun(cfg, desired, w, legs)
    ensures ApplyAll(cfg, desired, w, legs) ==
            AddLeg(cfg, desired, ApplyAll(cfg, desired, w, legs[..|legs| - 1]), legs[|legs| - 1])
  {}

  lemma AllButLast(cfg: Config, desired: ObjectMap, w: World, legs: seq<Leg>, leg: Leg, more: seq<Leg>)
    requires ApplyRun(cfg, desired, w, legs) && more == legs + [leg]
    ensures ApplyRun(cfg, desired, w, more[..|more| - 1]) && more[|more| - 1] == leg
    ensures ApplyAll(cfg, desired, w, more[..|more| - 1]) == ApplyAll(cfg, desired, w, legs)
  {
    assert more[..|more| - 1] == legs;
  }

  lemma OneMoreLeg(cfg: Config, desired: ObjectMap, w: World, legs: seq<Leg>, leg: Leg, more: seq<Leg>)
    requires ApplyRun(cfg, desired, w, legs) && LegOk(cfg, desired, ApplyAll(cfg, desired, w, legs).0, leg)
    requires more == legs + [leg]
    ensures ApplyRun(cfg, desired, w, more)
  {
    AllButLast(cfg, desired, w, legs, leg, more);
    LastLegAdds(cfg, desired, w, more);
  }

  lemma OneMoreLegAdds(cfg: Config, desired: ObjectMap, w: World, legs: seq<Leg>, leg: Leg, more: seq<Leg>)
    requires ApplyRun(cfg, desired, w, legs) && LegOk(cfg, desired, ApplyAll(cfg, desired, w, legs).0, leg)
    requires more == legs + [leg] && ApplyRun(cfg, desired, w, more)
    ensures ApplyAll(cfg, desired, w, more) == AddLeg(cfg, desired, ApplyAll(cfg, desired, w, legs), leg)
  {
    AllButLast(cfg, desired, w, legs, leg, more);
    LastLegAdds(cfg, desired, w, more);
  }

  /** Where an apply stands after some legs. */
  ghost predicate Reached(cfg: Config, desired: ObjectMap, w: World, legs: seq<Leg>, now: World, errs: nat) {
    ApplyRun(cfg, desired, w, legs) && (now, errs) == ApplyAll(cfg, desired, w, legs)
  }

  lemma ReachedMore(cfg: Config, desired: ObjectMap, w: World, legs: seq<Leg>, now: World, errs: nat,
                    leg: Leg, next: World, more: nat)
    requires Reached(cfg, desired, w, legs, now, errs)
    requires LegOk(cfg, desired, now, leg) && (next, more) == LegOutcome(cfg, desired, now, leg)
    ensures Reached(cfg, desired, w, legs + [leg], next, errs + more)
  {
    OneMoreLeg(cfg, desired, w, legs, leg, legs + [leg]);
    OneMoreLegAdds(cfg, desired, w, legs, leg, legs + [leg]);
  }

  /** The leg's objects are a normal form of what was declared. */
  ghost predicate Normal(cfg: Config, desired: ObjectMap, leg: Leg) {
    KnownScope(cfg, leg.gvk) && NormalForm(cfg, leg.gvk, Objects(desired, leg.gvk), leg.objs)
  }

  /** Whatever goes wrong, an apply normalises every kind whose scope is known; without errors, that is every kind. */
  lemma {:induction false} RunIsNormal(cfg: Config, desired: ObjectMap, w: World, legs: seq<Leg>, i: nat)
    requires ApplyRun(cfg, desired, w, legs) && i < |legs|
    ensures KnownScope(cfg, legs[i].gvk) ==> Normal(cfg, desired, legs[i])
    ensures ApplyAll(cfg, desired, w, legs).1 == 0 ==> KnownScope(cfg, legs[i].gvk)
    decreases |legs|
  {
    if i < |legs| - 1 {
      RunIsNormal(cfg, desired, w, legs[..|legs| - 1], i);
    }
  }

  /** Each GVK of the set and each prune type is processed, once. */
  ghost predicate Covers(cfg: Config, desired: ObjectMap, legs: seq<Leg>) {
    && (forall i, j :: 0 <= i < j < |legs| ==> legs[i].gvk != legs[j].gvk)
    && (forall g :: g in desired || g in cfg.pruneTypes <==> exists i :: 0 <= i < |legs| && legs[i].gvk == g)
  }

  ghost predicate WellFormed(desired: ObjectMap) {
    forall g :: g in desired ==> KeysAgree(desired[g])
  }

  // ----- what normalisation keeps -----

  lemma AssignOneKeeps(own: Owner, ownerNsed: bool, nsed: bool, d: Key, o: Obj)
    requires o.key == d
    ensures var v := AssignOne(own, ownerNsed, nsed)(d, o);
            v.key == To(own.key.ns, nsed, d) && v.labels == o.labels && v.annotations == o.annotations
  {}

  lemma AssignedFrom(cfg: Config, g: GVK, declared: map<Key, Obj>, k: Key) returns (d: Key)
    requires KeysAgree(declared) && k in OwnerAssigned(cfg, g, declared)
    ensures var o := OwnerAssigned(cfg, g, declared)[k];
            && d in declared && o.key == k
            && o.labels == declared[d].labels && o.annotations == declared[d].annotations
    ensures k == if cfg.scope(g).NamespacedScope? && d.ns == "" && cfg.owner.Some?
                 then Key(cfg.owner.value.key.ns, d.name) else d
  {
    d := k;
    if cfg.owner.Some? {
      var own := cfg.owner.value;
      var ownerNsed, nsed := cfg.scope(own.gvk).NamespacedScope?, cfg.scope(g).NamespacedScope?;
      if !(ownerNsed && !nsed) {
        RehomedFrom(own.key.ns, nsed, AssignOne(own, ownerNsed, nsed), declared, k);
        d := From(own.key.ns, nsed, declared.Keys, k);
        AssignOneKeeps(own, ownerNsed, nsed, d, declared[d]);
      }
    }
  }

  lemma AdjustedFrom(cfg: Config, mid: map<Key, Obj>, k: Key) returns (m: Key)
    requires KeysAgree(mid) && k in Adjusted(cfg.defaultNs, mid)
    ensures m in mid && k == To(cfg.defaultNs, true, m)
    ensures var o := Adjusted(cfg.defaultNs, mid)[k];
            o.key == k && o.labels == mid[m].labels && o.annotations == mid[m].annotations
  {
    RehomedFrom(cfg.defaultNs, true, AdjustOne(cfg.defaultNs), mid, k);
    m := From(cfg.defaultNs, true, mid.Keys, k);
  }

  lemma AssignedAgree(cfg: Config, g: GVK, objs: map<Key, Obj>)
    requires KeysAgree(objs)
    ensures KeysAgree(OwnerAssigned(cfg, g, objs))
  {
    forall k | k in OwnerAssigned(cfg, g, objs) ensures OwnerAssigned(cfg, g, objs)[k].key == k {
      var _ := AssignedFrom(cfg, g, objs, k);
    }
  }

  /** The object that a normalised one was before its namespace was filled in or cleared. */
  lemma PlacedFrom(cfg: Config, g: GVK, declared: map<Key, Obj>, objs: map<Key, Obj>, k: Key) returns (m: Key)
    requires KeysAgree(OwnerAssigned(cfg, g, declared)) && NormalForm(cfg, g, declared, objs) && k in objs
    ensures var mid := OwnerAssigned(cfg, g, declared);
            && m in mid && objs[k].key == k && objs[k].labels == mid[m].labels && objs[k].annotations == mid[m].annotations
            && (if cfg.scope(g).NamespacedScope? then k == (if m.ns == "" then Key(cfg.defaultNs, m.name) else m)
                else k == Key("", m.name))
  {
    var mid := OwnerAssigned(cfg, g, declared);
    if cfg.scope(g).NamespacedScope? {
      m := AdjustedFrom(cfg, mid, k);
    } else {
      assert ClearedFrom(mid, k.name, objs[k]);
      m := SourceOf(mid, k.name, objs[k]);
    }
  }

  /** Every normalised object carries its own key, and the labels and annotations of one declared object. */
  lemma NormalFrom(cfg: Config, g: GVK, declared: map<Key, Obj>, objs: map<Key, Obj>, k: Key) returns (d: Key)
    requires KeysAgree(declared) && NormalForm(cfg, g, declared, objs) && k in objs
    ensures d in declared && objs[k].key == k && k == NormalKey(cfg, g, d)
    ensures objs[k].labels == declared[d].labels && objs[k].annotations == declared[d].annotations
  {
    AssignedAgree(cfg, g, declared);
    var m := PlacedFrom(cfg, g, declared, objs, k);
    d := AssignedFrom(cfg, g, declared, m);
  }

  /** The key an object has once owner references are assigned. */
  function AssignedKey(cfg: Config, g: GVK, d: Key): Key {
    if cfg.owner.None? then d else To(cfg.owner.value.key.ns, cfg.scope(g).NamespacedScope?, d)
  }

  lemma AssignedTo(cfg: Config, g: GVK, declared: map<Key, Obj>, d: Key)
    requires d in declared
    ensures AssignedKey(cfg, g, d) in OwnerAssigned(cfg, g, declared)
  {
    if cfg.owner.Some? {
      var own, nsed := cfg.owner.value, cfg.scope(g).NamespacedScope?;
      AssignedHas(own, cfg.scope(own.gvk).NamespacedScope?, nsed, declared, d);
    }
  }

  /** The key it has once namespaces are filled in or cleared. */
  function PlacedKey(cfg: Config, g: GVK, m: Key): Key {
    if cfg.scope(g).NamespacedScope? then To(cfg.defaultNs, true, m) else Key("", m.name)
  }

  lemma PlacedTo(cfg: Config, g: GVK, mid: map<Key, Obj>, objs: map<Key, Obj>, m: Key)
    requires m in mid && Placed(cfg, g, mid, objs)
    ensures PlacedKey(cfg, g, m) in objs
  {
    if cfg.scope(g).NamespacedScope? {
      RehomedTo(cfg.defaultNs, true, AdjustOne(cfg.defaultNs), mid, m);
    }
  }

  lemma NormalKeyInSteps(cfg: Config, g: GVK, d: Key)
    ensures NormalKey(cfg, g, d) == PlacedKey(cfg, g, AssignedKey(cfg, g, d))
  {}

  /** Every declared object has a place after normalisation. */
  lemma NormalTo(cfg: Config, g: GVK, declared: map<Key, Obj>, objs: map<Key, Obj>, d: Key)
    requires NormalForm(cfg, g, declared, objs) && d in declared
    ensures NormalKey(cfg, g, d) in objs
  {
    AssignedTo(cfg, g, declared, d);
    PlacedTo(cfg, g, OwnerAssigned(cfg, g, declared), objs, AssignedKey(cfg, g, d));
    NormalKeyInSteps(cfg, g, d);
  }

  ghost predicate HasNormalKey(cfg: Config, g: GVK, declared: map<Key, Obj>, k: Key) {
    exists d :: d in declared && NormalKey(cfg, g, d) == k
  }

  /** The keys processed are exactly the normalised keys of the declared objects. */
  lemma NormalKeysExactly(cfg: Config, g: GVK, declared: map<Key, Obj>, objs: map<Key, Obj>, k: Key)
    requires KeysAgree(declared) && NormalForm(cfg, g, declared, objs)
    ensures k in objs <==> HasNormalKey(cfg, g, declared, k)
  {
    if k in objs {
      var d := NormalFrom(cfg, g, declared, objs, k);
    }
    if HasNormalKey(cfg, g, declared, k) {
      var d :| d in declared && NormalKey(cfg, g, d) == k;
      NormalTo(cfg, g, declared, objs, d);
    }
  }

  /**
   * Whether the cross-version filter finds an object again, going by how it was declared: the namespace was given, or
   * filled in from the default, or filled in from an owner in the default namespace, or the key it ends up under was
   * declared too. In a cluster-scoped kind a given namespace is cleared, and only the last remains.
   */
  predicate FoundAgain(cfg: Config, desired: ObjectMap, g: GVK, d: Key) {
    || NormalKey(cfg, g, d) in DeclaredKeys(desired, g.GroupKind())
    || (cfg.scope(g).NamespacedScope? && d.ns == "" && FilledWithDefault(cfg))
  }

  predicate FilledWithDefault(cfg: Config) {
    cfg.owner.None? || cfg.owner.value.key.ns == "" || cfg.owner.value.key.ns == cfg.defaultNs
  }

  /** The filter protects the normalised key of a declared object exactly when it finds it again. */
  lemma ShieldedExactly(cfg: Config, desired: ObjectMap, g: GVK, h: GVK, objs: map<Key, Obj>, d: Key)
    requires d in Objects(desired, g) && h.GroupKind() == g.GroupKind()
    ensures Shielded(CtxFor(cfg, desired, h, objs), NormalKey(cfg, g, d)) <==> FoundAgain(cfg, desired, g, d)
    ensures cfg.scope(g).NamespacedScope? && d.ns != "" ==> FoundAgain(cfg, desired, g, d)
    ensures !cfg.scope(g).NamespacedScope? && d.ns == "" ==> FoundAgain(cfg, desired, g, d)
  {
    assert d == Key(d.ns, d.name) && d in DeclaredKeys(desired, g.GroupKind());
  }
}
