/**
 * Who may take an object from whom (pkg/apply/desiredset_process.go), said of the labels and annotations themselves: an
 * object without a hash goes to whoever desires it, and one with a hash only to its own owner under a new sub-context,
 * or by a registered change of owner.
 */
module Takeover {
  import opened Kube
  import opened Server
  import opened Process
  import opened Ownership
  import opened Normalise
  import opened Apply
  import opened Convergence
  import opened Reconcile
  import opened History

  /** What is written under a name; nothing and the empty text are the same. */
  function Text(m: map<Label, string>, l: Label): string {
    if l in m then m[l] else ""
  }

  predicate IsOwnerField(l: Label) {
    l == LabelGVK || l == LabelName || l == LabelNamespace
  }

  /** Both name the same owner; the live object has no sub-context yet, the desired one has. */
  ghost predicate GainsSubContext(live: Obj, want: Obj) {
    && Text(live.annotations, LabelSubContext) == "" && Text(want.annotations, LabelSubContext) != ""
    && forall l :: IsOwnerField(l) ==> Text(live.annotations, l) == Text(want.annotations, l)
  }

  /** The change between the sub-contexts is registered, and what the live object says of its owner does not conflict. */
  ghost predicate ChangesOwner(transitions: set<string>, live: Obj, want: Obj) {
    && Text(want.annotations, LabelSubContext) != ""
    && Text(live.annotations, LabelSubContext) + " => " + Text(want.annotations, LabelSubContext) in transitions
    && forall l :: IsOwnerField(l) ==>
         Text(live.annotations, l) == "" || Text(live.annotations, l) == Text(want.annotations, l)
  }

  /** Who gets a live object that stands in the way of a create. */
  ghost predicate Granted(transitions: set<string>, live: Obj, want: Obj) {
    || Text(live.labels, LabelHash) == ""
    || GainsSubContext(live, want)
    || ChangesOwner(transitions, live, want)
  }

  lemma MayTakeOverExactly(rules: Rules, live: Obj, want: Obj)
    ensures MayTakeOver(rules, live, want) <==> Granted(rules.transitions, live, want)
  {
    assert IsOwnerField(LabelGVK) && IsOwnerField(LabelName) && IsOwnerField(LabelNamespace);
    assert forall l :: live.Annotation(l) == Text(live.annotations, l) && want.Annotation(l) == Text(want.annotations, l);
  }

  /** The two calls of a create that runs into an object get through. */
  predicate CallsSucceed(c: Ctx, w: World) {
    !c.faults(w.calls) && !c.faults(w.calls + 1)
  }

  /**
   * A create that runs into an object writes nothing. It ends without an error exactly if its calls get through and the
   * object is granted; then that is the object to compare with, and the key is queued unless it opts out of updates.
   */
  lemma TakesOverExactly(c: Ctx, p: Pass, k: Key)
    requires k in c.objs && p.w.At(c.SlotOf(k)).Some?
    ensures var q, live, want := CreateStep(c, p, k), p.w.At(c.SlotOf(k)).value, c.objs[k];
            && q.w.objs == p.w.objs && q.w.log == p.w.log && q.toReplace == p.toReplace
            && if CallsSucceed(c, p.w) && Granted(c.rules.transitions, live, want) then
                 && q.errs == p.errs && q.existing == p.existing[k := live]
                 && q.toUpdate == if Text(want.annotations, AnnotationUpdate) == "false" then p.toUpdate
                                  else p.toUpdate + [k]
               else q.errs == p.errs + 1 && q.existing == p.existing && q.toUpdate == p.toUpdate
  {
    var want, live := c.objs[k], p.w.At(c.SlotOf(k)).value;
    MayTakeOverExactly(c.rules, live, Prepare(c.rules, want));
    assert forall l :: l != LabelApplied ==>
        Text(Prepare(c.rules, want).annotations, l) == Text(want.annotations, l);
  }

  /** An object without a hash is taken over by whoever creates it. */
  lemma UnownedIsTakenOver(c: Ctx, p: Pass, k: Key)
    requires k in c.objs && p.w.At(c.SlotOf(k)).Some? && CallsSucceed(c, p.w)
    requires var labels := p.w.At(c.SlotOf(k)).value.labels; LabelHash in labels ==> labels[LabelHash] == ""
    ensures CreateStep(c, p, k).errs == p.errs
    ensures CreateStep(c, p, k).Existing(k) == p.w.At(c.SlotOf(k))
    ensures !(AnnotationUpdate in c.objs[k].annotations && c.objs[k].annotations[AnnotationUpdate] == "false") ==>
              CreateStep(c, p, k).toUpdate == p.toUpdate + [k]
  {
    TakesOverExactly(c, p, k);
  }

  /** With another owner's hash on the object there are two ways to get it, and no third. */
  lemma ForeignIsTakenOverExactly(c: Ctx, p: Pass, k: Key)
    requires k in c.objs && p.w.At(c.SlotOf(k)).Some? && CallsSucceed(c, p.w)
    requires var labels := p.w.At(c.SlotOf(k)).value.labels; LabelHash in labels && labels[LabelHash] != ""
    ensures var live, want := p.w.At(c.SlotOf(k)).value, c.objs[k];
            CreateStep(c, p, k).errs == p.errs <==>
              GainsSubContext(live, want) || ChangesOwner(c.rules.transitions, live, want)
  {
    TakesOverExactly(c, p, k);
  }

  /**
   * A whole `process` without errors has taken over every live object that it desires, did not list, and may create.
   */
  lemma NothingWasRefused(c: Ctx, w: World, plan: Plan, k: Key)
    requires Follows(c, w, plan) && Outcome(c, w, plan).1 == 0
    requires k in c.objs && Text(c.objs[k].annotations, AnnotationCreate) != "false"
    requires var at := w.At(c.SlotOf(k)); at.Some? && !Listed(c, k, at.value)
    ensures Granted(c.rules.transitions, w.At(c.SlotOf(k)).value, c.objs[k])
  {
    var (w1, listing) := List(c, w, plan.probe);
    ListFinds(c, w, plan);
    var existing := listing.value;
    assert w1.At(c.SlotOf(k)) == w.At(c.SlotOf(k));
    assert k in plan.toCreate;
    RunFrame(c, w1, existing, plan);
    CreateAllAt(c, Pass(w1, existing, plan.toUpdate, [], 0), plan.toCreate, k);
    MayTakeOverExactly(c.rules, w.At(c.SlotOf(k)).value, c.objs[k]);
  }

  /** The licence of a change on the log, in the same terms. */
  lemma LicensedExactly(c: Ctx, hash: string, e: Event)
    requires c.selector == Some(hash)
    ensures Licensed(c, e) <==>
              && e.slot.gk == c.gvk.GroupKind()
              && var k := e.slot.key;
                 if e.Created? then k in c.objs
                 else
                   && (|| Text(e.before.labels, LabelHash) == hash
                       || (k in c.objs && Granted(c.rules.transitions, e.before, c.objs[k])))
                   && (|| k in c.objs
                       || (e.Deleted? && !c.noPrune && k !in c.declared
                           && !(k.ns == c.defaultNs && Key("", k.name) in c.declared)))
  {
    var k := e.slot.key;
    if !e.Created? && k in c.objs {
      MayTakeOverExactly(c.rules, e.before, c.objs[k]);
    }
  }

  // ----- over sequences of applies -----

  /** What an owner puts on its objects. */
  function FieldOf(own: Owner, l: Label): string
    requires IsOwnerField(l)
  {
    match l
    case LabelGVK => GVKText(own.gvk)
    case LabelName => own.key.name
    case _ => own.key.ns
  }

  /**
   * The object names an owner by this annotation, and the apply stamps another; one without an owner stamps none, and
   * then what counts is what it declares.
   */
  ghost predicate NamesAnother(r: Round, live: Obj, l: Label)
    requires IsOwnerField(l)
  {
    && l in live.annotations && live.annotations[l] != ""
    && if r.cfg.owner.Some? then live.annotations[l] != FieldOf(r.cfg.owner.value, l)
       else forall g, d :: g in r.objs && d in r.objs[g] ==> Text(r.objs[g][d].annotations, l) != live.annotations[l]
  }

  ghost predicate HeldByAnother(r: Round, live: Obj) {
    && LabelHash in live.labels && live.labels[LabelHash] != "" && live.labels[LabelHash] != IdentityHash(r.cfg)
    && exists l :: IsOwnerField(l) && NamesAnother(r, live, l)
  }

  lemma StampedNames(cfg: Config, o: Obj, l: Label)
    requires cfg.owner.Some? && IsOwnerField(l) && Stamped(IdentityOf(cfg), o)
    ensures Text(o.annotations, l) == FieldOf(cfg.owner.value, l)
  {
    assert l in IdentityOf(cfg).Annotations();
  }

  /** Every object the apply processes carries another value under that annotation. */
  lemma ProcessedNames(r: Round, w: World, i: nat, k: Key, live: Obj, l: Label)
    requires ApplyRun(r.cfg, r.objs, w, r.legs) && WellFormed(r.objs) && AllStamped(r.cfg, r.objs)
    requires i < |r.legs| && KnownScope(r.cfg, r.legs[i].gvk) && k in r.legs[i].objs
    requires IsOwnerField(l) && NamesAnother(r, live, l)
    ensures Text(r.legs[i].objs[k].annotations, l) != live.annotations[l]
  {
    var leg := r.legs[i];
    RunIsNormal(r.cfg, r.objs, w, r.legs, i);
    var d := NormalFrom(r.cfg, leg.gvk, Objects(r.objs, leg.gvk), leg.objs, k);
    DeclaredNames(r, leg.gvk, d, live, l);
  }

  lemma DeclaredNames(r: Round, g: GVK, d: Key, live: Obj, l: Label)
    requires AllStamped(r.cfg, r.objs) && g in r.objs && d in r.objs[g] && IsOwnerField(l) && NamesAnother(r, live, l)
    ensures Text(r.objs[g][d].annotations, l) != live.annotations[l]
  {
    assert Stamped(IdentityOf(r.cfg), r.objs[g][d]);
    if r.cfg.owner.Some? {
      StampedNames(r.cfg, r.objs[g][d], l);
    }
  }

  lemma NotGranted(transitions: set<string>, live: Obj, want: Obj, l: Label)
    requires Text(live.labels, LabelHash) != "" && IsOwnerField(l)
    requires l in live.annotations && live.annotations[l] != "" && Text(want.annotations, l) != live.annotations[l]
    ensures !Granted(transitions, live, want)
  {}

  /**
   * Over any sequence of applies, an object comes through unchanged if its hash is none of the appliers' and it names an
   * owner, by kind, name or namespace, that is none of theirs.
   */
  lemma HeldElsewhereSurvives(w: World, rounds: seq<Round>, s: Slot)
    requires Happens(w, rounds) && s in w.objs
    requires forall r :: r in rounds ==> WellFormed(r.objs) && AllStamped(r.cfg, r.objs)
    requires forall r :: r in rounds ==> HeldByAnother(r, w.objs[s])
    ensures After(w, rounds).At(s) == Some(w.objs[s])
  {
    var live := w.objs[s];
    forall r, i | r in rounds && 0 <= i < |r.legs| && KnownScope(r.cfg, r.legs[i].gvk) && r.legs[i].gvk.GroupKind() == s.gk
      ensures !MayTouch(r.Ctx(i), s.key, live)
    {
      HasNoClaim(w, rounds, r, i, s.key, live);
    }
    ForeignObjectSurvives(w, rounds, s);
  }

  lemma HasNoClaim(w: World, rounds: seq<Round>, r: Round, i: nat, k: Key, live: Obj)
    requires Happens(w, rounds) && r in rounds && i < |r.legs| && KnownScope(r.cfg, r.legs[i].gvk)
    requires WellFormed(r.objs) && AllStamped(r.cfg, r.objs) && HeldByAnother(r, live)
    ensures !MayTouch(r.Ctx(i), k, live)
  {
    var before := RoundRan(w, rounds, r);
    var c := r.Ctx(i);
    if k in c.objs {
      var l :| IsOwnerField(l) && NamesAnother(r, live, l);
      ProcessedNames(r, before, i, k, live, l);
      NotGranted(c.rules.transitions, live, c.objs[k], l);
      MayTakeOverExactly(c.rules, live, c.objs[k]);
    }
  }
}
