/**
 * One GVK of an apply (pkg/apply/desiredset_process.go): split the keys into create, update and delete, then run
 * the create, update, prune and delete-then-recreate passes. Written as functions from world to world; the order
 * of each pass and the set of failing calls are arbitrary, so what is proved holds for every order and every fault.
 */
module Process {
  import opened Kube
  import opened Server

  /** What comparing a live object with a desired one leads to. */
  datatype Verdict = Unchanged | Patched(merged: Obj) | Replace | CompareFailed

  /** The library parts: three-way merge and reconcilers, the serialised "applied" annotation, and the set of
      registered owner changes, in the format "old => new". */
  datatype Rules = Rules(compare: (Obj, Obj) -> Verdict, serialize: Obj -> string, transitions: set<string>)

  /** What one call of `process` is given. `declared` holds the keys under which objects of the kind
      were declared, in any version, before namespaces were filled in or cleared. */
  datatype Ctx = Ctx(rules: Rules,
                     faults: Faults,
                     gvk: GVK,
                     namespaced: bool,
                     objs: map<Key, Obj>,
                     declared: set<Key>,
                     selector: Option<string>,
                     listerNs: string,
                     defaultNs: string,
                     noPrune: bool)
  {
    function SlotOf(k: Key): Slot {
      Slot(gvk.GroupKind(), k)
    }
  }

  /** The locals of `process` that its closures edit. */
  datatype Pass = Pass(w: World, existing: map<Key, Obj>, toUpdate: seq<Key>, toReplace: seq<Key>, errs: nat) {
    function Existing(k: Key): Option<Obj> {
      if k in existing then Some(existing[k]) else None
    }

    function Note(w': World, st: Status): Pass {
      this.(w := w', errs := if st.Ok? then errs else errs + 1)
    }
  }

  /** The orders in which the passes take their keys. `probe` is the order of the lookups of the by-key listing. */
  datatype Plan = Plan(probe: seq<Key>, toCreate: seq<Key>, toDelete: seq<Key>, toUpdate: seq<Key>)

  // ----- ownership -----

  /** A stand-in for hex(sha1(text)): injective, and never empty. */
  function Digest(text: string): string {
    "#" + text
  }

  /** The four identity fields are hashed one after another with no separator. */
  function OwnerText(annotations: map<Label, string>): string {
    var get := (l: Label) => if l in annotations then annotations[l] else "";
    get(LabelSubContext) + get(LabelGVK) + get(LabelName) + get(LabelNamespace)
  }

  function ObjectSetHash(annotations: map<Label, string>): string {
    Digest(OwnerText(annotations))
  }

  predicate IsAssigningSubContext(live: Obj, want: Obj) {
    && live.Annotation(LabelSubContext) == ""
    && want.Annotation(LabelSubContext) != ""
    && live.Annotation(LabelGVK) == want.Annotation(LabelGVK)
    && live.Annotation(LabelNamespace) == want.Annotation(LabelNamespace)
    && live.Annotation(LabelName) == want.Annotation(LabelName)
  }

  predicate IsAllowOwnerTransition(rules: Rules, live: Obj, want: Obj) {
    if
      || want.Annotation(LabelSubContext) == ""
      || (live.Annotation(LabelGVK) != "" && live.Annotation(LabelGVK) != want.Annotation(LabelGVK))
      || (live.Annotation(LabelNamespace) != "" && live.Annotation(LabelNamespace) != want.Annotation(LabelNamespace))
      || (live.Annotation(LabelName) != "" && live.Annotation(LabelName) != want.Annotation(LabelName))
    then false
    else live.Annotation(LabelSubContext) + " => " + want.Annotation(LabelSubContext) in rules.transitions
  }

  /** The test before an object found in the way of a create is taken over. */
  predicate MayTakeOver(rules: Rules, live: Obj, want: Obj) {
    live.Label(LabelHash) == "" || IsAssigningSubContext(live, want) || IsAllowOwnerTransition(rules, live, want)
  }

  // ----- listing and splitting -----

  predicate Listed(c: Ctx, k: Key, o: Obj) {
    match c.selector
    case Some(hash) =>
      && LabelHash in o.labels && o.labels[LabelHash] == hash
      && (c.listerNs == "" || !c.namespaced || k.ns == c.listerNs)
    case None => k in c.objs
  }

  /** The by-key listing: one lookup per desired key; a missing object is skipped, any other failure ends it. */
  function Probe(c: Ctx, w: World, ks: seq<Key>): (World, Option<map<Key, Obj>>) {
    if ks == [] then (w, Some(map[]))
    else
      var (w1, acc) := Probe(c, w, ks[..|ks| - 1]);
      if acc.None? then (w1, None)
      else
        var k := ks[|ks| - 1];
        var (w2, got) := Get(c.faults, w1, c.SlotOf(k));
        match got
        case Found(o) => (w2, Some(acc.value[k := o]))
        case Missing => (w2, acc)
        case GetFailed => (w2, None)
  }

  function SelectorListing(c: Ctx, w: World): map<Key, Obj> {
    map s | s in w.objs && s.gk == c.gvk.GroupKind() && Listed(c, s.key, w.objs[s]) :: s.key := w.objs[s]
  }

  function List(c: Ctx, w: World, probe: seq<Key>): (World, Option<map<Key, Obj>>) {
    if c.selector.Some? then
      (w.Tick(), if c.faults(w.calls) then None else Some(SelectorListing(c, w)))
    else Probe(c, w, probe)
  }

  /** An object of this owner that is not desired any more and may go. */
  predicate Prunable(c: Ctx, o: Obj) {
    && o.Should(AnnotationPrune)
    && !o.deleting
    && (LabelHash !in o.labels || o.labels[LabelHash] == ObjectSetHash(o.annotations))
  }

  /** Some version of the kind declares the object: filterCrossVersion keeps it out of the prune. */
  predicate Shielded(c: Ctx, k: Key) {
    ShieldedBy(c.declared, c.defaultNs, k)
  }

  predicate ShieldedBy(declared: set<Key>, defaultNs: string, k: Key) {
    k in declared || (k.ns == defaultNs && Key("", k.name) in declared)
  }

  ghost predicate PlanFor(c: Ctx, existing: map<Key, Obj>, plan: Plan) {
    && NoDup(plan.toCreate) && NoDup(plan.toDelete) && NoDup(plan.toUpdate)
    && (forall k :: k in plan.toCreate <==>
          k in c.objs && k !in existing && c.objs[k].Should(AnnotationCreate))
    && (forall k :: k in plan.toUpdate <==>
          k in c.objs && k in existing && c.objs[k].Should(AnnotationUpdate))
    && (forall k :: k in plan.toDelete <==>
          k in existing && k !in c.objs && Prunable(c, existing[k]) && !Shielded(c, k))
  }

  ghost predicate ProbeFor(c: Ctx, plan: Plan) {
    NoDup(plan.probe) && (forall k :: k in plan.probe <==> k in c.objs)
  }

  // ----- the closures -----

  function Prepare(rules: Rules, want: Obj): Obj {
    want.(annotations := want.annotations[LabelApplied := rules.serialize(want)])
  }

  function CreateStep(c: Ctx, p: Pass, k: Key): Pass
    requires k in c.objs
  {
    var obj := Prepare(c.rules, c.objs[k]);
    var (w1, st) := Create(c.faults, p.w, c.SlotOf(k), obj);
    if st.AlreadyExists? then
      var (w2, got) := Get(c.faults, w1, c.SlotOf(k));
      if got.Found? then
        if !MayTakeOver(c.rules, got.obj, obj) then p.(w := w2, errs := p.errs + 1)
        else p.(w := w2,
                existing := p.existing[k := got.obj],
                toUpdate := if obj.Should(AnnotationUpdate) then p.toUpdate + [k] else p.toUpdate)
      else p.(w := w2, errs := p.errs + 1)
    else p.Note(w1, st)
  }

  function DeleteStep(c: Ctx, p: Pass, k: Key): Pass {
    var (w', st) := Delete(c.faults, p.w, c.SlotOf(k));
    p.Note(w', st)
  }

  /** A replacement needs the desired object to insist, or the live one not to opt out. */
  predicate MayReplace(live: Obj, want: Obj) {
    || want.Annotation(AnnotationUpdate) == "true"
    || (live.Should(AnnotationPrune) && live.Should(AnnotationCreate))
  }

  function UpdateStep(c: Ctx, p: Pass, k: Key): Pass
    requires k in c.objs && k in p.existing
  {
    match c.rules.compare(p.existing[k], c.objs[k])
    case Unchanged => p
    case Patched(merged) =>
      var (w', st) := Patch(c.faults, p.w, c.SlotOf(k), merged);
      p.Note(w', st)
    case Replace =>
      if MayReplace(p.existing[k], c.objs[k]) then p.(toReplace := p.toReplace + [k]) else p
    case CompareFailed => p.(errs := p.errs + 1)
  }

  // ----- the passes -----

  /** The keys queued for update and replacement are desired, and the former have a live object to compare with. */
  ghost predicate WellKeyed(c: Ctx, p: Pass) {
    && (forall k :: k in p.toUpdate ==> k in c.objs && k in p.existing)
    && (forall k :: k in p.toReplace ==> k in c.objs)
  }

  function CreateAll(c: Ctx, p: Pass, ks: seq<Key>): (q: Pass)
    requires WellKeyed(c, p) && forall k :: k in ks ==> k in c.objs
    ensures WellKeyed(c, q) && q.toReplace == p.toReplace
  {
    if ks == [] then p
    else CreateStep(c, CreateAll(c, p, ks[..|ks| - 1]), ks[|ks| - 1])
  }

  function UpdateAll(c: Ctx, p: Pass, ks: seq<Key>): (q: Pass)
    requires WellKeyed(c, p) && forall k :: k in ks ==> k in c.objs && k in p.existing
    ensures WellKeyed(c, q) && q.existing == p.existing && q.toUpdate == p.toUpdate
  {
    if ks == [] then p
    else UpdateStep(c, UpdateAll(c, p, ks[..|ks| - 1]), ks[|ks| - 1])
  }

  function DeleteAll(c: Ctx, p: Pass, ks: seq<Key>): (q: Pass)
    ensures q.existing == p.existing && q.toUpdate == p.toUpdate && q.toReplace == p.toReplace
  {
    if ks == [] then p
    else DeleteStep(c, DeleteAll(c, p, ks[..|ks| - 1]), ks[|ks| - 1])
  }

  // The state after each pass, once the keys are split.

  function AfterCreate(c: Ctx, w: World, existing: map<Key, Obj>, plan: Plan): (p: Pass)
    requires PlanFor(c, existing, plan)
    ensures WellKeyed(c, p) && p.toReplace == []
  {
    CreateAll(c, Pass(w, existing, plan.toUpdate, [], 0), plan.toCreate)
  }

  function AfterUpdate(c: Ctx, w: World, existing: map<Key, Obj>, plan: Plan): (p: Pass)
    requires PlanFor(c, existing, plan)
    ensures WellKeyed(c, p)
  {
    var p := AfterCreate(c, w, existing, plan);
    UpdateAll(c, p, p.toUpdate)
  }

  function AfterPrune(c: Ctx, w: World, existing: map<Key, Obj>, plan: Plan): (p: Pass)
    requires PlanFor(c, existing, plan)
    ensures WellKeyed(c, p)
  {
    var p := AfterUpdate(c, w, existing, plan);
    if c.noPrune then p else DeleteAll(c, p, plan.toDelete)
  }

  function AfterClear(c: Ctx, w: World, existing: map<Key, Obj>, plan: Plan): (p: Pass)
    requires PlanFor(c, existing, plan)
    ensures WellKeyed(c, p)
  {
    var p := AfterPrune(c, w, existing, plan);
    DeleteAll(c, p, p.toReplace)
  }

  function Run(c: Ctx, w: World, existing: map<Key, Obj>, plan: Plan): Pass
    requires PlanFor(c, existing, plan)
  {
    var p := AfterClear(c, w, existing, plan);
    CreateAll(c, p, p.toReplace)
  }

  /** The plan is one `process` may follow from this world. */
  ghost predicate Follows(c: Ctx, w: World, plan: Plan) {
    && ProbeFor(c, plan)
    && var (_, existing) := List(c, w, plan.probe);
       existing.Some? ==> PlanFor(c, existing.value, plan)
  }

  /** All of `process` after normalisation: the world it leaves and the number of errors it reports. */
  function Outcome(c: Ctx, w: World, plan: Plan): (World, nat)
    requires Follows(c, w, plan)
  {
    var (w1, existing) := List(c, w, plan.probe);
    if existing.None? then (w1, 1)
    else
      var p := Run(c, w1, existing.value, plan);
      (p.w, p.errs)
  }
}
