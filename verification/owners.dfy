/** Finding the owner an object was stamped with, and purging orphans (pkg/apply/desiredset_owner.go). */
module Owners {
  import opened Kube
  import opened Server
  import opened Process
  import opened Normalise
  import opened Apply
  import opened Codecs
  import opened Engine

  datatype OwnerResult = OwnerFound(obj: Obj) | OwnerGone | OwnerLookupFailed | BadFormat | NoOwner

  function FindOwner(f: Faults, w: World, o: Obj): (World, OwnerResult) {
    if o.Annotation(LabelGVK) == "" then (w, NoOwner)
    else
      var parsed := GetGVK(o.Annotation(LabelGVK));
      if parsed.InvalidFormat? then (w, BadFormat)
      else
        var at := Slot(parsed.gvk.GroupKind(), Key(o.Annotation(LabelNamespace), o.Annotation(LabelName)));
        var (w', got) := Get(f, w, at);
        (w', match got
             case Found(owner) => OwnerFound(owner)
             case Missing => OwnerGone
             case GetFailed => OwnerLookupFailed)
  }

  /** Deletes an object whose owner is gone. Only an object that never had an owner passes without an error. */
  function PurgeOrphan(f: Faults, w: World, gvk: GVK, o: Obj): (World, Status) {
    var (w', found) := FindOwner(f, w, o);
    if found.OwnerGone? then Delete(f, w', Slot(gvk.GroupKind(), o.key))
    else (w', if found.NoOwner? || found.OwnerFound? then Ok else Failed)
  }

  ghost predicate StampedFor(owner: Owner, o: Obj) {
    && o.Annotation(LabelGVK) == GVKText(owner.gvk)
    && o.Annotation(LabelName) == owner.key.name
    && o.Annotation(LabelNamespace) == owner.key.ns
  }

  /** What an apply writes is stamped for its owner. */
  lemma ApplyStampsOwner(cfg: Config, o: Obj)
    requires cfg.owner.Some?
    ensures StampedFor(cfg.owner.value, Stamp(IdentityOf(cfg), o))
  {}

  function OwnerSlot(owner: Owner): Slot {
    Slot(owner.gvk.GroupKind(), owner.key)
  }

  /** The owner found is the owner stamped, when the text of its GVK can be taken apart again. */
  lemma FindsStampedOwner(f: Faults, w: World, owner: Owner, o: Obj)
    requires StampedFor(owner, o) && Separable(owner.gvk) && !f(w.calls)
    ensures FindOwner(f, w, o).1 ==
            if OwnerSlot(owner) in w.objs then OwnerFound(w.objs[OwnerSlot(owner)]) else OwnerGone
  {
    TextIsNotEmpty(owner.gvk);
    GVKIsRecovered(owner.gvk);
  }

  lemma TextIsNotEmpty(g: GVK)
    ensures GVKText(g) != ""
  {}

  /** An orphan is deleted, and nothing else ever is. */
  lemma PurgesExactlyOrphans(f: Faults, w: World, gvk: GVK, owner: Owner, o: Obj)
    requires StampedFor(owner, o) && Separable(owner.gvk)
    requires !f(w.calls) && !f(w.calls + 1)
    ensures var s := Slot(gvk.GroupKind(), o.key);
            var w' := PurgeOrphan(f, w, gvk, o).0;
            && (s in w.objs ==> (w'.log == w.log + [Deleted(s, w.objs[s])] <==> OwnerSlot(owner) !in w.objs))
            && (OwnerSlot(owner) in w.objs ==> w'.objs == w.objs && w'.log == w.log)
            && (forall other :: other != s ==> w'.At(other) == w.At(other))
  {
    FindsStampedOwner(f, w, owner, o);
    assert forall e :: w.log != w.log + [e];
  }

  function Written(o: Obj, l: Label): string {
    if l in o.annotations then o.annotations[l] else ""
  }

  /**
   * What becomes of any object: one never stamped is left alone; a stamp that cannot be read and a lookup that fails are
   * errors; an object whose owner exists is left alone, and one whose owner is gone is deleted.
   */
  lemma PurgesExactly(f: Faults, w: World, gvk: GVK, o: Obj)
    ensures var (w', st) := PurgeOrphan(f, w, gvk, o);
            var s, text := Slot(gvk.GroupKind(), o.key), Written(o, LabelGVK);
            if text == "" then w' == w && st.Ok?
            else if GetGVK(text).InvalidFormat? then w' == w && st.Failed?
            else
              var owner := Slot(GetGVK(text).gvk.GroupKind(), Key(Written(o, LabelNamespace), Written(o, LabelName)));
              if f(w.calls) then w'.objs == w.objs && w'.log == w.log && st.Failed?
              else if owner in w.objs then w'.objs == w.objs && w'.log == w.log && st.Ok?
              else if f(w.calls + 1) || s !in w.objs then w'.objs == w.objs && w'.log == w.log && !st.Ok?
              else
                && st.Ok? && w'.log == w.log + [Deleted(s, w.objs[s])]
                && w'.objs == if w.objs[s].finalizers == [] then w.objs - {s} else w.objs[s := w.objs[s].(deleting := true)]
  {}

  // ----- what the hash can tell apart -----

  function OwnerHash(cfg: Config): Option<string> {
    IdentityOf(cfg).Selector()
  }

  /** The hash is of the fields run together: owners that differ in where one field ends and the next begins share it. */
  lemma HashIsOfConcatenation(a: Config, b: Config)
    requires a.owner.Some? && b.owner.Some?
    ensures OwnerHash(a) == OwnerHash(b) <==>
            a.subContext + GVKText(a.owner.value.gvk) + a.owner.value.key.name + a.owner.value.key.ns
            == b.subContext + GVKText(b.owner.value.gvk) + b.owner.value.key.name + b.owner.value.key.ns
  {
    var ta := OwnerText(IdentityOf(a).Annotations());
    var tb := OwnerText(IdentityOf(b).Annotations());
    assert Digest(ta)[1..] == ta && Digest(tb)[1..] == tb;
  }

  lemma DistinctOwnersShareHash(cfg: Config, gvk: GVK)
    ensures var a := cfg.(owner := Some(Owner(gvk, Key("c", "ab"), "1")));
            var b := cfg.(owner := Some(Owner(gvk, Key("bc", "a"), "2")));
            a.owner.value.key != b.owner.value.key && OwnerHash(a) == OwnerHash(b)
  {
    var a := cfg.(owner := Some(Owner(gvk, Key("c", "ab"), "1")));
    var b := cfg.(owner := Some(Owner(gvk, Key("bc", "a"), "2")));
    HashIsOfConcatenation(a, b);
    var front := cfg.subContext + GVKText(gvk);
    assert front + "ab" + "c" == front + "abc" == front + "a" + "bc";
  }

  /** Within one kind, sub-context and namespace the hash tells owners apart. */
  lemma HashTellsNamesApart(a: Config, b: Config)
    requires a.owner.Some? && b.owner.Some? && a.subContext == b.subContext
    requires a.owner.value.gvk == b.owner.value.gvk && a.owner.value.key.ns == b.owner.value.key.ns
    ensures OwnerHash(a) == OwnerHash(b) <==> a.owner.value.key.name == b.owner.value.key.name
  {
    HashIsOfConcatenation(a, b);
    Cancel(a.subContext + GVKText(a.owner.value.gvk), a.owner.value.key.name, b.owner.value.key.name, a.owner.value.key.ns);
  }

  lemma Cancel(front: string, a: string, b: string, back: string)
    ensures front + a + back == front + b + back <==> a == b
  {
    if front + a + back == front + b + back {
      assert a == (front + a + back)[|front|..|front| + |a|];
      assert b == (front + b + back)[|front|..|front| + |b|];
      assert |a| == |b|;
    }
  }

  // ----- in the form of the program -----

  method PurgeOrphanOn(api: ApiServer, gvk: GVK, o: Obj) returns (st: Status)
    modifies api
    ensures (api.World(), st) == PurgeOrphan(api.faults, old(api.World()), gvk, o)
  {
    var found := FindOwnerOn(api, o);
    match found
    case OwnerGone => st := api.Delete(Slot(gvk.GroupKind(), o.key));
    case NoOwner => st := Ok;
    case OwnerFound(_) => st := Ok;
    case BadFormat => st := Failed;
    case OwnerLookupFailed => st := Failed;
  }

  method FindOwnerOn(api: ApiServer, o: Obj) returns (found: OwnerResult)
    modifies api`calls
    ensures (api.World(), found) == FindOwner(api.faults, old(api.World()), o)
  {
    if o.Annotation(LabelGVK) == "" {
      return NoOwner;
    }
    var parsed := GetGVK(o.Annotation(LabelGVK));
    if parsed.InvalidFormat? {
      return BadFormat;
    }
    var got := api.Get(Slot(parsed.gvk.GroupKind(), Key(o.Annotation(LabelNamespace), o.Annotation(LabelName))));
    found := match got
             case Found(owner) => OwnerFound(owner)
             case Missing => OwnerGone
             case GetFailed => OwnerLookupFailed;
  }
}
