/** The apply engine in the form the program has it: objects with fields, loops, and closures over shared locals. */
module Engine {
  import opened Kube
  import opened Server
  import opened Order
  import opened Process
  import opened Normalise
  import opened Apply
  import opened ObjectSets

  /** The API server. */
  class ApiServer {
    const faults: Faults
    var objs: map<Slot, Obj>
    var calls: nat
    var log: seq<Event>

    function World(): World
      reads this
    {
      Server.World(objs, calls, log)
    }

    constructor (faults: Faults, objs: map<Slot, Obj>)
      ensures this.faults == faults && World() == Server.World(objs, 0, [])
    {
      this.faults, this.objs, calls, log := faults, objs, 0, [];
    }

    /** Counts a call, and tells whether it fails. */
    method Call() returns (failed: bool)
      modifies `calls
      ensures World() == old(World()).Tick() && failed == faults(old(calls))
    {
      failed := faults(calls);
      calls := calls + 1;
    }

    method Create(s: Slot, o: Obj) returns (st: Status)
      modifies this
      ensures (World(), st) == Server.Create(faults, old(World()), s, o)
    {
      var failed := Call();
      if failed {
        return Failed;
      }
      if s in objs {
        return AlreadyExists;
      }
      objs, log := objs[s := Fresh(o)], log + [Created(s, Fresh(o))];
      return Ok;
    }

    method Get(s: Slot) returns (got: GetResult)
      modifies `calls
      ensures (World(), got) == Server.Get(faults, old(World()), s)
    {
      var failed := Call();
      got := if failed then GetFailed else if s in objs then Found(objs[s]) else Missing;
    }

    method Patch(s: Slot, merged: Obj) returns (st: Status)
      modifies this
      ensures (World(), st) == Server.Patch(faults, old(World()), s, merged)
    {
      var failed := Call();
      if failed {
        return Failed;
      }
      if s !in objs {
        return NotFound;
      }
      objs, log := objs[s := merged], log + [Event.Patched(s, objs[s], merged)];
      return Ok;
    }

    method Delete(s: Slot) returns (st: Status)
      modifies this
      ensures (World(), st) == Server.Delete(faults, old(World()), s)
    {
      var failed := Call();
      if failed {
        return Failed;
      }
      if s !in objs {
        return NotFound;
      }
      var live := objs[s];
      if live.finalizers == [] {
        objs := objs - {s};
      } else {
        objs := objs[s := live.(deleting := true)];
      }
      log := log + [Deleted(s, live)];
      return Ok;
    }
  }

  /** The locals of one `process` call, which its closures share and edit. */
  class Job {
    const c: Ctx
    const server: ApiServer
    var existing: map<Key, Obj>
    var toUpdate: seq<Key>
    var toReplace: seq<Key>
    var errs: nat

    ghost function Pass(): Pass
      reads this, server
    {
      Process.Pass(server.World(), existing, toUpdate, toReplace, errs)
    }

    constructor (c: Ctx, server: ApiServer, existing: map<Key, Obj>, toUpdate: seq<Key>)
      ensures this.c == c && this.server == server
      ensures Pass() == Process.Pass(server.World(), existing, toUpdate, [], 0)
    {
      this.c, this.server, this.existing, this.toUpdate, toReplace, errs := c, server, existing, toUpdate, [], 0;
    }

    method CreateF(k: Key)
      requires k in c.objs && server.faults == c.faults
      modifies this, server
      ensures Pass() == CreateStep(c, old(Pass()), k)
    {
      var obj := Prepare(c.rules, c.objs[k]);
      var st := server.Create(c.SlotOf(k), obj);
      if st == AlreadyExists {
        // Taking over an object that was not managed by this owner before.
        var got := server.Get(c.SlotOf(k));
        if got.Found? {
          var live := got.obj;
          if live.Label(LabelHash) != "" && !IsAssigningSubContext(live, obj) && !IsAllowOwnerTransition(c.rules, live, obj) {
            errs := errs + 1;
            return;
          }
          if obj.Should(AnnotationUpdate) {
            toUpdate := toUpdate + [k];
          }
          existing := existing[k := live];
          return;
        }
      }
      if st != Ok {
        errs := errs + 1;
      }
    }

    method DeleteF(k: Key)
      requires server.faults == c.faults
      modifies `errs, server
      ensures Pass() == DeleteStep(c, old(Pass()), k)
    {
      var st := server.Delete(c.SlotOf(k));
      if st != Ok {
        errs := errs + 1;
      }
    }

    method UpdateF(k: Key)
      requires k in c.objs && k in existing && server.faults == c.faults
      modifies `errs, `toReplace, server
      ensures Pass() == UpdateStep(c, old(Pass()), k)
    {
      match c.rules.compare(existing[k], c.objs[k])
      case Unchanged =>
      case Patched(merged) =>
        var st := server.Patch(c.SlotOf(k), merged);
        if st != Ok {
          errs := errs + 1;
        }
      case Replace =>
        if c.objs[k].Annotation(AnnotationUpdate) == "true"
           || (existing[k].Should(AnnotationPrune) && existing[k].Should(AnnotationCreate)) {
          toReplace := toReplace + [k];
        }
      case CompareFailed =>
        errs := errs + 1;
    }

    method CreateEach(ks: seq<Key>)
      requires server.faults == c.faults
      requires WellKeyed(c, Pass()) && forall k :: k in ks ==> k in c.objs
      modifies this, server
      ensures Pass() == CreateAll(c, old(Pass()), ks)
    {
      for i := 0 to |ks|
        invariant Pass() == CreateAll(c, old(Pass()), ks[..i])
      {
        CreateF(ks[i]);
        assert ks[..i + 1][..i] == ks[..i];
      }
      assert ks[..|ks|] == ks;
    }

    method UpdateEach(ks: seq<Key>)
      requires server.faults == c.faults
      requires WellKeyed(c, Pass()) && forall k :: k in ks ==> k in c.objs && k in existing
      modifies `errs, `toReplace, server
      ensures Pass() == UpdateAll(c, old(Pass()), ks)
    {
      for i := 0 to |ks|
        invariant Pass() == UpdateAll(c, old(Pass()), ks[..i])
      {
        assert Pass().existing == old(Pass()).existing;
        UpdateF(ks[i]);
        assert ks[..i + 1][..i] == ks[..i];
      }
      assert ks[..|ks|] == ks;
    }

    method DeleteEach(ks: seq<Key>)
      requires server.faults == c.faults
      modifies `errs, server
      ensures Pass() == DeleteAll(c, old(Pass()), ks)
    {
      for i := 0 to |ks|
        invariant Pass() == DeleteAll(c, old(Pass()), ks[..i])
      {
        DeleteF(ks[i]);
        assert ks[..i + 1][..i] == ks[..i];
      }
      assert ks[..|ks|] == ks;
    }
  }

  /** Which keys to create, to delete and to update; each list without repetitions. */
  method CompareSets(c: Ctx, existing: map<Key, Obj>) returns (toCreate: seq<Key>, toDelete: seq<Key>, toUpdate: seq<Key>)
    ensures NoDup(toCreate) && NoDup(toDelete) && NoDup(toUpdate)
    ensures forall k :: k in toCreate <==> k in c.objs && k !in existing && c.objs[k].Should(AnnotationCreate)
    ensures forall k :: k in toUpdate <==> k in c.objs && k in existing && c.objs[k].Should(AnnotationUpdate)
    ensures forall k :: k in toDelete <==> k in existing && k !in c.objs && Prunable(c, existing[k])
    ensures Sorted(KeyText, toCreate) && Sorted(KeyText, toDelete) && Sorted(KeyText, toUpdate)
  {
    toCreate, toDelete, toUpdate := [], [], [];
    var todo := c.objs.Keys;
    while todo != {}
      invariant todo <= c.objs.Keys && NoDup(toCreate) && NoDup(toUpdate)
      invariant forall k :: k in toCreate <==>
                  k in c.objs.Keys - todo && k !in existing && c.objs[k].Should(AnnotationCreate)
      invariant forall k :: k in toUpdate <==>
                  k in c.objs.Keys - todo && k in existing && c.objs[k].Should(AnnotationUpdate)
    {
      var k :| k in todo;
      todo := todo - {k};
      if k in existing {
        if c.objs[k].Should(AnnotationUpdate) {
          toUpdate := toUpdate + [k];
        }
      } else if c.objs[k].Should(AnnotationCreate) {
        toCreate := toCreate + [k];
      }
    }
    todo := existing.Keys;
    while todo != {}
      invariant todo <= existing.Keys && NoDup(toDelete)
      invariant forall k :: k in toDelete <==> k in existing.Keys - todo && k !in c.objs && Prunable(c, existing[k])
    {
      var k :| k in todo;
      todo := todo - {k};
      if k !in c.objs && Prunable(c, existing[k]) {
        toDelete := toDelete + [k];
      }
    }
    SortedByKeeps(KeyText, toCreate);
    SortedByKeeps(KeyText, toDelete);
    SortedByKeeps(KeyText, toUpdate);
    toCreate, toDelete, toUpdate := SortedBy(KeyText, toCreate), SortedBy(KeyText, toDelete), SortedBy(KeyText, toUpdate);
  }

  /** Drops the keys some version of the kind declares. */
  method FilterCrossVersion(desired: ObjectSet, gk: GK, defaultNs: string, keys: seq<Key>) returns (result: seq<Key>)
    requires desired.Valid() && NoDup(keys)
    ensures NoDup(result)
    ensures forall k :: k in result <==> k in keys && !ShieldedBy(DeclaredKeys(desired.declared, gk), defaultNs, k)
  {
    result := [];
    ghost var declared := DeclaredKeys(desired.declared, gk);
    for i := 0 to |keys|
      invariant NoDup(result)
      invariant forall k :: k in result <==> k in keys[..i] && !ShieldedBy(declared, defaultNs, k)
    {
      var key := keys[i];
      assert keys[..i + 1] == keys[..i] + [key] && key !in keys[..i];
      var known := desired.Contains(gk, key);
      var defaulted := key.ns == defaultNs && desired.Contains(gk, Key("", key.name));
      assert known || defaulted <==> ShieldedBy(declared, defaultNs, key);
      if known {
        continue;
      }
      if defaulted {
        continue;
      }
      result := result + [key];
    }
    assert keys[..|keys|] == keys;
  }

  class Applier {
    const cfg: Config
    const server: ApiServer

    constructor (cfg: Config, server: ApiServer)
      ensures this.cfg == cfg && this.server == server
    {
      this.cfg, this.server := cfg, server;
    }

    /** By selector where there is one; else one lookup per desired key. */
    method ListExisting(c: Ctx) returns (ok: bool, existing: map<Key, Obj>, probe: seq<Key>)
      requires server.faults == c.faults
      modifies server
      ensures NoDup(probe) && forall k :: k in probe <==> k in c.objs
      ensures (server.World(), if ok then Some(existing) else None) == Process.List(c, old(server.World()), probe)
    {
      probe := Keys(c.objs);
      existing := map[];
      if c.selector.Some? {
        var failed := server.Call();
        ok, existing := !failed, SelectorListing(c, server.World());
        return;
      }
      for i := 0 to |probe|
        invariant (server.World(), Some(existing)) == Probe(c, old(server.World()), probe[..i])
      {
        assert probe[..i + 1][..i] == probe[..i];
        var got := server.Get(c.SlotOf(probe[i]));
        match got
        case Missing =>
        case Found(o) => existing := existing[probe[i] := o];
        case GetFailed =>
          ProbeStops(c, old(server.World()), probe, i + 1);
          ok := false;
          return;
      }
      assert probe[..|probe|] == probe;
      ok := true;
    }

    method Normalised(g: GVK, objs: map<Key, Obj>) returns (r: map<Key, Obj>)
      requires KeysAgree(objs)
      ensures NormalForm(cfg, g, objs, r)
    {
      r := objs;
      var nsed := cfg.scope(g).NamespacedScope?;
      if cfg.owner.Some? {
        r := AssignOwnerReference(cfg.owner.value, cfg.scope(cfg.owner.value.gvk).NamespacedScope?, nsed, r);
      }
      if nsed {
        r := AdjustNamespace(cfg.defaultNs, r);
      } else {
        AssignedAgree(cfg, g, objs);
        var order := RangeOrder(r);
        r := ClearNamespace(r, order);
      }
    }

    method ProcessKind(g: GVK, allObjs: ObjectSet, ghost desired: ObjectMap) returns (errs: nat, ghost leg: Leg)
      requires server.faults == cfg.faults
      requires allObjs.Valid() && allObjs.declared == desired && Objects(allObjs.objects, g) == Objects(desired, g)
      modifies server, allObjs`objects
      ensures leg.gvk == g && LegOk(cfg, desired, old(server.World()), leg)
      ensures (server.World(), errs) == LegOutcome(cfg, desired, old(server.World()), leg)
      ensures allObjs.Valid() && forall x :: x != g ==> Objects(allObjs.objects, x) == old(Objects(allObjs.objects, x))
    {
      leg := Leg(g, map[], Plan([], [], [], []));
      if cfg.scope(g).UnknownScope? || (cfg.owner.Some? && cfg.scope(cfg.owner.value.gvk).UnknownScope?) {
        return 1, leg;
      }
      var objs := Normalised(g, Objects(allObjs.objects, g));
      allObjs.Edit(g, objs);
      ghost var plan;
      errs, plan := ProcessNormalised(g, objs, allObjs, desired);
      leg := Leg(g, objs, plan);
    }

    method Context(g: GVK, objs: map<Key, Obj>, allObjs: ObjectSet, ghost desired: ObjectMap) returns (c: Ctx)
      requires allObjs.Valid() && allObjs.declared == desired
      ensures c == CtxFor(cfg, desired, g, objs)
    {
      c := Ctx(cfg.rules, cfg.faults, g, cfg.scope(g).NamespacedScope?, objs, allObjs.KeysOf(g.GroupKind()),
               IdentityOf(cfg).Selector(), cfg.listerNs, cfg.defaultNs, cfg.noPrune);
    }

    method ProcessNormalised(g: GVK, objs: map<Key, Obj>, allObjs: ObjectSet, ghost desired: ObjectMap)
      returns (errs: nat, plan: Plan)
      requires server.faults == cfg.faults && allObjs.Valid() && allObjs.declared == desired
      modifies server
      ensures Follows(CtxFor(cfg, desired, g, objs), old(server.World()), plan)
      ensures (server.World(), errs) == Outcome(CtxFor(cfg, desired, g, objs), old(server.World()), plan)
    {
      var c := Context(g, objs, allObjs, desired);
      var ok, existing, probe := ListExisting(c);
      var toCreate, toDelete, toUpdate := CompareSets(c, existing);
      toDelete := FilterCrossVersion(allObjs, g.GroupKind(), cfg.defaultNs, toDelete);
      plan := Plan(probe, toCreate, toDelete, toUpdate);
      if !ok {
        return 1, plan;
      }
      errs := RunPasses(c, existing, plan);
    }

    /** Creates, updates, prunes, and replaces: first all deletions, then all creations. */
    method RunPasses(c: Ctx, existing: map<Key, Obj>, plan: Plan) returns (errs: nat)
      requires server.faults == c.faults && PlanFor(c, existing, plan)
      modifies server
      ensures var p := Run(c, old(server.World()), existing, plan);
              server.World() == p.w && errs == p.errs
    {
      var job := new Job(c, server, existing, plan.toUpdate);
      job.CreateEach(plan.toCreate);
      job.UpdateEach(job.toUpdate);
      if !c.noPrune {
        job.DeleteEach(plan.toDelete);
      }
      job.DeleteEach(job.toReplace);
      job.CreateEach(job.toReplace);
      errs := job.errs;
    }

    /** A whole apply of the objects of a set: what it does is one run of `ApplyAll`, covering every kind once. */
    method Apply(objs: ObjectSet) returns (errs: nat, ghost desired: ObjectMap, ghost legs: seq<Leg>)
      requires server.faults == cfg.faults && objs.Valid() && objs.objects == objs.declared
      modifies server
      ensures desired == Inject(IdentityOf(cfg), objs.objects)
      ensures ApplyRun(cfg, desired, old(server.World()), legs)
      ensures (server.World(), errs) == ApplyAll(cfg, desired, old(server.World()), legs)
      ensures Covers(cfg, desired, legs)
    {
      var order := objs.GVKOrder(cfg.pruneTypes);
      var result := InjectLabelsAndAnnotations(IdentityOf(cfg), objs);
      desired := result.declared;
      errs, legs := ProcessEach(order, result);
      AllCovered(cfg, desired, order, legs);
    }

    /** One GVK after another; an error in one does not stop the next. */
    method ProcessEach(order: seq<GVK>, objs: ObjectSet) returns (errs: nat, ghost legs: seq<Leg>)
      requires server.faults == cfg.faults && objs.Valid() && objs.objects == objs.declared && NoDup(order)
      modifies server, objs`objects
      ensures Reached(cfg, old(objs.declared), old(server.World()), legs, server.World(), errs)
      ensures |legs| == |order| && forall i :: 0 <= i < |legs| ==> legs[i].gvk == order[i]
    {
      legs, errs := [], 0;
      ghost var w, desired := server.World(), objs.declared;
      for i := 0 to |order|
        invariant objs.Valid() && objs.declared == desired
        invariant |legs| == i && forall j :: 0 <= j < i ==> legs[j].gvk == order[j]
        invariant Untouched(objs.objects, desired, order, i)
        invariant Reached(cfg, desired, w, legs, server.World(), errs)
      {
        ghost var leg;
        ghost var was, now := objs.objects, server.World();
        var e;
        e, leg := ProcessKind(order[i], objs, desired);
        UntouchedStep(was, objs.objects, desired, order, i);
        ReachedMore(cfg, desired, w, legs, now, errs, leg, server.World(), e);
        legs, errs := legs + [leg], errs + e;
      }
    }
  }

  /** The kinds from the i-th on were not normalised yet. */
  ghost predicate Untouched(objects: ObjectMap, desired: ObjectMap, order: seq<GVK>, i: nat) {
    forall j :: i <= j < |order| ==> Objects(objects, order[j]) == Objects(desired, order[j])
  }

  lemma UntouchedStep(was: ObjectMap, objects: ObjectMap, desired: ObjectMap, order: seq<GVK>, i: nat)
    requires NoDup(order) && i < |order| && Untouched(was, desired, order, i)
    requires forall g :: g != order[i] ==> Objects(objects, g) == Objects(was, g)
    ensures Untouched(objects, desired, order, i + 1)
  {}

  lemma AllCovered(cfg: Config, desired: ObjectMap, order: seq<GVK>, legs: seq<Leg>)
    requires NoDup(order) && forall g :: g in order <==> g in desired || g in cfg.pruneTypes
    requires |legs| == |order| && forall i :: 0 <= i < |legs| ==> legs[i].gvk == order[i]
    ensures Covers(cfg, desired, legs)
  {
    forall g ensures g in desired || g in cfg.pruneTypes <==> exists i :: 0 <= i < |legs| && legs[i].gvk == g {
      if g in order {
        var i :| 0 <= i < |order| && order[i] == g;
        assert legs[i].gvk == g;
      }
    }
  }

  method Keys(objs: map<Key, Obj>) returns (ks: seq<Key>)
    ensures NoDup(ks) && forall k :: k in ks <==> k in objs
  {
    ks := [];
    var todo := objs.Keys;
    while todo != {}
      invariant todo <= objs.Keys && NoDup(ks) && forall k :: k in ks <==> k in objs.Keys - todo
    {
      var k :| k in todo;
      todo := todo - {k};
      NoDupAppend(ks, [k]);
      ks := ks + [k];
    }
  }

  lemma {:induction false} ProbeStops(c: Ctx, w: World, probe: seq<Key>, n: nat)
    requires n <= |probe| && Probe(c, w, probe[..n]).1.None?
    ensures Probe(c, w, probe) == Probe(c, w, probe[..n])
    decreases |probe| - n
  {
    if n < |probe| {
      assert probe[..n + 1][..n] == probe[..n];
      ProbeStops(c, w, probe, n + 1);
    } else {
      assert probe[..n] == probe;
    }
  }
}
