/** The desired objects of an apply, with the indexes kept beside them (pkg/apply/objectset/objectset.go). */
module ObjectSets {
  import opened Kube
  import opened Apply
  import opened Order
  import N = Normalise

  /** The set after one more object: a second object under the same GVK and key replaces the first. */
  function With(desired: ObjectMap, g: GVK, o: Obj): ObjectMap {
    desired[g := Objects(desired, g)[o.key := o]]
  }

  /** Every GVK of a set has at least one object. */
  ghost predicate NoEmptyKind(desired: ObjectMap) {
    forall g :: g in desired ==> SomeKey(desired, g)
  }

  ghost predicate SomeKey(desired: ObjectMap, g: GVK) {
    exists k :: Holds(desired, g, k)
  }

  /** The object is in the set under this GVK and key. */
  predicate Holds(desired: ObjectMap, g: GVK, k: Key) {
    g in desired && k in desired[g]
  }

  /** The index by kind has exactly the keys declared for the kind in any version. */
  ghost predicate Indexes(byGK: map<GK, map<Key, Obj>>, desired: ObjectMap) {
    forall gk, k :: IndexHas(byGK, gk, k) <==> k in DeclaredKeys(desired, gk)
  }

  predicate IndexHas(byGK: map<GK, map<Key, Obj>>, gk: GK, k: Key) {
    gk in byGK && k in byGK[gk]
  }

  function WithIndex(byGK: map<GK, map<Key, Obj>>, gk: GK, o: Obj): map<GK, map<Key, Obj>> {
    byGK[gk := (if gk in byGK then byGK[gk] else map[])[o.key := o]]
  }

  /** The indexes agree with what was declared. */
  ghost predicate Agree(declared: ObjectMap, gvkOrder: seq<GVK>, gvkSeen: set<GVK>, byGK: map<GK, map<Key, Obj>>) {
    && WellFormed(declared) && NoEmptyKind(declared)
    && NoDup(gvkOrder) && gvkSeen == declared.Keys
    && (forall g :: g in gvkOrder <==> g in gvkSeen)
    && Indexes(byGK, declared)
  }

  class ObjectSet {
    var objects: ObjectMap
    var objectsByGK: map<GK, map<Key, Obj>>
    var order: seq<Obj>
    var gvkOrder: seq<GVK>
    var gvkSeen: set<GVK>
    /** The objects as they were added; `objects` is edited in place by normalisation, the indexes are not. */
    ghost var declared: ObjectMap

    ghost predicate Valid()
      reads this
    {
      Agree(declared, gvkOrder, gvkSeen, objectsByGK) && objects.Keys == declared.Keys
    }

    constructor ()
      ensures Valid() && declared == map[] && objects == map[] && gvkOrder == []
    {
      objects, objectsByGK, order, gvkOrder, gvkSeen := map[], map[], [], [], {};
      declared := map[];
    }

    /** Some version of the kind was declared under the key. */
    function Contains(gk: GK, key: Key): (yes: bool)
      requires Valid()
      reads this
      ensures yes <==> key in DeclaredKeys(declared, gk)
    {
      IndexHas(objectsByGK, gk, key)
    }

    /** All keys of the index for a kind. */
    function KeysOf(gk: GK): (keys: set<Key>)
      requires Valid()
      reads this
      ensures keys == DeclaredKeys(declared, gk)
    {
      var keys := if gk in objectsByGK then objectsByGK[gk].Keys else {};
      assert forall k :: k in keys <==> IndexHas(objectsByGK, gk, k);
      keys
    }

    method Add(g: GVK, o: Obj)
      requires Valid() && objects == declared
      modifies this
      ensures Valid() && objects == declared && declared == With(old(declared), g, o)
      ensures order == old(order) + [o]
      ensures gvkOrder == if g in old(declared) then old(gvkOrder) else old(gvkOrder) + [g]
    {
      IndexAdd(objectsByGK, declared, g, o);
      WithKeeps(declared, g, o);
      declared := With(declared, g, o);
      objects := With(objects, g, o);
      objectsByGK := WithIndex(objectsByGK, g.GroupKind(), o);
      order := order + [o];
      if g !in gvkSeen {
        gvkSeen := gvkSeen + {g};
        gvkOrder := gvkOrder + [g];
      }
    }

    /** Normalisation edits the objects of a kind in place; the indexes keep the keys of the declaration. */
    method Edit(g: GVK, objs: map<Key, Obj>)
      requires Valid()
      modifies `objects
      ensures Valid()
      ensures forall x :: x != g ==> Objects(objects, x) == old(Objects(objects, x))
      ensures g in declared ==> Objects(objects, g) == objs
    {
      if g in objects {
        ghost var was := objects;
        objects := objects[g := objs];
        assert objects.Keys == was.Keys;
      }
    }

    /** The order in which kinds were first added, then the other known kinds, each once. */
    method GVKOrder(known: set<GVK>) returns (all: seq<GVK>)
      requires Valid()
      ensures NoDup(all) && gvkOrder <= all
      ensures forall g :: g in all <==> g in declared || g in known
      ensures Sorted(GVKText, all[|gvkOrder|..])
    {
      var rest, todo := [], known;
      while todo != {}
        invariant todo <= known && NoDup(rest)
        invariant forall g :: g in rest <==> g in known - todo && g !in gvkSeen
      {
        var g :| g in todo;
        todo := todo - {g};
        if g !in gvkSeen {
          rest := rest + [g];
        }
      }
      SortedByKeeps(GVKText, rest);
      rest := SortedBy(GVKText, rest);
      NoDupAppend(gvkOrder, rest);
      all := gvkOrder + rest;
      assert all[|gvkOrder|..] == rest;
    }
  }

  /** The object is then what the set has under its key, and all other keys and kinds have what they had. */
  lemma WithExactly(desired: ObjectMap, g: GVK, o: Obj, x: GVK, k: Key)
    ensures var after := With(desired, g, o);
            && g in after && o.key in after[g] && after[g][o.key] == o
            && (x != g || k != o.key ==>
                  && (x in after && k in after[x] <==> x in desired && k in desired[x])
                  && (x in desired && k in desired[x] ==> after[x][k] == desired[x][k]))
  {}

  /** Adding an object declares its key for its kind, whatever the version. */
  lemma DeclaredAdd(desired: ObjectMap, g: GVK, o: Obj)
    ensures forall gk :: DeclaredKeys(With(desired, g, o), gk) ==
                         DeclaredKeys(desired, gk) + if gk == g.GroupKind() then {o.key} else {}
  {
    var after := With(desired, g, o);
    forall gk
      ensures DeclaredKeys(after, gk) == DeclaredKeys(desired, gk) + if gk == g.GroupKind() then {o.key} else {}
    {
      forall k | k in DeclaredKeys(desired, gk) ensures k in DeclaredKeys(after, gk) {
        var x :| x in desired && x.GroupKind() == gk && k in desired[x];
        assert x in after && k in after[x];
      }
      if gk == g.GroupKind() {
        assert g in after && o.key in after[g];
      }
    }
  }

  lemma IndexAdd(byGK: map<GK, map<Key, Obj>>, desired: ObjectMap, g: GVK, o: Obj)
    requires Indexes(byGK, desired)
    ensures Indexes(WithIndex(byGK, g.GroupKind(), o), With(desired, g, o))
  {
    DeclaredAdd(desired, g, o);
    forall gk, k
      ensures IndexHas(WithIndex(byGK, g.GroupKind(), o), gk, k) <==> k in DeclaredKeys(With(desired, g, o), gk)
    {
      assert IndexHas(byGK, gk, k) <==> k in DeclaredKeys(desired, gk);
    }
  }

  lemma WithNonEmpty(desired: ObjectMap, g: GVK, o: Obj)
    requires NoEmptyKind(desired)
    ensures NoEmptyKind(With(desired, g, o))
  {
    var after := With(desired, g, o);
    assert Holds(after, g, o.key);
    forall x | x in after ensures SomeKey(after, x) {
      if x != g {
        var k :| Holds(desired, x, k);
        assert Holds(after, x, k);
      }
    }
  }

  lemma WithKeeps(desired: ObjectMap, g: GVK, o: Obj)
    requires WellFormed(desired) && NoEmptyKind(desired)
    ensures WellFormed(With(desired, g, o)) && NoEmptyKind(With(desired, g, o))
    ensures With(desired, g, o).Keys == desired.Keys + {g}
  {
    WithNonEmpty(desired, g, o);
  }

  datatype Place = Place(gvk: GVK, key: Key)

  /** The part of an injection that is done once the pairs in `done` were copied. */
  ghost predicate Injected(id: Identity, from: ObjectMap, done: set<Place>, to: ObjectMap) {
    && NoEmptyKind(to)
    && (forall g, k :: Holds(to, g, k) <==> Place(g, k) in done)
    && (forall g, k :: Holds(to, g, k) ==> Holds(from, g, k) && to[g][k] == Stamp(id, from[g][k]))
  }

  lemma InjectedOne(id: Identity, from: ObjectMap, done: set<Place>, to: ObjectMap, g: GVK, k: Key)
    requires WellFormed(from) && Injected(id, from, done, to) && Holds(from, g, k)
    ensures Injected(id, from, done + {Place(g, k)}, With(to, g, Stamp(id, from[g][k])))
  {
    var o := Stamp(id, from[g][k]);
    assert o.key == k;
    var after := With(to, g, o);
    WithNonEmpty(to, g, o);
    forall x, y
      ensures Holds(after, x, y) <==> Place(x, y) in done + {Place(g, k)}
      ensures Holds(after, x, y) ==> Holds(from, x, y) && after[x][y] == Stamp(id, from[x][y])
    {
      WithAt(to, g, o, x, y);
    }
  }

  lemma WithAt(desired: ObjectMap, g: GVK, o: Obj, x: GVK, y: Key)
    ensures var after := With(desired, g, o);
            && (Holds(after, x, y) <==> Holds(desired, x, y) || (x == g && y == o.key))
            && (Holds(after, x, y) ==> after[x][y] == if x == g && y == o.key then o else desired[x][y])
  {}

  /** Every object was copied. */
  ghost predicate Complete(from: ObjectMap, done: set<Place>) {
    forall g, k :: Holds(from, g, k) ==> Place(g, k) in done
  }

  lemma InjectedAt(id: Identity, from: ObjectMap, done: set<Place>, to: ObjectMap, g: GVK, k: Key)
    requires Injected(id, from, done, to) && Complete(from, done)
    ensures Holds(to, g, k) <==> Holds(from, g, k)
    ensures Holds(to, g, k) ==> to[g][k] == Stamp(id, from[g][k])
  {}

  lemma InjectedKinds(id: Identity, from: ObjectMap, done: set<Place>, to: ObjectMap, g: GVK)
    requires NoEmptyKind(from) && Injected(id, from, done, to) && Complete(from, done)
    ensures g in to <==> g in from
  {
    if g in from {
      assert SomeKey(from, g);
      var k :| Holds(from, g, k);
      InjectedAt(id, from, done, to, g, k);
    }
    if g in to {
      assert SomeKey(to, g);
      var k :| Holds(to, g, k);
      InjectedAt(id, from, done, to, g, k);
    }
  }

  lemma InjectedKind(id: Identity, from: ObjectMap, done: set<Place>, to: ObjectMap, g: GVK)
    requires Injected(id, from, done, to) && Complete(from, done) && g in to && g in from
    ensures to[g] == StampAll(id, from[g])
  {
    forall x: Key ensures N.AgreeAt(to[g], StampAll(id, from[g]), x) {
      InjectedAt(id, from, done, to, g, x);
      StampAllAt(id, from[g], x);
    }
    N.AgreeEverywhere(to[g], StampAll(id, from[g]));
  }

  lemma StampAllAt(id: Identity, objs: map<Key, Obj>, x: Key)
    ensures x in StampAll(id, objs) <==> x in objs
    ensures x in objs ==> StampAll(id, objs)[x] == Stamp(id, objs[x])
  {}

  ghost predicate StampedAt(id: Identity, from: ObjectMap, to: ObjectMap, g: GVK) {
    (g in to <==> g in from) && (g in to && g in from ==> to[g] == StampAll(id, from[g]))
  }

  lemma StampedEverywhere(id: Identity, from: ObjectMap, to: ObjectMap)
    requires forall g :: StampedAt(id, from, to, g)
    ensures to == Inject(id, from)
  {
    forall g ensures (g in to <==> g in from) && (g in to ==> to[g] == StampAll(id, from[g])) {
      assert StampedAt(id, from, to, g);
    }
  }

  lemma InjectedAll(id: Identity, from: ObjectMap, done: set<Place>, to: ObjectMap)
    requires NoEmptyKind(from) && Injected(id, from, done, to) && Complete(from, done)
    ensures to == Inject(id, from)
  {
    forall g ensures StampedAt(id, from, to, g) {
      InjectedKinds(id, from, done, to, g);
      if g in to {
        InjectedKind(id, from, done, to, g);
      }
    }
    StampedEverywhere(id, from, to);
  }

  /** Copies every object into a new set, stamped with the identity of the owner. */
  method InjectLabelsAndAnnotations(id: Identity, from: ObjectSet) returns (result: ObjectSet)
    requires from.Valid() && from.objects == from.declared
    ensures fresh(result) && result.Valid() && result.objects == result.declared
    ensures result.declared == Inject(id, from.objects)
  {
    result := new ObjectSet();
    ghost var done: set<Place> := {};
    var kinds := from.objects.Keys;
    while kinds != {}
      invariant kinds <= from.objects.Keys && fresh(result)
      invariant result.Valid() && result.objects == result.declared
      invariant Injected(id, from.objects, done, result.declared)
      invariant forall g, k :: Holds(from.objects, g, k) && g !in kinds ==> Place(g, k) in done
    {
      var g :| g in kinds;
      kinds := kinds - {g};
      done := InjectKind(id, from, result, g, done);
    }
    InjectedAll(id, from.objects, done, result.declared);
  }

  method InjectKind(id: Identity, from: ObjectSet, result: ObjectSet, g: GVK, ghost done: set<Place>)
    returns (ghost done': set<Place>)
    requires from != result && from.Valid() && from.objects == from.declared && g in from.objects
    requires result.Valid() && result.objects == result.declared
    requires Injected(id, from.objects, done, result.declared)
    modifies result
    ensures result.Valid() && result.objects == result.declared
    ensures Injected(id, from.objects, done', result.declared)
    ensures done <= done' && forall k :: k in from.objects[g] ==> Place(g, k) in done'
  {
    done' := done;
    var keys := from.objects[g].Keys;
    while keys != {}
      invariant keys <= from.objects[g].Keys && from.Valid()
      invariant result.Valid() && result.objects == result.declared
      invariant Injected(id, from.objects, done', result.declared)
      invariant done <= done' && forall k :: k in from.objects[g].Keys - keys ==> Place(g, k) in done'
    {
      var k :| k in keys;
      keys := keys - {k};
      assert Holds(from.objects, g, k);
      InjectedOne(id, from.objects, done', result.declared, g, k);
      result.Add(g, Stamp(id, from.objects[g][k]));
      done' := done' + {Place(g, k)};
    }
  }
}
