/**
 * Namespace and owner-reference normalisation (pkg/apply/desiredset_process.go): three loops that edit a map while
 * ranging over it. The language lets such a range produce entries in any order, and lets it produce or skip entries
 * inserted on the way; the loops below take every one of these choices arbitrarily, and still end in one result.
 */
module Normalise {
  import opened Kube

  datatype Owner = Owner(gvk: GVK, key: Key, uid: string)

  predicate KeysAgree(objs: map<Key, Obj>) {
    forall k :: k in objs ==> objs[k].key == k
  }

  function InNamespace(o: Obj, ns: string): Obj {
    o.(key := Key(ns, o.key.name))
  }

  // ----- moving entries while ranging over them -----

  type Rewrite = (Key, Obj) -> Obj

  /** Where an entry goes: into `ns` if it has no namespace and entries move. */
  function To(ns: string, moving: bool, k: Key): Key {
    if moving && k.ns == "" then Key(ns, k.name) else k
  }

  /** Which entry ends up at `k` once those in `done` were dealt with. Of two entries, the one moved there wins. */
  function From(ns: string, moving: bool, done: set<Key>, k: Key): Key {
    if moving && k.ns == ns && Key("", k.name) in done then Key("", k.name) else k
  }

  /** Whether there is an entry at `k` while the range still has to produce `due`. */
  predicate Held(ns: string, moving: bool, objs: set<Key>, due: set<Key>, k: Key) {
    || k in due
    || (k in objs && !(moving && k.ns == ""))
    || (moving && k.ns == ns && Key("", k.name) in objs - due)
  }

  function HeldValue(ns: string, moving: bool, one: Rewrite, objs: map<Key, Obj>, due: set<Key>, k: Key): Obj
    requires due <= objs.Keys && Held(ns, moving, objs.Keys, due, k)
  {
    var from := From(ns, moving, objs.Keys - due, k);
    if from in due then objs[from] else one(from, objs[from])
  }

  /** The map in the middle of a range that still has to produce `due`. */
  function Halfway(ns: string, moving: bool, one: Rewrite, objs: map<Key, Obj>, due: set<Key>): (m: map<Key, Obj>)
    requires due <= objs.Keys
  {
    map k: Key | k in objs.Keys + (set d | d in objs :: Key(ns, d.name)) && Held(ns, moving, objs.Keys, due, k) ::
      HeldValue(ns, moving, one, objs, due, k)
  }

  lemma HalfwayIs(ns: string, moving: bool, one: Rewrite, objs: map<Key, Obj>, due: set<Key>, m: map<Key, Obj>)
    requires due <= objs.Keys
    requires forall k :: k in m <==> Held(ns, moving, objs.Keys, due, k)
    requires forall k :: k in m ==> m[k] == HeldValue(ns, moving, one, objs, due, k)
    ensures m == Halfway(ns, moving, one, objs, due)
  {
    var h := Halfway(ns, moving, one, objs, due);
    forall k | k in m ensures k in h {
      HeldIn(ns, moving, one, objs, due, k);
    }
  }

  lemma HeldIn(ns: string, moving: bool, one: Rewrite, objs: map<Key, Obj>, due: set<Key>, k: Key)
    requires due <= objs.Keys
    ensures k in Halfway(ns, moving, one, objs, due) <==> Held(ns, moving, objs.Keys, due, k)
  {
    if Held(ns, moving, objs.Keys, due, k) && k !in objs {
      assert Key("", k.name) in objs && k == Key(ns, Key("", k.name).name);
    }
  }

  /** The result of the whole range. */
  function Rehomed(ns: string, moving: bool, one: Rewrite, objs: map<Key, Obj>): map<Key, Obj> {
    Halfway(ns, moving, one, objs, {})
  }

  /** An entry that was rewritten and moved is not changed by being produced again in its new place. */
  ghost predicate Absorbs(ns: string, moving: bool, one: Rewrite, objs: map<Key, Obj>) {
    forall d :: d in objs && moving && d.ns == "" ==>
      one(Key(ns, d.name), one(d, objs[d])) == one(d, objs[d])
  }

  lemma HalfwayStep(ns: string, moving: bool, one: Rewrite, objs: map<Key, Obj>, due: set<Key>, k: Key)
    requires due <= objs.Keys && k in due && Absorbs(ns, moving, one, objs)
    ensures var m := Halfway(ns, moving, one, objs, due);
            && k in m
            && (m - {k})[To(ns, moving, k) := one(k, m[k])] == Halfway(ns, moving, one, objs, due - {k})
  {
    var m := Halfway(ns, moving, one, objs, due);
    HeldIn(ns, moving, one, objs, due, k);
    var got := (m - {k})[To(ns, moving, k) := one(k, m[k])];
    forall x: Key
      ensures x in got <==> Held(ns, moving, objs.Keys, due - {k}, x)
      ensures x in got ==> got[x] == HeldValue(ns, moving, one, objs, due - {k}, x)
    {
      HeldIn(ns, moving, one, objs, due, x);
      StepAt(ns, moving, one, objs, due, k, x);
    }
    HalfwayIs(ns, moving, one, objs, due - {k}, got);
  }

  lemma StepAt(ns: string, moving: bool, one: Rewrite, objs: map<Key, Obj>, due: set<Key>, k: Key, x: Key)
    requires due <= objs.Keys && k in due && Absorbs(ns, moving, one, objs)
    ensures var to := To(ns, moving, k);
            && (Held(ns, moving, objs.Keys, due - {k}, x) <==> x == to || (x != k && Held(ns, moving, objs.Keys, due, x)))
            && (x == to ==> HeldValue(ns, moving, one, objs, due - {k}, x)
                            == one(k, HeldValue(ns, moving, one, objs, due, k)))
            && (x != to && x != k && Held(ns, moving, objs.Keys, due, x) ==>
                  HeldValue(ns, moving, one, objs, due - {k}, x) == HeldValue(ns, moving, one, objs, due, x))
  {
    assert objs.Keys - (due - {k}) == objs.Keys - due + {k};
    var d := Key("", k.name);
    if moving && k.ns == ns && d in objs.Keys - due {
      assert k == Key(ns, d.name);
    }
  }

  lemma HalfwayRevisit(ns: string, moving: bool, one: Rewrite, objs: map<Key, Obj>, due: set<Key>, d: Key)
    requires due <= objs.Keys && d in objs.Keys - due && moving && d.ns == "" && Absorbs(ns, moving, one, objs)
    ensures var m, k := Halfway(ns, moving, one, objs, due), Key(ns, d.name);
            && k in m && m[k] == one(d, objs[d]) && one(k, m[k]) == m[k] && To(ns, moving, k) == k
  {
    HeldIn(ns, moving, one, objs, due, Key(ns, d.name));
    assert d == Key("", d.name);
  }

  lemma HalfwayStart(ns: string, moving: bool, one: Rewrite, objs: map<Key, Obj>)
    ensures Halfway(ns, moving, one, objs, objs.Keys) == objs
  {
    forall k: Key ensures k in objs <==> Held(ns, moving, objs.Keys, objs.Keys, k) {}
    HalfwayIs(ns, moving, one, objs, objs.Keys, objs);
  }

  /** Every entry of the result is the rewriting of one entry of the start. */
  lemma RehomedFrom(ns: string, moving: bool, one: Rewrite, objs: map<Key, Obj>, k: Key)
    requires k in Rehomed(ns, moving, one, objs)
    ensures var d := From(ns, moving, objs.Keys, k);
            d in objs && To(ns, moving, d) == k && Rehomed(ns, moving, one, objs)[k] == one(d, objs[d])
  {
    HeldIn(ns, moving, one, objs, {}, k);
    assert objs.Keys - {} == objs.Keys;
  }

  /** Every entry of the start has a place in the result. */
  lemma RehomedTo(ns: string, moving: bool, one: Rewrite, objs: map<Key, Obj>, d: Key)
    requires d in objs
    ensures To(ns, moving, d) in Rehomed(ns, moving, one, objs)
  {
    HeldIn(ns, moving, one, objs, {}, To(ns, moving, d));
    assert moving && d.ns == "" ==> d == Key("", d.name);
  }

  // ----- owner references -----

  predicate HasOwner(o: Obj, uid: string) {
    uid in (set r | r in o.owners :: r.uid)
  }

  function WithOwner(own: Owner, o: Obj): Obj {
    if !HasOwner(o, own.uid) && own.uid != "" && o.Should(AnnotationPrune)
    then o.(owners := o.owners + [OwnerRef(own.gvk, own.key.name, own.uid)])
    else o
  }

  /** An owner reference is added at most once. */
  lemma WithOwnerTwice(own: Owner, o: Obj)
    ensures WithOwner(own, WithOwner(own, o)) == WithOwner(own, o)
  {
    var once := WithOwner(own, o);
    if once != o {
      assert once.owners[|o.owners|].uid == own.uid;
    }
  }

  /** Owners cannot be set across namespaces. */
  function AssignOne(own: Owner, ownerNsed: bool, nsed: bool): Rewrite {
    (k: Key, o: Obj) =>
      if nsed && k.ns != "" && k.ns != own.key.ns && ownerNsed then o
      else WithOwner(own, if nsed && k.ns == "" then InNamespace(o, own.key.ns) else o)
  }

  /** A namespaced owner has no effect on cluster-scoped objects. */
  function Assigned(own: Owner, ownerNsed: bool, nsed: bool, objs: map<Key, Obj>): map<Key, Obj> {
    if ownerNsed && !nsed then objs
    else Rehomed(own.key.ns, nsed, AssignOne(own, ownerNsed, nsed), objs)
  }

  lemma AssignedHas(own: Owner, ownerNsed: bool, nsed: bool, objs: map<Key, Obj>, d: Key)
    requires d in objs
    ensures To(own.key.ns, nsed, d) in Assigned(own, ownerNsed, nsed, objs)
  {
    RehomedTo(own.key.ns, nsed, AssignOne(own, ownerNsed, nsed), objs, d);
  }

  // ----- the default namespace -----

  function AdjustOne(ns: string): Rewrite {
    (k: Key, o: Obj) => if k.ns == "" then InNamespace(o, ns) else o
  }

  function Adjusted(ns: string, objs: map<Key, Obj>): map<Key, Obj> {
    Rehomed(ns, true, AdjustOne(ns), objs)
  }

  // ----- cluster-scoped kinds -----

  /** `o` is a cleared version of one of the entries of that name; one with a namespace if there is any. */
  ghost predicate ClearedFrom(objs: map<Key, Obj>, name: string, o: Obj) {
    exists k :: k in objs && k.name == name && o == InNamespace(objs[k], "")
                && (k.ns == "" ==> forall k2 :: k2 in objs && k2.name == name ==> k2 == k)
  }

  ghost predicate Cleared(objs: map<Key, Obj>, r: map<Key, Obj>) {
    && (forall k :: k in objs ==> Key("", k.name) in r)
    && (forall k :: k in r ==> k.ns == "" && ClearedFrom(objs, k.name, r[k]))
  }

  /** Two entries clash when clearing sends them to the same key with different contents. */
  ghost predicate Clash(objs: map<Key, Obj>, k1: Key, k2: Key) {
    && k1 in objs && k2 in objs && k1.name == k2.name && k1.ns != "" && k2.ns != ""
    && InNamespace(objs[k1], "") != InNamespace(objs[k2], "")
  }

  lemma ClearIsUniqueWithoutClash(objs: map<Key, Obj>, r1: map<Key, Obj>, r2: map<Key, Obj>)
    requires Cleared(objs, r1) && Cleared(objs, r2)
    requires forall k1, k2 :: !Clash(objs, k1, k2)
    ensures r1 == r2
  {
    forall k | k in r1 ensures k in r2 && r1[k] == r2[k] {
      ClearedAgree(objs, r1, r2, k);
    }
    forall k | k in r2 ensures k in r1 {
      ClearedAgree(objs, r2, r1, k);
    }
  }

  lemma ClearedAgree(objs: map<Key, Obj>, r1: map<Key, Obj>, r2: map<Key, Obj>, k: Key)
    requires Cleared(objs, r1) && Cleared(objs, r2) && k in r1
    requires forall k1, k2 :: !Clash(objs, k1, k2)
    ensures k in r2 && r1[k] == r2[k]
  {
    assert ClearedFrom(objs, k.name, r1[k]);
    var a := SourceOf(objs, k.name, r1[k]);
    assert k == Key("", a.name);
    var b := SourceOf(objs, k.name, r2[k]);
    if a.ns != "" && b.ns != "" {
      assert !Clash(objs, a, b);
    }
  }

  lemma SourceOf(objs: map<Key, Obj>, name: string, o: Obj) returns (k: Key)
    requires ClearedFrom(objs, name, o)
    ensures k in objs && k.name == name && o == InNamespace(objs[k], "")
    ensures k.ns == "" ==> forall k2 :: k2 in objs && k2.name == name ==> k2 == k
  {
    k :| k in objs && k.name == name && o == InNamespace(objs[k], "")
         && (k.ns == "" ==> forall k2 :: k2 in objs && k2.name == name ==> k2 == k);
  }

  // ----- clearing along an order -----

  /** One turn of the range: an entry with a namespace is put back without it, over whatever is there. */
  function ClearTurn(r: map<Key, Obj>, k: Key): map<Key, Obj> {
    if k.ns == "" || k !in r then r else (r - {k})[Key("", k.name) := InNamespace(r[k], "")]
  }

  function ClearAlong(objs: map<Key, Obj>, order: seq<Key>): map<Key, Obj> {
    if order == [] then objs else ClearTurn(ClearAlong(objs, order[..|order| - 1]), order[|order| - 1])
  }

  /** A range produces every entry it found, those with a namespace once; inserted ones, which have none, at will. */
  ghost predicate RangesOver(objs: map<Key, Obj>, order: seq<Key>) {
    && (forall k :: k in objs ==> k in order)
    && (forall k :: k in order && k.ns != "" ==> k in objs)
    && (forall i, j :: 0 <= i < j < |order| && order[i].ns != "" ==> order[i] != order[j])
  }

  /** A range that produces no inserted entry. */
  ghost predicate Permutes(objs: set<Key>, order: seq<Key>) {
    NoDup(order) && forall k :: k in order <==> k in objs
  }

  /** The i-th turn is the last one for an entry of its name that has a namespace. */
  predicate LastOfName(order: seq<Key>, i: nat)
    requires i < |order|
  {
    order[i].ns != "" && forall j :: i < j < |order| && order[j].ns != "" ==> order[j].name != order[i].name
  }

  /** An entry with a namespace is as it was until its turn, and gone after it. */
  lemma {:induction false} UntilItsTurn(objs: map<Key, Obj>, order: seq<Key>, k: Key)
    requires k.ns != ""
    ensures k in ClearAlong(objs, order) <==> k in objs && k !in order
    ensures k in ClearAlong(objs, order) ==> ClearAlong(objs, order)[k] == objs[k]
  {
    if order != [] {
      var init := order[..|order| - 1];
      UntilItsTurn(objs, init, k);
      assert k in order <==> k in init || k == order[|order| - 1];
    }
  }

  /** The last entry of a name to have its turn is the one whose contents remain. */
  lemma {:induction false} LastTurnWins(objs: map<Key, Obj>, order: seq<Key>, i: nat)
    requires i < |order| && LastOfName(order, i) && order[i] in objs && order[i] !in order[..i]
    ensures var at := Key("", order[i].name);
            at in ClearAlong(objs, order) && ClearAlong(objs, order)[at] == InNamespace(objs[order[i]], "")
    decreases |order|
  {
    var n := |order| - 1;
    var init := order[..n];
    if i == n {
      UntilItsTurn(objs, init, order[i]);
    } else {
      assert init[..i] == order[..i];
      LastTurnWins(objs, init, i);
      assert order[n].ns != "" ==> order[n].name != order[i].name;
    }
  }

  /** A name none of whose entries has a namespace is left alone. */
  lemma {:induction false} NoTurnForName(objs: map<Key, Obj>, order: seq<Key>, name: string)
    requires forall k :: k in order && k.ns != "" ==> k.name != name
    ensures var at := Key("", name);
            && (at in ClearAlong(objs, order) <==> at in objs)
            && (at in objs ==> ClearAlong(objs, order)[at] == objs[at])
  {
    if order != [] {
      var n := |order| - 1;
      NoTurnForName(objs, order[..n], name);
      assert order[n] in order;
    }
  }

  lemma {:induction false} LastIndex(order: seq<Key>, name: string) returns (i: nat)
    requires exists k :: k in order && k.ns != "" && k.name == name
    ensures i < |order| && order[i].name == name && LastOfName(order, i)
    decreases |order|
  {
    var n := |order| - 1;
    if order[n].ns != "" && order[n].name == name {
      i := n;
    } else {
      var k :| k in order && k.ns != "" && k.name == name;
      assert k in order[..n];
      i := LastIndex(order[..n], name);
    }
  }

  /** Whose contents a name has after a range along this order, if it has any. */
  lemma ClearedName(objs: map<Key, Obj>, order: seq<Key>, name: string)
    requires KeysAgree(objs) && RangesOver(objs, order)
    ensures Key("", name) in ClearAlong(objs, order) ==> ClearedFrom(objs, name, ClearAlong(objs, order)[Key("", name)])
    ensures (exists k :: k in objs && k.name == name) ==> Key("", name) in ClearAlong(objs, order)
  {
    if exists k :: k in order && k.ns != "" && k.name == name {
      var i := LastIndex(order, name);
      LastTurnWins(objs, order, i);
    } else {
      NoTurnForName(objs, order, name);
      assert forall k :: k in objs && k.name == name ==> k == Key("", name);
    }
  }

  /** Every range, with every order and every revisit, ends in a result the relation allows. */
  lemma ClearAlongClears(objs: map<Key, Obj>, order: seq<Key>)
    requires KeysAgree(objs) && RangesOver(objs, order)
    ensures Cleared(objs, ClearAlong(objs, order))
  {
    var r := ClearAlong(objs, order);
    forall k | k in r ensures k.ns == "" && ClearedFrom(objs, k.name, r[k]) {
      if k.ns != "" {
        UntilItsTurn(objs, order, k);
      }
      ClearedName(objs, order, k.name);
    }
    forall k | k in objs ensures Key("", k.name) in r {
      ClearedName(objs, order, k.name);
    }
  }

  lemma {:induction false} SomeOrder(keys: set<Key>) returns (order: seq<Key>)
    ensures Permutes(keys, order)
  {
    if keys == {} {
      order := [];
    } else {
      var k :| k in keys;
      var rest := SomeOrder(keys - {k});
      NoDupAppend(rest, [k]);
      order := rest + [k];
    }
  }

  /** The entry whose contents a result has under a name. */
  ghost function Winner(objs: map<Key, Obj>, r: map<Key, Obj>, name: string): (k: Key)
    requires Cleared(objs, r) && Key("", name) in r
    ensures k in objs && k.name == name && r[Key("", name)] == InNamespace(objs[k], "")
    ensures k.ns == "" ==> forall k2 :: k2 in objs && k2.name == name ==> k2 == k
  {
    assert ClearedFrom(objs, name, r[Key("", name)]);
    var k :| k in objs && k.name == name && r[Key("", name)] == InNamespace(objs[k], "")
             && (k.ns == "" ==> forall k2 :: k2 in objs && k2.name == name ==> k2 == k);
    k
  }

  ghost predicate IsWinner(objs: map<Key, Obj>, r: map<Key, Obj>, k: Key)
    requires Cleared(objs, r)
  {
    exists n :: n in r && k == Winner(objs, r, n.name)
  }

  /** An order that gives the winners of all names the last turns. */
  ghost predicate WinnersComeLast(objs: map<Key, Obj>, r: map<Key, Obj>, first: seq<Key>, last: seq<Key>)
    requires Cleared(objs, r)
  {
    Permutes(objs.Keys, first + last) && forall k :: k in last <==> IsWinner(objs, r, k)
  }

  lemma WinnersLast(objs: map<Key, Obj>, r: map<Key, Obj>) returns (first: seq<Key>, last: seq<Key>)
    requires Cleared(objs, r)
    ensures WinnersComeLast(objs, r, first, last)
  {
    var winners := set k | k in r :: Winner(objs, r, k.name);
    first := SomeOrder(objs.Keys - winners);
    last := SomeOrder(winners);
    NoDupAppend(first, last);
    forall k ensures k in winners <==> IsWinner(objs, r, k) {}
  }

  lemma WinnerIsLast(objs: map<Key, Obj>, r: map<Key, Obj>, first: seq<Key>, last: seq<Key>, i: nat)
    requires Cleared(objs, r) && WinnersComeLast(objs, r, first, last) && i < |last| && last[i].ns != ""
    ensures LastOfName(first + last, |first| + i) && (first + last)[|first| + i] !in (first + last)[..|first| + i]
  {
    var order, m := first + last, |first| + i;
    forall j | m < j < |order| && order[j].ns != "" ensures order[j].name != order[m].name {
      assert order[j] in last && order[m] in last;
      assert IsWinner(objs, r, order[j]) && IsWinner(objs, r, order[m]);
      assert order[j] != order[m];
    }
  }

  /** Along such an order every name ends up with the contents of its winner. */
  lemma ReachesWinner(objs: map<Key, Obj>, r: map<Key, Obj>, first: seq<Key>, last: seq<Key>, k: Key)
    requires KeysAgree(objs) && Cleared(objs, r) && WinnersComeLast(objs, r, first, last) && k in r
    ensures k in ClearAlong(objs, first + last) && ClearAlong(objs, first + last)[k] == r[k]
  {
    assert k == Key("", k.name);
    var w := Winner(objs, r, k.name);
    assert IsWinner(objs, r, w);
    if w.ns == "" {
      assert w == k && InNamespace(objs[w], "") == objs[w];
      NoTurnForName(objs, first + last, k.name);
    } else {
      var i :| 0 <= i < |last| && last[i] == w;
      WinnerIsLast(objs, r, first, last, i);
      assert (first + last)[|first| + i] == w;
      LastTurnWins(objs, first + last, |first| + i);
    }
  }

  /** Both results have exactly one entry for every name there was. */
  lemma ClearedKeys(objs: map<Key, Obj>, r1: map<Key, Obj>, r2: map<Key, Obj>, k: Key)
    requires Cleared(objs, r1) && Cleared(objs, r2) && k in r1
    ensures k in r2
  {
    assert ClearedFrom(objs, k.name, r1[k]);
    var from := SourceOf(objs, k.name, r1[k]);
    assert k == Key("", from.name);
  }

  ghost predicate AgreeAt(a: map<Key, Obj>, b: map<Key, Obj>, k: Key) {
    (k in a <==> k in b) && (k in a && k in b ==> a[k] == b[k])
  }

  lemma AgreeEverywhere(a: map<Key, Obj>, b: map<Key, Obj>)
    requires forall k :: AgreeAt(a, b, k)
    ensures a == b
  {
    assert forall k :: AgreeAt(a, b, k) ==> (k in a <==> k in b);
  }

  lemma ReachesAt(objs: map<Key, Obj>, r: map<Key, Obj>, first: seq<Key>, last: seq<Key>, k: Key)
    requires KeysAgree(objs) && Cleared(objs, r) && WinnersComeLast(objs, r, first, last)
    ensures AgreeAt(ClearAlong(objs, first + last), r, k)
  {
    var got := ClearAlong(objs, first + last);
    if k in r {
      ReachesWinner(objs, r, first, last, k);
    } else if k in got {
      ClearAlongClears(objs, first + last);
      ClearedKeys(objs, got, r, k);
    }
  }

  lemma ReachesAll(objs: map<Key, Obj>, r: map<Key, Obj>, first: seq<Key>, last: seq<Key>)
    requires KeysAgree(objs) && Cleared(objs, r) && WinnersComeLast(objs, r, first, last)
    ensures ClearAlong(objs, first + last) == r
  {
    forall k ensures AgreeAt(ClearAlong(objs, first + last), r, k) {
      ReachesAt(objs, r, first, last, k);
    }
    AgreeEverywhere(ClearAlong(objs, first + last), r);
  }

  lemma ClearedIsReached(objs: map<Key, Obj>, r: map<Key, Obj>) returns (order: seq<Key>)
    requires KeysAgree(objs) && Cleared(objs, r)
    ensures Permutes(objs.Keys, order) && ClearAlong(objs, order) == r
  {
    var first, last := WinnersLast(objs, r);
    order := first + last;
    ReachesAll(objs, r, first, last);
  }

  ghost predicate Reachable(objs: map<Key, Obj>, r: map<Key, Obj>) {
    exists order :: Permutes(objs.Keys, order) && ClearAlong(objs, order) == r
  }

  /** The results the relation allows are exactly those a range can reach by producing the entries in some order. */
  lemma ClearedExactly(objs: map<Key, Obj>, r: map<Key, Obj>)
    requires KeysAgree(objs)
    ensures Cleared(objs, r) <==> Reachable(objs, r)
  {
    if Cleared(objs, r) {
      var order := ClearedIsReached(objs, r);
    }
    if Reachable(objs, r) {
      var order :| Permutes(objs.Keys, order) && ClearAlong(objs, order) == r;
      ClearAlongClears(objs, order);
    }
  }

  lemma LastClears(objs: map<Key, Obj>, k: Key) returns (order: seq<Key>)
    requires k in objs && k.ns != ""
    ensures Permutes(objs.Keys, order)
    ensures Key("", k.name) in ClearAlong(objs, order)
            && ClearAlong(objs, order)[Key("", k.name)] == InNamespace(objs[k], "")
  {
    var rest := SomeOrder(objs.Keys - {k});
    order := rest + [k];
    NoDupAppend(rest, [k]);
    LastTurnWins(objs, order, |rest|);
  }

  /** The result of clearing depends on the order of the range exactly when two entries clash. */
  lemma ClearIsUnique(objs: map<Key, Obj>)
    requires KeysAgree(objs)
    ensures (forall o1, o2 :: Permutes(objs.Keys, o1) && Permutes(objs.Keys, o2) ==>
               ClearAlong(objs, o1) == ClearAlong(objs, o2))
            <==> (forall k1, k2 :: !Clash(objs, k1, k2))
  {
    if forall k1, k2 :: !Clash(objs, k1, k2) {
      forall o1, o2 | Permutes(objs.Keys, o1) && Permutes(objs.Keys, o2)
        ensures ClearAlong(objs, o1) == ClearAlong(objs, o2)
      {
        ClearAlongClears(objs, o1);
        ClearAlongClears(objs, o2);
        ClearIsUniqueWithoutClash(objs, ClearAlong(objs, o1), ClearAlong(objs, o2));
      }
    } else {
      var k1, k2 :| Clash(objs, k1, k2);
      var o1 := LastClears(objs, k1);
      var o2 := LastClears(objs, k2);
      assert ClearAlong(objs, o1)[Key("", k1.name)] != ClearAlong(objs, o2)[Key("", k1.name)];
    }
  }

  // ----- the loops -----

  /** Which entries a range over a map may still produce: those it must, and those inserted since it began. */
  method NextKey(due: set<Key>, inserted: set<Key>, extra: nat) returns (k: Key, again: bool)
    requires due != {} || (inserted != {} && extra > 0)
    ensures again ==> k in inserted && extra > 0
    ensures !again ==> k in due
  {
    again := *;
    if due == {} {
      again := true;
    } else if inserted == {} || extra == 0 {
      again := false;
    }
    if again {
      k :| k in inserted;
    } else {
      k :| k in due;
    }
  }

  /** In the middle of a range: the map as it is, the entries due, and the inserted ones that may be produced too. */
  ghost predicate Ranging(ns: string, moving: bool, one: Rewrite, objs: map<Key, Obj>,
                          due: set<Key>, inserted: set<Key>, r: map<Key, Obj>)
  {
    && due <= objs.Keys && Absorbs(ns, moving, one, objs) && r == Halfway(ns, moving, one, objs, due)
    && forall k :: k in inserted ==> moving && k.ns == ns && Key("", k.name) in objs.Keys - due
  }

  lemma RangingHas(ns: string, moving: bool, one: Rewrite, objs: map<Key, Obj>,
                   due: set<Key>, inserted: set<Key>, r: map<Key, Obj>, k: Key)
    requires Ranging(ns, moving, one, objs, due, inserted, r) && (k in inserted || k in due)
    ensures k in r
  {
    HeldIn(ns, moving, one, objs, due, k);
  }

  /** One turn of the range, for an entry that is due and for one produced again. */
  lemma RangingTurn(ns: string, moving: bool, one: Rewrite, objs: map<Key, Obj>, due: set<Key>, inserted: set<Key>,
                    r: map<Key, Obj>, k: Key, again: bool, inserted': set<Key>, r': map<Key, Obj>)
    requires Ranging(ns, moving, one, objs, due, inserted, r) && k in r
    requires if again then k in inserted else k in due
    requires r' == (r - {k})[To(ns, moving, k) := one(k, r[k])]
    requires forall x :: x in inserted' ==> x in inserted || (moving && k.ns == "" && x == Key(ns, k.name))
    ensures Ranging(ns, moving, one, objs, if again then due else due - {k}, inserted', r')
  {
    if again {
      HalfwayRevisit(ns, moving, one, objs, due, Key("", k.name));
      assert r' == r;
    } else {
      HalfwayStep(ns, moving, one, objs, due, k);
    }
    if moving && k.ns == "" {
      assert k == Key("", k.name);
    }
  }

  method AdjustNamespace(defaultNs: string, objs: map<Key, Obj>) returns (r: map<Key, Obj>)
    ensures r == Adjusted(defaultNs, objs)
  {
    r := objs;
    ghost var one := AdjustOne(defaultNs);
    HalfwayStart(defaultNs, true, one, objs);
    var due, inserted: set<Key> := objs.Keys, {};
    var extra: nat := *;
    while due != {} || (inserted != {} && extra > 0)
      invariant due <= objs.Keys && Ranging(defaultNs, true, one, objs, due, inserted, r)
      decreases |due|, extra
    {
      var k, again := NextKey(due, inserted, extra);
      RangingHas(defaultNs, true, one, objs, due, inserted, r, k);
      ghost var was, dueWas, insertedWas := r, due, inserted;
      if again {
        inserted, extra := inserted - {k}, extra - 1;
      } else {
        due := due - {k};
      }
      r, inserted := AdjustEntry(defaultNs, r, inserted, k);
      RangingTurn(defaultNs, true, one, objs, dueWas, insertedWas, was, k, again, inserted, r);
    }
  }

  /** The body of the loop of `adjustNamespace`. */
  method AdjustEntry(defaultNs: string, objs: map<Key, Obj>, inserted: set<Key>, k: Key)
    returns (r: map<Key, Obj>, inserted': set<Key>)
    requires k in objs
    ensures r == (objs - {k})[To(defaultNs, true, k) := AdjustOne(defaultNs)(k, objs[k])]
    ensures forall x :: x in inserted' <==> x in inserted || (k.ns == "" && x == Key(defaultNs, k.name))
  {
    if k.ns != "" {
      r, inserted' := objs, inserted;
      return;
    }
    var v, k' := InNamespace(objs[k], defaultNs), Key(defaultNs, k.name);
    r := objs - {k};
    r := r[k' := v];
    inserted' := inserted + {k'};
  }

  method AssignOwnerReference(own: Owner, ownerNsed: bool, nsed: bool, objs: map<Key, Obj>) returns (r: map<Key, Obj>)
    ensures r == Assigned(own, ownerNsed, nsed, objs)
  {
    r := objs;
    if ownerNsed && !nsed {
      return;
    }
    ghost var one := AssignOne(own, ownerNsed, nsed);
    AssignAbsorbs(own, ownerNsed, nsed, objs);
    HalfwayStart(own.key.ns, nsed, one, objs);
    var due, inserted: set<Key> := objs.Keys, {};
    var extra: nat := *;
    while due != {} || (inserted != {} && extra > 0)
      invariant Ranging(own.key.ns, nsed, one, objs, due, inserted, r)
      decreases |due|, extra
    {
      var k, again := NextKey(due, inserted, extra);
      r, due, inserted := AssignNext(own, ownerNsed, nsed, objs, r, due, inserted, k, again);
      extra := if again then extra - 1 else extra;
    }
  }

  method AssignNext(own: Owner, ownerNsed: bool, nsed: bool, ghost objs: map<Key, Obj>, r: map<Key, Obj>,
                    due: set<Key>, inserted: set<Key>, k: Key, again: bool)
    returns (r': map<Key, Obj>, due': set<Key>, inserted': set<Key>)
    requires Ranging(own.key.ns, nsed, AssignOne(own, ownerNsed, nsed), objs, due, inserted, r)
    requires if again then k in inserted else k in due
    ensures Ranging(own.key.ns, nsed, AssignOne(own, ownerNsed, nsed), objs, due', inserted', r')
    ensures due' == if again then due else due - {k}
  {
    ghost var one := AssignOne(own, ownerNsed, nsed);
    RangingHas(own.key.ns, nsed, one, objs, due, inserted, r, k);
    due' := if again then due else due - {k};
    r', inserted' := AssignEntry(own, ownerNsed, nsed, r, if again then inserted - {k} else inserted, k);
    RangingTurn(own.key.ns, nsed, one, objs, due, inserted, r, k, again, inserted', r');
  }

  lemma AssignAbsorbs(own: Owner, ownerNsed: bool, nsed: bool, objs: map<Key, Obj>)
    ensures Absorbs(own.key.ns, nsed, AssignOne(own, ownerNsed, nsed), objs)
  {
    forall d | d in objs && nsed && d.ns == ""
      ensures var one := AssignOne(own, ownerNsed, nsed);
              one(Key(own.key.ns, d.name), one(d, objs[d])) == one(d, objs[d])
    {
      AssignTwice(own, ownerNsed, d, objs[d]);
    }
  }

  lemma AssignTwice(own: Owner, ownerNsed: bool, d: Key, o: Obj)
    requires d.ns == ""
    ensures var one := AssignOne(own, ownerNsed, true);
            one(Key(own.key.ns, d.name), one(d, o)) == one(d, o)
  {
    var moved := InNamespace(o, own.key.ns);
    var once := WithOwner(own, moved);
    WithOwnerTwice(own, moved);
    assert InNamespace(once, own.key.ns) == once;
  }

  /** The body of the loop of `assignOwnerReference`. */
  method AssignEntry(own: Owner, ownerNsed: bool, nsed: bool, objs: map<Key, Obj>, inserted: set<Key>, k: Key)
    returns (r: map<Key, Obj>, inserted': set<Key>)
    requires k in objs
    ensures r == (objs - {k})[To(own.key.ns, nsed, k) := AssignOne(own, ownerNsed, nsed)(k, objs[k])]
    ensures forall x :: x in inserted' <==> x in inserted || (nsed && k.ns == "" && x == Key(own.key.ns, k.name))
  {
    r, inserted' := objs, inserted;
    var assignNs, v := AssignObj(own, ownerNsed, nsed, k, objs[k]);
    r := r[k := v];
    assert r == (objs - {k})[k := v];
    if assignNs {
      r := r - {k};
      assert r == objs - {k};
      var k' := Key(own.key.ns, k.name);
      r := r[k' := v];
      inserted' := inserted + {k'};
    }
  }

  method AssignObj(own: Owner, ownerNsed: bool, nsed: bool, k: Key, o: Obj) returns (assignNs: bool, v: Obj)
    ensures assignNs == (nsed && k.ns == "")
    ensures v == AssignOne(own, ownerNsed, nsed)(k, o)
  {
    assignNs, v := false, o;
    var assignOwner := true;
    if nsed {
      if k.ns == "" {
        assignNs := true;
      } else if k.ns != own.key.ns && ownerNsed {
        assignOwner := false;
      }
    }
    if !assignOwner {
      return;
    }
    if assignNs {
      v := InNamespace(v, own.key.ns);
    }
    v := SetOwner(own, v);
  }

  method SetOwner(own: Owner, o: Obj) returns (v: Obj)
    ensures v == WithOwner(own, o)
  {
    v := o;
    var shouldSet := true;
    for i := 0 to |o.owners|
      invariant shouldSet && forall j :: 0 <= j < i ==> o.owners[j].uid != own.uid
    {
      if o.owners[i].uid == own.uid {
        shouldSet := false;
        break;
      }
    }
    if shouldSet && own.uid != "" && o.Should(AnnotationPrune) {
      v := o.(owners := o.owners + [OwnerRef(own.gvk, own.key.name, own.uid)]);
    }
  }

  /** An order in which a range may produce the entries, with inserted ones among them. */
  method RangeOrder(objs: map<Key, Obj>) returns (order: seq<Key>)
    ensures RangesOver(objs, order)
  {
    order := [];
    var due, inserted: set<Key> := objs.Keys, {};
    var extra: nat := *;
    while due != {} || (inserted != {} && extra > 0)
      invariant due <= objs.Keys && forall k :: k in inserted ==> k.ns == ""
      invariant forall k :: k in objs.Keys - due ==> k in order
      invariant forall k :: k in order && k.ns != "" ==> k in objs.Keys - due
      invariant forall i, j :: 0 <= i < j < |order| && order[i].ns != "" ==> order[i] != order[j]
      decreases |due|, extra
    {
      var k, again := NextKey(due, inserted, extra);
      if again {
        inserted, extra := inserted - {k}, extra - 1;
      } else {
        due := due - {k};
        if k.ns != "" {
          inserted := inserted + {Key("", k.name)};
        }
      }
      order := order + [k];
    }
  }

  /** Clears namespaces while ranging over the map in the given order. */
  method ClearNamespace(objs: map<Key, Obj>, order: seq<Key>) returns (r: map<Key, Obj>)
    requires KeysAgree(objs) && RangesOver(objs, order)
    ensures r == ClearAlong(objs, order) && Cleared(objs, r)
  {
    r := objs;
    for i := 0 to |order|
      invariant r == ClearAlong(objs, order[..i])
    {
      var k := order[i];
      assert order[..i + 1][..i] == order[..i];
      if k.ns == "" {
        continue;
      }
      assert k in r by {
        assert k !in order[..i];
        UntilItsTurn(objs, order[..i], k);
      }
      var v := InNamespace(r[k], "");
      r := r - {k};
      r := r[Key("", k.name) := v];
    }
    assert order[..|order|] == order;
    ClearAlongClears(objs, order);
  }
}
