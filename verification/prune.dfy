/**
 * What the engine remembers of an applied object (pkg/apply/desiredset_compare.go): the object with long texts cut
 * short, except where a list merge needs them to tell items apart.
 */
module Prune {
  import opened Kube
  import opened Sanitize

  const LONGEST := 64
  const KNOWN_LIST_KEYS := {"apiVersion", "containerPort", "devicePath", "ip", "kind", "mountPath", "name", "port",
                            "topologyKey", "type"}

  /** The first eight hexadecimal digits of a digest of the text. */
  type Digest = s: string | |s| == 8 witness "00000000"

  type Hash = string -> Digest

  function CutText(h: Hash, s: string): string {
    if |s| > LONGEST then s[..LONGEST] + h(s) else s
  }

  function PruneField(h: Hash, k: string, v: Json, inList: bool): Json
    decreases v, 1
  {
    if v.Object? || v.List? then PruneValue(h, v, false)
    else if inList && k in KNOWN_LIST_KEYS then v
    else if v.Text? then Text(CutText(h, v.text))
    else v
  }

  /** Maps and lists; anything else directly in a list is kept. */
  function PruneValue(h: Hash, v: Json, inList: bool): Json
    decreases v, 0
  {
    match v
    case Object(fields) => Object(map k | k in fields :: PruneField(h, k, fields[k], inList))
    case List(items) => List(seq(|items|, i requires 0 <= i < |items| => PruneValue(h, items[i], true)))
    case _ => v
  }

  // ----- where it cuts -----

  /** The fields that tell the items of some list apart. */
  predicate TellsItemsApart(k: string) {
    || k == "apiVersion" || k == "containerPort" || k == "devicePath" || k == "ip" || k == "kind"
    || k == "mountPath" || k == "name" || k == "port" || k == "topologyKey" || k == "type"
  }

  predicate NothingToCut(h: Hash, s: string) {
    |s| <= 64 || (|s| == 72 && s[64..] == h(s))
  }

  lemma CutsNothing(h: Hash, s: string)
    ensures CutText(h, s) == s <==> NothingToCut(h, s)
  {
    if |s| > LONGEST {
      assert CutText(h, s)[LONGEST..] == h(s);
      assert s == s[..LONGEST] + s[LONGEST..];
    }
  }

  /** Every text that may be cut is short enough, or ends in its own digest as a cut text would. */
  predicate Kept(h: Hash, v: Json, inList: bool)
    decreases v
  {
    match v
    case Object(fields) =>
      forall k :: k in fields ==>
        if fields[k].Object? || fields[k].List? then Kept(h, fields[k], false)
        else fields[k].Text? && !(inList && TellsItemsApart(k)) ==> NothingToCut(h, fields[k].text)
    case List(items) => forall i :: 0 <= i < |items| ==> Kept(h, items[i], true)
    case _ => true
  }

  /** Pruning leaves a value alone exactly when there is nothing in it to cut. */
  lemma {:induction false} UnchangedExactly(h: Hash, v: Json, inList: bool)
    ensures PruneValue(h, v, inList) == v <==> Kept(h, v, inList)
    decreases v
  {
    match v
    case Object(fields) =>
      var pruned := PruneValue(h, v, inList).fields;
      forall k | k in fields
        ensures pruned[k] == fields[k] <==>
                if fields[k].Object? || fields[k].List? then Kept(h, fields[k], false)
                else fields[k].Text? && !(inList && TellsItemsApart(k)) ==> NothingToCut(h, fields[k].text)
      {
        assert pruned[k] == PruneField(h, k, fields[k], inList);
        if fields[k].Object? || fields[k].List? {
          UnchangedExactly(h, fields[k], false);
        } else if fields[k].Text? {
          CutsNothing(h, fields[k].text);
        }
      }
      assert pruned.Keys == fields.Keys;
      assert pruned == fields <==> forall k :: k in fields ==> pruned[k] == fields[k];
    case List(items) =>
      var pruned := PruneValue(h, v, inList).items;
      forall i | 0 <= i < |items| ensures pruned[i] == items[i] <==> Kept(h, items[i], true) {
        UnchangedExactly(h, items[i], true);
      }
    case _ =>
  }

  // ----- what it keeps -----

  /** A place in a value: a field of a map, or an item of a list. */
  datatype Step = Field(name: string) | Item(index: nat)

  function Lookup(v: Json, path: seq<Step>): Option<Json>
    decreases |path|
  {
    if path == [] then Some(v)
    else
      match path[0]
      case Field(name) => if v.Object? && name in v.fields then Lookup(v.fields[name], path[1..]) else None
      case Item(i) => if v.List? && i < |v.items| then Lookup(v.items[i], path[1..]) else None
  }

  /** One value may stand where the other stood: same kind of value, and a text only cut. */
  predicate Stands(h: Hash, was: Json, after: Json) {
    match was
    case Object(fields) => after.Object? && after.fields.Keys == fields.Keys
    case List(items) => after.List? && |after.items| == |items|
    case Text(s) => after == was || (|s| > 64 && after == Text(s[..64] + h(s)))
    case _ => after == was
  }

  /** Pruning adds no place and loses none, and changes nothing but texts, which it only cuts. */
  lemma {:induction false} KeepsPlaces(h: Hash, v: Json, inList: bool, path: seq<Step>)
    requires v.Object? || v.List? || path == []
    ensures var before, after := Lookup(v, path), Lookup(PruneValue(h, v, inList), path);
            && (before.None? <==> after.None?)
            && (before.Some? ==> Stands(h, before.value, after.value))
    decreases |path|, 0
  {
    if path != [] {
      match path[0]
      case Field(name) =>
        if v.Object? && name in v.fields {
          KeepsInside(h, v.fields[name], PruneField(h, name, v.fields[name], inList), path[1..], false);
        }
      case Item(i) =>
        if v.List? && i < |v.items| {
          KeepsInside(h, v.items[i], PruneValue(h, v.items[i], true), path[1..], true);
        }
    }
  }

  lemma {:induction false} KeepsInside(h: Hash, v: Json, pruned: Json, path: seq<Step>, inList: bool)
    requires if v.Object? || v.List? then pruned == PruneValue(h, v, inList) else Stands(h, v, pruned)
    ensures var before, after := Lookup(v, path), Lookup(pruned, path);
            && (before.None? <==> after.None?)
            && (before.Some? ==> Stands(h, before.value, after.value))
    decreases |path|, 1
  {
    if v.Object? || v.List? {
      KeepsPlaces(h, v, inList, path);
    }
  }

  /** The keys that a list merge goes by keep their values in the items of every list. */
  lemma KeepsListKeys(h: Hash, items: seq<Json>, i: nat, k: string)
    requires i < |items| && items[i].Object? && k in items[i].fields && TellsItemsApart(k)
    requires !items[i].fields[k].Object? && !items[i].fields[k].List?
    ensures Lookup(PruneValue(h, List(items), false), [Item(i), Field(k)]) == Some(items[i].fields[k])
  {
    var path := [Item(i), Field(k)];
    assert path[1..] == [Field(k)] && path[1..][1..] == [];
    var item := PruneValue(h, items[i], true);
    assert item.fields[k] == PruneField(h, k, items[i].fields[k], true) == items[i].fields[k];
    assert Lookup(item, path[1..]) == Lookup(item.fields[k], []);
  }
}
