/**
 * The texts the program packs its keys into, and how they come apart again: queue keys (pkg/runtime/backend.go,
 * pkg/runtime/controller.go, pkg/router/handler.go) and the stamped GVK of an owner (pkg/apply/desiredset_owner.go).
 */
module Codecs {
  import opened Kube
  import opened Text
  import opened Cascade
  import opened Order

  const TRIGGER_PREFIX := "_t "
  const REPLAY_PREFIX := "_r "
  const KIND_SEPARATOR := ", Kind="

  // ----- queue keys -----

  function KeyFunc(ns: string, name: string): string {
    KeyText(Key(ns, name))
  }

  function KeyParse(key: string): Key {
    var p := Cut(key, '/');
    if p.found then Key(p.before, p.after) else Key("", key)
  }

  /** The queue key of a request: a delayed one is queued as an ordinary key, any other as a triggered one. */
  function Encode(key: string, delayed: bool): string {
    if delayed then
      var p := Cut(key, '/');
      if p.found then KeyFunc(p.before, p.after) else KeyFunc("", key)
    else TRIGGER_PREFIX + key
  }

  datatype Decoded = Decoded(key: string, mode: Mode)

  /** What the handler makes of a queue key; a replay is no longer a trigger. */
  function Decode(queued: string): Decoded {
    var fromTrigger := HasPrefix(queued, TRIGGER_PREFIX);
    var key := TrimPrefix(queued, TRIGGER_PREFIX);
    if HasPrefix(key, REPLAY_PREFIX) then Decoded(TrimPrefix(key, REPLAY_PREFIX), Replayed)
    else Decoded(key, if fromTrigger then Triggered else Plain)
  }

  /** Keys the controller hands to the handler without looking the object up. */
  predicate IsSpecial(key: string) {
    |key| > 2 && key[0] == '_' && key[2] == ' '
  }

  lemma ParseFormatted(ns: string, name: string)
    ensures KeyParse(KeyFunc(ns, name)) == Key(ns, name) <==> '/' !in ns && (ns == "" ==> '/' !in name)
  {
    if ns != "" {
      if '/' !in ns {
        CutJoin(ns, '/', name);
      } else {
        assert '/' !in Cut(KeyFunc(ns, name), '/').before;
      }
    } else if '/' in name {
      var p := Cut(name, '/');
      assert |p.after| < |name|;
    }
  }

  /** No slash in the key can be mistaken for the one its text puts between namespace and name. */
  predicate Unambiguous(k: Key) {
    '/' !in k.ns && (k.ns == "" ==> '/' !in k.name)
  }

  /** The texts that keys and kinds are sorted by tell them apart. */
  lemma TextsTellApart(a: Key, b: Key, g: GVK, h: GVK)
    ensures Unambiguous(a) && Unambiguous(b) && KeyText(a) == KeyText(b) ==> a == b
    ensures Separable(g) && Separable(h) && GVKText(g) == GVKText(h) ==> g == h
  {
    ParseFormatted(a.ns, a.name);
    ParseFormatted(b.ns, b.name);
    GVKIsRecovered(g);
    GVKIsRecovered(h);
  }

  /** What there is to create, update or prune determines the order in which it is done. */
  lemma QueueIsDetermined(a: seq<Key>, b: seq<Key>)
    requires Sorted(KeyText, a) && Sorted(KeyText, b) && NoDup(a) && NoDup(b) && forall k :: k in a <==> k in b
    requires forall k :: k in a ==> Unambiguous(k)
    ensures a == b
  {
    forall x, y | x in a && y in a && KeyText(x) == KeyText(y) ensures x == y {
      var g := GVK("", "", "");
      TextsTellApart(x, y, g, g);
    }
    SortedIsUnique(KeyText, a, b);
  }

  lemma FormatParsed(key: string)
    ensures KeyFunc(KeyParse(key).ns, KeyParse(key).name) == if HasPrefix(key, "/") then key[1..] else key
  {
    var p := Cut(key, '/');
    if HasPrefix(key, "/") {
      assert key == "/" + key[1..];
      CutJoin("", '/', key[1..]);
      assert "" + "/" + key[1..] == key;
    } else if p.found {
      assert key[|p.before|] == '/';
      assert |key| > 0 ==> HasPrefix(key, "/") == (key[0] == '/');
      assert [ '/' ] == "/";
    }
  }

  /** Decoding recovers the key and how it was asked for, for every key but those that carry a prefix themselves. */
  lemma TriggerIsRecovered(key: string)
    ensures Decode(Encode(key, false)) == Decoded(key, Triggered) <==> !HasPrefix(key, REPLAY_PREFIX)
  {
    assert TrimPrefix(TRIGGER_PREFIX + key, TRIGGER_PREFIX) == key;
  }

  /** A replay is always recovered, whatever the key looks like. */
  lemma ReplayIsRecovered(key: string)
    ensures Decode(Encode(REPLAY_PREFIX + key, false)) == Decoded(key, Replayed)
  {
    assert TrimPrefix(TRIGGER_PREFIX + (REPLAY_PREFIX + key), TRIGGER_PREFIX) == REPLAY_PREFIX + key;
    assert TrimPrefix(REPLAY_PREFIX + key, REPLAY_PREFIX) == key;
  }

  lemma DelayedIsRecovered(key: string)
    ensures Decode(Encode(key, true)) == Decoded(key, Plain) <==>
            !HasPrefix(key, "/") && !HasPrefix(key, TRIGGER_PREFIX) && !HasPrefix(key, REPLAY_PREFIX)
  {
    FormatParsed(key);
    var queued := Encode(key, true);
    assert queued == if HasPrefix(key, "/") then key[1..] else key;
    assert |Decode(queued).key| <= |queued|;
  }

  /** The controller looks an object up for no key that the handler takes for a trigger or a replay. */
  lemma PrefixedIsSpecial(queued: string)
    requires !Decode(queued).mode.Plain?
    ensures IsSpecial(queued)
  {
    if HasPrefix(queued, TRIGGER_PREFIX) {
      assert queued[..3] == TRIGGER_PREFIX;
    } else {
      assert queued[..3] == REPLAY_PREFIX;
    }
  }

  // ----- the stamped GVK -----

  datatype ParsedGVK = Parsed(gvk: GVK) | InvalidFormat

  function GetGVK(text: string): ParsedGVK {
    var parts := Split(text, KIND_SEPARATOR);
    if |parts| != 2 then InvalidFormat
    else
      var p := Cut(parts[0], '/');
      Parsed(GVK(p.before, p.after, parts[1]))
  }

  /** No part of the GVK can be mistaken for what separates the parts. */
  predicate Separable(g: GVK) {
    && '/' !in g.group
    && !Contains(g.group, KIND_SEPARATOR) && !Contains(g.version, KIND_SEPARATOR) && !Contains(g.kind, KIND_SEPARATOR)
  }

  lemma GVKIsRecovered(g: GVK)
    ensures GetGVK(GVKText(g)) == Parsed(g) <==> Separable(g)
  {
    var front := g.group + "/" + g.version;
    SplitJoin(GVKText(g), front, KIND_SEPARATOR, g.kind);
    NotAcrossSlash(g.group, g.version);
    assert front == g.group + ['/'] + g.version;
    if '/' !in g.group {
      CutJoin(g.group, '/', g.version);
    }
  }

  lemma NotAcrossSlash(a: string, b: string)
    ensures Contains(a + "/" + b, KIND_SEPARATOR) <==> Contains(a, KIND_SEPARATOR) || Contains(b, KIND_SEPARATOR)
  {
    var s, n := a + "/" + b, |KIND_SEPARATOR|;
    forall i | OccursAt(s, KIND_SEPARATOR, i)
      ensures OccursAt(a, KIND_SEPARATOR, i) || OccursAt(b, KIND_SEPARATOR, i - |a| - 1)
    {
      assert forall k :: 0 <= k < n ==> s[i + k] == s[i..i + n][k] == KIND_SEPARATOR[k] != '/';
      assert s[|a|] == '/';
      assert forall k :: i <= k < i + n ==> s[k] == KIND_SEPARATOR[k - i];
      if i <= |a| { assert s[i..i + n] == a[i..i + n]; }
      if i > |a| { assert s[i..i + n] == b[i - |a| - 1..i - |a| - 1 + n]; }
    }
    forall i | OccursAt(a, KIND_SEPARATOR, i) ensures OccursAt(s, KIND_SEPARATOR, i) {
      assert s[i..i + n] == a[i..i + n];
    }
    forall i | OccursAt(b, KIND_SEPARATOR, i) ensures OccursAt(s, KIND_SEPARATOR, i + |a| + 1) {
      assert s[i + |a| + 1..i + |a| + 1 + n] == b[i..i + n];
    }
  }
}
