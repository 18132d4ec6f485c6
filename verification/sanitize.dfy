/** Cleaning a patch of what the engine must not send (pkg/apply/desiredset_compare.go), on JSON values. */
module Sanitize {
  import opened Kube

  datatype Json =
    | Null
    | Bool(b: bool)
    | Number(text: string)
    | Text(text: string)
    | List(items: seq<Json>)
    | Object(fields: Fields)

  type Fields = map<string, Json>

  const METADATA := "metadata"
  const ANNOTATIONS := "annotations"
  const APPLIED := "apply.acorn.io/applied"
  const SENTINEL := "__invalid_key__"
  const METADATA_FIELDS := ["creationTimestamp", "generation", "resourceVersion", "uid", "managedFields"]

  /** A value that is not an object has no fields. */
  function FieldsOf(j: Json): Fields {
    if j.Object? then j.fields else map[]
  }

  // ----- empty maps -----

  /** Nothing but single keys along the path, ending in something without fields, on the path or at its end. */
  predicate IsChain(data: Fields, path: seq<string>)
    decreases |path|
  {
    data == map[] || (path != [] && data.Keys == {path[0]} && IsChain(FieldsOf(data[path[0]]), path[1..]))
  }

  /** Single keys along the whole path, whatever is at its end. */
  predicate IsPath(data: Fields, path: seq<string>)
    decreases |path|
  {
    path == [] || (data.Keys == {path[0]} && IsPath(FieldsOf(data[path[0]]), path[1..]))
  }

  lemma SizeOne(data: Fields, k: string)
    ensures |data| == 1 && k in data <==> data.Keys == {k}
  {
    if |data| == 1 && k in data {
      assert data.Keys == {k} + (data.Keys - {k});
      assert |data.Keys - {k}| == 0;
    }
  }

  /** Going through the keys and then a key that no map is supposed to have. */
  method EmptyMaps(data: Fields, keys: seq<string>) returns (empty: bool)
    ensures empty <==> IsChain(data, keys) || IsPath(data, keys + [SENTINEL])
  {
    var all := keys + [SENTINEL];
    var current := data;
    for i := 0 to |all|
      invariant i <= |keys| ==> (IsChain(data, keys) <==> IsChain(current, keys[i..]))
      invariant IsPath(data, all) <==> IsPath(current, all[i..])
      invariant i > |keys| ==> IsPath(data, all)
    {
      var key := all[i];
      SizeOne(current, key);
      assert all[i..][1..] == all[i + 1..] && all[i..][0] == key;
      if i < |keys| {
        assert keys[i..][1..] == keys[i + 1..] && keys[i..][0] == key;
      } else {
        assert keys[i..] == [];
      }
      if |current| == 0 {
        return true;
      } else if |current| > 1 {
        return false;
      }
      if key !in current {
        return false;
      }
      current := FieldsOf(current[key]);
    }
    assert all[|all|..] == [];
    return true;
  }

  lemma {:induction false} LongerPath(data: Fields, path: seq<string>, more: seq<string>)
    requires IsChain(data, path)
    ensures IsChain(data, path + more)
    decreases |path|
  {
    if data != map[] {
      assert (path + more)[1..] == path[1..] + more;
      LongerPath(FieldsOf(data[path[0]]), path[1..], more);
    }
  }

  // ----- the patch -----

  /** What the engine leaves of a patch. */
  function Stripped(data: Fields): Fields {
    var top := data - {"kind", "apiVersion", "status"};
    if METADATA in top && top[METADATA].Object?
    then top[METADATA := Object(top[METADATA].fields - (set f | f in METADATA_FIELDS))]
    else top
  }

  /** Removes the metadata fields that the server owns, and tells whether there were any. */
  method RemoveMetadataFields(data: Fields) returns (data': Fields, deleted: bool)
    ensures data' == if METADATA in data && data[METADATA].Object?
                     then data[METADATA := Object(data[METADATA].fields - (set f | f in METADATA_FIELDS))] else data
    ensures deleted <==> METADATA in data && exists f :: f in METADATA_FIELDS && f in FieldsOf(data[METADATA])
    ensures !deleted ==> data' == data
  {
    if METADATA !in data {
      return data, false;
    }
    deleted := false;
    var metadata := FieldsOf(data[METADATA]);
    ghost var all := metadata;
    for i := 0 to |METADATA_FIELDS|
      invariant metadata == all - (set f | f in METADATA_FIELDS[..i])
      invariant deleted <==> exists f :: f in METADATA_FIELDS[..i] && f in all
      invariant !deleted ==> metadata == all
    {
      var key := METADATA_FIELDS[i];
      assert METADATA_FIELDS[..i + 1] == METADATA_FIELDS[..i] + [key];
      if key in metadata {
        metadata := metadata - {key};
        deleted := true;
      }
    }
    assert METADATA_FIELDS[..|METADATA_FIELDS|] == METADATA_FIELDS;
    data' := if data[METADATA].Object? then data[METADATA := Object(metadata)] else data;
  }

  /** No place the check for emptiness looks at has the key no map is supposed to have. */
  predicate NoSentinel(data: Fields) {
    !IsPath(data, [METADATA, ANNOTATIONS, SENTINEL]) && !IsPath(data, [METADATA, ANNOTATIONS, APPLIED, SENTINEL])
  }

  /** The patch to send; the empty one if nothing but the engine's own record would change. */
  function Sanitized(data: Fields): Fields {
    var rest := Stripped(data);
    if IsChain(rest, [METADATA, ANNOTATIONS, APPLIED]) || !NoSentinel(rest) then map[] else rest
  }

  /** Only an object, or null, is a patch. */
  method SanitizePatch(patch: Json) returns (r: Option<Fields>)
    ensures r == if patch.Object? then Some(Sanitized(patch.fields))
                 else if patch.Null? then Some(map[]) else None
  {
    if !patch.Object? && !patch.Null? {
      return None;
    }
    var data := FieldsOf(patch);
    var modified := false;
    if "kind" in data {
      modified, data := true, data - {"kind"};
    }
    if "apiVersion" in data {
      modified, data := true, data - {"apiVersion"};
    }
    if "status" in data {
      modified, data := true, data - {"status"};
    }
    var deleted;
    data, deleted := RemoveMetadataFields(data);
    assert data == Stripped(FieldsOf(patch));
    var empty := EmptyMaps(data, [METADATA, ANNOTATIONS]);
    if empty {
      ChainsAgree(data);
      return Some(map[]);
    }
    empty := EmptyMaps(data, [METADATA, ANNOTATIONS, APPLIED]);
    ChainsAgree(data);
    if empty {
      return Some(map[]);
    }
    if !modified && !deleted {
      return Some(FieldsOf(patch));
    }
    return Some(data);
  }

  lemma ChainsAgree(data: Fields)
    ensures [METADATA, ANNOTATIONS] + [SENTINEL] == [METADATA, ANNOTATIONS, SENTINEL]
    ensures [METADATA, ANNOTATIONS, APPLIED] + [SENTINEL] == [METADATA, ANNOTATIONS, APPLIED, SENTINEL]
    ensures IsChain(data, [METADATA, ANNOTATIONS]) ==> IsChain(data, [METADATA, ANNOTATIONS, APPLIED])
  {
    if IsChain(data, [METADATA, ANNOTATIONS]) {
      LongerPath(data, [METADATA, ANNOTATIONS], [APPLIED]);
      assert [METADATA, ANNOTATIONS] + [APPLIED] == [METADATA, ANNOTATIONS, APPLIED];
    }
  }

  // ----- what it comes to -----

  function Lookup(data: Fields, outer: string, inner: string): Option<Json> {
    if outer in data && inner in FieldsOf(data[outer]) then Some(FieldsOf(data[outer])[inner]) else None
  }

  /** The fields of the metadata that only the server writes. */
  predicate IsServerOwned(k: string) {
    k == "creationTimestamp" || k == "generation" || k == "resourceVersion" || k == "uid" || k == "managedFields"
  }

  /** Exactly three fields and five metadata fields go; all others stay with their values. */
  lemma StripsExactly(data: Fields, k: string)
    ensures k in Stripped(data) <==> k in data && k != "kind" && k != "apiVersion" && k != "status"
    ensures k in Stripped(data) && k != "metadata" ==> Stripped(data)[k] == data[k]
    ensures Lookup(Stripped(data), "metadata", k) == if IsServerOwned(k) then None else Lookup(data, "metadata", k)
    ensures "metadata" in data && !data["metadata"].Object? ==> Stripped(data)["metadata"] == data["metadata"]
  {}

  /** A patch that is sent at all is sent with exactly the other fields. */
  lemma SendsExactly(data: Fields, k: string)
    requires Sanitized(data) != map[]
    ensures k in Sanitized(data) <==> k in data && k != "kind" && k != "apiVersion" && k != "status"
    ensures k in Sanitized(data) && k != "metadata" ==> Sanitized(data)[k] == data[k]
    ensures Lookup(Sanitized(data), "metadata", k) == if IsServerOwned(k) then None else Lookup(data, "metadata", k)
  {
    StripsExactly(data, k);
  }

  lemma StrippedTwice(data: Fields)
    ensures Stripped(Stripped(data)) == Stripped(data)
  {
    if METADATA in data && data[METADATA].Object? {
      var fields := data[METADATA].fields;
      var gone := set f | f in METADATA_FIELDS;
      assert fields - gone - gone == fields - gone;
    }
  }

  /** Cleaning a clean patch changes nothing. */
  lemma SanitizedTwice(data: Fields)
    ensures Sanitized(Sanitized(data)) == Sanitized(data)
  {
    StrippedTwice(data);
    assert Stripped(map[]) == map[];
  }

  function Inner(data: Fields, k: string): Fields {
    if k in data then FieldsOf(data[k]) else map[]
  }

  /** All that remains is metadata, in it nothing but annotations, and in those nothing but the engine's own record. */
  predicate OnlyTheRecord(rest: Fields) {
    var metadata := Inner(rest, "metadata");
    var annotations := Inner(metadata, "annotations");
    rest.Keys <= {"metadata"} && metadata.Keys <= {"annotations"} && annotations.Keys <= {"apply.acorn.io/applied"}
    && Inner(annotations, "apply.acorn.io/applied") == map[]
  }

  lemma ChainOfOne(data: Fields, k: string, path: seq<string>)
    requires path != [] && path[0] == k
    ensures IsChain(data, path) <==> data.Keys <= {k} && IsChain(Inner(data, k), path[1..])
  {
    if data.Keys <= {k} {
      if k in data {
        assert data.Keys == {k};
      } else {
        assert data == map[];
      }
    }
  }

  /**
   * Nothing is sent exactly when nothing but the engine's own record is left, as long as neither the annotations nor the
   * record have the key that no map is supposed to have.
   */
  lemma EmptyExactly(data: Fields)
    requires var annotations := Inner(Inner(Stripped(data), "metadata"), "annotations");
             "__invalid_key__" !in annotations && "__invalid_key__" !in Inner(annotations, "apply.acorn.io/applied")
    ensures Sanitized(data) == map[] <==> OnlyTheRecord(Stripped(data))
  {
    var rest := Stripped(data);
    var path := [METADATA, ANNOTATIONS, APPLIED];
    assert path[1..] == [ANNOTATIONS, APPLIED] && path[1..][1..] == [APPLIED] && path[1..][1..][1..] == [];
    ChainOfOne(rest, METADATA, path);
    ChainOfOne(Inner(rest, METADATA), ANNOTATIONS, path[1..]);
    ChainOfOne(Inner(Inner(rest, METADATA), ANNOTATIONS), APPLIED, path[1..][1..]);
    NoPathToSentinel(rest);
  }

  lemma NoPathToSentinel(rest: Fields)
    requires var annotations := Inner(Inner(rest, METADATA), ANNOTATIONS);
             SENTINEL !in annotations && SENTINEL !in Inner(annotations, APPLIED)
    ensures NoSentinel(rest)
  {
    var p, q := [METADATA, ANNOTATIONS, SENTINEL], [METADATA, ANNOTATIONS, APPLIED, SENTINEL];
    assert p[1..] == [ANNOTATIONS, SENTINEL] && p[1..][1..] == [SENTINEL];
    assert q[1..] == [ANNOTATIONS, APPLIED, SENTINEL] && q[1..][1..] == [APPLIED, SENTINEL];
    assert q[1..][1..][1..] == [SENTINEL];
    PathThrough(rest, p);
    PathThrough(Inner(rest, METADATA), p[1..]);
    PathThrough(Inner(Inner(rest, METADATA), ANNOTATIONS), p[1..][1..]);
    PathThrough(rest, q);
    PathThrough(Inner(rest, METADATA), q[1..]);
    PathThrough(Inner(Inner(rest, METADATA), ANNOTATIONS), q[1..][1..]);
    PathThrough(Inner(Inner(Inner(rest, METADATA), ANNOTATIONS), APPLIED), q[1..][1..][1..]);
  }

  lemma PathThrough(data: Fields, path: seq<string>)
    requires path != []
    ensures IsPath(data, path) ==> path[0] in data && IsPath(Inner(data, path[0]), path[1..])
  {
    if IsPath(data, path) {
      assert path[0] in data.Keys;
    }
  }

  /** With that key in the annotations a change that matters is not sent. */
  lemma SentinelHidesAChange()
    ensures var data: Fields := map[METADATA := Object(map[ANNOTATIONS := Object(map[SENTINEL := Text("x")])])];
            Sanitized(data) == map[] && !IsChain(Stripped(data), [METADATA, ANNOTATIONS, APPLIED])
  {
    var inner: Fields := map[SENTINEL := Text("x")];
    var middle: Fields := map[ANNOTATIONS := Object(inner)];
    var data: Fields := map[METADATA := Object(middle)];
    assert middle - (set f | f in METADATA_FIELDS) == middle;
    assert Stripped(data) == data;
    var path := [METADATA, ANNOTATIONS, SENTINEL];
    assert path[1..] == [ANNOTATIONS, SENTINEL] && path[1..][1..] == [SENTINEL] && path[1..][1..][1..] == [];
    assert inner.Keys == {SENTINEL} && middle.Keys == {ANNOTATIONS} && data.Keys == {METADATA};
    assert IsPath(inner, [SENTINEL]);
    assert IsPath(middle, [ANNOTATIONS, SENTINEL]);
    assert IsPath(data, path);
    var chain := [METADATA, ANNOTATIONS, APPLIED];
    assert chain[1..] == [ANNOTATIONS, APPLIED] && chain[1..][1..] == [APPLIED];
    assert !IsChain(inner, [APPLIED]);
    assert !IsChain(middle, [ANNOTATIONS, APPLIED]);
  }
}
