/** The vocabulary shared by the models: kinds, keys, objects and their metadata. */
module Kube {
  datatype Option<+T> = None | Some(value: T)

  /** A kind without its version. The API server stores one object per (GK, key), visible under every version. */
  datatype GK = GK(group: string, kind: string)

  datatype GVK = GVK(group: string, version: string, kind: string) {
    function GroupKind(): GK {
      GK(group, kind)
    }
  }

  /** The text of a GVK, as stamped on every object of an owner. */
  function GVKText(g: GVK): string {
    g.group + "/" + g.version + ", Kind=" + g.kind
  }

  datatype Key = Key(ns: string, name: string)

  /** The text of an object key. */
  function KeyText(k: Key): string {
    if k.ns == "" then k.name else k.ns + "/" + k.name
  }

  /** Label and annotation names: the ones the apply engine gives a meaning, and all the rest. */
  datatype Label =
    | LabelHash
    | LabelSubContext
    | LabelGVK
    | LabelName
    | LabelNamespace
    | LabelApplied
    | AnnotationPrune
    | AnnotationCreate
    | AnnotationUpdate
    | Other(text: string)

  datatype OwnerRef = OwnerRef(gvk: GVK, name: string, uid: string)

  /** An object as the engine sees it. `body` stands for everything the engine passes through untouched. */
  datatype Obj = Obj(key: Key,
                     labels: map<Label, string>,
                     annotations: map<Label, string>,
                     owners: seq<OwnerRef>,
                     finalizers: seq<string>,
                     deleting: bool,
                     body: string)
  {
    function Label(l: Label): string {
      if l in labels then labels[l] else ""
    }

    function Annotation(l: Label): string {
      if l in annotations then annotations[l] else ""
    }

    /** Opting out is by the annotation value "false"; anything else, including no annotation, opts in. */
    predicate Should(l: Label) {
      Annotation(l) != "false"
    }
  }

  predicate NoDup<T(==)>(s: seq<T>) {
    forall i, j :: 0 <= i < j < |s| ==> s[i] != s[j]
  }

  lemma NoDupInit<T>(s: seq<T>)
    requires NoDup(s) && s != []
    ensures NoDup(s[..|s| - 1])
    ensures s[|s| - 1] !in s[..|s| - 1]
    ensures forall x :: x in s <==> x in s[..|s| - 1] || x == s[|s| - 1]
  {
    assert s == s[..|s| - 1] + [s[|s| - 1]];
  }

  lemma NoDupAppend<T>(a: seq<T>, b: seq<T>)
    requires NoDup(a) && NoDup(b) && forall x :: x in a ==> x !in b
    ensures NoDup(a + b)
  {
    forall i, j | 0 <= i < j < |a + b| ensures (a + b)[i] != (a + b)[j] {
      if i < |a| <= j {
        assert a[i] in a && b[j - |a|] in b;
      }
    }
  }

  lemma {:induction false} SubsetSize<T>(a: set<T>, b: set<T>)
    requires a <= b
    ensures |a| <= |b| && (a != b ==> |a| < |b|)
  {
    if a != {} {
      var x :| x in a;
      SubsetSize(a - {x}, b - {x});
      assert a - {x} != b - {x} || a == b by {
        assert a == (a - {x}) + {x} && b == (b - {x}) + {x};
      }
    } else if b != {} {
      var x :| x in b;
      assert |b| == |b - {x}| + 1;
    }
  }
}
