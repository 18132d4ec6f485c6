/** Sorting keys and kinds by their texts, as the apply engine does before it works through them. */
module Order {
  import opened Kube
  import opened Text

  predicate AtMost(a: string, b: string) {
    !Less(b, a)
  }

  lemma {:induction false} LessIsTotal(a: string, b: string)
    ensures AtMost(a, b) || AtMost(b, a)
    ensures AtMost(a, b) && AtMost(b, a) ==> a == b
  {
    if a != "" && b != "" {
      LessIsTotal(a[1..], b[1..]);
      assert a == [a[0]] + a[1..] && b == [b[0]] + b[1..];
    }
  }

  lemma {:induction false} AtMostIsTransitive(a: string, b: string, c: string)
    requires AtMost(a, b) && AtMost(b, c)
    ensures AtMost(a, c)
  {
    if a != "" && b != "" && c != "" {
      if AtMost(a[1..], b[1..]) && AtMost(b[1..], c[1..]) {
        AtMostIsTransitive(a[1..], b[1..], c[1..]);
      }
    }
  }

  ghost predicate Sorted<T>(text: T -> string, s: seq<T>) {
    forall i, j :: 0 <= i < j < |s| ==> AtMost(text(s[i]), text(s[j]))
  }

  function Inserted<T>(text: T -> string, s: seq<T>, x: T): seq<T> {
    if s == [] then [x]
    else if AtMost(text(s[|s| - 1]), text(x)) then s + [x]
    else Inserted(text, s[..|s| - 1], x) + [s[|s| - 1]]
  }

  function SortedBy<T>(text: T -> string, s: seq<T>): seq<T> {
    if s == [] then [] else Inserted(text, SortedBy(text, s[..|s| - 1]), s[|s| - 1])
  }

  lemma {:induction false} InsertedHas<T>(text: T -> string, s: seq<T>, x: T)
    ensures multiset(Inserted(text, s, x)) == multiset(s) + multiset{x}
  {
    if s != [] {
      var n := |s| - 1;
      assert s == s[..n] + [s[n]];
      InsertedHas(text, s[..n], x);
    }
  }

  ghost predicate NoneAbove<T>(text: T -> string, s: seq<T>, x: T) {
    forall y :: y in s ==> AtMost(text(y), text(x))
  }

  lemma SortedAppend<T>(text: T -> string, s: seq<T>, x: T)
    requires Sorted(text, s) && NoneAbove(text, s, x)
    ensures Sorted(text, s + [x])
  {}

  lemma {:induction false} InsertedIsSorted<T>(text: T -> string, s: seq<T>, x: T)
    requires Sorted(text, s)
    ensures Sorted(text, Inserted(text, s, x))
  {
    if s != [] {
      var n := |s| - 1;
      if AtMost(text(s[n]), text(x)) {
        forall i | 0 <= i < n ensures AtMost(text(s[i]), text(x)) {
          AtMostIsTransitive(text(s[i]), text(s[n]), text(x));
        }
        SortedAppend(text, s, x);
      } else {
        InsertedIsSorted(text, s[..n], x);
        LessIsTotal(text(x), text(s[n]));
        InsertedHas(text, s[..n], x);
        var init := Inserted(text, s[..n], x);
        forall y | y in init ensures AtMost(text(y), text(s[n])) {
          assert y in multiset(init);
          assert y in s[..n] || y == x;
        }
        SortedAppend(text, init, s[n]);
      }
    }
  }

  lemma {:induction false} SortedByIsSorted<T>(text: T -> string, s: seq<T>)
    ensures Sorted(text, SortedBy(text, s)) && multiset(SortedBy(text, s)) == multiset(s)
  {
    if s != [] {
      var n := |s| - 1;
      assert s == s[..n] + [s[n]];
      SortedByIsSorted(text, s[..n]);
      InsertedIsSorted(text, SortedBy(text, s[..n]), s[n]);
      InsertedHas(text, SortedBy(text, s[..n]), s[n]);
    }
  }

  lemma SameElements<T>(a: seq<T>, b: seq<T>)
    requires multiset(a) == multiset(b)
    ensures |a| == |b| && (forall x :: x in a <==> x in b) && (NoDup(a) ==> NoDup(b))
  {
    assert |multiset(a)| == |a| && |multiset(b)| == |b|;
    forall x ensures x in a <==> x in b {
      assert x in a <==> x in multiset(a);
      assert x in b <==> x in multiset(b);
    }
    if NoDup(a) {
      forall i, j | 0 <= i < j < |b| ensures b[i] != b[j] {
        OnceEach(a, b[i]);
        if b[i] == b[j] {
          TwiceCounts(b, i, j);
        }
      }
    }
  }

  lemma {:induction false} OnceEach<T>(a: seq<T>, x: T)
    requires NoDup(a)
    ensures multiset(a)[x] <= 1
  {
    if a != [] {
      NoDupInit(a);
      OnceEach(a[..|a| - 1], x);
      assert a == a[..|a| - 1] + [a[|a| - 1]];
    }
  }

  lemma TwiceCounts<T>(b: seq<T>, i: nat, j: nat)
    requires i < j < |b| && b[i] == b[j]
    ensures multiset(b)[b[i]] >= 2
  {
    assert b == b[..j] + b[j..];
    assert b[i] in b[..j] && b[j] in b[j..];
    assert b[i] in multiset(b[..j]) && b[j] in multiset(b[j..]);
  }

  /** Sorting keeps a list without repetitions one, with the same elements. */
  lemma SortedByKeeps<T>(text: T -> string, s: seq<T>)
    requires NoDup(s)
    ensures NoDup(SortedBy(text, s)) && Sorted(text, SortedBy(text, s))
    ensures forall x :: x in SortedBy(text, s) <==> x in s
  {
    SortedByIsSorted(text, s);
    SameElements(s, SortedBy(text, s));
  }

  /** Where different elements have different texts, the order is determined by what there is to sort. */
  lemma {:induction false} SortedIsUnique<T>(text: T -> string, a: seq<T>, b: seq<T>)
    requires Sorted(text, a) && Sorted(text, b) && NoDup(a) && NoDup(b) && forall x :: x in a <==> x in b
    requires forall x, y :: x in a && y in a && text(x) == text(y) ==> x == y
    ensures a == b
  {
    assert |a| > 0 ==> a[0] in b;
    assert |b| > 0 ==> b[0] in a;
    if a != [] && b != [] {
      var x, y := a[|a| - 1], b[|b| - 1];
      NoDupInit(a);
      NoDupInit(b);
      GreatestIsLast(text, a, y);
      GreatestIsLast(text, b, x);
      LessIsTotal(text(x), text(y));
      assert x == y;
      var c, d := a[..|a| - 1], b[..|b| - 1];
      forall z ensures z in c <==> z in d {
        assert z in a <==> z in b;
      }
      SortedIsUnique(text, c, d);
      assert a == a[..|a| - 1] + [x] && b == b[..|b| - 1] + [y];
    }
  }

  lemma GreatestIsLast<T>(text: T -> string, s: seq<T>, x: T)
    requires Sorted(text, s) && x in s
    ensures AtMost(text(x), text(s[|s| - 1]))
  {
    LessIsTotal(text(x), text(x));
  }
}
