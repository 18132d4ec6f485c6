/** The few string operations the keys and codecs of the program are built from. */
module Text {
  predicate HasPrefix(s: string, prefix: string) {
    prefix <= s
  }

  function TrimPrefix(s: string, prefix: string): string {
    if HasPrefix(s, prefix) then s[|prefix|..] else s
  }

  /** Where `c` first occurs, or the length of the text. */
  function IndexOf(s: string, c: char): (i: nat)
    ensures i <= |s| && c !in s[..i] && (i < |s| ==> s[i] == c)
  {
    if s == "" || s[0] == c then 0
    else
      var i := 1 + IndexOf(s[1..], c);
      assert s[..i] == [s[0]] + s[1..][..i - 1];
      i
  }

  datatype Pieces = Pieces(before: string, after: string, found: bool)

  /** Around the first occurrence of `c`; everything before it if there is none. */
  function Cut(s: string, c: char): (p: Pieces)
    ensures p.found <==> c in s
    ensures p.found ==> s == p.before + [c] + p.after && c !in p.before
    ensures !p.found ==> p.before == s && p.after == ""
  {
    var i := IndexOf(s, c);
    if i < |s| then Pieces(s[..i], s[i + 1..], true)
    else assert s[..i] == s; Pieces(s, "", false)
  }

  /** Cutting at a character finds the pieces put around it, if the first piece does not contain it. */
  lemma CutJoin(before: string, c: char, after: string)
    requires c !in before
    ensures Cut(before + [c] + after, c) == Pieces(before, after, true)
  {
    var s := before + [c] + after;
    assert s[|before|] == c;
    var p := Cut(s, c);
    assert forall i :: 0 <= i < |before| ==> s[i] == before[i] != c;
    assert forall i :: 0 <= i < |p.before| ==> s[i] == p.before[i] != c;
    assert s[|p.before|] == c;
    assert |p.before| == |before|;
    assert p.before == s[..|before|] == before;
    assert p.after == s[|before| + 1..] == after;
  }

  /** Byte order. */
  predicate Less(a: string, b: string) {
    if b == "" then false
    else if a == "" then true
    else a[0] < b[0] || (a[0] == b[0] && Less(a[1..], b[1..]))
  }

  // ----- splitting at a text -----

  predicate OccursAt(s: string, sep: string, i: int) {
    0 <= i && i + |sep| <= |s| && s[i..i + |sep|] == sep
  }

  predicate Contains(s: string, sep: string) {
    exists i :: 0 <= i <= |s| && OccursAt(s, sep, i)
  }

  /** Where `sep` first occurs, or -1. */
  function FirstOf(s: string, sep: string, from: nat := 0): (i: int)
    requires from <= |s|
    ensures i < 0 ==> forall j :: from <= j ==> !OccursAt(s, sep, j)
    ensures i >= 0 ==> from <= i && OccursAt(s, sep, i) && forall j :: from <= j < i ==> !OccursAt(s, sep, j)
    decreases |s| - from
  {
    if OccursAt(s, sep, from) then from
    else if from == |s| then -1
    else FirstOf(s, sep, from + 1)
  }

  /** The pieces between the occurrences of a separator. */
  function Split(s: string, sep: string): (parts: seq<string>)
    requires sep != ""
    ensures |parts| >= 1
    ensures |parts| == 1 <==> !Contains(s, sep)
    decreases |s|
  {
    var i := FirstOf(s, sep);
    if i < 0 then [s] else [s[..i]] + Split(s[i + |sep|..], sep)
  }

  /** A separator that starts with a character it has nowhere else cannot overlap itself. */
  predicate Separates(sep: string) {
    sep != "" && sep[0] !in sep[1..]
  }

  /** The two places are not this far from each other. */
  predicate NotAtDistance(i: int, j: int, distance: int) {
    i != j + distance && i + distance != j
  }

  lemma OccurrencesApart(a: string, sep: string, b: string, i: int)
    requires Separates(sep) && OccursAt(a + sep + b, sep, i)
    ensures i + |sep| <= |a| || i == |a| || i >= |a| + |sep|
  {
    var s := a + sep + b;
    OccurrenceChars(s, sep, i, 0);
    assert s[|a|] == sep[0];
    forall k | 1 <= k < |sep| ensures NotAtDistance(i, |a|, k) {
      OccurrenceChars(s, sep, i, k);
      assert s[|a| + k] == sep[k];
      assert sep[k] == sep[1..][k - 1] != sep[0];
    }
    var ahead, behind := i - |a|, |a| - i;
    assert 1 <= ahead < |sep| ==> NotAtDistance(i, |a|, ahead);
    assert 1 <= behind < |sep| ==> NotAtDistance(i, |a|, behind);
  }

  lemma OccurrenceChars(s: string, sep: string, i: int, k: nat)
    requires OccursAt(s, sep, i) && k < |sep|
    ensures s[i + k] == sep[k]
  {
    assert s[i..i + |sep|][k] == s[i + k];
  }

  lemma OccursInPiece(a: string, sep: string, b: string, i: int)
    requires Separates(sep)
    ensures OccursAt(a + sep + b, sep, i) <==>
              OccursAt(a, sep, i) || i == |a| || OccursAt(b, sep, i - |a| - |sep|)
  {
    var s := a + sep + b;
    if OccursAt(s, sep, i) {
      OccurrencesApart(a, sep, b, i);
    }
    if 0 <= i <= |a| - |sep| {
      assert s[i..i + |sep|] == a[i..i + |sep|];
    }
    if |a| + |sep| <= i <= |s| - |sep| {
      var j := i - |a| - |sep|;
      assert s[i..i + |sep|] == b[j..j + |sep|];
    }
  }

  /** After an occurrence in the first piece, the separator between the pieces is still to come. */
  lemma RestContains(a: string, sep: string, b: string, i: nat)
    requires Separates(sep) && OccursAt(a, sep, i)
    ensures i + |sep| <= |a + sep + b| && Contains((a + sep + b)[i + |sep|..], sep)
  {
    var a' := a[i + |sep|..];
    OccursInPiece(a', sep, b, |a'|);
    assert (a + sep + b)[i + |sep|..] == a' + sep + b;
  }

  lemma SplitMany(s: string, a: string, sep: string, b: string)
    requires Separates(sep) && s == a + sep + b && Contains(a, sep)
    ensures |Split(s, sep)| >= 3
  {
    var i := FirstOf(s, sep);
    assert OccursAt(a, sep, i) by {
      var j :| 0 <= j <= |a| && OccursAt(a, sep, j);
      OccursInPiece(a, sep, b, j);
      OccursInPiece(a, sep, b, i);
    }
    RestContains(a, sep, b, i);
  }

  lemma SplitOnce(s: string, a: string, sep: string, b: string)
    requires Separates(sep) && s == a + sep + b && !Contains(a, sep)
    ensures Split(s, sep) == [a] + Split(b, sep)
  {
    var i := FirstOf(s, sep);
    OccursInPiece(a, sep, b, |a|);
    OccursInPiece(a, sep, b, i);
    assert i == |a| && s[..i] == a && s[i + |sep|..] == b;
  }

  /** Text put together from two pieces splits into two pieces, and then the same two, if neither has the separator. */
  lemma SplitJoin(s: string, a: string, sep: string, b: string)
    requires Separates(sep) && s == a + sep + b
    ensures |Split(s, sep)| == 2 <==> !Contains(a, sep) && !Contains(b, sep)
    ensures |Split(s, sep)| == 2 ==> Split(s, sep) == [a, b]
  {
    if Contains(a, sep) {
      SplitMany(s, a, sep, b);
    } else {
      SplitOnce(s, a, sep, b);
      assert |Split(b, sep)| == 1 ==> Split(b, sep) == [b];
    }
  }
}
