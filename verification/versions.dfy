/** Resource versions as texts, and which of two is newer (pkg/runtime/cached.go). */
module Versions {
  import opened Kube
  import opened Text

  const MAX_INT := 0x7fff_ffff_ffff_ffff

  predicate IsDigit(c: char) {
    '0' <= c <= '9'
  }

  function Digit(c: char): (d: nat)
    requires IsDigit(c)
    ensures d <= 9
  {
    c as int - '0' as int
  }

  predicate Digits(s: string) {
    forall c :: c in s ==> IsDigit(c)
  }

  function Pow10(n: nat): (p: nat)
    ensures p >= 1
  {
    if n == 0 then 1 else 10 * Pow10(n - 1)
  }

  function Value(s: string): (v: nat)
    requires Digits(s)
  {
    if s == "" then 0 else Digit(s[0]) * Pow10(|s| - 1) + Value(s[1..])
  }

  /** Parsing a decimal number with an optional sign into a 64-bit integer. */
  function Atoi(s: string): (n: Option<int>) {
    var signed := s != "" && (s[0] == '+' || s[0] == '-');
    var digits := if signed then s[1..] else s;
    if digits == "" || !Digits(digits) then None
    else
      var v: int := Value(digits);
      if s[0] == '-' then (if v <= MAX_INT + 1 then Some(-v) else None)
      else if v <= MAX_INT then Some(v) else None
  }

  /** A sign in front of digits is read as one, and a value out of range not at all. */
  lemma AtoiExactly(s: string)
    requires Digits(s) && s != ""
    ensures var v: int := Value(s);
            && Atoi(s) == (if v <= 0x7fff_ffff_ffff_ffff then Some(v) else None)
            && Atoi("+" + s) == Atoi(s)
            && Atoi("-" + s) == (if v <= 0x8000_0000_0000_0000 then Some(-v) else None)
  {
    assert s[0] in s;
    assert ("+" + s)[1..] == s && ("-" + s)[1..] == s;
  }

  predicate Newer(oldRV: string, newRV: string) {
    if |oldRV| == |newRV| then Less(oldRV, newRV)
    else
      var oldI := Atoi(oldRV);
      if oldI.None? then true
      else
        var newI := Atoi(newRV);
        if newI.None? then false else oldI.value < newI.value
  }

  lemma {:induction false} ValueBound(s: string)
    requires Digits(s)
    ensures Value(s) < Pow10(|s|)
    ensures s != "" && s[0] != '0' ==> Value(s) >= Pow10(|s| - 1)
  {
    if s != "" {
      ValueBound(s[1..]);
      HeadBound(Digit(s[0]), Value(s[1..]), Pow10(|s| - 1));
    }
  }

  lemma HeadBound(d: nat, x: nat, p: nat)
    requires d <= 9 && x < p
    ensures d * p + x < 10 * p
    ensures d >= 1 ==> d * p + x >= p
  {
    assert d * p <= 9 * p;
    assert d >= 1 ==> d * p >= p;
  }

  /** Among digit strings of one length, leading zeros or not, byte order is numeric order. */
  lemma {:induction false} ByteOrderIsNumeric(a: string, b: string)
    requires Digits(a) && Digits(b) && |a| == |b|
    ensures Less(a, b) <==> Value(a) < Value(b)
  {
    if a != "" {
      ByteOrderIsNumeric(a[1..], b[1..]);
      ValueBound(a[1..]);
      ValueBound(b[1..]);
      HeadDecides(Digit(a[0]), Digit(b[0]), Value(a[1..]), Value(b[1..]), Pow10(|a| - 1));
    }
  }

  lemma HeadDecides(d: nat, e: nat, x: nat, y: nat, p: nat)
    requires x < p && y < p
    ensures d < e ==> d * p + x < e * p + y
    ensures d > e ==> d * p + x > e * p + y
  {
    if d < e {
      assert (d + 1) * p <= e * p;
    } else if d > e {
      assert (e + 1) * p <= d * p;
    }
  }

  predicate InRange(s: string)
    requires Digits(s)
  {
    Value(s) <= 9_223_372_036_854_775_807
  }

  lemma NewerIsNumeric(a: string, b: string)
    requires Digits(a) && Digits(b) && a != "" && b != ""
    requires InRange(a) && InRange(b)
    ensures Newer(a, b) <==> Value(a) < Value(b)
  {
    if |a| == |b| {
      ByteOrderIsNumeric(a, b);
    } else {
      assert a[0] in a && b[0] in b;
    }
  }

  /** Not a decimal number: nothing to read, or a character that is no digit, other than a sign before digits. */
  predicate Malformed(s: string) {
    || s == ""
    || ((s[0] == '+' || s[0] == '-') && (|s| == 1 || exists i :: 1 <= i < |s| && !IsDigit(s[i])))
    || (s[0] != '+' && s[0] != '-' && exists i :: 0 <= i < |s| && !IsDigit(s[i]))
  }

  /** Texts of different lengths that are no numbers: a malformed one is older than anything, and newer than no number. */
  lemma NewerMalformed(a: string, b: string)
    requires |a| != |b|
    ensures Malformed(a) ==> Newer(a, b)
    ensures Digits(a) && a != "" && InRange(a) && Malformed(b) ==> !Newer(a, b)
  {
    if Malformed(a) {
      MalformedIsNoNumber(a);
    }
    if Malformed(b) {
      MalformedIsNoNumber(b);
    }
    if Digits(a) && a != "" {
      assert a[0] in a;
    }
  }

  lemma MalformedIsNoNumber(s: string)
    requires Malformed(s)
    ensures Atoi(s).None?
  {
    if |s| > 1 && (s[0] == '+' || s[0] == '-') {
      var i :| 1 <= i < |s| && !IsDigit(s[i]);
      assert s[1..][i - 1] == s[i];
    }
  }

  /** As a server writes numbers: no leading zero. */
  predicate Canonical(s: string) {
    s != "" && Digits(s) && (|s| > 1 ==> s[0] != '0')
  }

  lemma LongerIsLarger(a: string, b: string)
    requires Canonical(a) && Canonical(b) && |a| < |b|
    ensures Value(a) < Value(b)
  {
    ValueBound(a);
    ValueBound(b);
    PowGrows(|a|, |b| - 1);
  }

  lemma {:induction false} PowGrows(m: nat, n: nat)
    requires m <= n
    ensures Pow10(m) <= Pow10(n)
  {
    if m < n {
      PowGrows(m, n - 1);
    }
  }

  /**
   * Beyond the range of an integer the answer is still numeric exactly when the texts have one length, or neither is
   * too large, or the first is too large and shorter than the second.
   */
  lemma NewerExactly(a: string, b: string)
    requires Canonical(a) && Canonical(b)
    ensures (Newer(a, b) <==> Value(a) < Value(b)) <==>
            |a| == |b| || (InRange(a) && InRange(b)) || (!InRange(a) && |a| < |b|)
  {
    assert a[0] in a && b[0] in b;
    if |a| == |b| {
      ByteOrderIsNumeric(a, b);
    } else if |a| < |b| {
      LongerIsLarger(a, b);
    } else {
      LongerIsLarger(b, a);
    }
  }

  // ----- writing numbers -----

  function DigitChar(d: nat): (c: char)
    requires d <= 9
    ensures IsDigit(c) && Digit(c) == d
  {
    ('0' as int + d) as char
  }

  function Decimal(n: nat): (s: string)
    ensures Digits(s) && s != ""
  {
    if n < 10 then [DigitChar(n)] else Decimal(n / 10) + [DigitChar(n % 10)]
  }

  lemma {:induction false} ValueOfAppended(s: string, c: char)
    requires Digits(s) && IsDigit(c)
    ensures Digits(s + [c]) && Value(s + [c]) == 10 * Value(s) + Digit(c)
  {
    if s != "" {
      ValueOfAppended(s[1..], c);
      assert (s + [c])[1..] == s[1..] + [c];
      assert Pow10(|s|) == 10 * Pow10(|s| - 1);
      assert Digit(s[0]) * Pow10(|s|) == 10 * (Digit(s[0]) * Pow10(|s| - 1));
    }
  }

  lemma {:induction false} DecimalValue(n: nat)
    ensures Value(Decimal(n)) == n
  {
    if n >= 10 {
      DecimalValue(n / 10);
      ValueOfAppended(Decimal(n / 10), DigitChar(n % 10));
    }
  }
}
