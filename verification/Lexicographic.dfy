/** Code-point order on strings, which is what `strcoll` is in the "C" locale. */
module Lexicographic {

  /** Negative, zero or positive, as for `strcoll`. */
  function Compare(a: seq<nat>, b: seq<nat>): int {
    if a == [] then (if b == [] then 0 else -1)
    else if b == [] then 1
    else if a[0] < b[0] then -1
    else if a[0] > b[0] then 1
    else Compare(a[1..], b[1..])
  }

  lemma {:induction false} CompareAtDifference(a: seq<nat>, b: seq<nat>, k: nat)
    requires k < |a| && k < |b| && a[..k] == b[..k] && a[k] != b[k]
    ensures Compare(a, b) == if a[k] < b[k] then -1 else 1
  {
    if k == 0 {
    } else {
      assert a[0] == a[..k][0] == b[..k][0] == b[0];
      assert a[1..][..k - 1] == a[..k][1..] == b[..k][1..] == b[1..][..k - 1];
      CompareAtDifference(a[1..], b[1..], k - 1);
    }
  }

  lemma {:induction false} ComparePrefix(p: seq<nat>, a: seq<nat>, b: seq<nat>)
    ensures Compare(p + a, p + b) == Compare(a, b)
  {
    if p == [] {
      assert p + a == a && p + b == b;
    } else {
      assert (p + a)[1..] == p[1..] + a && (p + b)[1..] == p[1..] + b;
      ComparePrefix(p[1..], a, b);
    }
  }

  lemma CompareProperPrefix(a: seq<nat>, b: seq<nat>)
    requires a < b
    ensures Compare(a, b) == -1
  {
    ComparePrefix(a, [], b[|a|..]);
    assert a + [] == a && a + b[|a|..] == b;
  }

  lemma {:induction false} CompareAntisymmetric(a: seq<nat>, b: seq<nat>)
    ensures Compare(a, b) == -Compare(b, a)
    ensures Compare(a, b) == 0 <==> a == b
  {
    if a == [] || b == [] {
    } else {
      CompareAntisymmetric(a[1..], b[1..]);
      assert a == [a[0]] + a[1..] && b == [b[0]] + b[1..];
    }
  }

  lemma {:induction false} CompareTransitive(a: seq<nat>, b: seq<nat>, c: seq<nat>)
    requires Compare(a, b) <= 0 && Compare(b, c) <= 0
    ensures Compare(a, c) <= 0
    ensures Compare(a, c) == 0 ==> Compare(a, b) == Compare(b, c) == 0
  {
    if a == [] || b == [] || c == [] || !(a[0] == b[0] == c[0]) {
    } else {
      CompareTransitive(a[1..], b[1..], c[1..]);
    }
  }

  /** What lies between two strings with a common prefix has that prefix too. */
  lemma {:induction false} CompareBetween(p: seq<nat>, a: seq<nat>, b: seq<nat>, c: seq<nat>)
    requires p <= a && p <= c && Compare(a, b) < 0 && Compare(b, c) < 0
    ensures p <= b
    ensures |p| < |b|
    ensures |p| < |c| && b[|p|] <= c[|p|] && (|p| < |a| ==> a[|p|] <= b[|p|])
  {
    if p == [] {
    } else {
      assert p[0] == a[0] == c[0];
      assert b != [] && b[0] == p[0];
      CompareBetween(p[1..], a[1..], b[1..], c[1..]);
      assert b == [p[0]] + b[1..];
    }
  }

  /** A string that starts with `p` and is smaller than `p` followed by `m` continues with something below `m`. */
  lemma {:induction false} CompareBelow(p: seq<nat>, key: seq<nat>, m: nat)
    requires p <= key && |p| < |key| && Compare(key, p + [m]) < 0
    ensures key[|p|] < m
  {
    if p == [] {
    } else {
      assert key[0] == p[0] && (p + [m])[1..] == p[1..] + [m];
      CompareBelow(p[1..], key[1..], m);
    }
  }
}
