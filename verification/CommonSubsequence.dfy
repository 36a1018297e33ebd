/** Longest common subsequences: the recurrence the diff table is filled with, and the
    meaning it is proved to have. */
module CommonSubsequence {

  /** Length of a longest common subsequence, by the recurrence on the first elements. */
  ghost function Lcs<T>(a: seq<T>, b: seq<T>): nat
    decreases |a| + |b|
  {
    if a == [] || b == [] then 0
    else if a[0] == b[0] then 1 + Lcs(a[1..], b[1..])
    else Max(Lcs(a[1..], b), Lcs(a, b[1..]))
  }

  function Max(x: int, y: int): int {
    if x >= y then x else y
  }

  /** c can be obtained from a by dropping elements. */
  ghost predicate IsSubsequence<T>(c: seq<T>, a: seq<T>)
  {
    if c == [] then true
    else if a == [] then false
    else (c[0] == a[0] && IsSubsequence(c[1..], a[1..])) || IsSubsequence(c, a[1..])
  }

  lemma {:induction false} DropFirst<T>(c: seq<T>, a: seq<T>)
    requires c != [] && IsSubsequence(c, a)
    ensures IsSubsequence(c[1..], a)
  {
    if |c| > 1 {
      if IsSubsequence(c, a[1..]) {
        DropFirst(c, a[1..]);
      }
    }
  }

  /** No common subsequence is longer than Lcs. */
  lemma {:induction false} LcsIsUpperBound<T>(c: seq<T>, a: seq<T>, b: seq<T>)
    requires IsSubsequence(c, a) && IsSubsequence(c, b)
    ensures |c| <= Lcs(a, b)
    decreases |a| + |b|
  {
    if c != [] {
      if a[0] == b[0] {
        LcsTailBound(c, a, b);
        LcsIsUpperBound(c[1..], a[1..], b[1..]);
      } else if IsSubsequence(c, a[1..]) {
        LcsIsUpperBound(c, a[1..], b);
      } else {
        assert c[0] == a[0];
        LcsIsUpperBound(c, a, b[1..]);
      }
    }
  }

  /** Without its first element, a common subsequence fits in the two tails. */
  lemma {:induction false} LcsTailBound<T>(c: seq<T>, a: seq<T>, b: seq<T>)
    requires c != [] && IsSubsequence(c, a) && IsSubsequence(c, b)
    ensures IsSubsequence(c[1..], a[1..]) && IsSubsequence(c[1..], b[1..])
  {
    if IsSubsequence(c, a[1..]) { DropFirst(c, a[1..]); }
    if IsSubsequence(c, b[1..]) { DropFirst(c, b[1..]); }
  }

  /** Some common subsequence has exactly length Lcs. */
  lemma {:induction false} LcsIsAttained<T>(a: seq<T>, b: seq<T>) returns (c: seq<T>)
    ensures IsSubsequence(c, a) && IsSubsequence(c, b) && |c| == Lcs(a, b)
    decreases |a| + |b|
  {
    if a == [] || b == [] {
      c := [];
    } else if a[0] == b[0] {
      var t := LcsIsAttained(a[1..], b[1..]);
      c := [a[0]] + t;
      assert c[1..] == t;
    } else if Lcs(a[1..], b) >= Lcs(a, b[1..]) {
      c := LcsIsAttained(a[1..], b);
    } else {
      c := LcsIsAttained(a, b[1..]);
    }
  }

  lemma {:induction false} LcsBounded<T>(a: seq<T>, b: seq<T>)
    ensures Lcs(a, b) <= |a| && Lcs(a, b) <= |b|
    decreases |a| + |b|
  {
    if a != [] && b != [] {
      LcsBounded(a[1..], b[1..]);
      LcsBounded(a[1..], b);
      LcsBounded(a, b[1..]);
    }
  }

  /** A common first part adds its whole length. */
  lemma {:induction false} LcsCommonPrefix<T>(p: seq<T>, a: seq<T>, b: seq<T>)
    ensures Lcs(p + a, p + b) == |p| + Lcs(a, b)
  {
    if p == [] {
      assert p + a == a && p + b == b;
    } else {
      LcsCommonPrefix(p[1..], a, b);
      assert (p + a)[1..] == p[1..] + a && (p + b)[1..] == p[1..] + b;
    }
  }

  lemma {:induction false} LcsCommonLast<T>(a: seq<T>, b: seq<T>, z: T)
    ensures Lcs(a + [z], b + [z]) == Lcs(a, b) + 1
    decreases |a| + |b|
  {
    var x, y := a + [z], b + [z];
    if a != [] { assert x[1..] == a[1..] + [z]; }
    if b != [] { assert y[1..] == b[1..] + [z]; }
    if x[0] == y[0] {
      if a == [] { LcsBounded(x, y); LcsBounded(x[1..], y[1..]); }
      else if b == [] { LcsBounded(x, y); LcsBounded(x[1..], y[1..]); }
      else { LcsCommonLast(a[1..], b[1..], z); }
    } else {
      if a != [] { LcsCommonLast(a[1..], b, z); }
      if b != [] { LcsCommonLast(a, b[1..], z); }
    }
  }

  /** A common last part adds its whole length. */
  lemma {:induction false} LcsCommonSuffix<T>(a: seq<T>, b: seq<T>, s: seq<T>)
    ensures Lcs(a + s, b + s) == Lcs(a, b) + |s|
    decreases |s|
  {
    if s == [] {
      assert a + s == a && b + s == b;
    } else {
      LcsCommonSuffix(a + [s[0]], b + [s[0]], s[1..]);
      assert a + [s[0]] + s[1..] == a + s && b + [s[0]] + s[1..] == b + s;
      LcsCommonLast(a, b, s[0]);
    }
  }

  lemma {:induction false} LcsBetween<T>(p: seq<T>, a: seq<T>, b: seq<T>, s: seq<T>)
    ensures Lcs(p + a + s, p + b + s) == |p| + Lcs(a, b) + |s|
  {
    assert p + a + s == p + (a + s) && p + b + s == p + (b + s);
    LcsCommonPrefix(p, a + s, b + s);
    LcsCommonSuffix(a, b, s);
  }

  ghost predicate SharesElement<T>(a: seq<T>, b: seq<T>) {
    exists i, j :: 0 <= i < |a| && 0 <= j < |b| && a[i] == b[j]
  }

  lemma {:induction false} LcsZeroIffDisjoint<T>(a: seq<T>, b: seq<T>)
    ensures Lcs(a, b) == 0 <==> !SharesElement(a, b)
    decreases |a| + |b|
  {
    if a != [] && b != [] && a[0] != b[0] {
      LcsZeroIffDisjoint(a[1..], b);
      LcsZeroIffDisjoint(a, b[1..]);
      if SharesElement(a, b) {
        var i, j :| 0 <= i < |a| && 0 <= j < |b| && a[i] == b[j];
        if i > 0 { assert a[1..][i - 1] == b[j]; } else { assert a[i] == b[1..][j - 1]; }
      }
      if SharesElement(a[1..], b) {
        var i, j :| 0 <= i < |a[1..]| && 0 <= j < |b| && a[1..][i] == b[j];
        assert a[i + 1] == b[j];
      }
      if SharesElement(a, b[1..]) {
        var i, j :| 0 <= i < |a| && 0 <= j < |b[1..]| && a[i] == b[1..][j];
        assert a[i] == b[j + 1];
      }
    }
  }
}
