/** Small facts about sequences, each proved once and away from everything else. */
module Seqs {
  function Last<T>(s: seq<T>): T
    requires s != []
  {
    s[|s| - 1]
  }

  function Front<T>(s: seq<T>): seq<T>
    requires s != []
  {
    s[..|s| - 1]
  }

  lemma FrontLastSnoc<T>(s: seq<T>, x: T)
    ensures Front(s + [x]) == s && Last(s + [x]) == x
  {
  }

  lemma FrontLast<T>(s: seq<T>)
    requires s != []
    ensures s == Front(s) + [Last(s)]
  {
  }

  lemma FrontLastConcat<T>(s: seq<T>, t: seq<T>)
    requires t != []
    ensures Front(s + t) == s + Front(t) && Last(s + t) == Last(t)
  {
  }

  lemma Assoc<T>(s: seq<T>, t: seq<T>, u: seq<T>)
    ensures s + t + u == s + (t + u)
  {
  }

  lemma TakeAll<T>(s: seq<T>)
    ensures s[..|s|] == s && s[0..] == s && s[0..|s|] == s
  {
  }

  lemma TakeSnoc<T>(s: seq<T>, i: nat)
    requires i < |s|
    ensures s[..i + 1] == s[..i] + [s[i]]
  {
  }

  lemma ExtendTake<T>(base: seq<T>, s: seq<T>, i: nat)
    requires i < |s|
    ensures base + s[..i] + [s[i]] == base + s[..i + 1]
  {
  }

  lemma JoinTake<T>(base: seq<T>, s: seq<T>, i: nat)
    requires i <= |s|
    ensures base + s[..i] + s[i..] == base + s
  {
  }

  lemma SplitAt<T>(s: seq<T>, i: nat)
    requires i <= |s|
    ensures s == s[..i] + s[i..]
  {
  }

  lemma JoinPrefix<T>(s: seq<T>, i: nat, j: nat)
    requires i <= j <= |s|
    ensures s[..i] + s[i..j] == s[..j]
  {
  }

  lemma FrontOfSlice<T>(s: seq<T>, i: nat, j: nat)
    requires i < j <= |s|
    ensures Front(s[i..j]) == s[i..j - 1] && Last(s[i..j]) == s[j - 1]
  {
  }

  lemma FrontOfTake<T>(s: seq<T>, j: nat)
    requires 0 < j <= |s|
    ensures Front(s[..j]) == s[..j - 1] && Last(s[..j]) == s[j - 1]
  {
  }

  lemma TakeLast<T>(s: seq<T>, n: nat)
    requires 0 < n <= |s|
    ensures s[..n] == s[..n - 1] + [s[n - 1]]
  {
  }

  /** Replacing the first element behind done. */
  lemma SetFirst<T>(done: seq<T>, s: seq<T>, n: nat, x: T)
    requires 0 < n <= |s| && |done| == n - 1
    ensures n - 1 < |done + s[n - 1..]| && (done + s[n - 1..])[n - 1] == s[n - 1]
    ensures (done + s[n - 1..])[n - 1 := x] == done + [x] + s[n..]
  {
  }

  /** Replacing the element between done and tail. */
  lemma SetBetween<T>(done: seq<T>, i: nat, x: T, tail: seq<T>, y: T)
    requires |done| == i
    ensures i < |done + [x] + tail| && (done + [x] + tail)[i] == x
    ensures (done + [x] + tail)[i := y] == done + ([y] + tail)
  {
  }

  /** One more element of a slice appended. */
  lemma SliceSnoc<T>(xs: seq<T>, s: seq<T>, lo: nat, hi: nat)
    requires lo < hi <= |s|
    ensures xs + s[lo..hi - 1] + [s[hi - 1]] == xs + s[lo..hi]
    ensures |xs + s[lo..hi - 1]| == |xs| + hi - 1 - lo
  {
  }

  /** The last element of an appended slice cut off. */
  lemma CutLast<T>(xs: seq<T>, s: seq<T>, lo: nat, hi: nat)
    requires lo < hi <= |s| && |xs| == lo
    ensures |xs + s[lo..hi]| == hi
    ensures (xs + s[lo..hi])[hi - 1] == s[hi - 1] && (xs + s[lo..hi])[..hi - 1] == xs + s[lo..hi - 1]
  {
  }

  lemma FrontTake<T>(s: seq<T>, k: nat)
    requires k < |s|
    ensures Front(s)[..k] == s[..k]
  {
  }

  lemma DropMore<T>(s: seq<T>, i: nat, j: nat)
    requires i + j <= |s|
    ensures s[i..][j..] == s[i + j..]
  {
  }

  lemma DropTail<T>(s: seq<T>, i: nat)
    requires i < |s|
    ensures s[i..][0] == s[i] && s[i..][1..] == s[i + 1..]
  {
  }

  lemma SliceOfThree<T>(p: seq<T>, m: seq<T>, s: seq<T>)
    ensures (p + m + s)[|p|..|p| + |m|] == m
  {
  }

  /** The last k elements. */
  function Tail<T>(s: seq<T>, k: nat): seq<T>
    requires k <= |s|
  {
    s[|s| - k..]
  }

  lemma TailOfFront<T>(s: seq<T>, k: nat)
    requires k < |s|
    ensures Tail(s, k + 1) == Tail(Front(s), k) + [Last(s)]
  {
  }

  lemma TailOfDrop<T>(s: seq<T>, pre: nat, k: nat)
    requires pre + k <= |s|
    ensures Tail(s[pre..], k) == Tail(s, k)
  {
  }

  /** The first pre elements, the middle, and the last suf elements. */
  lemma SplitEnds<T>(s: seq<T>, pre: nat, suf: nat)
    requires pre + suf <= |s|
    ensures s == s[..pre] + s[pre..|s| - suf] + Tail(s, suf)
  {
  }

  lemma ConsTail<T>(s: seq<T>)
    requires s != []
    ensures s == [s[0]] + s[1..]
  {
  }

  lemma TailOfCons<T>(x: T, s: seq<T>)
    ensures ([x] + s)[0] == x && ([x] + s)[1..] == s
  {
  }

  lemma TailOfConcat<T>(s: seq<T>, t: seq<T>)
    requires s != []
    ensures (s + t)[0] == s[0] && (s + t)[1..] == s[1..] + t
  {
  }

  lemma SnocOfSnoc<T>(s: seq<T>, t: seq<T>, x: T)
    ensures s + t + [x] == s + (t + [x])
  {
  }

  lemma EmptyUnit<T>(s: seq<T>)
    ensures s + [] == s && [] + s == s
  {
  }

  lemma TakePrefix<T>(s: seq<T>, t: seq<T>)
    requires s <= t
    ensures t[..|s|] == s && t == s + t[|s|..]
  {
  }

  lemma InSnoc<T>(s: seq<T>, x: T, c: T)
    ensures c in s + [x] <==> c in s || c == x
  {
  }
}
