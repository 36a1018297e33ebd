/** The greedy host matcher of the flow list, and when it agrees with the wildcard language. */
module HostGlob {
  import opened Glob
  import opened Options
  import opened Seqs
  import opened Text

  // ---- The matcher -------------------------------------------------------------------

  /** x occurs in s at i. */
  predicate At(s: string, x: string, i: nat) {
    i <= |s| && x <= s[i..]
  }

  /** What follows x there. */
  function Behind(s: string, x: string, i: nat): string
    requires At(s, x, i)
  {
    s[i..][|x|..]
  }

  /** Where x first occurs in s. */
  function Index(s: string, x: string): (r: Option<nat>)
    ensures r.Some? ==> At(s, x, r.value)
  {
    if x <= s then Some(0)
    else if s == "" then None
    else match Index(s[1..], x)
         case None => None
         case Some(i) => Some(i + 1)
  }

  predicate HasSuffix(s: string, x: string) {
    |x| <= |s| && s[|s| - |x|..] == x
  }

  /** The remaining segments, each found at its first occurrence behind the one before. */
  predicate Scan(segs: seq<string>, s: string)
    decreases |segs|
  {
    segs == []
    || match Index(s, segs[0])
       case None => false
       case Some(i) =>
         !(|segs| == 1 && segs[0] != "" && !HasSuffix(s, segs[0])) && Scan(segs[1..], Behind(s, segs[0], i))
  }

  predicate HasWildcard(p: string) {
    '*' in p || '?' in p
  }

  /** What matchHostGlob computes. */
  predicate HostMatches(p: string, h: string) {
    if !HasWildcard(p) then Lower(p) == Lower(h)
    else
      var pp, s := Split(Lower(p), '*'), Lower(h);
      pp[0] <= s && Scan(pp[1..], s[|pp[0]|..])
  }

  method MatchHost(p: string, h: string) returns (ok: bool)
    ensures ok <==> HostMatches(p, h)
  {
    if !('*' in p || '?' in p) { return Lower(p) == Lower(h); }
    var pp := Split(Lower(p), '*');
    var s := Lower(h);
    if !(pp[0] <= s) { return false; }
    s := s[|pp[0]|..];
    for i := 1 to |pp|
      invariant HostMatches(p, h) <==> Scan(pp[i..], s)
    {
      ScanStep(pp, i, s);
      var idx := Index(s, pp[i]);
      if idx.None? { return false; }
      if i == |pp| - 1 && pp[i] != "" && !HasSuffix(s, pp[i]) { return false; }
      DropMore(s, idx.value, |pp[i]|);
      s := s[idx.value + |pp[i]|..];
    }
    return true;
  }

  lemma {:induction false} ScanStep(pp: seq<string>, i: nat, s: string)
    requires i < |pp|
    ensures Scan(pp[i..], s)
       <==> match Index(s, pp[i])
            case None => false
            case Some(k) =>
              !(i == |pp| - 1 && pp[i] != "" && !HasSuffix(s, pp[i])) && Scan(pp[i + 1..], Behind(s, pp[i], k))
  {
    DropTail(pp, i);
  }

  // ---- Segments ----------------------------------------------------------------------

  /** Segments with any text in front of each, and nothing behind the last. */
  ghost predicate Rest(segs: seq<string>, s: string)
    decreases |segs|
  {
    if segs == [] then s == ""
    else exists i :: At(s, segs[0], i) && Rest(segs[1..], Behind(s, segs[0], i))
  }

  predicate Literal(x: string) {
    '*' !in x && '?' !in x
  }

  lemma {:induction false} LiteralPrefix(x: string, q: string, s: string)
    requires Literal(x)
    ensures Means(x + q, s) <==> x <= s && Means(q, s[|x|..])
  {
    if x == "" {
      EmptyUnit(q);
    } else {
      TailOfConcat(x, q);
      MeansOne(x + q, s);
      if s != "" && x[0] == s[0] {
        LiteralPrefix(x[1..], q, s[1..]);
        ConsTail(x);
        ConsTail(s);
        PrefixStep(x, s);
      }
    }
  }

  lemma {:induction false} PrefixStep(x: string, s: string)
    requires x != "" && s != "" && x[0] == s[0]
    ensures x <= s <==> x[1..] <= s[1..]
    ensures x <= s ==> s[|x|..] == s[1..][|x[1..]|..]
  {
    if x[1..] <= s[1..] {
      forall k | 0 <= k < |x| ensures x[k] == s[k] {
        if k > 0 { assert x[k] == x[1..][k - 1] && s[k] == s[1..][k - 1]; }
      }
    }
  }

  lemma {:induction false} StarThen(q: string, s: string)
    ensures Means("*" + q, s) <==> exists i :: 0 <= i <= |s| && Means(q, s[i..])
  {
    TailOfCons('*', q);
    MeansStar("*" + q, s);
  }

  /** A pattern whose only wildcards are stars, by its segments. */
  lemma {:induction false} JoinMeans(segs: seq<string>, s: string)
    requires segs != [] && forall k :: 0 <= k < |segs| ==> Literal(segs[k])
    ensures Means(Join(segs, "*"), s) <==> segs[0] <= s && Rest(segs[1..], s[|segs[0]|..])
    decreases |segs|, 1
  {
    var x, rest := segs[0], segs[1..];
    if |segs| == 1 {
      EmptyUnit(x);
      LiteralPrefix(x, "", s);
      if x <= s { MeansEmpty(s[|x|..]); }
    } else {
      var q := Join(rest, "*");
      Assoc(x, "*", q);
      LiteralPrefix(x, "*" + q, s);
      if x <= s {
        StarMeansRest(rest, s[|x|..]);
      }
    }
  }

  lemma {:induction false} StarMeansRest(segs: seq<string>, s: string)
    requires segs != [] && forall k :: 0 <= k < |segs| ==> Literal(segs[k])
    ensures Means("*" + Join(segs, "*"), s) <==> Rest(segs, s)
    decreases |segs|, 2
  {
    var q := Join(segs, "*");
    StarThen(q, s);
    forall i | 0 <= i <= |s|
      ensures Means(q, s[i..]) <==> At(s, segs[0], i) && Rest(segs[1..], Behind(s, segs[0], i))
    {
      JoinMeans(segs, s[i..]);
    }
  }

  // ---- Greed is good enough ----------------------------------------------------------

  lemma {:induction false} IndexIsFirst(s: string, x: string, i: nat)
    requires At(s, x, i)
    ensures Index(s, x).Some? && Index(s, x).value <= i
  {
    if i > 0 && !(x <= s) {
      DropMore(s, 1, i - 1);
      IndexIsFirst(s[1..], x, i - 1);
    }
  }

  lemma {:induction false} AtShift(s: string, k: nat, x: string, i: nat)
    requires k <= |s| && At(s[k..], x, i)
    ensures At(s, x, k + i) && Behind(s, x, k + i) == Behind(s[k..], x, i)
  {
    DropMore(s, k, i);
  }

  lemma {:induction false} BehindLater(s: string, x: string, i: nat, j: nat)
    requires i <= j && At(s, x, i) && At(s, x, j)
    ensures j - i <= |Behind(s, x, i)| && Behind(s, x, i)[j - i..] == Behind(s, x, j)
  {
    assert |s[j..]| >= |x|;
    DropMore(s, i, |x|);
    DropMore(s, i + |x|, j - i);
    DropMore(s, j, |x|);
  }

  /** More text in front does no harm. */
  lemma {:induction false} RestInFront(segs: seq<string>, s: string, k: nat)
    requires segs != [] && k <= |s| && Rest(segs, s[k..])
    ensures Rest(segs, s)
  {
    var i :| At(s[k..], segs[0], i) && Rest(segs[1..], Behind(s[k..], segs[0], i));
    AtShift(s, k, segs[0], i);
  }

  lemma {:induction false} SuffixAt(x: string, s: string)
    ensures HasSuffix(s, x) ==> At(s, x, |s| - |x|) && Behind(s, x, |s| - |x|) == ""
  {
  }

  lemma {:induction false} AtEndIsSuffix(x: string, s: string, i: nat)
    requires At(s, x, i) && Behind(s, x, i) == ""
    ensures HasSuffix(s, x)
  {
    assert s[i..] == x + Behind(s, x, i);
  }

  lemma {:induction false} LastSegment(x: string, s: string)
    ensures Rest([x], s) <==> HasSuffix(s, x)
  {
    assert [x][1..] == [];
    if i :| At(s, x, i) && Rest([x][1..], Behind(s, x, i)) {
      AtEndIsSuffix(x, s, i);
    }
    if HasSuffix(s, x) {
      SuffixAt(x, s);
      assert At(s, [x][0], |s| - |x|) && Rest([x][1..], Behind(s, x, |s| - |x|));
    }
  }

  lemma {:induction false} ScanLast(x: string, s: string)
    ensures Scan([x], s) <==> HasSuffix(s, x)
  {
    assert [x][1..] == [];
    if HasSuffix(s, x) {
      SuffixAt(x, s);
      IndexIsFirst(s, x, |s| - |x|);
    } else if x == "" {
      assert false;
    }
  }

  /** Taking each segment at its first occurrence finds a match whenever there is one. */
  lemma {:induction false} ScanIsRest(segs: seq<string>, s: string)
    requires segs != []
    ensures Scan(segs, s) <==> Rest(segs, s)
    decreases |segs|
  {
    var x := segs[0];
    if |segs| == 1 {
      assert segs == [x];
      ScanLast(x, s);
      LastSegment(x, s);
    } else {
      var i := Index(s, x);
      if i.Some? {
        ScanIsRest(segs[1..], Behind(s, x, i.value));
      }
      if Rest(segs, s) {
        FirstWillDo(segs, s);
      }
    }
  }

  lemma {:induction false} FirstWillDo(segs: seq<string>, s: string)
    requires |segs| > 1 && Rest(segs, s)
    ensures Index(s, segs[0]).Some? && Rest(segs[1..], Behind(s, segs[0], Index(s, segs[0]).value))
  {
    var x := segs[0];
    var j :| At(s, x, j) && Rest(segs[1..], Behind(s, x, j));
    IndexIsFirst(s, x, j);
    var i := Index(s, x).value;
    BehindLater(s, x, i, j);
    RestInFront(segs[1..], Behind(s, x, i), j - i);
  }

  // ---- Agreement ---------------------------------------------------------------------

  lemma {:induction false} LowerCharKeeps(x: char, c: char)
    requires !('A' <= c <= 'Z') && !('a' <= c <= 'z')
    ensures c == LowerChar(x) <==> c == x
  {
  }

  lemma {:induction false} LowerKeeps(p: string, c: char)
    requires !('A' <= c <= 'Z') && !('a' <= c <= 'z')
    ensures c in Lower(p) <==> c in p
  {
    if p != "" {
      LowerKeeps(Front(p), c);
      FrontLast(p);
      InSnoc(Front(p), Last(p), c);
      InSnoc(Lower(Front(p)), LowerChar(Last(p)), c);
      LowerCharKeeps(Last(p), c);
      assert c in p <==> c in Front(p) || c == Last(p);
    }
  }

  predicate InSome(pieces: seq<string>, c: char) {
    exists k :: 0 <= k < |pieces| && c in pieces[k]
  }

  /** Splitting loses nothing but separators. */
  lemma {:induction false} SplitPieces(p: string, c: char)
    requires c != '*'
    ensures c in p <==> InSome(Split(p, '*'), c)
  {
    if p != "" {
      SplitPieces(p[1..], c);
      assert c in p <==> c == p[0] || c in p[1..] by { ConsTail(p); }
      var rest := Split(p[1..], '*');
      if p[0] == '*' {
        PieceShift(rest, c);
      } else {
        PieceHead(p[0], rest, c);
      }
    }
  }

  lemma {:induction false} PieceShift(rest: seq<string>, c: char)
    ensures InSome([""] + rest, c) <==> InSome(rest, c)
  {
    if k :| 0 <= k < |rest| && c in rest[k] {
      assert ([""] + rest)[k + 1] == rest[k];
    }
  }

  lemma {:induction false} PieceHead(a: char, rest: seq<string>, c: char)
    requires rest != []
    ensures InSome([[a] + rest[0]] + rest[1..], c) <==> c == a || InSome(rest, c)
  {
    var r := [[a] + rest[0]] + rest[1..];
    assert c in r[0] <==> c == a || c in rest[0];
    assert forall k :: 0 < k < |rest| ==> r[k] == rest[k];
  }

  lemma {:induction false} SegmentsAreLiteral(p: string)
    requires '?' !in p
    ensures forall k :: 0 <= k < |Split(p, '*')| ==> Literal(Split(p, '*')[k])
  {
    SplitPieces(p, '?');
  }

  /** The text itself, for a pattern without wildcards. */
  lemma {:induction false} LiteralMeans(x: string, s: string)
    requires Literal(x)
    ensures Means(x, s) <==> x == s
  {
    EmptyUnit(x);
    LiteralPrefix(x, "", s);
    if x <= s {
      MeansEmpty(s[|x|..]);
      TakePrefix(x, s);
    }
  }

  lemma {:induction false} SplitHasTwo(p: string)
    requires '*' in p
    ensures |Split(p, '*')| > 1
  {
    if p[0] != '*' {
      ConsTail(p);
      SplitHasTwo(p[1..]);
    }
  }

  /** What a pattern means to the greedy matcher, whatever it contains: with a star, its
      segments in order, the first at the beginning and the last at the end; with only question
      marks, its own text as a beginning; otherwise the text itself. */
  lemma {:induction false} HostMeans(p: string, h: string)
    ensures '*' in p ==>
              var segs, s := Split(Lower(p), '*'), Lower(h);
              HostMatches(p, h) == (segs[0] <= s && Rest(segs[1..], s[|segs[0]|..]))
    ensures '*' !in p && '?' in p ==> HostMatches(p, h) == (Lower(p) <= Lower(h))
    ensures '*' !in p && '?' !in p ==> HostMatches(p, h) == (Lower(p) == Lower(h))
  {
    var q, s := Lower(p), Lower(h);
    LowerKeeps(p, '*');
    if '*' in p {
      SplitHasTwo(q);
      if Split(q, '*')[0] <= s {
        ScanIsRest(Split(q, '*')[1..], s[|Split(q, '*')[0]|..]);
      }
    } else {
      SplitNoSep(q, '*');
    }
  }

  /** On patterns without '?', the greedy matcher is the wildcard language. */
  lemma {:induction false} GreedyAgrees(p: string, h: string)
    requires '?' !in p
    ensures HostMatches(p, h) <==> Means(Lower(p), Lower(h))
  {
    var q, s := Lower(p), Lower(h);
    LowerKeeps(p, '?');
    LowerKeeps(p, '*');
    if '*' !in p {
      LiteralMeans(q, s);
    } else {
      var pp := Split(q, '*');
      JoinOfSplit(q, '*');
      SegmentsAreLiteral(q);
      JoinMeans(pp, s);
      SplitHasTwo(q);
      if pp[0] <= s {
        ScanIsRest(pp[1..], s[|pp[0]|..]);
      }
    }
  }

  lemma {:induction false} PartOccurs(x: string, s: string, i: nat, c: char)
    requires At(s, x, i) && c !in s
    ensures c !in x && c !in Behind(s, x, i)
  {
    assert forall d :: d in s[i..] ==> d in s;
  }

  /** Segments that are found occur in the text. */
  lemma {:induction false} ScannedOccur(segs: seq<string>, s: string, c: char)
    requires Scan(segs, s) && c !in s
    ensures forall k :: 0 <= k < |segs| ==> c !in segs[k]
    decreases |segs|
  {
    if segs != [] {
      var i := Index(s, segs[0]).value;
      PartOccurs(segs[0], s, i, c);
      ScannedOccur(segs[1..], Behind(s, segs[0], i), c);
      assert forall k :: 0 < k < |segs| ==> segs[k] == segs[1..][k - 1];
    }
  }

  /** A host without a question mark is never matched by a pattern that has one. */
  lemma {:induction false} QuestionMarkMatchesItself(p: string, h: string)
    requires HostMatches(p, h) && HasWildcard(p) && '?' !in h
    ensures '?' !in p
  {
    var q, s := Lower(p), Lower(h);
    LowerKeeps(p, '?');
    LowerKeeps(h, '?');
    var pp := Split(q, '*');
    PartOccurs(pp[0], s, 0, '?');
    ScannedOccur(pp[1..], s[|pp[0]|..], '?');
    assert forall k :: 0 < k < |pp| ==> pp[k] == pp[1..][k - 1];
    SplitPieces(q, '?');
  }

  /** A host that a pattern means: stars for nothing, 'a' for '?'. */
  function Example(p: string): string {
    if p == "" then ""
    else (if p[0] == '*' then "" else if p[0] == '?' then "a" else [p[0]]) + Example(p[1..])
  }

  lemma {:induction false} ExampleMeans(p: string)
    ensures Means(p, Example(p))
  {
    var s := Example(p);
    if p == "" {
      MeansEmpty(s);
    } else {
      ExampleMeans(p[1..]);
      if p[0] == '*' {
        EmptyUnit(Example(p[1..]));
        MeansStar(p, s);
        TakeAll(s);
      } else {
        TailOfCons(if p[0] == '?' then 'a' else p[0], Example(p[1..]));
        MeansOne(p, s);
      }
    }
  }

  predicate Folded(s: string) {
    forall i :: 0 <= i < |s| ==> !('A' <= s[i] <= 'Z')
  }

  lemma {:induction false} LowerFolds(p: string)
    ensures Folded(Lower(p)) && (Folded(p) ==> Lower(p) == p)
  {
    if p != "" {
      LowerFolds(Front(p));
      FrontLast(p);
    }
  }

  lemma {:induction false} ExampleFolded(p: string)
    requires Folded(p)
    ensures Folded(Example(p)) && '?' !in Example(p)
  {
    if p != "" {
      ExampleFolded(p[1..]);
    }
  }

  /** The two matchers agree on every host if and only if the pattern has no '?'. */
  lemma {:induction false} AgreeIffNoQuestionMark(p: string)
    ensures (forall h :: HostMatches(p, h) <==> Means(Lower(p), Lower(h))) <==> '?' !in p
  {
    if '?' in p {
      var h := Example(Lower(p));
      ExampleMeans(Lower(p));
      LowerFolds(p);
      ExampleFolded(Lower(p));
      LowerFolds(h);
      if HostMatches(p, h) {
        QuestionMarkMatchesItself(p, h);
      }
      assert !HostMatches(p, h) && Means(Lower(p), Lower(h));
    } else {
      forall h ensures HostMatches(p, h) <==> Means(Lower(p), Lower(h)) {
        GreedyAgrees(p, h);
      }
    }
  }
}
