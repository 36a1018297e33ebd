/** The wildcard language of hosts and paths: '*' stands for any text, '?' for one character. */
module Glob {
  import opened Seqs

  /** Case folding of ASCII letters. */
  function Lower(s: string): (r: string)
    ensures |r| == |s|
  {
    if s == "" then "" else Lower(Front(s)) + [LowerChar(Last(s))]
  }

  function LowerChar(c: char): char {
    if 'A' <= c <= 'Z' then (c as int + 32) as char else c
  }

  lemma {:induction false} LowerAt(s: string, k: nat)
    requires k < |s|
    ensures Lower(s)[k]
         == if 'A' <= s[k] <= 'Z' then "abcdefghijklmnopqrstuvwxyz"[s[k] as int - 'A' as int] else s[k]
  {
    if k < |s| - 1 {
      LowerAt(Front(s), k);
    }
  }

  // ---- Meaning -----------------------------------------------------------------------

  /** w may stand for the pattern character c. */
  predicate StandsFor(w: string, c: char) {
    if c == '*' then true else if c == '?' then |w| == 1 else w == [c]
  }

  function Flat(ws: seq<string>): string {
    if ws == [] then "" else ws[0] + Flat(ws[1..])
  }

  /** s is p with every character replaced by a text it may stand for. */
  ghost predicate Expands(p: string, ws: seq<string>, s: string) {
    |ws| == |p| && (forall i :: 0 <= i < |p| ==> StandsFor(ws[i], p[i])) && Flat(ws) == s
  }

  ghost predicate Means(p: string, s: string) {
    exists ws :: Expands(p, ws, s)
  }

  /** The first character of a pattern takes a first part of the text. */
  lemma {:induction false} ExpandsStep(p: string, s: string)
    requires p != ""
    ensures Means(p, s) <==> exists i :: 0 <= i <= |s| && StandsFor(s[..i], p[0]) && Means(p[1..], s[i..])
  {
    if ws :| Expands(p, ws, s) {
      var i := |ws[0]|;
      assert s[..i] == ws[0] && s[i..] == Flat(ws[1..]);
      assert Expands(p[1..], ws[1..], s[i..]);
    }
    if i :| 0 <= i <= |s| && StandsFor(s[..i], p[0]) && Means(p[1..], s[i..]) {
      var ws :| Expands(p[1..], ws, s[i..]);
      TailOfCons(s[..i], ws);
      SplitAt(s, i);
      assert Expands(p, [s[..i]] + ws, s);
    }
  }

  lemma {:induction false} MeansEmpty(s: string)
    ensures Means("", s) <==> s == ""
  {
    if s == "" { assert Expands("", [], ""); }
  }

  /** A letter or '?' takes exactly one character. */
  lemma {:induction false} MeansOne(p: string, s: string)
    requires p != "" && p[0] != '*'
    ensures Means(p, s) <==> s != "" && (p[0] == '?' || p[0] == s[0]) && Means(p[1..], s[1..])
  {
    ExpandsStep(p, s);
    if s != "" {
      assert s[..1] == [s[0]];
      assert StandsFor(s[..1], p[0]) <==> p[0] == '?' || p[0] == s[0];
    }
  }

  /** A star takes any first part. */
  lemma {:induction false} MeansStar(p: string, s: string)
    requires p != "" && p[0] == '*'
    ensures Means(p, s) <==> exists i :: 0 <= i <= |s| && Means(p[1..], s[i..])
  {
    ExpandsStep(p, s);
    if i :| 0 <= i <= |s| && Means(p[1..], s[i..]) {
      assert StandsFor(s[..i], p[0]);
    }
  }

  lemma {:induction false} LoneStar(s: string)
    ensures Means("*", s)
  {
    MeansStar("*", s);
    MeansEmpty("");
    assert s[|s|..] == "" && "*"[1..] == "";
    assert Means("*"[1..], s[|s|..]);
  }

  lemma {:induction false} TwoStars(p: string, s: string)
    requires |p| >= 2 && p[0] == '*' && p[1] == '*'
    ensures Means(p, s) <==> Means(p[1..], s)
  {
    MeansStar(p, s);
    MeansStar(p[1..], s);
    if i :| 0 <= i <= |s| && Means(p[1..], s[i..]) {
      MeansStar(p[1..], s[i..]);
      var j :| 0 <= j <= |s[i..]| && Means(p[1..][1..], s[i..][j..]);
      DropMore(s, i, j);
    }
    if Means(p[1..], s) {
      TakeAll(s);
    }
  }

  // ---- The matcher -------------------------------------------------------------------

  /** Whether s matches pattern, ignoring case. */
  method Match(pattern: string, s: string) returns (r: bool)
    ensures r <==> Means(Lower(pattern), Lower(s))
  {
    r := MatchFolded(Lower(pattern), Lower(s));
  }

  /** The backtracking matcher: at a star, every rest of the text is tried. */
  method MatchFolded(pattern: string, text: string) returns (r: bool)
    ensures r <==> Means(pattern, text)
    decreases |pattern|
  {
    var p, s := pattern, text;
    while p != ""
      invariant |p| <= |pattern|
      invariant Means(pattern, text) <==> Means(p, s)
      decreases |p|
    {
      if p[0] == '*' {
        r := MatchStar(p, s, |pattern|);
        return;
      }
      MeansOne(p, s);
      if s == "" || (p[0] != '?' && p[0] != s[0]) { return false; }
      p, s := p[1..], s[1..];
    }
    MeansEmpty(s);
    return s == "";
  }

  method MatchStar(pattern: string, s: string, ghost size: nat) returns (r: bool)
    requires pattern != "" && pattern[0] == '*' && |pattern| <= size
    ensures r <==> Means(pattern, s)
    decreases size, 0
  {
    var p := pattern;
    while |p| > 1 && p[1] == '*'
      invariant 0 < |p| <= |pattern| && p[0] == '*'
      invariant Means(pattern, s) <==> Means(p, s)
    {
      TwoStars(p, s);
      p := p[1..];
    }
    ghost var star := p;
    p := p[1..];
    if p == "" {
      assert star == "*";
      LoneStar(s);
      return true;
    }
    MeansStar(star, s);
    for i := 0 to |s| + 1
      invariant forall k :: 0 <= k < i ==> !Means(p, s[k..])
    {
      var found := MatchFolded(p, s[i..]);
      if found { return true; }
    }
    return false;
  }

  method MatchAny(patterns: seq<string>, s: string) returns (r: bool)
    ensures r <==> exists k :: 0 <= k < |patterns| && Means(Lower(patterns[k]), Lower(s))
  {
    for i := 0 to |patterns|
      invariant forall k :: 0 <= k < i ==> !Means(Lower(patterns[k]), Lower(s))
    {
      var found := Match(patterns[i], s);
      if found { return true; }
    }
    return false;
  }
}
