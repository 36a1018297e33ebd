/** Splitting text at a separator and joining it back; trimming. */
module Text {
  import opened Seqs

  /** The pieces of s between occurrences of sep; one piece more than occurrences. */
  function Split(s: string, sep: char): (r: seq<string>)
    ensures r != []
    ensures forall k :: 0 <= k < |r| ==> sep !in r[k]
  {
    if s == "" then [""]
    else
      var rest := Split(s[1..], sep);
      if s[0] == sep then [""] + rest else [[s[0]] + rest[0]] + rest[1..]
  }

  function Join(parts: seq<string>, sep: string): string {
    if parts == [] then ""
    else if |parts| == 1 then parts[0]
    else parts[0] + sep + Join(parts[1..], sep)
  }

  lemma {:induction false} JoinOfSplit(s: string, sep: char)
    ensures Join(Split(s, sep), [sep]) == s
  {
    if s != "" {
      JoinOfSplit(s[1..], sep);
      var rest := Split(s[1..], sep);
      if s[0] == sep {
        assert ([""] + rest)[1..] == rest;
      } else {
        var r := [[s[0]] + rest[0]] + rest[1..];
        assert r[1..] == rest[1..];
      }
    }
  }

  lemma {:induction false} SplitNoSep(s: string, sep: char)
    requires sep !in s
    ensures Split(s, sep) == [s]
  {
    if s != "" {
      SplitNoSep(s[1..], sep);
      assert [s[0]] + s[1..] == s;
    }
  }

  lemma {:induction false} SplitAfterFirst(p: string, sep: char, rest: string)
    requires sep !in p
    ensures Split(p + [sep] + rest, sep) == [p] + Split(rest, sep)
  {
    if p == "" {
      assert p + [sep] + rest == [sep] + rest;
    } else {
      assert (p + [sep] + rest)[1..] == p[1..] + [sep] + rest;
      SplitAfterFirst(p[1..], sep, rest);
      assert [p[0]] + p[1..] == p;
    }
  }

  predicate Blank(c: char) {
    c == ' ' || '\t' <= c <= '\r'
  }

  /** White space dropped at both ends. */
  function TrimSpace(s: string): string {
    if s == "" then ""
    else if Blank(s[0]) then TrimSpace(s[1..])
    else if Blank(Last(s)) then TrimSpace(Front(s))
    else s
  }

  /** Spaces, tabs, line feeds, vertical tabs, form feeds and carriage returns. */
  predicate AllBlank(s: string) {
    forall k :: 0 <= k < |s| ==> s[k] as int == 32 || 9 <= s[k] as int <= 13
  }

  lemma {:induction false} OneBlank(c: char)
    ensures AllBlank([c]) <==> Blank(c)
  {
    assert [c][0] == c;
  }

  lemma {:induction false} BothBlank(s: string, t: string)
    requires AllBlank(s) && AllBlank(t)
    ensures AllBlank(s + t)
  {
  }

  lemma {:induction false} MoreInFront<T>(x: T, s: seq<T>, t: seq<T>, u: seq<T>)
    ensures [x] + (s + t + u) == ([x] + s) + t + u
  {
  }

  /** Blanks are dropped before and behind, and only those. */
  lemma {:induction false} TrimSpaceIs(s: string) returns (pre: string, post: string)
    ensures s == pre + TrimSpace(s) + post && AllBlank(pre) && AllBlank(post)
    ensures TrimSpace(s) != "" ==> !AllBlank([TrimSpace(s)[0]]) && !AllBlank([Last(TrimSpace(s))])
  {
    pre, post := "", "";
    EmptyUnit(s);
    if s != "" {
      OneBlank(s[0]);
      OneBlank(Last(s));
      if Blank(s[0]) {
        var inner;
        inner, post := TrimSpaceIs(s[1..]);
        ConsTail(s);
        BothBlank([s[0]], inner);
        MoreInFront(s[0], inner, TrimSpace(s), post);
        pre := [s[0]] + inner;
      } else if Blank(Last(s)) {
        var inner;
        pre, inner := TrimSpaceIs(Front(s));
        FrontLast(s);
        BothBlank(inner, [Last(s)]);
        SnocOfSnoc(pre + TrimSpace(s), inner, Last(s));
        post := inner + [Last(s)];
      }
    }
  }
}
