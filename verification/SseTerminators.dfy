/** Event streams whose lines are ended differently, and exactly when they are read back. */
module SseTerminators {
  import opened Seqs
  import opened Sse
  import opened SsePrinting
  import opened Text

  /** A line and what ends it. */
  datatype Ended = Ended(line: string, eol: string)

  ghost predicate EndedOk(ls: seq<Ended>) {
    forall i :: 0 <= i < |ls| ==> OneLine(ls[i].line) && Terminator(ls[i].eol)
  }

  function LinesOf(ls: seq<Ended>): seq<string> {
    if ls == [] then [] else LinesOf(Front(ls)) + [Last(ls).line]
  }

  /** The text of the lines from i on. */
  function TextFrom(ls: seq<Ended>, i: nat): string
    requires i <= |ls|
    decreases |ls| - i
  {
    if i == |ls| then "" else ls[i].line + (ls[i].eol + TextFrom(ls, i + 1))
  }

  /** A blank line ended by LF, right behind a line ended by CR. */
  predicate Lost(ls: seq<Ended>, i: nat)
    requires i < |ls|
  {
    0 < i && ls[i - 1].eol == "\r" && ls[i] == Ended("", "\n")
  }

  predicate Merges(ls: seq<Ended>) {
    exists i :: 0 <= i < |ls| && Lost(ls, i)
  }

  // ---- Lines -------------------------------------------------------------------------

  /** The lines from i on that are not lost. */
  function KeptFrom(ls: seq<Ended>, i: nat): seq<string>
    requires i <= |ls|
    decreases |ls| - i
  {
    if i == |ls| then [] else (if Lost(ls, i) then [] else [ls[i].line]) + KeptFrom(ls, i + 1)
  }

  lemma {:induction false} MergedStep(ls: seq<Ended>, i: nat)
    requires EndedOk(ls) && i + 1 < |ls| && Lost(ls, i + 1)
    ensures TextFrom(ls, i) == ls[i].line + ("\r\n" + TextFrom(ls, i + 2))
    ensures Lines(TextFrom(ls, i)) == [ls[i].line] + Lines(TextFrom(ls, i + 2))
  {
    var x, rest := ls[i].line, TextFrom(ls, i + 2);
    assert TextFrom(ls, i + 1) == "\n" + rest by { EmptyUnit("\n" + rest); }
    assert "\r" + ("\n" + rest) == "\r\n" + rest;
    FirstLine(x, "\r\n", rest);
  }

  lemma {:induction false} StartOf(ls: seq<Ended>, i: nat)
    requires EndedOk(ls) && i < |ls| && (ls[i].line != "" || ls[i].eol != "\n")
    ensures TextFrom(ls, i) != "" && TextFrom(ls, i)[0] != '\n'
  {
    if ls[i].line == "" {
      EmptyUnit(ls[i].eol + TextFrom(ls, i + 1));
    } else {
      assert ls[i].line[0] in ls[i].line;
    }
  }

  lemma {:induction false} PlainStep(ls: seq<Ended>, i: nat)
    requires EndedOk(ls) && i < |ls| && (i + 1 < |ls| ==> !Lost(ls, i + 1))
    ensures Lines(TextFrom(ls, i)) == [ls[i].line] + Lines(TextFrom(ls, i + 1))
  {
    if i + 1 < |ls| && ls[i].eol == "\r" {
      StartOf(ls, i + 1);
    }
    FirstLine(ls[i].line, ls[i].eol, TextFrom(ls, i + 1));
  }

  lemma {:induction false} KeptStep(ls: seq<Ended>, i: nat)
    requires i < |ls|
    ensures KeptFrom(ls, i) == if Lost(ls, i) then KeptFrom(ls, i + 1) else [ls[i].line] + KeptFrom(ls, i + 1)
  {
    EmptyUnit(KeptFrom(ls, i + 1));
  }

  lemma {:induction false} KeptPlain(ls: seq<Ended>, i: nat, j: nat)
    requires EndedOk(ls) && j == i + 1 <= |ls| && !Lost(ls, i) && (j < |ls| ==> !Lost(ls, j))
    requires Lines(TextFrom(ls, j)) == KeptFrom(ls, j)
    ensures Lines(TextFrom(ls, i)) == KeptFrom(ls, i)
  {
    KeptStep(ls, i);
    PlainStep(ls, i);
  }

  lemma {:induction false} KeptMerged(ls: seq<Ended>, i: nat, j: nat)
    requires EndedOk(ls) && j == i + 2 <= |ls| && !Lost(ls, i) && Lost(ls, i + 1)
    requires Lines(TextFrom(ls, j)) == KeptFrom(ls, j)
    ensures Lines(TextFrom(ls, i)) == KeptFrom(ls, i)
  {
    KeptStep(ls, i);
    KeptStep(ls, i + 1);
    MergedStep(ls, i);
  }

  lemma {:induction false} NothingKept(ls: seq<Ended>)
    ensures Lines(TextFrom(ls, |ls|)) == KeptFrom(ls, |ls|)
  {
  }

  /** Exactly the lines that are not lost are read. */
  lemma {:induction false} KeptAreRead(ls: seq<Ended>, i: nat)
    requires EndedOk(ls) && i <= |ls| && (i < |ls| ==> !Lost(ls, i))
    ensures Lines(TextFrom(ls, i)) == KeptFrom(ls, i)
    decreases |ls| - i
  {
    if i == |ls| {
      NothingKept(ls);
    } else if i + 1 < |ls| && Lost(ls, i + 1) {
      var j := i + 2;
      KeptAreRead(ls, j);
      KeptMerged(ls, i, j);
    } else {
      var j := i + 1;
      KeptAreRead(ls, j);
      KeptPlain(ls, i, j);
    }
  }

  /** The lines before k that are not lost. */
  function KeptTo(ls: seq<Ended>, k: nat): seq<string>
    requires k <= |ls|
  {
    if k == 0 then [] else KeptTo(ls, k - 1) + if Lost(ls, k - 1) then [] else [ls[k - 1].line]
  }

  lemma {:induction false} KeptSplit(ls: seq<Ended>, k: nat)
    requires k <= |ls|
    ensures KeptTo(ls, k) + KeptFrom(ls, k) == KeptFrom(ls, 0)
  {
    if k == 0 {
      EmptyUnit(KeptFrom(ls, 0));
    } else {
      KeptSplit(ls, k - 1);
      Assoc(KeptTo(ls, k - 1), if Lost(ls, k - 1) then [] else [ls[k - 1].line], KeptFrom(ls, k));
    }
  }

  lemma {:induction false} TextRead(ls: seq<Ended>)
    requires EndedOk(ls)
    ensures Lines(TextFrom(ls, 0)) == KeptTo(ls, |ls|)
  {
    KeptAreRead(ls, 0);
    KeptSplit(ls, |ls|);
    EmptyUnit(KeptTo(ls, |ls|));
  }

  lemma {:induction false} KeptOfPrefix(ls: seq<Ended>, n: nat, k: nat)
    requires k <= n <= |ls|
    ensures KeptTo(ls[..n], k) == KeptTo(ls, k)
  {
    if k > 0 {
      KeptOfPrefix(ls, n, k - 1);
    }
  }

  /** Nothing is lost exactly when no two line ends merge. */
  lemma {:induction false} KeptAllIff(ls: seq<Ended>, k: nat)
    requires k <= |ls|
    ensures |KeptTo(ls, k)| <= k
    ensures |KeptTo(ls, k)| == k <==> forall i :: 0 <= i < k ==> !Lost(ls, i)
    ensures |KeptTo(ls, k)| == k ==> KeptTo(ls, k) == LinesOf(ls[..k])
  {
    if k > 0 {
      KeptAllIff(ls, k - 1);
      FrontOfTake(ls, k);
    }
  }

  lemma {:induction false} LinesLength(ls: seq<Ended>)
    ensures |LinesOf(ls)| == |ls|
  {
    if ls != [] {
      LinesLength(Front(ls));
    }
  }

  /** Lines are read back, whatever ends each of them, if and only if no CR-ended line is
      followed by a blank line ended by LF. */
  lemma {:induction false} LinesReadBackIff(ls: seq<Ended>)
    requires EndedOk(ls)
    ensures Lines(TextFrom(ls, 0)) == LinesOf(ls) <==> !Merges(ls)
  {
    TextRead(ls);
    KeptAllIff(ls, |ls|);
    LinesLength(ls);
    TakeAll(ls);
  }

  // ---- Blocks ------------------------------------------------------------------------

  /** Whether the blank line of each block is lost. */
  function LostEnds(bs: seq<Block>, ls: seq<Ended>): (r: seq<bool>)
    requires BlocksOk(bs) && |ls| == |AllLines(bs)|
    ensures |r| == |bs|
  {
    if bs == [] then []
    else LostEnds(Front(bs), ls[..|AllLines(Front(bs))|]) + [Lost(ls, |ls| - 1)]
  }

  /** The lines of the blocks without the blank lines that are lost. */
  function Remaining(bs: seq<Block>, lost: seq<bool>): seq<string>
    requires BlocksOk(bs) && |lost| == |bs|
  {
    if bs == [] then []
    else Remaining(Front(bs), Front(lost)) + BlockLines(Last(bs)) + if Last(lost) then [] else [""]
  }

  lemma {:induction false} LinesOfTake(ls: seq<Ended>, n: nat)
    requires n <= |ls|
    ensures |LinesOf(ls)| == |ls| && LinesOf(ls[..n]) == LinesOf(ls)[..n]
  {
    LinesLength(ls);
    if n == |ls| {
      TakeAll(ls);
      TakeAll(LinesOf(ls));
    } else {
      LinesOfTake(Front(ls), n);
      FrontTake(ls, n);
      FrontLastSnoc(LinesOf(Front(ls)), Last(ls).line);
      FrontTake(LinesOf(ls), n);
    }
  }

  lemma {:induction false} LineAt(ls: seq<Ended>, k: nat)
    requires k < |ls|
    ensures |LinesOf(ls)| == |ls| && LinesOf(ls)[k] == ls[k].line
  {
    LinesLength(ls);
    if k < |ls| - 1 {
      LineAt(Front(ls), k);
      LinesLength(Front(ls));
    }
  }

  /** No line of a block is blank. */
  lemma {:induction false} LayoutNotBlank(e: Event, layout: seq<Piece>, k: nat)
    requires LayoutOk(e, layout) && k < |LayoutLines(e, layout)|
    ensures LayoutLines(e, layout)[k] != ""
  {
    if k < |LayoutLines(e, Front(layout))| {
      LayoutNotBlank(e, Front(layout), k);
    }
  }

  lemma {:induction false} BlockNotBlank(b: Block, k: nat)
    requires BlockOk(b) && k < |BlockLines(b)|
    ensures BlockLines(b)[k] != ""
  {
    LayoutNotBlank(if b.event.Some? then b.event.value else NOTHING, b.layout, k);
  }

  /** The lines of the last block are all kept. */
  lemma {:induction false} BlockKept(ls: seq<Ended>, before: seq<string>, body: seq<string>, j: nat)
    requires j <= |body| && LinesOf(ls) == before + body + [""] && |LinesOf(ls)| == |ls|
    requires forall k :: 0 <= k < |body| ==> body[k] != ""
    ensures KeptTo(ls, |before| + j) == KeptTo(ls, |before|) + body[..j]
  {
    if j == 0 {
      EmptyUnit(KeptTo(ls, |before|));
    } else {
      BlockKept(ls, before, body, j - 1);
      LineAt(ls, |before| + j - 1);
      assert (before + body + [""])[|before| + j - 1] == body[j - 1];
      ExtendTake(KeptTo(ls, |before|), body, j - 1);
    }
  }

  /** What a block leaves behind those before it. */
  lemma {:induction false} BlockRemains(bs: seq<Block>, lost: seq<bool>, front: seq<Block>, before: seq<bool>,
        end: bool)
    requires bs != [] && BlocksOk(bs) && front == Front(bs) && |before| == |front| && lost == before + [end]
    ensures Remaining(bs, lost) == Remaining(front, before) + BlockLines(Last(bs)) + if end then [] else [""]
  {
    FrontLastSnoc(before, end);
  }

  lemma {:induction false} KeptOfBlock(b: Block, ls: seq<Ended>, before: seq<string>)
    requires BlockOk(b) && LinesOf(ls) == before + BlockLines(b) + [""] && |LinesOf(ls)| == |ls|
    ensures |before| < |ls|
    ensures KeptTo(ls, |ls|)
         == KeptTo(ls, |before|) + BlockLines(b) + if Lost(ls, |ls| - 1) then [] else [""]
  {
    var body := BlockLines(b);
    forall k | 0 <= k < |body| ensures body[k] != "" { BlockNotBlank(b, k); }
    BlockKept(ls, before, body, |body|);
    TakeAll(body);
    LineAt(ls, |ls| - 1);
  }

  lemma {:induction false} KeptIsRemaining(bs: seq<Block>, ls: seq<Ended>)
    requires BlocksOk(bs) && LinesOf(ls) == AllLines(bs) && |ls| == |AllLines(bs)|
    ensures KeptTo(ls, |ls|) == Remaining(bs, LostEnds(bs, ls))
  {
    if bs != [] {
      var before := AllLines(Front(bs));
      var n := |before|;
      LinesOfTake(ls, n);
      assert (before + BlockLines(Last(bs)) + [""])[..n] == before;
      KeptIsRemaining(Front(bs), ls[..n]);
      KeptOfPrefix(ls, n, n);
      KeptOfBlock(Last(bs), ls, before);
      BlockRemains(bs, LostEnds(bs, ls), Front(bs), LostEnds(Front(bs), ls[..n]), Lost(ls, |ls| - 1));
    }
  }

  // ---- Events ------------------------------------------------------------------------

  /** An event is still being collected behind the blocks: since the last event block, every
      blank line was lost. */
  predicate Open(bs: seq<Block>, lost: seq<bool>)
    requires |lost| == |bs|
  {
    bs != [] && Last(lost) && (Last(bs).event.Some? || Open(Front(bs), Front(lost)))
  }

  /** Two event blocks with every blank line between them lost. */
  predicate Joins(bs: seq<Block>, lost: seq<bool>)
    requires |lost| == |bs|
  {
    bs != [] && (Joins(Front(bs), Front(lost)) || (Last(bs).event.Some? && Open(Front(bs), Front(lost))))
  }

  lemma {:induction false} OpenMeans(bs: seq<Block>, lost: seq<bool>)
    requires |lost| == |bs|
    ensures Open(bs, lost) <==>
              exists i :: 0 <= i < |bs| && bs[i].event.Some? && forall m :: i <= m < |bs| ==> lost[m]
  {
    if bs != [] {
      var n := |bs| - 1;
      OpenMeans(Front(bs), Front(lost));
      if Open(bs, lost) && !Last(bs).event.Some? {
        var i :| 0 <= i < n && Front(bs)[i].event.Some? && forall m :: i <= m < n ==> Front(lost)[m];
        assert bs[i].event.Some? && forall m :: i <= m < |bs| ==> lost[m];
      }
      if i :| 0 <= i < |bs| && bs[i].event.Some? && forall m :: i <= m < |bs| ==> lost[m] {
        assert lost[n];
        if i < n {
          assert Front(bs)[i].event.Some? && forall m :: i <= m < n ==> Front(lost)[m];
        }
      }
    }
  }

  /** The lines of a block add no event of their own, and are seen if they hold a field. */
  lemma {:induction false} LayoutFedTo(s: State, e: Event, layout: seq<Piece>)
    requires LayoutOk(e, layout)
    ensures var t := FeedAll(s, LayoutLines(e, layout));
            && t.events == s.events
            && (t.seen <==> s.seen || HasName(layout) || HasId(layout) || DataLines(layout) > 0)
            && (!HasName(layout) && !HasId(layout) && DataLines(layout) == 0 ==> t == s)
  {
    if layout != [] {
      var p, k := Last(layout), DataLines(Front(layout));
      LayoutFedTo(s, e, Front(layout));
      FeedSnoc(s, LayoutLines(e, Front(layout)), PieceLine(e, p, k));
      PieceFedTo(FeedAll(s, LayoutLines(e, Front(layout))), e, p, k);
    }
  }

  lemma {:induction false} PieceFedTo(s: State, e: Event, p: Piece, k: nat)
    requires PieceOk(e, p, k)
    ensures var t := Feed(s, PieceLine(e, p, k));
            t.events == s.events && (if p.Ignored? then t == s else t.seen)
  {
    match p
    case Ignored(line) => IgnoredFed(s, line);
    case NameLine(form) => FieldFed(s, "event", e.name, form);
    case DataLine(form) => FieldFed(s, "data", Parts(e)[k], form);
    case IdLine(form) => FieldFed(s, "id", e.id, form);
  }

  function Count(s: State): nat {
    |s.events| + if s.seen then 1 else 0
  }

  /** Events are only ever joined, and then fewer are left than were printed. */
  lemma {:induction false} JoinedAreFewer(bs: seq<Block>, lost: seq<bool>)
    requires BlocksOk(bs) && |lost| == |bs|
    ensures var s := FeedAll(Clean([]), Remaining(bs, lost));
            && (s.seen <==> Open(bs, lost)) && Count(s) <= |Events(bs)|
            && (Joins(bs, lost) ==> Count(s) < |Events(bs)|)
  {
    if bs != [] {
      var b, s := Last(bs), FeedAll(Clean([]), Remaining(Front(bs), Front(lost)));
      JoinedAreFewer(Front(bs), Front(lost));
      RemainingFed(bs, lost);
      LayoutFedTo(s, if b.event.Some? then b.event.value else NOTHING, b.layout);
    }
  }

  lemma {:induction false} RemainingFed(bs: seq<Block>, lost: seq<bool>)
    requires BlocksOk(bs) && |lost| == |bs| && bs != []
    ensures var s := FeedAll(Clean([]), Remaining(Front(bs), Front(lost)));
            var t := FeedAll(s, BlockLines(Last(bs)));
            FeedAll(Clean([]), Remaining(bs, lost)) == if Last(lost) then t else Flush(t)
  {
    var x, y := Remaining(Front(bs), Front(lost)), BlockLines(Last(bs));
    FeedConcat(Clean([]), x, y);
    if Last(lost) {
      EmptyUnit(x + y);
    } else {
      FeedSnoc(Clean([]), x + y, "");
    }
  }

  lemma {:induction false} FlushedOnce(s: State)
    ensures Flush(Flush(s)) == Flush(s)
  {
  }

  /** Where nothing is joined, flushing gives the events printed. */
  lemma {:induction false} ApartAreRead(bs: seq<Block>, lost: seq<bool>)
    requires BlocksOk(bs) && |lost| == |bs| && !Joins(bs, lost)
    ensures var s := FeedAll(Clean([]), Remaining(bs, lost));
            Flush(s) == Clean(Events(bs)) && (!Open(bs, lost) ==> s == Clean(Events(bs)))
  {
    if bs != [] {
      var b, s := Last(bs), FeedAll(Clean([]), Remaining(Front(bs), Front(lost)));
      ApartAreRead(Front(bs), Front(lost));
      RemainingFed(bs, lost);
      if b.event.Some? {
        BlockFed(Events(Front(bs)), b);
      } else {
        LayoutFedTo(s, NOTHING, b.layout);
        EmptyUnit(Events(Front(bs)));
      }
      FlushedOnce(FeedAll(s, BlockLines(b)));
    }
  }

  /** With any terminators, the events printed come back if and only if no blank lines are lost
      that join two of them: a blank line is lost when it is ended by LF behind a line ended by
      CR. */
  lemma {:induction false} MixedReadBackIff(bs: seq<Block>, ls: seq<Ended>)
    requires BlocksOk(bs) && EndedOk(ls) && LinesOf(ls) == AllLines(bs) && |ls| == |AllLines(bs)|
    ensures Parsed(TextFrom(ls, 0)) == Events(bs) <==> !Joins(bs, LostEnds(bs, ls))
  {
    var lost := LostEnds(bs, ls);
    TextRead(ls);
    KeptIsRemaining(bs, ls);
    JoinedAreFewer(bs, lost);
    if !Joins(bs, lost) {
      ApartAreRead(bs, lost);
    }
  }

  /** Two events that come back as one. */
  lemma {:induction false} TwoBecomeOne(x: string, y: string)
    requires OneLine(x) && OneLine(y) && Suits(Tight, x) && Suits(Tight, y)
    ensures Parsed(FieldLine("data", x, Tight) + ("\r" + ("\n" + (FieldLine("data", y, Tight) + ("\n" + ("\n" + ""))))))
         == [Event("", x + "\n" + y, "")]
  {
    var a, b := FieldLine("data", x, Tight), FieldLine("data", y, Tight);
    var rest := b + ("\n" + ("\n" + ""));
    assert "\r" + ("\n" + rest) == "\r\n" + rest;
    FirstLine(a, "\r\n", rest);
    FirstLine(b, "\n", "\n" + "");
    EmptyUnit("\n" + "");
    FirstLine("", "\n", "");
    ThreeFed(x, y, a, b);
  }

  lemma {:induction false} ThreeFed(x: string, y: string, a: string, b: string)
    requires Suits(Tight, x) && Suits(Tight, y)
    requires a == FieldLine("data", x, Tight) && b == FieldLine("data", y, Tight)
    ensures Flush(FeedAll(Clean([]), [a] + ([b] + ([""] + [])))).events == [Event("", x + "\n" + y, "")]
  {
    var s, t := State([], "", "", [x], true), State([], "", "", [x, y], true);
    FedFirst(Clean([]), a, [b] + ([""] + []));
    FieldFed(Clean([]), "data", x, Tight);
    assert Feed(Clean([]), a) == s by { assert [] + [x] == [x]; }
    FedFirst(s, b, [""] + []);
    FieldFed(s, "data", y, Tight);
    assert Feed(s, b) == t by { assert [x] + [y] == [x, y]; }
    FedFirst(t, "", []);
    JoinTwo(x, y);
    assert Flush(t).events == [Event("", x + "\n" + y, "")] by { EmptyUnit([Event("", x + "\n" + y, "")]); }
  }

  lemma {:induction false} FedFirst(s: State, l: string, rest: seq<string>)
    ensures FeedAll(s, [l] + rest) == FeedAll(Feed(s, l), rest)
  {
    TailOfCons(l, rest);
  }

  lemma {:induction false} JoinTwo(x: string, y: string)
    ensures Join([x, y], "\n") == x + "\n" + y
  {
    assert [x, y][1..] == [y];
  }

  /** Such a body. */
  lemma {:induction false} MixedBody()
    ensures Parsed("data:a" + ("\r" + ("\n" + ("data:b" + ("\n" + ("\n" + "")))))) == [Event("", "a" + "\n" + "b", "")]
  {
    assert FieldLine("data", "a", Tight) == "data:a" && FieldLine("data", "b", Tight) == "data:b";
    TwoBecomeOne("a", "b");
  }
}
