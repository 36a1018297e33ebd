/** Grouping an edit script into hunks with context, and what the hunks are good for:
    applied at the line numbers in their headers they patch the old text into the new one. */
module Hunks {
  import opened Options
  import opened CommonSubsequence
  import opened EditScript
  import opened LineDiff
  import opened Seqs
  import opened Text

  const DIFF_CONTEXT := 2
  const DEFAULT_MAX_DIFF_LINES := 200

  /** A printed hunk: "@@ -aStart,aLen +bStart,bLen @@" and its lines; first is the
      position in the script of its first line. */
  datatype Hunk = Hunk(first: nat, aStart: nat, aLen: nat, bStart: nat, bLen: nat, body: seq<Op>)

  datatype TextDiff = NoChanges | TextDiff(hunks: seq<Hunk>, capped: bool, more: int, changes: nat)

  /** Applies one hunk, with pos old lines consumed and out produced so far. Yields None
      when a header or an old line disagrees with what is there. */
  ghost function ApplyHunk(a: seq<Line>, pos: nat, out: seq<Line>, h: Hunk): Option<(nat, seq<Line>)> {
    var s := h.aStart - 1;
    if && pos <= s && s + h.aLen <= |a|
       && a[s..s + h.aLen] == OldSide(h.body)
       && h.bStart - 1 == |out| + s - pos
       && h.bLen == |NewSide(h.body)|
    then Some((s + h.aLen, out + a[pos..s] + NewSide(h.body)))
    else None
  }

  /** Applies hunks in order, from the first line on. */
  ghost function Patched(a: seq<Line>, hunks: seq<Hunk>): Option<(nat, seq<Line>)> {
    if hunks == [] then Some((0, []))
    else
      var before := Patched(a, Front(hunks));
      if before == None then None else ApplyHunk(a, before.value.0, before.value.1, Last(hunks))
  }

  /** The hunks are a complete patch from a to b. */
  ghost predicate Patches(a: seq<Line>, hunks: seq<Hunk>, b: seq<Line>) {
    var p := Patched(a, hunks);
    p != None && p.value.0 <= |a| && p.value.1 + a[p.value.0..] == b
  }

  /** The '+' and '-' lines of a script. */
  function Changed(ops: seq<Op>): seq<Op> {
    if ops == [] then []
    else if Last(ops).kind == Keep then Changed(Front(ops))
    else Changed(Front(ops)) + [Last(ops)]
  }

  function Printed(hunks: seq<Hunk>): seq<Op> {
    if hunks == [] then [] else Printed(Front(hunks)) + Changed(Last(hunks).body)
  }

  ghost predicate AllKeep(ops: seq<Op>, i: nat, j: nat)
    requires i <= j <= |ops|
  {
    forall k :: i <= k < j ==> ops[k].kind == Keep
  }

  ghost predicate ChangeAt(ops: seq<Op>, c: int) {
    0 <= c < |ops| && ops[c].kind != Keep
  }

  /** Some change lies within two lines of line k. */
  ghost predicate NearChange(ops: seq<Op>, k: int) {
    ChangeAt(ops, k - 2) || ChangeAt(ops, k - 1) || ChangeAt(ops, k) || ChangeAt(ops, k + 1) || ChangeAt(ops, k + 2)
  }

  /** Line k lies behind the last change, where at most four lines are left. */
  ghost predicate InShortTail(ops: seq<Op>, k: int) {
    TailRun(ops) <= 4 && TailRun(ops) < |ops| && |ops| - TailRun(ops) <= k < |ops|
  }

  /** The lines a diff shows. */
  ghost predicate Wanted(ops: seq<Op>, k: int) {
    NearChange(ops, k) || InShortTail(ops, k)
  }

  /** Up to script position upto the hunks show exactly the wanted lines, and nothing behind. */
  ghost predicate ShowsExactly(hunks: seq<Hunk>, ops: seq<Op>, upto: nat) {
    forall k :: 0 <= k < |ops| ==> (Shown(hunks, k) <==> k < upto && Wanted(ops, k))
  }

  /** Some hunk shows line k of the script. */
  ghost predicate Shown(hunks: seq<Hunk>, k: int) {
    hunks != [] && (Last(hunks).first <= k < EndOf(Last(hunks)) || Shown(Front(hunks), k))
  }

  /** A hunk shows a part of the script and its header describes it. */
  ghost predicate Describes(h: Hunk, ops: seq<Op>) {
    && EndOf(h) <= |ops|
    && h.body == ops[h.first..EndOf(h)]
    && h.aStart == |OldSide(ops[..h.first])| + 1 && h.aLen == |OldSide(h.body)|
    && h.bStart == |NewSide(ops[..h.first])| + 1 && h.bLen == |NewSide(h.body)|
  }

  /** Whole hunks, in order, none touching the next. */
  ghost predicate Laid(hunks: seq<Hunk>, ops: seq<Op>) {
    hunks == [] || (
      && Laid(Front(hunks), ops) && Describes(Last(hunks), ops) && Last(hunks).body != []
      && (|hunks| > 1 ==> EndOf(Last(Front(hunks))) < Last(hunks).first))
  }

  /** The script position behind a whole hunk. */
  function EndOf(h: Hunk): nat {
    h.first + |h.body|
  }

  lemma {:induction false} ChangedConcat(x: seq<Op>, y: seq<Op>)
    ensures Changed(x + y) == Changed(x) + Changed(y)
    decreases |y|
  {
    if y == [] {
      EmptyUnit(x);
    } else {
      FrontLastConcat(x, y);
      ChangedConcat(x, Front(y));
      SnocOfSnoc(Changed(x), Changed(Front(y)), Last(y));
    }
  }

  lemma {:induction false} ChangedCount(ops: seq<Op>)
    ensures |Changed(ops)| == Changes(ops)
  {
    if ops != [] { ChangedCount(Front(ops)); }
  }

  lemma {:induction false} KeepSegment(ops: seq<Op>, i: nat, j: nat)
    requires i <= j <= |ops| && AllKeep(ops, i, j)
    ensures OldSide(ops[i..j]) == NewSide(ops[i..j]) && Changed(ops[i..j]) == []
    decreases j
  {
    if i < j {
      FrontOfSlice(ops, i, j);
      KeepSegment(ops, i, j - 1);
    }
  }

  /** The two sides of a script split at any point of it. */
  lemma {:induction false} Segment(ops: seq<Op>, i: nat, j: nat)
    requires i <= j <= |ops|
    ensures OldSide(ops[..j]) == OldSide(ops[..i]) + OldSide(ops[i..j])
    ensures NewSide(ops[..j]) == NewSide(ops[..i]) + NewSide(ops[i..j])
  {
    JoinPrefix(ops, i, j);
    Concat(ops[..i], ops[i..j]);
  }

  /** Where a segment of the script lies in the old text. */
  lemma {:induction false} OldSlice(ops: seq<Op>, a: seq<Line>, i: nat, j: nat)
    requires OldSide(ops) == a && i <= j <= |ops|
    ensures |OldSide(ops[..j])| == |OldSide(ops[..i])| + |OldSide(ops[i..j])| <= |a|
    ensures a[|OldSide(ops[..i])|..|OldSide(ops[..j])|] == OldSide(ops[i..j])
  {
    Segment(ops, i, j);
    SplitAt(ops, j);
    Concat(ops[..j], ops[j..]);
    SliceOfThree(OldSide(ops[..i]), OldSide(ops[i..j]), OldSide(ops[j..]));
  }

  /** The patch so far is exactly the script up to done. */
  ghost predicate PatchedUpTo(a: seq<Line>, hunks: seq<Hunk>, ops: seq<Op>, done: nat)
    requires done <= |ops|
  {
    Patched(a, hunks) == Some((|OldSide(ops[..done])|, NewSide(ops[..done])))
  }

  /** Applying a hunk whose header and old lines agree with the text. */
  lemma {:induction false} AppliesOne(a: seq<Line>, pos: nat, s: nat, e: nat, out: seq<Line>, before: seq<Line>,
        h: Hunk)
    requires pos <= s <= e <= |a| && out + a[pos..s] == before
    requires a[s..e] == OldSide(h.body) && h.aLen == |OldSide(h.body)|
    requires h.aStart == s + 1 && h.bStart == |before| + 1 && h.bLen == |NewSide(h.body)|
    ensures ApplyHunk(a, pos, out, h) == Some((e, before + NewSide(h.body)))
  {
  }

  /** One more hunk, behind unchanged lines, carries the patch to its end. */
  lemma {:induction false} PatchedByHunk(a: seq<Line>, hunks: seq<Hunk>, ops: seq<Op>, done: nat, h: Hunk, end: nat)
    requires end == EndOf(h) && OldSide(ops) == a && done <= h.first && Describes(h, ops)
    requires PatchedUpTo(a, hunks, ops, done) && AllKeep(ops, done, h.first)
    ensures PatchedUpTo(a, hunks + [h], ops, end)
  {
    var start := h.first;
    var pos, s, e := |OldSide(ops[..done])|, |OldSide(ops[..start])|, |OldSide(ops[..end])|;
    var out, before := NewSide(ops[..done]), NewSide(ops[..start]);
    assert pos <= s <= |a| && out + a[pos..s] == before by {
      KeepSegment(ops, done, start);
      OldSlice(ops, a, done, start);
      Segment(ops, done, start);
    }
    assert s <= e <= |a| && a[s..e] == OldSide(h.body) by {
      OldSlice(ops, a, start, end);
    }
    assert NewSide(ops[..end]) == before + NewSide(h.body) by {
      Segment(ops, start, end);
    }
    AppliesOne(a, pos, s, e, out, before, h);
    FrontLastSnoc(hunks, h);
  }

  /** Unchanged lines behind the last hunk complete the patch. */
  lemma {:induction false} PatchComplete(a: seq<Line>, b: seq<Line>, hunks: seq<Hunk>, ops: seq<Op>, done: nat)
    requires Turns(ops, a, b) && done <= |ops|
    requires PatchedUpTo(a, hunks, ops, done) && AllKeep(ops, done, |ops|)
    ensures Patches(a, hunks, b)
  {
    KeepSegment(ops, done, |ops|);
    OldSlice(ops, a, done, |ops|);
    Segment(ops, done, |ops|);
    TakeAll(ops);
  }

  lemma {:induction false} TailRunKeeps(ops: seq<Op>)
    ensures TailRun(ops) <= |ops| && AllKeep(ops, |ops| - TailRun(ops), |ops|)
    ensures TailRun(ops) < |ops| ==> ChangeAt(ops, |ops| - TailRun(ops) - 1)
  {
    if ops != [] && Last(ops).kind == Keep { TailRunKeeps(Front(ops)); }
  }

  /** A run of at most four unchanged lines behind a change is shown: it lies between two
      changes, or it is the tail. */
  lemma {:induction false} ShortRunWanted(ops: seq<Op>, end: nat, run: nat)
    requires 0 < end && end + run <= |ops| && run <= 2 * DIFF_CONTEXT && AllKeep(ops, end, end + run)
    requires ChangeAt(ops, end - 1) && (end + run == |ops| || ChangeAt(ops, end + run))
    ensures forall k :: end <= k < end + run ==> Wanted(ops, k)
  {
    if end + run == |ops| {
      TailRunKeeps(ops);
      assert TailRun(ops) == run;
    } else {
      forall k | end <= k < end + run
        ensures Wanted(ops, k)
      {
        assert k - 2 == end - 1 || k - 1 == end - 1 || k + 1 == end + run || k + 2 == end + run;
      }
    }
  }

  /** The end of the hunk around a change at i: past the change, and past every run of
      unchanged lines too short to separate two hunks. */
  method HunkEnd(ops: seq<Op>, i: nat) returns (end: nat)
    requires i < |ops| && ops[i].kind != Keep
    ensures i < end <= |ops| && Separated(ops, end)
    ensures forall k :: i <= k < end ==> Wanted(ops, k)
  {
    end := i;
    while end < |ops|
      invariant i <= end <= |ops| && (end == i || end == |ops| || ChangeAt(ops, end - 1) || ChangeAt(ops, end))
      invariant forall k :: i <= k < end ==> Wanted(ops, k)
      decreases |ops| - end
    {
      if ops[end].kind != Keep {
        assert NearChange(ops, end);
        end := end + 1;
      } else {
        var run := 0;
        while end + run < |ops| && ops[end + run].kind == Keep
          invariant end + run <= |ops| && AllKeep(ops, end, end + run)
        {
          run := run + 1;
        }
        if run > 2 * DIFF_CONTEXT {
          assert NearChange(ops, end) && NearChange(ops, end + 1);
          end := end + DIFF_CONTEXT;
          break;
        }
        ShortRunWanted(ops, end, run);
        end := end + run;
      }
    }
  }

  /** Counts the lines of a hunk on each side, for its header. */
  method SideLengths(body: seq<Op>) returns (aLen: nat, bLen: nat)
    ensures aLen == |OldSide(body)| && bLen == |NewSide(body)|
  {
    aLen, bLen := 0, 0;
    var k := 0;
    while k < |body|
      invariant 0 <= k <= |body| && aLen == |OldSide(body[..k])| && bLen == |NewSide(body[..k])|
    {
      FrontOfTake(body, k + 1);
      if body[k].kind != Insert { aLen := aLen + 1; }
      if body[k].kind != Delete { bLen := bLen + 1; }
      k := k + 1;
    }
    TakeAll(body);
  }

  /** Prints a hunk's lines, stopping before the change that would exceed maxLines. */
  method PrintBody(body: seq<Op>, printed: nat, maxLines: nat)
    returns (shown: seq<Op>, printed': nat, capped: bool)
    requires printed <= maxLines
    ensures shown <= body
    ensures printed' == printed + Changes(shown) <= maxLines
    ensures capped <==> printed + Changes(body) > maxLines
    ensures !capped ==> shown == body
    ensures capped ==> printed' == maxLines && |shown| < |body| && body[|shown|].kind != Keep
  {
    shown, printed', capped := [], printed, false;
    var k := 0;
    while k < |body|
      invariant 0 <= k <= |body| && shown == body[..k] && printed' == printed + Changes(shown) <= maxLines
    {
      FrontOfTake(body, k + 1);
      if body[k].kind != Keep {
        if printed' >= maxLines {
          SplitAt(body, k + 1);
          Concat(body[..k + 1], body[k + 1..]);
          capped := true;
          return;
        }
        printed' := printed' + 1;
      }
      shown := shown + [body[k]];
      k := k + 1;
    }
    TakeAll(body);
  }

  /** What holds of the hunks made so far, which end at script position done. */
  ghost predicate Grouped(hunks: seq<Hunk>, ops: seq<Op>, done: nat)
    requires done <= |ops|
  {
    && Laid(hunks, ops)
    && (hunks == [] ==> done == 0)
    && (hunks != [] ==> done == EndOf(Last(hunks)))
    && Printed(hunks) == Changed(ops[..done])
    && PatchedUpTo(OldSide(ops), hunks, ops, done)
  }

  /** The lines right behind a hunk that does not end the script are unchanged. */
  ghost predicate Separated(ops: seq<Op>, done: nat) {
    done == 0 || done == |ops|
    || (done + DIFF_CONTEXT < |ops| && DIFF_CONTEXT <= done
        && AllKeep(ops, done - DIFF_CONTEXT, done + DIFF_CONTEXT + 1))
  }

  lemma {:induction false} PrintedSnoc(hunks: seq<Hunk>, h: Hunk)
    ensures Printed(hunks + [h]) == Printed(hunks) + Changed(h.body)
  {
    FrontLastSnoc(hunks, h);
  }

  /** Over unchanged lines the changes so far stay the same. */
  lemma {:induction false} ChangedSplit(ops: seq<Op>, done: nat, start: nat, end: nat)
    requires done <= start <= end <= |ops| && AllKeep(ops, done, start)
    ensures Changed(ops[..end]) == Changed(ops[..done]) + Changed(ops[start..end])
  {
    KeepSegment(ops, done, start);
    ChangedConcat(ops[..done], ops[done..start]);
    JoinPrefix(ops, done, start);
    EmptyUnit(Changed(ops[..done]));
    ChangedConcat(ops[..start], ops[start..end]);
    JoinPrefix(ops, start, end);
  }

  lemma {:induction false} LaidSnoc(hunks: seq<Hunk>, ops: seq<Op>, h: Hunk)
    requires Laid(hunks, ops) && Describes(h, ops) && h.body != []
    requires hunks != [] ==> EndOf(Last(hunks)) < h.first
    ensures Laid(hunks + [h], ops)
  {
    FrontLastSnoc(hunks, h);
  }

  lemma {:induction false} GroupOneMore(hunks: seq<Hunk>, ops: seq<Op>, done: nat, h: Hunk, end: nat)
    requires end == EndOf(h) && done <= |ops| && Grouped(hunks, ops, done)
    requires Describes(h, ops) && h.body != [] && done <= h.first && (hunks != [] ==> done < h.first)
    requires AllKeep(ops, done, h.first)
    ensures Grouped(hunks + [h], ops, end)
  {
    var start := h.first;
    assert PatchedUpTo(OldSide(ops), hunks + [h], ops, end) by {
      PatchedByHunk(OldSide(ops), hunks, ops, done, h, end);
    }
    assert Printed(hunks + [h]) == Changed(ops[..end]) by {
      ChangedSplit(ops, done, start, end);
      PrintedSnoc(hunks, h);
    }
    LaidSnoc(hunks, ops, h);
  }

  lemma {:induction false} ChangesUpTo(ops: seq<Op>, end: nat)
    requires end <= |ops|
    ensures Changes(ops[..end]) <= Changes(ops) && Changed(ops[..end]) <= Changed(ops)
  {
    SplitAt(ops, end);
    Concat(ops[..end], ops[end..]);
    ChangedConcat(ops[..end], ops[end..]);
  }

  /** What a cut hunk leaves printed. */
  lemma {:induction false} CutHunk(hunks: seq<Hunk>, ops: seq<Op>, done: nat, h: Hunk, end: nat)
    requires done <= h.first <= end <= |ops| && Grouped(hunks, ops, done) && AllKeep(ops, done, h.first)
    requires h.body <= ops[h.first..end]
    ensures Printed(hunks + [h]) <= Changed(ops)
    ensures |Printed(hunks + [h])| == |Printed(hunks)| + Changes(h.body)
    ensures |Printed(hunks)| + Changes(ops[h.first..end]) <= Changes(ops)
  {
    var start, q := h.first, h.first + |h.body|;
    assert h.body == ops[start..q];
    assert Printed(hunks + [h]) == Changed(ops[..q]) by {
      ChangedSplit(ops, done, start, q);
      PrintedSnoc(hunks, h);
    }
    ChangesUpTo(ops, q);
    PrintedSnoc(hunks, h);
    ChangedCount(h.body);
    assert |Printed(hunks)| + Changes(ops[start..end]) == Changes(ops[..end]) by {
      ChangedSplit(ops, done, start, end);
      ChangedCount(ops[..end]);
      ChangedCount(ops[start..end]);
    }
    ChangesUpTo(ops, end);
  }

  /** No line in front of a change is in the tail. */
  lemma {:induction false} NoTailYet(ops: seq<Op>, i: nat)
    requires ChangeAt(ops, i)
    ensures forall k :: k <= i ==> !InShortTail(ops, k)
  {
    TailRunKeeps(ops);
  }

  /** A hunk that begins at the context of the change at i, and shows only wanted lines,
      shows all that come next. */
  lemma {:induction false} ShowsMore(hunks: seq<Hunk>, ops: seq<Op>, done: nat, i: nat, h: Hunk, end: nat)
    requires done <= h.first <= end == EndOf(h) <= |ops| && ChangeAt(ops, i) && ShowsExactly(hunks, ops, done)
    requires done <= i && Separated(ops, done) && AllKeep(ops, done, i)
    requires h.first == (if i >= DIFF_CONTEXT then i - DIFF_CONTEXT else 0)
    requires forall k :: i <= k < end ==> Wanted(ops, k)
    ensures ShowsExactly(hunks + [h], ops, end)
  {
    FrontLastSnoc(hunks, h);
    NoTailYet(ops, i);
    assert forall k :: done <= k < h.first ==> !NearChange(ops, k);
    assert forall k :: h.first <= k < i ==> NearChange(ops, k);
  }

  /** Nothing wanted lies behind the last hunk. */
  lemma {:induction false} NothingWantedBehind(hunks: seq<Hunk>, ops: seq<Op>, done: nat)
    requires done <= |ops| && ShowsExactly(hunks, ops, done)
    requires Separated(ops, done) && AllKeep(ops, done, |ops|)
    ensures ShowsExactly(hunks, ops, |ops|)
  {
    TailRunKeeps(ops);
    assert forall k :: done <= k < |ops| ==> !NearChange(ops, k);
    assert forall k :: done <= k < |ops| ==> !InShortTail(ops, k);
  }

  /** Two lines of context on either side, as promised, are shown if and only if three or four
      unchanged lines are not all there is behind the last change. */
  lemma {:induction false} TwoLinesIff(hunks: seq<Hunk>, ops: seq<Op>)
    requires ShowsExactly(hunks, ops, |ops|)
    ensures TwoLines(hunks, ops)
       <==> !(TailRun(ops) < |ops| && 2 < TailRun(ops) <= 4)
  {
    TailRunKeeps(ops);
    var last := |ops| - 1;
    if TailRun(ops) < |ops| && 2 < TailRun(ops) <= 4 {
      assert Wanted(ops, last) && !NearChange(ops, last);
    } else {
      assert forall k :: InShortTail(ops, k) ==> NearChange(ops, k);
    }
  }

  method CountChanges(ops: seq<Op>) returns (changes: nat)
    ensures changes == Changes(ops)
  {
    changes := 0;
    var k := 0;
    while k < |ops|
      invariant 0 <= k <= |ops| && changes == Changes(ops[..k])
    {
      FrontOfTake(ops, k + 1);
      if ops[k].kind != Keep { changes := changes + 1; }
      k := k + 1;
    }
    TakeAll(ops);
  }

  lemma {:induction false} CutBody(ops: seq<Op>, start: nat, end: nat, body: seq<Op>)
    requires start <= end <= |ops| && body <= ops[start..end]
    ensures start + |body| <= end && body == ops[start..start + |body|]
    ensures |body| < end - start && ops[start..end][|body|].kind != Keep ==> ChangeAt(ops, start + |body|)
  {
  }

  /** Prints the hunk around the change at i. */
  method MakeHunk(ops: seq<Op>, i: nat, printed: nat, maxLines: nat)
    returns (h: Hunk, end: nat, printed': nat, capped: bool)
    requires Positioned(ops) && i < |ops| && ops[i].kind != Keep && printed <= maxLines
    ensures h.first == if i >= DIFF_CONTEXT then i - DIFF_CONTEXT else 0
    ensures i < end <= |ops| && Separated(ops, end)
    ensures h.first <= EndOf(h) <= end && (forall k :: i <= k < end ==> Wanted(ops, k))
    ensures h.body <= ops[h.first..end]
    ensures h.aStart == |OldSide(ops[..h.first])| + 1 && h.aLen == |OldSide(ops[h.first..end])|
    ensures h.bStart == |NewSide(ops[..h.first])| + 1 && h.bLen == |NewSide(ops[h.first..end])|
    ensures printed' == printed + Changes(h.body) <= maxLines
    ensures capped <==> printed + Changes(ops[h.first..end]) > maxLines
    ensures capped ==> printed' == maxLines && EndOf(h) < end && CutHere(h, ops)
    ensures !capped ==> end == EndOf(h) && Describes(h, ops)
  {
    var start := if i >= DIFF_CONTEXT then i - DIFF_CONTEXT else 0;
    end := HunkEnd(ops, i);
    PositionOfOp(ops, start);
    var aLen, bLen := SideLengths(ops[start..end]);
    var body;
    body, printed', capped := PrintBody(ops[start..end], printed, maxLines);
    CutBody(ops, start, end, body);
    h := Hunk(start, ops[start].aIdx + 1, aLen, ops[start].bIdx + 1, bLen, body);
    if capped { IsCut(h, ops, i, end); }
  }

  /** A hunk cut short, up to the end it would have had. */
  lemma {:induction false} IsCut(h: Hunk, ops: seq<Op>, i: nat, end: nat)
    requires h.first <= i <= h.first + DIFF_CONTEXT && i < end <= |ops| && ChangeAt(ops, i) && EndOf(h) < end
    requires Separated(ops, end) && forall k :: i <= k < end ==> Wanted(ops, k)
    requires ChangeAt(ops, EndOf(h)) && h.body == ops[h.first..EndOf(h)]
    requires h.aStart == |OldSide(ops[..h.first])| + 1 && h.aLen == |OldSide(ops[h.first..end])|
    requires h.bStart == |NewSide(ops[..h.first])| + 1 && h.bLen == |NewSide(ops[h.first..end])|
    ensures CutHere(h, ops)
  {
    ContextWanted(ops, h.first, i, end);
    assert Whole(h, ops, end);
  }

  lemma {:induction false} ContextWanted(ops: seq<Op>, start: nat, i: nat, end: nat)
    requires start <= i <= start + DIFF_CONTEXT && ChangeAt(ops, i) && forall k :: i <= k < end ==> Wanted(ops, k)
    ensures forall k :: start <= k < end ==> Wanted(ops, k)
  {
    forall k | start <= k < i
      ensures Wanted(ops, k)
    {
      assert k + 1 == i || k + 2 == i;
    }
  }

  /** The loop's state: hunks up to done, unchanged lines from there to i. */
  ghost predicate Progress(hunks: seq<Hunk>, ops: seq<Op>, done: nat, i: nat, printed: nat, maxLines: nat) {
    && done <= i <= |ops|
    && Grouped(hunks, ops, done) && Separated(ops, done) && AllKeep(ops, done, i)
    && ShowsExactly(hunks, ops, done)
    && printed == |Printed(hunks)| <= maxLines
  }

  lemma {:induction false} Skip(hunks: seq<Hunk>, ops: seq<Op>, done: nat, i: nat, printed: nat, maxLines: nat)
    requires Progress(hunks, ops, done, i, printed, maxLines) && i < |ops| && ops[i].kind == Keep
    ensures Progress(hunks, ops, done, i + 1, printed, maxLines)
  {
  }

  /** The context in front of a change stays behind the last hunk. */
  lemma {:induction false} StartsBehind(ops: seq<Op>, done: nat, i: nat, start: nat)
    requires done <= i < |ops| && ops[i].kind != Keep && Separated(ops, done) && AllKeep(ops, done, i)
    requires start == if i >= DIFF_CONTEXT then i - DIFF_CONTEXT else 0
    ensures done <= start <= i && (done != 0 ==> done < start) && AllKeep(ops, done, start)
  {
    if done != 0 {
      assert ops[done].kind == Keep && ops[done + 1].kind == Keep && ops[done + 2].kind == Keep;
    }
  }

  lemma {:induction false} Advance(hunks: seq<Hunk>, ops: seq<Op>, done: nat, i: nat, printed: nat, maxLines: nat,
        h: Hunk, end: nat, printed': nat)
    requires Progress(hunks, ops, done, i, printed, maxLines) && i < |ops| && ops[i].kind != Keep
    requires h.first == if i >= DIFF_CONTEXT then i - DIFF_CONTEXT else 0
    requires Describes(h, ops) && h.body != [] && end == EndOf(h) && Separated(ops, end)
    requires forall k :: i <= k < end ==> Wanted(ops, k)
    requires printed' == printed + Changes(h.body) <= maxLines
    ensures Progress(hunks + [h], ops, end, end, printed', maxLines)
  {
    StartsBehind(ops, done, i, h.first);
    assert hunks != [] ==> done != 0;
    assert |Printed(hunks + [h])| == printed' by {
      CutHunk(hunks, ops, done, h, end);
    }
    GroupOneMore(hunks, ops, done, h, end);
    ShowsMore(hunks, ops, done, i, h, end);
  }

  /** What holds when the whole script has been grouped without a cap. */
  lemma {:induction false} AllGrouped(hunks: seq<Hunk>, ops: seq<Op>, done: nat, printed: nat, maxLines: nat)
    requires Progress(hunks, ops, done, |ops|, printed, maxLines) && Positioned(ops)
    ensures Laid(hunks, ops)
    ensures Patches(OldSide(ops), hunks, NewSide(ops)) && ShowsExactly(hunks, ops, |ops|)
    ensures Printed(hunks) == Changed(ops) && |Printed(hunks)| == Changes(ops) <= maxLines
  {
    assert Printed(hunks) == Changed(ops) by {
      ChangedSplit(ops, done, |ops|, |ops|);
      TakeAll(ops);
    }
    ChangedCount(ops);
    NothingWantedBehind(hunks, ops, done);
    PatchComplete(OldSide(ops), NewSide(ops), hunks, ops, done);
  }

  /** A hunk cut in front of a change. Its header is that of the hunk it would have been, up to
      end. */
  ghost predicate CutHere(h: Hunk, ops: seq<Op>) {
    && ChangeAt(ops, EndOf(h))
    && h.body == ops[h.first..EndOf(h)]
    && h.aStart == |OldSide(ops[..h.first])| + 1
    && h.bStart == |NewSide(ops[..h.first])| + 1
    && exists end :: Whole(h, ops, end)
  }

  /** Up to end there are only lines to be shown, and no hunk follows at once. */
  ghost predicate Whole(h: Hunk, ops: seq<Op>, end: nat) {
    && EndOf(h) < end <= |ops| && Separated(ops, end) && (forall k :: h.first <= k < end ==> Wanted(ops, k))
    && h.aLen == |OldSide(ops[h.first..end])| && h.bLen == |NewSide(ops[h.first..end])|
  }

  /** All hunks but the last are whole; the last is cut. */
  ghost predicate CutOff(hunks: seq<Hunk>, ops: seq<Op>) {
    && hunks != [] && Laid(Front(hunks), ops)
    && (|hunks| > 1 ==> EndOf(Last(Front(hunks))) < Last(hunks).first)
    && CutHere(Last(hunks), ops)
    && ShowsExactly(hunks, ops, EndOf(Last(hunks)))
  }

  lemma {:induction false} CutOffSnoc(hunks: seq<Hunk>, ops: seq<Op>, h: Hunk)
    requires Laid(hunks, ops) && CutHere(h, ops) && (hunks != [] ==> EndOf(Last(hunks)) < h.first)
    requires ShowsExactly(hunks + [h], ops, EndOf(h))
    ensures CutOff(hunks + [h], ops)
  {
    FrontLastSnoc(hunks, h);
  }

  /** What is shown when the cap cuts the last hunk. */
  lemma {:induction false} CappedShape(hunks: seq<Hunk>, ops: seq<Op>, done: nat, i: nat, printed: nat, maxLines: nat,
        h: Hunk, end: nat)
    requires Progress(hunks, ops, done, i, printed, maxLines) && i < |ops| && ops[i].kind != Keep
    requires h.first == if i >= DIFF_CONTEXT then i - DIFF_CONTEXT else 0
    requires i < end <= |ops| && EndOf(h) < end && CutHere(h, ops)
    requires forall k :: i <= k < end ==> Wanted(ops, k)
    ensures CutOff(hunks + [h], ops)
  {
    StartsBehind(ops, done, i, h.first);
    assert hunks != [] ==> done != 0 && done == EndOf(Last(hunks));
    ShowsMore(hunks, ops, done, i, h, EndOf(h));
    CutOffSnoc(hunks, ops, h);
  }

  /** What is printed then. */
  lemma {:induction false} CappedPrinted(hunks: seq<Hunk>, ops: seq<Op>, done: nat, i: nat, printed: nat,
        maxLines: nat, h: Hunk, end: nat)
    requires Progress(hunks, ops, done, i, printed, maxLines) && i < |ops| && ops[i].kind != Keep
    requires h.first == if i >= DIFF_CONTEXT then i - DIFF_CONTEXT else 0
    requires i < end <= |ops| && h.body <= ops[h.first..end]
    requires printed + Changes(h.body) == maxLines < printed + Changes(ops[h.first..end])
    ensures Printed(hunks + [h]) <= Changed(ops) && |Printed(hunks + [h])| == maxLines < Changes(ops)
  {
    StartsBehind(ops, done, i, h.first);
    CutHunk(hunks, ops, done, h, end);
  }

  /** Prints hunks until the script or the cap is used up. */
  method PrintHunks(ops: seq<Op>, maxLines: nat)
    returns (hunks: seq<Hunk>, capped: bool, printed: nat, ghost done: nat)
    requires Positioned(ops)
    ensures !capped ==> Progress(hunks, ops, done, |ops|, printed, maxLines)
    ensures capped ==> Printed(hunks) <= Changed(ops) && |Printed(hunks)| == maxLines < Changes(ops)
    ensures capped ==> CutOff(hunks, ops)
  {
    hunks, capped, printed, done := [], false, 0, 0;
    var i := 0;
    while i < |ops|
      invariant 0 <= i <= |ops| && !capped
      invariant Progress(hunks, ops, done, i, printed, maxLines)
      decreases |ops| - i
    {
      if ops[i].kind == Keep {
        Skip(hunks, ops, done, i, printed, maxLines);
        i := i + 1;
      } else {
        var h, end, printed';
        h, end, printed', capped := MakeHunk(ops, i, printed, maxLines);
        if capped {
          CappedPrinted(hunks, ops, done, i, printed, maxLines, h, end);
          CappedShape(hunks, ops, done, i, printed, maxLines, h, end);
          hunks := hunks + [h];
          return;
        }
        Advance(hunks, ops, done, i, printed, maxLines, h, end, printed');
        hunks, printed, i, done := hunks + [h], printed', end, end;
      }
    }
  }

  /** Groups a script into hunks. Uncapped, the hunks lie in order without touching, show
      exactly the lines within two lines of a change and a short tail, and patch the old text
      into the new one. Capped, they print exactly the first maxLines changes, the last hunk
      being cut in front of the next one, and count the others. */
  method GroupHunks(ops: seq<Op>, changes: nat, maxLines: nat)
    returns (hunks: seq<Hunk>, capped: bool, more: int)
    requires Positioned(ops) && changes == Changes(ops)
    ensures capped <==> changes > maxLines
    ensures !capped ==> Laid(hunks, ops) && Patches(OldSide(ops), hunks, NewSide(ops))
    ensures !capped ==> ShowsExactly(hunks, ops, |ops|)
    ensures Printed(hunks) <= Changed(ops) && |Printed(hunks)| == if capped then maxLines else changes
    ensures more == if capped then changes - maxLines else 0
    ensures capped ==> CutOff(hunks, ops)
  {
    var printed;
    ghost var done;
    hunks, capped, printed, done := PrintHunks(ops, maxLines);
    more := if capped then changes - maxLines else 0;
    if !capped {
      AllGrouped(hunks, ops, done, printed, maxLines);
    }
  }

  /** The lines of a text: one final newline ends the last line instead of starting one. */
  function SplitLines(s: string): seq<Line> {
    if s == "" then []
    else Split(if Last(s) == '\n' then Front(s) else s, '\n')
  }

  /** The texts differ at most in whether their last line is ended by a newline. */
  ghost predicate SameText(a: string, b: string) {
    || a == b
    || (a != "" && Last(a) != '\n' && b == a + "\n")
    || (b != "" && Last(b) != '\n' && a == b + "\n")
  }

  lemma {:induction false} SplitInjective(x: string, y: string)
    ensures Split(x, '\n') == Split(y, '\n') <==> x == y
  {
    JoinOfSplit(x, '\n');
    JoinOfSplit(y, '\n');
  }

  lemma {:induction false} SameLinesIffSameText(a: string, b: string)
    ensures SplitLines(a) == SplitLines(b) <==> SameText(a, b)
  {
    if a != "" && b != "" {
      var x := if Last(a) == '\n' then Front(a) else a;
      var y := if Last(b) == '\n' then Front(b) else b;
      SplitInjective(x, y);
      assert Last(a) == '\n' ==> a == x + "\n";
      assert Last(b) == '\n' ==> b == y + "\n";
      if SameText(a, b) { assert x == y; }
    } else if a != "" || b != "" {
      assert SplitLines(a) != SplitLines(b);
    }
  }

  lemma {:induction false} NoChangeScript(ops: seq<Op>)
    ensures Changes(ops) == 0 ==> OldSide(ops) == NewSide(ops)
  {
    if ops != [] { NoChangeScript(Front(ops)); }
  }

  lemma {:induction false} NothingToDo(a: seq<Line>)
    ensures Lcs(a, a) == |a| && Middles(a, a) == ([], [])
  {
    LcsCommonPrefix(a, [], []);
    EmptyUnit(a);
  }

  /** What a text diff says. It reports no changes exactly when the texts are the same up to a
      final newline. Otherwise it counts as few changes as there can be if the trimmed middles fit
      the table, prints them up to the limit, and unless capped its hunks patch a's lines into
      b's. */
  ghost predicate Says(a: string, b: string, maxLines: int, r: TextDiff) {
    var limit := if maxLines <= 0 then 200 else maxLines;
    var al, bl := SplitLines(a), SplitLines(b);
    && (r == NoChanges <==> SameText(a, b))
    && (r.TextDiff? ==>
      && SmallestIff(al, bl, r.changes) && (r.capped <==> r.changes > limit)
      && |Printed(r.hunks)| == (if r.capped then limit else r.changes) && r.more == r.changes - |Printed(r.hunks)|
      && (!r.capped ==> Patches(al, r.hunks, bl)))
  }

  /** What it shows of a script ops that turns a's lines into b's. Unless capped, it has two lines
      of context on either side if and only if the texts do not share just three or four lines at
      the end. */
  ghost predicate Shows(a: string, b: string, r: TextDiff, ops: seq<Op>)
    requires r.TextDiff?
  {
    var al, bl := SplitLines(a), SplitLines(b);
    && Turns(ops, al, bl) && DeletesFirst(ops)
    && r.changes == Changes(ops) && Printed(r.hunks) <= Changed(ops)
    && (if r.capped then CutOff(r.hunks, ops)
        else
          && Laid(r.hunks, ops) && ShowsExactly(r.hunks, ops, |ops|)
          && (TwoLines(r.hunks, ops) <==> !(2 < SharedEnd(al, bl) <= 4)))
  }

  /** The number of changes is the least if and only if the trimmed middles fit the table or share
      no line. */
  ghost predicate SmallestIff(a: seq<Line>, b: seq<Line>, changes: nat) {
    var (ma, mb) := Middles(a, b);
    changes == |a| + |b| - 2 * Lcs(a, b) <==> |ma| * |mb| <= 4_000_000 || !SharesElement(ma, mb)
  }

  /** Exactly the lines within two lines of a change are shown. */
  ghost predicate TwoLines(hunks: seq<Hunk>, ops: seq<Op>) {
    forall k :: 0 <= k < |ops| ==> (Shown(hunks, k) <==> NearChange(ops, k))
  }

  /** The text diff. */
  method DiffText(a: string, b: string, maxLines: int) returns (r: TextDiff, ghost ops: seq<Op>)
    ensures Says(a, b, maxLines, r)
    ensures r.TextDiff? ==> Shows(a, b, r, ops)
  {
    var limit := if maxLines <= 0 then DEFAULT_MAX_DIFF_LINES else maxLines;
    ops := [];
    if a == b { return NoChanges, ops; }
    var al, bl := SplitLines(a), SplitLines(b);
    var script := DiffLines(al, bl);
    ops := script;
    SameLinesIffSameText(a, b);
    var changes := CountChanges(script);
    NoChangeScript(script);
    if changes == 0 { return NoChanges, ops; }
    if al == bl { NothingToDo(al); }
    var hunks, capped, more := GroupHunks(script, changes, limit);
    r := TextDiff(hunks, capped, more, changes);
    if !capped {
      TwoLinesIff(hunks, ops);
      SomeChangeLeft(ops);
    }
  }

  lemma {:induction false} SomeChangeLeft(ops: seq<Op>)
    requires Changes(ops) > 0
    ensures TailRun(ops) < |ops|
  {
    if Last(ops).kind == Keep { SomeChangeLeft(Front(ops)); }
  }

  // ---- A hunk with more than two lines of context -------------------------------------

  lemma {:induction false} FourLines(x: string)
    requires |x| == 1 && x[0] != '\n'
    ensures SplitLines(x + "\n1\n2\n3") == [x, "1", "2", "3"]
  {
    ThreeLines();
    SplitAfterFirst(x, '\n', "1\n2\n3");
    assert x + ['\n'] + "1\n2\n3" == x + "\n1\n2\n3";
  }

  lemma {:induction false} ThreeLines()
    ensures Split("1\n2\n3", '\n') == ["1", "2", "3"]
  {
    SplitNoSep("3", '\n');
    SplitAfterFirst("2", '\n', "3");
    SplitAfterFirst("1", '\n', "2\n3");
    assert "2" + ['\n'] + "3" == "2\n3" && "1" + ['\n'] + "2\n3" == "1\n2\n3";
  }

  lemma {:induction false} ThreeShared(a: seq<Line>, b: seq<Line>)
    requires a == ["x", "1", "2", "3"] && b == ["y", "1", "2", "3"]
    ensures SharedEnd(a, b) == 3
  {
    assert a[0][0] != b[0][0] && a[0..] == a && b[0..] == b;
    var a3, b3, a2, b2, a1, b1 := ["x", "1", "2"], ["y", "1", "2"], ["x", "1"], ["y", "1"], ["x"], ["y"];
    assert Front(a) == a3 && Front(b) == b3 && Front(a3) == a2 && Front(b3) == b2 && Front(a2) == a1 && Front(b2) == b1;
    assert Last(a1) == a[0] && Last(b1) == b[0];
    assert SuffixLen(a1, b1) == 0 && SuffixLen(a2, b2) == 1 && SuffixLen(a3, b3) == 2;
  }

  /** In short texts that share three or four last lines, one is shown that is not within two
      lines of a change. */
  lemma {:induction false} OneTooMany(a: string, b: string, r: TextDiff, ops: seq<Op>)
    requires Says(a, b, 0, r) && (r.TextDiff? ==> Shows(a, b, r, ops))
    requires |SplitLines(a)| + |SplitLines(b)| <= 200
    requires !SameText(a, b) && 2 < SharedEnd(SplitLines(a), SplitLines(b)) <= 4
    ensures r.TextDiff? && !r.capped && exists k :: 0 <= k < |ops| && Shown(r.hunks, k) && !NearChange(ops, k)
  {
    KeptIsCommon(ops);
    assert !TwoLines(r.hunks, ops);
    var k :| 0 <= k < |ops| && (Shown(r.hunks, k) <==> !NearChange(ops, k));
    assert Wanted(ops, k) || !NearChange(ops, k);
  }

  lemma {:induction false} NotTheSame(a: string, b: string)
    requires SplitLines(a) != SplitLines(b)
    ensures !SameText(a, b)
  {
    SameLinesIffSameText(a, b);
  }

  /** One line replaced in front of three others: all three are shown, the last of them three
      lines from the change. */
  method ThreeLinesShown() returns (r: TextDiff, ghost ops: seq<Op>)
    ensures r.TextDiff? && !r.capped && Turns(ops, ["x", "1", "2", "3"], ["y", "1", "2", "3"])
    ensures exists k :: 0 <= k < |ops| && Shown(r.hunks, k) && !NearChange(ops, k)
  {
    var a, b := "x\n1\n2\n3", "y\n1\n2\n3";
    FourLines("x");
    FourLines("y");
    assert "x" + "\n1\n2\n3" == a && "y" + "\n1\n2\n3" == b;
    ghost var al, bl := SplitLines(a), SplitLines(b);
    assert al[0][0] != bl[0][0];
    ThreeShared(al, bl);
    NotTheSame(a, b);
    r, ops := DiffText(a, b, 0);
    OneTooMany(a, b, r, ops);
  }
}
