/** The line diff: trim the common ends, fill an LCS table for the middle, walk it greedily. */
module LineDiff {
  import opened CommonSubsequence
  import opened EditScript
  import opened Seqs

  const DIFF_MAX_CELLS := 4_000_000

  newtype int32 = x: int | -0x8000_0000 <= x < 0x8000_0000

  /** How many first lines two texts share. */
  function PrefixLen(a: seq<Line>, b: seq<Line>): (k: nat)
    ensures k <= |a| && k <= |b| && a[..k] == b[..k]
    ensures k < |a| && k < |b| ==> a[k] != b[k]
  {
    if a == [] || b == [] || a[0] != b[0] then 0
    else
      var k := PrefixLen(a[1..], b[1..]);
      assert a[..k + 1] == [a[0]] + a[1..][..k] && b[..k + 1] == [b[0]] + b[1..][..k];
      k + 1
  }

  /** How many last lines two texts share. */
  function SuffixLen(a: seq<Line>, b: seq<Line>): (k: nat)
    ensures k <= |a| && k <= |b|
  {
    if a == [] || b == [] || Last(a) != Last(b) then 0 else SuffixLen(Front(a), Front(b)) + 1
  }

  lemma {:induction false} SuffixIsShared(a: seq<Line>, b: seq<Line>)
    ensures Tail(a, SuffixLen(a, b)) == Tail(b, SuffixLen(a, b))
  {
    if a != [] && b != [] && Last(a) == Last(b) {
      SuffixIsShared(Front(a), Front(b));
      TailOfFront(a, SuffixLen(Front(a), Front(b)));
      TailOfFront(b, SuffixLen(Front(a), Front(b)));
    }
  }

  /** The lines in front of those differ. */
  lemma {:induction false} SuffixStops(a: seq<Line>, b: seq<Line>)
    ensures var k := SuffixLen(a, b); k < |a| && k < |b| ==> a[|a| - 1 - k] != b[|b| - 1 - k]
  {
    if a != [] && b != [] && Last(a) == Last(b) { SuffixStops(Front(a), Front(b)); }
  }

  /** How many last lines two texts share behind the first ones they share. */
  function SharedEnd(a: seq<Line>, b: seq<Line>): nat {
    SuffixLen(a[PrefixLen(a, b)..], b[PrefixLen(a, b)..])
  }

  /** What trimming leaves of the two sides. */
  function Middles(a: seq<Line>, b: seq<Line>): (m: (seq<Line>, seq<Line>)) {
    var pre := PrefixLen(a, b);
    var suf := SuffixLen(a[pre..], b[pre..]);
    (a[pre..|a| - suf], b[pre..|b| - suf])
  }

  lemma {:induction false} MiddlesAre(a: seq<Line>, b: seq<Line>, pre: nat, suf: nat)
    requires pre == PrefixLen(a, b) && suf == SuffixLen(a[pre..], b[pre..])
    ensures Middles(a, b) == (a[pre..|a| - suf], b[pre..|b| - suf])
  {
  }

  lemma {:induction false} SharedTail(a: seq<Line>, b: seq<Line>, pre: nat, suf: nat)
    requires pre == PrefixLen(a, b) && suf == SuffixLen(a[pre..], b[pre..])
    ensures Tail(a, suf) == Tail(b, suf)
  {
    SuffixIsShared(a[pre..], b[pre..]);
    TailOfDrop(a, pre, suf);
    TailOfDrop(b, pre, suf);
  }

  /** Both sides are the shared prefix, their middle, and the shared suffix. */
  lemma {:induction false} Trimmed(a: seq<Line>, b: seq<Line>, pre: nat, suf: nat)
    requires pre == PrefixLen(a, b) && suf == SuffixLen(a[pre..], b[pre..])
    ensures a[..pre] == b[..pre] && Tail(a, suf) == Tail(b, suf)
    ensures a == a[..pre] + Middles(a, b).0 + Tail(a, suf)
    ensures b == a[..pre] + Middles(a, b).1 + Tail(a, suf)
  {
    SharedTail(a, b, pre, suf);
    MiddlesAre(a, b, pre, suf);
    SplitEnds(a, pre, suf);
    SplitEnds(b, pre, suf);
  }

  /** What trimming leaves of different texts is not nothing, and ends differently. */
  lemma {:induction false} MiddlesDiffer(a: seq<Line>, b: seq<Line>, pre: nat, suf: nat)
    requires a != b && pre == PrefixLen(a, b) && suf == SuffixLen(a[pre..], b[pre..])
    ensures pre + suf < |a| || pre + suf < |b|
    ensures pre + suf < |a| && pre + suf < |b| ==> a[|a| - 1 - suf] != b[|b| - 1 - suf]
  {
    SuffixStops(a[pre..], b[pre..]);
    if pre + suf == |a| == |b| {
      SharedTail(a, b, pre, suf);
      SplitAt(a, pre);
      SplitAt(b, pre);
    }
  }

  /** Not both are empty, and they end differently. */
  predicate EndsDiffer(ma: seq<Line>, mb: seq<Line>) {
    (ma != [] || mb != []) && (ma != [] && mb != [] ==> Last(ma) != Last(mb))
  }

  lemma {:induction false} MiddlesEnd(a: seq<Line>, b: seq<Line>)
    requires a != b
    ensures EndsDiffer(Middles(a, b).0, Middles(a, b).1)
  {
    var pre := PrefixLen(a, b);
    MiddlesDiffer(a, b, pre, SuffixLen(a[pre..], b[pre..]));
  }

  /** The unchanged lines that end a script end both sides. */
  lemma {:induction false} TailIsShared(ops: seq<Op>)
    ensures TailRun(ops) <= SuffixLen(OldSide(ops), NewSide(ops))
  {
    if ops != [] && Last(ops).kind == Keep {
      TailIsShared(Front(ops));
      FrontLastSnoc(OldSide(Front(ops)), Last(ops).text);
      FrontLastSnoc(NewSide(Front(ops)), Last(ops).text);
    }
  }

  /** Trimming loses no optimality: the shared ends add their full length to the LCS. */
  lemma {:induction false} TrimmingKeepsLcs(a: seq<Line>, b: seq<Line>)
    ensures var (ma, mb) := Middles(a, b);
            |a| - |ma| == |b| - |mb| && Lcs(a, b) == |a| - |ma| + Lcs(ma, mb)
  {
    var (ma, mb) := Middles(a, b);
    var pre := PrefixLen(a, b);
    var suf := SuffixLen(a[pre..], b[pre..]);
    Trimmed(a, b, pre, suf);
    LcsBetween(a[..pre], ma, mb, Tail(a, suf));
  }

  lemma {:induction false} CellsBoundSide(n: nat, m: nat)
    requires n > 0 && m > 0 && n * m <= DIFF_MAX_CELLS
    ensures n <= DIFF_MAX_CELLS && m <= DIFF_MAX_CELLS
  {
    assert n <= n * m by { assert n * 1 <= n * m; }
    assert m <= n * m by { assert 1 * m <= n * m; }
  }

  /** The value of cell (i, j): the LCS recurrence by position. */
  ghost function Cell(ma: seq<Line>, mb: seq<Line>, i: nat, j: nat): nat
    requires i <= |ma| && j <= |mb|
    decreases |ma| - i + |mb| - j
  {
    if i == |ma| || j == |mb| then 0
    else if ma[i] == mb[j] then Cell(ma, mb, i + 1, j + 1) + 1
    else Max(Cell(ma, mb, i + 1, j), Cell(ma, mb, i, j + 1))
  }

  lemma {:induction false} CellIsLcs(ma: seq<Line>, mb: seq<Line>, i: nat, j: nat)
    requires i <= |ma| && j <= |mb|
    ensures Cell(ma, mb, i, j) == Lcs(ma[i..], mb[j..])
    decreases |ma| - i + |mb| - j
  {
    if i < |ma| && j < |mb| {
      assert ma[i..][1..] == ma[i + 1..] && mb[j..][1..] == mb[j + 1..];
      CellIsLcs(ma, mb, i + 1, j + 1);
      CellIsLcs(ma, mb, i + 1, j);
      CellIsLcs(ma, mb, i, j + 1);
    }
  }

  lemma {:induction false} CellBound(ma: seq<Line>, mb: seq<Line>, i: nat, j: nat)
    requires i <= |ma| && j <= |mb|
    ensures Cell(ma, mb, i, j) <= |mb| - j
    decreases |ma| - i + |mb| - j
  {
    if i < |ma| && j < |mb| {
      CellBound(ma, mb, i + 1, j + 1);
      CellBound(ma, mb, i + 1, j);
      CellBound(ma, mb, i, j + 1);
    }
  }

  ghost predicate Shaped(table: array2<int32>, ma: seq<Line>, mb: seq<Line>) {
    table.Length0 == |ma| + 1 && table.Length1 == |mb| + 1
  }

  /** Row r is final from column j on. */
  ghost predicate RowSolved(table: array2<int32>, ma: seq<Line>, mb: seq<Line>, r: nat, j: nat)
    requires Shaped(table, ma, mb) && r <= |ma|
    reads table
  {
    forall c :: j <= c <= |mb| ==> table[r, c] as int == Cell(ma, mb, r, c)
  }

  /** Fills row i, given row i + 1. No cell overflows 32 bits. */
  method FillRow(table: array2<int32>, ma: seq<Line>, mb: seq<Line>, i: nat)
    requires Shaped(table, ma, mb) && i < |ma| && |mb| <= DIFF_MAX_CELLS
    requires RowSolved(table, ma, mb, i + 1, 0) && table[i, |mb|] == 0
    modifies table
    ensures RowSolved(table, ma, mb, i, 0)
    ensures forall r, c :: 0 <= r <= |ma| && 0 <= c <= |mb| && r != i ==> table[r, c] == old(table[r, c])
  {
    var j := |mb|;
    while j > 0
      invariant 0 <= j <= |mb|
      invariant RowSolved(table, ma, mb, i + 1, 0) && RowSolved(table, ma, mb, i, j)
      invariant forall r, c :: 0 <= r <= |ma| && 0 <= c <= |mb| && r != i ==> table[r, c] == old(table[r, c])
    {
      j := j - 1;
      CellBound(ma, mb, i + 1, j + 1);
      if ma[i] == mb[j] {
        table[i, j] := table[i + 1, j + 1] + 1;
      } else {
        table[i, j] := if table[i + 1, j] >= table[i, j + 1] then table[i + 1, j] else table[i, j + 1];
      }
    }
  }

  /** Fills the whole table, last row first. */
  method FillTable(ma: seq<Line>, mb: seq<Line>) returns (table: array2<int32>)
    requires ma != [] && mb != [] && |ma| * |mb| <= DIFF_MAX_CELLS
    ensures Shaped(table, ma, mb) && forall r :: 0 <= r <= |ma| ==> RowSolved(table, ma, mb, r, 0)
  {
    var n, m := |ma|, |mb|;
    CellsBoundSide(n, m);
    table := new int32[n + 1, m + 1]((i, j) => 0);
    var i := n;
    while i > 0
      invariant 0 <= i <= n
      invariant forall r :: i <= r <= n ==> RowSolved(table, ma, mb, r, 0)
      invariant forall r :: 0 <= r <= n ==> table[r, m] == 0
    {
      i := i - 1;
      label before:
      FillRow(table, ma, mb, i);
      forall r | i < r <= n ensures RowSolved(table, ma, mb, r, 0) {
        assert old@before(RowSolved(table, ma, mb, r, 0));
      }
    }
  }

  /** The script ops' is ops with lines of one kind behind it. */
  ghost predicate Emitted(ops: seq<Op>, ops': seq<Op>, kind: Kind, lines: seq<Line>) {
    && Positioned(ops')
    && OldSide(ops') == (if kind == Insert then OldSide(ops) else OldSide(ops) + lines)
    && NewSide(ops') == (if kind == Delete then NewSide(ops) else NewSide(ops) + lines)
    && Changes(ops') == Changes(ops) + (if kind == Keep then 0 else |lines|)
    && TailRun(ops')
    == (if kind == Keep then TailRun(ops) + |lines| else if lines == [] then TailRun(ops) else 0)
    && InOrder(ops, ops', kind, lines == [])
  }

  /** Lines of one kind behind a script keep its deletions first, if they are not deletions behind
      an insertion. */
  predicate InOrder(ops: seq<Op>, ops': seq<Op>, kind: Kind, none: bool) {
    && EndsInInsert(ops') == (if none then EndsInInsert(ops) else kind == Insert)
    && (DeletesFirst(ops) && (none || kind != Delete || !EndsInInsert(ops)) ==> DeletesFirst(ops'))
  }

  lemma {:induction false} EmittedNone(ops: seq<Op>, kind: Kind)
    requires Positioned(ops)
    ensures Emitted(ops, ops, kind, [])
  {
    EmptyUnit(OldSide(ops));
    EmptyUnit(NewSide(ops));
  }

  lemma {:induction false} EmittedMore(ops: seq<Op>, x: seq<Op>, y: seq<Op>, kind: Kind, lines: seq<Line>, k: nat)
    requires k < |lines| && Emitted(ops, x, kind, lines[..k]) && Emitted(x, y, kind, [lines[k]])
    ensures Emitted(ops, y, kind, lines[..k + 1])
  {
    ExtendTake(OldSide(ops), lines, k);
    ExtendTake(NewSide(ops), lines, k);
  }

  /** Appends one op at the current positions and advances them. */
  method Emit(ops: seq<Op>, kind: Kind, text: Line, ai: nat, bi: nat) returns (ops': seq<Op>, ai': nat, bi': nat)
    requires Positioned(ops) && ai == |OldSide(ops)| && bi == |NewSide(ops)|
    ensures Emitted(ops, ops', kind, [text]) && ai' == |OldSide(ops')| && bi' == |NewSide(ops')|
  {
    Append(ops, Op(kind, text, ai, bi));
    ops' := ops + [Op(kind, text, ai, bi)];
    ai', bi' := ai, bi;
    if kind != Insert { ai' := ai' + 1; }
    if kind != Delete { bi' := bi' + 1; }
  }

  /** Emits every line of one side with the same kind. */
  method EmitAll(ops: seq<Op>, kind: Kind, lines: seq<Line>, ai: nat, bi: nat)
    returns (ops': seq<Op>, ai': nat, bi': nat)
    requires Positioned(ops) && ai == |OldSide(ops)| && bi == |NewSide(ops)|
    ensures Emitted(ops, ops', kind, lines) && ai' == |OldSide(ops')| && bi' == |NewSide(ops')|
  {
    ops', ai', bi' := ops, ai, bi;
    EmittedNone(ops, kind);
    var k := 0;
    assert lines[..k] == [];
    while k < |lines|
      invariant 0 <= k <= |lines| && Emitted(ops, ops', kind, lines[..k])
      invariant ai' == |OldSide(ops')| && bi' == |NewSide(ops')|
    {
      ghost var before := ops';
      ops', ai', bi' := Emit(ops', kind, lines[k], ai', bi');
      EmittedMore(ops, before, ops', kind, lines, k);
      k := k + 1;
    }
    TakeAll(lines);
  }

  /** The lines of both sides consumed and the changes made, i and j lines into the middle. */
  ghost predicate Walked(ops: seq<Op>, ops': seq<Op>, ma: seq<Line>, mb: seq<Line>, i: nat, j: nat) {
    && i <= |ma| && j <= |mb|
    && Positioned(ops')
    && OldSide(ops') == OldSide(ops) + ma[..i]
    && NewSide(ops') == NewSide(ops) + mb[..j]
    && Changes(ops') == Changes(ops) + i + j - 2 * (Cell(ma, mb, 0, 0) - Cell(ma, mb, i, j))
  }

  /** Once the table has chosen an insertion, it goes on with insertions until a line is kept. */
  ghost predicate InsertsAhead(ma: seq<Line>, mb: seq<Line>, i: nat, j: nat)
    requires i <= |ma| && j <= |mb|
  {
    i < |ma| && 0 < j && Cell(ma, mb, i + 1, j - 1) < Cell(ma, mb, i, j)
  }

  /** Next to each other, cells differ by at most one. */
  lemma {:induction false} CellFalls(ma: seq<Line>, mb: seq<Line>, i: nat, j: nat)
    requires i <= |ma| && j <= |mb|
    ensures j < |mb| ==> Cell(ma, mb, i, j + 1) <= Cell(ma, mb, i, j) <= Cell(ma, mb, i, j + 1) + 1
    ensures i < |ma| ==> Cell(ma, mb, i + 1, j) <= Cell(ma, mb, i, j) <= Cell(ma, mb, i + 1, j) + 1
    decreases |ma| - i + |mb| - j
  {
    if i < |ma| { CellFalls(ma, mb, i + 1, j); }
    if j < |mb| { CellFalls(ma, mb, i, j + 1); }
  }

  /** So no deletion follows an insertion. */
  lemma {:induction false} NoDeleteAhead(ma: seq<Line>, mb: seq<Line>, i: nat, j: nat)
    requires i <= |ma| && j <= |mb| && InsertsAhead(ma, mb, i, j)
    ensures j < |mb| && (ma[i] == mb[j] || Cell(ma, mb, i + 1, j) < Cell(ma, mb, i, j + 1))
  {
    CellFalls(ma, mb, i + 1, j - 1);
  }

  ghost predicate InTurn(ops: seq<Op>, ma: seq<Line>, mb: seq<Line>, i: nat, j: nat)
    requires i <= |ma| && j <= |mb|
  {
    DeletesFirst(ops) && (EndsInInsert(ops) ==> InsertsAhead(ma, mb, i, j))
  }

  /** One step of the walk: the choice the table makes. */
  method WalkStep(ghost ops: seq<Op>, ops0: seq<Op>, table: array2<int32>, ma: seq<Line>, mb: seq<Line>,
                  i: nat, j: nat, ai: nat, bi: nat)
    returns (ops': seq<Op>, i': nat, j': nat, ai': nat, bi': nat)
    requires Shaped(table, ma, mb) && i < |ma| && j < |mb|
    requires RowSolved(table, ma, mb, i, 0) && RowSolved(table, ma, mb, i + 1, 0)
    requires Walked(ops, ops0, ma, mb, i, j) && ai == |OldSide(ops0)| && bi == |NewSide(ops0)|
    requires InTurn(ops0, ma, mb, i, j)
    ensures Walked(ops, ops', ma, mb, i', j') && ai' == |OldSide(ops')| && bi' == |NewSide(ops')|
    ensures InTurn(ops', ma, mb, i', j')
    ensures i <= i' && j <= j' && i + j < i' + j'
  {
    if EndsInInsert(ops0) { NoDeleteAhead(ma, mb, i, j); }
    ExtendTake(OldSide(ops), ma, i);
    ExtendTake(NewSide(ops), mb, j);
    i', j' := i, j;
    if ma[i] == mb[j] {
      ops', ai', bi' := Emit(ops0, Keep, ma[i], ai, bi);
      i', j' := i + 1, j + 1;
    } else if table[i + 1, j] >= table[i, j + 1] {
      ops', ai', bi' := Emit(ops0, Delete, ma[i], ai, bi);
      i' := i + 1;
    } else {
      ops', ai', bi' := Emit(ops0, Insert, mb[j], ai, bi);
      j' := j + 1;
    }
  }

  /** Solves the middle with the table. */
  method WalkTable(ops: seq<Op>, ma: seq<Line>, mb: seq<Line>, ai: nat, bi: nat)
    returns (ops': seq<Op>, ai': nat, bi': nat)
    requires ma != [] && mb != [] && |ma| * |mb| <= DIFF_MAX_CELLS
    requires Positioned(ops) && ai == |OldSide(ops)| && bi == |NewSide(ops)|
    requires DeletesFirst(ops) && !EndsInInsert(ops)
    ensures Positioned(ops') && ai' == |OldSide(ops')| && bi' == |NewSide(ops')|
    ensures OldSide(ops') == OldSide(ops) + ma && NewSide(ops') == NewSide(ops) + mb
    ensures Changes(ops') == Changes(ops) + |ma| + |mb| - 2 * Lcs(ma, mb) && DeletesFirst(ops')
  {
    var table := FillTable(ma, mb);
    ops', ai', bi' := ops, ai, bi;
    var i, j := 0, 0;
    EmptyUnit(OldSide(ops));
    EmptyUnit(NewSide(ops));
    while i < |ma| && j < |mb|
      invariant 0 <= i <= |ma| && 0 <= j <= |mb| && Walked(ops, ops', ma, mb, i, j)
      invariant InTurn(ops', ma, mb, i, j)
      invariant ai' == |OldSide(ops')| && bi' == |NewSide(ops')|
      invariant forall r :: 0 <= r <= |ma| ==> RowSolved(table, ma, mb, r, 0)
      decreases |ma| - i + |mb| - j
    {
      assert RowSolved(table, ma, mb, i, 0) && RowSolved(table, ma, mb, i + 1, 0);
      ops', i, j, ai', bi' := WalkStep(ops, ops', table, ma, mb, i, j, ai', bi');
    }
    ops', ai', bi' := EmitRest(ops, ops', ma, mb, i, j, ai', bi');
  }

  /** When one side is used up, the rest of the other is all changes. */
  method EmitRest(ghost ops: seq<Op>, ops0: seq<Op>, ma: seq<Line>, mb: seq<Line>, i: nat, j: nat, ai: nat, bi: nat)
    returns (ops': seq<Op>, ai': nat, bi': nat)
    requires Walked(ops, ops0, ma, mb, i, j) && (i == |ma| || j == |mb|)
    requires ai == |OldSide(ops0)| && bi == |NewSide(ops0)| && InTurn(ops0, ma, mb, i, j)
    ensures Positioned(ops') && ai' == |OldSide(ops')| && bi' == |NewSide(ops')|
    ensures OldSide(ops') == OldSide(ops) + ma && NewSide(ops') == NewSide(ops) + mb
    ensures Changes(ops') == Changes(ops) + |ma| + |mb| - 2 * Lcs(ma, mb) && DeletesFirst(ops')
  {
    if EndsInInsert(ops0) { NoDeleteAhead(ma, mb, i, j); }
    JoinTake(OldSide(ops), ma, i);
    JoinTake(NewSide(ops), mb, j);
    CellIsLcs(ma, mb, 0, 0);
    TakeAll(ma);
    TakeAll(mb);
    ops', ai', bi' := EmitAll(ops0, Delete, ma[i..], ai, bi);
    ops', ai', bi' := EmitAll(ops', Insert, mb[j..], ai', bi');
  }

  /** Emits the shared first lines. */
  method TrimPrefix(a: seq<Line>, b: seq<Line>) returns (ops: seq<Op>, pre: nat)
    ensures pre == PrefixLen(a, b) && Turns(ops, a[..pre], b[..pre]) && Changes(ops) == 0
    ensures DeletesFirst(ops) && !EndsInInsert(ops)
  {
    pre := 0;
    ops := [];
    assert a[0..] == a && b[0..] == b;
    while pre < |a| && pre < |b| && a[pre] == b[pre]
      invariant 0 <= pre <= |a| && pre <= |b| && PrefixLen(a, b) == pre + PrefixLen(a[pre..], b[pre..])
      invariant Turns(ops, a[..pre], b[..pre]) && Changes(ops) == 0 && DeletesFirst(ops) && !EndsInInsert(ops)
    {
      Append(ops, Op(Keep, a[pre], pre, pre));
      TakeSnoc(a, pre);
      TakeSnoc(b, pre);
      DropMore(a, pre, 1);
      DropMore(b, pre, 1);
      ops := ops + [Op(Keep, a[pre], pre, pre)];
      pre := pre + 1;
    }
  }

  /** Counts the shared last lines behind the prefix. */
  method TrimSuffix(a: seq<Line>, b: seq<Line>, pre: nat) returns (suf: nat)
    requires pre <= |a| && pre <= |b|
    ensures suf == SuffixLen(a[pre..], b[pre..])
  {
    suf := 0;
    ghost var x, y := a[pre..], b[pre..];
    assert x[..|x|] == x && y[..|y|] == y;
    while suf < |a| - pre && suf < |b| - pre && a[|a| - 1 - suf] == b[|b| - 1 - suf]
      invariant 0 <= suf <= |x| && suf <= |y|
      invariant SuffixLen(x, y) == suf + SuffixLen(x[..|x| - suf], y[..|y| - suf])
    {
      assert Front(x[..|x| - suf]) == x[..|x| - suf - 1] && Front(y[..|y| - suf]) == y[..|y| - suf - 1];
      suf := suf + 1;
    }
  }

  /** Emits the middle: with the table if it fits the budget, as one block replaced by another if
      not. Middles that end differently end in a change. */
  method EmitMiddle(ops: seq<Op>, ma: seq<Line>, mb: seq<Line>, ai: nat, bi: nat)
    returns (ops': seq<Op>, ai': nat, bi': nat)
    requires Positioned(ops) && ai == |OldSide(ops)| && bi == |NewSide(ops)|
    requires DeletesFirst(ops) && !EndsInInsert(ops)
    ensures Positioned(ops') && ai' == |OldSide(ops')| && bi' == |NewSide(ops')| && DeletesFirst(ops')
    ensures OldSide(ops') == OldSide(ops) + ma && NewSide(ops') == NewSide(ops) + mb
    ensures |ma| * |mb| > DIFF_MAX_CELLS ==> Changes(ops') == Changes(ops) + |ma| + |mb|
    ensures |ma| * |mb| <= DIFF_MAX_CELLS ==> Changes(ops') == Changes(ops) + |ma| + |mb| - 2 * Lcs(ma, mb)
    ensures EndsDiffer(ma, mb) ==> TailRun(ops') == 0
  {
    LcsZeroIffDisjoint(ma, mb);
    if |ma| * |mb| > DIFF_MAX_CELLS || |ma| == 0 || |mb| == 0 {
      ops', ai', bi' := EmitAll(ops, Delete, ma, ai, bi);
      ops', ai', bi' := EmitAll(ops', Insert, mb, ai', bi');
      assert |ma| == 0 || |mb| == 0 ==> |ma| * |mb| == 0;
    } else {
      ops', ai', bi' := WalkTable(ops, ma, mb, ai, bi);
      TailIsShared(ops');
      FrontLastConcat(OldSide(ops), ma);
      FrontLastConcat(NewSide(ops), mb);
    }
  }

  /** The shared last lines behind the middle complete the script. */
  lemma {:induction false} Completes(a: seq<Line>, b: seq<Line>, pre: nat, suf: nat, ma: seq<Line>, mb: seq<Line>,
        tail: seq<Line>, ops: seq<Op>, ops': seq<Op>)
    requires pre == PrefixLen(a, b) && suf == SuffixLen(a[pre..], b[pre..]) && (ma, mb) == Middles(a, b)
    requires OldSide(ops) == a[..pre] + ma && NewSide(ops) == b[..pre] + mb
    requires tail == Tail(a, suf) && Emitted(ops, ops', Keep, tail)
    ensures Turns(ops', a, b) && Changes(ops') == Changes(ops) && TailRun(ops') == TailRun(ops) + SharedEnd(a, b)
  {
    Trimmed(a, b, pre, suf);
  }

  /** Emits the shared last lines. */
  method EmitEnd(ops: seq<Op>, a: seq<Line>, ghost b: seq<Line>, ghost pre: nat, suf: nat, ghost ma: seq<Line>,
        ghost mb: seq<Line>, ai: nat, bi: nat)
    returns (ops': seq<Op>)
    requires Positioned(ops) && ai == |OldSide(ops)| && bi == |NewSide(ops)|
    requires pre == PrefixLen(a, b) && suf == SuffixLen(a[pre..], b[pre..]) && (ma, mb) == Middles(a, b)
    requires OldSide(ops) == a[..pre] + ma && NewSide(ops) == b[..pre] + mb
    ensures Turns(ops', a, b) && Changes(ops') == Changes(ops) && TailRun(ops') == TailRun(ops) + SharedEnd(a, b)
    ensures DeletesFirst(ops) ==> DeletesFirst(ops')
  {
    var tail := a[|a| - suf..];
    var ai', bi';
    ops', ai', bi' := EmitAll(ops, Keep, tail, ai, bi);
    Completes(a, b, pre, suf, ma, mb, tail, ops, ops');
  }

  /** How many changes there are, against the fewest possible. */
  lemma {:induction false} AgainstFewest(a: seq<Line>, b: seq<Line>, changes: nat)
    requires var (ma, mb) := Middles(a, b);
             changes == |ma| + |mb| - if |ma| * |mb| > DIFF_MAX_CELLS then 0 else 2 * Lcs(ma, mb)
    ensures var (ma, mb) := Middles(a, b);
            && (|ma| * |mb| <= DIFF_MAX_CELLS ==> changes == |a| + |b| - 2 * Lcs(a, b))
            && (changes == |a| + |b| - 2 * Lcs(a, b) <==> |ma| * |mb| <= DIFF_MAX_CELLS || !SharesElement(ma, mb))
  {
    var (ma, mb) := Middles(a, b);
    TrimmingKeepsLcs(a, b);
    LcsZeroIffDisjoint(ma, mb);
  }

  /** The diff. Its script turns a into b; it is a smallest one exactly when the trimmed
      middle is small enough for the table or its two sides share no line. It ends in as many
      unchanged lines as the texts share at the end, and its deletions come before the insertions
      they stand beside. */
  method DiffLines(a: seq<Line>, b: seq<Line>) returns (ops: seq<Op>)
    ensures Turns(ops, a, b) && DeletesFirst(ops)
    ensures var (ma, mb) := Middles(a, b);
            && (|ma| * |mb| <= 4_000_000 ==> Changes(ops) == |a| + |b| - 2 * Lcs(a, b))
            && (|ma| * |mb| > 4_000_000 ==> Changes(ops) == |ma| + |mb|)
    ensures var (ma, mb) := Middles(a, b);
            Changes(ops) == |a| + |b| - 2 * Lcs(a, b)
            <==> (|ma| * |mb| <= 4_000_000 || !SharesElement(ma, mb))
    ensures a != b ==> TailRun(ops) == SharedEnd(a, b)
  {
    var pre;
    ops, pre := TrimPrefix(a, b);
    var suf := TrimSuffix(a, b, pre);
    var ma, mb := a[pre..|a| - suf], b[pre..|b| - suf];
    MiddlesAre(a, b, pre, suf);
    if a != b { MiddlesEnd(a, b); }

    var ai, bi := pre, pre;
    ops, ai, bi := EmitMiddle(ops, ma, mb, ai, bi);
    AgainstFewest(a, b, Changes(ops));
    ops := EmitEnd(ops, a, b, pre, suf, ma, mb, ai, bi);
  }

  // ---- A diff that is not the smallest ----------------------------------------------

  /** 2001 lines, all the same but the one in the middle. */
  function Big(line: Line): seq<Line> {
    seq(2001, i => if i == 1000 then "middle" else line)
  }

  lemma {:induction false} NothingTrimmed(a: seq<Line>, b: seq<Line>)
    requires a != [] && b != [] && a[0] != b[0] && Last(a) != Last(b)
    ensures Middles(a, b) == (a, b)
  {
    assert a[0..] == a && b[0..] == b && a[0..|a|] == a && b[0..|b|] == b;
  }

  /** Texts over the budget that share a line: the diff replaces everything, two changes or
      more above the smallest. */
  method OverBudget() returns (ops: seq<Op>)
    ensures Turns(ops, Big("a"), Big("b"))
    ensures Changes(ops) == 4002 > |Big("a")| + |Big("b")| - 2 * Lcs(Big("a"), Big("b"))
  {
    var a, b := Big("a"), Big("b");
    NothingTrimmed(a, b);
    SharedMiddle(a, b);
    ops := DiffLines(a, b);
  }

  lemma {:induction false} SharedMiddle(a: seq<Line>, b: seq<Line>)
    requires |a| > 1000 && |b| > 1000 && a[1000] == b[1000]
    ensures SharesElement(a, b) && Lcs(a, b) > 0
  {
    LcsZeroIffDisjoint(a, b);
  }
}
