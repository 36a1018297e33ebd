/** Edit scripts over lines: what it means to turn one list of lines into another. */
module EditScript {
  import opened CommonSubsequence
  import opened Seqs

  type Line = string

  datatype Kind = Keep | Delete | Insert

  /** One line of a script; aIdx and bIdx are the positions reached on each side. */
  datatype Op = Op(kind: Kind, text: Line, aIdx: nat, bIdx: nat)

  /** The lines a script consumes. */
  function OldSide(ops: seq<Op>): seq<Line> {
    if ops == [] then [] else
      if Last(ops).kind == Insert then OldSide(Front(ops)) else OldSide(Front(ops)) + [Last(ops).text]
  }

  /** The lines a script produces. */
  function NewSide(ops: seq<Op>): seq<Line> {
    if ops == [] then [] else
      if Last(ops).kind == Delete then NewSide(Front(ops)) else NewSide(Front(ops)) + [Last(ops).text]
  }

  /** The lines a script leaves alone. */
  function Kept(ops: seq<Op>): seq<Line> {
    if ops == [] then [] else
      if Last(ops).kind == Keep then Kept(Front(ops)) + [Last(ops).text] else Kept(Front(ops))
  }

  /** The number of '+' and '-' lines. */
  function Changes(ops: seq<Op>): nat {
    if ops == [] then 0 else
      Changes(Front(ops)) + if Last(ops).kind == Keep then 0 else 1
  }

  /** How many unchanged lines there are behind the last change. */
  function TailRun(ops: seq<Op>): nat {
    if ops == [] || Last(ops).kind != Keep then 0 else 1 + TailRun(Front(ops))
  }

  predicate EndsInInsert(ops: seq<Op>) {
    ops != [] && Last(ops).kind == Insert
  }

  /** Among changed lines that follow each other, those deleted come before those inserted. */
  predicate DeletesFirst(ops: seq<Op>) {
    ops == [] || (DeletesFirst(Front(ops)) && (Last(ops).kind == Delete ==> !EndsInInsert(Front(ops))))
  }

  /** Every op carries the number of lines of each side consumed before it. */
  ghost predicate Positioned(ops: seq<Op>) {
    ops == [] ||
    (Positioned(Front(ops)) && Last(ops).aIdx == |OldSide(Front(ops))| && Last(ops).bIdx == |NewSide(Front(ops))|)
  }

  lemma {:induction false} PositionOfOp(ops: seq<Op>, k: nat)
    requires Positioned(ops) && k < |ops|
    ensures ops[k].aIdx == |OldSide(ops[..k])| && ops[k].bIdx == |NewSide(ops[..k])|
  {
    if k < |ops| - 1 {
      PositionOfOp(Front(ops), k);
      FrontTake(ops, k);
    } else {
      assert ops[..k] == Front(ops);
    }
  }

  ghost predicate Turns(ops: seq<Op>, a: seq<Line>, b: seq<Line>) {
    OldSide(ops) == a && NewSide(ops) == b && Positioned(ops)
  }

  /** Appending one op. */
  lemma {:induction false} Append(ops: seq<Op>, op: Op)
    ensures OldSide(ops + [op]) == if op.kind == Insert then OldSide(ops) else OldSide(ops) + [op.text]
    ensures NewSide(ops + [op]) == if op.kind == Delete then NewSide(ops) else NewSide(ops) + [op.text]
    ensures Changes(ops + [op]) == Changes(ops) + if op.kind == Keep then 0 else 1
    ensures TailRun(ops + [op]) == if op.kind == Keep then TailRun(ops) + 1 else 0
    ensures Positioned(ops) && op.aIdx == |OldSide(ops)| && op.bIdx == |NewSide(ops)|
            ==> Positioned(ops + [op])
    ensures EndsInInsert(ops + [op]) == (op.kind == Insert)
    ensures DeletesFirst(ops + [op]) == (DeletesFirst(ops) && (op.kind == Delete ==> !EndsInInsert(ops)))
  {
    FrontLastSnoc(ops, op);
  }

  /** Both sides are concatenations over the parts of a script. */
  lemma {:induction false} Concat(x: seq<Op>, y: seq<Op>)
    ensures OldSide(x + y) == OldSide(x) + OldSide(y)
    ensures NewSide(x + y) == NewSide(x) + NewSide(y)
    ensures Changes(x + y) == Changes(x) + Changes(y)
    decreases |y|
  {
    if y == [] {
      EmptyUnit(x);
    } else {
      Concat(x, Front(y));
      FrontLastConcat(x, y);
      SnocOfSnoc(OldSide(x), OldSide(Front(y)), Last(y).text);
      SnocOfSnoc(NewSide(x), NewSide(Front(y)), Last(y).text);
    }
  }

  lemma {:induction false} SubsequenceSnoc(c: seq<Line>, a: seq<Line>, z: Line)
    requires IsSubsequence(c, a)
    ensures IsSubsequence(c, a + [z]) && IsSubsequence(c + [z], a + [z])
    decreases |a|
  {
    if a == [] {
      assert c + [z] == [z];
    } else {
      assert (a + [z])[1..] == a[1..] + [z];
      if IsSubsequence(c, a[1..]) {
        SubsequenceSnoc(c, a[1..], z);
      } else if c != [] {
        SubsequenceSnoc(c[1..], a[1..], z);
        assert (c + [z])[1..] == c[1..] + [z];
      }
    }
  }

  lemma {:induction false} KeptIsCommon(ops: seq<Op>)
    ensures IsSubsequence(Kept(ops), OldSide(ops)) && IsSubsequence(Kept(ops), NewSide(ops))
    ensures Changes(ops) == |OldSide(ops)| + |NewSide(ops)| - 2 * |Kept(ops)|
  {
    if ops != [] {
      KeptIsCommon(Front(ops));
      SubsequenceSnoc(Kept(Front(ops)), OldSide(Front(ops)), Last(ops).text);
      SubsequenceSnoc(Kept(Front(ops)), NewSide(Front(ops)), Last(ops).text);
    }
  }

  /** No script whatever turns a into b with fewer changed lines. */
  lemma {:induction false} FewestChanges(ops: seq<Op>, a: seq<Line>, b: seq<Line>)
    requires OldSide(ops) == a && NewSide(ops) == b
    ensures Changes(ops) >= |a| + |b| - 2 * Lcs(a, b)
  {
    KeptIsCommon(ops);
    LcsIsUpperBound(Kept(ops), a, b);
  }
}
