/** The truncation mark of the frame parser: the one thing that depends on the cuts even where
    no header is over-long, and exactly when it does. */
module WebSocketMarks {
  import opened Bytes
  import opened Options
  import opened Seqs
  import opened WebSocket
  import opened WebSocketChunks

  ghost predicate IsControl(f: Frame) {
    f.op == 8 || f.op == 9 || f.op == 10
  }

  /** Whether behind frame f the mark may be set although one write would not have set it; early
      says whether it may be in front of f. A cut inside a long control frame sets it; a new or
      a finished message clears it. */
  ghost predicate EarlyBehind(limit: int, f: Frame, early: bool) {
    if IsControl(f) then early || (|f.payload| > limit && f.payload != [])
    else f.op == 0 && !f.fin && early
  }

  /** The same behind all complete frames of a stream. */
  ghost predicate Early(b: seq<byte>, limit: int, early: bool)
    decreases |b|
  {
    match ParseFrame(b)
    case Complete(f) =>
      FrameFits(b);
      Early(b[f.total..], limit, EarlyBehind(limit, f, early))
    case _ => early
  }

  /** p is q, but for a mark that may have been set early. */
  ghost predicate Ahead(p: State, q: State, early: bool) {
    Same(p, q) && (q.msgTrun ==> p.msgTrun) && (p.msgTrun ==> q.msgTrun || early)
  }

  lemma {:induction false} DeliverMarks(p: State, q: State, limit: int, f: Frame, early: bool)
    requires Ahead(p, q, early)
    ensures Ahead(Deliver(p, limit, f), Deliver(q, limit, f), EarlyBehind(limit, f, early))
  {
  }

  /** A mark set before a long frame was complete is accounted for behind it. */
  lemma {:induction false} LongFrameMarks(p: State, q: State, limit: int, f: Frame, early: bool)
    requires Ahead(p, q, true) && |f.payload| > limit && f.payload != []
    ensures Ahead(Deliver(p, limit, f), Deliver(q, limit, f), EarlyBehind(limit, f, early))
  {
  }

  lemma {:induction false} DrainMarks(p: State, q: State, limit: int, early: bool)
    requires Ahead(p, q, early)
    ensures Ahead(Drain(p, limit), Drain(q, limit), Early(q.buf, limit, early))
    decreases |q.buf|
  {
    if ParseFrame(q.buf).Complete? {
      var f := ParseFrame(q.buf).frame;
      FrameFits(q.buf);
      DeliverMarks(p, q, limit, f, early);
      DrainMarks(Deliver(p, limit, f).(buf := q.buf[f.total..]), Deliver(q, limit, f).(buf := q.buf[f.total..]),
                 limit, EarlyBehind(limit, f, early));
    }
  }

  lemma {:induction false} PayloadSize(b: seq<byte>, key: seq<byte>, plen: nat, start: nat)
    requires 2 <= |b| && start + plen <= |b|
    ensures ParsePayload(b, key, plen, start).Complete?
    ensures |ParsePayload(b, key, plen, start).frame.payload| == plen
    ensures ParsePayload(b, key, plen, start).frame.total == start + plen
  {
    if |key| == 4 { MaskedLength(b[start..start + plen], key); }
  }

  /** A frame of which the header is there is completed with the payload it declares. */
  lemma {:induction false} PayloadOfPrefix(b: seq<byte>, y: seq<byte>)
    requires ParseFrame(b).NeedsPayload?
    ensures ParseFrame(b).declared > 0
    ensures ParseFrame(b + y) == ParseFrame(b)
            || (ParseFrame(b + y).Complete? && |ParseFrame(b + y).frame.payload| == ParseFrame(b).declared)
  {
    LengthOfPrefix(b, y);
    var (plen, off) := DeclaredLength(b).value;
    var masked := b[1] >= 128;
    var start := if masked then off + 4 else off;
    if masked { SliceOfPrefix(b, y, off, off + 4); }
    if start + plen <= |b + y| {
      PayloadSize(b + y, if masked then b[off..start] else [], plen, start);
    }
  }

  lemma {:induction false} PendingMarks(s: State, limit: int, y: seq<byte>, early: bool)
    requires ParseFrame(s.buf).NeedsPayload?
    ensures Ahead(Written(Drain(s, limit), limit, y), Written(s, limit, y), Early(s.buf + y, limit, early))
  {
    var d := ParseFrame(s.buf).declared;
    PayloadOfPrefix(s.buf, y);
    if d > limit && ParseFrame(s.buf + y).Complete? {
      var b := s.buf + y;
      var f := ParseFrame(b).frame;
      var p, q := s.(msgTrun := true, buf := b), s.(buf := b);
      DrainStep(p, limit);
      DrainStep(q, limit);
      LongFrameMarks(p, q, limit, f, early);
      DrainMarks(Deliver(p, limit, f).(buf := b[f.total..]), Deliver(q, limit, f).(buf := b[f.total..]),
                 limit, EarlyBehind(limit, f, early));
    }
  }

  lemma {:induction false} DrainTwiceMarks(s: State, limit: int, y: seq<byte>, early: bool)
    requires CutsSafe(s.buf + y)
    ensures Ahead(Written(Drain(s, limit), limit, y), Written(s, limit, y), Early(s.buf + y, limit, early))
    decreases |s.buf|
  {
    FrameOfPrefix(s.buf, y);
    match ParseFrame(s.buf)
    case NeedsHeader =>
    case NeedsPayload(_) =>
      PendingMarks(s, limit, y, early);
    case Overlong =>
      OverlongTakesTen(s.buf);
      EmptyUnit(s.buf);
      NothingToDrain(s.(buf := []), limit);
    case Complete(f) =>
      DropFrame(s.buf, y);
      FrameFits(s.buf);
      DeliverBuf(s, limit, f, s.buf + y);
      DrainTwiceMarks(Deliver(s, limit, f).(buf := s.buf[f.total..]), limit, y, EarlyBehind(limit, f, early));
  }

  /** Early goes on from the bytes that were left. */
  lemma {:induction false} EarlyTwice(s: State, limit: int, y: seq<byte>, early: bool)
    requires CutsSafe(s.buf + y)
    ensures Early(Drain(s, limit).buf + y, limit, Early(s.buf, limit, early)) == Early(s.buf + y, limit, early)
    decreases |s.buf|
  {
    FrameOfPrefix(s.buf, y);
    match ParseFrame(s.buf)
    case Overlong =>
      OverlongTakesTen(s.buf);
      EmptyUnit(s.buf);
      NothingToDrain(s.(buf := []), limit);
    case Complete(f) =>
      DropFrame(s.buf, y);
      FrameFits(s.buf);
      EarlyTwice(Deliver(s, limit, f).(buf := s.buf[f.total..]), limit, y, EarlyBehind(limit, f, early));
    case _ =>
  }

  /** However the stream is cut, the mark is there if one write sets it, and otherwise only
      where that is foreseen. */
  lemma {:induction false} MarksForeseen(s: State, limit: int, chunks: seq<seq<byte>>)
    requires s.buf == [] && CutsSafe(Joined(chunks))
    ensures Ahead(WrittenAll(s, limit, chunks), Written(s, limit, Joined(chunks)),
                  Early(Joined(chunks), limit, false))
    decreases |chunks|
  {
    if chunks == [] {
      assert ParseFrame([]) == NeedsHeader;
      EmptyUnit(s.buf);
    } else {
      var x, y := Joined(Front(chunks)), Last(chunks);
      SafePrefix(x, y);
      MarksForeseen(s, limit, Front(chunks));
      var p, q := WrittenAll(s, limit, Front(chunks)), Written(s, limit, x);
      EmptyUnit(x);
      EmptyUnit(x + y);
      var u := s.(buf := x);
      DrainMarks(p.(buf := p.buf + y), q.(buf := q.buf + y), limit, Early(x, limit, false));
      EarlyTwice(u, limit, y, false);
      DrainTwiceMarks(u, limit, y, false);
    }
  }

  // ---- The cut that sets it ----------------------------------------------------------

  /** Without its last byte a frame with a payload waits for that payload. */
  lemma {:induction false} LastByteMissing(b: seq<byte>, f: Frame)
    requires ParseFrame(b) == Complete(f) && f.payload != []
    ensures 0 < f.total <= |b| && ParseFrame(b[..f.total - 1]) == NeedsPayload(|f.payload|)
  {
    FrameFits(b);
    var (plen, off) := DeclaredLength(b).value;
    var masked := b[1] >= 128;
    var start := if masked then off + 4 else off;
    PayloadSize(b, if masked then b[off..start] else [], plen, start);
    var x := b[..f.total - 1];
    SplitAt(b, f.total - 1);
    assert DeclaredLength(x).Some?;
    LengthOfPrefix(x, b[f.total - 1..]);
  }

  /** A mark that may be early, and could not have come later, is still there at the end. */
  lemma {:induction false} MarkStays(s: State, limit: int)
    requires s.msgTrun && Early(s.buf, limit, true) && !Early(s.buf, limit, false)
    ensures Drain(s, limit).msgTrun
    decreases |s.buf|
  {
    if ParseFrame(s.buf).Complete? {
      var f := ParseFrame(s.buf).frame;
      FrameFits(s.buf);
      MarkStays(Deliver(s, limit, f).(buf := s.buf[f.total..]), limit);
    }
  }

  /** Written in two, cut at k, the stream leaves the mark set. */
  ghost predicate CutMarks(s: State, limit: int, b: seq<byte>, k: nat) {
    k <= |b| && Written(Drain(s.(buf := b[..k]), limit), limit, b[k..]).msgTrun
  }

  /** Cut in front of the last byte of the long control frame the stream begins with. */
  lemma {:induction false} CutInsideFrame(s: State, limit: int, b: seq<byte>, f: Frame)
    requires ParseFrame(b) == Complete(f) && IsControl(f) && |f.payload| > limit && f.payload != []
    requires 0 < f.total <= |b| && Early(b[f.total..], limit, true) && !Early(b[f.total..], limit, false)
    ensures CutMarks(s, limit, b, f.total - 1)
  {
    var x, y := b[..f.total - 1], b[f.total - 1..];
    SplitAt(b, f.total - 1);
    LastByteMissing(b, f);
    var t := s.(buf := x, msgTrun := true);
    assert Drain(s.(buf := x), limit) == t;
    var u := t.(buf := b);
    DrainStep(u, limit);
    MarkStays(Deliver(u, limit, f).(buf := b[f.total..]), limit);
  }

  lemma {:induction false} FrameThenCut(s: State, limit: int, b: seq<byte>, f: Frame, t: State, rest: seq<byte>, j: nat)
    requires ParseFrame(b) == Complete(f) && f.total <= |b| && rest == b[f.total..]
    requires t == Deliver(s, limit, f) && CutMarks(t, limit, rest, j)
    ensures CutMarks(s, limit, b, f.total + j)
  {
    DropMore(b, f.total, j);
    TakeThenTake(b, f.total, j);
    DrainOneMore(s, limit, b[..f.total], f, rest[..j], b[..f.total + j]);
    FrameAlone(b, f);
  }

  /** A frame and what follows it drained. */
  lemma {:induction false} DrainOneMore(s: State, limit: int, x: seq<byte>, f: Frame, z: seq<byte>, y: seq<byte>)
    requires y == x + z && |x| == f.total
    ensures ParseFrame(x) == Complete(f) ==>
              Drain(s.(buf := y), limit) == Drain(Deliver(s, limit, f).(buf := z), limit)
  {
    if ParseFrame(x) == Complete(f) {
      DropFrame(x, z);
      assert y[f.total..] == z;
      DrainStep(s.(buf := y), limit);
      DeliverBuf(s, limit, f, y);
    }
  }

  lemma {:induction false} TakeThenTake(b: seq<byte>, n: nat, j: nat)
    requires n + j <= |b|
    ensures b[..n + j] == b[..n] + b[n..][..j]
  {
  }

  /** An early mark comes from the first frame, or from the frames behind it. */
  lemma {:induction false} EarlyFrame(b: seq<byte>, limit: int, f: Frame, rest: seq<byte>)
    requires ParseFrame(b) == Complete(f) && f.total <= |b| && rest == b[f.total..] && Early(b, limit, false)
    requires !Early(rest, limit, false)
    ensures IsControl(f) && |f.payload| > limit && f.payload != [] && Early(rest, limit, true)
  {
  }

  lemma {:induction false} EarlyHasFrame(b: seq<byte>, limit: int)
    requires Early(b, limit, false)
    ensures ParseFrame(b).Complete? && 2 <= ParseFrame(b).frame.total <= |b|
  {
    FrameFits(b);
  }

  /** Where an early mark is possible, some cut in two makes it. */
  lemma {:induction false} SomeCutMarks(s: State, limit: int, b: seq<byte>) returns (k: nat)
    requires Early(b, limit, false)
    ensures CutMarks(s, limit, b, k)
    decreases |b|
  {
    EarlyHasFrame(b, limit);
    var f := ParseFrame(b).frame;
    var rest := b[f.total..];
    if Early(rest, limit, false) {
      var t := Deliver(s, limit, f);
      var j := SomeCutMarks(t, limit, rest);
      k := f.total + j;
      FrameThenCut(s, limit, b, f, t, rest, j);
    } else {
      k := f.total - 1;
      CutFirst(s, limit, b, f, rest);
    }
  }

  lemma {:induction false} CutFirst(s: State, limit: int, b: seq<byte>, f: Frame, rest: seq<byte>)
    requires ParseFrame(b) == Complete(f) && 2 <= f.total <= |b| && rest == b[f.total..]
    requires Early(b, limit, false) && !Early(rest, limit, false)
    ensures CutMarks(s, limit, b, f.total - 1)
  {
    EarlyFrame(b, limit, f, rest);
    CutInsideFrame(s, limit, b, f);
  }

  // ---- The mark one write sets -------------------------------------------------------

  /** How much of the message is captured behind frame f, and whether more was dropped. */
  function MarkBehind(limit: int, f: Frame, captured: nat, mark: bool): (nat, bool) {
    if f.op == 8 || f.op == 9 || f.op == 10 then (captured, mark)
    else if f.fin then (0, false)
    else
      var had := if f.op == 0 then captured else 0;
      var room := limit - had;
      if room <= 0 then (had, true)
      else if |f.payload| > room then (limit, true)
      else (had + |f.payload|, f.op == 0 && mark)
  }

  /** The mark behind a stream written at once: that of its complete frames, or set by a frame
      still to come that declares more than the limit. */
  function MarkAtOnce(b: seq<byte>, limit: int, captured: nat, mark: bool): bool
    decreases |b|
  {
    match ParseFrame(b)
    case NeedsHeader => mark
    case NeedsPayload(declared) => mark || declared > limit
    case Overlong => mark
    case Complete(f) =>
      FrameFits(b);
      var (c, m) := MarkBehind(limit, f, captured, mark);
      MarkAtOnce(b[f.total..], limit, c, m)
  }

  lemma {:induction false} MarkDelivered(s: State, limit: int, f: Frame)
    ensures var t := Deliver(s, limit, f); MarkBehind(limit, f, |s.msg|, s.msgTrun) == (|t.msg|, t.msgTrun)
  {
  }

  lemma {:induction false} MarkAtOnceIs(s: State, limit: int)
    ensures Drain(s, limit).msgTrun == MarkAtOnce(s.buf, limit, |s.msg|, s.msgTrun)
    decreases |s.buf|
  {
    if ParseFrame(s.buf).Complete? {
      var f := ParseFrame(s.buf).frame;
      FrameFits(s.buf);
      MarkDelivered(s, limit, f);
      MarkAtOnceIs(Deliver(s, limit, f).(buf := s.buf[f.total..]), limit);
    }
  }

  /** The parser ends in the very same state for all cuts, the truncation mark included, if and
      only if nothing follows an over-long header, and the stream sets the mark when written at
      once or no control frame longer than the limit leaves it set. */
  lemma {:induction false} StateNeverDependsIff(s: State, limit: int, b: seq<byte>)
    requires s.buf == []
    ensures (forall chunks :: Joined(chunks) == b ==> WrittenAll(s, limit, chunks) == Written(s, limit, b))
       <==> CutsSafe(b) && (MarkAtOnce(b, limit, |s.msg|, s.msgTrun) || !Early(b, limit, false))
  {
    EmptyUnit(b);
    MarkAtOnceIs(s.(buf := b), limit);
    if !CutsSafe(b) {
      LastByteApart(s, limit, b);
    } else if Early(b, limit, false) && !Written(s, limit, b).msgTrun {
      var k := SomeCutMarks(s, limit, b);
      var x, y := b[..k], b[k..];
      SplitAt(b, k);
      TwoWrites(s, limit, x, y);
      EmptyUnit(x);
      var chunks := [x, y];
      assert Joined(chunks) == b && WrittenAll(s, limit, chunks).msgTrun;
    } else {
      forall chunks | Joined(chunks) == b
        ensures WrittenAll(s, limit, chunks) == Written(s, limit, b)
      {
        MarksForeseen(s, limit, chunks);
      }
    }
  }

  const ONE_BYTE_PING: seq<byte> := [137, 1, 7]

  lemma {:induction false} PingFrame()
    ensures ParseFrame(ONE_BYTE_PING) == Complete(Frame(true, 9, false, [7], 3))
  {
    var b := ONE_BYTE_PING;
    assert b[0] == 137 && b[1] == 1 && |b| == 3;
    assert b[2..3] == [7];
    assert DeclaredLength(b) == Some((1, 2));
    assert ParseFrame(b) == ParseBody(b, false, 1, 2) == ParsePayload(b, [], 1, 2);
  }

  /** A ping of one byte at limit zero is such a stream. */
  lemma {:induction false} OneBytePing(s: State)
    requires s.buf == [] && !s.msgTrun
    ensures !Written(s, 0, ONE_BYTE_PING).msgTrun
    ensures WrittenAll(s, 0, [ONE_BYTE_PING[..2], ONE_BYTE_PING[2..]]).msgTrun
  {
    var b := ONE_BYTE_PING;
    var f := Frame(true, 9, false, [7], 3);
    PingFrame();
    var u := s.(buf := b);
    assert s.buf + b == b && b[3..] == [];
    DrainStep(u, 0);
    NothingToDrain(Deliver(u, 0, f).(buf := []), 0);
    NothingToDrain(s, 0);
    CutInsideFrame(s, 0, b, f);
    TwoWrites(s, 0, b[..2], b[2..]);
    EmptyUnit(b[..2]);
  }
}
