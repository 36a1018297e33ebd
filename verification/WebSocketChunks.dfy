/** Exactly when it does not matter to the frame parser how a byte stream is cut into writes. */
module WebSocketChunks {
  import opened Bytes
  import opened Options
  import opened Seqs
  import opened WebSocket

  /** Equal in everything the parser emits or still holds. The truncation mark is left out:
      nothing reads it, and it does depend on the cuts. */
  ghost predicate Same(s: State, t: State) {
    s.(msgTrun := t.msgTrun) == t
  }

  /** No frame header in the stream declares more than 1 << 31 bytes. */
  ghost predicate NoOverlong(b: seq<byte>)
    decreases |b|
  {
    match ParseFrame(b)
    case Overlong => false
    case Complete(f) =>
      FrameFits(b);
      NoOverlong(b[f.total..])
    case _ => true
  }

  /** The first over-long header, if there is one, ends the stream: it takes ten bytes. */
  ghost predicate CutsSafe(b: seq<byte>)
    decreases |b|
  {
    match ParseFrame(b)
    case Overlong => |b| == 10
    case Complete(f) =>
      FrameFits(b);
      CutsSafe(b[f.total..])
    case _ => true
  }

  lemma {:induction false} NoOverlongIsSafe(b: seq<byte>)
    requires NoOverlong(b)
    ensures CutsSafe(b)
    decreases |b|
  {
    if ParseFrame(b).Complete? {
      FrameFits(b);
      NoOverlongIsSafe(b[ParseFrame(b).frame.total..]);
    }
  }

  lemma {:induction false} OverlongTakesTen(b: seq<byte>)
    requires ParseFrame(b).Overlong?
    ensures |b| >= 10
  {
    if |b| >= 4 { TwoByteLength(b[2..4]); }
  }

  lemma {:induction false} TwoByteLength(n: seq<byte>)
    requires |n| == 2
    ensures BigEndian(n) <= MAX_PAYLOAD
  {
    assert BigEndian(n) == 256 * BigEndian(Front(n)) + Last(n);
    assert BigEndian(Front(n)) == 256 * BigEndian([]) + n[0];
  }

  lemma {:induction false} DeliverSame(s: State, t: State, limit: int, f: Frame)
    requires Same(s, t)
    ensures Same(Deliver(s, limit, f), Deliver(t, limit, f))
  {
  }

  lemma {:induction false} DrainSame(s: State, t: State, limit: int)
    requires Same(s, t)
    ensures Same(Drain(s, limit), Drain(t, limit))
    decreases |s.buf|
  {
    if ParseFrame(s.buf).Complete? {
      var f := ParseFrame(s.buf).frame;
      FrameFits(s.buf);
      DeliverSame(s, t, limit, f);
      DrainSame(Deliver(s, limit, f).(buf := s.buf[f.total..]), Deliver(t, limit, f).(buf := s.buf[f.total..]), limit);
    }
  }

  lemma {:induction false} SliceOfPrefix(b: seq<byte>, y: seq<byte>, i: nat, j: nat)
    requires i <= j <= |b|
    ensures (b + y)[i..j] == b[i..j] && (b + y)[j..] == b[j..] + y
  {
  }

  lemma {:induction false} LengthOfPrefix(b: seq<byte>, y: seq<byte>)
    requires |b| >= 2 && DeclaredLength(b).Some?
    ensures DeclaredLength(b + y) == DeclaredLength(b) && DeclaredLength(b).value.1 <= |b|
  {
    if |b| >= 4 { SliceOfPrefix(b, y, 2, 4); }
    if |b| >= 10 { SliceOfPrefix(b, y, 2, 10); }
  }

  /** A frame, or an over-long header, is recognised whatever follows it. */
  lemma {:induction false} FrameOfPrefix(b: seq<byte>, y: seq<byte>)
    ensures ParseFrame(b).Complete? || ParseFrame(b).Overlong? ==> ParseFrame(b + y) == ParseFrame(b)
  {
    if |b| >= 2 && DeclaredLength(b).Some? {
      LengthOfPrefix(b, y);
      var (plen, off) := DeclaredLength(b).value;
      if 0 <= plen <= MAX_PAYLOAD {
        BodyOfPrefix(b, y, b[1] >= 128, plen, off);
      }
    }
  }

  lemma {:induction false} BodyOfPrefix(b: seq<byte>, y: seq<byte>, masked: bool, plen: nat, off: nat)
    requires |b| >= 2 && off <= |b|
    ensures ParseBody(b, masked, plen, off).Complete? ==>
              ParseBody(b + y, masked, plen, off) == ParseBody(b, masked, plen, off)
  {
    var start := if masked then off + 4 else off;
    if start <= |b| {
      if masked { SliceOfPrefix(b, y, off, start); }
      var key := if masked then b[off..start] else [];
      assert ParseBody(b, masked, plen, off) == ParsePayload(b, key, plen, start);
      assert ParseBody(b + y, masked, plen, off) == ParsePayload(b + y, key, plen, start);
      PayloadAsPrefix(b, y, key, plen, start);
    }
  }

  lemma {:induction false} PayloadAsPrefix(b: seq<byte>, y: seq<byte>, key: seq<byte>, plen: nat, start: nat)
    requires 2 <= |b| && start <= |b|
    ensures ParsePayload(b, key, plen, start).Complete? ==>
              ParsePayload(b + y, key, plen, start) == ParsePayload(b, key, plen, start)
  {
    if start + plen <= |b| {
      SliceOfPrefix(b, y, start, start + plen);
      assert (b + y)[0] == b[0];
    }
  }

  /** Draining, then adding bytes and draining again, is draining once with the bytes added. */
  lemma {:induction false} DrainTwice(s: State, limit: int, y: seq<byte>)
    requires CutsSafe(s.buf + y)
    ensures Same(Written(Drain(s, limit), limit, y), Written(s, limit, y))
    decreases |s.buf|
  {
    FrameOfPrefix(s.buf, y);
    match ParseFrame(s.buf)
    case NeedsHeader =>
    case NeedsPayload(declared) =>
      var t := s.(buf := s.buf + y);
      DrainSame(if declared > limit then t.(msgTrun := true) else t, t, limit);
    case Overlong =>
      OverlongTakesTen(s.buf);
      EmptyUnit(s.buf);
      NothingToDrain(s.(buf := []), limit);
    case Complete(f) =>
      FrameFits(s.buf);
      SliceOfPrefix(s.buf, y, 0, f.total);
      DeliverBuf(s, limit, f, s.buf + y);
      DrainTwice(Deliver(s, limit, f).(buf := s.buf[f.total..]), limit, y);
  }

  lemma {:induction false} NothingToDrain(s: State, limit: int)
    requires s.buf == []
    ensures Drain(s, limit) == s && NoOverlong([])
  {
    assert ParseFrame([]) == NeedsHeader;
  }

  /** The state after a list of writes. */
  function WrittenAll(s: State, limit: int, chunks: seq<seq<byte>>): State {
    if chunks == [] then s else Written(WrittenAll(s, limit, Front(chunks)), limit, Last(chunks))
  }

  function Joined(chunks: seq<seq<byte>>): seq<byte> {
    if chunks == [] then [] else Joined(Front(chunks)) + Last(chunks)
  }

  /** What is safe to cut has a front that is. */
  lemma {:induction false} SafePrefix(b: seq<byte>, y: seq<byte>)
    requires CutsSafe(b + y)
    ensures CutsSafe(b)
    decreases |b|
  {
    FrameOfPrefix(b, y);
    match ParseFrame(b)
    case Overlong =>
      OverlongTakesTen(b);
    case Complete(f) =>
      FrameFits(b);
      SliceOfPrefix(b, y, 0, f.total);
      SafePrefix(b[f.total..], y);
    case _ =>
  }

  /** Chunk independence. Any way of cutting the stream into writes emits the same messages
      and leaves the same bytes and the same unfinished message as one write. */
  lemma {:induction false} ChunksDoNotMatter(s: State, limit: int, chunks: seq<seq<byte>>)
    requires s.buf == [] && CutsSafe(Joined(chunks))
    ensures Same(WrittenAll(s, limit, chunks), Written(s, limit, Joined(chunks)))
    decreases |chunks|
  {
    if chunks == [] {
      assert ParseFrame([]) == NeedsHeader;
      EmptyUnit(s.buf);
    } else {
      var x, y := Joined(Front(chunks)), Last(chunks);
      SafePrefix(x, y);
      ChunksDoNotMatter(s, limit, Front(chunks));
      var p, q := WrittenAll(s, limit, Front(chunks)), Written(s, limit, x);
      DrainSame(p.(buf := p.buf + y), q.(buf := q.buf + y), limit);
      EmptyUnit(x);
      EmptyUnit(x + y);
      DrainTwice(s.(buf := x), limit, y);
    }
  }

  // ---- Where it stops ----------------------------------------------------------------

  /** At an over-long header the rest of the write is dropped, and the next write is parsed
      as if the stream began there. */
  lemma {:induction false} OverlongDropsTheRest(s: State, limit: int, x: seq<byte>, y: seq<byte>)
    requires s.buf == [] && ParseFrame(x).Overlong?
    ensures Written(s, limit, x + y) == s
    ensures Written(Written(s, limit, x), limit, y) == Written(s, limit, y)
  {
    EmptyUnit(x);
    EmptyUnit(x + y);
    EmptyUnit(y);
    FrameOfPrefix(x, y);
  }

  /** Behind an over-long header nothing stays in the buffer. */
  lemma {:induction false} OverlongEmptiesBuffer(s: State, limit: int)
    requires !NoOverlong(s.buf)
    ensures Drain(s, limit).buf == []
    decreases |s.buf|
  {
    if ParseFrame(s.buf).Complete? {
      var f := ParseFrame(s.buf).frame;
      FrameFits(s.buf);
      OverlongEmptiesBuffer(Deliver(s, limit, f).(buf := s.buf[f.total..]), limit);
    }
  }

  /** A frame is recognised by its own bytes alone. */
  lemma {:induction false} FrameAlone(b: seq<byte>, f: Frame)
    requires ParseFrame(b) == Complete(f)
    ensures f.total <= |b| && ParseFrame(b[..f.total]) == Complete(f)
  {
    FrameFits(b);
    var x, y := b[..f.total], b[f.total..];
    SplitAt(b, f.total);
    var (plen, off) := DeclaredLength(b).value;
    assert off + plen <= f.total;
    assert DeclaredLength(x).Some?;
    LengthOfPrefix(x, y);
    BodyAlone(x, y, b[1] >= 128, plen, off);
  }

  lemma {:induction false} BodyAlone(b: seq<byte>, y: seq<byte>, masked: bool, plen: nat, off: nat)
    requires |b| >= 2 && off <= |b|
    requires ParseBody(b + y, masked, plen, off).Complete? && ParseBody(b + y, masked, plen, off).frame.total == |b|
    ensures ParseBody(b, masked, plen, off) == ParseBody(b + y, masked, plen, off)
  {
    BodyOfPrefix(b, y, masked, plen, off);
  }

  lemma {:induction false} FirstTenSuffice(b: seq<byte>)
    requires |b| > 10 && ParseFrame(b).Overlong?
    ensures ParseFrame(Front(b)).Overlong?
  {
    FrontLast(b);
    LengthOfPrefix(Front(b), [Last(b)]);
  }

  lemma {:induction false} DropFrame(b: seq<byte>, y: seq<byte>)
    requires ParseFrame(b).Complete?
    ensures ParseFrame(b + y) == ParseFrame(b) && ParseFrame(b).frame.total <= |b|
    ensures (b + y)[ParseFrame(b).frame.total..] == b[ParseFrame(b).frame.total..] + y
  {
    FrameFits(b);
    FrameOfPrefix(b, y);
    SliceOfPrefix(b, y, 0, ParseFrame(b).frame.total);
  }

  /** A stream that goes on behind an over-long header still has it without the last byte. */
  lemma {:induction false} UnsafeWithoutLast(b: seq<byte>)
    requires !CutsSafe(b)
    ensures b != [] && !NoOverlong(b) && !NoOverlong(Front(b))
    decreases |b|
  {
    match ParseFrame(b)
    case Overlong =>
      OverlongTakesTen(b);
      FirstTenSuffice(b);
    case Complete(f) =>
      FrameFits(b);
      var rest := b[f.total..];
      UnsafeWithoutLast(rest);
      FrameWithoutLast(b, f);
    case _ =>
  }

  lemma {:induction false} FrameWithoutLast(b: seq<byte>, f: Frame)
    requires ParseFrame(b) == Complete(f) && f.total < |b|
    ensures ParseFrame(Front(b)) == ParseFrame(b) && Front(b)[f.total..] == Front(b[f.total..])
  {
    var x := b[..f.total];
    SplitAt(b, f.total);
    FrameAlone(b, f);
    FrontLastConcat(x, b[f.total..]);
    DropFrame(x, Front(b[f.total..]));
  }

  /** The chunks that tell an unsafe stream: all but the last byte, and the last byte. */
  lemma {:induction false} LastByteApart(s: State, limit: int, b: seq<byte>)
    requires s.buf == [] && !CutsSafe(b)
    ensures b != [] && Joined([Front(b), [Last(b)]]) == b
    ensures !Same(WrittenAll(s, limit, [Front(b), [Last(b)]]), Written(s, limit, b))
  {
    UnsafeWithoutLast(b);
    var x, y := Front(b), [Last(b)];
    TwoWrites(s, limit, x, y);
    FrontLast(b);
    EmptyUnit(x);
    EmptyUnit(b);
    EmptyUnit(y);
    OverlongEmptiesBuffer(s.(buf := x), limit);
    OverlongEmptiesBuffer(s.(buf := b), limit);
    var t := Written(s, limit, x);
    assert t.buf == [] && ParseFrame(y) == NeedsHeader;
    assert Written(t, limit, y).buf == y;
  }

  lemma {:induction false} TwoWrites(s: State, limit: int, x: seq<byte>, y: seq<byte>)
    ensures Joined([x, y]) == x + y
    ensures WrittenAll(s, limit, [x, y]) == Written(Written(s, limit, x), limit, y)
  {
    var two, one, none: seq<seq<byte>> := [x, y], [x], [];
    assert Front(two) == one && Last(two) == y && Front(one) == none && Last(one) == x;
    EmptyUnit(x);
    assert Joined(none) + x == x;
    assert WrittenAll(s, limit, none) == s;
  }

  /** The cuts never matter if and only if nothing follows the first over-long header. */
  lemma {:induction false} CutsNeverMatterIff(s: State, limit: int, b: seq<byte>)
    requires s.buf == []
    ensures (forall chunks :: Joined(chunks) == b ==> Same(WrittenAll(s, limit, chunks), Written(s, limit, b)))
            <==> CutsSafe(b)
  {
    if CutsSafe(b) {
      forall chunks | Joined(chunks) == b
        ensures Same(WrittenAll(s, limit, chunks), Written(s, limit, b))
      {
        ChunksDoNotMatter(s, limit, chunks);
      }
    } else {
      LastByteApart(s, limit, b);
    }
  }

  /** A binary frame that declares 1 << 63 bytes, which is negative as a signed number. */
  const HUGE_HEADER: seq<byte> := [130, 127, 128, 0, 0, 0, 0, 0, 0, 0]

  lemma {:induction false} HugeIsOverlong()
    ensures ParseFrame(HUGE_HEADER).Overlong? && CutsSafe(HUGE_HEADER) && !NoOverlong(HUGE_HEADER)
  {
    var h := HUGE_HEADER;
    var n: seq<byte> := [128, 0, 0, 0, 0, 0, 0, 0];
    assert h[2..10] == n;
    HugeNumber(n);
    assert DeclaredLength(h) == Some((ToInt64(BigEndian(n)), 10));
  }

  lemma {:induction false} HugeNumber(n: seq<byte>)
    requires n == [128, 0, 0, 0, 0, 0, 0, 0]
    ensures BigEndian(n) == TWO63
  {
    var a: seq<byte> := [128, 0, 0, 0];
    assert a == [128, 0, 0] + [0] && [128, 0, 0] == [128, 0] + [0 as byte] && [128, 0] == [128] + [0 as byte];
    BigEndianZero(n, [128, 0, 0, 0, 0, 0, 0]);
    BigEndianZero([128, 0, 0, 0, 0, 0, 0], [128, 0, 0, 0, 0, 0]);
    BigEndianZero([128, 0, 0, 0, 0, 0], [128, 0, 0, 0, 0]);
    BigEndianZero([128, 0, 0, 0, 0], a);
    BigEndianZero(a, [128, 0, 0]);
    BigEndianZero([128, 0, 0], [128, 0]);
    BigEndianZero([128, 0], [128]);
    assert BigEndian([128]) == 256 * BigEndian([]) + 128;
  }

  lemma {:induction false} BigEndianZero(b: seq<byte>, front: seq<byte>)
    requires b == front + [0]
    ensures BigEndian(b) == 256 * BigEndian(front)
  {
    FrontLastSnoc(front, 0);
  }

  lemma {:induction false} PingWritten(s: State, limit: int)
    requires s.buf == []
    ensures Written(s, limit, [137, 0]) == Emitted(s, 9, [], 0, false)
  {
    var y: seq<byte> := [137, 0];
    assert s.buf + y == y && y[2..2] == [] && y[2..] == [];
    var f := Frame(true, 9, false, [], 2);
    assert ParseFrame(y) == Complete(f);
    DrainStep(s.(buf := y), limit);
    NothingToDrain(Deliver(s.(buf := y), limit, f).(buf := []), limit);
  }

  /** That header followed by a ping: written at once the ping is lost, written apart it is
      emitted. The header alone is safe to cut anywhere. */
  lemma {:induction false} HugeHeaderThenPing(s: State, limit: int)
    requires s.buf == []
    ensures Written(s, limit, HUGE_HEADER + [137, 0]) == s
    ensures WrittenAll(s, limit, [HUGE_HEADER, [137, 0]]) == Emitted(s, 9, [], 0, false)
    ensures !CutsSafe(HUGE_HEADER + [137, 0]) && CutsSafe(HUGE_HEADER)
  {
    var x := HUGE_HEADER;
    var y: seq<byte> := [137, 0];
    HugeIsOverlong();
    OverlongDropsTheRest(s, limit, x, y);
    PingWritten(s, limit);
    TwoWrites(s, limit, x, y);
    FrameOfPrefix(x, y);
  }
}
