/** The incremental WebSocket frame parser (sections 5.2 to 5.4 of RFC 6455). */
module WebSocket {
  import opened Bytes
  import opened Options
  import opened Seqs

  const MAX_PAYLOAD := 0x8000_0000
  const TWO63 := 0x8000_0000_0000_0000
  const TWO64 := 0x1_0000_0000_0000_0000

  /** A captured message. */
  datatype WsMessage = WsMessage(seqNo: nat, opcode: int, payload: seq<byte>, len: nat, masked: bool)

  /** One frame, unmasked, and the number of bytes it took. */
  datatype Frame = Frame(fin: bool, op: int, masked: bool, payload: seq<byte>, total: nat)

  /** What the front of a buffer holds. */
  datatype Parsed = NeedsHeader | NeedsPayload(declared: int) | Overlong | Complete(frame: Frame)

  datatype State = State(buf: seq<byte>, seqNo: nat, msgOp: int, msg: seq<byte>, msgLen: nat, msgTrun: bool,
                         sink: seq<WsMessage>)

  function BigEndian(b: seq<byte>): nat {
    if b == [] then 0 else 256 * BigEndian(Front(b)) + Last(b)
  }

  /** Reads an unsigned 64-bit value as a signed one. */
  function ToInt64(u: nat): int {
    if u >= TWO63 then u - TWO64 else u
  }

  /** The declared payload length and where the header goes on, once those bytes are there. */
  function DeclaredLength(b: seq<byte>): Option<(int, nat)>
    requires |b| >= 2
  {
    var short := b[1] % 128;
    if short == 126 then (if |b| < 4 then None else Some((BigEndian(b[2..4]), 4)))
    else if short == 127 then (if |b| < 10 then None else Some((ToInt64(BigEndian(b[2..10])), 10)))
    else Some((short, 2))
  }

  /** The frame at the front of b. */
  function ParseFrame(b: seq<byte>): Parsed {
    if |b| < 2 then NeedsHeader
    else
      match DeclaredLength(b)
      case None => NeedsHeader
      case Some((plen, off)) =>
        if plen < 0 || plen > MAX_PAYLOAD then Overlong
        else ParseBody(b, b[1] >= 128, plen, off)
  }

  /** The masking key, if any, and the payload. */
  function ParseBody(b: seq<byte>, masked: bool, plen: nat, off: nat): Parsed
    requires |b| >= 2
  {
    var start := if masked then off + 4 else off;
    if |b| < start then NeedsHeader
    else ParsePayload(b, if masked then b[off..start] else [], plen, start)
  }

  /** The payload behind the header; an empty key means it is not masked. */
  function ParsePayload(b: seq<byte>, key: seq<byte>, plen: nat, start: nat): Parsed
    requires 2 <= |b| && start <= |b|
  {
    if |b| < start + plen then NeedsPayload(plen)
    else
      var raw := b[start..start + plen];
      Complete(Frame(b[0] >= 128, b[0] % 16, |key| == 4, if |key| == 4 then Masked(raw, key) else raw, start + plen))
  }

  // ---- The parser as a function of its state -----------------------------------------

  function AppendPayload(s: State, limit: int, payload: seq<byte>): State {
    var room := limit - |s.msg|;
    if room <= 0 then s.(msgLen := s.msgLen + |payload|, msgTrun := true)
    else if |payload| > room then
      s.(msgLen := s.msgLen + |payload|, msg := s.msg + payload[..room], msgTrun := true)
    else s.(msgLen := s.msgLen + |payload|, msg := s.msg + payload)
  }

  function Emitted(s: State, op: int, payload: seq<byte>, size: nat, masked: bool): State {
    s.(seqNo := s.seqNo + 1, sink := s.sink + [WsMessage(s.seqNo + 1, op, payload, size, masked)])
  }

  function Reset(s: State): State {
    s.(msg := [], msgLen := 0, msgTrun := false)
  }

  /** What one complete frame does to the message state. */
  function Deliver(s: State, limit: int, f: Frame): State {
    if f.op == 8 || f.op == 9 || f.op == 10 then Emitted(s, f.op, f.payload, |f.payload|, f.masked)
    else
      var t := AppendPayload(Opened(s, f.op), limit, f.payload);
      if f.fin then Reset(Emitted(t, t.msgOp, t.msg, t.msgLen, f.masked)) else t
  }

  /** Parses and delivers complete frames until none is left at the front. */
  function Drain(s: State, limit: int): State
    decreases |s.buf|
  {
    match ParseFrame(s.buf)
    case NeedsHeader => s
    case NeedsPayload(declared) => if declared > limit then s.(msgTrun := true) else s
    case Overlong => s.(buf := [])
    case Complete(f) =>
      FrameFits(s.buf);
      Drain(Deliver(s, limit, f).(buf := s.buf[f.total..]), limit)
  }

  lemma {:induction false} FrameFits(b: seq<byte>)
    ensures ParseFrame(b).Complete? ==> 2 <= ParseFrame(b).frame.total <= |b|
  {
  }

  lemma {:induction false} AppendBuf(t: State, limit: int, payload: seq<byte>, b: seq<byte>)
    ensures AppendPayload(t.(buf := b), limit, payload) == AppendPayload(t, limit, payload).(buf := b)
  {
  }

  /** The message so far, or an empty one where a new one begins. */
  function Opened(s: State, op: int): State {
    if op == 0 then s else Reset(s.(msgOp := op))
  }

  lemma {:induction false} OpenedBuf(s: State, op: int, b: seq<byte>)
    ensures Opened(s.(buf := b), op) == Opened(s, op).(buf := b)
  {
  }

  /** Delivering neither reads nor changes the buffer. */
  lemma {:induction false} DeliverBuf(s: State, limit: int, f: Frame, b: seq<byte>)
    ensures Deliver(s.(buf := b), limit, f) == Deliver(s, limit, f).(buf := b)
  {
    OpenedBuf(s, f.op, b);
    AppendBuf(Opened(s, f.op), limit, f.payload, b);
  }

  lemma {:induction false} DeliverKeepsBuf(s: State, limit: int, f: Frame)
    ensures Deliver(s, limit, f).buf == s.buf
  {
  }

  lemma {:induction false} DrainStep(s: State, limit: int)
    requires ParseFrame(s.buf).Complete?
    ensures ParseFrame(s.buf).frame.total <= |s.buf|
    ensures var f := ParseFrame(s.buf).frame;
            Drain(s, limit) == Drain(Deliver(s, limit, f).(buf := s.buf[f.total..]), limit)
  {
    FrameFits(s.buf);
  }

  function Written(s: State, limit: int, b: seq<byte>): State {
    Drain(s.(buf := s.buf + b), limit)
  }

  // ---- The parser --------------------------------------------------------------------

  class FrameParser {
    const limit: int
    var buf: seq<byte>
    var seqNo: nat
    var msgOp: int
    var msg: seq<byte>
    var msgLen: nat
    var msgTrun: bool
    var sink: seq<WsMessage>

    function Current(): State reads this {
      State(buf, seqNo, msgOp, msg, msgLen, msgTrun, sink)
    }

    constructor (limit: int)
      ensures Current() == State([], 0, 0, [], 0, false, []) && this.limit == limit
    {
      this.limit := limit;
      buf, seqNo, msgOp, msg, msgLen, msgTrun, sink := [], 0, 0, [], 0, false, [];
    }

    method Write(b: seq<byte>) returns (n: nat)
      modifies this
      ensures n == |b| && Current() == Written(old(Current()), limit, b)
    {
      buf := buf + b;
      ghost var start := Current();
      var ok := true;
      while ok
        invariant Drain(start, limit) == if ok then Drain(Current(), limit) else Current()
        decreases |buf|, ok
      {
        ok := Advance();
      }
      n := |b|;
    }

    /** Parses one frame and takes its bytes off the buffer. */
    method Advance() returns (ok: bool)
      modifies this
      ensures ok ==> |buf| < |old(buf)| && Drain(Current(), limit) == Drain(old(Current()), limit)
      ensures !ok ==> |buf| <= |old(buf)| && Current() == Drain(old(Current()), limit)
    {
      var consumed;
      FrameFits(buf);
      consumed, ok := ParseOne();
      if ok {
        DrainStep(old(Current()), limit);
        buf := buf[consumed..];
      }
    }

    /** Handles the frame at the front of the buffer once all of it has come in; its bytes stay. */
    method ParseOne() returns (consumed: nat, ok: bool)
      modifies this
      ensures ok <==> ParseFrame(old(buf)).Complete?
      ensures ok ==> consumed == ParseFrame(old(buf)).frame.total && buf == old(buf)
      ensures ok ==> Current() == Deliver(old(Current()), limit, ParseFrame(old(buf)).frame)
      ensures !ok ==> |buf| <= |old(buf)| && Current() == Drain(old(Current()), limit)
    {
      if |buf| < 2 { return 0, false; }
      var masked := buf[1] >= 128;
      var plen: int := buf[1] % 128;
      var off := 2;
      if plen == 126 {
        if |buf| < 4 { return 0, false; }
        plen := BigEndian(buf[2..4]);
        off := 4;
      } else if plen == 127 {
        if |buf| < 10 { return 0, false; }
        plen := ToInt64(BigEndian(buf[2..10]));
        off := 10;
      }
      assert DeclaredLength(buf) == Some((plen, off));
      if plen < 0 || plen > MAX_PAYLOAD {
        buf := [];
        return 0, false;
      }
      consumed, ok := ParseRest(masked, plen, off);
    }

    method ParseRest(masked: bool, plen: nat, start: nat) returns (consumed: nat, ok: bool)
      requires |buf| >= 2 && |buf| >= start && ParseFrame(buf) == ParseBody(buf, masked, plen, start)
      modifies this
      ensures ok <==> ParseFrame(old(buf)).Complete?
      ensures ok ==> consumed == ParseFrame(old(buf)).frame.total && buf == old(buf)
      ensures ok ==> Current() == Deliver(old(Current()), limit, ParseFrame(old(buf)).frame)
      ensures !ok ==> buf == old(buf) && Current() == Drain(old(Current()), limit)
    {
      var off, mask := start, [];
      if masked {
        if |buf| < off + 4 { return 0, false; }
        mask := buf[off..off + 4];
        off := off + 4;
      }
      consumed, ok := ParseLast(mask, plen, off);
    }

    method ParseLast(mask: seq<byte>, plen: nat, off: nat) returns (consumed: nat, ok: bool)
      requires 2 <= |buf| && off <= |buf| && ParseFrame(buf) == ParsePayload(buf, mask, plen, off)
      modifies this
      ensures ok <==> ParseFrame(old(buf)).Complete?
      ensures ok ==> consumed == ParseFrame(old(buf)).frame.total && buf == old(buf)
      ensures ok ==> Current() == Deliver(old(Current()), limit, ParseFrame(old(buf)).frame)
      ensures !ok ==> buf == old(buf) && Current() == Drain(old(Current()), limit)
    {
      if |buf| < off + plen {
        assert ParseFrame(old(Current()).buf) == NeedsPayload(plen);
        if plen > limit { msgTrun := true; }
        return 0, false;
      }
      var payload := buf[off..off + plen];
      if |mask| == 4 {
        payload := Unmask(payload, mask);
      }
      ghost var f := ParseFrame(buf).frame;
      DeliverKeepsBuf(Current(), limit, f);
      DeliverFrame(buf[0] >= 128, buf[0] % 16, |mask| == 4, payload, off + plen);
      return off + plen, true;
    }

    method DeliverFrame(fin: bool, op: int, masked: bool, payload: seq<byte>, ghost total: nat)
      modifies this
      ensures Current() == Deliver(old(Current()), limit, Frame(fin, op, masked, payload, total))
    {
      if op == 8 || op == 9 || op == 10 {
        Emit(op, payload, |payload|, masked);
      } else if op == 0 {
        Append(payload);
        if fin {
          Emit(msgOp, msg, msgLen, masked);
          msg, msgLen, msgTrun := [], 0, false;
        }
      } else {
        msgOp := op;
        msg, msgLen, msgTrun := [], 0, false;
        Append(payload);
        if fin {
          Emit(op, msg, msgLen, masked);
          msg, msgLen, msgTrun := [], 0, false;
        }
      }
    }

    method Append(payload: seq<byte>)
      modifies this
      ensures Current() == AppendPayload(old(Current()), limit, payload)
    {
      msgLen := msgLen + |payload|;
      var room := limit - |msg|;
      if room <= 0 {
        msgTrun := true;
        return;
      }
      var part := payload;
      if |part| > room {
        part := part[..room];
        msgTrun := true;
      }
      msg := msg + part;
    }

    method Emit(op: int, payload: seq<byte>, size: nat, masked: bool)
      modifies this
      ensures Current() == Emitted(old(Current()), op, payload, size, masked)
    {
      seqNo := seqNo + 1;
      sink := sink + [WsMessage(seqNo, op, payload, size, masked)];
    }
  }
}
