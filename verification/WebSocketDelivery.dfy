/** Reassembly inverts framing. */
module WebSocketDelivery {
  import opened Bytes
  import opened Seqs
  import opened WebSocket
  import opened WebSocketChunks
  import opened WebSocketFraming

  /** The frames delivered one after the other. */
  ghost function DeliverAll(s: State, limit: int, fs: seq<WireFrame>): State
    requires AllSendable(fs)
  {
    if fs == [] then s else Deliver(DeliverAll(s, limit, Front(fs)), limit, Decoded(Last(fs)))
  }

  lemma {:induction false} SendableConcat(x: seq<WireFrame>, y: seq<WireFrame>)
    ensures AllSendable(x + y) <==> AllSendable(x) && AllSendable(y)
    decreases |y|
  {
    if y == [] {
      EmptyUnit(x);
    } else {
      FrontLastConcat(x, y);
      SendableConcat(x, Front(y));
    }
  }

  lemma {:induction false} DeliverConcat(s: State, limit: int, x: seq<WireFrame>, y: seq<WireFrame>)
    requires AllSendable(x) && AllSendable(y)
    ensures AllSendable(x + y)
    ensures DeliverAll(s, limit, x + y) == DeliverAll(DeliverAll(s, limit, x), limit, y)
    decreases |y|
  {
    SendableConcat(x, y);
    if y == [] {
      EmptyUnit(x);
    } else {
      FrontLastConcat(x, y);
      DeliverConcat(s, limit, x, Front(y));
    }
  }

  /** Encoded frames are drained one by one, and what follows them is drained after. */
  lemma {:induction false} DrainEncoded(s: State, limit: int, fs: seq<WireFrame>, rest: seq<byte>)
    requires AllSendable(fs) && s.buf == EncodeAll(fs) + rest
    ensures Drain(s, limit) == Drain(DeliverAll(s, limit, fs).(buf := rest), limit)
    decreases |fs|
  {
    if fs == [] {
      EmptyUnit(rest);
    } else {
      var f := Last(fs);
      Assoc(EncodeAll(Front(fs)), Encode(f), rest);
      DrainEncoded(s, limit, Front(fs), Encode(f) + rest);
      var t := DeliverAll(s, limit, Front(fs));
      var u := t.(buf := Encode(f) + rest);
      ParseInvertsEncode(f, rest);
      DrainStep(u, limit);
      DropFirst(Encode(f), rest);
      DeliverBuf(t, limit, Decoded(f), Encode(f) + rest);
    }
  }

  lemma {:induction false} DropFirst(x: seq<byte>, y: seq<byte>)
    ensures (x + y)[|x|..] == y
  {
  }

  lemma {:induction false} NoOverlongEncoded(fs: seq<WireFrame>, rest: seq<byte>)
    requires AllSendable(fs) && NoOverlong(rest)
    ensures NoOverlong(EncodeAll(fs) + rest)
    decreases |fs|
  {
    if fs == [] {
      EmptyUnit(rest);
    } else {
      var f := Last(fs);
      Assoc(EncodeAll(Front(fs)), Encode(f), rest);
      ParseInvertsEncode(f, rest);
      DropFirst(Encode(f), rest);
      NoOverlongEncoded(Front(fs), Encode(f) + rest);
    }
  }

  /** Everything sent was delivered in order, and the buffer is empty. */
  lemma {:induction false} WrittenFrames(s: State, limit: int, fs: seq<WireFrame>)
    requires s.buf == [] && AllSendable(fs)
    ensures Written(s, limit, EncodeAll(fs)) == DeliverAll(s, limit, fs).(buf := [])
    ensures NoOverlong(EncodeAll(fs))
  {
    var b := EncodeAll(fs);
    EmptyUnit(b);
    var u := s.(buf := b);
    assert s.buf + b == b;
    DrainEncoded(u, limit, fs, []);
    DeliverAllBuf(s, limit, fs, b);
    NothingToDrain(DeliverAll(u, limit, fs).(buf := []), limit);
    NoOverlongEncoded(fs, []);
  }

  lemma {:induction false} DeliverAllBuf(s: State, limit: int, fs: seq<WireFrame>, b: seq<byte>)
    requires AllSendable(fs)
    ensures DeliverAll(s.(buf := b), limit, fs) == DeliverAll(s, limit, fs).(buf := b)
  {
    if fs != [] {
      DeliverAllBuf(s, limit, Front(fs), b);
      DeliverBuf(DeliverAll(s, limit, Front(fs)), limit, Decoded(Last(fs)), b);
    }
  }

  // ---- Any frame in any state --------------------------------------------------------

  /** Of what there is of a message, as much as the limit allows. */
  function Within(limit: int, payload: seq<byte>): seq<byte> {
    if limit <= 0 then [] else if limit < |payload| then payload[..limit] else payload
  }

  /** A data frame begins a message, whatever was underway: that is given up without a trace. */
  lemma {:induction false} DataStartsAnew(s: State, limit: int, f: Frame)
    requires f.op !in [0, 8, 9, 10]
    ensures var t := Deliver(s, limit, f);
            if f.fin then
              && t.sink == s.sink + [WsMessage(s.seqNo + 1, f.op, Within(limit, f.payload), |f.payload|, f.masked)]
              && t.msg == [] && t.msgLen == 0 && !t.msgTrun
            else
              && t.sink == s.sink && t.msg == Within(limit, f.payload) && t.msgLen == |f.payload| && t.msgOp == f.op
              && (t.msgTrun <==> limit <= 0 || |f.payload| > limit)
  {
    EmptyUnit(f.payload);
    if 0 < limit < |f.payload| { EmptyUnit(f.payload[..limit]); }
  }

  lemma {:induction false} AppendedWithin(s: State, limit: int, payload: seq<byte>)
    requires |s.msg| <= if limit > 0 then limit else 0
    ensures AppendPayload(s, limit, payload).msg == Within(limit, s.msg + payload)
  {
    var room := limit - |s.msg|;
    if room <= 0 {
      if limit > 0 { CutBehind(s.msg, payload, 0); }
      EmptyUnit(s.msg);
    } else if |payload| > room {
      CutBehind(s.msg, payload, room);
    }
  }

  lemma {:induction false} CutBehind(x: seq<byte>, y: seq<byte>, k: nat)
    requires k <= |y|
    ensures (x + y)[..|x| + k] == x + y[..k]
  {
  }

  /** A continuation adds to the message underway, and completes it when it is the last. */
  lemma {:induction false} ContinuationGoesOn(s: State, limit: int, f: Frame)
    requires f.op == 0 && |s.msg| <= if limit > 0 then limit else 0
    ensures var t, all, size := Deliver(s, limit, f), Within(limit, s.msg + f.payload), s.msgLen + |f.payload|;
            if f.fin then
              && t.sink == s.sink + [WsMessage(s.seqNo + 1, s.msgOp, all, size, f.masked)]
              && t.msg == [] && t.msgLen == 0 && !t.msgTrun
            else t.sink == s.sink && t.msg == all && t.msgLen == size && t.msgOp == s.msgOp
  {
    AppendedWithin(s, limit, f.payload);
  }

  /** A control frame comes out on its own, whole, and leaves the message underway alone. */
  lemma {:induction false} ControlStandsAlone(s: State, limit: int, f: Frame)
    requires f.op in [8, 9, 10]
    ensures var t := Deliver(s, limit, f);
            t == s.(sink := s.sink + [WsMessage(s.seqNo + 1, f.op, f.payload, |f.payload|, f.masked)],
                    seqNo := s.seqNo + 1)
  {
  }

  // ---- Messages ----------------------------------------------------------------------

  /** s with messages added to the sink. */
  function Plus(s: State, es: seq<Expected>): State {
    s.(seqNo := s.seqNo + |es|, sink := s.sink + Numbered(es, s.seqNo))
  }

  lemma {:induction false} NumberedConcat(x: seq<Expected>, y: seq<Expected>, n: nat)
    ensures Numbered(x + y, n) == Numbered(x, n) + Numbered(y, n + |x|)
    decreases |y|
  {
    if y == [] {
      EmptyUnit(x);
    } else {
      FrontLastConcat(x, y);
      NumberedConcat(x, Front(y), n);
      var l := Last(y);
      SnocOfSnoc(Numbered(x, n), Numbered(Front(y), n + |x|),
                 WsMessage(n + |x + y|, l.opcode, l.payload, l.len, l.masked));
    }
  }

  lemma {:induction false} PlusTwice(s: State, x: seq<Expected>, y: seq<Expected>)
    ensures Plus(Plus(s, x), y) == Plus(s, x + y)
  {
    NumberedConcat(x, y, s.seqNo);
    Assoc(s.sink, Numbered(x, s.seqNo), Numbered(y, s.seqNo + |x|));
  }

  lemma {:induction false} PlusOne(s: State, e: Expected)
    ensures Plus(s, [e]) == Emitted(s, e.opcode, e.payload, e.len, e.masked)
  {
    assert Front([e]) == [] && Last([e]) == e;
    assert Numbered([e], s.seqNo) == [WsMessage(s.seqNo + 1, e.opcode, e.payload, e.len, e.masked)];
  }

  function ControlMessage(c: Control): Expected {
    Expected(c.op, c.payload, |c.payload|, c.key != [])
  }

  /** Control frames are emitted whole and in order, and touch nothing else. */
  lemma {:induction false} ControlsDelivered(s: State, limit: int, cs: seq<Control>)
    requires forall c :: c in cs ==> ValidControl(c)
    ensures AllSendable(ControlFrames(cs))
    ensures DeliverAll(s, limit, ControlFrames(cs)) == Plus(s, ControlMessages(cs))
  {
    if cs == [] {
      EmptyUnit(s.sink);
    } else {
      var c := Last(cs);
      assert c in cs && forall d :: d in Front(cs) ==> d in cs;
      ControlsDelivered(s, limit, Front(cs));
      FrontLastSnoc(ControlFrames(Front(cs)), ControlFrame(c));
      PlusTwice(s, ControlMessages(Front(cs)), [ControlMessage(c)]);
      PlusOne(Plus(s, ControlMessages(Front(cs))), ControlMessage(c));
    }
  }

  /** The captured part grows with the payload until the limit. */
  lemma {:induction false} CapturedGrows(s: State, limit: int, p: seq<byte>, q: seq<byte>)
    requires s.msg == Captured(p, limit) && s.msgLen == |p|
    ensures var t := AppendPayload(s, limit, q);
            t.msg == Captured(p + q, limit) && t.msgLen == |p + q|
            && t == s.(msg := t.msg, msgLen := t.msgLen, msgTrun := t.msgTrun)
  {
    if limit > 0 && |p| < limit < |p| + |q| {
      assert (p + q)[..limit] == p + q[..limit - |p|];
    } else if 0 < limit <= |p| {
      assert (p + q)[..limit] == p[..limit];
    }
  }

  /** k fragments of a message have come in, and it is not complete. */
  ghost predicate Reassembling(s: State, t: State, limit: int, op: nat, gs: seq<Fragment>, k: nat)
    requires k <= |gs|
  {
    var u := Plus(s, Interleaved(gs, k));
    if k == 0 then t == u
    else
      && t.msgOp == op && t.msg == Captured(Payload(gs, k), limit) && t.msgLen == |Payload(gs, k)|
      && t == u.(msgOp := t.msgOp, msg := t.msg, msgLen := t.msgLen, msgTrun := t.msgTrun)
  }

  /** As Reassembling, but the control frames in front of fragment k have come in too;
      n is k + 1. */
  ghost predicate AtFragment(s: State, t: State, limit: int, op: nat, gs: seq<Fragment>, k: nat, n: nat)
    requires k < n <= |gs|
  {
    var u := Plus(s, Interleaved(gs, n));
    if k == 0 then t == u
    else
      && t.msgOp == op && t.msg == Captured(Payload(gs, k), limit) && t.msgLen == |Payload(gs, k)|
      && t == u.(msgOp := t.msgOp, msg := t.msg, msgLen := t.msgLen, msgTrun := t.msgTrun)
  }

  /** Messages added on both sides; the message under way stays. */
  lemma {:induction false} PlusUnderWay(u: State, t: State, es: seq<Expected>)
    requires t == u.(msgOp := t.msgOp, msg := t.msg, msgLen := t.msgLen, msgTrun := t.msgTrun)
    ensures var r := Plus(t, es);
            && r == Plus(u, es).(msgOp := t.msgOp, msg := t.msg, msgLen := t.msgLen, msgTrun := t.msgTrun)
            && r.msgOp == t.msgOp && r.msg == t.msg && r.msgLen == t.msgLen
  {
  }

  lemma {:induction false} BeforeFragment(s: State, t: State, limit: int, op: nat, gs: seq<Fragment>, k: nat, n: nat)
    requires n == k + 1 <= |gs| && ValidFragment(op, gs[k]) && Reassembling(s, t, limit, op, gs, k)
    ensures AllSendable(ControlFrames(gs[k].before))
    ensures AtFragment(s, DeliverAll(t, limit, ControlFrames(gs[k].before)), limit, op, gs, k, n)
  {
    var cs := ControlMessages(gs[k].before);
    ControlsDelivered(t, limit, gs[k].before);
    InterleavedStep(s, gs, k, n);
    if k > 0 { PlusUnderWay(Plus(s, Interleaved(gs, k)), t, cs); }
    assert AtFragment(s, Plus(t, cs), limit, op, gs, k, n);
  }

  lemma {:induction false} InterleavedStep(s: State, gs: seq<Fragment>, k: nat, n: nat)
    requires n == k + 1 <= |gs|
    ensures Plus(s, Interleaved(gs, n)) == Plus(Plus(s, Interleaved(gs, k)), ControlMessages(gs[k].before))
  {
    PlusTwice(s, Interleaved(gs, k), ControlMessages(gs[k].before));
  }

  /** The state once fragment k has been appended. */
  function Appended(t: State, limit: int, op: nat, payload: seq<byte>, first: bool): State {
    AppendPayload(if first then Reset(t.(msgOp := op)) else t, limit, payload)
  }

  lemma {:induction false} FragmentAppended(s: State, t: State, limit: int, op: nat, gs: seq<Fragment>, k: nat, n: nat)
    requires n == k + 1 <= |gs| && AtFragment(s, t, limit, op, gs, k, n)
    ensures Reassembling(s, Appended(t, limit, op, gs[k].payload, k == 0), limit, op, gs, n)
  {
    if k == 0 {
      CapturedGrows(Reset(t.(msgOp := op)), limit, [], gs[0].payload);
    } else {
      CapturedGrows(t, limit, Payload(gs, k), gs[k].payload);
    }
  }

  lemma {:induction false} FrameAppends(t: State, limit: int, op: nat, g: Fragment, first: bool, last: bool)
    requires DataOp(op) && Sendable(FragmentFrame(op, g, first, last))
    ensures var a := Appended(t, limit, op, g.payload, first);
            Deliver(t, limit, Decoded(FragmentFrame(op, g, first, last)))
            == if last then Reset(Emitted(a, a.msgOp, a.msg, a.msgLen, g.key != [])) else a
  {
  }

  /** The frames of fragment k and of the control frames in front of it. */
  function OneFragment(op: nat, gs: seq<Fragment>, k: nat, n: nat): seq<WireFrame>
    requires k < n <= |gs|
  {
    ControlFrames(gs[k].before) + [FragmentFrame(op, gs[k], k == 0, n == |gs|)]
  }

  lemma {:induction false} FragmentFramesStep(op: nat, gs: seq<Fragment>, k: nat, n: nat)
    requires n == k + 1 <= |gs|
    ensures FragmentFrames(op, gs, n) == FragmentFrames(op, gs, k) + OneFragment(op, gs, k, n)
  {
    Assoc(FragmentFrames(op, gs, k), ControlFrames(gs[k].before), [FragmentFrame(op, gs[k], k == 0, n == |gs|)]);
  }

  lemma {:induction false} FragmentSendable(op: nat, g: Fragment, first: bool, last: bool)
    requires ValidFragment(op, g)
    ensures Sendable(FragmentFrame(op, g, first, last))
  {
  }

  lemma {:induction false} DeliverSnoc(t: State, limit: int, cs: seq<WireFrame>, f: WireFrame)
    requires AllSendable(cs) && Sendable(f)
    ensures AllSendable(cs + [f])
    ensures DeliverAll(t, limit, cs + [f]) == Deliver(DeliverAll(t, limit, cs), limit, Decoded(f))
  {
    FrontLastSnoc(cs, f);
  }

  lemma {:induction false} MiddleFrame(s: State, v: State, limit: int, op: nat, gs: seq<Fragment>, k: nat, n: nat,
        f: WireFrame)
    requires n == k + 1 < |gs| && DataOp(op) && AtFragment(s, v, limit, op, gs, k, n)
    requires f == FragmentFrame(op, gs[k], k == 0, false) && Sendable(f)
    ensures Reassembling(s, Deliver(v, limit, Decoded(f)), limit, op, gs, n)
  {
    FrameAppends(v, limit, op, gs[k], k == 0, false);
    FragmentAppended(s, v, limit, op, gs, k, n);
  }

  lemma {:induction false} LastFrame(s: State, v: State, limit: int, op: nat, gs: seq<Fragment>, k: nat, n: nat,
        f: WireFrame)
    requires n == k + 1 == |gs| && DataOp(op) && AtFragment(s, v, limit, op, gs, k, n)
    requires f == FragmentFrame(op, gs[k], k == 0, true) && Sendable(f)
    ensures Finished(s, Deliver(v, limit, Decoded(f)), ItemMessages(Data(op, gs), limit))
  {
    FrameAppends(v, limit, op, gs[k], k == 0, true);
    FragmentAppended(s, v, limit, op, gs, k, n);
    LastFragment(s, Appended(v, limit, op, gs[k].payload, k == 0), limit, op, gs, n);
  }

  /** What the first k fragments of a message leave behind. */
  ghost predicate Progress(s: State, t: State, limit: int, op: nat, gs: seq<Fragment>, k: nat)
    requires k <= |gs|
  {
    if k < |gs| then Reassembling(s, t, limit, op, gs, k) else Finished(s, t, ItemMessages(Data(op, gs), limit))
  }

  lemma {:induction false} OneFragmentDelivered(s: State, t: State, limit: int, op: nat, gs: seq<Fragment>, k: nat,
        n: nat)
    requires n == k + 1 <= |gs| && DataOp(op) && ValidFragment(op, gs[k]) && Reassembling(s, t, limit, op, gs, k)
    ensures AllSendable(OneFragment(op, gs, k, n))
    ensures Progress(s, DeliverAll(t, limit, OneFragment(op, gs, k, n)), limit, op, gs, n)
  {
    var f := FragmentFrame(op, gs[k], k == 0, n == |gs|);
    var cs := ControlFrames(gs[k].before);
    FragmentSendable(op, gs[k], k == 0, n == |gs|);
    BeforeFragment(s, t, limit, op, gs, k, n);
    DeliverSnoc(t, limit, cs, f);
    if n == |gs| {
      LastFrame(s, DeliverAll(t, limit, cs), limit, op, gs, k, n, f);
    } else {
      MiddleFrame(s, DeliverAll(t, limit, cs), limit, op, gs, k, n, f);
    }
  }

  /** The data message a list of fragments makes. */
  function Whole(op: nat, gs: seq<Fragment>, limit: int): Expected
    requires gs != []
  {
    var whole := Payload(gs, |gs|);
    Expected(op, Captured(whole, limit), |whole|, Last(gs).key != [])
  }

  /** es were emitted; the buffer is as before. */
  ghost predicate Finished(s: State, t: State, es: seq<Expected>) {
    t.sink == s.sink + Numbered(es, s.seqNo) && t.seqNo == s.seqNo + |es| && t.buf == s.buf
  }

  lemma {:induction false} LastFragment(s: State, a: State, limit: int, op: nat, gs: seq<Fragment>, n: nat)
    requires gs != [] && n == |gs| && Reassembling(s, a, limit, op, gs, n)
    ensures Finished(s, Reset(Emitted(a, a.msgOp, a.msg, a.msgLen, Last(gs).key != [])),
                     ItemMessages(Data(op, gs), limit))
  {
    var es := Interleaved(gs, n);
    PlusTwice(s, es, [Whole(op, gs, limit)]);
    PlusOne(Plus(s, es), Whole(op, gs, limit));
  }

  lemma {:induction false} NextFragment(s: State, limit: int, op: nat, gs: seq<Fragment>, k: nat, n: nat)
    requires n == k + 1 <= |gs| && DataOp(op) && ValidFragment(op, gs[k])
    requires AllSendable(FragmentFrames(op, gs, k))
    requires Progress(s, DeliverAll(s, limit, FragmentFrames(op, gs, k)), limit, op, gs, k)
    ensures AllSendable(FragmentFrames(op, gs, n))
    ensures Progress(s, DeliverAll(s, limit, FragmentFrames(op, gs, n)), limit, op, gs, n)
  {
    OneFragmentDelivered(s, DeliverAll(s, limit, FragmentFrames(op, gs, k)), limit, op, gs, k, n);
    FragmentFramesStep(op, gs, k, n);
    DeliverConcat(s, limit, FragmentFrames(op, gs, k), OneFragment(op, gs, k, n));
  }

  lemma {:induction false} NothingDelivered(s: State, limit: int, op: nat, gs: seq<Fragment>)
    requires gs != []
    ensures AllSendable(FragmentFrames(op, gs, 0))
    ensures Progress(s, DeliverAll(s, limit, FragmentFrames(op, gs, 0)), limit, op, gs, 0)
  {
    EmptyUnit(s.sink);
    assert Plus(s, Interleaved(gs, 0)) == s;
  }

  lemma {:induction false} FragmentsDelivered(s: State, limit: int, op: nat, gs: seq<Fragment>, k: nat)
    requires DataOp(op) && k <= |gs| && gs != [] && forall i :: 0 <= i < |gs| ==> ValidFragment(op, gs[i])
    ensures AllSendable(FragmentFrames(op, gs, k))
    ensures Progress(s, DeliverAll(s, limit, FragmentFrames(op, gs, k)), limit, op, gs, k)
  {
    if k == 0 {
      NothingDelivered(s, limit, op, gs);
    } else {
      var j := k - 1;
      FragmentsDelivered(s, limit, op, gs, j);
      NextFragment(s, limit, op, gs, j, k);
    }
  }

  /** An item's messages, and nothing else, come out of its frames. */
  lemma {:induction false} ItemDelivered(s: State, limit: int, item: Item)
    requires ValidItem(item)
    ensures AllSendable(ItemFrames(item))
    ensures Finished(s, DeliverAll(s, limit, ItemFrames(item)), ItemMessages(item, limit))
  {
    match item
    case Alone(c) =>
      assert Front([c]) == [] && ControlFrames([c]) == [ControlFrame(c)];
      ControlsDelivered(s, limit, [c]);
    case Data(op, gs) =>
      FragmentsDelivered(s, limit, op, gs, |gs|);
  }

  ghost predicate ValidItems(items: seq<Item>) {
    items == [] || (ValidItems(Front(items)) && ValidItem(Last(items)))
  }

  lemma {:induction false} ItemsDelivered(s: State, limit: int, items: seq<Item>)
    requires ValidItems(items)
    ensures AllSendable(AllFrames(items))
    ensures Finished(s, DeliverAll(s, limit, AllFrames(items)), AllMessages(items, limit))
  {
    if items == [] {
      EmptyUnit(s.sink);
    } else {
      var fs, gs := AllFrames(Front(items)), ItemFrames(Last(items));
      var x, y := AllMessages(Front(items), limit), ItemMessages(Last(items), limit);
      ItemsDelivered(s, limit, Front(items));
      var t := DeliverAll(s, limit, fs);
      ItemDelivered(t, limit, Last(items));
      DeliverConcat(s, limit, fs, gs);
      FinishedTwice(s, t, DeliverAll(t, limit, gs), x, y);
    }
  }

  lemma {:induction false} FinishedTwice(s: State, t: State, u: State, x: seq<Expected>, y: seq<Expected>)
    requires Finished(s, t, x) && Finished(t, u, y)
    ensures Finished(s, u, x + y)
  {
    NumberedConcat(x, y, s.seqNo);
    Assoc(s.sink, Numbered(x, s.seqNo), Numbered(y, s.seqNo + |x|));
  }

  /** Reassembly inverts framing. Whatever messages are sent, with any masks, fragmentation
      and control frames between fragments, and however the stream is cut into writes: each
      message is emitted once, in order and numbered on, a data message with its first
      frame's opcode, its full length and its first limit bytes, a control frame whole. */
  lemma {:induction false} ReassemblyInvertsFraming(s: State, limit: int, items: seq<Item>, chunks: seq<seq<byte>>)
    requires s.buf == [] && ValidItems(items)
    ensures AllSendable(AllFrames(items))
    ensures Joined(chunks) == EncodeAll(AllFrames(items)) ==>
              var t := WrittenAll(s, limit, chunks);
              t.buf == [] && t.sink == s.sink + Numbered(AllMessages(items, limit), s.seqNo)
  {
    ItemsDelivered(s, limit, items);
    WrittenFrames(s, limit, AllFrames(items));
    if Joined(chunks) == EncodeAll(AllFrames(items)) {
      NoOverlongIsSafe(Joined(chunks));
      ChunksDoNotMatter(s, limit, chunks);
    }
  }
}
