/** Framing as the sender does it (sections 5.2 to 5.4 of RFC 6455), and the proof that the
    parser inverts it: whatever the fragmentation, the masks, the length encodings and the
    control frames placed between fragments, every message comes out once and whole. */
module WebSocketFraming {
  import opened Bytes
  import opened Options
  import opened Seqs
  import opened WebSocket

  /** The three encodings of a payload length. */
  datatype LengthForm = Bits7 | Bits16 | Bits64

  datatype WireFrame = WireFrame(fin: bool, op: nat, key: seq<byte>, form: LengthForm, payload: seq<byte>)

  /** An empty key leaves the payload unmasked. */
  ghost predicate Sendable(f: WireFrame) {
    && f.op < 16 && (f.key == [] || |f.key| == 4)
    && |f.payload| <= match f.form
                      case Bits7 => 125
                      case Bits16 => 0xffff
                      case Bits64 => 0x8000_0000
  }

  /** n as k bytes, most significant first. */
  function ToBigEndian(n: nat, k: nat): (r: seq<byte>)
    ensures |r| == k
  {
    if k == 0 then [] else ToBigEndian(n / 256, k - 1) + [n % 256]
  }

  function Pow256(k: nat): nat {
    if k == 0 then 1 else 256 * Pow256(k - 1)
  }

  lemma {:induction false} BigEndianRoundTrip(n: nat, k: nat)
    requires n < Pow256(k)
    ensures BigEndian(ToBigEndian(n, k)) == n
  {
    if k > 0 {
      BigEndianRoundTrip(n / 256, k - 1);
      FrontLastSnoc(ToBigEndian(n / 256, k - 1), n % 256);
    }
  }

  lemma {:induction false} Pow256Values()
    ensures Pow256(2) == 0x1_0000 && Pow256(8) == TWO64
  {
    assert Pow256(4) == 0x1_0000_0000;
    assert Pow256(6) == 0x1_0000_0000_0000;
  }

  /** The second byte and the extended length. */
  function LengthBytes(f: WireFrame): seq<byte>
    requires Sendable(f)
  {
    var m := if f.key == [] then 0 else 128;
    match f.form
    case Bits7 => [m + |f.payload|]
    case Bits16 => [m + 126] + ToBigEndian(|f.payload|, 2)
    case Bits64 => [m + 127] + ToBigEndian(|f.payload|, 8)
  }

  function Header(f: WireFrame): seq<byte>
    requires Sendable(f)
  {
    [(if f.fin then 128 else 0) + f.op] + LengthBytes(f)
  }

  lemma {:induction false} CanBeMasked(payload: seq<byte>, key: seq<byte>)
    requires |key| == 4
    ensures exists wire: seq<byte> :: MaskedBy(wire, payload, key)
  {
    MaskedIsMaskedBy(payload, key);
  }

  /** What is sent of a payload: with a key, each byte has the bits of a key byte added. */
  ghost function OnWire(payload: seq<byte>, key: seq<byte>): (wire: seq<byte>)
    requires key == [] || |key| == 4
    ensures if key == [] then wire == payload else MaskedBy(wire, payload, key)
  {
    if key == [] then payload
    else
      CanBeMasked(payload, key);
      var wire: seq<byte> :| MaskedBy(wire, payload, key);
      wire
  }

  ghost function Encode(f: WireFrame): seq<byte>
    requires Sendable(f)
  {
    Header(f) + f.key + OnWire(f.payload, f.key)
  }

  ghost function Decoded(f: WireFrame): Frame
    requires Sendable(f)
  {
    Frame(f.fin, f.op, f.key != [], f.payload, |Encode(f)|)
  }

  lemma {:induction false} LengthField(a: byte, b: byte, n: seq<byte>, rest: seq<byte>)
    ensures ([a] + ([b] + n) + rest)[2..2 + |n|] == n
  {
  }

  /** A two-byte or eight-byte length read back. */
  lemma {:induction false} ExtendedLength(first: byte, second: byte, n: nat, k: nat, rest: seq<byte>)
    requires n < Pow256(k)
    ensures BigEndian(([first] + ([second] + ToBigEndian(n, k)) + rest)[2..2 + k]) == n
  {
    LengthField(first, second, ToBigEndian(n, k), rest);
    BigEndianRoundTrip(n, k);
  }

  lemma {:induction false} ShortLength(h: seq<byte>, first: byte, second: byte, rest: seq<byte>)
    requires second % 128 < 126 && h == [first] + [second]
    ensures DeclaredLength(h + rest) == Some((second % 128, |h|))
  {
  }

  lemma {:induction false} Length16(h: seq<byte>, first: byte, second: byte, n: nat, rest: seq<byte>)
    requires second % 128 == 126 && n < 0x1_0000 && h == [first] + ([second] + ToBigEndian(n, 2))
    ensures DeclaredLength(h + rest) == Some((n, |h|))
  {
    Pow256Values();
    ExtendedLength(first, second, n, 2, rest);
  }

  lemma {:induction false} Length64(h: seq<byte>, first: byte, second: byte, n: nat, rest: seq<byte>)
    requires second % 128 == 127 && n < TWO63 && h == [first] + ([second] + ToBigEndian(n, 8))
    ensures DeclaredLength(h + rest) == Some((n, |h|))
  {
    Pow256Values();
    ExtendedLength(first, second, n, 8, rest);
  }

  lemma {:induction false} LengthInverts(f: WireFrame, rest: seq<byte>)
    requires Sendable(f)
    ensures DeclaredLength(Header(f) + rest) == Some((|f.payload|, |Header(f)|))
  {
    var first := (if f.fin then 128 else 0) + f.op;
    var m := if f.key == [] then 0 else 128;
    match f.form
    case Bits7 => ShortLength(Header(f), first, m + |f.payload|, rest);
    case Bits16 => Length16(Header(f), first, m + 126, |f.payload|, rest);
    case Bits64 => Length64(Header(f), first, m + 127, |f.payload|, rest);
  }

  lemma {:induction false} HeaderBits(f: WireFrame, rest: seq<byte>)
    requires Sendable(f)
    ensures |Header(f)| >= 2
    ensures (Header(f) + rest)[0] >= 128 <==> f.fin
    ensures (Header(f) + rest)[0] % 16 == f.op
    ensures (Header(f) + rest)[1] >= 128 <==> f.key != []
  {
  }

  lemma {:induction false} MaskedBody(b: seq<byte>, h: seq<byte>, key: seq<byte>, body: seq<byte>, rest: seq<byte>,
        n: nat)
    requires b == h + key + body + rest && |h| >= 2 && |key| == 4 && |body| == n
    ensures ParseBody(b, true, n, |h|)
         == Complete(Frame(b[0] >= 128, b[0] % 16, true, Masked(body, key), |h| + 4 + n))
  {
    assert b[|h|..|h| + 4] == key;
    assert b[|h| + 4..|h| + 4 + n] == body;
  }

  lemma {:induction false} PlainBody(b: seq<byte>, h: seq<byte>, body: seq<byte>, rest: seq<byte>, n: nat)
    requires b == h + [] + body + rest && |h| >= 2 && |body| == n
    ensures ParseBody(b, false, n, |h|)
         == Complete(Frame(b[0] >= 128, b[0] % 16, false, body, |h| + n))
  {
    assert b[|h|..|h| + n] == body;
  }

  lemma {:induction false} FourParts(h: seq<byte>, k: seq<byte>, b: seq<byte>, r: seq<byte>)
    ensures h + k + b + r == h + (k + b + r) && |h + k + b| == |h| + |k| + |b|
  {
  }

  /** The front of the buffer, given what its header says. */
  lemma {:induction false} HeaderParsed(f: WireFrame, tail: seq<byte>)
    requires Sendable(f)
    ensures var b := Header(f) + tail;
            |b| >= 2 && ParseFrame(b) == ParseBody(b, f.key != [], |f.payload|, |Header(f)|)
  {
    HeaderBits(f, tail);
    LengthInverts(f, tail);
  }

  /** The parser reads back exactly the frame that was encoded, whatever follows. */
  lemma {:induction false} ParseInvertsEncode(f: WireFrame, rest: seq<byte>)
    requires Sendable(f)
    ensures ParseFrame(Encode(f) + rest) == Complete(Decoded(f))
  {
    var h := Header(f);
    var body := OnWire(f.payload, f.key);
    var tail := f.key + body + rest;
    assert Encode(f) + rest == h + tail by { FourParts(h, f.key, body, rest); }
    HeaderParsed(f, tail);
    HeaderBits(f, tail);
    if f.key == [] {
      PlainFrame(f, h + tail, rest);
    } else {
      MaskedFrame(f, h + tail, rest);
    }
  }

  lemma {:induction false} PlainFrame(f: WireFrame, b: seq<byte>, rest: seq<byte>)
    requires Sendable(f) && f.key == [] && b == Encode(f) + rest
    requires |b| >= 2 && (b[0] >= 128 <==> f.fin) && b[0] % 16 == f.op
    ensures ParseBody(b, false, |f.payload|, |Header(f)|) == Complete(Decoded(f))
  {
    FourParts(Header(f), [], f.payload, rest);
    PlainBody(b, Header(f), f.payload, rest, |f.payload|);
  }

  lemma {:induction false} MaskedFrame(f: WireFrame, b: seq<byte>, rest: seq<byte>)
    requires Sendable(f) && f.key != [] && b == Encode(f) + rest
    requires |b| >= 2 && (b[0] >= 128 <==> f.fin) && b[0] % 16 == f.op
    ensures ParseBody(b, true, |f.payload|, |Header(f)|) == Complete(Decoded(f))
  {
    var body := OnWire(f.payload, f.key);
    UnmaskedIs(body, f.payload, f.key);
    FourParts(Header(f), f.key, body, rest);
    MaskedBody(b, Header(f), f.key, body, rest, |f.payload|);
  }

  /** A header is over-long if and only if it has the eight-byte length, and that exceeds 1 << 31. */
  lemma {:induction false} OverlongIff(b: seq<byte>)
    ensures ParseFrame(b).Overlong? <==> |b| >= 10 && b[1] % 128 == 127 && BigEndian(b[2..10]) > 0x8000_0000
  {
    if |b| >= 10 { BigEndianBound(b[2..10]); }
    if |b| >= 4 { BigEndianBound(b[2..4]); }
    Pow256Values();
  }

  lemma {:induction false} BigEndianBound(b: seq<byte>)
    ensures BigEndian(b) < Pow256(|b|)
  {
    if b != [] { BigEndianBound(Front(b)); }
  }

  // ---- The masked frame of section 5.7 of RFC 6455 -----------------------------------

  const HELLO: seq<byte> := [0x48, 0x65, 0x6c, 0x6c, 0x6f]
  const HELLO_MASKED: seq<byte> := [0x81, 0x85, 0x37, 0xfa, 0x21, 0x3d, 0x7f, 0x9f, 0x4d, 0x51, 0x58]

  lemma {:induction false} AllBits(u: byte, a: byte, b: byte)
    requires AddsBit(u, a, b, 1) && AddsBit(u, a, b, 2) && AddsBit(u, a, b, 4) && AddsBit(u, a, b, 8)
    requires AddsBit(u, a, b, 16) && AddsBit(u, a, b, 32) && AddsBit(u, a, b, 64) && AddsBit(u, a, b, 128)
    ensures AddsBits(u, a, b)
  {
  }

  lemma {:induction false} HelloStart()
    ensures AddsBits(0x7f, 0x48, 0x37) && AddsBits(0x9f, 0x65, 0xfa)
  {
    AllBits(0x7f, 0x48, 0x37);
    AllBits(0x9f, 0x65, 0xfa);
  }

  lemma {:induction false} HelloMiddle()
    ensures AddsBits(0x4d, 0x6c, 0x21) && AddsBits(0x51, 0x6c, 0x3d)
  {
    AllBits(0x4d, 0x6c, 0x21);
    AllBits(0x51, 0x6c, 0x3d);
  }

  lemma {:induction false} HelloEnd()
    ensures AddsBits(0x58, 0x6f, 0x37)
  {
    AllBits(0x58, 0x6f, 0x37);
  }

  lemma {:induction false} FiveBytes(u: seq<byte>, a: seq<byte>, key: seq<byte>)
    requires |u| == |a| == 5 && |key| == 4 && AddsBits(u[0], a[0], key[0]) && AddsBits(u[1], a[1], key[1])
    requires AddsBits(u[2], a[2], key[2]) && AddsBits(u[3], a[3], key[3]) && AddsBits(u[4], a[4], key[0])
    ensures MaskedBy(u, a, key)
  {
  }

  lemma {:induction false} HelloBits()
    ensures MaskedBy(HELLO_MASKED[6..], HELLO, HELLO_MASKED[2..6])
  {
    HelloStart();
    HelloMiddle();
    HelloEnd();
    FiveBytes(HELLO_MASKED[6..], HELLO, HELLO_MASKED[2..6]);
  }

  /** There is only one way to mask a payload. */
  lemma {:induction false} OnWireIs(wire: seq<byte>, payload: seq<byte>, key: seq<byte>)
    requires MaskedBy(wire, payload, key)
    ensures OnWire(payload, key) == wire
  {
    UnmaskedIs(wire, payload, key);
    UnmaskedIs(OnWire(payload, key), payload, key);
    MaskedTwice(wire, key);
    MaskedTwice(OnWire(payload, key), key);
  }

  lemma {:induction false} HelloParsed()
    ensures ParseFrame(HELLO_MASKED) == Complete(Frame(true, 1, true, HELLO, 11))
  {
    var key, wire := HELLO_MASKED[2..6], HELLO_MASKED[6..];
    var f := WireFrame(true, 1, key, Bits7, HELLO);
    HelloBits();
    OnWireIs(wire, HELLO, key);
    assert Encode(f) == [0x81] + [0x85] + key + wire == HELLO_MASKED;
    ParseInvertsEncode(f, []);
    EmptyUnit(HELLO_MASKED);
  }

  lemma {:induction false} TextDelivered(s: State, limit: int, payload: seq<byte>, total: nat)
    requires limit >= |payload| > 0
    ensures var t := Deliver(s, limit, Frame(true, 1, true, payload, total));
            t.sink == s.sink + [WsMessage(s.seqNo + 1, 1, payload, |payload|, true)]
  {
    EmptyUnit(payload);
  }

  /** A complete text message on its own, written to a new parser. */
  lemma {:induction false} OneText(limit: int, b: seq<byte>, payload: seq<byte>)
    requires limit >= |payload| > 0 && ParseFrame(b) == Complete(Frame(true, 1, true, payload, |b|))
    ensures Written(State([], 0, 0, [], 0, false, []), limit, b).sink == [WsMessage(1, 1, payload, |payload|, true)]
  {
    var u := State(b, 0, 0, [], 0, false, []);
    EmptyUnit(b);
    DrainStep(u, limit);
    TextDelivered(u, limit, payload, |b|);
    assert b[|b|..] == [] && ParseFrame([]) == NeedsHeader;
  }

  /** The frame comes out as "Hello". */
  lemma {:induction false} HelloComesOut(limit: int)
    requires limit >= 5
    ensures Written(State([], 0, 0, [], 0, false, []), limit, HELLO_MASKED).sink == [WsMessage(1, 1, HELLO, 5, true)]
  {
    HelloParsed();
    OneText(limit, HELLO_MASKED, HELLO);
  }

  // ---- Conversations -----------------------------------------------------------------

  /** A control frame. */
  datatype Control = Control(op: nat, key: seq<byte>, form: LengthForm, payload: seq<byte>)

  /** One fragment of a data message, with the control frames sent just before it. */
  datatype Fragment = Fragment(before: seq<Control>, key: seq<byte>, form: LengthForm, payload: seq<byte>)

  /** What is sent: control frames on their own, and fragmented data messages. */
  datatype Item = Alone(control: Control) | Data(op: nat, fragments: seq<Fragment>)

  function ControlFrame(c: Control): WireFrame {
    WireFrame(true, c.op, c.key, c.form, c.payload)
  }

  ghost predicate ValidControl(c: Control) {
    (c.op == 8 || c.op == 9 || c.op == 10) && Sendable(ControlFrame(c))
  }

  /** Fragment i of n: only the first has the message's opcode, only the last is final. */
  function FragmentFrame(op: nat, g: Fragment, first: bool, last: bool): WireFrame {
    WireFrame(last, if first then op else 0, g.key, g.form, g.payload)
  }

  /** The opcodes of data messages. */
  predicate DataOp(op: nat) {
    0 < op < 16 && op != 8 && op != 9 && op != 10
  }

  ghost predicate ValidItem(item: Item) {
    match item
    case Alone(c) => ValidControl(c)
    case Data(op, gs) =>
      && DataOp(op) && gs != []
      && forall i :: 0 <= i < |gs| ==> ValidFragment(op, gs[i])
  }

  ghost predicate ValidFragment(op: nat, g: Fragment) {
    && op < 16 && Sendable(FragmentFrame(op, g, true, true))
    && forall c :: c in g.before ==> ValidControl(c)
  }

  function ControlFrames(cs: seq<Control>): seq<WireFrame> {
    if cs == [] then [] else ControlFrames(Front(cs)) + [ControlFrame(Last(cs))]
  }

  /** The frames of the first k fragments. */
  function FragmentFrames(op: nat, gs: seq<Fragment>, k: nat): seq<WireFrame>
    requires k <= |gs|
  {
    if k == 0 then []
    else FragmentFrames(op, gs, k - 1) + ControlFrames(gs[k - 1].before)
         + [FragmentFrame(op, gs[k - 1], k == 1, k == |gs|)]
  }

  function ItemFrames(item: Item): seq<WireFrame> {
    match item
    case Alone(c) => [ControlFrame(c)]
    case Data(op, gs) => FragmentFrames(op, gs, |gs|)
  }

  function AllFrames(items: seq<Item>): seq<WireFrame> {
    if items == [] then [] else AllFrames(Front(items)) + ItemFrames(Last(items))
  }

  ghost predicate AllSendable(fs: seq<WireFrame>) {
    fs == [] || (AllSendable(Front(fs)) && Sendable(Last(fs)))
  }

  ghost function EncodeAll(fs: seq<WireFrame>): seq<byte>
    requires AllSendable(fs)
  {
    if fs == [] then [] else EncodeAll(Front(fs)) + Encode(Last(fs))
  }

  // ---- What must come out ------------------------------------------------------------

  /** A message before it is numbered. */
  datatype Expected = Expected(opcode: int, payload: seq<byte>, len: nat, masked: bool)

  function ControlMessages(cs: seq<Control>): seq<Expected> {
    if cs == [] then []
    else ControlMessages(Front(cs)) + [Expected(Last(cs).op, Last(cs).payload, |Last(cs).payload|, Last(cs).key != [])]
  }

  /** The whole payload of the first k fragments. */
  function Payload(gs: seq<Fragment>, k: nat): seq<byte>
    requires k <= |gs|
  {
    if k == 0 then [] else Payload(gs, k - 1) + gs[k - 1].payload
  }

  /** The captured part of a payload: its first limit bytes. */
  function Captured(payload: seq<byte>, limit: int): seq<byte> {
    if limit <= 0 then [] else if |payload| <= limit then payload else payload[..limit]
  }

  function Interleaved(gs: seq<Fragment>, k: nat): seq<Expected>
    requires k <= |gs|
  {
    if k == 0 then [] else Interleaved(gs, k - 1) + ControlMessages(gs[k - 1].before)
  }

  /** The control frames between the fragments in order, then the message itself. */
  function ItemMessages(item: Item, limit: int): seq<Expected> {
    match item
    case Alone(c) => ControlMessages([c])
    case Data(op, gs) =>
      if gs == [] then []
      else
        var whole := Payload(gs, |gs|);
        Interleaved(gs, |gs|) + [Expected(op, Captured(whole, limit), |whole|, Last(gs).key != [])]
  }

  function AllMessages(items: seq<Item>, limit: int): seq<Expected> {
    if items == [] then [] else AllMessages(Front(items), limit) + ItemMessages(Last(items), limit)
  }

  /** Messages numbered from n + 1 on. */
  function Numbered(es: seq<Expected>, n: nat): (r: seq<WsMessage>)
    ensures |r| == |es|
  {
    if es == [] then []
    else Numbered(Front(es), n)
         + [WsMessage(n + |es|, Last(es).opcode, Last(es).payload, Last(es).len, Last(es).masked)]
  }
}
