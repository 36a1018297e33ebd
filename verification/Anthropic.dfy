/** Rebuilding the message of an Anthropic event stream. */
module Anthropic {
  import opened Json
  import opened JsonUtil
  import opened Options
  import opened Seqs
  import opened Sorting
  import opened Sse
  import opened Text

  /** A content block as it accumulates. */
  datatype Block = Block(
    block: Members, text: string, hasText: bool, json: string, hasJson: bool,
    thinking: string, hasThinking: bool, signature: string, citations: seq<Value>)

  datatype Problem =
    | MalformedEvent(n: nat, name: string)
    | Reported(error: Members)
    | IncompleteInput(index: int, name: string, raw: string)

  const MAX_STREAM_ERRORS := 20

  datatype Info = Info(events: nat, last: string, complete: bool, errors: seq<Problem>)

  /** What an event says, by its type. */
  datatype Piece =
    | MessageStart(message: Option<Members>)
    | BlockStart(at: Option<int>, block: Members)
    | BlockDelta(index: int, delta: Members)
    | MessageDelta(changes: Members, usage: Option<Members>)
    | MessageStop
    | Failure(error: Members)
    | Nothing

  function Classify(lib: Library, v: Members): Piece {
    var typ := Str(At(v, "type"));
    if typ == "message_start" then MessageStart(Obj(At(v, "message")))
    else if typ == "content_block_start" then BlockStart(ToInt(lib, At(v, "index")), MembersOf(At(v, "content_block")))
    else if typ == "content_block_delta" then BlockDelta(IntOr(lib, At(v, "index"), 0), MembersOf(At(v, "delta")))
    else if typ == "message_delta" then MessageDelta(MembersOf(At(v, "delta")), Obj(At(v, "usage")))
    else if typ == "message_stop" then MessageStop
    else if typ == "error" then Failure(MembersOf(At(v, "error")))
    else Nothing
  }

  // ---- Blocks ------------------------------------------------------------------------

  function NewBlock(cb: Members): Block {
    Block(cb, "", false, "", false, "", false, "", [])
  }

  function TypeForDelta(kind: string): string {
    if kind == "input_json_delta" then "tool_use"
    else if kind == "thinking_delta" || kind == "signature_delta" then "thinking"
    else "text"
  }

  function Kind(delta: Members): string {
    Str(At(delta, "type"))
  }

  /** A block whose start was missed. */
  function Unstarted(delta: Members): Block {
    NewBlock(map["type" := String(TypeForDelta(Kind(delta)))])
  }

  function Grown(b: Block, delta: Members): Block {
    var kind := Kind(delta);
    if kind == "text_delta" then b.(text := b.text + Str(At(delta, "text")), hasText := true)
    else if kind == "input_json_delta" then b.(json := b.json + Str(At(delta, "partial_json")), hasJson := true)
    else if kind == "thinking_delta" then b.(thinking := b.thinking + Str(At(delta, "thinking")), hasThinking := true)
    else if kind == "signature_delta" then b.(signature := Str(At(delta, "signature")))
    else if kind == "citations_delta" && At(delta, "citation") != Null then
      b.(citations := b.citations + [At(delta, "citation")])
    else b
  }

  function NextBlocks(blocks: map<int, Block>, p: Piece): map<int, Block> {
    match p
    case BlockStart(at, cb) => blocks[(if at.Some? then at.value else |blocks|) := NewBlock(cb)]
    case BlockDelta(i, delta) => blocks[i := Grown(if i in blocks then blocks[i] else Unstarted(delta), delta)]
    case _ => blocks
  }

  function Blocks(ps: seq<Piece>): map<int, Block> {
    if ps == [] then map[] else NextBlocks(Blocks(Front(ps)), Last(ps))
  }

  // ---- The message -------------------------------------------------------------------

  function WithUsage(m: Members, usage: Option<Members>): Members {
    match usage
    case None => m
    case Some(u) => m["usage" := Object(MembersOf(At(m, "usage")) + u)]
  }

  function NextMessage(msg: Option<Members>, p: Piece): Option<Members> {
    match p
    case MessageStart(m) => if m.Some? then m else msg
    case MessageDelta(changes, usage) => if msg.None? then None else Some(WithUsage(msg.value + changes, usage))
    case _ => msg
  }

  function Message(ps: seq<Piece>): Option<Members> {
    if ps == [] then None else NextMessage(Message(Front(ps)), Last(ps))
  }

  // ---- Finishing ---------------------------------------------------------------------

  /** A block's tool input: empty when the JSON is missing or does not decode. */
  function Input(lib: Library, raw: string): Value {
    if raw == "" then Object(map[])
    else match lib.decode(raw)
         case Some(v) => v
         case None => Object(map[])
  }

  function WithText(b: Block): Members {
    if b.hasText then b.block["text" := String(Str(At(b.block, "text")) + b.text)] else b.block
  }

  function WithInput(lib: Library, b: Block): Members {
    if b.hasJson then WithText(b)["input" := Input(lib, TrimSpace(b.json))] else WithText(b)
  }

  function WithThinking(lib: Library, b: Block): Members {
    var m := WithInput(lib, b);
    if b.hasThinking then m["thinking" := String(Str(At(m, "thinking")) + b.thinking)] else m
  }

  function WithSignature(lib: Library, b: Block): Members {
    var m := WithThinking(lib, b);
    if b.signature != "" then m["signature" := String(b.signature)] else m
  }

  /** The content block a finished block becomes. */
  function Finished(lib: Library, b: Block): Members {
    var m := WithSignature(lib, b);
    if b.citations != [] then m["citations" := Array(Arr(At(m, "citations")) + b.citations)] else m
  }

  function Content(lib: Library, blocks: map<int, Block>, order: seq<int>): seq<Value>
    requires Listed(order, blocks)
  {
    if order == [] then []
    else Content(lib, blocks, Front(order)) + [Object(Finished(lib, blocks[Last(order)]))]
  }

  // ---- Information about the stream --------------------------------------------------

  function WithError(info: Info, p: Problem): Info {
    if |info.errors| < MAX_STREAM_ERRORS then info.(errors := info.errors + [p]) else info
  }

  function NextInfo(lib: Library, info: Info, ev: Event): Info {
    var n := info.(events := info.events + 1, last := ev.name);
    match DecodeObject(lib, ev.data)
    case None => WithError(n, MalformedEvent(n.events, ev.name))
    case Some(v) =>
      var m := if n.last == "" then n.(last := Str(At(v, "type"))) else n;
      match Classify(lib, v)
      case MessageStop => m.(complete := true)
      case Failure(e) => WithError(m, Reported(e))
      case _ => m
  }

  function Infos(lib: Library, events: seq<Event>): Info {
    if events == [] then Info(0, "", false, []) else NextInfo(lib, Infos(lib, Front(events)), Last(events))
  }

  function BlockInfo(lib: Library, info: Info, i: int, b: Block): Info {
    var raw := TrimSpace(b.json);
    if b.hasJson && raw != "" && lib.decode(raw).None? then
      WithError(info, IncompleteInput(i, Str(At(WithInput(lib, b), "name")), raw))
    else info
  }

  function BlocksInfo(lib: Library, info: Info, blocks: map<int, Block>, order: seq<int>): Info
    requires Listed(order, blocks)
  {
    if order == [] then info
    else BlockInfo(lib, BlocksInfo(lib, info, blocks, Front(order)), Last(order), blocks[Last(order)])
  }

  /** The pieces of the events that decode. */
  function Pieces(lib: Library, events: seq<Event>): seq<Piece> {
    if events == [] then []
    else
      Pieces(lib, Front(events))
      + match DecodeObject(lib, Last(events).data)
        case None => []
        case Some(v) => [Classify(lib, v)]
  }

  // ---- Reassembly --------------------------------------------------------------------

  ghost function WithContent(lib: Library, m: Members, blocks: map<int, Block>): Members {
    m["content" := Array(Content(lib, blocks, Order(blocks)))]
  }

  /** None without a message_start. */
  ghost function Reassembled(lib: Library, events: seq<Event>): Option<Members> {
    var ps := Pieces(lib, events);
    match Message(ps)
    case None => None
    case Some(m) => Some(WithContent(lib, m, Blocks(ps)))
  }

  /** What is learnt about the stream; incomplete tool input shows only when finishing. */
  ghost function StreamInfo(lib: Library, events: seq<Event>): Info {
    var ps := Pieces(lib, events);
    if Message(ps).None? then Infos(lib, events)
    else BlocksInfo(lib, Infos(lib, events), Blocks(ps), Order(Blocks(ps)))
  }

  class Reassembler {
    const lib: Library
    var msg: Option<Members>
    var blocks: map<int, Block>
    var info: Info
    ghost var seen: seq<Event>

    ghost predicate Valid() reads this {
      && msg == Message(Pieces(lib, seen)) && blocks == Blocks(Pieces(lib, seen)) && info == Infos(lib, seen)
    }

    constructor (lib: Library)
      ensures Valid() && seen == [] && this.lib == lib
    {
      this.lib, msg, blocks, info, seen := lib, None, map[], Info(0, "", false, []), [];
    }

    method ErrorF(p: Problem)
      modifies `info
      ensures info == WithError(old(info), p)
    {
      if |info.errors| < MAX_STREAM_ERRORS {
        info := info.(errors := info.errors + [p]);
      }
    }

    /** One event of the stream. */
    method Take(ev: Event)
      requires Valid()
      modifies this
      ensures Valid() && seen == old(seen) + [ev]
    {
      FrontLastSnoc(seen, ev);
      ghost var ps := Pieces(lib, seen);
      EmptyUnit(ps);
      seen := seen + [ev];
      info := info.(events := info.events + 1, last := ev.name);
      var decoded := DecodeObject(lib, ev.data);
      if decoded.None? {
        ErrorF(MalformedEvent(info.events, ev.name));
        return;
      }
      var v := decoded.value;
      FrontLastSnoc(ps, Classify(lib, v));
      if info.last == "" {
        info := info.(last := Str(At(v, "type")));
      }
      Switch(v);
    }

    method Switch(v: Members)
      modifies `msg, `blocks, `info
      ensures msg == NextMessage(old(msg), Classify(lib, v)) && blocks == NextBlocks(old(blocks), Classify(lib, v))
      ensures info == match Classify(lib, v)
                      case MessageStop => old(info).(complete := true)
                      case Failure(e) => WithError(old(info), Reported(e))
                      case _ => old(info)
    {
      var typ := Str(At(v, "type"));
      if typ == "message_start" {
        var m := Obj(At(v, "message"));
        if m.Some? { msg := m; }
      } else if typ == "content_block_start" {
        var idx := IntOr(lib, At(v, "index"), |blocks|);
        blocks := blocks[idx := NewBlock(MembersOf(At(v, "content_block")))];
      } else if typ == "content_block_delta" {
        var idx := IntOr(lib, At(v, "index"), 0);
        TakeDelta(idx, MembersOf(At(v, "delta")));
      } else if typ == "message_delta" {
        if msg.Some? {
          var m := msg.value + MembersOf(At(v, "delta"));
          var u := Obj(At(v, "usage"));
          if u.Some? {
            m := m["usage" := Object(MembersOf(At(m, "usage")) + u.value)];
          }
          msg := Some(m);
        }
      } else if typ == "message_stop" {
        info := info.(complete := true);
      } else if typ == "error" {
        ErrorF(Reported(MembersOf(At(v, "error"))));
      }
    }

    method TakeDelta(idx: int, d: Members)
      modifies `blocks
      ensures blocks == NextBlocks(old(blocks), BlockDelta(idx, d))
    {
      var b := if idx in blocks then blocks[idx] else Unstarted(d);
      var kind := Str(At(d, "type"));
      if kind == "text_delta" {
        b := b.(text := b.text + Str(At(d, "text")), hasText := true);
      } else if kind == "input_json_delta" {
        b := b.(json := b.json + Str(At(d, "partial_json")), hasJson := true);
      } else if kind == "thinking_delta" {
        b := b.(thinking := b.thinking + Str(At(d, "thinking")), hasThinking := true);
      } else if kind == "signature_delta" {
        b := b.(signature := Str(At(d, "signature")));
      } else if kind == "citations_delta" {
        var c := At(d, "citation");
        if c != Null { b := b.(citations := b.citations + [c]); }
      }
      blocks := blocks[idx := b];
    }

    /** The message so far, with its content in index order. */
    method Finish() returns (r: Option<Members>)
      requires Valid()
      modifies `info
      ensures r == Reassembled(lib, seen) && info == StreamInfo(lib, seen)
    {
      if msg.None? { return None; }
      var order := SortInts(blocks.Keys);
      assert order == Order(blocks);
      var content := FinishBlocks(order);
      return Some(msg.value["content" := Array(content)]);
    }

    method FinishBlocks(order: seq<int>) returns (content: seq<Value>)
      requires Listed(order, blocks)
      modifies `info
      ensures content == Content(lib, blocks, order) && info == BlocksInfo(lib, old(info), blocks, order)
    {
      content := [];
      TakeAll(order);
      ghost var start := info;
      for k := 0 to |order|
        invariant Listed(order[..k], blocks) && content == Content(lib, blocks, order[..k])
        invariant info == BlocksInfo(lib, start, blocks, order[..k])
      {
        ListedAt(order, blocks, k);
        TakeSnoc(order, k);
        FrontLastSnoc(order[..k], order[k]);
        var cb := FinishBlock(order[k], blocks[order[k]]);
        content := content + [Object(cb)];
      }
    }

    method FinishBlock(i: int, b: Block) returns (cb: Members)
      modifies `info
      ensures cb == Finished(lib, b) && info == BlockInfo(lib, old(info), i, b)
    {
      cb := b.block;
      if b.hasText {
        cb := cb["text" := String(Str(At(cb, "text")) + b.text)];
      }
      if b.hasJson {
        var raw := TrimSpace(b.json);
        var input := if raw == "" then Some(Object(map[])) else lib.decode(raw);
        cb := cb["input" := if input.Some? then input.value else Object(map[])];
        if input.None? {
          ErrorF(IncompleteInput(i, Str(At(cb, "name")), raw));
        }
      }
      if b.hasThinking {
        cb := cb["thinking" := String(Str(At(cb, "thinking")) + b.thinking)];
      }
      if b.signature != "" {
        cb := cb["signature" := String(b.signature)];
      }
      if b.citations != [] {
        cb := cb["citations" := Array(Arr(At(cb, "citations")) + b.citations)];
      }
    }
  }

  method ReassembleAnthropic(lib: Library, events: seq<Event>) returns (r: Option<Members>, info: Info)
    ensures r == Reassembled(lib, events) && info == StreamInfo(lib, events)
  {
    var a := new Reassembler(lib);
    TakeAll(events);
    for k := 0 to |events|
      invariant a.Valid() && a.seen == events[..k] && a.lib == lib && fresh(a)
    {
      TakeSnoc(events, k);
      a.Take(events[k]);
    }
    r := a.Finish();
    info := a.info;
  }
}
