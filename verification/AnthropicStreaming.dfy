/** Reassembly inverts streaming: however the blocks of a message were cut into deltas and
    interleaved, the same content comes back. */
module AnthropicStreaming {
  import opened Anthropic
  import opened Json
  import opened JsonUtil
  import opened Options
  import opened Seqs
  import opened Sorting
  import opened Sse
  import opened Text

  // ---- Each block by itself ----------------------------------------------------------

  /** A piece about block i; a start that does not say which comes next, after the n so far. */
  predicate About(p: Piece, i: int, n: nat) {
    (p.BlockStart? && i == if p.at.Some? then p.at.value else n) || (p.BlockDelta? && p.index == i)
  }

  /** The pieces about block i. */
  function Only(ps: seq<Piece>, i: int): seq<Piece> {
    if ps == [] then []
    else Only(Front(ps), i) + if About(Last(ps), i, |Blocks(Front(ps))|) then [Last(ps)] else []
  }

  function NextBlock(b: Option<Block>, p: Piece): Option<Block> {
    match p
    case BlockStart(_, cb) => Some(NewBlock(cb))
    case BlockDelta(_, delta) => Some(Grown(if b.Some? then b.value else Unstarted(delta), delta))
    case _ => b
  }

  /** What pieces about a single block make of it. */
  function OneBlock(ps: seq<Piece>): Option<Block> {
    if ps == [] then None else NextBlock(OneBlock(Front(ps)), Last(ps))
  }

  function BlockAt(blocks: map<int, Block>, i: int): Option<Block> {
    if i in blocks then Some(blocks[i]) else None
  }

  lemma {:induction false} OneAtATime(blocks: map<int, Block>, p: Piece, i: int)
    ensures BlockAt(NextBlocks(blocks, p), i)
         == if About(p, i, |blocks|) then NextBlock(BlockAt(blocks, i), p) else BlockAt(blocks, i)
  {
  }

  /** Interleaving does not matter: each block is what its own pieces make of it. */
  lemma {:induction false} BlocksAreSeparate(ps: seq<Piece>, i: int)
    ensures BlockAt(Blocks(ps), i) == OneBlock(Only(ps, i))
  {
    if ps != [] {
      BlocksAreSeparate(Front(ps), i);
      OneAtATime(Blocks(Front(ps)), Last(ps), i);
      FrontLastSnoc(Only(Front(ps), i), Last(ps));
      EmptyUnit(Only(Front(ps), i));
    }
  }

  // ---- Deltas ------------------------------------------------------------------------

  /** The string of a delta of some kind; empty of any other. */
  function Given(d: Members, kind: string, field: string): string {
    if Says(d, "type", kind) then TextIn(d, field) else ""
  }

  function Cited(d: Members): seq<Value> {
    if Says(d, "type", "citations_delta") && "citation" in d && d["citation"] != Null then [d["citation"]] else []
  }

  predicate HasKind(ds: seq<Members>, kind: string) {
    ds != [] && (HasKind(Front(ds), kind) || Says(Last(ds), "type", kind))
  }

  /** The strings a field has in the deltas of a kind, put together. */
  function Concat(ds: seq<Members>, kind: string, field: string): string {
    if ds == [] then ""
    else Concat(Front(ds), kind, field) + Given(Last(ds), kind, field)
  }

  /** The last signature. */
  function Signature(ds: seq<Members>): string {
    if ds == [] then ""
    else if Says(Last(ds), "type", "signature_delta") then TextIn(Last(ds), "signature")
    else Signature(Front(ds))
  }

  function Citations(ds: seq<Members>): seq<Value> {
    if ds == [] then [] else Citations(Front(ds)) + Cited(Last(ds))
  }

  /** A started block after deltas: each of its strings is what the deltas of its kind carry. */
  function Collected(cb: Members, ds: seq<Members>): Block {
    Block(cb, Concat(ds, "text_delta", "text"), HasKind(ds, "text_delta"),
          Concat(ds, "input_json_delta", "partial_json"), HasKind(ds, "input_json_delta"),
          Concat(ds, "thinking_delta", "thinking"), HasKind(ds, "thinking_delta"),
          Signature(ds), Citations(ds))
  }

  /** A delta adds what it gives to the field of its kind, and nothing to the others. */
  lemma {:induction false} StringsGrow(b: Block, d: Members)
    ensures var g := Grown(b, d);
            && g.text == b.text + Given(d, "text_delta", "text")
            && g.json == b.json + Given(d, "input_json_delta", "partial_json")
            && g.thinking == b.thinking + Given(d, "thinking_delta", "thinking")
  {
    EmptyUnit(b.text);
    EmptyUnit(b.json);
    EmptyUnit(b.thinking);
  }

  lemma {:induction false} RestGrows(b: Block, d: Members)
    ensures var g := Grown(b, d);
            && g.block == b.block && g.hasText == (b.hasText || Says(d, "type", "text_delta"))
            && g.hasJson == (b.hasJson || Says(d, "type", "input_json_delta"))
            && g.hasThinking == (b.hasThinking || Says(d, "type", "thinking_delta"))
            && g.signature == (if Says(d, "type", "signature_delta") then TextIn(d, "signature") else b.signature)
            && g.citations == b.citations + Cited(d)
  {
    EmptyUnit(b.citations);
  }

  lemma {:induction false} GrownIsCollected(start: Members, ds: seq<Members>)
    requires ds != []
    ensures Grown(Collected(start, Front(ds)), Last(ds)) == Collected(start, ds)
  {
    StringsGrow(Collected(start, Front(ds)), Last(ds));
    RestGrows(Collected(start, Front(ds)), Last(ds));
  }

  // ---- What the events of a stream say, by their members -----------------------------

  /** The objects of the events that decode. */
  function Decoded(lib: Library, events: seq<Event>): seq<Members> {
    if events == [] then []
    else
      Decoded(lib, Front(events))
      + match lib.decode(Last(events).data)
        case Some(Object(v)) => [v]
        case _ => []
  }

  predicate Opens(v: Members) {
    Says(v, "type", "message_start") && "message" in v && v["message"].Object?
  }

  predicate Changes(v: Members) {
    Says(v, "type", "message_delta")
  }

  predicate Starts(v: Members) {
    Says(v, "type", "content_block_start")
  }

  predicate Carries(v: Members) {
    Says(v, "type", "content_block_delta")
  }

  /** v is about block i; a start without an index is about the next block after the n so far,
      a delta without one about block 0. */
  predicate Concerns(lib: Library, v: Members, i: int, n: nat) {
    (Starts(v) && i == IndexIn(lib, v, n)) || (Carries(v) && i == IndexIn(lib, v, 0))
  }

  /** The blocks that the events are about. */
  function Seen(lib: Library, vs: seq<Members>): set<int> {
    if vs == [] then {}
    else
      var before := Seen(lib, Front(vs));
      before + if Starts(Last(vs)) then {IndexIn(lib, Last(vs), |before|)}
               else if Carries(Last(vs)) then {IndexIn(lib, Last(vs), 0)} else {}
  }

  /** The events about block i. */
  function Of(lib: Library, vs: seq<Members>, i: int): seq<Members> {
    if vs == [] then []
    else Of(lib, Front(vs), i) + if Concerns(lib, Last(vs), i, |Seen(lib, Front(vs))|) then [Last(vs)] else []
  }

  /** The type of a block whose start was missed. */
  function GuessedType(delta: Members): string {
    if Says(delta, "type", "input_json_delta") then "tool_use"
    else if Says(delta, "type", "thinking_delta") || Says(delta, "type", "signature_delta") then "thinking"
    else "text"
  }

  /** The events about block i end in its last start, which carries start, and then the deltas
      ds; or all are deltas, its start missed. */
  predicate Tells(evs: seq<Members>, start: Members, ds: seq<Members>) {
    && evs != []
    && if ds == [] then Starts(Last(evs)) && start == ObjectIn(Last(evs), "content_block")
       else
         && Carries(Last(evs)) && Last(ds) == ObjectIn(Last(evs), "delta")
         && if |evs| > 1 then Tells(Front(evs), start, Front(ds))
            else |ds| == 1 && start == map["type" := String(GuessedType(ds[0]))]
  }

  // ---- From events to pieces ---------------------------------------------------------

  function Classified(lib: Library, vs: seq<Members>): seq<Piece> {
    if vs == [] then [] else Classified(lib, Front(vs)) + [Classify(lib, Last(vs))]
  }

  lemma {:induction false} PiecesClassify(lib: Library, events: seq<Event>)
    ensures Pieces(lib, events) == Classified(lib, Decoded(lib, events))
  {
    if events != [] {
      var vs := Decoded(lib, Front(events));
      PiecesClassify(lib, Front(events));
      EmptyUnit(vs);
      EmptyUnit(Pieces(lib, Front(events)));
      match lib.decode(Last(events).data)
      case Some(Object(v)) => FrontLastSnoc(vs, v);
      case _ =>
    }
  }

  lemma {:induction false} ClassifyAbout(lib: Library, v: Members, i: int, n: nat)
    ensures About(Classify(lib, v), i, n) <==> Concerns(lib, v, i, n)
    ensures Classify(lib, v).BlockStart? <==> Starts(v)
    ensures Classify(lib, v).BlockDelta? <==> Carries(v)
    ensures Starts(v) ==> Classify(lib, v).block == ObjectIn(v, "content_block")
    ensures Carries(v) ==> Classify(lib, v) == BlockDelta(IndexIn(lib, v, 0), ObjectIn(v, "delta"))
  {
  }

  lemma {:induction false} SeenIsBlocks(lib: Library, vs: seq<Members>)
    ensures Blocks(Classified(lib, vs)).Keys == Seen(lib, vs)
  {
    if vs != [] {
      var v, n := Last(vs), |Seen(lib, Front(vs))|;
      SeenIsBlocks(lib, Front(vs));
      FrontLastSnoc(Classified(lib, Front(vs)), Classify(lib, v));
      ClassifyAbout(lib, v, if Starts(v) then IndexIn(lib, v, n) else IndexIn(lib, v, 0), n);
    }
  }

  lemma {:induction false} OnlyOf(lib: Library, vs: seq<Members>, i: int)
    ensures Only(Classified(lib, vs), i) == Classified(lib, Of(lib, vs, i))
  {
    if vs != [] {
      var before, v := Of(lib, Front(vs), i), Last(vs);
      OnlyOf(lib, Front(vs), i);
      SeenIsBlocks(lib, Front(vs));
      ClassifyAbout(lib, v, i, |Seen(lib, Front(vs))|);
      FrontLastSnoc(Classified(lib, Front(vs)), Classify(lib, v));
      FrontLastSnoc(before, v);
      EmptyUnit(before);
      EmptyUnit(Classified(lib, before));
    }
  }

  // ---- A block comes back ------------------------------------------------------------

  lemma {:induction false} NothingYet(start: Members)
    ensures NewBlock(start) == Collected(start, [])
  {
  }

  lemma {:induction false} GuessedStart(d: Members)
    ensures Unstarted(d) == NewBlock(map["type" := String(GuessedType(d))])
  {
  }

  /** However a block was cut into deltas, it collects what they carry. */
  lemma {:induction false} DeltasCollect(lib: Library, evs: seq<Members>, start: Members, ds: seq<Members>)
    requires Tells(evs, start, ds)
    ensures OneBlock(Classified(lib, evs)) == Some(Collected(start, ds))
  {
    var before, last := Front(evs), Last(evs);
    FrontLastSnoc(Classified(lib, before), Classify(lib, last));
    ClassifyAbout(lib, last, 0, 0);
    NothingYet(start);
    if ds != [] {
      GrownIsCollected(start, ds);
      if |evs| > 1 {
        DeltasCollect(lib, before, start, Front(ds));
      } else {
        GuessedStart(ds[0]);
        assert Front(ds) == [];
      }
    }
  }

  /** A content block to be streamed: what its start carries, and the rest, which deltas
      carry. None where no delta of that kind is sent. */
  datatype Streamed = Streamed(
    start: Members, text: Option<string>, json: Option<string>, thinking: Option<string>,
    signature: string, citations: seq<Value>)

  function Carried(ds: seq<Members>, kind: string, field: string): Option<string> {
    if HasKind(ds, kind) then Some(Concat(ds, kind, field)) else None
  }

  /** ds cuts the block into deltas, anywhere and in any order of kinds. */
  predicate Cuts(ds: seq<Members>, b: Streamed) {
    && Carried(ds, "text_delta", "text") == b.text
    && Carried(ds, "input_json_delta", "partial_json") == b.json
    && Carried(ds, "thinking_delta", "thinking") == b.thinking
    && Signature(ds) == b.signature && Citations(ds) == b.citations
  }

  ghost predicate Streams(evs: seq<Members>, b: Streamed) {
    exists ds :: Cuts(ds, b) && Tells(evs, b.start, ds)
  }

  /** The tool input a text of JSON stands for, empty if it stands for none. */
  predicate IsInput(lib: Library, v: Value, json: string) {
    var raw := TrimSpace(json);
    v == if raw != "" && lib.decode(raw).Some? then lib.decode(raw).value else Object(map[])
  }

  /** m has the string of start under k and behind it what was streamed. */
  predicate Extends(m: Members, start: Members, k: string, streamed: Option<string>) {
    if streamed.Some? then Says(m, k, TextIn(start, k) + streamed.value) else SameAt(m, start, k)
  }

  /** m is the content block streamed. */
  ghost predicate IsBlock(lib: Library, m: Members, b: Streamed) {
    && Extends(m, b.start, "text", b.text) && Extends(m, b.start, "thinking", b.thinking)
    && (if b.json.Some? then "input" in m && IsInput(lib, m["input"], b.json.value) else SameAt(m, b.start, "input"))
    && (if b.signature != "" then Says(m, "signature", b.signature) else SameAt(m, b.start, "signature"))
    && (if b.citations != []
        then "citations" in m && m["citations"] == Array(ItemsIn(b.start, "citations") + b.citations)
        else SameAt(m, b.start, "citations"))
    && forall k :: k !in ["text", "thinking", "input", "signature", "citations"] ==> SameAt(m, b.start, k)
  }

  ghost predicate ElseSame(m: Members, n: Members, k: string) {
    forall j :: j != k ==> SameAt(m, n, j)
  }

  lemma {:induction false} TextStage(lib: Library, b: Streamed, c: Block)
    requires c.hasText == b.text.Some? && (b.text.Some? ==> c.text == b.text.value)
    ensures ElseSame(WithText(c), c.block, "text") && Extends(WithText(c), c.block, "text", b.text)
  {
  }

  lemma {:induction false} InputStage(lib: Library, b: Streamed, c: Block)
    requires c.hasJson == b.json.Some? && (b.json.Some? ==> c.json == b.json.value)
    ensures var m := WithInput(lib, c);
            && ElseSame(m, WithText(c), "input")
            && if b.json.Some? then "input" in m && IsInput(lib, m["input"], b.json.value)
               else SameAt(m, WithText(c), "input")
  {
  }

  lemma {:induction false} ThinkingStage(lib: Library, b: Streamed, c: Block)
    requires c.hasThinking == b.thinking.Some? && (b.thinking.Some? ==> c.thinking == b.thinking.value)
    ensures ElseSame(WithThinking(lib, c), WithInput(lib, c), "thinking")
    ensures Extends(WithThinking(lib, c), WithInput(lib, c), "thinking", b.thinking)
  {
  }

  lemma {:induction false} SignatureStage(lib: Library, c: Block)
    ensures var m := WithSignature(lib, c);
            && ElseSame(m, WithThinking(lib, c), "signature")
            && if c.signature != "" then Says(m, "signature", c.signature)
               else SameAt(m, WithThinking(lib, c), "signature")
  {
  }

  lemma {:induction false} CitationsStage(lib: Library, c: Block)
    ensures var m, m4 := Finished(lib, c), WithSignature(lib, c);
            && ElseSame(m, m4, "citations")
            && if c.citations != []
               then "citations" in m && m["citations"] == Array(ItemsIn(m4, "citations") + c.citations)
               else SameAt(m, m4, "citations")
  {
  }

  lemma {:induction false} FinishedIsBlock(lib: Library, b: Streamed, ds: seq<Members>)
    requires Cuts(ds, b)
    ensures IsBlock(lib, Finished(lib, Collected(b.start, ds)), b)
  {
    var c := Collected(b.start, ds);
    TextStage(lib, b, c);
    InputStage(lib, b, c);
    ThinkingStage(lib, b, c);
    SignatureStage(lib, c);
    CitationsStage(lib, c);
    StagesMeet(lib, c.block, WithText(c), WithInput(lib, c), WithThinking(lib, c), WithSignature(lib, c),
               Finished(lib, c), b);
  }

  /** The stages of finishing: each changes one member. */
  ghost predicate Stages(m0: Members, m1: Members, m2: Members, m3: Members, m4: Members, m: Members) {
    && ElseSame(m1, m0, "text") && ElseSame(m2, m1, "input") && ElseSame(m3, m2, "thinking")
    && ElseSame(m4, m3, "signature") && ElseSame(m, m4, "citations")
  }

  lemma {:induction false} StagesAt(
    m0: Members, m1: Members, m2: Members, m3: Members, m4: Members, m: Members, k: string)
    requires Stages(m0, m1, m2, m3, m4, m)
    ensures k != "text" ==> SameAt(m1, m0, k)
    ensures k != "input" ==> SameAt(m2, m1, k)
    ensures k != "thinking" ==> SameAt(m3, m2, k)
    ensures k != "signature" ==> SameAt(m4, m3, k)
    ensures k != "citations" ==> SameAt(m, m4, k)
  {
  }

  lemma {:induction false} StagesMeet(
    lib: Library, m0: Members, m1: Members, m2: Members, m3: Members, m4: Members, m: Members, b: Streamed)
    requires Stages(m0, m1, m2, m3, m4, m) && m0 == b.start
    requires Extends(m1, m0, "text", b.text) && Extends(m3, m2, "thinking", b.thinking)
    requires if b.json.Some? then "input" in m2 && IsInput(lib, m2["input"], b.json.value) else SameAt(m2, m1, "input")
    requires if b.signature != "" then Says(m4, "signature", b.signature) else SameAt(m4, m3, "signature")
    requires if b.citations != []
             then "citations" in m && m["citations"] == Array(ItemsIn(m4, "citations") + b.citations)
             else SameAt(m, m4, "citations")
    ensures IsBlock(lib, m, b)
  {
    StagesAt(m0, m1, m2, m3, m4, m, "text");
    StagesAt(m0, m1, m2, m3, m4, m, "thinking");
    StagesAt(m0, m1, m2, m3, m4, m, "input");
    StagesAt(m0, m1, m2, m3, m4, m, "signature");
    StagesAt(m0, m1, m2, m3, m4, m, "citations");
    forall k | k !in ["text", "thinking", "input", "signature", "citations"]
      ensures SameAt(m, b.start, k)
    {
      StagesAt(m0, m1, m2, m3, m4, m, k);
    }
  }

  lemma {:induction false} BlockCollects(lib: Library, vs: seq<Members>, i: int, b: Streamed)
    returns (ds: seq<Members>)
    requires Streams(Of(lib, vs, i), b)
    ensures Cuts(ds, b) && BlockAt(Blocks(Classified(lib, vs)), i) == Some(Collected(b.start, ds))
  {
    var evs := Of(lib, vs, i);
    ds :| Cuts(ds, b) && Tells(evs, b.start, ds);
    BlocksAreSeparate(Classified(lib, vs), i);
    OnlyOf(lib, vs, i);
    DeltasCollect(lib, evs, b.start, ds);
  }

  lemma {:induction false} BlockComesBack(lib: Library, vs: seq<Members>, i: int, b: Streamed)
    requires Streams(Of(lib, vs, i), b)
    ensures var blocks := Blocks(Classified(lib, vs));
            i in blocks && IsBlock(lib, Finished(lib, blocks[i]), b)
  {
    var ds := BlockCollects(lib, vs, i, b);
    FinishedIsBlock(lib, b, ds);
  }

  // ---- The message comes back --------------------------------------------------------

  lemma {:induction false} ContentAt(lib: Library, blocks: map<int, Block>, order: seq<int>)
    requires Listed(order, blocks)
    ensures |Content(lib, blocks, order)| == |order|
    ensures forall k :: 0 <= k < |order| ==>
              order[k] in blocks && Content(lib, blocks, order)[k] == Object(Finished(lib, blocks[order[k]]))
  {
    if order != [] {
      ContentAt(lib, blocks, Front(order));
    }
  }

  /** The blocks wanted, in index order. */
  ghost predicate HasBlocks(lib: Library, items: seq<Value>, want: map<int, Streamed>) {
    exists order :: InOrder(order, want.Keys) && HasBlocksAt(lib, items, want, order)
  }

  ghost predicate HasBlocksAt(lib: Library, items: seq<Value>, want: map<int, Streamed>, order: seq<int>) {
    |items| == |order|
    && forall k :: 0 <= k < |order| ==>
         order[k] in want && items[k].Object? && IsBlock(lib, items[k].members, want[order[k]])
  }

  /** want has, by index, the blocks that the events tell of. */
  ghost predicate Wanted(lib: Library, vs: seq<Members>, want: map<int, Streamed>) {
    forall i :: if i in want then Streams(Of(lib, vs, i), want[i]) else Of(lib, vs, i) == []
  }

  lemma {:induction false} SameIndices(lib: Library, vs: seq<Members>, want: map<int, Streamed>)
    requires Wanted(lib, vs, want)
    ensures Blocks(Classified(lib, vs)).Keys == want.Keys
  {
    forall i
      ensures i in Blocks(Classified(lib, vs)) <==> i in want
    {
      if i in want {
        BlockComesBack(lib, vs, i, want[i]);
      } else {
            BlocksAreSeparate(Classified(lib, vs), i);
        OnlyOf(lib, vs, i);
      }
    }
  }

  lemma {:induction false} ContentComesBack(lib: Library, vs: seq<Members>, want: map<int, Streamed>)
    requires Wanted(lib, vs, want)
    ensures var blocks := Blocks(Classified(lib, vs)); HasBlocks(lib, Content(lib, blocks, Order(blocks)), want)
  {
    var blocks := Blocks(Classified(lib, vs));
    var order := Order(blocks);
    SameIndices(lib, vs, want);
    SortedIntsInOrder(want.Keys);
    ContentAt(lib, blocks, order);
    forall k | 0 <= k < |order|
      ensures order[k] in want && IsBlock(lib, Finished(lib, blocks[order[k]]), want[order[k]])
    {
      assert order[k] in blocks;
      BlockComesBack(lib, vs, order[k], want[order[k]]);
    }
    assert HasBlocksAt(lib, Content(lib, blocks, order), want, order);
  }

  /** Reassembly inverts streaming. For any blocks, cut into text, thinking, tool input,
      signature and citation deltas at any points and interleaved in any order with each other
      and with anything else the stream may contain, the message has exactly those blocks as
      its content, in index order. */
  lemma {:induction false} ReassemblyInvertsStreaming(lib: Library, events: seq<Event>, want: map<int, Streamed>)
    requires Wanted(lib, Decoded(lib, events), want)
    requires exists v :: v in Decoded(lib, events) && Opens(v)
    ensures var r := Reassembled(lib, events);
            && r.Some? && "content" in r.value && r.value["content"].Array?
            && HasBlocks(lib, r.value["content"].items, want)
  {
    var vs := Decoded(lib, events);
    PiecesClassify(lib, events);
    OpenedIsMessage(lib, vs);
    ContentComesBack(lib, vs, want);
  }

  // ---- Top-level fields and usage ----------------------------------------------------

  predicate Opened(vs: seq<Members>) {
    vs != [] && (Opened(Front(vs)) || Opens(Last(vs)))
  }

  lemma {:induction false} OpenedIsMessage(lib: Library, vs: seq<Members>)
    ensures Message(Classified(lib, vs)).Some? <==> Opened(vs)
    ensures Opened(vs) <==> exists v :: v in vs && Opens(v)
  {
    if vs != [] {
      FrontLast(vs);
      OpenedIsMessage(lib, Front(vs));
      MessageSteps(lib, vs);
    }
  }

  /** The last value of a top-level field other than usage, since the last start. */
  function LastField(vs: seq<Members>, k: string): Option<Value> {
    if vs == [] then None
    else
      var v := Last(vs);
      if Opens(v) then if k in ObjectIn(v, "message") then Some(ObjectIn(v, "message")[k]) else None
      else if Changes(v) && k in ObjectIn(v, "delta") && Opened(Front(vs)) then Some(ObjectIn(v, "delta")[k])
      else LastField(Front(vs), k)
  }

  predicate HasLast(m: Members, vs: seq<Members>, k: string) {
    (k in m <==> LastField(vs, k).Some?) && (k in m ==> m[k] == LastField(vs, k).value)
  }

  function UsageIn(m: Members, u: string): Option<Value> {
    if u in ObjectIn(m, "usage") then Some(ObjectIn(m, "usage")[u]) else None
  }

  /** The last value of a usage count; a delta that replaces usage as a whole starts it anew. */
  function LastUsage(vs: seq<Members>, u: string): Option<Value> {
    if vs == [] then None
    else
      var v := Last(vs);
      if Opens(v) then UsageIn(ObjectIn(v, "message"), u)
      else if !Changes(v) || !Opened(Front(vs)) then LastUsage(Front(vs), u)
      else if u in ObjectIn(v, "usage") then Some(ObjectIn(v, "usage")[u])
      else if "usage" in ObjectIn(v, "delta") then UsageIn(ObjectIn(v, "delta"), u)
      else LastUsage(Front(vs), u)
  }

  /** A delta's own fields, and the usage counts beside it, replace what was there. */
  lemma {:induction false} DeltaChanges(lib: Library, before: Members, v: Members, k: string, u: string)
    requires Changes(v) && k != "usage"
    ensures var m := NextMessage(Some(before), Classify(lib, v));
            && m.Some? && SameAt(m.value, if k in ObjectIn(v, "delta") then ObjectIn(v, "delta") else before, k)
            && UsageIn(m.value, u)
            == if u in ObjectIn(v, "usage") then Some(ObjectIn(v, "usage")[u])
               else UsageIn(if "usage" in ObjectIn(v, "delta") then ObjectIn(v, "delta") else before, u)
  {
  }

  lemma {:induction false} MessageSteps(lib: Library, vs: seq<Members>)
    requires vs != []
    ensures var v, before := Last(vs), Message(Classified(lib, Front(vs)));
            Message(Classified(lib, vs))
            == if Opens(v) then Some(ObjectIn(v, "message"))
               else if Changes(v) && before.Some? then NextMessage(before, Classify(lib, v)) else before
  {
    FrontLastSnoc(Classified(lib, Front(vs)), Classify(lib, Last(vs)));
  }

  /** What the classified events make of the message, field by field. */
  lemma {:induction false} FieldOfMessage(lib: Library, vs: seq<Members>, k: string)
    requires k != "usage" && Opened(vs)
    ensures var m := Message(Classified(lib, vs)); m.Some? && HasLast(m.value, vs, k)
  {
    var v, before := Last(vs), Message(Classified(lib, Front(vs)));
    MessageSteps(lib, vs);
    if !Opens(v) {
      FieldOfMessage(lib, Front(vs), k);
      if Changes(v) {
        DeltaChanges(lib, before.value, v, k, "");
      }
    }
  }

  lemma {:induction false} UsageOfMessage(lib: Library, vs: seq<Members>, u: string)
    requires Opened(vs)
    ensures var m := Message(Classified(lib, vs)); m.Some? && UsageIn(m.value, u) == LastUsage(vs, u)
  {
    var v, before := Last(vs), Message(Classified(lib, Front(vs)));
    MessageSteps(lib, vs);
    if !Opens(v) {
      UsageOfMessage(lib, Front(vs), u);
      if Changes(v) {
        DeltaChanges(lib, before.value, v, "", u);
      }
    }
  }

  /** There is a message exactly when one was started; it has the last value of each top-level
      field and of each usage count. */
  lemma {:induction false} LastValuesWin(lib: Library, events: seq<Event>, k: string, u: string)
    requires k != "usage" && k != "content"
    ensures var vs, r := Decoded(lib, events), Reassembled(lib, events);
            && (r.Some? <==> exists v :: v in vs && Opens(v))
            && (r.Some? ==> HasLast(r.value, vs, k) && UsageIn(r.value, u) == LastUsage(vs, u))
  {
    var vs := Decoded(lib, events);
    PiecesClassify(lib, events);
    OpenedIsMessage(lib, vs);
    if Opened(vs) {
      FieldOfMessage(lib, vs, k);
      UsageOfMessage(lib, vs, u);
      var ps := Pieces(lib, events);
      ContentAside(lib, Message(ps).value, Blocks(ps), vs, k, u);
    }
  }

  lemma {:induction false} ContentAside(
    lib: Library, m: Members, blocks: map<int, Block>, vs: seq<Members>, k: string, u: string)
    requires k != "content" && HasLast(m, vs, k)
    ensures HasLast(WithContent(lib, m, blocks), vs, k) && UsageIn(WithContent(lib, m, blocks), u) == UsageIn(m, u)
  {
  }

  // ---- Nothing is left out -----------------------------------------------------------

  /** The last start, and the deltas since. */
  lemma {:induction false} Telling(evs: seq<Members>) returns (start: Members, ds: seq<Members>)
    requires evs != [] && forall k :: 0 <= k < |evs| ==> Starts(evs[k]) || Carries(evs[k])
    ensures Tells(evs, start, ds)
  {
    var v := Last(evs);
    if Starts(v) {
      start, ds := ObjectIn(v, "content_block"), [];
    } else if |evs| == 1 {
      ds := [ObjectIn(v, "delta")];
      start := map["type" := String(GuessedType(ds[0]))];
    } else {
      start, ds := Telling(Front(evs));
      FrontLastSnoc(ds, ObjectIn(v, "delta"));
      ds := ds + [ObjectIn(v, "delta")];
    }
  }

  lemma {:induction false} OfConcerns(lib: Library, vs: seq<Members>, i: int, k: nat)
    requires k < |Of(lib, vs, i)|
    ensures Starts(Of(lib, vs, i)[k]) || Carries(Of(lib, vs, i)[k])
  {
    if k < |Of(lib, Front(vs), i)| {
      OfConcerns(lib, Front(vs), i, k);
    }
  }

  lemma {:induction false} SomethingStreamed(lib: Library, vs: seq<Members>, i: int) returns (b: Streamed)
    requires Of(lib, vs, i) != []
    ensures Streams(Of(lib, vs, i), b)
  {
    forall k | 0 <= k < |Of(lib, vs, i)|
      ensures Starts(Of(lib, vs, i)[k]) || Carries(Of(lib, vs, i)[k])
    {
      OfConcerns(lib, vs, i, k);
    }
    var start, ds := Telling(Of(lib, vs, i));
    b := Streamed(start, Carried(ds, "text_delta", "text"), Carried(ds, "input_json_delta", "partial_json"),
      Carried(ds, "thinking_delta", "thinking"), Signature(ds), Citations(ds));
    assert Cuts(ds, b);
  }

  ghost function StreamedOf(lib: Library, vs: seq<Members>, i: int): (b: Streamed)
    requires Of(lib, vs, i) != []
    ensures Streams(Of(lib, vs, i), b)
  {
    assert exists b :: Streams(Of(lib, vs, i), b) by {
      var b := SomethingStreamed(lib, vs, i);
    }
    var b :| Streams(Of(lib, vs, i), b);
    b
  }

  /** Whatever the stream, its events tell of some blocks. */
  lemma {:induction false} SomethingWanted(lib: Library, vs: seq<Members>) returns (want: map<int, Streamed>)
    ensures Wanted(lib, vs, want)
  {
    var blocks := Blocks(Classified(lib, vs));
    forall i
      ensures i in blocks <==> Of(lib, vs, i) != []
    {
      BlocksIffOf(lib, vs, i);
    }
    want := map i | i in blocks :: StreamedOf(lib, vs, i);
  }

  lemma {:induction false} BlocksIffOf(lib: Library, vs: seq<Members>, i: int)
    ensures i in Blocks(Classified(lib, vs)) <==> Of(lib, vs, i) != []
  {
    if Of(lib, vs, i) != [] {
      var b := SomethingStreamed(lib, vs, i);
      BlockComesBack(lib, vs, i, b);
    } else {
        BlocksAreSeparate(Classified(lib, vs), i);
      OnlyOf(lib, vs, i);
    }
  }

  // ---- What is learnt about the stream -----------------------------------------------

  /** The name of an event, or its type when it has no name. */
  function NameOf(lib: Library, ev: Event): string {
    if ev.name != "" then ev.name
    else
      match lib.decode(ev.data)
      case Some(Object(v)) => TextIn(v, "type")
      case _ => ""
  }

  /** What is wrong with the n-th event, if anything. */
  function ProblemsIn(lib: Library, ev: Event, n: nat): seq<Problem> {
    match lib.decode(ev.data)
    case Some(Object(v)) => if Says(v, "type", "error") then [Reported(ObjectIn(v, "error"))] else []
    case _ => [MalformedEvent(n, ev.name)]
  }

  function Problems(lib: Library, events: seq<Event>): seq<Problem> {
    if events == [] then [] else Problems(lib, Front(events)) + ProblemsIn(lib, Last(events), |events|)
  }

  /** The tool input of a block that does not decode. */
  function Undecoded(lib: Library, i: int, b: Streamed): seq<Problem> {
    if b.json.Some? && TrimSpace(b.json.value) != "" && lib.decode(TrimSpace(b.json.value)).None? then
      [IncompleteInput(i, TextIn(b.start, "name"), TrimSpace(b.json.value))]
    else []
  }

  function AllUndecoded(lib: Library, want: map<int, Streamed>, order: seq<int>): seq<Problem>
    requires Listed(order, want)
  {
    if order == [] then []
    else AllUndecoded(lib, want, Front(order)) + Undecoded(lib, Last(order), want[Last(order)])
  }

  predicate FirstTwenty(errors: seq<Problem>, all: seq<Problem>) {
    errors == if |all| < 20 then all else all[..20]
  }

  lemma {:induction false} OneMoreProblem(info: Info, all: seq<Problem>, p: Problem)
    requires FirstTwenty(info.errors, all)
    ensures FirstTwenty(WithError(info, p).errors, all + [p])
  {
    if |all| >= 20 {
      assert (all + [p])[..20] == all[..20];
    }
  }

  /** A message_stop. */
  predicate Stops(lib: Library, ev: Event) {
    match lib.decode(ev.data)
    case Some(Object(v)) => Says(v, "type", "message_stop")
    case _ => false
  }

  lemma {:induction false} EventTells(lib: Library, info: Info, ev: Event, all: seq<Problem>)
    requires FirstTwenty(info.errors, all)
    ensures var n := NextInfo(lib, info, ev);
            && n.events == info.events + 1 && n.last == NameOf(lib, ev)
            && n.complete == (info.complete || Stops(lib, ev))
            && FirstTwenty(n.errors, all + ProblemsIn(lib, ev, n.events))
  {
    EmptyUnit(all);
    match lib.decode(ev.data)
    case Some(Object(v)) =>
      ClassifySays(lib, v);
      OneMoreProblem(info, all, Reported(ObjectIn(v, "error")));
    case _ => OneMoreProblem(info, all, MalformedEvent(info.events + 1, ev.name));
  }

  lemma {:induction false} EventsTell(lib: Library, events: seq<Event>)
    ensures var info := Infos(lib, events);
            && info.events == |events| && info.last == (if events == [] then "" else NameOf(lib, Last(events)))
            && FirstTwenty(info.errors, Problems(lib, events))
            && (info.complete <==> exists ev :: ev in events && Stops(lib, ev))
  {
    if events != [] {
      EventsTell(lib, Front(events));
      EventTells(lib, Infos(lib, Front(events)), Last(events), Problems(lib, Front(events)));
      FrontLast(events);
    }
  }

  lemma {:induction false} ClassifySays(lib: Library, v: Members)
    ensures Classify(lib, v) == MessageStop <==> Says(v, "type", "message_stop")
    ensures Classify(lib, v).Failure? <==> Says(v, "type", "error")
    ensures Classify(lib, v).Failure? ==> Classify(lib, v) == Failure(ObjectIn(v, "error"))
  {
  }

  lemma {:induction false} InfoInOrder(lib: Library, events: seq<Event>, want: map<int, Streamed>, order: seq<int>)
    requires Wanted(lib, Decoded(lib, events), want)
    requires InOrder(order, want.Keys) && Opened(Decoded(lib, events))
    ensures var blocks := Blocks(Classified(lib, Decoded(lib, events)));
            Listed(order, blocks) && StreamInfo(lib, events) == BlocksInfo(lib, Infos(lib, events), blocks, order)
  {
    var vs := Decoded(lib, events);
    PiecesClassify(lib, events);
    OpenedIsMessage(lib, vs);
    SameIndices(lib, vs, want);
    SortedIntsInOrder(want.Keys);
    OneOrder(order, Order(Blocks(Classified(lib, vs))), want.Keys);
  }

  /** The number of events, how the stream ended, and the first twenty problems: those of the
      events as they came, and then, in index order, the tool inputs that do not decode. */
  lemma {:induction false} InfoTells(lib: Library, events: seq<Event>, want: map<int, Streamed>, order: seq<int>)
    requires Wanted(lib, Decoded(lib, events), want)
    requires InOrder(order, want.Keys) && Listed(order, want)
    ensures var vs, info := Decoded(lib, events), StreamInfo(lib, events);
            && info.events == |events| && info.last == (if events == [] then "" else NameOf(lib, Last(events)))
            && (info.complete <==> exists ev :: ev in events && Stops(lib, ev))
            && FirstTwenty(info.errors,
                           Problems(lib, events) + if Opened(vs) then AllUndecoded(lib, want, order) else [])
  {
    var vs := Decoded(lib, events);
    EventsTell(lib, events);
    if Opened(vs) {
      InfoInOrder(lib, events, want, order);
      BlocksTell(lib, vs, want, order, Infos(lib, events), Problems(lib, events));
    } else {
      EmptyUnit(Problems(lib, events));
      PiecesClassify(lib, events);
      OpenedIsMessage(lib, vs);
    }
  }

  lemma {:induction false} BlocksTell(
    lib: Library, vs: seq<Members>, want: map<int, Streamed>, order: seq<int>, info: Info, all: seq<Problem>)
    requires Wanted(lib, vs, want)
    requires Listed(order, want) && Listed(order, Blocks(Classified(lib, vs))) && FirstTwenty(info.errors, all)
    ensures var i := BlocksInfo(lib, info, Blocks(Classified(lib, vs)), order);
            i == info.(errors := i.errors) && FirstTwenty(i.errors, all + AllUndecoded(lib, want, order))
  {
    EmptyUnit(all);
    if order != [] {
      var blocks, before := Blocks(Classified(lib, vs)), AllUndecoded(lib, want, Front(order));
      BlocksTell(lib, vs, want, Front(order), info, all);
      BlockTells(lib, vs, Last(order), want[Last(order)], BlocksInfo(lib, info, blocks, Front(order)), all + before);
      Assoc(all, before, Undecoded(lib, Last(order), want[Last(order)]));
    }
  }

  lemma {:induction false} BlockTells(
    lib: Library, vs: seq<Members>, i: int, b: Streamed, info: Info, all: seq<Problem>)
    requires Streams(Of(lib, vs, i), b) && FirstTwenty(info.errors, all)
    requires i in Blocks(Classified(lib, vs))
    ensures var n := BlockInfo(lib, info, i, Blocks(Classified(lib, vs))[i]);
            n == info.(errors := n.errors) && FirstTwenty(n.errors, all + Undecoded(lib, i, b))
  {
    var ds := BlockCollects(lib, vs, i, b);
    NameKept(lib, Collected(b.start, ds));
    EmptyUnit(all);
    if Undecoded(lib, i, b) != [] {
      OneMoreProblem(info, all, Undecoded(lib, i, b)[0]);
    }
  }

  lemma {:induction false} NameKept(lib: Library, c: Block)
    ensures Str(At(WithInput(lib, c), "name")) == TextIn(c.block, "name")
  {
  }

  // ---- A stream that says Hello ------------------------------------------------------

  predicate IsTextDelta(lib: Library, v: Members, text: string) {
    && Carries(v) && IndexIn(lib, v, 0) == 0
    && Says(ObjectIn(v, "delta"), "type", "text_delta") && Says(ObjectIn(v, "delta"), "text", text)
  }

  /** A message is started, and in it an empty text block; two deltas for it; the end. */
  predicate SaysHello(lib: Library, vs: seq<Members>) {
    && |vs| == 5 && Opens(vs[0]) && Says(vs[4], "type", "message_stop")
    && Starts(vs[1]) && IndexIn(lib, vs[1], 0) == 0
    && Says(ObjectIn(vs[1], "content_block"), "type", "text") && Says(ObjectIn(vs[1], "content_block"), "text", "")
    && IsTextDelta(lib, vs[2], "Hel") && IsTextDelta(lib, vs[3], "lo")
  }

  lemma {:induction false} OfTake(lib: Library, vs: seq<Members>, i: int, k: nat)
    requires k < |vs|
    ensures Of(lib, vs[..k + 1], i)
         == Of(lib, vs[..k], i) + if Concerns(lib, vs[k], i, |Seen(lib, vs[..k])|) then [vs[k]] else []
  {
    TakeSnoc(vs, k);
    FrontLastSnoc(vs[..k], vs[k]);
  }

  lemma {:induction false} HelloConcerns(lib: Library, vs: seq<Members>, i: int, k: nat, n: nat)
    requires SaysHello(lib, vs) && k < 5 && (k == 1 ==> n == 0)
    ensures Concerns(lib, vs[k], i, n) <==> i == 0 && 1 <= k < 4
  {
  }

  lemma {:induction false} HelloStart(lib: Library, vs: seq<Members>)
    requires SaysHello(lib, vs)
    ensures |Seen(lib, vs[..1])| == 0
  {
    assert Front(vs[..1]) == [];
    HelloConcerns(lib, vs, 0, 0, 0);
  }

  predicate ConcernsAt(lib: Library, vs: seq<Members>, i: int, k: nat)
    requires k < |vs|
  {
    Concerns(lib, vs[k], i, |Seen(lib, vs[..k])|)
  }

  lemma {:induction false} NextOf(lib: Library, vs: seq<Members>, i: int, k: nat, before: seq<Members>)
    requires k < |vs| && Of(lib, vs[..k], i) == before
    ensures Of(lib, vs[..k + 1], i) == if ConcernsAt(lib, vs, i, k) then before + [vs[k]] else before
  {
    OfTake(lib, vs, i, k);
    EmptyUnit(before);
  }

  /** All events from the second on are about block i, and not the first. */
  lemma {:induction false} TailOf(lib: Library, vs: seq<Members>, i: int, k: nat)
    requires 1 <= k < |vs| && !ConcernsAt(lib, vs, i, 0)
    requires forall j :: 1 <= j < k ==> ConcernsAt(lib, vs, i, j)
    ensures Of(lib, vs[..k], i) == vs[1..k]
  {
    assert Of(lib, vs[..0], i) == [];
    hide *;
    if k == 1 {
      NextOf(lib, vs, i, 0, []);
    } else {
      TailOf(lib, vs, i, k - 1);
      NextOf(lib, vs, i, k - 1, vs[1..k - 1]);
      assert vs[1..k] == vs[1..k - 1] + [vs[k - 1]];
    }
  }

  /** Of five events those between the first and the last are about block i. */
  lemma {:induction false} MiddleOf(lib: Library, vs: seq<Members>, i: int)
    requires |vs| == 5 && forall j :: 0 <= j < 5 ==> (ConcernsAt(lib, vs, i, j) <==> 1 <= j < 4)
    ensures Of(lib, vs, i) == [vs[1], vs[2], vs[3]]
  {
    TailOf(lib, vs, i, 4);
    NextOf(lib, vs, i, 4, vs[1..4]);
    TakeAll(vs);
  }

  lemma {:induction false} NothingOf(lib: Library, vs: seq<Members>, i: int, k: nat)
    requires k <= |vs| && forall j :: 0 <= j < |vs| ==> !ConcernsAt(lib, vs, i, j)
    ensures Of(lib, vs[..k], i) == []
  {
    if k > 0 {
      NothingOf(lib, vs, i, k - 1);
      OfTake(lib, vs, i, k - 1);
      assert !ConcernsAt(lib, vs, i, k - 1);
    }
  }

  lemma {:induction false} HelloIsAbout(lib: Library, vs: seq<Members>, i: int)
    requires SaysHello(lib, vs)
    ensures Of(lib, vs, i) == if i == 0 then [vs[1], vs[2], vs[3]] else []
  {
    HelloStart(lib, vs);
    forall k | 0 <= k < 5
      ensures ConcernsAt(lib, vs, i, k) <==> i == 0 && 1 <= k < 4
    {
      HelloConcerns(lib, vs, i, k, |Seen(lib, vs[..k])|);
    }
    if i == 0 {
      MiddleOf(lib, vs, i);
    } else {
      NothingOf(lib, vs, i, 5);
      TakeAll(vs);
    }
  }

  /** A text delta is of no other kind. */
  lemma {:induction false} OnlyText(d: Members)
    requires Says(d, "type", "text_delta")
    ensures !Says(d, "type", "input_json_delta") && !Says(d, "type", "thinking_delta")
    ensures !Says(d, "type", "signature_delta") && !Says(d, "type", "citations_delta")
  {
    assert "text_delta"[0] != "input_json_delta"[0] && "text_delta"[1] != "thinking_delta"[1];
    assert "text_delta"[0] != "signature_delta"[0] && "text_delta"[0] != "citations_delta"[0];
  }

  lemma {:induction false} NoneOfKind(d1: Members, d2: Members, kind: string, field: string)
    requires !Says(d1, "type", kind) && !Says(d2, "type", kind)
    ensures Carried([d1, d2], kind, field) == None
  {
    assert Front([d1]) == [] && Front([d1, d2]) == [d1];
    assert !HasKind([d1], kind);
  }

  lemma {:induction false} NothingElse(d1: Members, d2: Members)
    requires !Says(d1, "type", "signature_delta") && !Says(d2, "type", "signature_delta")
    requires !Says(d1, "type", "citations_delta") && !Says(d2, "type", "citations_delta")
    ensures Signature([d1, d2]) == "" && Citations([d1, d2]) == []
  {
    assert Front([d1]) == [] && Front([d1, d2]) == [d1];
    assert Cited(d1) == [] && Cited(d2) == [];
    assert Citations([d1]) == Citations(Front([d1])) + [];
    assert Signature([d1]) == "" && Citations([d1]) == [];
  }

  lemma {:induction false} HelloCuts(start: Members, d1: Members, d2: Members)
    requires Says(d1, "type", "text_delta") && Says(d1, "text", "Hel")
    requires Says(d2, "type", "text_delta") && Says(d2, "text", "lo")
    ensures Cuts([d1, d2], Streamed(start, Some("Hello"), None, None, "", []))
  {
    assert Front([d1]) == [] && Front([d1, d2]) == [d1];
    OnlyText(d1);
    OnlyText(d2);
    NoneOfKind(d1, d2, "input_json_delta", "partial_json");
    NoneOfKind(d1, d2, "thinking_delta", "thinking");
    NothingElse(d1, d2);
    assert "Hel" + "lo" == "Hello" && Concat([d1], "text_delta", "text") == "Hel";
  }

  lemma {:induction false} HelloTells(lib: Library, vs: seq<Members>)
    requires SaysHello(lib, vs)
    ensures Tells([vs[1], vs[2], vs[3]], ObjectIn(vs[1], "content_block"),
                  [ObjectIn(vs[2], "delta"), ObjectIn(vs[3], "delta")])
  {
    var start, d1, d2 := ObjectIn(vs[1], "content_block"), ObjectIn(vs[2], "delta"), ObjectIn(vs[3], "delta");
    FrontLastSnoc([], d1);
    FrontLastSnoc([d1], d2);
    FrontLastSnoc([vs[1], vs[2]], vs[3]);
    FrontLastSnoc([vs[1]], vs[2]);
    assert Tells([vs[1]], start, []);
    assert Tells([vs[1], vs[2]], start, [d1]);
  }

  lemma {:induction false} HelloWanted(lib: Library, vs: seq<Members>, b: Streamed)
    requires SaysHello(lib, vs) && b == Streamed(ObjectIn(vs[1], "content_block"), Some("Hello"), None, None, "", [])
    ensures Wanted(lib, vs, map[0 := b])
  {
    HelloCuts(b.start, ObjectIn(vs[2], "delta"), ObjectIn(vs[3], "delta"));
    HelloTells(lib, vs);
    forall i
      ensures if i == 0 then Streams(Of(lib, vs, i), b) else Of(lib, vs, i) == []
    {
      HelloIsAbout(lib, vs, i);
    }
  }

  /** Its message has one text block, which reads Hello. */
  lemma {:induction false} HelloComesBack(lib: Library, events: seq<Event>)
    requires SaysHello(lib, Decoded(lib, events))
    ensures var r := Reassembled(lib, events);
            && r.Some? && "content" in r.value && r.value["content"].Array? && |r.value["content"].items| == 1
            && r.value["content"].items[0].Object?
            && Says(r.value["content"].items[0].members, "type", "text")
            && Says(r.value["content"].items[0].members, "text", "Hello")
  {
    var vs := Decoded(lib, events);
    var b := Streamed(ObjectIn(vs[1], "content_block"), Some("Hello"), None, None, "", []);
    HelloWanted(lib, vs, b);
    assert vs[0] in vs;
    ReassemblyInvertsStreaming(lib, events, map[0 := b]);
    OneWanted(lib, Reassembled(lib, events).value["content"].items, b);
    HelloBlock(lib, Reassembled(lib, events).value["content"].items[0].members, b);
  }

  lemma {:induction false} HelloBlock(lib: Library, m: Members, b: Streamed)
    requires IsBlock(lib, m, b) && b.text == Some("Hello")
    requires Says(b.start, "type", "text") && Says(b.start, "text", "")
    ensures Says(m, "type", "text") && Says(m, "text", "Hello")
  {
    assert "" + "Hello" == "Hello";
    assert SameAt(m, b.start, "type");
  }

  lemma {:induction false} OneWanted(lib: Library, items: seq<Value>, b: Streamed)
    requires HasBlocks(lib, items, map[0 := b])
    ensures |items| == 1 && items[0].Object? && IsBlock(lib, items[0].members, b)
  {
    var want := map[0 := b];
    var order :| InOrder(order, want.Keys) && HasBlocksAt(lib, items, want, order);
    OneOrder(order, [0], want.Keys);
  }
}
