/** Rebuilding the completion of an OpenAI chat stream. */
module OpenAiChat {
  import opened Json
  import opened JsonUtil
  import opened Options
  import opened Seqs
  import opened Sorting
  import opened Sse
  import opened Text

  datatype ToolCall = ToolCall(id: string, typ: string, name: string, args: string)

  /** A choice as it accumulates; reasoningKey is the name its reasoning came under first. */
  datatype Choice = Choice(
    role: string, content: Option<string>, refusal: Option<string>, reasoning: string, reasoningKey: string,
    toolCalls: map<int, ToolCall>, funcCall: Option<ToolCall>, finish: Value)

  const NEW_CALL := ToolCall("", "", "", "")
  const NEW_CHOICE := Choice("", None, None, "", "", map[], None, Null)

  datatype Problem = MalformedEvent(n: nat) | Reported(error: Value)

  const MAX_STREAM_ERRORS := 20

  datatype Info = Info(events: nat, last: string, complete: bool, errors: seq<Problem>)

  // ---- Tool calls --------------------------------------------------------------------

  function NonEmpty(v: Value, before: string): string {
    if Str(v) != "" then Str(v) else before
  }

  /** id, type and name are replaced when given, arguments appended. */
  function Merged(t: ToolCall, tm: Members): ToolCall {
    var f := Obj(At(tm, "function"));
    ToolCall(NonEmpty(At(tm, "id"), t.id), NonEmpty(At(tm, "type"), t.typ),
             if f.Some? then NonEmpty(At(f.value, "name"), t.name) else t.name,
             if f.Some? then t.args + Str(At(f.value, "arguments")) else t.args)
  }

  function NextCalls(lib: Library, calls: map<int, ToolCall>, tc: Value, n: nat): map<int, ToolCall> {
    match Obj(tc)
    case None => calls
    case Some(tm) =>
      var ti := IntOr(lib, At(tm, "index"), n);
      calls[ti := Merged(if ti in calls then calls[ti] else NEW_CALL, tm)]
  }

  function AfterCalls(lib: Library, calls: map<int, ToolCall>, tcs: seq<Value>): map<int, ToolCall> {
    if tcs == [] then calls
    else NextCalls(lib, AfterCalls(lib, calls, Front(tcs)), Last(tcs), |tcs| - 1)
  }

  // ---- Choices -----------------------------------------------------------------------

  function Appended(o: Option<string>, v: Value): Option<string> {
    if v.String? then Some((if o.Some? then o.value else "") + v.s) else o
  }

  function WithReasoning(ch: Choice, key: string, v: Value): Choice {
    if v.String? then
      ch.(reasoning := ch.reasoning + v.s, reasoningKey := if ch.reasoningKey == "" then key else ch.reasoningKey)
    else ch
  }

  function Called(funcCall: Option<ToolCall>, fc: Option<Members>): Option<ToolCall> {
    match fc
    case None => funcCall
    case Some(m) => Some(Merged(if funcCall.Some? then funcCall.value else NEW_CALL, map["function" := Object(m)]))
  }

  /** What an element of a chunk's choices does to its choice. */
  function Grown(lib: Library, ch: Choice, cm: Members): Choice {
    var d := MembersOf(At(cm, "delta"));
    var first := WithReasoning(ch, "reasoning_content", At(d, "reasoning_content"));
    var r := WithReasoning(first, "reasoning", At(d, "reasoning"));
    Choice(NonEmpty(At(d, "role"), ch.role), Appended(ch.content, At(d, "content")),
           Appended(ch.refusal, At(d, "refusal")),
           r.reasoning, r.reasoningKey, AfterCalls(lib, ch.toolCalls, Arr(At(d, "tool_calls"))),
           Called(ch.funcCall, Obj(At(d, "function_call"))),
           if At(cm, "finish_reason") != Null then At(cm, "finish_reason") else ch.finish)
  }

  function ChoiceIndex(lib: Library, cm: Members): int {
    IntOr(lib, At(cm, "index"), 0)
  }

  function NextChoices(lib: Library, choices: map<int, Choice>, cm: Members): map<int, Choice> {
    var idx := ChoiceIndex(lib, cm);
    choices[idx := Grown(lib, if idx in choices then choices[idx] else NEW_CHOICE, cm)]
  }

  /** The elements that are objects. */
  function Objects(vs: seq<Value>): seq<Members> {
    if vs == [] then [] else Objects(Front(vs)) + if Last(vs).Object? then [Last(vs).members] else []
  }

  function AfterChoices(lib: Library, choices: map<int, Choice>, cms: seq<Members>): map<int, Choice> {
    if cms == [] then choices else NextChoices(lib, AfterChoices(lib, choices, Front(cms)), Last(cms))
  }

  function Choices(lib: Library, cms: seq<Members>): map<int, Choice> {
    AfterChoices(lib, map[], cms)
  }

  // ---- Chunks ------------------------------------------------------------------------

  /** Whether a chunk reports an error instead: an object, or a text that is not empty. */
  predicate HasError(v: Members) {
    At(v, "error").Object? || Str(At(v, "error")) != ""
  }

  datatype Chunk = Done | Malformed | Error(error: Value) | Content(v: Members)

  function ChunkOf(lib: Library, ev: Event): Chunk {
    var data := TrimSpace(ev.data);
    if data == "[DONE]" then Done
    else
      match DecodeObject(lib, data)
      case None => Malformed
      case Some(v) => if HasError(v) then Error(At(v, "error")) else Content(v)
  }

  /** The chunks with content. */
  function Contents(lib: Library, events: seq<Event>): seq<Members> {
    if events == [] then []
    else
      Contents(lib, Front(events))
      + match ChunkOf(lib, Last(events))
        case Content(v) => [v]
        case _ => []
  }

  /** All elements of all choices. */
  function ChoiceParts(vs: seq<Members>): seq<Members> {
    if vs == [] then [] else ChoiceParts(Front(vs)) + Objects(Arr(At(Last(vs), "choices")))
  }

  const SKIPPED := {"choices", "usage", "obfuscation"}

  /** The fields the completion has a value for. */
  function Filled(base: Members): set<string> {
    set k | k in base && base[k] != Null
  }

  /** Fills in what the completion does not have yet. */
  function NextBase(base: Members, v: Members): Members {
    base + (v - SKIPPED - Filled(base))
  }

  function Base(vs: seq<Members>): Members {
    if vs == [] then map[] else NextBase(Base(Front(vs)), Last(vs))
  }

  function Usage(vs: seq<Members>): Option<Members> {
    if vs == [] then None
    else if At(Last(vs), "usage").Object? then Some(At(Last(vs), "usage").members)
    else Usage(Front(vs))
  }

  // ---- Information about the stream --------------------------------------------------

  function WithError(info: Info, p: Problem): Info {
    if |info.errors| < MAX_STREAM_ERRORS then info.(errors := info.errors + [p]) else info
  }

  function NextInfo(lib: Library, info: Info, ev: Event): Info {
    var n := info.(events := info.events + 1, last := "chunk");
    match ChunkOf(lib, ev)
    case Done => n.(complete := true, last := "[DONE]")
    case Malformed => WithError(n, MalformedEvent(n.events))
    case Error(e) => WithError(n.(last := "error"), Reported(e))
    case Content(_) => n
  }

  function Infos(lib: Library, events: seq<Event>): Info {
    if events == [] then Info(0, "", false, []) else NextInfo(lib, Infos(lib, Front(events)), Last(events))
  }

  // ---- The completion ----------------------------------------------------------------

  function TextOrNull(o: Option<string>): Value {
    match o
    case None => Null
    case Some(s) => String(s)
  }

  function FinishedCall(t: ToolCall): Value {
    Object(map["id" := String(t.id), "type" := String(if t.typ == "" then "function" else t.typ),
               "function" := Object(map["name" := String(t.name), "arguments" := String(t.args)])])
  }

  function FinishedCalls(calls: map<int, ToolCall>, order: seq<int>): seq<Value>
    requires Listed(order, calls)
  {
    if order == [] then [] else FinishedCalls(calls, Front(order)) + [FinishedCall(calls[Last(order)])]
  }

  function BareMessage(ch: Choice): Members {
    map["role" := String(if ch.role == "" then "assistant" else ch.role),
        "content" := TextOrNull(ch.content), "refusal" := TextOrNull(ch.refusal)]
  }

  function ReasonedMessage(ch: Choice): Members {
    if ch.reasoningKey != "" then BareMessage(ch)[ch.reasoningKey := String(ch.reasoning)] else BareMessage(ch)
  }

  function CallingMessage(ch: Choice, order: seq<int>): Members
    requires Listed(order, ch.toolCalls)
  {
    if ch.toolCalls != map[] then ReasonedMessage(ch)["tool_calls" := Array(FinishedCalls(ch.toolCalls, order))]
    else ReasonedMessage(ch)
  }

  function FullMessage(ch: Choice, order: seq<int>): Members
    requires Listed(order, ch.toolCalls)
  {
    if ch.funcCall.Some? then
      CallingMessage(ch, order)["function_call" :=
        Object(map["name" := String(ch.funcCall.value.name), "arguments" := String(ch.funcCall.value.args)])]
    else CallingMessage(ch, order)
  }

  function FinishedChoice(lib: Library, i: int, ch: Choice, order: seq<int>): Value
    requires Listed(order, ch.toolCalls)
  {
    Object(map["index" := Number(lib.show(i)), "message" := Object(FullMessage(ch, order)),
               "finish_reason" := ch.finish, "logprobs" := Null])
  }

  ghost function FinishedChoices(lib: Library, choices: map<int, Choice>, order: seq<int>): seq<Value>
    requires Listed(order, choices)
  {
    if order == [] then []
    else
      var i := Last(order);
      FinishedChoices(lib, choices, Front(order)) + [FinishedChoice(lib, i, choices[i], Order(choices[i].toolCalls))]
  }

  function Completion(base: Members, out: seq<Value>, usage: Option<Members>): Members {
    var m := base["object" := String("chat.completion")]["choices" := Array(out)];
    if usage.Some? then m["usage" := Object(usage.value)] else m
  }

  /** None without a chunk. */
  ghost function Reassembled(lib: Library, events: seq<Event>): Option<Members> {
    var vs := Contents(lib, events);
    if vs == [] then None
    else
      var choices := Choices(lib, ChoiceParts(vs));
      Some(Completion(Base(vs), FinishedChoices(lib, choices, Order(choices)), Usage(vs)))
  }
}
