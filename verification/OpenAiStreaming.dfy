/** Reassembly inverts streaming: however the choices and tool calls of a completion were cut
    into chunks and interleaved, the same completion comes back. */
module OpenAiStreaming {
  import opened Json
  import opened JsonUtil
  import opened OpenAiChat
  import opened Options
  import opened Seqs
  import opened Sorting
  import opened Sse
  import opened Text

  // ---- Each choice by itself ---------------------------------------------------------

  /** The elements for choice i, over all chunks. */
  function Only(lib: Library, cms: seq<Members>, i: int): seq<Members> {
    if cms == [] then []
    else Only(lib, Front(cms), i) + if IndexIn(lib, Last(cms), 0) == i then [Last(cms)] else []
  }

  /** What the elements of a single choice make of it. */
  function OneChoice(lib: Library, ds: seq<Members>): Choice {
    if ds == [] then NEW_CHOICE else Grown(lib, OneChoice(lib, Front(ds)), Last(ds))
  }

  lemma {:induction false} SameIndex(lib: Library, m: Members, d: int)
    ensures IntOr(lib, At(m, "index"), d) == IndexIn(lib, m, d)
  {
  }

  lemma {:induction false} OneAtATime(lib: Library, choices: map<int, Choice>, cm: Members, i: int)
    ensures var m := NextChoices(lib, choices, cm);
            && (i in m <==> i in choices || IndexIn(lib, cm, 0) == i)
            && (i in m ==> m[i] == if IndexIn(lib, cm, 0) != i then choices[i]
                                   else Grown(lib, if i in choices then choices[i] else NEW_CHOICE, cm))
  {
    SameIndex(lib, cm, 0);
  }

  lemma {:induction false} ChoicesAreSeparate(lib: Library, cms: seq<Members>, i: int)
    ensures var m := Choices(lib, cms);
            (i in m <==> Only(lib, cms, i) != []) && (i in m ==> m[i] == OneChoice(lib, Only(lib, cms, i)))
  {
    if cms != [] {
      ChoicesAreSeparate(lib, Front(cms), i);
      OneAtATime(lib, Choices(lib, Front(cms)), Last(cms), i);
      FrontLastSnoc(Only(lib, Front(cms), i), Last(cms));
      EmptyUnit(Only(lib, Front(cms), i));
    }
  }

  // ---- What the elements of a choice carry -------------------------------------------

  function Delta(cm: Members): Members {
    ObjectIn(cm, "delta")
  }

  /** The strings a field has in the deltas, put together; None if it has none. */
  function Concat(ds: seq<Members>, field: string): Option<string> {
    if ds == [] then None
    else
      var d, before := Delta(Last(ds)), Concat(Front(ds), field);
      if field !in d || !d[field].String? then before
      else if before.Some? then Some(before.value + d[field].s) else Some(d[field].s)
  }

  /** The last role that is not empty. */
  function Role(ds: seq<Members>): string {
    if ds == [] then ""
    else if TextIn(Delta(Last(ds)), "role") != "" then TextIn(Delta(Last(ds)), "role")
    else Role(Front(ds))
  }

  /** The last finish reason that is not null. */
  function FinishReason(ds: seq<Members>): Value {
    if ds == [] then Null
    else if "finish_reason" in Last(ds) && Last(ds)["finish_reason"] != Null then Last(ds)["finish_reason"]
    else FinishReason(Front(ds))
  }

  /** One part of a tool call, and which call it is for. */
  datatype Part = Part(index: int, fields: Members)

  function PartsIn(lib: Library, tcs: seq<Value>): seq<Part> {
    if tcs == [] then []
    else
      PartsIn(lib, Front(tcs))
      + if Last(tcs).Object?
        then [Part(IndexIn(lib, Last(tcs).members, |tcs| - 1), Last(tcs).members)] else []
  }

  function Parts(lib: Library, ds: seq<Members>): seq<Part> {
    if ds == [] then [] else Parts(lib, Front(ds)) + PartsIn(lib, ItemsIn(Delta(Last(ds)), "tool_calls"))
  }

  /** The fields of the parts of call t. */
  function OnlyCall(ps: seq<Part>, t: int): seq<Members> {
    if ps == [] then [] else OnlyCall(Front(ps), t) + if Last(ps).index == t then [Last(ps).fields] else []
  }

  function FunctionCalls(ds: seq<Members>): seq<Members> {
    if ds == [] then []
    else
      var d := Delta(Last(ds));
      FunctionCalls(Front(ds))
      + if "function_call" in d && d["function_call"].Object? then [map["function" := d["function_call"]]] else []
  }

  // ---- Tool calls --------------------------------------------------------------------

  /** The last value of a field that is not empty. */
  function LastText(ms: seq<Members>, field: string): string {
    if ms == [] then ""
    else if TextIn(Last(ms), field) != "" then TextIn(Last(ms), field)
    else LastText(Front(ms), field)
  }

  function FunctionOf(m: Members): Members {
    ObjectIn(m, "function")
  }

  function LastName(ms: seq<Members>): string {
    if ms == [] then ""
    else if TextIn(FunctionOf(Last(ms)), "name") != "" then TextIn(FunctionOf(Last(ms)), "name")
    else LastName(Front(ms))
  }

  /** All arguments put together. */
  function Arguments(ms: seq<Members>): string {
    if ms == [] then "" else Arguments(Front(ms)) + TextIn(FunctionOf(Last(ms)), "arguments")
  }

  function CallOf(ms: seq<Members>): ToolCall {
    ToolCall(LastText(ms, "id"), LastText(ms, "type"), LastName(ms), Arguments(ms))
  }

  lemma {:induction false} CallGrows(ms: seq<Members>, m: Members)
    ensures CallOf(ms + [m]) == Merged(CallOf(ms), m)
  {
    FrontLastSnoc(ms, m);
    EmptyUnit(Arguments(ms));
  }

  function NextPart(calls: map<int, ToolCall>, p: Part): map<int, ToolCall> {
    calls[p.index := Merged(if p.index in calls then calls[p.index] else NEW_CALL, p.fields)]
  }

  function CallsOf(ps: seq<Part>): map<int, ToolCall> {
    if ps == [] then map[] else NextPart(CallsOf(Front(ps)), Last(ps))
  }

  /** Interleaving does not matter: each call is what its own parts carry. */
  lemma {:induction false} CallsAreSeparate(ps: seq<Part>, t: int)
    ensures var m := CallsOf(ps);
            (t in m <==> OnlyCall(ps, t) != []) && (t in m ==> m[t] == CallOf(OnlyCall(ps, t)))
  {
    if ps != [] {
      CallsAreSeparate(Front(ps), t);
      CallGrows(OnlyCall(Front(ps), t), Last(ps).fields);
      EmptyUnit(OnlyCall(Front(ps), t));
    }
  }

  lemma {:induction false} AfterCallsAreParts(lib: Library, ps: seq<Part>, tcs: seq<Value>)
    ensures AfterCalls(lib, CallsOf(ps), tcs) == CallsOf(ps + PartsIn(lib, tcs))
  {
    if tcs == [] {
      EmptyUnit(ps);
    } else {
      AfterCallsAreParts(lib, ps, Front(tcs));
      var before := PartsIn(lib, Front(tcs));
      EmptyUnit(before);
      if Last(tcs).Object? {
        var p := Part(IndexIn(lib, Last(tcs).members, |tcs| - 1), Last(tcs).members);
        SameIndex(lib, p.fields, |tcs| - 1);
        SnocOfSnoc(ps, before, p);
        FrontLastSnoc(ps + before, p);
      }
    }
  }

  // ---- A choice is what its elements carry -------------------------------------------

  /** All reasoning, under either name, put together in the order it came. */
  function Reasoning(ds: seq<Members>): string {
    if ds == [] then ""
    else Reasoning(Front(ds)) + TextIn(Delta(Last(ds)), "reasoning_content") + TextIn(Delta(Last(ds)), "reasoning")
  }

  predicate HasText(m: Members, k: string) {
    k in m && m[k].String?
  }

  /** The name under which reasoning came first; "" if there was none. */
  function ReasoningKey(ds: seq<Members>): string {
    if ds == [] then ""
    else if ReasoningKey(Front(ds)) != "" then ReasoningKey(Front(ds))
    else if HasText(Delta(Last(ds)), "reasoning_content") then "reasoning_content"
    else if HasText(Delta(Last(ds)), "reasoning") then "reasoning"
    else ""
  }

  function Function(ds: seq<Members>): Option<ToolCall> {
    if FunctionCalls(ds) == [] then None else Some(CallOf(FunctionCalls(ds)))
  }

  /** A choice put together from what its elements carry. */
  function Collected(lib: Library, ds: seq<Members>): Choice {
    Choice(Role(ds), Concat(ds, "content"), Concat(ds, "refusal"), Reasoning(ds), ReasoningKey(ds),
           CallsOf(Parts(lib, ds)), Function(ds), FinishReason(ds))
  }

  lemma {:induction false} FunctionGrows(ds: seq<Members>)
    requires ds != []
    ensures Function(ds) == Called(Function(Front(ds)), Obj(At(Delta(Last(ds)), "function_call")))
  {
    var before, fc := FunctionCalls(Front(ds)), At(Delta(Last(ds)), "function_call");
    EmptyUnit(before);
    if fc.Object? {
      CallGrows(before, map["function" := fc]);
    }
  }

  lemma {:induction false} ReasoningGrows(ds: seq<Members>, ch: Choice)
    requires ds != [] && ch.reasoning == Reasoning(Front(ds)) && ch.reasoningKey == ReasoningKey(Front(ds))
    ensures var d := Delta(Last(ds));
            var first := WithReasoning(ch, "reasoning_content", At(d, "reasoning_content"));
            var r := WithReasoning(first, "reasoning", At(d, "reasoning"));
            r.reasoning == Reasoning(ds) && r.reasoningKey == ReasoningKey(ds)
  {
    var d := Delta(Last(ds));
    EmptyUnit(ch.reasoning);
    EmptyUnit(ch.reasoning + Str(At(d, "reasoning_content")));
  }

  lemma {:induction false} TextGrows(ds: seq<Members>, field: string)
    requires ds != []
    ensures Concat(ds, field) == Appended(Concat(Front(ds), field), At(Delta(Last(ds)), field))
  {
    var v := At(Delta(Last(ds)), field);
    if v.String? {
      EmptyUnit(v.s);
    }
  }

  lemma {:induction false} ChoiceCollects(lib: Library, ds: seq<Members>)
    ensures OneChoice(lib, ds) == Collected(lib, ds)
  {
    if ds != [] {
      var ch := OneChoice(lib, Front(ds));
      ChoiceCollects(lib, Front(ds));
      ChoiceStep(lib, ds, ch);
    }
  }

  lemma {:induction false} ChoiceStep(lib: Library, ds: seq<Members>, ch: Choice)
    requires ds != [] && ch == Collected(lib, Front(ds))
    ensures Grown(lib, ch, Last(ds)) == Collected(lib, ds)
  {
    var g, c := Grown(lib, ch, Last(ds)), Collected(lib, ds);
    assert g.content == c.content by { TextGrows(ds, "content"); }
    assert g.refusal == c.refusal by { TextGrows(ds, "refusal"); }
    assert g.reasoning == c.reasoning && g.reasoningKey == c.reasoningKey by { ReasoningGrows(ds, ch); }
    assert g.funcCall == c.funcCall by { FunctionGrows(ds); }
    assert g.toolCalls == c.toolCalls by {
      AfterCallsAreParts(lib, Parts(lib, Front(ds)), Arr(At(Delta(Last(ds)), "tool_calls")));
    }
    assert g.role == c.role && g.finish == c.finish;
  }

  // ---- A completion that is streamed -------------------------------------------------

  /** A choice to be streamed, its tool calls by index; None where nothing of that kind is
      sent, and no key where no reasoning is. */
  datatype Streamed = Streamed(
    role: string, content: Option<string>, refusal: Option<string>, reasoning: string, key: string,
    calls: map<int, ToolCall>, function_: Option<ToolCall>, finish: Value)

  /** ds cuts the call into parts, anywhere. */
  predicate CutsCall(ms: seq<Members>, t: ToolCall) {
    ms != [] && CallOf(ms) == t
  }

  /** ds cuts the choice into elements, anywhere, its calls interleaved in any order. */
  ghost predicate Cuts(lib: Library, ds: seq<Members>, c: Streamed) {
    && ds != [] && Role(ds) == c.role && Concat(ds, "content") == c.content && Concat(ds, "refusal") == c.refusal
    && Reasoning(ds) == c.reasoning && ReasoningKey(ds) == c.key
    && Function(ds) == c.function_ && FinishReason(ds) == c.finish
    && forall t :: if t in c.calls then CutsCall(OnlyCall(Parts(lib, ds), t), c.calls[t])
                   else OnlyCall(Parts(lib, ds), t) == []
  }

  /** The choice streamed. */
  function Whole(c: Streamed): Choice {
    Choice(c.role, c.content, c.refusal, c.reasoning, c.key, c.calls, c.function_, c.finish)
  }

  lemma {:induction false} CallsComeBack(ps: seq<Part>, calls: map<int, ToolCall>)
    requires forall t :: if t in calls then CutsCall(OnlyCall(ps, t), calls[t]) else OnlyCall(ps, t) == []
    ensures CallsOf(ps) == calls
  {
    var m := CallsOf(ps);
    forall t
      ensures (t in m <==> t in calls) && (t in m ==> m[t] == calls[t])
    {
      CallsAreSeparate(ps, t);
    }
  }

  lemma {:induction false} ChoiceComesBack(lib: Library, ds: seq<Members>, c: Streamed)
    requires Cuts(lib, ds, c)
    ensures OneChoice(lib, ds) == Whole(c)
  {
    ChoiceCollects(lib, ds);
    CallsComeBack(Parts(lib, ds), c.calls);
  }

  lemma {:induction false} ChoicesComeBack(lib: Library, cms: seq<Members>, want: map<int, Streamed>)
    requires Wanted(lib, cms, want)
    ensures Choices(lib, cms).Keys == want.Keys
    ensures forall i :: i in want ==> Choices(lib, cms)[i] == Whole(want[i])
  {
    var m := Choices(lib, cms);
    forall i
      ensures (i in m <==> i in want) && (i in want ==> m[i] == Whole(want[i]))
    {
      ChoicesAreSeparate(lib, cms, i);
      if i in want {
        ChoiceComesBack(lib, Only(lib, cms, i), want[i]);
      }
    }
  }

  // ---- The completion read -----------------------------------------------------------

  /** want has, by index, the choices that the elements cut. */
  ghost predicate Wanted(lib: Library, cms: seq<Members>, want: map<int, Streamed>) {
    forall i :: if i in want then Cuts(lib, Only(lib, cms, i), want[i]) else Only(lib, cms, i) == []
  }

  /** v is the object of a tool call. */
  predicate IsCall(v: Value, t: ToolCall) {
    && v.Object? && v.members.Keys == {"id", "type", "function"}
    && Says(v.members, "id", t.id) && Says(v.members, "type", if t.typ != "" then t.typ else "function")
    && v.members["function"].Object? && IsFunction(v.members["function"].members, t)
  }

  predicate IsFunction(m: Members, t: ToolCall) {
    m.Keys == {"name", "arguments"} && Says(m, "name", t.name) && Says(m, "arguments", t.args)
  }

  /** The calls wanted, in index order. */
  ghost predicate HasCalls(items: seq<Value>, calls: map<int, ToolCall>) {
    exists order :: InOrder(order, calls.Keys) && HasCallsAt(items, calls, order)
  }

  ghost predicate HasCallsAt(items: seq<Value>, calls: map<int, ToolCall>, order: seq<int>) {
    |items| == |order|
    && forall k :: 0 <= k < |order| ==> order[k] in calls && IsCall(items[k], calls[order[k]])
  }

  /** The text under k, or null. */
  predicate IsTextOrNull(m: Members, k: string, text: Option<string>) {
    k in m && m[k] == if text.Some? then String(text.value) else Null
  }

  /** m is the message of the choice streamed. */
  ghost predicate IsMessage(m: Members, c: Streamed) {
    && Says(m, "role", if c.role != "" then c.role else "assistant")
    && IsTextOrNull(m, "content", c.content) && IsTextOrNull(m, "refusal", c.refusal)
    && (c.key != "" ==> Says(m, c.key, c.reasoning))
    && ("tool_calls" in m <==> c.calls != map[])
    && (c.calls != map[] ==> m["tool_calls"].Array? && HasCalls(m["tool_calls"].items, c.calls))
    && ("function_call" in m <==> c.function_.Some?)
    && (c.function_.Some? ==> m["function_call"].Object? && IsFunction(m["function_call"].members, c.function_.value))
    && forall k :: k in m ==> k == c.key || k in ["role", "content", "refusal", "tool_calls", "function_call"]
  }

  /** v is the choice streamed, under index i. */
  ghost predicate IsChoice(lib: Library, v: Value, i: int, c: Streamed) {
    && v.Object? && v.members.Keys == {"index", "message", "finish_reason", "logprobs"}
    && v.members["index"] == Number(lib.show(i)) && v.members["finish_reason"] == c.finish
    && v.members["logprobs"] == Null
    && v.members["message"].Object? && IsMessage(v.members["message"].members, c)
  }

  /** The choices wanted, in index order. */
  ghost predicate HasChoices(lib: Library, items: seq<Value>, want: map<int, Streamed>) {
    exists order :: InOrder(order, want.Keys) && HasChoicesAt(lib, items, want, order)
  }

  ghost predicate HasChoicesAt(lib: Library, items: seq<Value>, want: map<int, Streamed>, order: seq<int>) {
    |items| == |order|
    && forall k :: 0 <= k < |order| ==> order[k] in want && IsChoice(lib, items[k], order[k], want[order[k]])
  }

  lemma {:induction false} FinishedIsCall(t: ToolCall)
    ensures IsCall(FinishedCall(t), t)
  {
  }

  lemma {:induction false} FinishedCallsAt(calls: map<int, ToolCall>, order: seq<int>)
    requires Listed(order, calls)
    ensures |FinishedCalls(calls, order)| == |order|
    ensures forall k :: 0 <= k < |order| ==>
              order[k] in calls && FinishedCalls(calls, order)[k] == FinishedCall(calls[order[k]])
  {
    if order != [] {
      FinishedCallsAt(calls, Front(order));
    }
  }

  lemma {:induction false} CallsAt(calls: map<int, ToolCall>, order: seq<int>)
    requires Listed(order, calls)
    ensures HasCallsAt(FinishedCalls(calls, order), calls, order)
  {
    FinishedCallsAt(calls, order);
    forall k | 0 <= k < |order|
      ensures order[k] in calls && IsCall(FinishedCalls(calls, order)[k], calls[order[k]])
    {
      FinishedIsCall(calls[order[k]]);
    }
  }

  lemma {:induction false} CallsListed(calls: map<int, ToolCall>)
    ensures HasCalls(FinishedCalls(calls, Order(calls)), calls)
  {
    SortedIntsInOrder(calls.Keys);
    CallsAt(calls, Order(calls));
  }

  lemma {:induction false} KeyOf(lib: Library, ds: seq<Members>, c: Streamed)
    requires Cuts(lib, ds, c)
    ensures c.key in ["", "reasoning_content", "reasoning"]
  {
    KeyIs(ds);
  }

  lemma {:induction false} KeyIs(ds: seq<Members>)
    ensures ReasoningKey(ds) in ["", "reasoning_content", "reasoning"]
  {
    if ds != [] {
      KeyIs(Front(ds));
    }
  }

  lemma {:induction false} BareIs(c: Streamed)
    requires c.key in ["", "reasoning_content", "reasoning"]
    ensures var m := ReasonedMessage(Whole(c));
            && Says(m, "role", if c.role != "" then c.role else "assistant")
            && IsTextOrNull(m, "content", c.content) && IsTextOrNull(m, "refusal", c.refusal)
            && (c.key != "" ==> Says(m, c.key, c.reasoning)) && "tool_calls" !in m && "function_call" !in m
            && forall k :: k in m ==> k == c.key || k in ["role", "content", "refusal"]
  {
  }

  lemma {:induction false} FullIsMessage(c: Streamed)
    requires c.key in ["", "reasoning_content", "reasoning"]
    ensures IsMessage(FullMessage(Whole(c), Order(c.calls)), c)
  {
    BareIs(c);
    CallsListed(c.calls);
  }

  lemma {:induction false} FinishedIsChoice(lib: Library, i: int, c: Streamed)
    requires c.key in ["", "reasoning_content", "reasoning"]
    ensures IsChoice(lib, FinishedChoice(lib, i, Whole(c), Order(c.calls)), i, c)
  {
    FullIsMessage(c);
  }

  lemma {:induction false} FinishedAt(lib: Library, choices: map<int, Choice>, order: seq<int>)
    requires Listed(order, choices)
    ensures |FinishedChoices(lib, choices, order)| == |order|
    ensures forall k :: 0 <= k < |order| ==>
              order[k] in choices
              && FinishedChoices(lib, choices, order)[k]
              == FinishedChoice(lib, order[k], choices[order[k]], Order(choices[order[k]].toolCalls))
  {
    if order != [] {
      FinishedAt(lib, choices, Front(order));
    }
  }

  lemma {:induction false} OneBack(lib: Library, cms: seq<Members>, want: map<int, Streamed>, i: int)
    requires Wanted(lib, cms, want) && i in Choices(lib, cms)
    ensures i in want
    ensures var ch := Choices(lib, cms)[i];
            IsChoice(lib, FinishedChoice(lib, i, ch, Order(ch.toolCalls)), i, want[i])
  {
    ChoicesComeBack(lib, cms, want);
    KeyOf(lib, Only(lib, cms, i), want[i]);
    FinishedIsChoice(lib, i, want[i]);
  }

  lemma {:induction false} ChoicesAt(lib: Library, cms: seq<Members>, want: map<int, Streamed>, order: seq<int>)
    requires Wanted(lib, cms, want) && Listed(order, Choices(lib, cms))
    ensures HasChoicesAt(lib, FinishedChoices(lib, Choices(lib, cms), order), want, order)
  {
    var out := FinishedChoices(lib, Choices(lib, cms), order);
    FinishedAt(lib, Choices(lib, cms), order);
    forall k | 0 <= k < |order|
      ensures order[k] in want && IsChoice(lib, out[k], order[k], want[order[k]])
    {
      OneBack(lib, cms, want, order[k]);
    }
  }

  // ---- What the chunks of a stream say, by their members -----------------------------

  /** Whether a chunk reports an error instead. */
  predicate Faulty(v: Members) {
    "error" in v && (v["error"].Object? || (v["error"].String? && v["error"].s != ""))
  }

  /** The chunks that decode and report no error. */
  function Chunks(lib: Library, events: seq<Event>): seq<Members> {
    if events == [] then []
    else
      Chunks(lib, Front(events))
      + if TrimSpace(Last(events).data) == "[DONE]" then []
        else
          match lib.decode(TrimSpace(Last(events).data))
          case Some(Object(v)) => if Faulty(v) then [] else [v]
          case _ => []
  }

  function ObjectsOf(vs: seq<Value>): seq<Members> {
    if vs == [] then [] else ObjectsOf(Front(vs)) + if Last(vs).Object? then [Last(vs).members] else []
  }

  /** The elements of all choices. */
  function Elements(vs: seq<Members>): seq<Members> {
    if vs == [] then [] else Elements(Front(vs)) + ObjectsOf(ItemsIn(Last(vs), "choices"))
  }

  lemma {:induction false} ContentsAreChunks(lib: Library, events: seq<Event>)
    ensures Contents(lib, events) == Chunks(lib, events)
  {
    if events != [] {
      ContentsAreChunks(lib, Front(events));
    }
  }

  lemma {:induction false} ObjectsAreObjects(vs: seq<Value>)
    ensures Objects(vs) == ObjectsOf(vs)
  {
    if vs != [] {
      ObjectsAreObjects(Front(vs));
    }
  }

  lemma {:induction false} PartsAreElements(vs: seq<Members>)
    ensures ChoiceParts(vs) == Elements(vs)
  {
    if vs != [] {
      PartsAreElements(Front(vs));
      ObjectsAreObjects(ItemsIn(Last(vs), "choices"));
    }
  }

  /** Reassembly inverts streaming. For any choices, their contents, refusals, reasoning and
      tool call arguments cut at any points and interleaved in any order over the chunks, the
      completion has exactly those choices, in index order. */
  lemma {:induction false} ReassemblyInvertsStreaming(lib: Library, events: seq<Event>, want: map<int, Streamed>)
    requires Chunks(lib, events) != [] && Wanted(lib, Elements(Chunks(lib, events)), want)
    ensures var r := Reassembled(lib, events);
            && r.Some? && "choices" in r.value && r.value["choices"].Array?
            && HasChoices(lib, r.value["choices"].items, want)
  {
    var vs := Chunks(lib, events);
    var cms := Elements(vs);
    ContentsAreChunks(lib, events);
    PartsAreElements(vs);
    ChoicesComeBack(lib, cms, want);
    SortedIntsInOrder(want.Keys);
    ChoicesAt(lib, cms, want, Order(Choices(lib, cms)));
    ChoicesKept(Base(vs), FinishedChoices(lib, Choices(lib, cms), Order(Choices(lib, cms))), Usage(vs));
  }

  lemma {:induction false} ChoicesKept(base: Members, out: seq<Value>, usage: Option<Members>)
    ensures var m := Completion(base, out, usage); "choices" in m && m["choices"] == Array(out)
  {
  }

  // ---- Nothing is left out -----------------------------------------------------------

  function StreamedOf(lib: Library, ds: seq<Members>): Streamed {
    Streamed(Role(ds), Concat(ds, "content"), Concat(ds, "refusal"), Reasoning(ds), ReasoningKey(ds),
             CallsOf(Parts(lib, ds)), Function(ds), FinishReason(ds))
  }

  lemma {:induction false} SomethingStreamed(lib: Library, ds: seq<Members>)
    requires ds != []
    ensures Cuts(lib, ds, StreamedOf(lib, ds))
  {
    forall t
      ensures if t in CallsOf(Parts(lib, ds)) then CutsCall(OnlyCall(Parts(lib, ds), t), CallsOf(Parts(lib, ds))[t])
              else OnlyCall(Parts(lib, ds), t) == []
    {
      CallsAreSeparate(Parts(lib, ds), t);
    }
  }

  /** Whatever the stream, its chunks carry some choices. */
  lemma {:induction false} SomethingWanted(lib: Library, cms: seq<Members>) returns (want: map<int, Streamed>)
    ensures Wanted(lib, cms, want)
  {
    want := map i | i in Choices(lib, cms) :: StreamedOf(lib, Only(lib, cms, i));
    forall i
      ensures if i in want then Cuts(lib, Only(lib, cms, i), want[i]) else Only(lib, cms, i) == []
    {
      ChoicesAreSeparate(lib, cms, i);
      if i in want {
        SomethingStreamed(lib, Only(lib, cms, i));
      }
    }
  }

  // ---- Top-level fields --------------------------------------------------------------

  /** The first value of a field that is not null, if any is. */
  function FirstValue(vs: seq<Members>, k: string): Option<Value> {
    if vs == [] then None
    else
      var before := FirstValue(Front(vs), k);
      if k in Last(vs) && (before.None? || before.value == Null) then Some(Last(vs)[k]) else before
  }

  /** The last usage that is an object. */
  function LastUsage(vs: seq<Members>): Option<Value> {
    if vs == [] then None
    else if "usage" in Last(vs) && Last(vs)["usage"].Object? then Some(Last(vs)["usage"])
    else LastUsage(Front(vs))
  }

  /** The value under k, if there is one. */
  function ValueIn(m: Members, k: string): Option<Value> {
    if k in m then Some(m[k]) else None
  }

  lemma {:induction false} BaseHasFirst(vs: seq<Members>, k: string)
    ensures ValueIn(Base(vs), k) == if k in ["choices", "usage", "obfuscation"] then None else FirstValue(vs, k)
  {
    if vs != [] {
      BaseHasFirst(Front(vs), k);
    }
  }

  lemma {:induction false} UsageIsLast(vs: seq<Members>)
    ensures LastUsage(vs) == if Usage(vs).Some? then Some(Object(Usage(vs).value)) else None
  {
    if vs != [] {
      UsageIsLast(Front(vs));
    }
  }

  /** There is a completion exactly when there was a chunk. It calls itself one, has the last
      usage, and of every other field but the choices the first value that is not null. */
  lemma {:induction false} FirstValueWins(lib: Library, events: seq<Event>, k: string)
    requires k != "choices"
    ensures var vs, r := Chunks(lib, events), Reassembled(lib, events);
            && (r.Some? <==> vs != [])
            && (r.Some? ==>
                ValueIn(r.value, k)
                == if k == "object" then Some(String("chat.completion"))
                   else if k == "usage" then LastUsage(vs)
                   else if k == "obfuscation" then None
                   else FirstValue(vs, k))
  {
    var vs := Chunks(lib, events);
    ContentsAreChunks(lib, events);
    if vs != [] {
      var choices := Choices(lib, ChoiceParts(vs));
      CompletionHas(Base(vs), FinishedChoices(lib, choices, Order(choices)), Usage(vs), k);
      BaseHasFirst(vs, k);
      UsageIsLast(vs);
    }
  }

  lemma {:induction false} CompletionHas(base: Members, out: seq<Value>, usage: Option<Members>, k: string)
    requires k != "choices"
    ensures ValueIn(Completion(base, out, usage), k)
         == if k == "usage" && usage.Some? then Some(Object(usage.value))
            else if k == "object" then Some(String("chat.completion")) else ValueIn(base, k)
  {
  }

  // ---- What is learnt about the stream -----------------------------------------------

  predicate Ends(ev: Event) {
    TrimSpace(ev.data) == "[DONE]"
  }

  /** What the n-th event is called. */
  function NameOf(lib: Library, ev: Event): string {
    if Ends(ev) then "[DONE]"
    else
      match lib.decode(TrimSpace(ev.data))
      case Some(Object(v)) => if Faulty(v) then "error" else "chunk"
      case _ => "chunk"
  }

  /** What is wrong with the n-th event, if anything. */
  function ProblemsIn(lib: Library, ev: Event, n: nat): seq<Problem> {
    if Ends(ev) then []
    else
      match lib.decode(TrimSpace(ev.data))
      case Some(Object(v)) => if Faulty(v) then [Reported(v["error"])] else []
      case _ => [MalformedEvent(n)]
  }

  function Problems(lib: Library, events: seq<Event>): seq<Problem> {
    if events == [] then [] else Problems(lib, Front(events)) + ProblemsIn(lib, Last(events), |events|)
  }

  predicate FirstTwenty(errors: seq<Problem>, all: seq<Problem>) {
    errors == if |all| < 20 then all else all[..20]
  }

  lemma {:induction false} OneMoreProblem(info: Info, all: seq<Problem>, p: Problem)
    requires FirstTwenty(info.errors, all)
    ensures FirstTwenty(WithError(info, p).errors, all + [p])
  {
    if |all| >= 20 {
      assert (all + [p])[..20] == all[..20];
    }
  }

  lemma {:induction false} EventTells(lib: Library, info: Info, ev: Event, all: seq<Problem>)
    requires FirstTwenty(info.errors, all)
    ensures var n := NextInfo(lib, info, ev);
            && n.events == info.events + 1 && n.last == NameOf(lib, ev) && n.complete == (info.complete || Ends(ev))
            && FirstTwenty(n.errors, all + ProblemsIn(lib, ev, n.events))
  {
    EmptyUnit(all);
    if !Ends(ev) {
      match lib.decode(TrimSpace(ev.data))
      case Some(Object(v)) =>
        if Faulty(v) {
          OneMoreProblem(info, all, Reported(v["error"]));
        }
      case _ => OneMoreProblem(info, all, MalformedEvent(info.events + 1));
    }
  }

  /** The number of events, how the stream ended, and the first twenty problems as they came. */
  lemma {:induction false} InfoTells(lib: Library, events: seq<Event>)
    ensures var info := Infos(lib, events);
            && info.events == |events| && info.last == (if events == [] then "" else NameOf(lib, Last(events)))
            && FirstTwenty(info.errors, Problems(lib, events))
            && (info.complete <==> exists ev :: ev in events && Ends(ev))
  {
    if events != [] {
      InfoTells(lib, Front(events));
      EventTells(lib, Infos(lib, Front(events)), Last(events), Problems(lib, Front(events)));
      FrontLast(events);
    }
  }
}
