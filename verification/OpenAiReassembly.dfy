/** The reassembler of chat streams, one chunk at a time. */
module OpenAiReassembly {
  import opened Json
  import opened JsonUtil
  import opened OpenAiChat
  import opened Options
  import opened Seqs
  import opened Sorting
  import opened Sse
  import opened Text

  /** What has been gathered from the chunks. */
  datatype Progress = Progress(base: Option<Members>, choices: map<int, Choice>, usage: Option<Members>)

  function NextProgress(lib: Library, p: Progress, v: Members): Progress {
    Progress(Some(NextBase(if p.base.Some? then p.base.value else map[], v)),
             AfterChoices(lib, p.choices, Objects(Arr(At(v, "choices")))),
             if At(v, "usage").Object? then Some(At(v, "usage").members) else p.usage)
  }

  function ProgressOf(lib: Library, vs: seq<Members>): Progress {
    if vs == [] then Progress(None, map[], None) else NextProgress(lib, ProgressOf(lib, Front(vs)), Last(vs))
  }

  lemma {:induction false} AfterConcat(lib: Library, choices: map<int, Choice>, x: seq<Members>, y: seq<Members>)
    ensures AfterChoices(lib, choices, x + y) == AfterChoices(lib, AfterChoices(lib, choices, x), y)
    decreases |y|
  {
    if y == [] {
      EmptyUnit(x);
    } else {
      FrontLastConcat(x, y);
      AfterConcat(lib, choices, x, Front(y));
    }
  }

  /** The parts of the progress, each by itself. */
  lemma {:induction false} ProgressParts(lib: Library, vs: seq<Members>)
    ensures var p := ProgressOf(lib, vs);
            && p.base == (if vs == [] then None else Some(Base(vs)))
            && p.choices == Choices(lib, ChoiceParts(vs)) && p.usage == Usage(vs)
  {
    if vs != [] {
      ProgressParts(lib, Front(vs));
      AfterConcat(lib, map[], ChoiceParts(Front(vs)), Objects(Arr(At(Last(vs), "choices"))));
    }
  }

  /** The content of an event, if it has any. */
  function ContentOf(lib: Library, ev: Event): Option<Members> {
    var c := ChunkOf(lib, ev);
    if c.Content? then Some(c.v) else None
  }

  lemma {:induction false} OneMore(lib: Library, seen: seq<Event>, ev: Event)
    ensures Infos(lib, seen + [ev]) == NextInfo(lib, Infos(lib, seen), ev)
    ensures ProgressOf(lib, Contents(lib, seen + [ev]))
         == match ContentOf(lib, ev)
            case None => ProgressOf(lib, Contents(lib, seen))
            case Some(v) => NextProgress(lib, ProgressOf(lib, Contents(lib, seen)), v)
  {
    FrontLastSnoc(seen, ev);
    EmptyUnit(Contents(lib, seen));
    if ContentOf(lib, ev).Some? {
      FrontLastSnoc(Contents(lib, seen), ContentOf(lib, ev).value);
    }
  }

  class Reassembler {
    const lib: Library
    var base: Option<Members>
    var choices: map<int, Choice>
    var usage: Option<Members>
    var info: Info
    ghost var seen: seq<Event>

    ghost function Current(): Progress reads this {
      Progress(base, choices, usage)
    }

    ghost predicate Valid() reads this {
      Current() == ProgressOf(lib, Contents(lib, seen)) && info == Infos(lib, seen)
    }

    constructor (lib: Library)
      ensures Valid() && seen == [] && this.lib == lib
    {
      this.lib, base, choices, usage, info, seen := lib, None, map[], None, Info(0, "", false, []), [];
    }

    method ErrorF(p: Problem)
      modifies `info
      ensures info == WithError(old(info), p)
    {
      if |info.errors| < MAX_STREAM_ERRORS {
        info := info.(errors := info.errors + [p]);
      }
    }

    /** One event of the stream. */
    method Take(ev: Event)
      requires Valid()
      modifies this
      ensures Valid() && seen == old(seen) + [ev]
    {
      OneMore(lib, seen, ev);
      seen := seen + [ev];
      var content := TakeInfo(ev);
      if content.Some? {
        TakeContent(content.value);
      }
    }

    /** Counts an event, and takes what it says about the stream; returns its content. */
    method TakeInfo(ev: Event) returns (content: Option<Members>)
      modifies `info
      ensures info == NextInfo(lib, old(info), ev)
      ensures content == ContentOf(lib, ev)
    {
      info := info.(events := info.events + 1);
      var data := TrimSpace(ev.data);
      if data == "[DONE]" {
        info := info.(complete := true, last := "[DONE]");
        return None;
      }
      info := info.(last := "chunk");
      var decoded := DecodeObject(lib, data);
      if decoded.None? {
        ErrorF(MalformedEvent(info.events));
        return None;
      }
      var v := decoded.value;
      if At(v, "error").Object? || Str(At(v, "error")) != "" {
        info := info.(last := "error");
        ErrorF(Reported(At(v, "error")));
        return None;
      }
      return Some(v);
    }

    method TakeContent(v: Members)
      modifies `base, `choices, `usage
      ensures Current() == NextProgress(lib, old(Current()), v)
    {
      var b := MergeBase(if base.Some? then base.value else map[], v);
      base := Some(b);
      if At(v, "usage").Object? { usage := Some(At(v, "usage").members); }
      TakeChoices(Arr(At(v, "choices")));
    }

    method MergeBase(before: Members, v: Members) returns (b: Members)
      ensures b == NextBase(before, v)
    {
      b := before;
      var left := v.Keys;
      while left != {}
        invariant left <= v.Keys
        invariant b == before + (v - SKIPPED - Filled(before) - left)
        decreases left
      {
        var k :| k in left;
        left := left - {k};
        if k !in SKIPPED && (k !in b || b[k] == Null) {
          b := b[k := v[k]];
        }
      }
    }

    method TakeChoices(cs: seq<Value>)
      modifies `choices
      ensures choices == AfterChoices(lib, old(choices), Objects(cs))
    {
      TakeAll(cs);
      for k := 0 to |cs|
        invariant choices == AfterChoices(lib, old(choices), Objects(cs[..k]))
      {
        TakeSnoc(cs, k);
        FrontLastSnoc(cs[..k], cs[k]);
        EmptyUnit(Objects(cs[..k]));
        if cs[k].Object? {
          FrontLastSnoc(Objects(cs[..k]), cs[k].members);
          TakeChoice(cs[k].members);
        }
      }
    }

    method TakeChoice(cm: Members)
      modifies `choices
      ensures choices == NextChoices(lib, old(choices), cm)
    {
      var idx := IntOr(lib, At(cm, "index"), 0);
      var ch := GrowChoice(if idx in choices then choices[idx] else NEW_CHOICE, cm);
      choices := choices[idx := ch];
    }

    method GrowChoice(before: Choice, cm: Members) returns (ch: Choice)
      ensures ch == Grown(lib, before, cm)
    {
      var d := MembersOf(At(cm, "delta"));
      var role := Str(At(d, "role"));
      if role == "" { role := before.role; }
      var content := TakeText(before.content, At(d, "content"));
      var refusal := TakeText(before.refusal, At(d, "refusal"));
      var r := TakeReasoning(before, "reasoning_content", At(d, "reasoning_content"));
      r := TakeReasoning(r, "reasoning", At(d, "reasoning"));
      var calls := TakeCalls(before.toolCalls, Arr(At(d, "tool_calls")));
      var f := TakeFunction(before.funcCall, Obj(At(d, "function_call")));
      var fr := At(cm, "finish_reason");
      if fr == Null { fr := before.finish; }
      ch := Choice(role, content, refusal, r.reasoning, r.reasoningKey, calls, f, fr);
    }

    method TakeText(before: Option<string>, s: Value) returns (r: Option<string>)
      ensures r == Appended(before, s)
    {
      r := before;
      if s.String? { r := Some((if r.Some? then r.value else "") + s.s); }
    }

    /** The legacy function call. */
    method TakeFunction(before: Option<ToolCall>, fc: Option<Members>) returns (f: Option<ToolCall>)
      ensures f == Called(before, fc)
    {
      f := before;
      if fc.Some? {
        var t := MergeToolCall(if f.Some? then f.value else NEW_CALL, map["function" := Object(fc.value)]);
        f := Some(t);
      }
    }

    method TakeReasoning(ch: Choice, key: string, s: Value) returns (r: Choice)
      ensures r == WithReasoning(ch, key, s)
    {
      r := ch;
      if s.String? {
        r := r.(reasoning := r.reasoning + s.s);
        if r.reasoningKey == "" { r := r.(reasoningKey := key); }
      }
    }

    method TakeCalls(before: map<int, ToolCall>, tcs: seq<Value>) returns (calls: map<int, ToolCall>)
      ensures calls == AfterCalls(lib, before, tcs)
    {
      calls := before;
      TakeAll(tcs);
      for n := 0 to |tcs|
        invariant calls == AfterCalls(lib, before, tcs[..n])
      {
        TakeSnoc(tcs, n);
        FrontLastSnoc(tcs[..n], tcs[n]);
        var tm := Obj(tcs[n]);
        if tm.Some? {
          var ti := IntOr(lib, At(tm.value, "index"), n);
          var t := MergeToolCall(if ti in calls then calls[ti] else NEW_CALL, tm.value);
          calls := calls[ti := t];
        }
      }
    }

    method MergeToolCall(before: ToolCall, tm: Members) returns (t: ToolCall)
      ensures t == Merged(before, tm)
    {
      t := before;
      var id := Str(At(tm, "id"));
      if id != "" { t := t.(id := id); }
      var typ := Str(At(tm, "type"));
      if typ != "" { t := t.(typ := typ); }
      var f := Obj(At(tm, "function"));
      if f.Some? {
        var name := Str(At(f.value, "name"));
        if name != "" { t := t.(name := name); }
        t := t.(args := t.args + Str(At(f.value, "arguments")));
      }
    }

    /** The completion so far, choices and tool calls in index order. */
    method Finish() returns (r: Option<Members>)
      requires Valid()
      ensures r == Reassembled(lib, seen)
    {
      ProgressParts(lib, Contents(lib, seen));
      if base.None? { return None; }
      var order := SortInts(choices.Keys);
      assert order == Order(choices);
      var out := FinishChoices(order);
      var m := base.value["object" := String("chat.completion")];
      m := m["choices" := Array(out)];
      if usage.Some? { m := m["usage" := Object(usage.value)]; }
      return Some(m);
    }

    method FinishChoices(order: seq<int>) returns (out: seq<Value>)
      requires Listed(order, choices)
      ensures out == FinishedChoices(lib, choices, order)
    {
      out := [];
      TakeAll(order);
      for k := 0 to |order|
        invariant Listed(order[..k], choices) && out == FinishedChoices(lib, choices, order[..k])
      {
        ListedAt(order, choices, k);
        TakeSnoc(order, k);
        FrontLastSnoc(order[..k], order[k]);
        var c := FinishChoice(order[k], choices[order[k]]);
        out := out + [c];
      }
    }

    method FinishChoice(idx: int, ch: Choice) returns (c: Value)
      ensures c == FinishedChoice(lib, idx, ch, Order(ch.toolCalls))
    {
      var role := if ch.role == "" then "assistant" else ch.role;
      var msg := map["role" := String(role), "content" := Null, "refusal" := Null];
      if ch.content.Some? { msg := msg["content" := String(ch.content.value)]; }
      if ch.refusal.Some? { msg := msg["refusal" := String(ch.refusal.value)]; }
      assert msg == BareMessage(ch);
      if ch.reasoningKey != "" { msg := msg[ch.reasoningKey := String(ch.reasoning)]; }
      if ch.toolCalls != map[] {
        var order := SortInts(ch.toolCalls.Keys);
        assert order == Order(ch.toolCalls);
        var calls := FinishCalls(ch.toolCalls, order);
        msg := msg["tool_calls" := Array(calls)];
      }
      assert msg == CallingMessage(ch, Order(ch.toolCalls));
      if ch.funcCall.Some? {
        msg := msg["function_call" :=
          Object(map["name" := String(ch.funcCall.value.name), "arguments" := String(ch.funcCall.value.args)])];
      }
      c := Object(map["index" := Number(lib.show(idx)), "message" := Object(msg),
                      "finish_reason" := ch.finish, "logprobs" := Null]);
    }

    method FinishCalls(calls: map<int, ToolCall>, order: seq<int>) returns (out: seq<Value>)
      requires Listed(order, calls)
      ensures out == FinishedCalls(calls, order)
    {
      out := [];
      TakeAll(order);
      for k := 0 to |order|
        invariant Listed(order[..k], calls) && out == FinishedCalls(calls, order[..k])
      {
        ListedAt(order, calls, k);
        TakeSnoc(order, k);
        FrontLastSnoc(order[..k], order[k]);
        var t := calls[order[k]];
        var typ := if t.typ == "" then "function" else t.typ;
        out := out + [Object(map["id" := String(t.id), "type" := String(typ),
                                 "function" := Object(map["name" := String(t.name), "arguments" := String(t.args)])])];
      }
    }
  }

  method ReassembleOpenAiChat(lib: Library, events: seq<Event>) returns (r: Option<Members>, info: Info)
    ensures r == Reassembled(lib, events) && info == Infos(lib, events)
  {
    var a := new Reassembler(lib);
    TakeAll(events);
    for k := 0 to |events|
      invariant a.Valid() && a.seen == events[..k] && a.lib == lib && fresh(a)
    {
      TakeSnoc(events, k);
      a.Take(events[k]);
    }
    r := a.Finish();
    info := a.info;
  }
}
