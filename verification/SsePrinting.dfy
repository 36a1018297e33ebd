/** Printing event streams, and the proof that ParseSSE undoes it. */
module SsePrinting {
  import opened Options
  import opened Seqs
  import opened Sse
  import opened Text

  /** How a field line separates name and value: "f: v", "f:v", or just "f". */
  datatype Form = Spaced | Tight | Bare

  /** One line of an event, in whatever order they are printed; ignored are comments and
      fields of other names. */
  datatype Piece = Ignored(line: string) | NameLine(form: Form) | DataLine(form: Form) | IdLine(form: Form)

  /** An event's lines, or comments on their own; either ends with a blank line. */
  datatype Block = Block(event: Option<Event>, layout: seq<Piece>)

  function FieldLine(field: string, value: string, form: Form): string {
    match form
    case Spaced => field + ": " + value
    case Tight => field + ":" + value
    case Bare => field
  }

  /** The form does not change the value. */
  predicate Suits(form: Form, value: string) {
    match form
    case Spaced => true
    case Tight => value == "" || value[0] != ' '
    case Bare => value == ""
  }

  predicate OneLine(s: string) {
    '\r' !in s && '\n' !in s
  }

  /** A line that is just the field, or the field and a colon and more. */
  predicate HasField(line: string, field: string) {
    line == field || field + ":" <= line
  }

  /** A comment, or a field that is none of those known. */
  predicate Ignorable(line: string) {
    line != ""
    && (line[0] == ':' || (!HasField(line, "event") && !HasField(line, "data") && !HasField(line, "id")))
  }

  /** The data lines of an event. */
  function Parts(e: Event): seq<string> {
    Split(e.data, '\n')
  }

  function DataLines(layout: seq<Piece>): nat {
    if layout == [] then 0 else DataLines(Front(layout)) + if Last(layout).DataLine? then 1 else 0
  }

  predicate HasName(layout: seq<Piece>) {
    layout != [] && (Last(layout).NameLine? || HasName(Front(layout)))
  }

  predicate HasId(layout: seq<Piece>) {
    layout != [] && (Last(layout).IdLine? || HasId(Front(layout)))
  }

  /** The line for a piece; k is the number of data lines printed before it. */
  function PieceLine(e: Event, p: Piece, k: nat): string
    requires p.DataLine? ==> k < |Parts(e)|
  {
    match p
    case Ignored(line) => line
    case NameLine(form) => FieldLine("event", e.name, form)
    case DataLine(form) => FieldLine("data", Parts(e)[k], form)
    case IdLine(form) => FieldLine("id", e.id, form)
  }

  predicate PieceOk(e: Event, p: Piece, k: nat) {
    match p
    case Ignored(line) => OneLine(line) && Ignorable(line)
    case NameLine(form) => Suits(form, e.name)
    case DataLine(form) => k < |Parts(e)| && Suits(form, Parts(e)[k])
    case IdLine(form) => Suits(form, e.id)
  }

  predicate LayoutOk(e: Event, layout: seq<Piece>) {
    layout == []
    || (LayoutOk(e, Front(layout)) && PieceOk(e, Last(layout), DataLines(Front(layout))))
  }

  function LayoutLines(e: Event, layout: seq<Piece>): seq<string>
    requires LayoutOk(e, layout)
  {
    if layout == [] then []
    else LayoutLines(e, Front(layout)) + [PieceLine(e, Last(layout), DataLines(Front(layout)))]
  }

  /** Names and ids are one line, data has no CR. */
  predicate Printable(e: Event) {
    OneLine(e.name) && OneLine(e.id) && '\r' !in e.data
  }

  /** All of the event is printed, in at least one field; empty fields may be left out. */
  predicate Complete(e: Event, layout: seq<Piece>) {
    && (e.name == "" || HasName(layout)) && (e.id == "" || HasId(layout))
    && (DataLines(layout) == |Parts(e)| || (e.data == "" && DataLines(layout) == 0))
    && (HasName(layout) || HasId(layout) || DataLines(layout) > 0)
  }

  const NOTHING := Event("", "", "")

  predicate BlockOk(b: Block) {
    match b.event
    case Some(e) => Printable(e) && LayoutOk(e, b.layout) && Complete(e, b.layout)
    case None => LayoutOk(NOTHING, b.layout) && !HasName(b.layout) && !HasId(b.layout) && DataLines(b.layout) == 0
  }

  predicate BlocksOk(bs: seq<Block>) {
    bs == [] || (BlocksOk(Front(bs)) && BlockOk(Last(bs)))
  }

  function BlockLines(b: Block): seq<string>
    requires BlockOk(b)
  {
    LayoutLines(if b.event.Some? then b.event.value else NOTHING, b.layout)
  }

  function Events(bs: seq<Block>): seq<Event> {
    if bs == [] then []
    else Events(Front(bs)) + if Last(bs).event.Some? then [Last(bs).event.value] else []
  }

  function AllLines(bs: seq<Block>): seq<string>
    requires BlocksOk(bs)
  {
    if bs == [] then [] else AllLines(Front(bs)) + BlockLines(Last(bs)) + [""]
  }

  predicate Terminator(t: string) {
    t == "\n" || t == "\r" || t == "\r\n"
  }

  /** Every line with its terminator. */
  function Printed(lines: seq<string>, t: string): string {
    if lines == [] then "" else lines[0] + t + Printed(lines[1..], t)
  }

  // ---- Lines -------------------------------------------------------------------------

  lemma {:induction false} LengthOfLine(x: string, rest: string)
    requires OneLine(x) && (rest == "" || IsEol(rest[0]))
    ensures LineLength(x + rest) == |x|
  {
    if x == "" {
      EmptyUnit(rest);
    } else {
      TailOfConcat(x, rest);
      LengthOfLine(x[1..], rest);
    }
  }

  lemma {:induction false} TerminatorEnds(x: string, t: string, rest: string)
    requires OneLine(x) && Terminator(t) && (rest == "" || rest[0] != '\n' || t != "\r")
    ensures var b := x + (t + rest);
            LineLength(b) == |x| < |b| && b[..|x|] == x && NextLine(b, |x|) == |x| + |t| && b[|x| + |t|..] == rest
  {
    var b := x + (t + rest);
    LengthOfLine(x, t + rest);
    assert b[|x|] == t[0];
    if t == "\r\n" {
      assert b[|x| + 1] == '\n';
    } else if t == "\r" && rest != "" {
      assert b[|x| + 1] == rest[0];
    }
  }

  predicate AllOneLine(lines: seq<string>)
    decreases |lines|
  {
    lines == [] || (OneLine(lines[0]) && AllOneLine(lines[1..]))
  }

  lemma {:induction false} PrintedStart(lines: seq<string>, t: string)
    requires AllOneLine(lines) && Terminator(t)
    ensures var x := Printed(lines, t); x == "" || x[0] != '\n' || t != "\r"
  {
    if lines != [] && lines[0] != "" {
      assert Printed(lines, t)[0] == lines[0][0];
    }
  }

  /** Terminated lines are read back, whichever terminator is used throughout. */
  lemma {:induction false} LinesOfPrinted(lines: seq<string>, t: string)
    requires AllOneLine(lines) && Terminator(t)
    ensures Lines(Printed(lines, t)) == lines
    decreases |lines|
  {
    if lines != [] {
      var x, rest := lines[0], Printed(lines[1..], t);
      Assoc(x, t, rest);
      PrintedStart(lines[1..], t);
      TerminatorEnds(x, t, rest);
      LinesOfPrinted(lines[1..], t);
      ConsTail(lines);
    }
  }

  lemma {:induction false} UnterminatedStart(lines: seq<string>, x: string, t: string)
    requires AllOneLine(lines) && OneLine(x) && x != "" && Terminator(t)
    ensures (Printed(lines, t) + x)[0] != '\n' || t != "\r"
  {
    PrintedStart(lines, t);
    assert x[0] in x;
  }

  /** The last line may do without its terminator. */
  lemma {:induction false} LinesOfUnterminated(lines: seq<string>, x: string, t: string)
    requires AllOneLine(lines) && OneLine(x) && x != "" && Terminator(t)
    ensures Lines(Printed(lines, t) + x) == lines + [x]
    decreases |lines|
  {
    if lines == [] {
      EmptyUnit(x);
      LengthOfLine(x, "");
    } else {
      var y, rest := lines[0], Printed(lines[1..], t);
      FourTexts(y, t, rest, x);
      UnterminatedStart(lines[1..], x, t);
      FirstLine(y, t, rest + x);
      LinesOfUnterminated(lines[1..], x, t);
      ConsTail(lines);
      Assoc([y], lines[1..], [x]);
    }
  }

  lemma {:induction false} FourTexts(y: string, t: string, rest: string, x: string)
    ensures y + t + rest + x == y + (t + (rest + x))
  {
  }

  lemma {:induction false} FirstLine(y: string, t: string, rest: string)
    requires OneLine(y) && Terminator(t) && (rest == "" || rest[0] != '\n' || t != "\r")
    ensures Lines(y + (t + rest)) == [y] + Lines(rest)
  {
    var b := y + (t + rest);
    TerminatorEnds(y, t, rest);
    hide *;
    LinesStep(b, y, |y| + |t|, rest);
  }

  lemma {:induction false} LinesStep(b: string, y: string, n: nat, rest: string)
    requires LineLength(b) == |y| < |b| && b[..|y|] == y && n == NextLine(b, |y|) && b[n..] == rest
    ensures Lines(b) == [y] + Lines(rest)
  {
  }

  // ---- Fields ------------------------------------------------------------------------

  lemma {:induction false} ColonAfter(field: string, rest: string)
    requires ':' !in field
    ensures IndexOf(field, ':') == |field| && IndexOf(field + ":" + rest, ':') == |field|
  {
    if field == "" {
      assert "" + ":" + rest == ":" + rest;
    } else {
      assert (field + ":" + rest)[1..] == field[1..] + ":" + rest;
      ColonAfter(field[1..], rest);
    }
  }

  lemma {:induction false} FieldAt(field: string, rest: string)
    requires ':' !in field
    ensures Field(field + ":" + rest) == (field, if rest != "" && rest[0] == ' ' then rest[1..] else rest)
  {
    ColonAfter(field, rest);
    assert (field + ":" + rest)[..|field|] == field && (field + ":" + rest)[|field| + 1..] == rest;
  }

  lemma {:induction false} FieldReadBack(field: string, value: string, form: Form)
    requires ':' !in field && Suits(form, value)
    ensures Field(FieldLine(field, value, form)) == (field, value)
  {
    if form == Bare {
      ColonAfter(field, "");
    } else if form == Tight {
      FieldAt(field, value);
    } else {
      assert field + ": " + value == field + ":" + (" " + value);
      FieldAt(field, " " + value);
      TailOfCons(' ', value);
    }
  }

  lemma {:induction false} FieldFed(s: State, field: string, value: string, form: Form)
    requires field == "event" || field == "data" || field == "id"
    requires Suits(form, value)
    ensures Feed(s, FieldLine(field, value, form)) == SetField(s, field, value)
  {
    FieldReadBack(field, value, form);
    assert FieldLine(field, value, form)[0] == field[0];
  }

  lemma {:induction false} FieldOfLine(line: string)
    ensures HasField(line, Field(line).0)
  {
    var j := IndexOf(line, ':');
    if j < |line| {
      assert line[..j] + ":" == line[..j + 1];
    }
  }

  lemma {:induction false} IgnoredFed(s: State, line: string)
    requires Ignorable(line)
    ensures Feed(s, line) == s
  {
    FieldOfLine(line);
  }

  // ---- Blocks ------------------------------------------------------------------------

  lemma {:induction false} FeedConcat(s: State, x: seq<string>, y: seq<string>)
    ensures FeedAll(s, x + y) == FeedAll(FeedAll(s, x), y)
    decreases |x|
  {
    if x == [] {
      EmptyUnit(y);
    } else {
      TailOfConcat(x, y);
      FeedConcat(Feed(s, x[0]), x[1..], y);
    }
  }

  lemma {:induction false} FeedSnoc(s: State, x: seq<string>, l: string)
    ensures FeedAll(s, x + [l]) == Feed(FeedAll(s, x), l)
  {
    FeedConcat(s, x, [l]);
    assert [l][1..] == [];
  }

  /** What has been collected once the lines of a layout were fed. */
  function Collected(events: seq<Event>, e: Event, layout: seq<Piece>): State
    requires DataLines(layout) <= |Parts(e)|
  {
    State(events, if HasName(layout) then e.name else "", if HasId(layout) then e.id else "",
          Parts(e)[..DataLines(layout)], HasName(layout) || HasId(layout) || DataLines(layout) > 0)
  }

  lemma {:induction false} LayoutFed(events: seq<Event>, e: Event, layout: seq<Piece>)
    requires LayoutOk(e, layout)
    ensures DataLines(layout) <= |Parts(e)|
    ensures FeedAll(Clean(events), LayoutLines(e, layout)) == Collected(events, e, layout)
  {
    if layout != [] {
      var p, k := Last(layout), DataLines(Front(layout));
      LayoutFed(events, e, Front(layout));
      FeedSnoc(Clean(events), LayoutLines(e, Front(layout)), PieceLine(e, p, k));
      PieceFed(events, e, layout, p, k);
    }
  }

  lemma {:induction false} PieceFed(events: seq<Event>, e: Event, layout: seq<Piece>, p: Piece, k: nat)
    requires layout != [] && LayoutOk(e, layout) && p == Last(layout) && k == DataLines(Front(layout)) <= |Parts(e)|
    ensures DataLines(layout) <= |Parts(e)|
    ensures Feed(Collected(events, e, Front(layout)), PieceLine(e, p, k)) == Collected(events, e, layout)
  {
    var s := Collected(events, e, Front(layout));
    match p
    case Ignored(line) => IgnoredFed(s, line);
    case NameLine(form) => FieldFed(s, "event", e.name, form);
    case DataLine(form) =>
      FieldFed(s, "data", Parts(e)[k], form);
      TakeSnoc(Parts(e), k);
    case IdLine(form) => FieldFed(s, "id", e.id, form);
  }

  lemma {:induction false} NoParts()
    ensures Join([], "\n") == "" && Split("", '\n') == [""]
  {
  }

  lemma {:induction false} BlockFed(events: seq<Event>, b: Block)
    requires BlockOk(b)
    ensures Flush(FeedAll(Clean(events), BlockLines(b)))
         == Clean(events + if b.event.Some? then [b.event.value] else [])
  {
    var e := if b.event.Some? then b.event.value else NOTHING;
    LayoutFed(events, e, b.layout);
    JoinOfSplit(e.data, '\n');
    TakeAll(Parts(e));
    NoParts();
    EmptyUnit(events);
  }

  lemma {:induction false} BlocksFed(bs: seq<Block>)
    requires BlocksOk(bs)
    ensures FeedAll(Clean([]), AllLines(bs)) == Clean(Events(bs))
  {
    if bs != [] {
      var x, y := AllLines(Front(bs)), BlockLines(Last(bs));
      BlocksFed(Front(bs));
      FeedSnoc(Clean([]), x + y, "");
      FeedConcat(Clean([]), x, y);
      BlockFed(Events(Front(bs)), Last(bs));
    }
  }

  // ---- Lines are lines ---------------------------------------------------------------

  lemma {:induction false} AllOneLineConcat(x: seq<string>, y: seq<string>)
    ensures AllOneLine(x + y) <==> AllOneLine(x) && AllOneLine(y)
    decreases |x|
  {
    if x == [] {
      EmptyUnit(y);
    } else {
      TailOfConcat(x, y);
      AllOneLineConcat(x[1..], y);
    }
  }

  lemma {:induction false} PartsAreLines(data: string)
    requires '\r' !in data
    ensures forall k :: 0 <= k < |Split(data, '\n')| ==> OneLine(Split(data, '\n')[k])
  {
    if data != "" {
      PartsAreLines(data[1..]);
      var rest := Split(data[1..], '\n');
      assert data[0] in data;
    }
  }

  lemma {:induction false} PieceIsLine(e: Event, p: Piece, k: nat)
    requires Printable(e) && PieceOk(e, p, k)
    ensures OneLine(PieceLine(e, p, k))
  {
    PartsAreLines(e.data);
  }

  lemma {:induction false} LayoutIsLines(e: Event, layout: seq<Piece>)
    requires Printable(e) && LayoutOk(e, layout)
    ensures AllOneLine(LayoutLines(e, layout))
  {
    if layout != [] {
      var l := PieceLine(e, Last(layout), DataLines(Front(layout)));
      LayoutIsLines(e, Front(layout));
      PieceIsLine(e, Last(layout), DataLines(Front(layout)));
      AllOneLineConcat(LayoutLines(e, Front(layout)), [l]);
      assert [l][1..] == [];
    }
  }

  lemma {:induction false} BlocksAreLines(bs: seq<Block>)
    requires BlocksOk(bs)
    ensures AllOneLine(AllLines(bs))
  {
    if bs != [] {
      var x, y := AllLines(Front(bs)), BlockLines(Last(bs));
      BlocksAreLines(Front(bs));
      LayoutIsLines(if Last(bs).event.Some? then Last(bs).event.value else NOTHING, Last(bs).layout);
      AllOneLineConcat(x, y);
      AllOneLineConcat(x + y, [""]);
      assert [""][1..] == [];
    }
  }

  // ---- Main result -------------------------------------------------------------------

  /** How a stream may end: with its last blank line, without it, or cut off even before the
      last line's terminator. */
  datatype Ending = Full | NoBlankLine | NoTerminator

  /** The text of a stream of blocks. */
  function Stream(bs: seq<Block>, t: string, ending: Ending): string
    requires BlocksOk(bs)
  {
    var all := AllLines(bs);
    if ending.Full? || all == [] then Printed(all, t)
    else if ending.NoBlankLine? || Front(all) == [] then Printed(Front(all), t)
    else Printed(Front(Front(all)), t) + Last(Front(all))
  }

  lemma {:induction false} LastIsBlank(bs: seq<Block>)
    requires BlocksOk(bs) && bs != []
    ensures AllLines(bs) != [] && Last(AllLines(bs)) == ""
  {
  }

  lemma {:induction false} FlushTwice(s: State)
    ensures Flush(Feed(s, "")).events == Flush(s).events
  {
  }

  /** The last blank line makes no difference. */
  lemma {:induction false} WithoutBlank(bs: seq<Block>)
    requires BlocksOk(bs) && AllLines(bs) != []
    ensures Flush(FeedAll(Clean([]), Front(AllLines(bs)))).events == Events(bs)
  {
    var all := AllLines(bs);
    BlocksFed(bs);
    LastIsBlank(bs);
    FrontLast(all);
    FeedSnoc(Clean([]), Front(all), "");
    FlushTwice(FeedAll(Clean([]), Front(all)));
  }

  lemma {:induction false} FrontIsLines(x: seq<string>)
    requires AllOneLine(x) && x != []
    ensures AllOneLine(Front(x)) && OneLine(Last(x))
  {
    FrontLast(x);
    AllOneLineConcat(Front(x), [Last(x)]);
  }

  /** ParseSSE undoes printing: whatever the order and form of the field lines, the comments
      and blank lines in between, the terminator used throughout and the way the stream ends,
      exactly the events printed come back. */
  lemma {:induction false} ParseInvertsPrinting(bs: seq<Block>, t: string, ending: Ending)
    requires BlocksOk(bs) && Terminator(t)
    ensures Parsed(Stream(bs, t, ending)) == Events(bs)
  {
    var all := AllLines(bs);
    BlocksAreLines(bs);
    if ending.Full? || all == [] {
      LinesOfPrinted(all, t);
      BlocksFed(bs);
    } else {
      WithoutBlank(bs);
      FrontIsLines(all);
      if ending.NoBlankLine? || Front(all) == [] {
        LinesOfPrinted(Front(all), t);
      } else {
        CutOff(Front(all), t);
      }
    }
  }

  /** A stream cut off before its last terminator; an empty last line is then no line. */
  lemma {:induction false} CutOff(lines: seq<string>, t: string)
    requires AllOneLine(lines) && lines != [] && Terminator(t)
    ensures Parsed(Printed(Front(lines), t) + Last(lines)) == Flush(FeedAll(Clean([]), lines)).events
  {
    FrontIsLines(lines);
    FrontLast(lines);
    if Last(lines) == "" {
      EmptyUnit(Printed(Front(lines), t));
      LinesOfPrinted(Front(lines), t);
      FeedSnoc(Clean([]), Front(lines), "");
      FlushTwice(FeedAll(Clean([]), Front(lines)));
    } else {
      LinesOfUnterminated(Front(lines), Last(lines), t);
    }
  }
}
