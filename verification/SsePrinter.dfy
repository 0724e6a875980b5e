/** Printing frames in the event stream format of section 9.2.6 of the WHATWG HTML Standard, and
    what the parser makes of printed streams that arrive whole or cut off. */
module SsePrinter {
  import opened Wrappers
  import opened Sse
  import opened SseProofs

  /** An event of the stream, or a comment such as a keep-alive ping. */
  datatype Item = Event(frame: SseFrame) | Comment(text: string)

  predicate IsTerminator(eol: string) {
    eol == "\n" || eol == "\r\n"
  }

  predicate Printable(f: SseFrame) {
    && (f.id.Some? ==> OneLine(f.id.value))
    && (f.event.Some? ==> OneLine(f.event.value))
    && '\r' !in f.data
  }

  predicate PrintableItem(item: Item) {
    match item
    case Event(f) => Printable(f)
    case Comment(text) => OneLine(text)
  }

  function DataLines(lines: seq<string>): seq<string> {
    seq(|lines|, i requires 0 <= i < |lines| => "data: " + lines[i])
  }

  function IdLines(f: SseFrame): seq<string> {
    if f.id.Some? then ["id: " + f.id.value] else []
  }

  function EventLines(f: SseFrame): seq<string> {
    if f.event.Some? then ["event: " + f.event.value] else []
  }

  function HeadLines(f: SseFrame): seq<string> {
    IdLines(f) + EventLines(f)
  }

  function Lines(item: Item): seq<string> {
    match item
    case Event(f) => HeadLines(f) + DataLines(Split(f.data))
    case Comment(text) => [": " + text]
  }

  function PrintLines(lines: seq<string>, eol: string): string {
    if lines == [] then "" else lines[0] + eol + PrintLines(lines[1..], eol)
  }

  function Print(item: Item, eol: string): string {
    PrintLines(Lines(item), eol) + eol
  }

  function PrintAll(items: seq<Item>, eol: string): string {
    if items == [] then "" else Print(items[0], eol) + PrintAll(items[1..], eol)
  }

  function EventOf(item: Item): seq<SseFrame> {
    match item
    case Event(f) => [f]
    case Comment(_) => []
  }

  function Events(items: seq<Item>): seq<SseFrame> {
    Collect(EventOf, items)
  }

  // ---------- printed lines normalize to a block ----------

  lemma {:induction false} NormalizePlain(s: string)
    requires '\r' !in s
    ensures Normalize(s) == s
  {
    if |s| >= 2 {
      NormalizePlain(s[1..]);
    }
  }

  lemma NormalizeTerminated(line: string, eol: string)
    requires '\r' !in line && IsTerminator(eol)
    ensures Normalize(line + eol) == line + "\n"
  {
    NormalizePlain(line);
    NormalizeConcat(line, eol);
    if eol == "\r\n" {
      assert eol[2..] == "";
    }
  }

  lemma {:induction false} NormalizePrintLines(lines: seq<string>, eol: string)
    requires IsTerminator(eol) && forall line | line in lines :: '\r' !in line
    ensures Normalize(PrintLines(lines, eol)) == PrintLines(lines, "\n")
  {
    if lines != [] {
      NormalizePrintLines(lines[1..], eol);
      NormalizeTerminated(lines[0], eol);
      NormalizeConcat(lines[0] + eol, PrintLines(lines[1..], eol));
    }
  }

  lemma {:induction false} PrintIsJoin(lines: seq<string>)
    requires lines != []
    ensures PrintLines(lines, "\n") == Join(lines) + "\n"
  {
    if |lines| == 1 {
      assert PrintLines(lines[1..], "\n") == "";
    } else {
      PrintIsJoin(lines[1..]);
    }
  }

  lemma LinesOfItem(item: Item)
    requires PrintableItem(item)
    ensures BlockLines(Lines(item))
    ensures Lines(item)[0][0] in ":ied"
  {
    match item {
      case Event(f) =>
        JoinSplit(f.data);
        var data := DataLines(Split(f.data));
        forall line | line in data ensures line != "" && OneLine(line) {
          var i :| 0 <= i < |data| && data[i] == line;
          assert Split(f.data)[i] in Split(f.data);
          PartOfJoin(Split(f.data), i);
        }
        assert data[0][0] == 'd';
      case Comment(text) =>
    }
  }

  lemma {:induction false} PartOfJoin(lines: seq<string>, i: nat)
    requires i < |lines| && '\r' !in Join(lines)
    ensures '\r' !in lines[i]
  {
    if |lines| > 1 {
      assert forall c | c in lines[0] :: c in Join(lines);
      assert forall c | c in Join(lines[1..]) :: c in Join(lines);
      if i > 0 {
        PartOfJoin(lines[1..], i - 1);
      }
    }
  }

  /** A printed item is one block and the blank line that ends it. */
  lemma NormalizePrint(item: Item, eol: string)
    requires PrintableItem(item) && IsTerminator(eol)
    ensures Normalize(Print(item, eol)) == Join(Lines(item)) + "\n\n"
  {
    LinesOfItem(item);
    var lines := Lines(item);
    NormalizePrintLines(lines, eol);
    PrintIsJoin(lines);
    NormalizeEol(eol);
    EndsWithNewline(lines, eol);
    NormalizeConcat(PrintLines(lines, eol), eol);
    TwoNewlines(Join(lines));
  }

  lemma NormalizeEol(eol: string)
    requires IsTerminator(eol)
    ensures Normalize(eol) == "\n"
  {
    NormalizeTerminated("", eol);
    assert "" + eol == eol && "" + "\n" == "\n";
  }

  lemma TwoNewlines(block: string)
    ensures block + "\n" + "\n" == block + "\n\n"
  {
  }

  lemma {:induction false} EndsWithNewline(lines: seq<string>, eol: string)
    requires lines != [] && IsTerminator(eol)
    ensures PrintLines(lines, eol) != "" && PrintLines(lines, eol)[|PrintLines(lines, eol)| - 1] == '\n'
  {
    if |lines| > 1 {
      EndsWithNewline(lines[1..], eol);
    } else {
      assert PrintLines(lines[1..], eol) == "";
    }
  }

  // ---------- a block parses back to its frame ----------

  lemma {:induction false} IndexOfColon(name: string, rest: string)
    requires ':' !in name
    ensures IndexOf(name + ":" + rest, ':') == |name|
  {
    var s := name + ":" + rest;
    if name != "" {
      assert s[1..] == name[1..] + ":" + rest;
      IndexOfColon(name[1..], rest);
    }
  }

  function SetField(fields: Fields, name: string, value: string): Fields {
    if name == "data" then fields.(data := fields.data + [value])
    else if name == "event" then fields.(event := Some(value))
    else if name == "id" then fields.(id := Some(value))
    else fields
  }

  lemma FeedField(fields: Fields, name: string, value: string)
    requires name != "" && ':' !in name
    ensures FeedLine(fields, name + ": " + value) == SetField(fields, name, value)
  {
    var line := name + ": " + value;
    assert line == name + ":" + (" " + value);
    IndexOfColon(name, " " + value);
    assert line[0] == name[0];
    assert line[..|name|] == name && line[|name| + 1..] == " " + value;
    assert (" " + value)[1..] == value;
  }

  /** What any line does: a name alone sets its field to nothing, a value loses one leading blank, and a
      line that starts with a colon is a comment. */
  lemma FieldOfLine(fields: Fields, name: string, value: string)
    requires name != "" && ':' !in name
    ensures FeedLine(fields, name) == SetField(fields, name, "")
    ensures FeedLine(fields, name + ":" + value) ==
            SetField(fields, name, if value != "" && value[0] == ' ' then value[1..] else value)
    ensures FeedLine(fields, ":" + value) == fields
  {
    NoColon(name);
    assert name[..|name|] == name;
    IndexOfColon(name, value);
    var line := name + ":" + value;
    assert line[0] == name[0] && line[..|name|] == name && line[|name| + 1..] == value;
  }

  lemma {:induction false} NoColon(s: string)
    requires ':' !in s
    ensures IndexOf(s, ':') == |s|
  {
    if s != "" {
      NoColon(s[1..]);
    }
  }

  lemma {:induction false} FeedConcat(fields: Fields, a: seq<string>, b: seq<string>)
    ensures FeedLines(fields, a + b) == FeedLines(FeedLines(fields, a), b)
    decreases |a|
  {
    if a == [] {
      assert a + b == b;
    } else {
      FeedConcat(FeedLine(fields, a[0]), a[1..], b);
      assert (a + b)[1..] == a[1..] + b;
    }
  }

  lemma FeedOne(fields: Fields, line: string)
    ensures FeedLines(fields, [line]) == FeedLine(fields, line)
  {
    assert [line][1..] == [];
  }

  lemma {:induction false} FeedData(fields: Fields, lines: seq<string>)
    ensures FeedLines(fields, DataLines(lines)) == fields.(data := fields.data + lines)
    decreases |lines|
  {
    if lines == [] {
      assert fields.data + lines == fields.data;
    } else {
      FeedField(fields, "data", lines[0]);
      assert "data" + ": " + lines[0] == "data: " + lines[0];
      assert DataLines(lines)[1..] == DataLines(lines[1..]);
      FeedData(fields.(data := fields.data + [lines[0]]), lines[1..]);
      assert fields.data + [lines[0]] + lines[1..] == fields.data + lines;
    }
  }

  lemma FeedId(fields: Fields, f: SseFrame)
    requires fields.id.None?
    ensures FeedLines(fields, IdLines(f)) == fields.(id := f.id)
  {
    if f.id.Some? {
      FeedField(fields, "id", f.id.value);
      assert "id" + ": " + f.id.value == "id: " + f.id.value;
      FeedOne(fields, "id: " + f.id.value);
    }
  }

  lemma FeedEvent(fields: Fields, f: SseFrame)
    requires fields.event.None?
    ensures FeedLines(fields, EventLines(f)) == fields.(event := f.event)
  {
    if f.event.Some? {
      FeedField(fields, "event", f.event.value);
      assert "event" + ": " + f.event.value == "event: " + f.event.value;
      FeedOne(fields, "event: " + f.event.value);
    }
  }

  /** The head of a frame followed by lines of data. */
  lemma FeedFrame(f: SseFrame, lines: seq<string>)
    ensures FeedLines(Fields([], None, None), HeadLines(f) + DataLines(lines)) == Fields(lines, f.event, f.id)
  {
    var start := Fields([], None, None);
    var withId := start.(id := f.id);
    var withEvent := withId.(event := f.event);
    FeedConcat(start, HeadLines(f), DataLines(lines));
    FeedConcat(start, IdLines(f), EventLines(f));
    FeedId(start, f);
    FeedEvent(withId, f);
    FeedData(withEvent, lines);
    assert [] + lines == lines;
  }

  lemma {:induction false} CommentsFeedNothing(fields: Fields, lines: seq<string>)
    requires forall line | line in lines :: line == "" || line[0] == ':'
    ensures FeedLines(fields, lines) == fields
    decreases |lines|
  {
    if lines != [] {
      assert lines[0] in lines;
      CommentsFeedNothing(fields, lines[1..]);
    }
  }

  /** A block of nothing but comments and empty lines yields no frame. */
  lemma CommentBlockYieldsNothing(block: string)
    requires forall line | line in Split(block) :: line == "" || line[0] == ':'
    ensures FrameOf(block) == None
  {
    CommentsFeedNothing(Fields([], None, None), Split(block));
  }

  lemma NotBlankBlock(item: Item)
    requires PrintableItem(item)
    ensures !IsBlank(Join(Lines(item))) && Split(Join(Lines(item))) == Lines(item)
  {
    LinesOfItem(item);
    JoinStarts(Lines(item));
    assert Join(Lines(item))[0] in Join(Lines(item));
    SplitJoin(Lines(item));
  }

  lemma EventRoundTrip(f: SseFrame)
    requires Printable(f)
    ensures Yield(Join(Lines(Event(f)))) == [f]
  {
    NotBlankBlock(Event(f));
    FeedFrame(f, Split(f.data));
    JoinSplit(f.data);
  }

  /** A printed block yields exactly what was printed. */
  lemma BlockRoundTrip(item: Item)
    requires PrintableItem(item)
    ensures Yield(Join(Lines(item))) == EventOf(item)
  {
    match item {
      case Event(f) => EventRoundTrip(f);
      case Comment(text) =>
        NotBlankBlock(item);
        CommentBlockYieldsNothing(Join(Lines(item)));
    }
  }

  // ---------- streams ----------

  function BlockTexts(items: seq<Item>): seq<string> {
    seq(|items|, i requires 0 <= i < |items| => Join(Lines(items[i])))
  }

  predicate PrintableAll(items: seq<Item>) {
    forall item | item in items :: PrintableItem(item)
  }

  lemma BlocksAfterBlock(lines: seq<string>, tail: string)
    requires BlockLines(lines)
    ensures Blocks(Join(lines) + "\n\n" + tail) == ([Join(lines)] + Blocks(tail).0, Blocks(tail).1)
  {
    BoundaryOfBlock(lines, tail);
    var block, text := Join(lines), Join(lines) + "\n\n" + tail;
    assert text[..|block|] == block && text[|block| + 2..] == tail;
  }

  lemma BlocksAfterItem(item: Item, eol: string, tail: string)
    requires PrintableItem(item) && IsTerminator(eol)
    ensures Blocks(Normalize(Print(item, eol) + tail)) ==
            ([Join(Lines(item))] + Blocks(Normalize(tail)).0, Blocks(Normalize(tail)).1)
  {
    LinesOfItem(item);
    NormalizePrint(item, eol);
    NormalizeConcat(Print(item, eol), tail);
    BlocksAfterBlock(Lines(item), Normalize(tail));
  }

  /** Anything that deals with a printed text item by item sees every item. */
  lemma {:induction false} ItemByItem(f: string -> (seq<string>, string), items: seq<Item>, eol: string)
    requires PrintableAll(items) && f("") == ([], "")
    requires forall item, tail | PrintableItem(item) ::
               f(Print(item, eol) + tail) == ([Join(Lines(item))] + f(tail).0, f(tail).1)
    ensures f(PrintAll(items, eol)) == (BlockTexts(items), "")
  {
    if items == [] {
      assert BlockTexts(items) == [];
    } else {
      var rest := items[1..];
      assert PrintableItem(items[0]) && PrintableAll(rest);
      ItemByItem(f, rest, eol);
      assert [Join(Lines(items[0]))] + BlockTexts(rest) == BlockTexts(items);
    }
  }

  lemma BlocksOfPrint(items: seq<Item>, eol: string)
    requires PrintableAll(items) && IsTerminator(eol)
    ensures Blocks(Normalize(PrintAll(items, eol))) == (BlockTexts(items), "")
  {
    var f := (text: string) => Blocks(Normalize(text));
    forall item, tail | PrintableItem(item)
      ensures f(Print(item, eol) + tail) == ([Join(Lines(item))] + f(tail).0, f(tail).1)
    {
      BlocksAfterItem(item, eol, tail);
    }
    ItemByItem(f, items, eol);
  }

  lemma {:induction false} FramesOfBlockTexts(items: seq<Item>)
    requires PrintableAll(items)
    ensures FramesOf(BlockTexts(items)) == Events(items)
  {
    if items != [] {
      assert items[0] in items;
      BlockRoundTrip(items[0]);
      FramesOfBlockTexts(items[1..]);
      assert BlockTexts(items)[1..] == BlockTexts(items[1..]);
    }
  }

  /** A stream that is read to its end yields exactly the frames that were printed, whatever the
      line terminator, the chunks, and the comments in between. */
  lemma StreamRoundTrip(items: seq<Item>, eol: string, chunks: seq<string>)
    requires PrintableAll(items) && IsTerminator(eol)
    requires CleanlyCut(chunks) && Concat(chunks) == PrintAll(items, eol)
    ensures Parse(Received(chunks), false) == Events(items)
  {
    ReceivedIsNormalized(chunks);
    BlocksOfPrint(items, eol);
    FramesOfBlockTexts(items);
    assert FrameOf("") == None;
  }

  lemma {:induction false} NoBoundaryAfterCr(s: string)
    requires Boundary(s).None?
    ensures Boundary(s + "\r").None?
  {
    if s != "" {
      NoBoundaryAfterCr(s[1..]);
      assert (s + "\r")[1..] == s[1..] + "\r";
    }
  }

  lemma {:induction false} RestHasNoBoundary(s: string)
    ensures Boundary(Blocks(s).1).None?
    decreases |s|
  {
    if Boundary(s).Some? {
      RestHasNoBoundary(s[Boundary(s).value + 2..]);
    }
  }

  lemma BlocksOfPrefix(a: string, b: string)
    ensures Blocks(a).0 <= Blocks(a + b).0
  {
    BlocksConcat(a, b);
  }

  lemma NoBlockAfterCr(a: string)
    ensures Blocks(a + "\r").0 == Blocks(a).0
  {
    BlocksConcat(a, "\r");
    RestHasNoBoundary(a);
    NoBoundaryAfterCr(Blocks(a).1);
    assert Blocks(a).0 + [] == Blocks(a).0;
  }

  /** Cut between a CR and its LF. */
  lemma CutInsideCrLf(a: string, b: string)
    ensures Blocks(Normalize(a + "\r")).0 <= Blocks(Normalize(a + ("\r" + b))).0
  {
    NormalizeConcat(a, "\r");
    NormalizeConcat(a, "\r" + b);
    NoBlockAfterCr(Normalize(a));
    BlocksOfPrefix(Normalize(a), Normalize("\r" + b));
  }

  /** The complete blocks of a text that was cut off anywhere are the first blocks of the text. */
  lemma CutOffBlocks(a: string, b: string)
    ensures Blocks(Normalize(a)).0 <= Blocks(Normalize(a + b)).0
  {
    if !SplitsCrLf(a, b) {
      NormalizeConcat(a, b);
      BlocksOfPrefix(Normalize(a), Normalize(b));
    } else {
      var before := a[..|a| - 1];
      assert a == before + "\r";
      Associative(before, "\r", b);
      CutInsideCrLf(before, b);
    }
  }

  lemma FirstBlockTexts(items: seq<Item>, blocks: seq<string>)
    requires PrintableAll(items) && blocks <= BlockTexts(items)
    ensures var first := items[..|blocks|]; PrintableAll(first) && blocks == BlockTexts(first)
  {
    forall item | item in items[..|blocks|] ensures PrintableItem(item) {
      assert item in items;
    }
  }

  /** The complete blocks of a text that was cut off are those of its first items. */
  lemma CutOffFrames(items: seq<Item>, eol: string, text: string, lost: string)
    requires PrintableAll(items) && IsTerminator(eol) && text + lost == PrintAll(items, eol)
    ensures var n := |Blocks(Normalize(text)).0|;
            n <= |items| && FramesOf(Blocks(Normalize(text)).0) == Events(items[..n])
  {
    BlocksOfPrint(items, eol);
    CutOffBlocks(text, lost);
    var blocks := Blocks(Normalize(text)).0;
    FirstBlockTexts(items, blocks);
    FramesOfBlockTexts(items[..|blocks|]);
  }

  /** A stream whose connection breaks anywhere yields the frames of the first `n` items. */
  lemma BrokenStream(items: seq<Item>, eol: string, chunks: seq<string>, lost: string) returns (n: nat)
    requires PrintableAll(items) && IsTerminator(eol)
    requires CleanlyCut(chunks) && Concat(chunks) + lost == PrintAll(items, eol)
    ensures n <= |items| && Parse(Received(chunks), true) == Events(items[..n])
  {
    ReceivedIsNormalized(chunks);
    CutOffFrames(items, eol, Concat(chunks), lost);
    n := |Blocks(Normalize(Concat(chunks))).0|;
    assert FramesOf(Blocks(Normalize(Concat(chunks))).0) + [] == FramesOf(Blocks(Normalize(Concat(chunks))).0);
  }

  lemma PrefixOfRest<T>(a: seq<T>, b: seq<T>, c: seq<T>)
    ensures a + b <= a + c <==> b <= c
  {
    if a + b <= a + c {
      assert b == (a + b)[|a|..] && c == (a + c)[|a|..];
      assert forall i | 0 <= i < |b| :: b[i] == (a + b)[|a| + i] && c[i] == (a + c)[|a| + i];
    }
  }

  lemma EventsSplit(items: seq<Item>, n: nat)
    requires n <= |items|
    ensures Events(items) == Events(items[..n]) + Events(items[n..])
  {
    CollectConcat(EventOf, items[..n], items[n..]);
    assert items == items[..n] + items[n..];
  }
}
