/** Where a stream may end without an error so that the parser yields no frame that was not printed. */
module SseEnds {
  import opened Wrappers
  import opened Sse
  import opened SseProofs
  import opened SsePrinter

  // ---------- what is left when a printed text is cut off ----------

  /** `rest` is `text` cut off inside it, or inside the CR LF of one of its line ends. */
  predicate CutOf(rest: string, text: string) {
    || rest <= text
    || (rest != "" && rest[|rest| - 1] == '\r' && rest[..|rest| - 1] + "\n" <= text + "\n")
  }

  lemma {:induction false} NoBoundaryInPrefix(a: string, b: string)
    requires Boundary(a).None? && Boundary(a + b).Some?
    ensures |a| < Boundary(a + b).value + 2
  {
    if |a| >= 2 {
      assert (a + b)[1..] == a[1..] + b;
      NoBoundaryInPrefix(a[1..], b);
    }
  }

  /** Of two beginnings of a text the shorter begins the longer. */
  lemma ShorterIsPrefix(a: string, b: string, text: string)
    requires a <= text && b <= text && |a| <= |b|
    ensures a <= b
  {
    assert a == text[..|a|] && b == text[..|b|];
  }

  lemma StartsWithBlock(s: string, items: seq<Item>)
    requires Blocks(s) == (BlockTexts(items), "") && items != []
    ensures var block := Join(Lines(items[0])); Boundary(s) == Some(|block|) && block + "\n\n" <= s
  {
    assert Boundary(s).Some?;
    var i := Boundary(s).value;
    FirstBlock(s, i);
    BoundaryIsFirst(s);
    assert Blocks(s).0[0] == s[..i] && BlockTexts(items)[0] == Join(Lines(items[0]));
    assert s[..i + 2] == s[..i] + "\n\n";
  }

  lemma NoBlocksLeft(s: string, items: seq<Item>)
    requires Blocks(s) == (BlockTexts(items), "") && items == []
    ensures s == ""
  {
    assert |Blocks(s).0| == |BlockTexts(items)| == 0;
  }

  /** A text without a complete block, followed by `more`, gives the blocks of the items: then the
      text is the first of them cut off. */
  lemma RestIsCut(rest: string, more: string, items: seq<Item>)
    requires Boundary(rest).None? && items != []
    requires Blocks(rest + more) == (BlockTexts(items), "")
    ensures rest <= Join(Lines(items[0])) + "\n"
    ensures more != "" && rest + more[..1] <= Join(Lines(items[0])) + "\n\n"
  {
    var s, block := rest + more, Join(Lines(items[0]));
    StartsWithBlock(s, items);
    NoBoundaryInPrefix(rest, more);
    assert block + "\n" <= block + "\n\n";
    ShorterIsPrefix(rest, block + "\n", s);
    assert more == "" ==> s == rest;
    assert rest + more[..1] <= s;
    ShorterIsPrefix(rest + more[..1], block + "\n\n", s);
  }

  lemma {:induction false} BlocksLeave(text: string, more: string, items: seq<Item>)
    requires Blocks(text + more) == (BlockTexts(items), "")
    ensures var (blocks, rest) := Blocks(text);
            && |blocks| <= |items|
            && Boundary(rest).None?
            && Blocks(rest + more) == (BlockTexts(items[|blocks|..]), "")
  {
    BlocksConcat(text, more);
    RestHasNoBoundary(text);
    var (blocks, rest) := Blocks(text);
    var later := Blocks(rest + more).0;
    assert later == (blocks + later)[|blocks|..];
    assert BlockTexts(items[|blocks|..]) == BlockTexts(items)[|blocks|..];
  }

  lemma CrKeepsBlocks(s: string)
    ensures Blocks(s + "\r") == (Blocks(s).0, Blocks(s).1 + "\r")
  {
    BlocksConcat(s, "\r");
    RestHasNoBoundary(s);
    NoBoundaryAfterCr(Blocks(s).1);
    assert Blocks(s).0 + [] == Blocks(s).0;
  }

  /** The text that arrived is cut off inside the item after the complete ones. */
  predicate CutInNext(text: string, items: seq<Item>) {
    var (blocks, rest) := Blocks(text);
    && |blocks| <= |items|
    && (|blocks| == |items| ==> rest == "")
    && (|blocks| < |items| ==> CutOf(rest, Join(Lines(items[|blocks|])) + "\n"))
  }

  /** Cut between a CR and its LF. */
  lemma CutAtCr(text: string, more: string, items: seq<Item>)
    requires Blocks(text + ("\n" + more)) == (BlockTexts(items), "")
    ensures CutInNext(text + "\r", items)
  {
    BlocksLeave(text, "\n" + more, items);
    CrKeepsBlocks(text);
    var (blocks, rest) := Blocks(text);
    if |blocks| < |items| {
      RestIsCut(rest, "\n" + more, items[|blocks|..]);
      assert ("\n" + more)[..1] == "\n";
      assert (rest + "\r")[..|rest|] == rest;
      TwoNewlines(Join(Lines(items[|blocks|])));
    } else {
      NoBlocksLeft(rest + ("\n" + more), items[|blocks|..]);
    }
  }

  lemma NormalizeCutCr(before: string, lost: string)
    requires lost != "" && lost[0] == '\n'
    ensures Normalize(before + "\r") == Normalize(before) + "\r"
    ensures Normalize(before + "\r" + lost) == Normalize(before) + ("\n" + Normalize(lost[1..]))
  {
    NormalizeConcat(before, "\r");
    Associative(before, "\r", lost);
    NormalizeConcat(before, "\r" + lost);
    NormalizePair(lost[1..]);
    assert "\r" + lost == "\r\n" + lost[1..];
  }

  lemma CutElsewhere(text: string, more: string, items: seq<Item>)
    requires Blocks(text + more) == (BlockTexts(items), "")
    ensures CutInNext(text, items)
  {
    BlocksLeave(text, more, items);
    var (blocks, rest) := Blocks(text);
    if |blocks| < |items| {
      RestIsCut(rest, more, items[|blocks|..]);
    } else {
      NoBlocksLeft(rest + more, items[|blocks|..]);
    }
  }

  lemma CutOffInNext(items: seq<Item>, eol: string, text: string, lost: string)
    requires PrintableAll(items) && IsTerminator(eol) && text + lost == PrintAll(items, eol)
    ensures CutInNext(Normalize(text), items)
  {
    BlocksOfPrint(items, eol);
    if SplitsCrLf(text, lost) {
      var before := text[..|text| - 1];
      assert text == before + "\r";
      NormalizeCutCr(before, lost);
      CutAtCr(Normalize(before), Normalize(lost[1..]), items);
    } else {
      NormalizeConcat(text, lost);
      CutElsewhere(Normalize(text), Normalize(lost), items);
    }
  }

  // ---------- the lines of an item that was cut off ----------

  /** Line `k` arrived as `part`; the lines before it are complete. */
  predicate ArrivedAs(lines: seq<string>, k: nat, part: string) {
    && k <= |lines|
    && if k == |lines| then part == "" || part == "\r" else part <= lines[k] || part == lines[k] + "\r"
  }

  lemma PrintCons(line: string, lines: seq<string>)
    ensures PrintLines([line] + lines, "\n") == line + "\n" + PrintLines(lines, "\n")
  {
    assert ([line] + lines)[1..] == lines;
  }

  lemma HoldsNewline(kept: string, s: string)
    requires kept + "\n" <= s
    ensures '\n' in s
  {
    assert s[|kept|] == '\n';
  }

  lemma KeptIsPrefix(kept: string, text: string)
    requires kept + "\n" <= text + "\n"
    ensures kept <= text
  {
    assert kept == (kept + "\n")[..|kept|] == (text + "\n")[..|kept|] == text[..|kept|];
  }

  /** A text that is cut off before the end of its first line, or inside the line end. */
  lemma CutInLine(rest: string, line: string, later: string)
    requires OneLine(line) && CutOf(rest, line + "\n" + later) && !(line + "\n" <= rest)
    ensures rest <= line || rest == line + "\r"
  {
    var text := line + "\n" + later;
    assert text[|line|] == '\n' && forall i | 0 <= i < |line| :: text[i] == line[i];
    if rest <= text {
      if |rest| > |line| {
        ShorterIsPrefix(line + "\n", rest, text);
      } else {
        ShorterIsPrefix(rest, line, text);
      }
    } else {
      var kept := rest[..|rest| - 1];
      assert kept <= rest && rest == kept + "\r";
      KeptIsPrefix(kept, text);
      if |kept| > |line| {
        ShorterIsPrefix(line + "\n", kept, text);
      } else {
        ShorterIsPrefix(kept, line, text);
        if |kept| < |line| {
          ShorterIsPrefix(kept + "\n", line, text + "\n");
          HoldsNewline(kept, line);
        }
      }
    }
  }

  lemma CutAfterLine(rest: string, first: string, later: string)
    requires CutOf(rest, first + later) && first <= rest && first != "" && first[|first| - 1] != '\r'
    ensures CutOf(rest[|first|..], later)
  {
    var tail := rest[|first|..];
    assert rest == first + tail;
    if !(rest <= first + later) {
      assert tail != "" && tail[|tail| - 1] == '\r';
      var kept := tail[..|tail| - 1];
      assert rest[..|rest| - 1] == first + kept;
      Associative(first, kept, "\n");
      Associative(first, later, "\n");
      PrefixOfRest(first, kept + "\n", later + "\n");
    }
  }

  lemma OneMoreLine(lines: seq<string>, n: nat, part: string, rest: string)
    requires lines != [] && lines[0] + "\n" <= rest && ArrivedAs(lines[1..], n, part)
    requires rest[|lines[0]| + 1..] == PrintLines(lines[1..][..n], "\n") + part
    ensures ArrivedAs(lines, n + 1, part) && rest == PrintLines(lines[..n + 1], "\n") + part
  {
    var first, before := lines[0] + "\n", lines[1..][..n];
    assert rest == first + rest[|first|..];
    assert lines[..n + 1] == [lines[0]] + before;
    PrintCons(lines[0], before);
    Associative(first, PrintLines(before, "\n"), part);
  }

  lemma {:induction false} CutLines(lines: seq<string>, rest: string) returns (k: nat, part: string)
    requires forall line | line in lines :: OneLine(line)
    requires CutOf(rest, PrintLines(lines, "\n"))
    ensures ArrivedAs(lines, k, part) && rest == PrintLines(lines[..k], "\n") + part
    decreases |lines|
  {
    k, part := 0, rest;
    if lines != [] {
      var first, later := lines[0] + "\n", PrintLines(lines[1..], "\n");
      if first <= rest {
        CutAfterLine(rest, first, later);
        var n;
        n, part := CutLines(lines[1..], rest[|first|..]);
        k := n + 1;
        OneMoreLine(lines, n, part, rest);
      } else {
        CutInLine(rest, lines[0], later);
      }
    }
  }

  lemma {:induction false} SplitPrinted(lines: seq<string>, part: string)
    requires '\n' !in part && forall line | line in lines :: '\n' !in line
    ensures Split(PrintLines(lines, "\n") + part) == lines + [part]
  {
    if lines == [] {
      SplitLine(part);
      assert "" + part == part;
    } else {
      SplitPrinted(lines[1..], part);
      SplitFirst(lines[0], PrintLines(lines[1..], "\n") + part);
      Associative(lines[0] + "\n", PrintLines(lines[1..], "\n"), part);
    }
  }

  // ---------- what the parser makes of an item that was cut off ----------

  lemma NoDataField(fields: Fields, line: string)
    requires line != "" ==> line[0] != 'd'
    ensures FeedLine(fields, line).data == fields.data
  {
    if line != "" && line[0] != ':' {
      assert line[..IndexOf(line, ':')][0] == line[0];
    }
  }

  lemma {:induction false} NoDataFields(fields: Fields, lines: seq<string>)
    requires forall line | line in lines :: line != "" && line[0] != 'd'
    ensures FeedLines(fields, lines).data == fields.data
    decreases |lines|
  {
    if lines != [] {
      assert lines[0] in lines && forall line | line in lines[1..] :: line in lines;
      NoDataField(fields, lines[0]);
      NoDataFields(FeedLine(fields, lines[0]), lines[1..]);
    }
  }

  /** Lines without data yield nothing, wherever they are cut. */
  lemma NothingYetYieldsNothing(lines: seq<string>, k: nat, part: string, rest: string)
    requires forall line | line in lines :: line != "" && line[0] != 'd'
    requires ArrivedAs(lines, k, part) && Split(rest) == lines[..k] + [part]
    ensures Yield(rest) == []
  {
    var start := Fields([], None, None);
    assert k < |lines| ==> lines[k] in lines;
    assert forall line | line in lines[..k] :: line in lines;
    NoDataFields(start, lines[..k]);
    FeedConcat(start, lines[..k], [part]);
    FeedOne(FeedLines(start, lines[..k]), part);
    NoDataField(FeedLines(start, lines[..k]), part);
  }

  /** What a `data` line gives that arrived as `part`: nothing before its name is complete. */
  function Gathered(part: string): seq<string> {
    if |part| < 4 then [] else if |part| <= 6 then [""] else [part[6..]]
  }

  lemma FeedNoName(fields: Fields, part: string)
    requires |part| < 4 && part <= "data"
    ensures FeedLine(fields, part) == fields
  {
    NoColon(part);
    assert part[..|part|] == part;
  }

  lemma FeedNoValue(fields: Fields, part: string)
    requires part == "data" || part == "data:" || part == "data: "
    ensures FeedLine(fields, part) == fields.(data := fields.data + [""])
  {
    if part == "data" {
      NoColon(part);
      assert part[..4] == part;
    } else {
      var raw := part[5..];
      assert part == "data" + ":" + raw && part[..4] == "data";
      IndexOfColon("data", raw);
      assert raw == "" || (raw == " " && raw[1..] == "");
    }
  }

  lemma FeedGathered(fields: Fields, line: string, part: string)
    requires part <= "data: " + line || part == "data: " + line + "\r"
    ensures FeedLine(fields, part) == fields.(data := fields.data + Gathered(part))
  {
    var text := "data: " + line;
    assert forall i | 0 <= i < |part| && i < 6 :: part[i] == "data: "[i];
    if |part| < 4 {
      FeedNoName(fields, part);
      assert fields.data + [] == fields.data;
    } else if |part| <= 6 {
      FeedNoValue(fields, part);
    } else {
      assert part == "data" + ": " + part[6..];
      FeedField(fields, "data", part[6..]);
    }
  }

  /** The data that arrived when the data lines `d` on are cut off. */
  function DataSoFar(lines: seq<string>, d: nat, part: string): seq<string>
    requires d <= |lines|
  {
    lines[..d] + if d == |lines| then [] else Gathered(part)
  }

  /** A cut after the head yields a frame of what data there is. */
  lemma CutInData(f: SseFrame, d: nat, part: string, rest: string)
    requires var lines := Split(f.data); d <= |lines| && ArrivedAs(DataLines(lines), d, part)
    requires Split(rest) == HeadLines(f) + DataLines(Split(f.data))[..d] + [part] && !IsBlank(rest)
    ensures FrameOf(rest) == ToFrame(Fields(DataSoFar(Split(f.data), d, part), f.event, f.id))
  {
    var start, lines := Fields([], None, None), Split(f.data);
    assert DataLines(lines)[..d] == DataLines(lines[..d]);
    FeedFrame(f, lines[..d]);
    FeedConcat(start, HeadLines(f) + DataLines(lines[..d]), [part]);
    var fields := Fields(lines[..d], f.event, f.id);
    FeedOne(fields, part);
    if d < |lines| {
      FeedGathered(fields, lines[d], part);
    } else {
      NoDataField(fields, part);
      assert lines[..d] + [] == lines[..d];
    }
  }

  lemma JoinIsInjective(a: seq<string>, b: seq<string>)
    requires a != [] && b != [] && NoNewlines(a) && NoNewlines(b)
    ensures Join(a) == Join(b) <==> a == b
  {
    SplitJoin(a);
    SplitJoin(b);
  }

  /** The frame is right if its lines of data are. */
  lemma RightDataIff(f: SseFrame, data: seq<string>, rest: string)
    requires NoNewlines(data) && FrameOf(rest) == ToFrame(Fields(data, f.event, f.id))
    ensures Yield(rest) <= [f] <==> data == [] || data == Split(f.data)
  {
    JoinSplit(f.data);
    if data != [] {
      JoinIsInjective(data, Split(f.data));
      assert Yield(rest) == [SseFrame(f.event, Join(data), f.id)];
      assert Yield(rest) <= [f] <==> Yield(rest)[0] == f;
    }
  }

  /** Line `d` of the data is the last, and what arrived of it says all it has to say. */
  predicate LastLineSaid(lines: seq<string>, d: nat, part: string) {
    d + 1 == |lines| && Gathered(part) == [lines[d]]
  }

  lemma AllDataIff(lines: seq<string>, d: nat, part: string)
    requires lines != [] && d <= |lines|
    ensures DataSoFar(lines, d, part) == [] <==> d == 0 && |part| < 4
    ensures DataSoFar(lines, d, part) == lines <==> d == |lines| || LastLineSaid(lines, d, part)
  {
    var soFar := DataSoFar(lines, d, part);
    if d == |lines| {
      assert soFar == lines;
    } else if d + 1 == |lines| {
      assert lines == lines[..d] + [lines[d]];
      assert soFar == lines ==> Gathered(part) == soFar[d..] == lines[d..] == [lines[d]];
    }
  }

  // ---------- how much arrived ----------

  lemma {:induction false} PrintConcat(a: seq<string>, b: seq<string>)
    ensures PrintLines(a + b, "\n") == PrintLines(a, "\n") + PrintLines(b, "\n")
    decreases |a|
  {
    if a == [] {
      assert a + b == b;
    } else {
      assert (a + b)[1..] == a[1..] + b;
      PrintConcat(a[1..], b);
      Associative(a[0] + "\n", PrintLines(a[1..], "\n"), PrintLines(b, "\n"));
    }
  }

  /** The number of characters before the data of an item. */
  function HeadLength(f: SseFrame): nat {
    |PrintLines(HeadLines(f), "\n")|
  }

  lemma DataLinesAreLong(lines: seq<string>)
    ensures lines == [] ==> PrintLines(DataLines(lines), "\n") == ""
    ensures lines != [] ==> |PrintLines(DataLines(lines), "\n")| >= 7
  {
  }

  lemma LineAt(before: seq<string>, line: string, after: seq<string>)
    ensures Join(before + ([line] + after)) + "\n" ==
            PrintLines(before, "\n") + (line + "\n" + PrintLines(after, "\n"))
  {
    PrintIsJoin(before + ([line] + after));
    PrintConcat(before, [line] + after);
    PrintCons(line, after);
  }

  lemma LastLineAt(before: seq<string>, line: string)
    ensures Join(before + [line]) == PrintLines(before, "\n") + line
  {
    LineAt(before, line, []);
    var text := PrintLines(before, "\n");
    assert [line] + [] == [line] && line + "\n" + "" == line + "\n";
    Associative(text, line, "\n");
    SameWithNewline(Join(before + [line]), text + line);
  }

  lemma LinesAround(head: seq<string>, lines: seq<string>, d: nat)
    requires d < |lines|
    ensures head + lines == head + lines[..d] + ([lines[d]] + lines[d + 1..])
    ensures d + 1 == |lines| ==> head + lines == head + lines[..d] + [lines[d]]
  {
  }

  /** The number of characters before data line `d`. */
  function LengthBefore(f: SseFrame, d: nat): (n: nat)
    requires d <= |Split(f.data)|
  {
    |PrintLines(HeadLines(f) + DataLines(Split(f.data))[..d], "\n")|
  }

  lemma LengthsBefore(f: SseFrame, d: nat)
    requires d <= |Split(f.data)|
    ensures LengthBefore(f, d) >= HeadLength(f) + if d == 0 then 0 else 7
    ensures d == 0 ==> LengthBefore(f, d) == HeadLength(f)
  {
    var all := Split(f.data);
    assert DataLines(all)[..d] == DataLines(all[..d]);
    PrintConcat(HeadLines(f), DataLines(all[..d]));
    DataLinesAreLong(all[..d]);
  }

  /** How long the item is, seen from data line `d`. */
  lemma WholeLength(f: SseFrame, d: nat)
    requires d < |Split(f.data)|
    ensures var lines, whole := Split(f.data), Join(Lines(Event(f)));
            |whole| >= LengthBefore(f, d) + 6 + |lines[d]| + if d + 1 == |lines| then 0 else 7
  {
    var all := Split(f.data);
    var lines := DataLines(all);
    LineAt(HeadLines(f) + lines[..d], lines[d], lines[d + 1..]);
    LinesAround(HeadLines(f), lines, d);
    assert lines[d + 1..] == DataLines(all[d + 1..]);
    DataLinesAreLong(all[d + 1..]);
  }

  lemma WholeToLast(f: SseFrame, d: nat)
    requires d + 1 == |Split(f.data)|
    ensures var lines := DataLines(Split(f.data));
            Join(Lines(Event(f))) == PrintLines(HeadLines(f) + lines[..d], "\n") + lines[d]
  {
    var lines := DataLines(Split(f.data));
    LinesAround(HeadLines(f), lines, d);
    LastLineAt(HeadLines(f) + lines[..d], lines[d]);
  }

  lemma SameWithNewline(a: string, b: string)
    requires a + "\n" == b + "\n"
    ensures a == b
  {
    assert a == (a + "\n")[..|a|] && b == (b + "\n")[..|b|];
  }

  /** Ending here yields nothing that was not printed: in a comment; before the name of the first
      data field is complete; or after all data, for which an empty last line needs no more than the
      name of its field. Cutting the CR off the LF that ends the data is not such an end. */
  predicate HarmlessCut(item: Item, rest: string) {
    match item
    case Comment(_) => true
    case Event(f) =>
      var lines, whole := Split(f.data), Join(Lines(item));
      || |rest| < HeadLength(f) + |"data"|
      || (&& |rest| >= |whole| - (if lines[|lines| - 1] == "" then |": "| else 0)
          && rest != whole + "\r")
  }

  lemma SameRest(before: string, a: string, b: string)
    ensures before + a == before + b <==> a == b
  {
    if before + a == before + b {
      assert a == (before + a)[|before|..] && b == (before + b)[|before|..];
    }
  }

  lemma CutLengths(f: SseFrame, d: nat, part: string, rest: string)
    requires var lines := Split(f.data); d < |lines| && ArrivedAs(DataLines(lines), d, part)
    requires rest == PrintLines(HeadLines(f) + DataLines(Split(f.data))[..d], "\n") + part
    ensures var lines := Split(f.data);
            HarmlessCut(Event(f), rest) <==> (d == 0 && |part| < 4) || LastLineSaid(lines, d, part)
  {
    var lines, whole := Split(f.data), Join(Lines(Event(f)));
    WholeLength(f, d);
    LengthsBefore(f, d);
    var line := "data: " + lines[d];
    var before := PrintLines(HeadLines(f) + DataLines(lines)[..d], "\n");
    assert |rest| == LengthBefore(f, d) + |part|;
    if d + 1 == |lines| {
      WholeToLast(f, d);
      Associative(before, line, "\r");
      SameRest(before, part, line + "\r");
      LastLine(lines[d], part);
    }
  }

  /** When the last line of data is said. */
  lemma LastLine(line: string, part: string)
    requires part <= "data: " + line || part == "data: " + line + "\r"
    ensures var text := "data: " + line;
            Gathered(part) == [line] <==>
            |part| >= |text| - (if line == "" then 2 else 0) && part != text + "\r"
  {
    var text := "data: " + line;
    if |part| > 6 {
      assert text[6..] == line && (text + "\r")[6..] == line + "\r";
      assert part <= text ==> part[6..] == line[..|part| - 6];
      assert part <= text && |part| == |text| ==> part == text;
    }
  }

  // ---------- which ends do no harm ----------

  lemma CutItemLines(item: Item, rest: string) returns (k: nat, part: string)
    requires PrintableItem(item) && CutOf(rest, Join(Lines(item)) + "\n")
    ensures ArrivedAs(Lines(item), k, part) && rest == PrintLines(Lines(item)[..k], "\n") + part
    ensures Split(rest) == Lines(item)[..k] + [part]
  {
    LinesOfItem(item);
    PrintIsJoin(Lines(item));
    k, part := CutLines(Lines(item), rest);
    assert k < |Lines(item)| ==> Lines(item)[k] in Lines(item);
    assert forall line | line in Lines(item)[..k] :: line in Lines(item);
    SplitPrinted(Lines(item)[..k], part);
  }

  lemma CutCommentYieldsNothing(text: string, rest: string)
    requires OneLine(text) && CutOf(rest, Join(Lines(Comment(text))) + "\n")
    ensures Yield(rest) == []
  {
    var k, part := CutItemLines(Comment(text), rest);
    NothingYetYieldsNothing(Lines(Comment(text)), k, part, rest);
  }

  /** A cut in the head of an item leaves it shorter than the head. */
  lemma CutHeadLength(f: SseFrame, k: nat, part: string)
    requires k < |HeadLines(f)| && ArrivedAs(HeadLines(f), k, part)
    ensures |PrintLines(HeadLines(f)[..k], "\n") + part| <= HeadLength(f)
  {
    var head := HeadLines(f);
    assert head == head[..k] + ([head[k]] + head[k + 1..]);
    LineAt(head[..k], head[k], head[k + 1..]);
    PrintIsJoin(head);
  }

  lemma CutHeadIff(f: SseFrame, k: nat, part: string, rest: string)
    requires Printable(f) && k < |HeadLines(f)| && ArrivedAs(HeadLines(f), k, part)
    requires rest == PrintLines(HeadLines(f)[..k], "\n") + part && Split(rest) == HeadLines(f)[..k] + [part]
    ensures Yield(rest) == [] && HarmlessCut(Event(f), rest)
  {
    NothingYetYieldsNothing(HeadLines(f), k, part, rest);
    CutHeadLength(f, k, part);
  }

  lemma CutDataIff(f: SseFrame, d: nat, part: string, rest: string)
    requires Printable(f) && !IsBlank(rest) && '\n' !in part
    requires d <= |Split(f.data)| && ArrivedAs(DataLines(Split(f.data)), d, part)
    requires rest == PrintLines(HeadLines(f) + DataLines(Split(f.data))[..d], "\n") + part
    requires Split(rest) == HeadLines(f) + DataLines(Split(f.data))[..d] + [part]
    ensures Yield(rest) <= [f] <==> HarmlessCut(Event(f), rest)
  {
    var lines := Split(f.data);
    JoinSplit(f.data);
    assert forall line | line in lines[..d] :: line in lines;
    CutInData(f, d, part, rest);
    RightDataIff(f, DataSoFar(lines, d, part), rest);
    AllDataIff(lines, d, part);
    if d < |lines| {
      CutLengths(f, d, part, rest);
    } else {
      assert DataLines(lines)[..d] == DataLines(lines);
      CutAfterData(f, part, rest);
    }
  }

  lemma CutAfterData(f: SseFrame, part: string, rest: string)
    requires rest == PrintLines(Lines(Event(f)), "\n") + part
    ensures HarmlessCut(Event(f), rest)
  {
    var whole := Join(Lines(Event(f)));
    PrintIsJoin(Lines(Event(f)));
    assert rest[|whole|] == '\n' && (whole + "\r")[|whole|] == '\r';
  }

  lemma NotBlank(item: Item, rest: string)
    requires PrintableItem(item) && CutOf(rest, Join(Lines(item)) + "\n") && rest != ""
    ensures !IsBlank(rest)
  {
    LinesOfItem(item);
    JoinStarts(Lines(item));
    var text := Join(Lines(item)) + "\n";
    assert rest[0] == text[0] by {
      if !(rest <= text) {
        assert (rest[..|rest| - 1] + "\n")[0] == (text + "\n")[0];
      }
    }
    assert rest[0] in rest;
  }

  lemma CutOfTwo(head: seq<string>, lines: seq<string>, k: nat, part: string)
    requires ArrivedAs(head + lines, k, part)
    ensures k < |head| ==> ArrivedAs(head, k, part) && (head + lines)[..k] == head[..k]
    ensures k >= |head| ==> ArrivedAs(lines, k - |head|, part) && (head + lines)[..k] == head + lines[..k - |head|]
  {
    if k < |head| {
      assert (head + lines)[k] == head[k];
    } else if k < |head + lines| {
      assert (head + lines)[k] == lines[k - |head|];
    }
  }

  lemma NoNewlineInPart(item: Item, k: nat, part: string)
    requires PrintableItem(item) && ArrivedAs(Lines(item), k, part)
    ensures '\n' !in part
  {
    LinesOfItem(item);
    assert k < |Lines(item)| ==> Lines(item)[k] in Lines(item);
  }

  lemma CutEventAt(f: SseFrame, rest: string, k: nat, part: string)
    requires Printable(f) && !IsBlank(rest) && '\n' !in part && ArrivedAs(Lines(Event(f)), k, part)
    requires rest == PrintLines(Lines(Event(f))[..k], "\n") + part && Split(rest) == Lines(Event(f))[..k] + [part]
    ensures Yield(rest) <= [f] <==> HarmlessCut(Event(f), rest)
  {
    var h := |HeadLines(f)|;
    CutOfTwo(HeadLines(f), DataLines(Split(f.data)), k, part);
    if k < h {
      CutHeadIff(f, k, part, rest);
    } else {
      CutDataIff(f, k - h, part, rest);
    }
  }

  lemma CutEventIff(f: SseFrame, rest: string)
    requires Printable(f) && CutOf(rest, Join(Lines(Event(f))) + "\n")
    ensures Yield(rest) <= [f] <==> HarmlessCut(Event(f), rest)
  {
    if rest == "" {
      assert FrameOf("") == None;
    } else {
      NotBlank(Event(f), rest);
      var k, part := CutItemLines(Event(f), rest);
      NoNewlineInPart(Event(f), k, part);
      CutEventAt(f, rest, k, part);
    }
  }

  lemma CutItemIff(item: Item, rest: string)
    requires PrintableItem(item) && CutOf(rest, Join(Lines(item)) + "\n")
    ensures Yield(rest) <= EventOf(item) <==> HarmlessCut(item, rest)
  {
    match item {
      case Event(f) => CutEventIff(f, rest);
      case Comment(text) => CutCommentYieldsNothing(text, rest);
    }
  }

  /** Every item arrived whole, or the next one is cut off where that does no harm. */
  predicate EndsHarmlessly(chunks: seq<string>, items: seq<Item>) {
    var (blocks, rest) := Blocks(Normalize(Concat(chunks)));
    |blocks| < |items| ==> HarmlessCut(items[|blocks|], rest)
  }

  lemma YieldIsShort(rest: string, item: Item, later: seq<Item>)
    requires Yield(rest) <= EventOf(item) || item.Event?
    ensures Yield(rest) <= Events([item] + later) <==> Yield(rest) <= EventOf(item)
  {
    CollectCons(EventOf, item, later);
  }

  lemma RestIff(text: string, items: seq<Item>)
    requires PrintableAll(items) && CutInNext(text, items)
    ensures var (blocks, rest) := Blocks(text);
            Yield(rest) <= Events(items[|blocks|..]) <==>
            (|blocks| < |items| ==> HarmlessCut(items[|blocks|], rest))
  {
    var (blocks, rest) := Blocks(text);
    var n := |blocks|;
    if n < |items| {
      assert items[n] in items && items[n..] == [items[n]] + items[n + 1..];
      CutItemIff(items[n], rest);
      YieldIsShort(rest, items[n], items[n + 1..]);
    } else {
      assert FrameOf("") == None;
    }
  }

  /** A stream that ends without an error, wherever that is, yields frames that were printed exactly
      if the end is harmless. */
  lemma CleanEndIff(items: seq<Item>, eol: string, chunks: seq<string>, lost: string)
    requires PrintableAll(items) && IsTerminator(eol)
    requires CleanlyCut(chunks) && Concat(chunks) + lost == PrintAll(items, eol)
    ensures Parse(Received(chunks), false) <= Events(items) <==> EndsHarmlessly(chunks, items)
  {
    ReceivedIsNormalized(chunks);
    CutOffFrames(items, eol, Concat(chunks), lost);
    CutOffInNext(items, eol, Concat(chunks), lost);
    var (blocks, rest) := Blocks(Normalize(Concat(chunks)));
    EventsSplit(items, |blocks|);
    PrefixOfRest(FramesOf(blocks), Yield(rest), Events(items[|blocks|..]));
    RestIff(Normalize(Concat(chunks)), items);
  }

  /** An end after a block is harmless. */
  lemma EndAfterBlockIsHarmless(items: seq<Item>, eol: string, chunks: seq<string>)
    requires PrintableAll(items) && IsTerminator(eol) && Concat(chunks) == PrintAll(items, eol)
    ensures EndsHarmlessly(chunks, items)
  {
    BlocksOfPrint(items, eol);
  }
}
