/** Parsing server-sent events does not depend on how the network cuts the text, and printed frames
    parse back to themselves. */
module SseProofs {
  import opened Wrappers
  import opened Sse

  // ---------- chunks ----------

  function Concat(chunks: seq<string>): string {
    if chunks == [] then "" else Concat(chunks[..|chunks| - 1]) + chunks[|chunks| - 1]
  }

  /** How many characters normalizing removes. */
  function CrLfs(s: string): nat {
    if |s| < 2 then 0
    else if s[0] == '\r' && s[1] == '\n' then 1 + CrLfs(s[2..])
    else CrLfs(s[1..])
  }

  lemma {:induction false} NormalizeLength(s: string)
    ensures |Normalize(s)| + CrLfs(s) == |s|
  {
    if |s| >= 2 {
      if s[0] == '\r' && s[1] == '\n' { NormalizeLength(s[2..]); } else { NormalizeLength(s[1..]); }
    }
  }

  predicate StartsWithCrLf(s: string) {
    |s| >= 2 && s[0] == '\r' && s[1] == '\n'
  }

  lemma NormalizePair(rest: string)
    ensures Normalize("\r\n" + rest) == "\n" + Normalize(rest)
  {
    assert ("\r\n" + rest)[2..] == rest;
  }

  lemma NormalizeCons(c: char, rest: string)
    requires !StartsWithCrLf([c] + rest)
    ensures Normalize([c] + rest) == [c] + Normalize(rest)
  {
    assert ([c] + rest)[1..] == rest;
  }

  lemma {:induction false} NormalizeConcat(a: string, b: string)
    requires !SplitsCrLf(a, b)
    ensures Normalize(a + b) == Normalize(a) + Normalize(b)
    decreases |a|
  {
    if a == "" {
      assert a + b == b;
    } else if StartsWithCrLf(a) {
      var rest := a[2..];
      assert a == "\r\n" + rest;
      NormalizeConcat(rest, b);
      ConcatAfterPair(rest, b);
    } else {
      var rest := a[1..];
      assert a == [a[0]] + rest;
      NormalizeConcat(rest, b);
      ConcatAfterCons(a[0], rest, b);
    }
  }

  lemma ConcatAfterPair(rest: string, b: string)
    requires Normalize(rest + b) == Normalize(rest) + Normalize(b)
    ensures Normalize("\r\n" + rest + b) == Normalize("\r\n" + rest) + Normalize(b)
  {
    NormalizePair(rest);
    NormalizePair(rest + b);
    Associative("\r\n", rest, b);
    Associative("\n", Normalize(rest), Normalize(b));
  }

  lemma ConcatAfterCons(c: char, rest: string, b: string)
    requires !StartsWithCrLf([c] + rest) && !StartsWithCrLf([c] + rest + b)
    requires Normalize(rest + b) == Normalize(rest) + Normalize(b)
    ensures Normalize([c] + rest + b) == Normalize([c] + rest) + Normalize(b)
  {
    Associative([c], rest, b);
    NormalizeCons(c, rest);
    NormalizeCons(c, rest + b);
    Associative([c], Normalize(rest), Normalize(b));
  }

  lemma {:induction false} CrLfsSplit(a: string, b: string)
    requires SplitsCrLf(a, b)
    ensures CrLfs(a + b) == CrLfs(a) + CrLfs(b) + 1
    decreases |a|
  {
    if |a| == 1 {
      assert (a + b)[2..] == b[1..];
    } else if a[0] == '\r' && a[1] == '\n' {
      assert (a + b)[2..] == a[2..] + b;
      CrLfsSplit(a[2..], b);
    } else {
      assert (a + b)[1..] == a[1..] + b;
      CrLfsSplit(a[1..], b);
    }
  }

  /** Normalizing two parts is normalizing the whole exactly when their boundary does not separate a
      CR from its LF. */
  lemma NormalizeConcatIff(a: string, b: string)
    ensures Normalize(a + b) == Normalize(a) + Normalize(b) <==> !SplitsCrLf(a, b)
  {
    NormalizedLength(a, b);
    if !SplitsCrLf(a, b) {
      NormalizeConcat(a, b);
    }
  }

  /** No boundary between consecutive chunks separates a CR from its LF. */
  predicate CleanlyCut(chunks: seq<string>) {
    forall i | 0 < i < |chunks| :: !SplitsCrLf(Concat(chunks[..i]), chunks[i])
  }

  lemma {:induction false} ReceivedIsNormalized(chunks: seq<string>)
    requires CleanlyCut(chunks)
    ensures Received(chunks) == Normalize(Concat(chunks))
  {
    if chunks != [] {
      var before := chunks[..|chunks| - 1];
      assert forall i | 0 < i < |before| :: before[..i] == chunks[..i];
      ReceivedIsNormalized(before);
      if before == [] {
        assert Concat(chunks) == chunks[0];
      } else {
        NormalizeConcat(Concat(before), chunks[|chunks| - 1]);
      }
    }
  }

  /** How many boundaries separate a CR from its LF. */
  function SplitBoundaries(chunks: seq<string>): nat {
    if |chunks| < 2 then 0
    else
      var before := chunks[..|chunks| - 1];
      SplitBoundaries(before) + if SplitsCrLf(Concat(before), chunks[|chunks| - 1]) then 1 else 0
  }

  lemma CleanlyCutSnoc(before: seq<string>, last: string)
    ensures CleanlyCut(before + [last]) <==>
            CleanlyCut(before) && (before != [] ==> !SplitsCrLf(Concat(before), last))
  {
    var all := before + [last];
    assert all[..|before|] == before && all[|before|] == last;
    assert forall i | 0 < i < |before| :: all[..i] == before[..i] && all[i] == before[i];
  }

  lemma {:induction false} SplitBoundariesIff(chunks: seq<string>)
    ensures SplitBoundaries(chunks) == 0 <==> CleanlyCut(chunks)
  {
    if |chunks| >= 2 {
      var before, last := chunks[..|chunks| - 1], chunks[|chunks| - 1];
      assert chunks == before + [last];
      SplitBoundariesIff(before);
      CleanlyCutSnoc(before, last);
    }
  }

  /** Each such boundary leaves one CR in the buffer. */
  lemma {:induction false} ReceivedLength(chunks: seq<string>)
    ensures |Received(chunks)| == |Normalize(Concat(chunks))| + SplitBoundaries(chunks)
  {
    if chunks != [] {
      var before, last := chunks[..|chunks| - 1], chunks[|chunks| - 1];
      ReceivedLength(before);
      NormalizedLength(Concat(before), last);
      assert before == [] ==> Concat(before) == "";
    }
  }

  lemma NormalizedLength(a: string, b: string)
    ensures |Normalize(a + b)| + (if SplitsCrLf(a, b) then 1 else 0) == |Normalize(a)| + |Normalize(b)|
  {
    if SplitsCrLf(a, b) {
      CrLfsSplit(a, b);
      NormalizeLength(a);
      NormalizeLength(b);
      NormalizeLength(a + b);
    } else {
      NormalizeConcat(a, b);
    }
  }

  /** The parser normalizes a stream of chunks as it would the whole text exactly when none of the
      boundaries between them separates a CR from its LF. */
  lemma ReceivedIsNormalizedIff(chunks: seq<string>)
    ensures Received(chunks) == Normalize(Concat(chunks)) <==> CleanlyCut(chunks)
  {
    SplitBoundariesIff(chunks);
    ReceivedLength(chunks);
    if CleanlyCut(chunks) {
      ReceivedIsNormalized(chunks);
    }
  }

  /** Two chunks that leave a CR in the buffer. */
  lemma SplitCrLfStays()
    ensures Received(["\r", "\n"]) == "\r\n" && Normalize(Concat(["\r", "\n"])) == "\n"
  {
    var chunks := ["\r", "\n"];
    assert chunks[..1] == ["\r"] && ["\r"][..0] == [];
    assert Concat(chunks) == "\r\n" && "\r\n"[2..] == "";
  }

  /** However the text is cut, the parser yields what it yields for the whole text at once. */
  lemma ChunkIndependence(chunks: seq<string>, whole: seq<string>, failed: bool)
    requires CleanlyCut(chunks) && CleanlyCut(whole) && Concat(chunks) == Concat(whole)
    ensures Parse(Received(chunks), failed) == Parse(Received(whole), failed)
    ensures Parse(Received(chunks), failed) == Parse(Normalize(Concat(chunks)), failed)
  {
    ReceivedIsNormalized(chunks);
    ReceivedIsNormalized(whole);
  }

  // ---------- lines and blocks ----------

  predicate OneLine(s: string) {
    '\n' !in s && '\r' !in s
  }

  lemma {:induction false} SplitLine(line: string)
    requires '\n' !in line
    ensures Split(line) == [line]
  {
    if line != "" {
      SplitLine(line[1..]);
      assert [line[0]] + line[1..] == line;
    }
  }

  lemma {:induction false} SplitFirst(line: string, rest: string)
    requires '\n' !in line
    ensures Split(line + "\n" + rest) == [line] + Split(rest)
  {
    var s := line + "\n" + rest;
    if line == "" {
      assert s[1..] == rest;
    } else {
      SplitFirst(line[1..], rest);
      assert s[1..] == line[1..] + "\n" + rest;
      assert [line[0]] + line[1..] == line;
    }
  }

  lemma {:induction false} SplitJoin(lines: seq<string>)
    requires lines != [] && forall line | line in lines :: '\n' !in line
    ensures Split(Join(lines)) == lines
  {
    if |lines| == 1 {
      SplitLine(lines[0]);
    } else {
      SplitJoin(lines[1..]);
      SplitFirst(lines[0], Join(lines[1..]));
    }
  }

  predicate NoNewlines(lines: seq<string>) {
    forall line | line in lines :: '\n' !in line
  }

  lemma JoinAfterNewline(lines: seq<string>)
    requires lines != [] && NoNewlines(lines)
    ensures Join([""] + lines) == "\n" + Join(lines) && NoNewlines([""] + lines)
  {
    assert ([""] + lines)[1..] == lines;
  }

  lemma JoinAfterChar(c: char, lines: seq<string>)
    requires c != '\n' && lines != [] && NoNewlines(lines)
    ensures Join([[c] + lines[0]] + lines[1..]) == [c] + Join(lines) && NoNewlines([[c] + lines[0]] + lines[1..])
  {
    var all := [[c] + lines[0]] + lines[1..];
    assert all[1..] == lines[1..] && lines[0] in lines;
    assert forall line | line in lines[1..] :: line in lines;
    if |lines| > 1 {
      Associative([c], lines[0] + "\n", Join(lines[1..]));
      Associative([c], lines[0], "\n");
    }
  }

  lemma {:induction false} JoinSplit(s: string)
    ensures Join(Split(s)) == s && NoNewlines(Split(s))
  {
    if s != "" {
      var rest := s[1..];
      JoinSplit(rest);
      if s[0] == '\n' {
        JoinAfterNewline(Split(rest));
      } else {
        JoinAfterChar(s[0], Split(rest));
      }
    }
  }

  /** Lines of a block: none is empty, so no blank line ends the block early. */
  predicate BlockLines(lines: seq<string>) {
    lines != [] && forall line | line in lines :: line != "" && OneLine(line)
  }

  lemma {:induction false} BoundaryAfterLine(line: string, rest: string)
    requires line != "" && '\n' !in line
    requires rest != "" && rest[0] != '\n'
    ensures Boundary(line + "\n" + rest) ==
            match Boundary(rest) case None => None case Some(i) => Some(|line| + 1 + i)
  {
    var s := line + "\n" + rest;
    assert s[0] == line[0];
    if |line| == 1 {
      assert s[1..] == "\n" + rest;
      assert s[1..][1..] == rest;
    } else {
      assert s[1..] == line[1..] + "\n" + rest;
      BoundaryAfterLine(line[1..], rest);
    }
  }

  lemma {:induction false} BoundaryAfterLast(line: string, rest: string)
    requires line != "" && '\n' !in line
    ensures Boundary(line + "\n\n" + rest) == Some(|line|)
  {
    var s := line + "\n\n" + rest;
    if |line| == 1 {
      assert s[1..] == "\n\n" + rest;
    } else {
      assert s[1..] == line[1..] + "\n\n" + rest;
      BoundaryAfterLast(line[1..], rest);
    }
  }

  lemma {:induction false} JoinStarts(lines: seq<string>)
    requires BlockLines(lines)
    ensures lines[0] != "" && Join(lines) != "" && Join(lines)[0] == lines[0][0] != '\n'
  {
    assert lines[0] in lines;
  }

  lemma {:induction false} BoundaryOfBlock(lines: seq<string>, rest: string)
    requires BlockLines(lines)
    ensures Boundary(Join(lines) + "\n\n" + rest) == Some(|Join(lines)|)
  {
    assert lines[0] in lines;
    if |lines| == 1 {
      BoundaryAfterLast(lines[0], rest);
    } else {
      var tail := lines[1..];
      var body := Join(tail);
      assert BlockLines(tail) by { assert forall line | line in tail :: line in lines; }
      BoundaryOfBlock(tail, rest);
      JoinStarts(tail);
      BoundaryAfterLine(lines[0], body + "\n\n" + rest);
      RegroupLine(lines[0], body, rest);
      assert Join(lines) == lines[0] + "\n" + body;
    }
  }

  lemma RegroupLine(line: string, body: string, rest: string)
    ensures (line + "\n" + body) + "\n\n" + rest == line + "\n" + (body + "\n\n" + rest)
  {
  }
}
