/** The client's parser of server-sent events. */
module Sse {
  import opened Wrappers

  datatype SseFrame = SseFrame(event: Option<string>, data: string, id: Option<string>)

  // ---------- line ends ----------

  /** `replace(/\r\n/g, '\n')` */
  function Normalize(s: string): string {
    if |s| < 2 then s
    else if s[0] == '\r' && s[1] == '\n' then "\n" + Normalize(s[2..])
    else [s[0]] + Normalize(s[1..])
  }

  /** A boundary between two chunks separates a CR from its LF. */
  predicate SplitsCrLf(a: string, b: string) {
    a != "" && b != "" && a[|a| - 1] == '\r' && b[0] == '\n'
  }

  // ---------- blocks ----------

  /** `indexOf('\n\n')` */
  function Boundary(s: string): (i: Option<nat>)
    ensures i.Some? ==> i.value + 2 <= |s|
  {
    if |s| < 2 then None
    else if s[0] == '\n' && s[1] == '\n' then Some(0)
    else
      match Boundary(s[1..])
      case None => None
      case Some(i) => Some(i + 1)
  }

  /** The complete blocks of `s`, and what follows the last of them. */
  function Blocks(s: string): (seq<string>, string)
    decreases |s|
  {
    match Boundary(s)
    case None => ([], s)
    case Some(i) =>
      var (blocks, rest) := Blocks(s[i + 2..]);
      ([s[..i]] + blocks, rest)
  }

  // ---------- one block ----------

  predicate IsBlank(s: string) {
    forall c | c in s :: c in " \t\n\r"
  }

  /** `split('\n')` */
  function Split(s: string): (lines: seq<string>)
    ensures lines != []
  {
    if s == "" then [""]
    else
      var lines := Split(s[1..]);
      if s[0] == '\n' then [""] + lines else [[s[0]] + lines[0]] + lines[1..]
  }

  /** `join('\n')` */
  function Join(lines: seq<string>): string {
    if lines == [] then ""
    else if |lines| == 1 then lines[0]
    else lines[0] + "\n" + Join(lines[1..])
  }

  function IndexOf(s: string, c: char): (i: nat)
    ensures i <= |s|
  {
    if s == "" || s[0] == c then 0 else 1 + IndexOf(s[1..], c)
  }

  datatype Fields = Fields(data: seq<string>, event: Option<string>, id: Option<string>)

  function FeedLine(fields: Fields, line: string): Fields {
    if line == "" || line[0] == ':' then fields
    else
      var colon := IndexOf(line, ':');
      var name := line[..colon];
      var raw := if colon < |line| then line[colon + 1..] else "";
      var value := if raw != "" && raw[0] == ' ' then raw[1..] else raw;
      if name == "data" then fields.(data := fields.data + [value])
      else if name == "event" then fields.(event := Some(value))
      else if name == "id" then fields.(id := Some(value))
      else fields
  }

  function FeedLines(fields: Fields, lines: seq<string>): Fields
    decreases |lines|
  {
    if lines == [] then fields else FeedLines(FeedLine(fields, lines[0]), lines[1..])
  }

  function ToFrame(fields: Fields): Option<SseFrame> {
    if fields.data == [] then None else Some(SseFrame(fields.event, Join(fields.data), fields.id))
  }

  function FrameOf(block: string): Option<SseFrame> {
    if IsBlank(block) then None else ToFrame(FeedLines(Fields([], None, None), Split(block)))
  }

  /** The frames a block yields: none or one. */
  function Yield(block: string): seq<SseFrame> {
    match FrameOf(block)
    case None => []
    case Some(f) => [f]
  }

  /** The results of `f` for every item, in order. */
  function Collect<A, B>(f: A -> seq<B>, items: seq<A>): seq<B> {
    if items == [] then [] else f(items[0]) + Collect(f, items[1..])
  }

  lemma CollectCons<A, B>(f: A -> seq<B>, item: A, items: seq<A>)
    ensures Collect(f, [item] + items) == f(item) + Collect(f, items)
  {
    assert ([item] + items)[1..] == items;
  }

  lemma Associative<T>(x: seq<T>, y: seq<T>, z: seq<T>)
    ensures x + (y + z) == (x + y) + z
  {
  }

  lemma {:induction false} CollectConcat<A, B>(f: A -> seq<B>, a: seq<A>, b: seq<A>)
    ensures Collect(f, a + b) == Collect(f, a) + Collect(f, b)
    decreases |a|
  {
    if a == [] {
      assert a + b == b;
    } else {
      var tail := a[1..];
      CollectConcat(f, tail, b);
      assert a + b == [a[0]] + (tail + b);
      CollectCons(f, a[0], tail + b);
      Associative(f(a[0]), Collect(f, tail), Collect(f, b));
    }
  }

  function FramesOf(blocks: seq<string>): seq<SseFrame> {
    Collect(Yield, blocks)
  }

  // ---------- the parser ----------

  method ParseSseBlock(block: string) returns (frame: Option<SseFrame>)
    ensures frame == FrameOf(block)
  {
    if IsBlank(block) {
      return None;
    }
    var lines := Split(block);
    var fields := Fields([], None, None);
    var i := 0;
    while i < |lines|
      invariant 0 <= i <= |lines|
      invariant FeedLines(fields, lines[i..]) == FeedLines(Fields([], None, None), lines)
    {
      fields := FeedLine(fields, lines[i]);
      i := i + 1;
    }
    frame := ToFrame(fields);
  }

  /** The text the parser has appended to its buffer after reading these chunks. */
  function Received(chunks: seq<string>): string {
    if chunks == [] then "" else Received(chunks[..|chunks| - 1]) + Normalize(chunks[|chunks| - 1])
  }

  /** The frames yielded for a stream. When reading fails the partial last block is lost; when the
      stream ends it is parsed like any other. */
  function Parse(text: string, failed: bool): seq<SseFrame> {
    var (blocks, rest) := Blocks(text);
    FramesOf(blocks) + if failed then [] else Yield(rest)
  }

  /** Takes the first block off the buffer and parses it. */
  method TakeBlock(buffer: string, boundary: nat) returns (frames: seq<SseFrame>, rest: string)
    requires Boundary(buffer) == Some(boundary)
    ensures rest == buffer[boundary + 2..] && frames == Yield(buffer[..boundary])
  {
    rest := buffer[boundary + 2..];
    var frame := ParseSseBlock(buffer[..boundary]);
    frames := if frame.Some? then [frame.value] else [];
  }

  /** The frames of the first block come before those of the rest. */
  lemma FramesOfFirst(text: string)
    requires Boundary(text).Some?
    ensures var i := Boundary(text).value;
            && FramesOf(Blocks(text).0) == Yield(text[..i]) + FramesOf(Blocks(text[i + 2..]).0)
            && Blocks(text).1 == Blocks(text[i + 2..]).1
  {
    var i := Boundary(text).value;
    CollectCons(Yield, text[..i], Blocks(text[i + 2..]).0);
  }

  method DrainBlocks(text: string) returns (frames: seq<SseFrame>, rest: string)
    ensures frames == FramesOf(Blocks(text).0) && rest == Blocks(text).1
  {
    frames := [];
    rest := text;
    var boundary := Boundary(rest);
    while boundary.Some?
      invariant boundary == Boundary(rest)
      invariant FramesOf(Blocks(text).0) == frames + FramesOf(Blocks(rest).0)
      invariant Blocks(text).1 == Blocks(rest).1
      decreases |rest|
    {
      FramesOfFirst(rest);
      var more;
      more, rest := TakeBlock(rest, boundary.value);
      Associative(frames, more, FramesOf(Blocks(rest).0));
      frames := frames + more;
      boundary := Boundary(rest);
    }
  }

  /** Reads chunk by chunk, yielding the frames of every block as soon as it is complete. */
  method ParseSseStream(chunks: seq<string>, failed: bool) returns (frames: seq<SseFrame>)
    ensures frames == Parse(Received(chunks), failed)
  {
    frames := [];
    var buffer := "";
    var i := 0;
    while i < |chunks|
      invariant 0 <= i <= |chunks|
      invariant frames == FramesOf(Blocks(Received(chunks[..i])).0)
      invariant buffer == Blocks(Received(chunks[..i])).1
    {
      assert chunks[..i + 1][..i] == chunks[..i];
      var added := Normalize(chunks[i]);
      BlocksConcat(Received(chunks[..i]), added);
      CollectConcat(Yield, Blocks(Received(chunks[..i])).0, Blocks(buffer + added).0);
      var more;
      more, buffer := DrainBlocks(buffer + added);
      frames := frames + more;
      i := i + 1;
    }
    assert chunks[..i] == chunks;
    if !failed {
      var last := ParseSseBlock(buffer);
      if last.Some? {
        frames := frames + [last.value];
      }
    }
  }

  // ---------- blocks do not depend on chunks ----------

  lemma {:induction false} BoundaryConcat(a: string, b: string)
    requires Boundary(a).Some?
    ensures Boundary(a + b) == Boundary(a)
  {
    if !(a[0] == '\n' && a[1] == '\n') {
      BoundaryConcat(a[1..], b);
      assert (a + b)[1..] == a[1..] + b;
    }
  }

  /** The boundary is the first blank line. */
  lemma {:induction false} BoundaryIsFirst(s: string)
    ensures Boundary(s).Some? ==> var i := Boundary(s).value; s[i] == '\n' && s[i + 1] == '\n'
    ensures forall k | 0 <= k < |s| - 1 && (Boundary(s).Some? ==> k < Boundary(s).value) ::
              s[k] != '\n' || s[k + 1] != '\n'
  {
    if |s| >= 2 && !(s[0] == '\n' && s[1] == '\n') {
      BoundaryIsFirst(s[1..]);
      assert forall k | 0 < k < |s| :: s[k] == s[1..][k - 1];
    }
  }

  lemma FirstBlock(s: string, i: nat)
    requires Boundary(s) == Some(i)
    ensures Blocks(s) == ([s[..i]] + Blocks(s[i + 2..]).0, Blocks(s[i + 2..]).1)
  {
  }

  /** Reading `b` after `a` finds the blocks of `a`, then those of what was left over with `b`. */
  lemma {:induction false} BlocksConcat(a: string, b: string)
    ensures var (blocks, rest) := Blocks(a);
            Blocks(a + b) == (blocks + Blocks(rest + b).0, Blocks(rest + b).1)
    decreases |a|
  {
    if Boundary(a).Some? {
      var i := Boundary(a).value;
      var tail := a[i + 2..];
      BoundaryConcat(a, b);
      assert (a + b)[..i] == a[..i] && (a + b)[i + 2..] == tail + b;
      FirstBlock(a, i);
      FirstBlock(a + b, i);
      BlocksConcat(tail, b);
      var (blocks, rest) := Blocks(tail);
      Associative([a[..i]], blocks, Blocks(rest + b).0);
    } else {
      assert [] + Blocks(a + b).0 == Blocks(a + b).0;
    }
  }
}
