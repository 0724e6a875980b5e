/** The client of a detached run: reads the stream of a task and reconnects from the last id it has
    seen until a terminal event arrives. */
module ApiClient {
  import opened Wrappers
  import opened Sse
  import Decimal

  /** What the rest of the client sees of a frame. */
  datatype AgentEvent = AgentEvent(kind: string, taskId: Option<string>)

  type Decoder = SseFrame -> Option<AgentEvent>

  /** What became of one request: the text chunks that arrived, and whether reading then failed. A
      request that never got a stream has a status other than 200, or none. */
  datatype Connection =
    | Stream(chunks: seq<string>, failed: bool)
    | Status(code: nat)
    | NetworkError

  datatype Outcome = Finished | Aborted | NotResumable | TooManyReconnects | FirstRequestFailed

  /** The variables of `streamTask`, and every frame handled so far. */
  datatype Client = Client(lastId: int, taskId: Option<string>, terminal: bool, seen: seq<SseFrame>)

  const MAX_RECONNECTS: nat := 6

  function Start(): Client {
    Client(-1, None, false, [])
  }

  predicate IsTerminalKind(kind: string) {
    kind == "task_finished" || kind == "task_error"
  }

  /** First the id, then the event, if the frame decodes to one. */
  function Handle(decode: Decoder, c: Client, f: SseFrame): Client {
    var number := if f.id.Some? then Decimal.Parse(f.id.value) else None;
    var c' := c.(lastId := if number.Some? then number.value else c.lastId, seen := c.seen + [f]);
    match decode(f)
    case None => c'
    case Some(e) =>
      c'.(taskId := if e.taskId.Some? && e.taskId.value != "" then e.taskId else c'.taskId,
          terminal := c'.terminal || IsTerminalKind(e.kind))
  }

  function HandleAll(decode: Decoder, c: Client, frames: seq<SseFrame>): Client
    decreases |frames|
  {
    if frames == [] then c else HandleAll(decode, Handle(decode, c, frames[0]), frames[1..])
  }

  /** The frames a connection yields. */
  function FramesFrom(conn: Connection): seq<SseFrame> {
    match conn
    case Stream(chunks, failed) => Parse(Received(chunks), failed)
    case Status(_) => []
    case NetworkError => []
  }

  /** Reading it raised nothing. */
  predicate ReadsCleanly(conn: Connection) {
    conn.Stream? && !conn.failed
  }

  function Read(decode: Decoder, c: Client, conn: Connection): Client {
    HandleAll(decode, c, FramesFrom(conn))
  }

  /** The reconnect loop. The caller aborts when `conns` is used up. */
  function Reconnect(decode: Decoder, c: Client, attempt: nat, conns: seq<Connection>): (Client, Outcome)
    decreases |conns|
  {
    if c.terminal || c.taskId.None? then (c, Finished)
    else if conns == [] then (c, Aborted)
    else if attempt >= MAX_RECONNECTS then (c, TooManyReconnects)
    else if conns[0] == Status(409) then (c, NotResumable)
    else
      Reconnect(decode, Read(decode, c, conns[0]), if ReadsCleanly(conns[0]) then 0 else attempt + 1, conns[1..])
  }

  /** The whole of `streamTask`: the first request starts the task, the others resume it. */
  function StreamSpec(decode: Decoder, first: Connection, later: seq<Connection>): (Client, Outcome) {
    var c := Read(decode, Start(), first);
    if !ReadsCleanly(first) && c.taskId.None? then (c, FirstRequestFailed)
    else Reconnect(decode, c, 0, later)
  }

  method ReadSse(decode: Decoder, c: Client, conn: Connection) returns (c': Client, raised: bool)
    ensures c' == Read(decode, c, conn) && raised == !ReadsCleanly(conn)
  {
    c' := c;
    if !conn.Stream? {
      return c', true;
    }
    var frames := ParseSseStream(conn.chunks, conn.failed);
    var i := 0;
    while i < |frames|
      invariant 0 <= i <= |frames|
      invariant HandleAll(decode, c', frames[i..]) == HandleAll(decode, c, frames)
    {
      c' := Handle(decode, c', frames[i]);
      i := i + 1;
    }
    raised := conn.failed;
  }

  /** One round of the reconnect loop, over the first of the connections still to come. `stop` is
      set when the loop is left. */
  method ResumeOnce(decode: Decoder, c: Client, attempt: nat, conns: seq<Connection>)
    returns (c': Client, attempt': nat, stop: Option<Outcome>)
    requires !c.terminal && c.taskId.Some? && conns != []
    ensures stop.Some? ==> Reconnect(decode, c, attempt, conns) == (c', stop.value)
    ensures stop.None? ==> Reconnect(decode, c, attempt, conns) == Reconnect(decode, c', attempt', conns[1..])
  {
    if attempt >= MAX_RECONNECTS {
      return c, attempt, Some(TooManyReconnects);
    }
    attempt' := attempt + 1;
    if conns[0] == Status(409) {
      return c, attempt', Some(NotResumable);
    }
    var raised;
    c', raised := ReadSse(decode, c, conns[0]);
    if !raised {
      attempt' := 0;
    }
    stop := None;
  }

  method StreamTask(decode: Decoder, first: Connection, later: seq<Connection>)
    returns (c: Client, outcome: Outcome)
    ensures (c, outcome) == StreamSpec(decode, first, later)
  {
    ghost var result := StreamSpec(decode, first, later);
    var raised;
    c, raised := ReadSse(decode, Start(), first);
    if raised && c.taskId.None? {
      return c, FirstRequestFailed;
    }
    var attempt, i := 0, 0;
    assert later[i..] == later;
    while !c.terminal && c.taskId.Some? && i < |later|
      invariant 0 <= i <= |later|
      invariant Reconnect(decode, c, attempt, later[i..]) == result
    {
      var stop;
      c, attempt, stop := ResumeOnce(decode, c, attempt, later[i..]);
      if stop.Some? {
        return c, stop.value;
      }
      assert later[i..][1..] == later[i + 1..];
      i := i + 1;
    }
    outcome := if c.terminal || c.taskId.None? then Finished else Aborted;
  }
}
