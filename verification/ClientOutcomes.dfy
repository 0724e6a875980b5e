/** How a streamed task ends for its client, told from the connections alone. */
module ClientOutcomes {
  import opened Wrappers
  import opened Sse
  import opened ApiClient
  import Decimal

  // ---------- what the client knows of the frames it has handled ----------

  /** The event of this frame names a task. */
  predicate NamesTask(decode: Decoder, f: SseFrame) {
    match decode(f)
    case None => false
    case Some(e) => e.taskId.Some? && e.taskId.value != ""
  }

  /** The task named last. */
  function TaskNamed(decode: Decoder, frames: seq<SseFrame>): Option<string> {
    if frames == [] then None
    else
      var before, f := frames[..|frames| - 1], frames[|frames| - 1];
      if NamesTask(decode, f) then decode(f).value.taskId else TaskNamed(decode, before)
  }

  predicate EndsTask(decode: Decoder, f: SseFrame) {
    decode(f).Some? && (decode(f).value.kind == "task_finished" || decode(f).value.kind == "task_error")
  }

  predicate HasEnded(decode: Decoder, frames: seq<SseFrame>) {
    exists f | f in frames :: EndsTask(decode, f)
  }

  /** The last number among the ids, -1 before there is one. */
  function LastNumber(frames: seq<SseFrame>): int {
    if frames == [] then -1
    else
      var before, f := frames[..|frames| - 1], frames[|frames| - 1];
      if f.id.Some? && Decimal.Parse(f.id.value).Some? then Decimal.Parse(f.id.value).value else LastNumber(before)
  }

  /** The client's variables are what these frames, in this order, leave. */
  predicate Knows(decode: Decoder, frames: seq<SseFrame>, c: Client) {
    && c.seen == frames
    && c.taskId == TaskNamed(decode, frames)
    && (c.terminal <==> HasEnded(decode, frames))
    && c.lastId == LastNumber(frames)
  }

  lemma KnownSnoc(decode: Decoder, frames: seq<SseFrame>, f: SseFrame)
    ensures TaskNamed(decode, frames + [f]) ==
            if NamesTask(decode, f) then decode(f).value.taskId else TaskNamed(decode, frames)
    ensures LastNumber(frames + [f]) ==
            if f.id.Some? && Decimal.Parse(f.id.value).Some? then Decimal.Parse(f.id.value).value
            else LastNumber(frames)
  {
    assert (frames + [f])[..|frames|] == frames;
  }

  lemma EndedSnoc(decode: Decoder, frames: seq<SseFrame>, f: SseFrame)
    ensures HasEnded(decode, frames + [f]) <==> HasEnded(decode, frames) || EndsTask(decode, f)
  {
    assert f in frames + [f] && forall g | g in frames :: g in frames + [f];
  }

  lemma HandleKnows(decode: Decoder, frames: seq<SseFrame>, c: Client, f: SseFrame)
    requires Knows(decode, frames, c)
    ensures Knows(decode, frames + [f], Handle(decode, c, f))
  {
    KnownSnoc(decode, frames, f);
    EndedSnoc(decode, frames, f);
  }

  lemma {:induction false} HandleAllKnows(decode: Decoder, frames: seq<SseFrame>, c: Client, more: seq<SseFrame>)
    requires Knows(decode, frames, c)
    ensures Knows(decode, frames + more, HandleAll(decode, c, more))
    decreases |more|
  {
    if more == [] {
      assert frames + more == frames;
    } else {
      HandleKnows(decode, frames, c, more[0]);
      HandleAllKnows(decode, frames + [more[0]], Handle(decode, c, more[0]), more[1..]);
      assert frames + [more[0]] + more[1..] == frames + more;
    }
  }

  // ---------- when the client stops ----------

  /** The frames of the first connection and of the first `n` later ones. */
  function Arrived(first: Connection, later: seq<Connection>, n: nat): seq<SseFrame>
    requires n <= |later|
  {
    if n == 0 then FramesFrom(first) else Arrived(first, later, n - 1) + FramesFrom(later[n - 1])
  }

  /** The request raised: it got no stream, or reading it failed. */
  predicate Raises(conn: Connection) {
    !conn.Stream? || conn.failed
  }

  predicate SixInARowRaised(later: seq<Connection>, n: nat)
    requires n <= |later|
  {
    n >= 6 && forall i | n - 6 <= i < n :: Raises(later[i])
  }

  /** Why the client stops after `n` later connections, if it does. */
  function StopsAfter(decode: Decoder, first: Connection, later: seq<Connection>, n: nat): Option<Outcome>
    requires n <= |later|
  {
    var frames := Arrived(first, later, n);
    if HasEnded(decode, frames) || TaskNamed(decode, frames).None? then Some(Finished)
    else if n == |later| then Some(Aborted)
    else if SixInARowRaised(later, n) then Some(TooManyReconnects)
    else if later[n] == Status(409) then Some(NotResumable)
    else None
  }

  /** `attempt` connections in a row have raised, and no more. */
  predicate FailedInARow(later: seq<Connection>, n: nat, attempt: nat)
    requires n <= |later|
  {
    && attempt <= n
    && (forall i | n - attempt <= i < n :: Raises(later[i]))
    && (attempt < n ==> !Raises(later[n - attempt - 1]))
  }

  lemma SixIff(later: seq<Connection>, n: nat, attempt: nat)
    requires n <= |later| && FailedInARow(later, n, attempt)
    ensures attempt >= MAX_RECONNECTS <==> SixInARowRaised(later, n)
  {
  }

  /** One round of the reconnect loop stops for these reasons and no others. */
  lemma RoundStops(
    decode: Decoder, first: Connection, later: seq<Connection>, n: nat, attempt: nat, c: Client)
    requires n <= |later| && FailedInARow(later, n, attempt)
    requires Knows(decode, Arrived(first, later, n), c)
    ensures var stop := StopsAfter(decode, first, later, n);
            if stop.Some? then Reconnect(decode, c, attempt, later[n..]) == (c, stop.value)
            else && n < |later|
                 && Reconnect(decode, c, attempt, later[n..]) ==
                    Reconnect(decode, Read(decode, c, later[n]), if Raises(later[n]) then attempt + 1 else 0,
                              later[n + 1..])
  {
    SixIff(later, n, attempt);
    if n < |later| {
      assert later[n..][0] == later[n] && later[n..][1..] == later[n + 1..];
    }
  }

  lemma OneMoreFails(later: seq<Connection>, n: nat, attempt: nat)
    requires n < |later| && FailedInARow(later, n, attempt)
    ensures FailedInARow(later, n + 1, if Raises(later[n]) then attempt + 1 else 0)
  {
  }

  /** From `n` connections on, the first reason to stop comes after `end` of them, with this result. */
  ghost predicate StopsAt(
    decode: Decoder, first: Connection, later: seq<Connection>, n: nat, end: nat, c: Client, outcome: Outcome)
  {
    && n <= end <= |later|
    && Knows(decode, Arrived(first, later, end), c)
    && StopsAfter(decode, first, later, end) == Some(outcome)
    && forall m | n <= m < end :: StopsAfter(decode, first, later, m).None?
  }

  lemma StopsLater(
    decode: Decoder, first: Connection, later: seq<Connection>, n: nat, end: nat, c: Client, outcome: Outcome)
    requires n < |later|
    ensures StopsAfter(decode, first, later, n).None? && StopsAt(decode, first, later, n + 1, end, c, outcome) ==>
              StopsAt(decode, first, later, n, end, c, outcome)
  {
  }

  lemma RoundKnows(decode: Decoder, first: Connection, later: seq<Connection>, n: nat, c: Client)
    requires n < |later| && Knows(decode, Arrived(first, later, n), c)
    ensures Knows(decode, Arrived(first, later, n + 1), Read(decode, c, later[n]))
  {
    HandleAllKnows(decode, Arrived(first, later, n), c, FramesFrom(later[n]));
  }

  lemma {:induction false} ReconnectStops(
    decode: Decoder, first: Connection, later: seq<Connection>, n: nat, attempt: nat, c: Client)
    returns (end: nat)
    requires n <= |later| && FailedInARow(later, n, attempt)
    requires Knows(decode, Arrived(first, later, n), c)
    ensures var (c', outcome) := Reconnect(decode, c, attempt, later[n..]);
            StopsAt(decode, first, later, n, end, c', outcome)
    decreases |later| - n
  {
    end := n;
    RoundStops(decode, first, later, n, attempt, c);
    if StopsAfter(decode, first, later, n).None? {
      RoundKnows(decode, first, later, n, c);
      OneMoreFails(later, n, attempt);
      var attempt', c' := if Raises(later[n]) then attempt + 1 else 0, Read(decode, c, later[n]);
      end := ReconnectStops(decode, first, later, n + 1, attempt', c');
      var (last, outcome) := Reconnect(decode, c', attempt', later[n + 1..]);
      StopsLater(decode, first, later, n, end, last, outcome);
    }
  }

  /** The outcome and everything the client knows. A first request that raised before any event named a
      task fails at once. Otherwise the client reads one connection after the other, up to the first at
      which there is a reason to stop: a terminal event has come, or there is no task to ask for; the
      caller has aborted; six connections in a row have raised; or the run cannot be resumed. */
  lemma StreamOutcome(decode: Decoder, first: Connection, later: seq<Connection>) returns (n: nat)
    ensures var (c, outcome) := StreamSpec(decode, first, later);
            if Raises(first) && TaskNamed(decode, FramesFrom(first)).None?
            then n == 0 && Knows(decode, FramesFrom(first), c) && outcome == FirstRequestFailed
            else StopsAt(decode, first, later, 0, n, c, outcome)
  {
    var c := Read(decode, Start(), first);
    HandleAllKnows(decode, [], Start(), FramesFrom(first));
    assert [] + FramesFrom(first) == FramesFrom(first);
    n := 0;
    if !(Raises(first) && TaskNamed(decode, FramesFrom(first)).None?) {
      assert later[0..] == later;
      n := ReconnectStops(decode, first, later, 0, 0, c);
    }
  }

  /** A client that comes to know its task before its first connection breaks asks for the rest. */
  lemma BrokenStreamIsResumed(decode: Decoder, first: Connection, conn: Connection)
    ensures var frames := FramesFrom(first);
            TaskNamed(decode, frames).Some? && !HasEnded(decode, frames) && conn != Status(409) ==>
              StreamSpec(decode, first, [conn]).0.seen == frames + FramesFrom(conn)
  {
    var n := StreamOutcome(decode, first, [conn]);
    if StopsAfter(decode, first, [conn], 0).None? {
      assert Arrived(first, [conn], 1) == Arrived(first, [conn], 0) + FramesFrom(conn);
    }
  }
}
