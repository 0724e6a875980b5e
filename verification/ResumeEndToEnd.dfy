/** The run, its buffer, the wire and the client together: over any number of dropped connections
    the client handles a contiguous prefix of the run's history, each frame once. */
module ResumeEndToEnd {
  import opened Wrappers
  import Decimal
  import opened RunBuffer
  import RunProgress
  import RunProtocol
  import opened Sse
  import opened SseProofs
  import opened SseEnds
  import opened SsePrinter
  import opened ApiClient
  import ClientOutcomes

  function ToSse(s: Stamped): SseFrame {
    SseFrame(Some(s.frame.event), s.frame.data, Some(s.id))
  }

  function ToSseAll(frames: seq<Stamped>): seq<SseFrame> {
    seq(|frames|, i requires 0 <= i < |frames| => ToSse(frames[i]))
  }

  /** The frames at positions `from`, ..., `to - 1`, as the client receives them. */
  function SseRange(history: seq<Frame>, from: nat, to: nat): seq<SseFrame>
    requires from <= to <= |history|
  {
    ToSseAll(StampRange(history, from, to))
  }

  predicate DecodesToTerminal(decode: Decoder, f: SseFrame) {
    decode(f).Some? && IsTerminalKind(decode(f).value.kind)
  }

  /** The terminal frames of the history decode to terminal events and no others do. */
  predicate Faithful(decode: Decoder, history: seq<Frame>) {
    forall i | 0 <= i < |history| ::
      DecodesToTerminal(decode, ToSse(Stamp(i, history[i]))) <==> RunProtocol.IsTerminal(history[i])
  }

  // ---------- one subscriber on one connection ----------

  /** How the frames of a connection were printed: the items, their line ends, and what was lost. */
  datatype Wire = Wire(items: seq<Item>, eol: string, lost: string)

  /** The connection carries the first frames `sent` of a subscriber, comments in between. It breaks
      anywhere with a read error, or ends where an end does no harm. */
  predicate Carries(conn: Connection, sent: seq<Stamped>, w: Wire) {
    conn.Stream? ==>
      && PrintableAll(w.items) && IsTerminator(w.eol) && CleanlyCut(conn.chunks)
      && Events(w.items) <= ToSseAll(sent)
      && Concat(conn.chunks) + w.lost == PrintAll(w.items, w.eol)
      && (!conn.failed ==> EndsHarmlessly(conn.chunks, w.items))
  }

  lemma CarriedFrames(conn: Connection, sent: seq<Stamped>, w: Wire)
    requires Carries(conn, sent, w)
    ensures FramesFrom(conn) <= ToSseAll(sent)
  {
    if conn.Stream? {
      if conn.failed {
        var n := BrokenStream(w.items, w.eol, conn.chunks, w.lost);
        EventsSplit(w.items, n);
      } else {
        CleanEndIff(w.items, w.eol, conn.chunks, w.lost);
      }
    }
  }

  /** `sent` is the history from position `from` on, without a gap. */
  predicate Continues(history: seq<Frame>, from: nat, sent: seq<Stamped>) {
    sent != [] ==> from + |sent| <= |history| && sent == StampRange(history, from, from + |sent|)
  }

  /** A subscriber that found nothing trimmed has delivered the history without a gap from the
      position after the last one its client had seen. */
  lemma NothingSkippedIsContiguous(p: RunProtocol.Proto, maxBuffer: nat, k: nat)
    requires RunProtocol.Reachable(p, maxBuffer) && k in p.subs
    requires var s := p.subs[k]; s.skipped == {} && s.lastEventId >= -1
    ensures Continues(p.history, p.subs[k].lastEventId + 1, p.subs[k].delivered)
  {
    RunProtocol.ReachableInv(p, maxBuffer);
    assert RunProtocol.SubInv(p.subs[k], p);
    SubIsContiguous(p.subs[k], p);
  }

  lemma SubIsContiguous(s: RunProtocol.Sub, p: RunProtocol.Proto)
    requires RunProtocol.SubInv(s, p) && s.skipped == {} && s.lastEventId >= -1
    ensures Continues(p.history, s.lastEventId + 1, s.delivered)
  {
    forall i | 0 <= i < |s.delivered| ensures s.taken[i] == s.lastEventId + 1 + i {
      TakenIsContiguous(s, p, i);
    }
    if s.delivered != [] {
      assert s.taken[|s.delivered| - 1] < |p.history|;
    }
  }

  lemma {:induction false} TakenIsContiguous(s: RunProtocol.Sub, p: RunProtocol.Proto, i: nat)
    requires RunProtocol.SubInv(s, p) && s.skipped == {} && s.lastEventId >= -1 && i < |s.taken|
    ensures s.taken[i] == s.lastEventId + 1 + i
  {
    var expected := s.lastEventId + 1 + i;
    if i > 0 {
      TakenIsContiguous(s, p, i - 1);
    }
    assert s.taken[i] in s.taken;
    assert expected in s.taken;
    var j :| 0 <= j < |s.taken| && s.taken[j] == expected;
  }

  // ---------- the client ----------

  predicate HasTerminal(history: seq<Frame>, n: nat)
    requires n <= |history|
  {
    exists i | 0 <= i < n :: RunProtocol.IsTerminal(history[i])
  }

  /** The client has handled exactly the first frames of the history. */
  predicate InStep(history: seq<Frame>, c: Client) {
    && |c.seen| <= |history|
    && c.seen == SseRange(history, 0, |c.seen|)
    && c.lastId == |c.seen| - 1
    && (c.terminal <==> HasTerminal(history, |c.seen|))
  }

  lemma HandleKeepsStep(decode: Decoder, history: seq<Frame>, c: Client)
    requires Faithful(decode, history) && InStep(history, c) && |c.seen| < |history|
    ensures var n := |c.seen|;
            var c' := Handle(decode, c, ToSse(Stamp(n, history[n])));
            InStep(history, c') && |c'.seen| == n + 1
  {
    var n := |c.seen|;
    var f := ToSse(Stamp(n, history[n]));
    var c' := Handle(decode, c, f);
    Decimal.ParseStr(n);
    assert c'.seen == c.seen + [f];
    assert SseRange(history, 0, n + 1) == SseRange(history, 0, n) + [f];
    assert HasTerminal(history, n + 1) <==> HasTerminal(history, n) || RunProtocol.IsTerminal(history[n]);
  }

  lemma {:induction false} HandleAllKeepsStep(decode: Decoder, history: seq<Frame>, c: Client, frames: seq<SseFrame>)
    requires Faithful(decode, history) && InStep(history, c)
    requires |c.seen| + |frames| <= |history| && frames == SseRange(history, |c.seen|, |c.seen| + |frames|)
    ensures InStep(history, HandleAll(decode, c, frames))
    decreases |frames|
  {
    if frames != [] {
      var n := |c.seen|;
      assert frames[0] == ToSse(Stamp(n, history[n]));
      HandleKeepsStep(decode, history, c);
      assert frames[1..] == SseRange(history, n + 1, n + |frames|);
      HandleAllKeepsStep(decode, history, Handle(decode, c, frames[0]), frames[1..]);
    }
  }

  // ---------- end to end ----------

  /** If a stream came back at all, subscriber `k` of the run serves it: it was asked to continue
      after the last id the client had seen, and found nothing trimmed. A request that failed asks
      for nothing. */
  predicate Serves(p: RunProtocol.Proto, c: Client, conn: Connection, k: nat, w: Wire) {
    conn.Stream? ==>
      && k in p.subs
      && p.subs[k].lastEventId == c.lastId
      && p.subs[k].skipped == {}
      && Carries(conn, p.subs[k].delivered, w)
  }

  lemma ReadKeepsStep(
    decode: Decoder, history: seq<Frame>, c: Client, conn: Connection, sent: seq<Stamped>, w: Wire)
    requires Faithful(decode, history) && InStep(history, c)
    requires Continues(history, |c.seen|, sent) && Carries(conn, sent, w)
    ensures InStep(history, Read(decode, c, conn))
  {
    var frames := FramesFrom(conn);
    CarriedFrames(conn, sent, w);
    if frames != [] {
      PrefixIsRange(history, |c.seen|, sent, frames);
      HandleAllKeepsStep(decode, history, c, frames);
    }
  }

  lemma PrefixIsRange(history: seq<Frame>, n: nat, sent: seq<Stamped>, frames: seq<SseFrame>)
    requires Continues(history, n, sent) && frames != [] && frames <= ToSseAll(sent)
    ensures n + |frames| <= |history| && frames == SseRange(history, n, n + |frames|)
  {
    assert frames == ToSseAll(sent)[..|frames|];
  }

  lemma ServedReadKeepsStep(
    p: RunProtocol.Proto, maxBuffer: nat, decode: Decoder, c: Client, conn: Connection,
    k: nat, w: Wire)
    requires RunProtocol.Reachable(p, maxBuffer)
    requires Faithful(decode, p.history)
    requires InStep(p.history, c) && Serves(p, c, conn, k, w)
    ensures InStep(p.history, Read(decode, c, conn))
  {
    if conn.Stream? {
      NothingSkippedIsContiguous(p, maxBuffer, k);
      ReadKeepsStep(decode, p.history, c, conn, p.subs[k].delivered, w);
    }
  }

  /** Every reconnection is served from where the client stands. */
  predicate ServedLoop(
    p: RunProtocol.Proto, decode: Decoder, c: Client, conns: seq<Connection>, ks: seq<nat>, ws: seq<Wire>)
    decreases |conns|
  {
    && |ks| == |ws| == |conns|
    && (conns != [] ==>
          && Serves(p, c, conns[0], ks[0], ws[0])
          && ServedLoop(p, decode, Read(decode, c, conns[0]), conns[1..], ks[1..], ws[1..]))
  }

  lemma {:induction false} ReconnectKeepsStep(
    p: RunProtocol.Proto, maxBuffer: nat, decode: Decoder, c: Client, attempt: nat,
    conns: seq<Connection>, ks: seq<nat>, ws: seq<Wire>)
    requires RunProtocol.Reachable(p, maxBuffer)
    requires Faithful(decode, p.history)
    requires InStep(p.history, c) && ServedLoop(p, decode, c, conns, ks, ws)
    ensures InStep(p.history, Reconnect(decode, c, attempt, conns).0)
    decreases |conns|
  {
    if conns != [] {
      ServedReadKeepsStep(p, maxBuffer, decode, c, conns[0], ks[0], ws[0]);
      var next := if ReadsCleanly(conns[0]) then 0 else attempt + 1;
      ReconnectKeepsStep(p, maxBuffer, decode, Read(decode, c, conns[0]), next, conns[1..], ks[1..], ws[1..]);
    }
  }

  /** The client handled the first frames of the history: frame `i` under id `i`, word for word. */
  predicate SawPrefix(history: seq<Frame>, seen: seq<SseFrame>) {
    && |seen| <= |history|
    && forall i | 0 <= i < |seen| ::
         seen[i] == SseFrame(Some(history[i].event), history[i].data, Some(Decimal.Str(i)))
  }

  /** The end-to-end guarantee of resuming. Take any interleaving of the driver and all subscribers
      and any way the connections broke. If every connection was served from the client's last id
      and nothing past it had been trimmed, the client has handled the frames of the history in
      order, each once, from the first on; and once it has seen a terminal event, as it has when it
      finishes with a task, it has handled the whole history. */
  lemma ResumedStreamIsHistory(
    p: RunProtocol.Proto, maxBuffer: nat, decode: Decoder,
    first: Connection, later: seq<Connection>, ks: seq<nat>, ws: seq<Wire>)
    requires RunProtocol.Reachable(p, maxBuffer)
    requires Faithful(decode, p.history)
    requires |ks| == |ws| == 1 + |later|
    requires Serves(p, Start(), first, ks[0], ws[0])
    requires ServedLoop(p, decode, Read(decode, Start(), first), later, ks[1..], ws[1..])
    ensures var (c, outcome) := StreamSpec(decode, first, later);
            && SawPrefix(p.history, c.seen)
            && c.lastId == |c.seen| - 1
            && (c.terminal ==> |c.seen| == |p.history|)
            && (outcome == Finished && c.taskId.Some? ==> |c.seen| == |p.history|)
  {
    StreamInStep(p, maxBuffer, decode, first, later, ks, ws);
    RunProtocol.ReachableInv(p, maxBuffer);
    var (c, outcome) := StreamSpec(decode, first, later);
    TerminalIsLast(p, maxBuffer, |c.seen|);
    FinishedHasEnded(decode, first, later);
  }

  lemma FinishedHasEnded(decode: Decoder, first: Connection, later: seq<Connection>)
    ensures var (c, outcome) := StreamSpec(decode, first, later);
            outcome == Finished && c.taskId.Some? ==> c.terminal
  {
    var n := ClientOutcomes.StreamOutcome(decode, first, later);
  }

  /** The same said of the producer: what the client has handled is what the producer yielded and the
      driver appended, then the error frame if there is one; and a client that has seen the end of a
      run without such an error has handled everything the producer ever yielded. */
  lemma ResumedStreamIsWhatWasProduced(
    events: seq<RunProtocol.Event>, maxBuffer: nat, decode: Decoder,
    first: Connection, later: seq<Connection>, ks: seq<nat>, ws: seq<Wire>)
    requires RunProtocol.Exec(events, maxBuffer).Some?
    requires Faithful(decode, RunProtocol.Exec(events, maxBuffer).value.history)
    requires |ks| == |ws| == 1 + |later|
    requires Serves(RunProtocol.Exec(events, maxBuffer).value, Start(), first, ks[0], ws[0])
    requires ServedLoop(RunProtocol.Exec(events, maxBuffer).value, decode, Read(decode, Start(), first), later,
                        ks[1..], ws[1..])
    ensures var c, errors := StreamSpec(decode, first, later).0, RunProgress.ErrorsAppended(events);
            && SawPrefix(RunProgress.YieldedAndAppended(events) + errors, c.seen)
            && (c.terminal && errors == [] ==>
                  SawPrefix(RunProgress.Yielded(events), c.seen) && |c.seen| == |RunProgress.Yielded(events)|)
  {
    var p := RunProtocol.Exec(events, maxBuffer).value;
    assert RunProtocol.Reachable(p, maxBuffer);
    ResumedStreamIsHistory(p, maxBuffer, decode, first, later, ks, ws);
    RunProgress.HistoryIsWhatWasProduced(events, maxBuffer);
    var c := StreamSpec(decode, first, later).0;
    if c.terminal && RunProgress.ErrorsAppended(events) == [] {
      TerminalWasSeen(p, maxBuffer, decode, first, later, ks, ws);
      RunProgress.EndedRunIsWhole(events, maxBuffer);
    }
  }

  /** A client that has seen a terminal event has seen a terminal frame of the history. */
  lemma TerminalWasSeen(
    p: RunProtocol.Proto, maxBuffer: nat, decode: Decoder,
    first: Connection, later: seq<Connection>, ks: seq<nat>, ws: seq<Wire>)
    requires RunProtocol.Reachable(p, maxBuffer)
    requires Faithful(decode, p.history)
    requires |ks| == |ws| == 1 + |later|
    requires Serves(p, Start(), first, ks[0], ws[0])
    requires ServedLoop(p, decode, Read(decode, Start(), first), later, ks[1..], ws[1..])
    ensures StreamSpec(decode, first, later).0.terminal ==> !RunProtocol.NoTerminal(p.history)
  {
    StreamInStep(p, maxBuffer, decode, first, later, ks, ws);
    var c := StreamSpec(decode, first, later).0;
    if c.terminal {
      var i :| 0 <= i < |c.seen| && RunProtocol.IsTerminal(p.history[i]);
      assert p.history[i] in p.history;
    }
  }

  lemma StreamInStep(
    p: RunProtocol.Proto, maxBuffer: nat, decode: Decoder,
    first: Connection, later: seq<Connection>, ks: seq<nat>, ws: seq<Wire>)
    requires RunProtocol.Reachable(p, maxBuffer)
    requires Faithful(decode, p.history)
    requires |ks| == |ws| == 1 + |later|
    requires Serves(p, Start(), first, ks[0], ws[0])
    requires ServedLoop(p, decode, Read(decode, Start(), first), later, ks[1..], ws[1..])
    ensures InStep(p.history, StreamSpec(decode, first, later).0)
  {
    StartInStep(p.history);
    ServedReadKeepsStep(p, maxBuffer, decode, Start(), first, ks[0], ws[0]);
    ReconnectKeepsStep(p, maxBuffer, decode, Read(decode, Start(), first), 0, later, ks[1..], ws[1..]);
  }

  lemma StartInStep(history: seq<Frame>)
    ensures InStep(history, Start())
  {
  }

  /** Who has seen a terminal frame has seen everything. */
  lemma TerminalIsLast(p: RunProtocol.Proto, maxBuffer: nat, n: nat)
    requires RunProtocol.DriverInv(p, maxBuffer) && n <= |p.history|
    ensures HasTerminal(p.history, n) ==> n == |p.history|
  {
    if HasTerminal(p.history, n) {
      var i :| 0 <= i < n && RunProtocol.IsTerminal(p.history[i]);
      assert p.history[i] in p.history;
      assert forall j | 0 <= j < |p.history| - 1 :: p.history[j] in p.history[..|p.history| - 1];
    }
  }

  // ---------- why a stream must not end cleanly inside a block ----------

  lemma {:induction false} JoinLast(lines: seq<string>, last: string, more: string)
    ensures Join(lines + [last]) + more == Join(lines + [last + more])
  {
    if lines == [] {
      assert lines + [last] == [last] && lines + [last + more] == [last + more];
    } else {
      JoinLast(lines[1..], last, more);
      assert (lines + [last])[1..] == lines[1..] + [last];
      assert (lines + [last + more])[1..] == lines[1..] + [last + more];
    }
  }

  lemma LinesOfOneLine(f: SseFrame, data: string)
    requires OneLine(data)
    ensures Lines(Event(f.(data := data))) == HeadLines(f) + ["data: " + data]
  {
    SplitLine(data);
    assert DataLines([data]) == ["data: " + data];
  }

  lemma NoBoundaryInBlock(lines: seq<string>)
    requires BlockLines(lines)
    ensures Boundary(Join(lines)).None?
  {
    BoundaryOfBlock(lines, "");
    assert Join(lines) + "\n\n" + "" == Join(lines) + "\n\n";
    assert Boundary(Join(lines)).Some? ==> Boundary(Join(lines) + "\n\n") == Boundary(Join(lines)) by {
      if Boundary(Join(lines)).Some? {
        BoundaryConcat(Join(lines), "\n\n");
      }
    }
  }

  lemma PlainJoin(lines: seq<string>)
    requires BlockLines(lines)
    ensures '\r' !in Join(lines)
  {
    if |lines| == 1 {
      assert lines[0] in lines;
    } else {
      assert lines[0] in lines;
      assert forall line | line in lines[1..] :: line in lines;
      PlainJoin(lines[1..]);
    }
  }

  /** A block that arrives without its blank line is parsed when the stream ends. */
  lemma LoneBlock(item: Item)
    requires PrintableItem(item)
    ensures FramesFrom(Stream([Join(Lines(item))], false)) == EventOf(item)
  {
    var cut := Join(Lines(item));
    LinesOfItem(item);
    PlainJoin(Lines(item));
    NormalizePlain(cut);
    assert [cut][..0] == [] && Received([cut]) == Normalize(cut);
    NoBoundaryInBlock(Lines(item));
    BlockRoundTrip(item);
  }

  lemma PrintsMore(f: SseFrame, kept: string, lost: string)
    requires OneLine(kept) && OneLine(lost)
    ensures Print(Event(f.(data := kept + lost)), "\n") == Join(Lines(Event(f.(data := kept)))) + lost + "\n\n"
  {
    LinesOfOneLine(f, kept);
    LinesOfOneLine(f, kept + lost);
    assert "data: " + kept + lost == "data: " + (kept + lost);
    JoinLast(HeadLines(f), "data: " + kept, lost);
    PrintIsJoin(Lines(Event(f.(data := kept + lost))));
    TwoNewlines(Join(Lines(Event(f.(data := kept)))) + lost);
  }

  /** Cut a printed frame off inside its data, let the stream end there without an error, and the
      parser yields the truncated frame as if it were whole: the client counts it as seen. */
  lemma CleanEndTruncates(f: SseFrame, kept: string, lost: string)
    requires Printable(f) && OneLine(kept) && OneLine(lost)
    ensures var cut := Join(Lines(Event(f.(data := kept))));
            && Print(Event(f.(data := kept + lost)), "\n") == cut + lost + "\n\n"
            && FramesFrom(Stream([cut], false)) == [f.(data := kept)]
  {
    PrintsMore(f, kept, lost);
    LoneBlock(Event(f.(data := kept)));
  }
}
