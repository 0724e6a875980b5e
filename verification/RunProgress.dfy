/** What the history of a run holds, told from the events alone, and who can always go on. */
module RunProgress {
  import opened Wrappers
  import opened RunBuffer
  import opened RunProtocol

  // ---------- the history and what was produced ----------

  /** A subscriber's event: none of the driver, its producer or a cancellation. */
  predicate OfSubscriber(e: Event) {
    e.Subscribes? || e.Snapshots? || e.Delivers? || e.EndsBatch?
  }

  /** The last event that is not a subscriber's. */
  function LastOfDriver(events: seq<Event>): Option<Event> {
    if events == [] then None
    else
      var e := events[|events| - 1];
      if OfSubscriber(e) then LastOfDriver(events[..|events| - 1]) else Some(e)
  }

  /** Everything the producer yielded. */
  function Yielded(events: seq<Event>): seq<Frame> {
    if events == [] then []
    else
      var e := events[|events| - 1];
      Yielded(events[..|events| - 1]) + if e.ProducerYields? then [e.frame] else []
  }

  /** What the driver appended next after it was yielded. */
  function YieldedAndAppended(events: seq<Event>): seq<Frame> {
    if events == [] then []
    else
      var before, e := events[..|events| - 1], events[|events| - 1];
      var last := LastOfDriver(before);
      YieldedAndAppended(before)
      + if e.DriverAppends? && last.Some? && last.value.ProducerYields? then [last.value.frame] else []
  }

  /** What the driver appended next after the producer raised or a cancellation came. */
  function ErrorsAppended(events: seq<Event>): seq<Frame> {
    if events == [] then []
    else
      var before, e := events[..|events| - 1], events[|events| - 1];
      var last := LastOfDriver(before);
      ErrorsAppended(before)
      + if e.DriverAppends? && last.Some? && (last.value.ProducerRaises? || last.value.Cancelled?)
        then [Frame("task_error", last.value.data)] else []
  }

  /** Where the driver stands, told from the events alone. */
  predicate DriverTells(events: seq<Event>, p: Proto) {
    var last, made := LastOfDriver(events), YieldedAndAppended(events);
    && p.history == made + ErrorsAppended(events)
    && match p.driver
       case NotStarted => last.None? && Yielded(events) == made == [] && ErrorsAppended(events) == []
       case Producing(_) => Yielded(events) == made && ErrorsAppended(events) == []
       case Appending(f) =>
         last == Some(ProducerYields(f)) && Yielded(events) == made + [f] && ErrorsAppended(events) == []
       case AppendingError(f) =>
         && last.Some? && (last.value.ProducerRaises? || last.value.Cancelled?)
         && f == Frame("task_error", last.value.data)
         && AllButTheLast(made, Yielded(events)) && ErrorsAppended(events) == []
       case _ =>
         && AllButTheLast(made, Yielded(events)) && |ErrorsAppended(events)| <= 1
         && (EndsInOneTerminal(p.history) && ErrorsAppended(events) == [] ==> Yielded(events) == made)
  }

  /** `made` is all of `yielded`, or all but its last element. */
  predicate AllButTheLast(made: seq<Frame>, yielded: seq<Frame>) {
    made <= yielded && |yielded| <= |made| + 1
  }

  lemma Snoc(before: seq<Event>, e: Event)
    ensures var events, last := before + [e], LastOfDriver(before);
            && LastOfDriver(events) == (if OfSubscriber(e) then last else Some(e))
            && Yielded(events) == Yielded(before) + (if e.ProducerYields? then [e.frame] else [])
            && YieldedAndAppended(events) == YieldedAndAppended(before)
                 + (if e.DriverAppends? && last.Some? && last.value.ProducerYields? then [last.value.frame] else [])
            && ErrorsAppended(events) == ErrorsAppended(before)
                 + (if e.DriverAppends? && last.Some? && (last.value.ProducerRaises? || last.value.Cancelled?)
                    then [Frame("task_error", last.value.data)] else [])
  {
    assert (before + [e])[..|before|] == before;
  }

  lemma AppendTells(before: seq<Event>, p: Proto, maxBuffer: nat)
    requires DriverTells(before, p) && DriverInv(p, maxBuffer) && Enabled(p, DriverAppends)
    ensures DriverTells(before + [DriverAppends], Step(p, DriverAppends, maxBuffer))
  {
    Snoc(before, DriverAppends);
    var made, f := YieldedAndAppended(before), p.driver.frame;
    assert made + [] == made && ErrorsAppended(before) == [];
    assert made + [] + [f] == made + [f] == made + [f] + [];
  }

  lemma OthersTell(before: seq<Event>, e: Event, p: Proto, maxBuffer: nat)
    requires DriverTells(before, p) && DriverInv(p, maxBuffer) && Enabled(p, e) && !e.DriverAppends?
    ensures DriverTells(before + [e], Step(p, e, maxBuffer))
  {
    Snoc(before, e);
    assert YieldedAndAppended(before) + [] == YieldedAndAppended(before);
    assert ErrorsAppended(before) + [] == ErrorsAppended(before);
    assert Yielded(before) + [] == Yielded(before);
  }

  lemma {:induction false} ExecTells(events: seq<Event>, maxBuffer: nat)
    requires Exec(events, maxBuffer).Some?
    ensures DriverTells(events, Exec(events, maxBuffer).value)
    decreases |events|
  {
    if events != [] {
      var before, e := events[..|events| - 1], events[|events| - 1];
      ExecTells(before, maxBuffer);
      assert events == before + [e];
      var p := Exec(before, maxBuffer).value;
      ExecInv(before, maxBuffer);
      if e.DriverAppends? { AppendTells(before, p, maxBuffer); } else { OthersTell(before, e, p, maxBuffer); }
    }
  }

  /** The history is what the producer yielded and the driver then appended, in order, followed by at
      most one error frame, for a producer that raised or a cancellation inside the `try`. Nothing
      else is in it, and of what was yielded at most the last frame is missing. */
  lemma HistoryIsWhatWasProduced(events: seq<Event>, maxBuffer: nat)
    requires Exec(events, maxBuffer).Some?
    ensures var history := Exec(events, maxBuffer).value.history;
            && history == YieldedAndAppended(events) + ErrorsAppended(events)
            && |ErrorsAppended(events)| <= 1
            && YieldedAndAppended(events) <= Yielded(events)
            && |Yielded(events)| <= |YieldedAndAppended(events)| + 1
  {
    ExecTells(events, maxBuffer);
  }

  /** Once there is a terminal frame, and unless it is such an error, the history is everything the
      producer has yielded. */
  lemma EndedRunIsWhole(events: seq<Event>, maxBuffer: nat)
    requires Exec(events, maxBuffer).Some? && !NoTerminal(Exec(events, maxBuffer).value.history)
    requires ErrorsAppended(events) == []
    ensures Exec(events, maxBuffer).value.history == Yielded(events)
  {
    ExecTells(events, maxBuffer);
    ExecInv(events, maxBuffer);
    assert YieldedAndAppended(events) + [] == YieldedAndAppended(events);
  }

  /** So a finished run has kept everything its producer yielded, or all but possibly the last frame
      and then the error. */
  lemma FinishedRunIsWhole(events: seq<Event>, maxBuffer: nat)
    requires Exec(events, maxBuffer).Some? && Exec(events, maxBuffer).value.run.done
    ensures var history := Exec(events, maxBuffer).value.history;
            if ErrorsAppended(events) == [] then history == Yielded(events)
            else history == YieldedAndAppended(events) + ErrorsAppended(events) && |ErrorsAppended(events)| == 1
  {
    ExecTells(events, maxBuffer);
    ExecInv(events, maxBuffer);
    var history := Exec(events, maxBuffer).value.history;
    assert history[|history| - 1] in history;
    if ErrorsAppended(events) == [] {
      EndedRunIsWhole(events, maxBuffer);
    }
  }

  // ---------- nobody is left waiting ----------

  /** The state some events later, if each is enabled when it happens. */
  function After(p: Proto, more: seq<Event>, maxBuffer: nat): Option<Proto>
    decreases |more|
  {
    if more == [] then Some(p)
    else if Enabled(p, more[0]) then After(Step(p, more[0], maxBuffer), more[1..], maxBuffer)
    else None
  }

  lemma ExecSnoc(events: seq<Event>, e: Event, p: Proto, maxBuffer: nat)
    requires Exec(events, maxBuffer) == Some(p) && Enabled(p, e)
    ensures Exec(events + [e], maxBuffer) == Some(Step(p, e, maxBuffer))
  {
    assert (events + [e])[..|events|] == events;
  }

  lemma Shifted(events: seq<Event>, more: seq<Event>)
    requires more != []
    ensures events + [more[0]] + more[1..] == events + more
  {
  }

  lemma {:induction false} ExecAfter(events: seq<Event>, p: Proto, more: seq<Event>, maxBuffer: nat)
    requires Exec(events, maxBuffer) == Some(p) && After(p, more, maxBuffer).Some?
    ensures Exec(events + more, maxBuffer) == After(p, more, maxBuffer)
    decreases |more|
  {
    if more == [] {
      assert events + more == events;
    } else {
      ExecSnoc(events, more[0], p, maxBuffer);
      ExecAfter(events + [more[0]], Step(p, more[0], maxBuffer), more[1..], maxBuffer);
      Shifted(events, more);
    }
  }

  lemma AfterCons(p: Proto, e: Event, more: seq<Event>, maxBuffer: nat)
    requires Enabled(p, e)
    ensures After(p, [e] + more, maxBuffer) == After(Step(p, e, maxBuffer), more, maxBuffer)
  {
    assert ([e] + more)[1..] == more;
  }

  /** A subscriber that has handed over all it copied. */
  function HandedOver(s: Sub): Sub
    requires s.phase.Delivering?
  {
    s.(delivered := s.delivered + s.phase.pending, cursor := s.phase.end,
       phase := if s.phase.last then Returned else Waiting)
  }

  function With(p: Proto, k: nat, s: Sub): Proto {
    p.(subs := p.subs[k := s])
  }

  lemma {:induction false} BatchIsHandedOver(p: Proto, k: nat, s: Sub, maxBuffer: nat) returns (more: seq<Event>)
    requires s.phase.Delivering?
    ensures After(With(p, k, s), more, maxBuffer) == Some(With(p, k, HandedOver(s)))
    decreases |s.phase.pending|
  {
    var now := With(p, k, s);
    if s.phase.pending == [] {
      more := [EndsBatch(k)];
      assert s.delivered + [] == s.delivered;
      assert Step(now, EndsBatch(k), maxBuffer) == With(p, k, HandedOver(s));
    } else {
      var s' := Deliver(s);
      assert Step(now, Delivers(k), maxBuffer) == With(p, k, s');
      var rest := BatchIsHandedOver(p, k, s', maxBuffer);
      assert s'.delivered + s'.phase.pending == s.delivered + s.phase.pending;
      more := [Delivers(k)] + rest;
      AfterCons(now, Delivers(k), rest, maxBuffer);
    }
  }

  /** It has returned, or waits at the end of an unfinished run for the next frame. */
  predicate CaughtUp(r: RunState, s: Sub) {
    if r.done then s.phase.Returned? else s.phase.Waiting? && s.cursor >= r.End()
  }

  lemma WaitingCatchesUp(p: Proto, k: nat, s: Sub, maxBuffer: nat) returns (more: seq<Event>, s': Sub)
    requires s.phase.Waiting?
    ensures After(With(p, k, s), more, maxBuffer) == Some(With(p, k, s')) && CaughtUp(p.run, s')
  {
    if s.cursor < p.run.End() || p.run.done {
      var now, taken := With(p, k, s), TakeSnapshot(s, p.run);
      assert Step(now, Snapshots(k), maxBuffer) == With(p, k, taken);
      var rest := BatchIsHandedOver(p, k, taken, maxBuffer);
      more, s' := [Snapshots(k)] + rest, HandedOver(taken);
      AfterCons(now, Snapshots(k), rest, maxBuffer);
    } else {
      more, s' := [], s;
    }
  }

  lemma {:induction false} AfterConcat(p: Proto, a: seq<Event>, b: seq<Event>, maxBuffer: nat)
    requires After(p, a, maxBuffer).Some?
    ensures After(p, a + b, maxBuffer) == After(After(p, a, maxBuffer).value, b, maxBuffer)
    decreases |a|
  {
    if a == [] {
      assert a + b == b;
    } else {
      AfterConcat(Step(p, a[0], maxBuffer), a[1..], b, maxBuffer);
      assert a + b == [a[0]] + (a[1..] + b);
      AfterCons(p, a[0], a[1..] + b, maxBuffer);
    }
  }

  lemma CatchesUp(p: Proto, k: nat, s: Sub, maxBuffer: nat) returns (more: seq<Event>, s': Sub)
    requires PhaseInv(s, p.run)
    ensures After(With(p, k, s), more, maxBuffer) == Some(With(p, k, s')) && CaughtUp(p.run, s')
  {
    match s.phase {
      case Returned => more, s' := [], s;
      case Waiting => more, s' := WaitingCatchesUp(p, k, s, maxBuffer);
      case Delivering(_, _, last) =>
        more := BatchIsHandedOver(p, k, s, maxBuffer);
        s' := HandedOver(s);
        if !last {
          var rest, s'' := WaitingCatchesUp(p, k, s', maxBuffer);
          AfterConcat(With(p, k, s), more, rest, maxBuffer);
          more, s' := more + rest, s'';
        }
    }
  }

  /** Whatever has happened, a subscriber can go on by itself until it has returned or has nothing left
      to wait for but the next frame. */
  lemma SubscriberCatchesUp(events: seq<Event>, k: nat, maxBuffer: nat) returns (more: seq<Event>)
    requires Exec(events, maxBuffer).Some? && k in Exec(events, maxBuffer).value.subs
    ensures Exec(events + more, maxBuffer).Some?
    ensures var p, p' := Exec(events, maxBuffer).value, Exec(events + more, maxBuffer).value;
            && p'.run == p.run && p'.history == p.history && k in p'.subs
            && if p.run.done then p'.subs[k].phase.Returned?
               else p'.subs[k].phase.Waiting? && p'.subs[k].cursor >= |p.history|
  {
    var p := Exec(events, maxBuffer).value;
    ExecInv(events, maxBuffer);
    var s := p.subs[k];
    assert SubInv(s, p) && With(p, k, s) == p;
    var s';
    more, s' := CatchesUp(p, k, s, maxBuffer);
    ExecAfter(events, p, more, maxBuffer);
    FromIsRest(p.run, p.history, maxBuffer, 0);
  }

  /** A run that nothing has killed can still finish. */
  lemma {:induction false} DriverCanFinish(p: Proto, data: string, maxBuffer: nat) returns (more: seq<Event>)
    requires p.driver != Killed && (p.driver == Finished ==> p.run.done)
    ensures After(p, more, maxBuffer).Some? && After(p, more, maxBuffer).value.run.done
    decreases match p.driver
              case NotStarted => 5
              case Appending(_) => 5
              case Producing(_) => 4
              case AppendingError(_) => 3
              case Finishing => 2
              case _ => 1
  {
    more := [];
    if p.driver != Finished {
      var e := match p.driver
        case NotStarted => DriverStarts
        case Producing(ended) => if ended then ProducerEnds else ProducerRaises(data)
        case Finishing => DriverFinishes
        case _ => DriverAppends;
      var rest := DriverCanFinish(Step(p, e, maxBuffer), data, maxBuffer);
      more := [e] + rest;
      AfterCons(p, e, rest, maxBuffer);
    }
  }

  lemma RunCanFinish(events: seq<Event>, data: string, maxBuffer: nat) returns (more: seq<Event>)
    requires Exec(events, maxBuffer).Some? && Exec(events, maxBuffer).value.driver != Killed
    ensures Exec(events + more, maxBuffer).Some? && Exec(events + more, maxBuffer).value.run.done
  {
    ExecInv(events, maxBuffer);
    var p := Exec(events, maxBuffer).value;
    more := DriverCanFinish(p, data, maxBuffer);
    ExecAfter(events, p, more, maxBuffer);
  }

  /** Frames without a terminal one are yielded and appended one by one. */
  lemma {:induction false} FramesAreAppended(p: Proto, frames: seq<Frame>, maxBuffer: nat) returns (more: seq<Event>)
    requires p.driver == Producing(false) && NoTerminal(frames)
    ensures var p' := After(p, more, maxBuffer);
            p'.Some? && p'.value.driver == Producing(false) && p'.value.history == p.history + frames
    decreases |frames|
  {
    more := [];
    if frames == [] {
      assert p.history + frames == p.history;
    } else {
      assert frames[0] in frames;
      var next := Step(Step(p, ProducerYields(frames[0]), maxBuffer), DriverAppends, maxBuffer);
      var rest := FramesAreAppended(next, frames[1..], maxBuffer);
      more := [ProducerYields(frames[0])] + ([DriverAppends] + rest);
      AfterCons(p, ProducerYields(frames[0]), [DriverAppends] + rest, maxBuffer);
      AfterCons(Step(p, ProducerYields(frames[0]), maxBuffer), DriverAppends, rest, maxBuffer);
      assert p.history + [frames[0]] + frames[1..] == p.history + frames;
    }
  }

  lemma StreamFrom(p: Proto, frames: seq<Frame>, maxBuffer: nat) returns (more: seq<Event>)
    requires p.driver == Producing(false) && EndsInOneTerminal(frames)
    ensures var p' := After(p, more, maxBuffer);
            p'.Some? && p'.value.run.done && p'.value.history == p.history + frames
  {
    var before, last := frames[..|frames| - 1], frames[|frames| - 1];
    var appends := FramesAreAppended(p, before, maxBuffer);
    var end := [ProducerYields(last), DriverAppends, ProducerEnds, DriverFinishes];
    EndOfStream(After(p, appends, maxBuffer).value, last, maxBuffer);
    AfterConcat(p, appends, end, maxBuffer);
    more := appends + end;
    assert p.history + before + [last] == p.history + frames;
  }

  /** Every list of frames that ends in its only terminal frame is the history of some finished run. */
  lemma EveryStreamCanHappen(frames: seq<Frame>, maxBuffer: nat) returns (events: seq<Event>)
    requires EndsInOneTerminal(frames)
    ensures Exec(events, maxBuffer).Some?
    ensures Exec(events, maxBuffer).value.run.done && Exec(events, maxBuffer).value.history == frames
  {
    var rest := StreamFrom(Step(Init(), DriverStarts, maxBuffer), frames, maxBuffer);
    AfterCons(Init(), DriverStarts, rest, maxBuffer);
    events := [DriverStarts] + rest;
    ExecAfter([], Init(), events, maxBuffer);
    assert [] + events == events && [] + frames == frames;
  }

  lemma EndOfStream(p: Proto, last: Frame, maxBuffer: nat)
    requires p.driver == Producing(false) && IsTerminal(last)
    ensures var p' := After(p, [ProducerYields(last), DriverAppends, ProducerEnds, DriverFinishes], maxBuffer);
            p'.Some? && p'.value.run.done && p'.value.history == p.history + [last]
  {
    var a := Step(p, ProducerYields(last), maxBuffer);
    var b := Step(a, DriverAppends, maxBuffer);
    var c := Step(b, ProducerEnds, maxBuffer);
    AfterCons(c, DriverFinishes, [], maxBuffer);
    AfterCons(b, ProducerEnds, [DriverFinishes], maxBuffer);
    AfterCons(a, DriverAppends, [ProducerEnds, DriverFinishes], maxBuffer);
    AfterCons(p, ProducerYields(last), [DriverAppends, ProducerEnds, DriverFinishes], maxBuffer);
  }

  // ---------- more cancellations that nothing catches ----------

  /** A cancellation that comes when the driver has already left the `try`, with the terminal frame in place. */
  lemma CancelledLast(last: Frame, data: string, maxBuffer: nat)
    requires IsTerminal(last)
    ensures var p := After(Init(), [DriverStarts, ProducerYields(last), DriverAppends, ProducerEnds, Cancelled(data)],
                           maxBuffer);
            p.Some? && Stuck(p.value) && p.value.history == [last]
  {
    var a := Step(Init(), DriverStarts, maxBuffer);
    var b := Step(a, ProducerYields(last), maxBuffer);
    var c := Step(b, DriverAppends, maxBuffer);
    var d := Step(c, ProducerEnds, maxBuffer);
    AfterCons(d, Cancelled(data), [], maxBuffer);
    AfterCons(c, ProducerEnds, [Cancelled(data)], maxBuffer);
    AfterCons(b, DriverAppends, [ProducerEnds, Cancelled(data)], maxBuffer);
    AfterCons(a, ProducerYields(last), [DriverAppends, ProducerEnds, Cancelled(data)], maxBuffer);
    AfterCons(Init(), DriverStarts, [ProducerYields(last), DriverAppends, ProducerEnds, Cancelled(data)], maxBuffer);
  }

  /** A second cancellation, before the error of the first is appended: no terminal frame ever comes. */
  lemma CancelledTwice(data: string, more: string, maxBuffer: nat)
    ensures var p := After(Init(), [DriverStarts, Cancelled(data), Cancelled(more)], maxBuffer);
            p.Some? && Stuck(p.value) && p.value.history == []
  {
    var a := Step(Init(), DriverStarts, maxBuffer);
    var b := Step(a, Cancelled(data), maxBuffer);
    AfterCons(b, Cancelled(more), [], maxBuffer);
    AfterCons(a, Cancelled(data), [Cancelled(more)], maxBuffer);
    AfterCons(Init(), DriverStarts, [Cancelled(data), Cancelled(more)], maxBuffer);
  }
}
