/** One detached run under every interleaving of its driver, its subscribers and cancellation.

    Each critical section of the run's condition variable is one step, and so is every frame a
    subscriber hands to its client. The producer yields a terminal frame once, as its last. */
module RunProtocol {
  import opened Wrappers
  import opened RunBuffer
  import Decimal

  predicate IsTerminal(f: Frame) {
    f.event == "task_finished" || f.event == "task_error"
  }

  function ErrorFrame(data: string): Frame {
    Frame("task_error", data)
  }

  /** Where the driver stands. `ended`: the producer has yielded its terminal frame. */
  datatype Driver =
    | NotStarted
    | Producing(ended: bool)
    | Appending(frame: Frame)
    | AppendingError(frame: Frame)
    | Finishing
    | Finished
    | Killed

  datatype Phase =
    | Waiting
    | Delivering(pending: seq<Stamped>, end: nat, last: bool)
    | Returned

  /** A subscriber. `taken` lists the positions of the frames it has copied so far and `skipped`
      holds those that were trimmed before it could; both are history variables. */
  datatype Sub = Sub(
    lastEventId: int,
    cursor: int,
    phase: Phase,
    delivered: seq<Stamped>,
    taken: seq<nat>,
    skipped: set<nat>)

  datatype Proto = Proto(run: RunState, history: seq<Frame>, driver: Driver, subs: map<nat, Sub>)

  function Init(): Proto {
    Proto(RunState([], 0, false), [], NotStarted, map[])
  }

  datatype Event =
    | DriverStarts
    | ProducerYields(frame: Frame)
    | ProducerRaises(data: string)
    | ProducerEnds
    | DriverAppends
    | DriverFinishes
    | Cancelled(data: string)
    | Subscribes(k: nat, lastEventId: int)
    | Snapshots(k: nat)
    | Delivers(k: nat)
    | EndsBatch(k: nat)

  predicate Enabled(p: Proto, e: Event) {
    match e
    case DriverStarts => p.driver == NotStarted
    case ProducerYields(_) => p.driver == Producing(false)
    case ProducerRaises(_) => p.driver == Producing(false)
    case ProducerEnds => p.driver == Producing(true)
    case DriverAppends => p.driver.Appending? || p.driver.AppendingError?
    case DriverFinishes => p.driver == Finishing
    case Cancelled(_) => !p.driver.Producing? || !p.driver.ended
    case Subscribes(k, _) => k !in p.subs
    case Snapshots(k) => k in p.subs && p.subs[k].phase.Waiting? && (p.subs[k].cursor < p.run.End() || p.run.done)
    case Delivers(k) => k in p.subs && p.subs[k].phase.Delivering? && p.subs[k].phase.pending != []
    case EndsBatch(k) => k in p.subs && p.subs[k].phase.Delivering? && p.subs[k].phase.pending == []
  }

  /** Inside the `try` a cancellation becomes a terminal frame; before the first step and after the
      `try` nothing catches it. */
  function CancelDriver(d: Driver, data: string): Driver {
    match d
    case Producing(_) => AppendingError(ErrorFrame(data))
    case Appending(_) => AppendingError(ErrorFrame(data))
    case NotStarted => Killed
    case AppendingError(_) => Killed
    case Finishing => Killed
    case Finished => Finished
    case Killed => Killed
  }

  /** The positions from `from` up to `to`, without `to`. */
  function Range(from: int, to: nat): (ids: set<nat>)
    ensures forall id: nat :: id in ids <==> from <= id < to
  {
    if to <= from || to == 0 then {} else Range(from, to - 1) + {to - 1}
  }

  function Max(a: int, b: int): int {
    if a < b then b else a
  }

  function NewSub(r: RunState, lastEventId: int): Sub {
    Sub(lastEventId, Max(lastEventId + 1, r.baseSeq), Waiting, [], [], Range(lastEventId + 1, r.baseSeq))
  }

  /** The same positions in order. */
  function Positions(from: nat, to: nat): seq<nat> {
    if to <= from then [] else seq(to - from, i requires 0 <= i < to - from => from + i)
  }

  function TakeSnapshot(s: Sub, r: RunState): Sub
    requires s.phase.Waiting?
  {
    var from := Max(s.cursor, r.baseSeq);
    s.(phase := Delivering(r.From(s.cursor), r.End(), r.done),
       taken := s.taken + Positions(from, r.End()),
       skipped := s.skipped + Range(s.cursor, r.baseSeq))
  }

  function Deliver(s: Sub): Sub
    requires s.phase.Delivering? && s.phase.pending != []
  {
    s.(phase := s.phase.(pending := s.phase.pending[1..]), delivered := s.delivered + [s.phase.pending[0]])
  }

  function EndBatch(s: Sub): Sub
    requires s.phase.Delivering?
  {
    s.(phase := if s.phase.last then Returned else Waiting, cursor := s.phase.end)
  }

  function Step(p: Proto, e: Event, maxBuffer: nat): Proto
    requires Enabled(p, e)
  {
    match e
    case DriverStarts => p.(driver := Producing(false))
    case ProducerYields(f) => p.(driver := Appending(f))
    case ProducerRaises(data) => p.(driver := AppendingError(ErrorFrame(data)))
    case ProducerEnds => p.(driver := Finishing)
    case DriverAppends =>
      p.(run := p.run.Append(p.driver.frame, maxBuffer),
         history := p.history + [p.driver.frame],
         driver := if p.driver.AppendingError? then Finishing else Producing(IsTerminal(p.driver.frame)))
    case DriverFinishes => p.(run := p.run.(done := true), driver := Finished)
    case Cancelled(data) => p.(driver := CancelDriver(p.driver, data))
    case Subscribes(k, lastEventId) => p.(subs := p.subs[k := NewSub(p.run, lastEventId)])
    case Snapshots(k) => p.(subs := p.subs[k := TakeSnapshot(p.subs[k], p.run)])
    case Delivers(k) => p.(subs := p.subs[k := Deliver(p.subs[k])])
    case EndsBatch(k) => p.(subs := p.subs[k := EndBatch(p.subs[k])])
  }

  /** The state after a list of events, if each was enabled when it happened. */
  function Exec(events: seq<Event>, maxBuffer: nat): Option<Proto> {
    if events == [] then Some(Init())
    else
      match Exec(events[..|events| - 1], maxBuffer)
      case None => None
      case Some(p) =>
        var e := events[|events| - 1];
        if Enabled(p, e) then Some(Step(p, e, maxBuffer)) else None
  }

  // ---------- the driver ----------

  predicate NoTerminal(history: seq<Frame>) {
    forall f | f in history :: !IsTerminal(f)
  }

  /** Exactly one terminal frame, the last. */
  predicate EndsInOneTerminal(history: seq<Frame>) {
    history != [] && IsTerminal(history[|history| - 1]) && NoTerminal(history[..|history| - 1])
  }

  predicate DriverInv(p: Proto, maxBuffer: nat) {
    && Buffers(p.run, p.history, maxBuffer)
    && (p.run.done <==> p.driver == Finished)
    && match p.driver
       case NotStarted => p.history == []
       case Producing(ended) => if ended then EndsInOneTerminal(p.history) else NoTerminal(p.history)
       case Appending(_) => NoTerminal(p.history)
       case AppendingError(f) => NoTerminal(p.history) && IsTerminal(f)
       case Finishing => EndsInOneTerminal(p.history)
       case Finished => EndsInOneTerminal(p.history)
       case Killed => NoTerminal(p.history) || EndsInOneTerminal(p.history)
  }

  lemma StepKeepsDriver(p: Proto, e: Event, maxBuffer: nat)
    requires DriverInv(p, maxBuffer) && Enabled(p, e)
    ensures DriverInv(Step(p, e, maxBuffer), maxBuffer)
  {
    if e.DriverAppends? {
      AppendBuffers(p.run, p.history, p.driver.frame, maxBuffer);
      assert (p.history + [p.driver.frame])[..|p.history|] == p.history;
    }
  }

  // ---------- a subscriber ----------

  /** Everything below this position has been dealt with. */
  function Frontier(s: Sub): int {
    if s.phase.Delivering? then s.phase.end else s.cursor
  }

  function Pending(s: Sub): seq<Stamped> {
    if s.phase.Delivering? then s.phase.pending else []
  }

  function First(s: Sub): nat {
    if s.lastEventId < -1 then 0 else s.lastEventId + 1
  }

  /** Frames carry the history element at their position, and positions only grow. */
  predicate TakenInv(s: Sub, history: seq<Frame>) {
    && |s.taken| == |s.delivered| + |Pending(s)|
    && (forall i | 0 <= i < |s.taken| :: First(s) <= s.taken[i] < |history|)
    && (forall i | 0 <= i < |s.delivered| :: s.delivered[i] == Stamp(s.taken[i], history[s.taken[i]]))
    && (forall i | 0 <= i < |Pending(s)| ::
          Pending(s)[i] == Stamp(s.taken[|s.delivered| + i], history[s.taken[|s.delivered| + i]]))
    && (forall i, j | 0 <= i < j < |s.taken| :: s.taken[i] < s.taken[j])
  }

  /** Between the subscriber's start and its frontier every position was either taken or skipped. */
  predicate CoverInv(s: Sub, r: RunState) {
    && (forall id: nat | First(s) <= id < Frontier(s) :: (id in s.taken) != (id in s.skipped))
    && (forall id | id in s.taken :: id < Frontier(s))
    && (forall id | id in s.skipped :: First(s) <= id < Frontier(s) && id < r.baseSeq)
  }

  predicate PhaseInv(s: Sub, r: RunState) {
    match s.phase
    case Waiting => First(s) <= s.cursor && (s.cursor <= r.End() || s.cursor == First(s))
    case Delivering(_, end, last) =>
      end <= r.End() && (if last then r.done && end == r.End() else First(s) <= end)
    case Returned => r.done && s.cursor == r.End()
  }

  predicate SubInv(s: Sub, p: Proto) {
    TakenInv(s, p.history) && CoverInv(s, p.run) && PhaseInv(s, p.run)
  }

  predicate SubsInv(p: Proto) {
    forall k | k in p.subs :: SubInv(p.subs[k], p)
  }

  lemma NewSubInv(p: Proto, lastEventId: int, maxBuffer: nat)
    requires DriverInv(p, maxBuffer)
    ensures SubInv(NewSub(p.run, lastEventId), p)
  {
  }

  /** A snapshot copies the history at the positions it takes. */
  lemma SnapshotCopies(s: Sub, p: Proto, maxBuffer: nat)
    requires DriverInv(p, maxBuffer) && s.cursor >= 0
    ensures var frames, positions := p.run.From(s.cursor), Positions(Max(s.cursor, p.run.baseSeq), p.run.End());
            && |positions| == |frames|
            && forall i | 0 <= i < |frames| ::
                 positions[i] < |p.history| && frames[i] == Stamp(positions[i], p.history[positions[i]])
  {
    FromIsRest(p.run, p.history, maxBuffer, s.cursor);
  }

  lemma SnapshotKeepsTaken(s: Sub, p: Proto, maxBuffer: nat)
    requires DriverInv(p, maxBuffer) && SubInv(s, p) && s.phase.Waiting?
    ensures TakenInv(TakeSnapshot(s, p.run), p.history)
  {
    SnapshotCopies(s, p, maxBuffer);
    forall i | 0 <= i < |s.taken| ensures s.taken[i] < Max(s.cursor, p.run.baseSeq) { assert s.taken[i] in s.taken; }
  }

  lemma SnapshotKeepsCover(s: Sub, p: Proto, maxBuffer: nat)
    requires DriverInv(p, maxBuffer) && SubInv(s, p) && s.phase.Waiting?
    ensures CoverInv(TakeSnapshot(s, p.run), p.run)
  {
    var r := p.run;
    var s' := TakeSnapshot(s, r);
    var from := Max(s.cursor, r.baseSeq);
    FromIsRest(r, p.history, maxBuffer, s.cursor);
    PositionsAre(from, r.End());
    forall id: nat ensures id in s'.taken <==> id in s.taken || from <= id < r.End() {
      assert id in Positions(from, r.End()) <==> from <= id < r.End();
    }
  }

  lemma PositionsAre(from: nat, to: nat)
    ensures forall id: nat :: id in Positions(from, to) <==> from <= id < to
  {
    forall id: nat | from <= id < to ensures id in Positions(from, to) {
      assert Positions(from, to)[id - from] == id;
    }
  }

  /** The driver only appends and trims, so it cannot disturb what subscribers have. */
  lemma DriverKeepsSub(s: Sub, p: Proto, e: Event, maxBuffer: nat)
    requires DriverInv(p, maxBuffer) && Enabled(p, e) && SubInv(s, p)
    requires e.DriverAppends? || e.DriverFinishes?
    ensures SubInv(s, Step(p, e, maxBuffer))
  {
    var p' := Step(p, e, maxBuffer);
    if e.DriverAppends? {
      AppendBuffers(p.run, p.history, p.driver.frame, maxBuffer);
    }
  }

  lemma DeliverKeepsTaken(s: Sub, history: seq<Frame>)
    requires TakenInv(s, history) && s.phase.Delivering? && s.phase.pending != []
    ensures TakenInv(Deliver(s), history)
  {
    var s' := Deliver(s);
    assert Pending(s') == Pending(s)[1..] && s'.delivered == s.delivered + [Pending(s)[0]];
    assert forall i | 0 <= i < |Pending(s')| :: Pending(s')[i] == Pending(s)[i + 1];
  }

  lemma DeliverKeepsSub(s: Sub, p: Proto)
    requires SubInv(s, p) && s.phase.Delivering? && s.phase.pending != []
    ensures SubInv(Deliver(s), p)
  {
    DeliverKeepsTaken(s, p.history);
    assert Deliver(s).taken == s.taken && Deliver(s).skipped == s.skipped && Frontier(Deliver(s)) == Frontier(s);
  }

  lemma EndBatchKeepsSub(s: Sub, p: Proto)
    requires SubInv(s, p) && s.phase.Delivering? && s.phase.pending == []
    ensures SubInv(EndBatch(s), p)
  {
  }

  /** A subscriber's own steps. */
  lemma SubStepKeepsSub(p: Proto, e: Event, k: nat, maxBuffer: nat)
    requires DriverInv(p, maxBuffer) && SubsInv(p) && Enabled(p, e)
    requires e.Subscribes? || e.Snapshots? || e.Delivers? || e.EndsBatch?
    requires e.k == k
    ensures SubInv(Step(p, e, maxBuffer).subs[k], p)
  {
    match e {
      case Subscribes(_, lastEventId) => NewSubInv(p, lastEventId, maxBuffer);
      case Snapshots(_) =>
        SnapshotKeepsTaken(p.subs[k], p, maxBuffer);
        SnapshotKeepsCover(p.subs[k], p, maxBuffer);
      case Delivers(_) => DeliverKeepsSub(p.subs[k], p);
      case EndsBatch(_) => EndBatchKeepsSub(p.subs[k], p);
      case _ =>
    }
  }

  /** Nothing a subscriber is promised depends on the driver's place or on other subscribers. */
  lemma SubInvFrame(s: Sub, p: Proto, p': Proto)
    requires SubInv(s, p) && p'.run == p.run && p'.history == p.history
    ensures SubInv(s, p')
  {
  }

  lemma StepKeepsSubs(p: Proto, e: Event, maxBuffer: nat)
    requires DriverInv(p, maxBuffer) && SubsInv(p) && Enabled(p, e)
    ensures SubsInv(Step(p, e, maxBuffer))
  {
    var p' := Step(p, e, maxBuffer);
    forall k | k in p'.subs ensures SubInv(p'.subs[k], p') {
      if e.DriverAppends? || e.DriverFinishes? {
        DriverKeepsSub(p.subs[k], p, e, maxBuffer);
      } else {
        if (e.Subscribes? || e.Snapshots? || e.Delivers? || e.EndsBatch?) && e.k == k {
          SubStepKeepsSub(p, e, k, maxBuffer);
        }
        SubInvFrame(p'.subs[k], p, p');
      }
    }
  }

  // ---------- every interleaving ----------

  lemma {:induction false} ExecInv(events: seq<Event>, maxBuffer: nat)
    requires Exec(events, maxBuffer).Some?
    ensures var p := Exec(events, maxBuffer).value; DriverInv(p, maxBuffer) && SubsInv(p)
    decreases |events|
  {
    if events != [] {
      var before := events[..|events| - 1];
      ExecInv(before, maxBuffer);
      var p, e := Exec(before, maxBuffer).value, events[|events| - 1];
      StepKeepsDriver(p, e, maxBuffer);
      StepKeepsSubs(p, e, maxBuffer);
    }
  }

  /** Some interleaving leads to `p`. */
  ghost predicate Reachable(p: Proto, maxBuffer: nat) {
    exists events :: Exec(events, maxBuffer) == Some(p)
  }

  lemma ReachableInv(p: Proto, maxBuffer: nat)
    requires Reachable(p, maxBuffer)
    ensures DriverInv(p, maxBuffer) && SubsInv(p)
  {
    var events :| Exec(events, maxBuffer) == Some(p);
    ExecInv(events, maxBuffer);
  }

  /** Whatever a subscriber has been given: the ids grow, start above `last_event_id`, and each
      frame is the history element at its id. Below its frontier, a position it was not given had
      already been trimmed. */
  lemma SubscribersSeeHistory(p: Proto, maxBuffer: nat, k: nat)
    requires Reachable(p, maxBuffer) && k in p.subs
    ensures var s := p.subs[k];
            && |s.delivered| <= |s.taken|
            && (forall i | 0 <= i < |s.delivered| ::
                  && s.lastEventId < s.taken[i] < |p.history|
                  && s.delivered[i].id == Decimal.Str(s.taken[i])
                  && s.delivered[i].frame == p.history[s.taken[i]])
            && (forall i, j | 0 <= i < j < |s.taken| :: s.taken[i] < s.taken[j])
            && (forall id: nat | s.lastEventId < id < Frontier(s) :: (id in s.taken) != (id in s.skipped))
            && (forall id | id in s.skipped :: id < |p.history| - maxBuffer)
  {
    ReachableInv(p, maxBuffer);
    var s := p.subs[k];
    assert SubInv(s, p);
  }

  /** A snapshot deals with every position from the cursor to the end of the history: it skips
      exactly those trimmed by then and takes exactly those still buffered. */
  lemma SnapshotIsExact(p: Proto, maxBuffer: nat, k: nat, id: nat)
    requires Reachable(p, maxBuffer) && Enabled(p, Snapshots(k))
    requires p.subs[k].cursor <= id < |p.history|
    ensures var s, s' := p.subs[k], Step(p, Snapshots(k), maxBuffer).subs[k];
            && id !in s.taken && id !in s.skipped
            && (id in s'.skipped <==> id < |p.history| - maxBuffer)
            && (id in s'.taken <==> id >= |p.history| - maxBuffer)
  {
    ReachableInv(p, maxBuffer);
    var s := p.subs[k];
    assert SubInv(s, p);
    PositionsAre(Max(s.cursor, p.run.baseSeq), p.run.End());
    FromIsRest(p.run, p.history, maxBuffer, s.cursor);
  }

  /** The history of a finished run ends in exactly one terminal frame, whether the producer ended,
      raised or was cancelled. */
  lemma FinishedRunHasOneTerminal(p: Proto, maxBuffer: nat)
    requires Reachable(p, maxBuffer) && p.run.done
    ensures p.history != [] && p.history[|p.history| - 1].event in ["task_finished", "task_error"]
    ensures forall i | 0 <= i < |p.history| - 1 :: p.history[i].event !in ["task_finished", "task_error"]
  {
    ReachableInv(p, maxBuffer);
    forall i | 0 <= i < |p.history| - 1 ensures !IsTerminal(p.history[i]) {
      assert p.history[i] in p.history[..|p.history| - 1];
    }
  }

  lemma ReturnedSubSawTheEnd(s: Sub, p: Proto, maxBuffer: nat)
    requires DriverInv(p, maxBuffer) && SubInv(s, p) && s.phase.Returned?
    ensures p.run.done && p.history != [] && s.cursor == |p.history|
    ensures maxBuffer >= 1 && s.lastEventId < |p.history| - 1 ==>
              s.delivered != [] && s.delivered[|s.delivered| - 1] == Stamp(|p.history| - 1, p.history[|p.history| - 1])
  {
    if maxBuffer >= 1 && s.lastEventId < |p.history| - 1 {
      var last: nat := |p.history| - 1;
      assert First(s) <= last < Frontier(s);
      assert last in s.taken;
      assert |s.delivered| == |s.taken|;
      forall i | 0 <= i < |s.taken| ensures s.taken[i] <= last { assert s.taken[i] in s.taken; }
      LastTaken(s, last);
    }
  }

  /** A subscriber returns only after the run is done, at the end of the history, and it was given
      the terminal frame whenever it had not passed it before and the buffer holds anything. */
  lemma ReturnedSubscriberSawTheEnd(p: Proto, maxBuffer: nat, k: nat)
    requires Reachable(p, maxBuffer) && k in p.subs
    requires p.subs[k].phase.Returned?
    ensures var s := p.subs[k];
            && p.run.done && p.history != [] && s.cursor == |p.history|
            && (maxBuffer >= 1 && s.lastEventId < |p.history| - 1 ==>
                  && s.delivered != []
                  && s.delivered[|s.delivered| - 1] == Stamp(|p.history| - 1, p.history[|p.history| - 1]))
  {
    ReachableInv(p, maxBuffer);
    ReturnedSubSawTheEnd(p.subs[k], p, maxBuffer);
  }

  /** A position at the end of everything can only be the last one taken. */
  lemma LastTaken(s: Sub, last: nat)
    requires last in s.taken && forall i | 0 <= i < |s.taken| :: s.taken[i] <= last
    requires forall i, j | 0 <= i < j < |s.taken| :: s.taken[i] < s.taken[j]
    ensures s.taken[|s.taken| - 1] == last
  {
    var i :| 0 <= i < |s.taken| && s.taken[i] == last;
    assert s.taken[|s.taken| - 1] <= last;
  }

  // ---------- cancellation that nothing catches ----------

  predicate Stuck(p: Proto) {
    p.driver == Killed && !p.run.done
  }

  /** A cancellation before the driver's first step, or after it has left the `try`, is caught by
      nobody: the run never becomes done, and no subscriber ever returns. */
  lemma {:induction false} KilledRunNeverFinishes(events: seq<Event>, more: seq<Event>, maxBuffer: nat)
    requires Exec(events, maxBuffer).Some? && Exec(events, maxBuffer).value.driver == Killed
    requires Exec(events + more, maxBuffer).Some?
    ensures Stuck(Exec(events + more, maxBuffer).value)
    ensures forall k | k in Exec(events + more, maxBuffer).value.subs ::
              !Exec(events + more, maxBuffer).value.subs[k].phase.Returned?
    decreases |more|
  {
    if more == [] {
      assert events + more == events;
      ExecInv(events, maxBuffer);
      KilledMeansStuck(Exec(events, maxBuffer).value, maxBuffer);
    } else {
      var all, before := events + more, events + more[..|more| - 1];
      assert all[..|all| - 1] == before;
      KilledRunNeverFinishes(events, more[..|more| - 1], maxBuffer);
      ExecInv(all, maxBuffer);
      StuckStays(Exec(before, maxBuffer).value, all[|all| - 1], maxBuffer);
      KilledMeansStuck(Exec(all, maxBuffer).value, maxBuffer);
    }
  }

  /** It takes no more than a cancellation that comes first. */
  lemma CancelledFirst(data: string, maxBuffer: nat)
    ensures Exec([Cancelled(data)], maxBuffer).Some? && Stuck(Exec([Cancelled(data)], maxBuffer).value)
  {
    assert [Cancelled(data)][..0] == [];
  }

  lemma KilledMeansStuck(p: Proto, maxBuffer: nat)
    requires DriverInv(p, maxBuffer) && SubsInv(p) && p.driver == Killed
    ensures Stuck(p) && forall k | k in p.subs :: !p.subs[k].phase.Returned?
  {
    forall k | k in p.subs ensures !p.subs[k].phase.Returned? {
      assert SubInv(p.subs[k], p);
    }
  }

  lemma StuckStays(p: Proto, e: Event, maxBuffer: nat)
    requires Stuck(p) && Enabled(p, e)
    ensures Stuck(Step(p, e, maxBuffer))
  {
  }

  /** The driver's way to the end: what it still has to do on its own once the producer is silent. */
  lemma CancelledRunFinishes(events: seq<Event>, data: string, maxBuffer: nat)
    requires Exec(events, maxBuffer).Some?
    requires var d := Exec(events, maxBuffer).value.driver; d == Producing(false) || d.Appending?
    ensures var end := Exec(events + [Cancelled(data), DriverAppends, DriverFinishes], maxBuffer);
            && end.Some? && end.value.run.done
            && end.value.history == Exec(events, maxBuffer).value.history + [ErrorFrame(data)]
  {
    var a, b, c := events + [Cancelled(data)], events + [Cancelled(data), DriverAppends],
                   events + [Cancelled(data), DriverAppends, DriverFinishes];
    assert a[..|a| - 1] == events && b[..|b| - 1] == a && c[..|c| - 1] == b;
    assert Exec(a, maxBuffer).Some?;
    assert Exec(b, maxBuffer).Some?;
  }

  /** Where a cancellation falls decides everything: after it, a run that is not over yet can still
      become done exactly when the driver had started and was inside the `try`. */
  lemma CancelledRunCanFinishIff(events: seq<Event>, data: string, maxBuffer: nat)
    requires Exec(events, maxBuffer).Some? && Exec(events + [Cancelled(data)], maxBuffer).Some?
    requires Exec(events, maxBuffer).value.driver != Finished
    ensures (exists more :: var end := Exec(events + [Cancelled(data)] + more, maxBuffer);
                            end.Some? && end.value.run.done) <==>
            var driver := Exec(events, maxBuffer).value.driver;
            driver == Producing(false) || driver.Appending?
  {
    var p := Exec(events, maxBuffer).value;
    var a := events + [Cancelled(data)];
    assert a[..|a| - 1] == events;
    if p.driver == Producing(false) || p.driver.Appending? {
      CancelledRunFinishes(events, data, maxBuffer);
      var more := [DriverAppends, DriverFinishes];
      assert a + more == events + [Cancelled(data), DriverAppends, DriverFinishes];
      assert Exec(a + more, maxBuffer).value.run.done;
    } else {
      assert Exec(a, maxBuffer).value.driver == Killed;
      forall more | Exec(a + more, maxBuffer).Some? ensures !Exec(a + more, maxBuffer).value.run.done {
        KilledRunNeverFinishes(a, more, maxBuffer);
      }
    }
  }
}
