/** The event buffer of one detached run: frames are stamped with their position in the run and the
    oldest ones are trimmed. */
module RunBuffer {
  import Decimal

  datatype Frame = Frame(event: string, data: string)

  datatype Stamped = Stamped(id: string, frame: Frame)

  /** The frame at position `n` of a run, as subscribers receive it. */
  function Stamp(n: nat, f: Frame): Stamped {
    Stamped(Decimal.Str(n), f)
  }

  /** The frames of `history` at `from`, `from + 1`, ..., `to - 1`. */
  function StampRange(history: seq<Frame>, from: nat, to: nat): seq<Stamped>
    requires from <= to <= |history|
  {
    seq(to - from, i requires 0 <= i < to - from => Stamp(from + i, history[from + i]))
  }

  datatype RunState = RunState(events: seq<Stamped>, baseSeq: nat, done: bool)
  {
    function End(): nat {
      baseSeq + |events|
    }

    function Append(f: Frame, maxBuffer: nat): RunState {
      var events' := events + [Stamp(End(), f)];
      var drop := if |events'| > maxBuffer then |events'| - maxBuffer else 0;
      RunState(events'[drop..], baseSeq + drop, done)
    }

    /** What a subscriber at `cursor` copies out of the buffer. */
    function From(cursor: int): seq<Stamped> {
      var start := cursor - baseSeq;
      if start < 0 then events
      else if start <= |events| then events[start..]
      else []
    }
  }

  /** The buffer of a run whose frames so far are `history`. */
  predicate Buffers(r: RunState, history: seq<Frame>, maxBuffer: nat) {
    && r.baseSeq == (if |history| <= maxBuffer then 0 else |history| - maxBuffer)
    && r.events == StampRange(history, r.baseSeq, |history|)
  }

  lemma AppendBuffers(r: RunState, history: seq<Frame>, f: Frame, maxBuffer: nat)
    requires Buffers(r, history, maxBuffer)
    ensures Buffers(r.Append(f, maxBuffer), history + [f], maxBuffer)
    ensures r.Append(f, maxBuffer).baseSeq >= r.baseSeq
  {
    var history' := history + [f];
    assert r.events + [Stamp(r.End(), f)] == StampRange(history', r.baseSeq, |history'|);
  }

  /** A copy out of the buffer is the rest of the history, from the cursor or from the oldest frame
      that is left. */
  lemma FromIsRest(r: RunState, history: seq<Frame>, maxBuffer: nat, cursor: int)
    requires Buffers(r, history, maxBuffer)
    ensures r.End() == |history|
    ensures var from := if cursor < r.baseSeq then r.baseSeq else if cursor <= |history| then cursor else |history|;
            r.From(cursor) == StampRange(history, from, |history|)
  {
  }

  /** A run handle. The history is what the buffer would hold if nothing were ever trimmed. */
  class Run {
    const taskId: string
    var events: seq<Stamped>
    var baseSeq: nat
    var done: bool
    ghost var history: seq<Frame>

    constructor (taskId: string)
      ensures this.taskId == taskId && events == [] && baseSeq == 0 && !done && history == []
    {
      this.taskId := taskId;
      events, baseSeq, done, history := [], 0, false, [];
    }

    ghost function State(): RunState
      reads this
    {
      RunState(events, baseSeq, done)
    }

    ghost predicate Valid(maxBuffer: nat)
      reads this
    {
      Buffers(State(), history, maxBuffer)
    }

    /** One critical section of the driver: stamp, append, trim. */
    method Append(f: Frame, maxBuffer: nat)
      requires Valid(maxBuffer)
      modifies this`events, this`baseSeq, this`history
      ensures Valid(maxBuffer)
      ensures history == old(history) + [f]
      ensures State() == old(State()).Append(f, maxBuffer)
    {
      ghost var after := State().Append(f, maxBuffer);
      AppendBuffers(State(), history, f, maxBuffer);
      history := history + [f];
      var n := baseSeq + |events|;
      events := events + [Stamp(n, f)];
      if |events| > maxBuffer {
        var drop := |events| - maxBuffer;
        events := events[drop..];
        baseSeq := baseSeq + drop;
      }
      assert events == after.events && State() == after;
    }

    /** The last critical section of the driver. */
    method Finish()
      modifies this`done
      ensures done
    {
      done := true;
    }

    /** The critical section of a subscriber that has something to do: the history from its cursor
        on, or from the oldest frame the buffer still holds, and whether that is all there will
        ever be. */
    method Snapshot(cursor: int, ghost maxBuffer: nat) returns (frames: seq<Stamped>, finished: bool, end: nat)
      requires Valid(maxBuffer)
      ensures end == |history| && finished == done
      ensures var oldest := if |history| <= maxBuffer then 0 else |history| - maxBuffer;
              var from := if cursor < oldest then oldest else if cursor <= end then cursor else end;
              frames == StampRange(history, from, end)
      ensures frames == State().From(cursor) && end == State().End()
    {
      FromIsRest(State(), history, maxBuffer, cursor);
      var start := cursor - baseSeq;
      if start < 0 {
        frames := events;
      } else if start <= |events| {
        frames := events[start..];
      } else {
        frames := [];
      }
      finished := done;
      end := baseSeq + |events|;
    }
  }
}
