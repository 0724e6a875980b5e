/** Values shared by every component: optional values and fallible results. */
module Wrappers {
  datatype Option<+T> = None | Some(value: T)

  datatype Result<+T, +E> = Success(value: T) | Failure(error: E)
}

/** Chat messages as the ReAct developer keeps them in `dev_messages`, and what it means for
    tool calls and tool results to be paired.

    A tool node answers the calls of the last AI message in call order, one result per call, so
    pairing is positional: the result of call `j` of the AI message at `p` stands at `p + 1 + j`. */
module Messages {
  datatype ToolCall = ToolCall(id: string, request: string)

  datatype Message =
    | System(text: string)
    | Human(text: string)
    | AI(text: string, calls: seq<ToolCall>)
    | Tool(callId: string, body: string)

  predicate IsCallingAi(m: Message) {
    m.AI? && m.calls != []
  }

  /** `results` answers the calls of `ai`, each exactly once and in order. */
  predicate Answers(ai: Message, results: seq<Message>)
    requires ai.AI?
  {
    && |results| == |ai.calls|
    && forall k | 0 <= k < |results| :: results[k].Tool? && results[k].callId == ai.calls[k].id
  }

  /** The message at `i` is the result of a call made by the AI message at `p`, with nothing but
      other tool results in between. */
  predicate IsOwner(ms: seq<Message>, p: nat, i: nat)
    requires p < i < |ms|
  {
    && ms[p].AI?
    && ms[i].Tool?
    && i - p - 1 < |ms[p].calls|
    && ms[i].callId == ms[p].calls[i - p - 1].id
    && forall k | p < k < i :: ms[k].Tool?
  }

  /** No tool result is an orphan. */
  ghost predicate NoOrphans(ms: seq<Message>) {
    forall i: nat | i < |ms| && ms[i].Tool? :: exists p: nat | p < i :: IsOwner(ms, p, i)
  }

  /** Call `j` of the AI message at `p` has its result in place. */
  predicate Answered(ms: seq<Message>, p: nat, j: nat)
    requires p < |ms| && ms[p].AI? && j < |ms[p].calls|
  {
    p + 1 + j < |ms| && ms[p + 1 + j].Tool? && ms[p + 1 + j].callId == ms[p].calls[j].id
  }

  ghost predicate FullyAnswered(ms: seq<Message>) {
    forall p: nat, j: nat | p < |ms| && ms[p].AI? && j < |ms[p].calls| :: Answered(ms, p, j)
  }

  /** The transcripts a provider accepts: every tool result belongs to the AI message its run of
      results follows, and every call has its result. */
  ghost predicate Complete(ms: seq<Message>) {
    NoOrphans(ms) && FullyAnswered(ms)
  }

  /** A transcript that stops right after an AI message whose calls have still to be run. */
  ghost predicate AwaitingTools(ms: seq<Message>) {
    ms != [] && IsCallingAi(ms[|ms| - 1]) && Complete(ms[..|ms| - 1])
  }

  lemma OwnerShift(a: seq<Message>, b: seq<Message>, p: nat, i: nat)
    requires p < i < |b|
    ensures IsOwner(a + b, |a| + p, |a| + i) <==> IsOwner(b, p, i)
  {
    var ab := a + b;
    assert ab[|a| + p] == b[p] && ab[|a| + i] == b[i];
    if IsOwner(ab, |a| + p, |a| + i) {
      forall k | p < k < i ensures b[k].Tool? { assert ab[|a| + k] == b[k]; }
    }
  }

  lemma NoOrphansConcat(a: seq<Message>, b: seq<Message>)
    requires NoOrphans(a) && NoOrphans(b)
    ensures NoOrphans(a + b)
  {
    var ab := a + b;
    forall i: nat | i < |ab| && ab[i].Tool? ensures exists p: nat | p < i :: IsOwner(ab, p, i) {
      if i < |a| {
        assert ab[i] == a[i];
        var p: nat :| p < i && IsOwner(a, p, i);
        assert IsOwner(ab, p, i);
      } else {
        assert ab[i] == b[i - |a|];
        var p: nat :| p < i - |a| && IsOwner(b, p, i - |a|);
        OwnerShift(a, b, p, i - |a|);
        assert IsOwner(ab, |a| + p, i);
      }
    }
  }

  lemma NoOrphansPrefix(ms: seq<Message>, h: nat)
    requires NoOrphans(ms) && h <= |ms|
    ensures NoOrphans(ms[..h])
  {
    var a := ms[..h];
    forall i: nat | i < |a| && a[i].Tool? ensures exists p: nat | p < i :: IsOwner(a, p, i) {
      var p: nat :| p < i && IsOwner(ms, p, i);
      assert IsOwner(a, p, i);
    }
  }

  /** A suffix keeps its owners as long as it does not start inside a block. */
  lemma NoOrphansSuffix(ms: seq<Message>, s: nat)
    requires NoOrphans(ms) && s <= |ms|
    requires s < |ms| ==> !ms[s].Tool?
    ensures NoOrphans(ms[s..])
  {
    var b := ms[s..];
    forall i: nat | i < |b| && b[i].Tool? ensures exists p: nat | p < i :: IsOwner(b, p, i) {
      assert ms[s + i].Tool?;
      var q: nat :| q < s + i && IsOwner(ms, q, s + i);
      assert s <= q;
      assert IsOwner(b, q - s, i);
    }
  }

  lemma FullyAnsweredConcat(a: seq<Message>, b: seq<Message>)
    requires FullyAnswered(a) && FullyAnswered(b)
    ensures FullyAnswered(a + b)
  {
    var ab := a + b;
    forall p: nat, j: nat | p < |ab| && ab[p].AI? && j < |ab[p].calls| ensures Answered(ab, p, j) {
      if p < |a| {
        assert Answered(a, p, j);
      } else {
        assert Answered(b, p - |a|, j);
      }
    }
  }

  /** One AI message with its results, or one message that makes no calls. */
  lemma BlockIsPaired(first: Message, results: seq<Message>)
    requires !first.Tool?
    requires if first.AI? then Answers(first, results) else results == []
    ensures NoOrphans([first] + results) && FullyAnswered([first] + results)
  {
    var block := [first] + results;
    assert forall k: nat | 0 < k < |block| :: block[k] == results[k - 1];
    forall i: nat | i < |block| && block[i].Tool?
      ensures exists p: nat | p < i :: IsOwner(block, p, i)
    {
      assert IsOwner(block, 0, i);
    }
  }

  lemma CompleteSnoc(ms: seq<Message>, m: Message)
    requires Complete(ms)
    requires m.System? || m.Human? || (m.AI? && m.calls == [])
    ensures Complete(ms + [m])
  {
    BlockIsPaired(m, []);
    assert [m] + [] == [m];
    NoOrphansConcat(ms, [m]);
    FullyAnsweredConcat(ms, [m]);
  }

  /** Running the tools closes the block the last AI message opened. */
  lemma CompleteAfterTools(ms: seq<Message>, results: seq<Message>)
    requires AwaitingTools(ms)
    requires Answers(ms[|ms| - 1], results)
    ensures Complete(ms + results)
  {
    var before, ai := ms[..|ms| - 1], ms[|ms| - 1];
    BlockIsPaired(ai, results);
    NoOrphansConcat(before, [ai] + results);
    FullyAnsweredConcat(before, [ai] + results);
    assert ms + results == before + ([ai] + results);
  }
}
