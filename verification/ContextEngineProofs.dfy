/** What compression guarantees: the shape and size of the result, when compressing twice is
    compressing once, and which tool calls and results survive together. */
module ContextEngineProofs {
  import opened Wrappers
  import opened Messages
  import opened ContextEngine
  import Decimal
  import Tokens

  /** The constructor accepts exactly one budget, non-negative windows that leave room for the
      marker, and in token mode a ratio in (0, 1]. */
  lemma MakeAccepts(
    maxMessages: Option<int>, maxTokens: Option<int>, protectFirst: int, protectLast: int,
    ratio: real, encode: string -> nat)
    ensures Make(maxMessages, maxTokens, protectFirst, protectLast, ratio, encode).Success? <==>
            && protectFirst >= 0 && protectLast >= 0
            && match (maxMessages, maxTokens)
               case (Some(n), None) => protectFirst + 1 + protectLast <= n
               case (None, Some(_)) => 0.0 < ratio <= 1.0
               case _ => false
  {
  }

  /** An engine has the windows and the budget it was made with, and in token mode its tail gets the
      ratio of what the head leaves, rounded down. */
  lemma MadeAsAsked(
    maxMessages: Option<int>, maxTokens: Option<int>, protectFirst: int, protectLast: int,
    ratio: real, encode: string -> nat)
    requires Make(maxMessages, maxTokens, protectFirst, protectLast, ratio, encode).Success?
    ensures var e := Make(maxMessages, maxTokens, protectFirst, protectLast, ratio, encode).value;
            && e.protectFirst == protectFirst && e.protectLast == protectLast && e.encode == encode
            && (maxMessages.Some? ==> e.budget == MaxMessages(maxMessages.value))
            && (maxTokens.Some? ==> e.budget == MaxTokens(maxTokens.value))
            && (maxTokens.Some? ==> forall left: nat ::
                  e.share(left) as real <= left as real * ratio < e.share(left) as real + 1.0)
  {
    if maxTokens.Some? {
      var e := Make(maxMessages, maxTokens, protectFirst, protectLast, ratio, encode).value;
      forall left: nat ensures e.share(left) as real <= left as real * ratio < e.share(left) as real + 1.0 {
        assert e.share(left) == Scale(left, ratio);
        ScaleRoundsDown(left, ratio);
      }
    }
  }

  lemma ScaleRoundsDown(left: nat, ratio: real)
    requires ratio > 0.0
    ensures Scale(left, ratio) as real <= left as real * ratio < Scale(left, ratio) as real + 1.0
  {
  }

  /** The tokens the tail may use next to a head: the ratio of what the head leaves of the limit,
      rounded down, and nothing when it leaves nothing. */
  lemma TailBudgetIs(
    e: Engine, limit: int, protectFirst: int, protectLast: int, ratio: real, encode: string -> nat, head: seq<Message>)
    requires Make(None, Some(limit), protectFirst, protectLast, ratio, encode) == Success(e)
    ensures var left, room := limit - Tokens.Count(encode, head), e.TailBudget(head);
            if left <= 0 then room == 0 else room as real <= left as real * ratio < room as real + 1.0
  {
    MadeAsAsked(None, Some(limit), protectFirst, protectLast, ratio, encode);
  }

  // ---------- shape ----------

  /** Order is kept: the result is a prefix of the input, at most one marker, and a suffix; the
      marker counts what is missing. */
  lemma CompressShape(e: Engine, ms: seq<Message>)
    requires e.Valid() && e.Cuts(ms)
    ensures var (h, s) := e.Cut(ms);
            && e.Compress(ms) == ms[..h] + [Marker(s - h)] + ms[s..]
            && |e.Compress(ms)| - 1 + (s - h) == |ms|
            && ms == ms[..h] + e.Middle(ms) + ms[s..]
    ensures e.Apply(ms) == e.Compress(ms)
  {
  }

  /** The marker speaks as the user and says how many messages it stands for. */
  lemma MarkerSays(e: Engine, ms: seq<Message>)
    requires e.Valid() && e.Cuts(ms)
    ensures var (h, s) := e.Cut(ms);
            && h < |e.Compress(ms)|
            && e.Compress(ms)[h] == Human("[context truncated: " + Decimal.Str(s - h) + " messages omitted]")
  {
    CompressShape(e, ms);
  }

  /** In count mode the budget of the constructor always leaves something to drop, the result fits
      it, and the tail is the longest one in its window that does not start with a tool result. */
  lemma CountModeFits(e: Engine, ms: seq<Message>)
    requires e.Valid() && e.budget.MaxMessages?
    ensures e.Cuts(ms) <==> e.ShouldCompress(ms)
    ensures !e.ShouldCompress(e.Compress(ms))
    ensures e.ShouldCompress(ms) ==> |e.Compress(ms)| <= e.protectFirst + 1 + e.protectLast
    ensures e.ShouldCompress(ms) ==>
              forall t: nat | |ms| - e.protectLast <= t < e.Cut(ms).1 :: ms[t].Tool?
    ensures e.ShouldCompress(ms) ==>
              forall k: nat | e.Cut(ms).0 <= k < e.protectFirst :: IsCallingAi(ms[k])
  {
    CutIs(e, ms);
  }

  /** In either mode a list is a fixed point exactly when it is under budget, or the protected bands
      leave nothing between them, or all they leave is a marker for one message. */
  lemma FixedPointIff(e: Engine, ms: seq<Message>)
    requires e.Valid()
    ensures e.Compress(ms) == ms <==> !e.ShouldCompress(ms) || e.Middle(ms) == [] || e.Middle(ms) == [Marker(1)]
  {
    if e.Cuts(ms) {
      var (h, s) := e.Cut(ms);
      var head, middle, tail := ms[..h], e.Middle(ms), ms[s..];
      CompressShape(e, ms);
      BetweenIff(head, [Marker(s - h)], middle, tail);
      assert middle == [Marker(s - h)] ==> |middle| == 1;
    }
  }

  lemma BetweenIff(head: seq<Message>, a: seq<Message>, b: seq<Message>, tail: seq<Message>)
    ensures head + a + tail == head + b + tail <==> a == b
  {
    if head + a + tail == head + b + tail {
      assert |a| == |b|;
      assert a == (head + a + tail)[|head|..|head| + |a|];
      assert b == (head + b + tail)[|head|..|head| + |b|];
    }
  }

  /** In count mode nothing longer than the limit is ever sent, nothing within the limit is touched,
      and whatever is longer is cut down to the protected windows and the marker. */
  lemma CountModeKeepsLimit(e: Engine, ms: seq<Message>, n: int)
    requires e.Valid() && e.budget == MaxMessages(n)
    ensures |e.Compress(ms)| <= n && |e.Apply(ms)| <= n
    ensures |ms| <= n ==> e.Compress(ms) == ms && e.Apply(ms) == ms
    ensures |ms| > n ==> |e.Compress(ms)| <= e.protectFirst + 1 + e.protectLast && e.Compress(ms) != ms
  {
    CountModeFits(e, ms);
  }

  /** In token mode nothing within the limit is touched, and whatever is not is cut unless the
      protected bands leave nothing between them. */
  lemma TokenModeActsOnExcess(e: Engine, ms: seq<Message>, n: int)
    requires e.Valid() && e.budget == MaxTokens(n)
    ensures Tokens.Count(e.encode, ms) <= n ==> e.Compress(ms) == ms && e.Apply(ms) == ms
    ensures Tokens.Count(e.encode, ms) > n ==> (e.Cuts(ms) <==> e.Cut(ms).0 < e.Cut(ms).1)
  {
  }

  lemma CountModeIdempotent(e: Engine, ms: seq<Message>)
    requires e.Valid() && e.budget.MaxMessages?
    ensures e.Compress(e.Compress(ms)) == e.Compress(ms)
    ensures e.Apply(e.Apply(ms)) == e.Apply(ms)
  {
    CountModeFits(e, ms);
  }

  // ---------- token mode ----------

  /** Where the tail starts before tool results are trimmed off it. */
  function RawTail(e: Engine, ms: seq<Message>): (t: nat)
    requires e.budget.MaxTokens?
    ensures e.Cut(ms).0 <= t <= e.Cut(ms).1
  {
    var h := e.Cut(ms).0;
    FirstFit(e.encode, ms, h, e.TailBudget(ms[..h]))
  }

  /** The tail before trimming is the longest suffix after the head that fits the tail budget, or
      the newest message alone when even that does not fit. */
  lemma TokenTailIsLongest(e: Engine, ms: seq<Message>, i: nat)
    requires e.Valid() && e.budget.MaxTokens?
    requires e.Cut(ms).0 <= i < |ms|
    ensures var t, room := RawTail(e, ms), e.TailBudget(ms[..e.Cut(ms).0]);
            if t == |ms| - 1 && Tokens.CountMessage(e.encode, ms[|ms| - 1]) > room
            then i < t ==> Tokens.Count(e.encode, ms[i..]) > room
            else Tokens.Count(e.encode, ms[i..]) <= room <==> t <= i
  {
    var t, room := RawTail(e, ms), e.TailBudget(ms[..e.Cut(ms).0]);
    FirstFitIsFirst(e.encode, ms, e.Cut(ms).0, room);
    if t <= i {
      Tokens.CountSuffix(e.encode, ms, t, i);
    }
    assert ms[|ms| - 1..] == [ms[|ms| - 1]];
    Tokens.CountSingle(e.encode, ms[|ms| - 1]);
  }

  /** What the tail costs after trimming. */
  lemma TokenTailCost(e: Engine, ms: seq<Message>)
    requires e.Valid() && e.budget.MaxTokens? && ms != []
    ensures var (h, s) := e.Cut(ms);
            var room, newest := e.TailBudget(ms[..h]), Tokens.CountMessage(e.encode, ms[|ms| - 1]);
            h < |ms| ==>
              Tokens.Count(e.encode, ms[s..]) <= room || (|ms[s..]| <= 1 && Tokens.Count(e.encode, ms[s..]) <= newest)
  {
    var (h, s) := e.Cut(ms);
    if h < |ms| {
      var t := RawTail(e, ms);
      FirstFitIsFirst(e.encode, ms, h, e.TailBudget(ms[..h]));
      Tokens.CountSuffix(e.encode, ms, t, s);
      if t == |ms| - 1 {
        assert ms[t..] == [ms[|ms| - 1]];
        Tokens.CountSingle(e.encode, ms[|ms| - 1]);
      }
    }
  }

  lemma CountOfCut(encode: string -> nat, head: seq<Message>, marker: Message, tail: seq<Message>)
    ensures Tokens.Count(encode, head + [marker] + tail) ==
            Tokens.Count(encode, head) + Tokens.CountMessage(encode, marker) + Tokens.Count(encode, tail)
  {
    Tokens.CountConcat(encode, head + [marker], tail);
    Tokens.CountConcat(encode, head, [marker]);
    Tokens.CountSingle(encode, marker);
  }

  lemma CompressIs(e: Engine, ms: seq<Message>)
    requires e.Cuts(ms)
    ensures var (h, s) := e.Cut(ms); e.Compress(ms) == ms[..h] + [Marker(s - h)] + ms[s..]
  {
  }

  lemma CompressCost(e: Engine, ms: seq<Message>)
    requires e.Cuts(ms)
    ensures var (h, s) := e.Cut(ms);
            Tokens.Count(e.encode, e.Compress(ms)) ==
            Tokens.Count(e.encode, ms[..h]) + Tokens.CountMessage(e.encode, Marker(s - h)) +
            Tokens.Count(e.encode, ms[s..])
  {
    var (h, s) := e.Cut(ms);
    CompressIs(e, ms);
    CountOfCut(e.encode, ms[..h], Marker(s - h), ms[s..]);
  }

  /** The result costs at most the head, the marker, and the larger of the tail budget and the
      newest message. */
  lemma TokenModeCost(e: Engine, ms: seq<Message>)
    requires e.Valid() && e.budget.MaxTokens? && e.Cuts(ms)
    ensures var (h, s) := e.Cut(ms);
            var head, room := Tokens.Count(e.encode, ms[..h]), e.TailBudget(ms[..h]);
            var newest := Tokens.CountMessage(e.encode, ms[|ms| - 1]);
            var marker := Tokens.CountMessage(e.encode, Marker(s - h));
            Tokens.Count(e.encode, e.Compress(ms)) <= head + marker + (if room < newest then newest else room)
  {
    CompressCost(e, ms);
    TokenTailCost(e, ms);
  }

  /** So it is under budget, and stays as it is, when the newest message fits its share and the
      head, the share and the marker fit the limit. */
  lemma TokenModeSettles(e: Engine, ms: seq<Message>)
    requires e.Valid() && e.budget.MaxTokens? && e.Cuts(ms)
    requires var (h, s) := e.Cut(ms);
             var room := e.TailBudget(ms[..h]);
             && Tokens.CountMessage(e.encode, ms[|ms| - 1]) <= room
             && Tokens.Count(e.encode, ms[..h]) + room + Tokens.CountMessage(e.encode, Marker(s - h)) <= e.budget.limit
    ensures Tokens.Count(e.encode, e.Compress(ms)) <= e.budget.limit
    ensures e.Compress(e.Compress(ms)) == e.Compress(ms)
  {
    TokenModeCost(e, ms);
  }

  // ---------- when token mode is idempotent ----------

  /** A second cut that finds `rest` behind the head and `room` tokens for it changes nothing: there
      is nothing to cut, or everything fits, or all it would replace is a marker for one message. */
  predicate Spared(encode: string -> nat, rest: seq<Message>, room: nat) {
    || rest == []
    || (!rest[0].Tool? && (|rest| == 1 || Tokens.Count(encode, rest) <= room))
    || (|rest| >= 2 && rest[0] == Marker(1) && !rest[1].Tool?
        && (|rest| == 2 || Tokens.Count(encode, rest[1..]) <= room))
  }

  /** The greedy tail starts right behind the head exactly if all of `rest` fits, and one further
      exactly if only all but its first message do. */
  lemma FitsNext(encode: string -> nat, ms: seq<Message>, h: nat, room: nat, rest: seq<Message>)
    requires h < |ms| && rest == ms[h..]
    ensures var t := FirstFit(encode, ms, h, room);
            var fits := |rest| == 1 || Tokens.Count(encode, rest) <= room;
            && (t == h <==> fits)
            && (t == h + 1 <==> !fits && (|rest| == 2 || Tokens.Count(encode, rest[1..]) <= room))
  {
    assert ms[h + 1..] == rest[1..];
  }

  lemma SkipsNext(ms: seq<Message>, h: nat, t: nat, s: nat)
    requires h <= t <= s <= |ms| && h < |ms| && t < |ms| && s == SkipTools(ms, t)
    ensures s == h <==> t == h && !ms[h].Tool?
    ensures !ms[h].Tool? ==> (s == h + 1 <==> t == h + 1 && !ms[h + 1].Tool?)
  {
    SkipToolsIs(ms, t);
  }

  lemma BetweenCuts(ms: seq<Message>, h: nat, s: nat)
    requires h <= s <= |ms|
    ensures ms[h..s] == [] <==> s == h
    ensures ms[h..s] == [Marker(1)] <==> s == h + 1 && ms[h] == Marker(1)
  {
    assert h < s ==> ms[h..s][0] == ms[h];
  }

  /** What the cuts of a list leave between them, when the head cut separates `kept` from `rest`. */
  lemma MiddleIsSparedIff(e: Engine, ms: seq<Message>, kept: seq<Message>, rest: seq<Message>)
    requires e.budget.MaxTokens?
    requires ms == kept + rest && HeadCut(ms, Min(e.protectFirst, |ms|)) == |kept|
    ensures (e.Middle(ms) == [] || e.Middle(ms) == [Marker(1)]) <==> Spared(e.encode, rest, e.TailBudget(kept))
  {
    var (h, s) := e.Cut(ms);
    BetweenCuts(ms, h, s);
    if rest != [] {
      var room := e.TailBudget(kept);
      assert ms[..h] == kept && ms[h..] == rest;
      FitsNext(e.encode, ms, h, room, rest);
      SkipsNext(ms, h, FirstFit(e.encode, ms, h, room), s);
    }
  }

  /** In token mode such a list is a fixed point exactly if it is under budget or spared. */
  lemma TokenFixedPointIff(e: Engine, ms: seq<Message>, kept: seq<Message>, rest: seq<Message>)
    requires e.Valid() && e.budget.MaxTokens?
    requires ms == kept + rest && HeadCut(ms, Min(e.protectFirst, |ms|)) == |kept|
    ensures e.Compress(ms) == ms <==>
              Tokens.Count(e.encode, ms) <= e.budget.limit || Spared(e.encode, rest, e.TailBudget(kept))
  {
    FixedPointIff(e, ms);
    MiddleIsSparedIff(e, ms, kept, rest);
  }

  /** The head cut of a list that starts with a full head, or with a head and a marker. */
  lemma HeadCutBehind(a: seq<Message>, b: seq<Message>, k: nat)
    requires k <= |b| && (a != [] ==> !IsCallingAi(a[|a| - 1]))
    ensures HeadCut(a + b, |a| + k) == |a| + HeadCut(b, k)
    decreases k
  {
    if k > 0 {
      assert (a + b)[|a| + k - 1] == b[k - 1];
      HeadCutBehind(a, b, k - 1);
    } else {
      assert a != [] ==> (a + b)[|a| - 1] == a[|a| - 1];
    }
  }

  /** Where the second head cut falls, and what it leaves. */
  function SecondKept(e: Engine, head: seq<Message>, n: nat, tail: seq<Message>): (seq<Message>, seq<Message>)
    requires |head| <= e.protectFirst
  {
    if |head| == e.protectFirst then (head, [Marker(n)] + tail)
    else
      var a := head + [Marker(n)];
      var j := HeadCut(tail, Min(e.protectFirst - |a|, |tail|));
      (a + tail[..j], tail[j..])
  }

  /** Whether a second compression spares a head, a marker for `n` messages and a tail. Behind a full
      head the second cut starts at the marker. A trimmed head leaves room in the head window, which
      the second cut fills with the marker and the first messages of the tail. */
  predicate SparedResult(e: Engine, head: seq<Message>, n: nat, tail: seq<Message>)
    requires e.budget.MaxTokens? && |head| <= e.protectFirst
  {
    var marker := Tokens.CountMessage(e.encode, Marker(n));
    || Tokens.Count(e.encode, head) + marker + Tokens.Count(e.encode, tail) <= e.budget.limit
    || if |head| == e.protectFirst then
         tail == [] || n == 1 || marker + Tokens.Count(e.encode, tail) <= e.TailBudget(head)
       else
         var (kept, rest) := SecondKept(e, head, n, tail);
         Spared(e.encode, rest, e.TailBudget(kept))
  }

  predicate StaysCut(e: Engine, ms: seq<Message>)
    requires e.budget.MaxTokens? && e.Cuts(ms)
  {
    var (h, s) := e.Cut(ms);
    SparedResult(e, ms[..h], s - h, ms[s..])
  }

  /** What the proof needs to know about the parts of the first result. */
  lemma CompressedParts(e: Engine, ms: seq<Message>)
    requires e.Valid() && e.budget.MaxTokens? && e.Cuts(ms)
    ensures var (h, s) := e.Cut(ms);
            var head, tail := ms[..h], ms[s..];
            && h < s && h <= e.protectFirst && e.Compress(ms) == head + [Marker(s - h)] + tail
            && (head != [] ==> !IsCallingAi(head[|head| - 1]))
            && (tail != [] ==> !tail[0].Tool?)
            && (|tail| <= 1 || Tokens.Count(e.encode, tail) <= e.TailBudget(head))
  {
    CutIs(e, ms);
    TokenTailCost(e, ms);
  }

  /** Behind a full head the second cut finds the marker and a tail that fits. */
  lemma MarkerSparedIff(encode: string -> nat, n: nat, tail: seq<Message>, room: nat)
    requires tail != [] ==> !tail[0].Tool?
    requires |tail| <= 1 || Tokens.Count(encode, tail) <= room
    ensures Spared(encode, [Marker(n)] + tail, room) <==>
            tail == [] || n == 1 || Tokens.CountMessage(encode, Marker(n)) + Tokens.Count(encode, tail) <= room
  {
    var rest := [Marker(n)] + tail;
    assert rest[1..] == tail;
    if Marker(n) == Marker(1) {
      MarkerInjective(n, 1);
    }
  }

  lemma FullHeadCut(head: seq<Message>, rest: seq<Message>, out: seq<Message>)
    requires out == head + rest && (head != [] ==> !IsCallingAi(head[|head| - 1]))
    ensures HeadCut(out, Min(|head|, |out|)) == |head|
  {
    HeadCutBehind(head, rest, 0);
  }

  lemma TrimmedHeadCut(a: seq<Message>, tail: seq<Message>, n: nat, k: nat)
    requires a != [] && !IsCallingAi(a[|a| - 1])
    requires |a| + k == Min(n, |a + tail|)
    ensures k <= |tail| && HeadCut(a + tail, Min(n, |a + tail|)) == |a| + HeadCut(tail, k)
  {
    HeadCutBehind(a, tail, k);
  }

  lemma Regroup(a: seq<Message>, tail: seq<Message>, j: nat)
    requires j <= |tail|
    ensures a + tail == (a + tail[..j]) + tail[j..] && |a + tail[..j]| == |a| + j
  {
  }

  lemma Reassociate(head: seq<Message>, marker: Message, tail: seq<Message>)
    ensures head + [marker] + tail == head + ([marker] + tail)
  {
  }

  lemma SecondHeadCut(e: Engine, head: seq<Message>, n: nat, tail: seq<Message>, out: seq<Message>)
    requires |head| <= e.protectFirst && (head != [] ==> !IsCallingAi(head[|head| - 1]))
    requires out == head + [Marker(n)] + tail
    ensures var (kept, rest) := SecondKept(e, head, n, tail);
            out == kept + rest && HeadCut(out, Min(e.protectFirst, |out|)) == |kept|
  {
    var marker := Marker(n);
    if |head| == e.protectFirst {
      var rest := [marker] + tail;
      Reassociate(head, marker, tail);
      FullHeadCut(head, rest, out);
    } else {
      var a := head + [marker];
      var k := Min(e.protectFirst - |a|, |tail|);
      assert out == a + tail;
      TrimmedHeadCut(a, tail, e.protectFirst, k);
      Regroup(a, tail, HeadCut(tail, k));
    }
  }

  /** Whether the second cut, behind a full or a trimmed head, finds something to spare. */
  lemma SecondCutSparedIff(e: Engine, head: seq<Message>, n: nat, tail: seq<Message>)
    requires e.budget.MaxTokens? && |head| <= e.protectFirst
    requires tail != [] ==> !tail[0].Tool?
    requires |tail| <= 1 || Tokens.Count(e.encode, tail) <= e.TailBudget(head)
    ensures var (kept, rest) := SecondKept(e, head, n, tail);
            SparedResult(e, head, n, tail) <==>
              || Tokens.Count(e.encode, head) + Tokens.CountMessage(e.encode, Marker(n)) +
                 Tokens.Count(e.encode, tail) <= e.budget.limit
              || Spared(e.encode, rest, e.TailBudget(kept))
  {
    if |head| == e.protectFirst {
      MarkerSparedIff(e.encode, n, tail, e.TailBudget(head));
    }
  }

  /** The same said of the head, the marker and the tail. */
  lemma SparedResultIff(e: Engine, head: seq<Message>, n: nat, tail: seq<Message>)
    requires e.budget.MaxTokens? && |head| <= e.protectFirst
    requires tail != [] ==> !tail[0].Tool?
    requires |tail| <= 1 || Tokens.Count(e.encode, tail) <= e.TailBudget(head)
    ensures var (kept, rest) := SecondKept(e, head, n, tail);
            var out := head + [Marker(n)] + tail;
            SparedResult(e, head, n, tail) <==>
              Tokens.Count(e.encode, out) <= e.budget.limit || Spared(e.encode, rest, e.TailBudget(kept))
  {
    SecondCutSparedIff(e, head, n, tail);
    CountOfCut(e.encode, head, Marker(n), tail);
  }

  /** Token mode compresses twice as it compresses once exactly if the first compression cuts nothing
      or leaves what the second one spares. Both are conditions on the input. */
  lemma TokenModeIdempotentIff(e: Engine, ms: seq<Message>)
    requires e.Valid() && e.budget.MaxTokens?
    ensures e.Compress(e.Compress(ms)) == e.Compress(ms) <==> !e.Cuts(ms) || StaysCut(e, ms)
  {
    var out := e.Compress(ms);
    if e.Cuts(ms) {
      var (h, s) := e.Cut(ms);
      var head, n, tail := ms[..h], s - h, ms[s..];
      CompressedParts(e, ms);
      SecondHeadCut(e, head, n, tail, out);
      SparedResultIff(e, head, n, tail);
      var (kept, rest) := SecondKept(e, head, n, tail);
      TokenFixedPointIff(e, out, kept, rest);
    } else {
      assert out == ms;
    }
  }

  /** The cut of three messages of which the newest alone exceeds the tail budget. */
  lemma CutOversizedNewest(e: Engine, a: Message, b: Message, newest: Message)
    requires e.budget.MaxTokens? && e.protectFirst == 0 && !newest.Tool?
    requires Tokens.CountMessage(e.encode, newest) > e.TailBudget([])
    ensures e.Cut([a, b, newest]) == (0, 2)
  {
    var ms := [a, b, newest];
    assert ms[1..] == [b, newest] && ms[2..] == [newest] && ms[..0] == [];
    Tokens.CountSuffix(e.encode, ms, 1, 2);
    Tokens.CountSingle(e.encode, newest);
    FirstFitUnique(e.encode, ms, 0, e.TailBudget([]), 2);
  }

  /** Token mode is not idempotent on every input: a newest message that alone is over the budget
      is compressed again, and the second marker forgets what the first one counted. */
  lemma TokenModeNotIdempotent(e: Engine, a: Message, b: Message, newest: Message)
    requires e.Valid() && e.budget.MaxTokens? && e.protectFirst == 0 && !newest.Tool?
    requires Tokens.CountMessage(e.encode, newest) > e.budget.limit
    ensures e.Compress([a, b, newest]) == [Marker(2), newest]
    ensures e.Compress(e.Compress([a, b, newest])) != e.Compress([a, b, newest])
  {
    var ms := [a, b, newest];
    CutOversizedNewest(e, a, b, newest);
    OverBudget(e, [a, b], newest);
    assert [a, b] + [newest] == ms;
    CompressShape(e, ms);
    assert ms[2..] == [newest] && ms[..0] == [];
    assert [] + [Marker(2)] + [newest] == [Marker(2), newest];
    OversizedIsNotSpared(e, newest);
    TokenModeIdempotentIff(e, ms);
  }

  lemma OversizedIsNotSpared(e: Engine, newest: Message)
    requires e.Valid() && e.budget.MaxTokens? && e.protectFirst == 0
    requires Tokens.CountMessage(e.encode, newest) > e.budget.limit
    ensures !SparedResult(e, [], 2, [newest])
  {
    Tokens.CountSingle(e.encode, newest);
  }

  lemma OverBudget(e: Engine, older: seq<Message>, newest: Message)
    requires e.budget.MaxTokens? && Tokens.CountMessage(e.encode, newest) > e.budget.limit
    ensures e.ShouldCompress(older + [newest])
  {
    Tokens.CountConcat(e.encode, older, [newest]);
    Tokens.CountSingle(e.encode, newest);
  }

  // ---------- pairing ----------

  lemma CutKeepsOwners(ms: seq<Message>, h: nat, marker: Message, s: nat)
    requires NoOrphans(ms) && h <= s <= |ms| && !marker.Tool?
    requires s < |ms| ==> !ms[s].Tool?
    ensures NoOrphans(ms[..h] + [marker] + ms[s..])
  {
    var head, tail := ms[..h], ms[s..];
    NoOrphansPrefix(ms, h);
    NoOrphansSuffix(ms, s);
    assert NoOrphans([marker]);
    NoOrphansConcat(head, [marker]);
    NoOrphansConcat(head + [marker], tail);
  }

  lemma TailStartsWithNoResult(e: Engine, ms: seq<Message>)
    ensures e.Cut(ms).1 < |ms| ==> !ms[e.Cut(ms).1].Tool?
  {
    CutIs(e, ms);
  }

  lemma CutResultKeepsOwners(e: Engine, ms: seq<Message>)
    requires NoOrphans(ms) && e.Cut(ms).0 < e.Cut(ms).1
    ensures var (h, s) := e.Cut(ms); NoOrphans(ms[..h] + [Marker(s - h)] + ms[s..])
  {
    var (h, s) := e.Cut(ms);
    var marker := Marker(s - h);
    TailStartsWithNoResult(e, ms);
    CutKeepsOwners(ms, h, marker, s);
  }

  /** Compression never creates an orphan, whatever the budget. */
  lemma CompressKeepsOwners(e: Engine, ms: seq<Message>)
    requires e.Valid() && NoOrphans(ms)
    ensures NoOrphans(e.Compress(ms)) && NoOrphans(e.Apply(ms))
  {
    var out := e.Compress(ms);
    assert e.Apply(ms) == out;
    if e.Cuts(ms) {
      CutResultKeepsOwners(e, ms);
      CompressShape(e, ms);
    } else {
      assert out == ms;
    }
  }

  lemma CompleteSuffix(ms: seq<Message>, s: nat)
    requires Complete(ms) && s <= |ms|
    requires s < |ms| ==> !ms[s].Tool?
    ensures Complete(ms[s..])
  {
    NoOrphansSuffix(ms, s);
    forall p: nat, j: nat | p < |ms[s..]| && ms[s..][p].AI? && j < |ms[s..][p].calls|
      ensures Answered(ms[s..], p, j)
    {
      assert Answered(ms, s + p, j);
    }
  }

  /** Cutting a complete transcript off at `h` leaves a call open exactly when a result follows. */
  lemma PrefixFullyAnsweredIff(ms: seq<Message>, h: nat)
    requires Complete(ms) && h < |ms|
    ensures FullyAnswered(ms[..h]) <==> !ms[h].Tool?
  {
    var a := ms[..h];
    if ms[h].Tool? {
      var p: nat :| p < h && IsOwner(ms, p, h);
      assert a[p] == ms[p] && !Answered(a, p, h - p - 1);
    } else {
      forall p: nat, j: nat | p < |a| && a[p].AI? && j < |a[p].calls| ensures Answered(a, p, j) {
        assert Answered(ms, p, j);
        assert h <= p + 1 + j ==> !Answered(ms, p, h - p - 1);
      }
    }
  }

  /** The head window of the engine ends strictly inside a block of two or more results. */
  predicate HeadCutsBlock(e: Engine, ms: seq<Message>) {
    var n := Min(e.protectFirst, |ms|);
    0 < n < |ms| && ms[n - 1].Tool? && ms[n].Tool?
  }

  /** The head cut has a tool result on its right exactly when the head window ends inside a block. */
  lemma HeadCutInsideBlock(e: Engine, ms: seq<Message>)
    requires e.Valid() && Complete(ms)
    requires e.Cut(ms).0 < |ms|
    ensures ms[e.Cut(ms).0].Tool? <==> HeadCutsBlock(e, ms)
  {
    var n := Min(e.protectFirst, |ms|);
    var h := e.Cut(ms).0;
    CutIs(e, ms);
    if n > 0 && IsCallingAi(ms[n - 1]) {
      assert h <= n - 1;
      assert IsCallingAi(ms[h]);
      assert !ms[n - 1].Tool?;
    } else {
      assert h == n;
      if h < |ms| && ms[h].Tool? {
        var p: nat :| p < h && IsOwner(ms, p, h);
        assert p != h - 1;
        assert ms[h - 1].Tool?;
      }
    }
  }

  /** On a complete transcript, compression leaves a tool call without its result exactly when it
      cuts at all and the head window ends strictly inside a block of results. */
  lemma CompressAnsweredIff(e: Engine, ms: seq<Message>)
    requires e.Valid() && Complete(ms)
    ensures FullyAnswered(e.Compress(ms)) <==> !(e.Cuts(ms) && HeadCutsBlock(e, ms))
  {
    if e.Cuts(ms) {
      var (h, s) := e.Cut(ms);
      var out, head, marker := e.Compress(ms), ms[..h], Marker(s - h);
      HeadCutInsideBlock(e, ms);
      CutIs(e, ms);
      if ms[h].Tool? {
        var p: nat :| p < h && IsOwner(ms, p, h);
        assert out[p] == ms[p] && out[h] == marker;
        assert !Answered(out, p, h - p - 1);
      } else {
        PrefixFullyAnsweredIff(ms, h);
        CompleteSuffix(ms, s);
        BlockIsPaired(marker, []);
        assert [marker] + [] == [marker];
        FullyAnsweredConcat(head, [marker]);
        FullyAnsweredConcat(head + [marker], ms[s..]);
      }
    }
  }

  /** With at most one call per AI message every call that survives keeps its result. */
  lemma SingleCallsSurvive(e: Engine, ms: seq<Message>)
    requires e.Valid() && Complete(ms)
    requires forall m | m in ms && m.AI? :: |m.calls| <= 1
    ensures Complete(e.Compress(ms)) && Complete(e.Apply(ms))
  {
    CompressKeepsOwners(e, ms);
    CompressAnsweredIff(e, ms);
    assert !HeadCutsBlock(e, ms);
  }
}
