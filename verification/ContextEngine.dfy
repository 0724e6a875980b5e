/** The windowed context engine: when a message list exceeds its budget, the middle is replaced by
    one marker, and the two cuts are moved so that tool calls and tool results stay paired.

    `Partition` runs the loops of the source; `Cut` says where the cuts are without them. */
module ContextEngine {
  import opened Wrappers
  import opened Messages
  import Decimal
  import Tokens

  datatype Budget = MaxMessages(limit: int) | MaxTokens(limit: int)

  datatype ConfigError =
    | NotExactlyOneBudget
    | NegativeProtectFirst
    | NegativeProtectLast
    | WindowExceedsBudget
    | RatioOutOfRange

  /** The message that stands for `n` omitted ones. */
  function Marker(n: nat): Message {
    Human("[context truncated: " + Decimal.Str(n) + " messages omitted]")
  }

  lemma MarkerInjective(m: nat, n: nat)
    requires Marker(m) == Marker(n)
    ensures m == n
  {
    var prefix, suffix := "[context truncated: ", " messages omitted]";
    var a, b := Marker(m).text, Marker(n).text;
    assert Decimal.Str(m) == a[|prefix|..|a| - |suffix|];
    assert Decimal.Str(n) == b[|prefix|..|b| - |suffix|];
    Decimal.StrInjective(m, n);
  }

  // ---------- where the cuts fall ----------

  /** The head cut: `k`, moved left over AI messages that still wait for results. */
  function HeadCut(ms: seq<Message>, k: nat): (h: nat)
    requires k <= |ms|
    ensures h <= k
  {
    if k > 0 && IsCallingAi(ms[k - 1]) then HeadCut(ms, k - 1) else k
  }

  lemma {:induction false} HeadCutIs(ms: seq<Message>, k: nat)
    requires k <= |ms|
    ensures var h := HeadCut(ms, k);
            && (h > 0 ==> !IsCallingAi(ms[h - 1]))
            && forall i | h <= i < k :: IsCallingAi(ms[i])
  {
    if k > 0 && IsCallingAi(ms[k - 1]) {
      HeadCutIs(ms, k - 1);
    }
  }

  /** The tail cut: `s`, moved right over tool results. */
  function SkipTools(ms: seq<Message>, s: nat): (t: nat)
    requires s <= |ms|
    ensures s <= t <= |ms|
    decreases |ms| - s
  {
    if s < |ms| && ms[s].Tool? then SkipTools(ms, s + 1) else s
  }

  lemma {:induction false} SkipToolsIs(ms: seq<Message>, s: nat)
    requires s <= |ms|
    ensures var t := SkipTools(ms, s);
            && (t < |ms| ==> !ms[t].Tool?)
            && forall i | s <= i < t :: ms[i].Tool?
    decreases |ms| - s
  {
    if s < |ms| && ms[s].Tool? {
      SkipToolsIs(ms, s + 1);
    }
  }

  /** The first position from `s` on whose suffix costs at most `budget`; the newest message
      alone when no suffix does. */
  function FirstFit(encode: string -> nat, ms: seq<Message>, s: nat, budget: nat): (t: nat)
    requires s <= |ms|
    ensures s <= t <= |ms|
    ensures s < |ms| ==> t < |ms|
    decreases |ms| - s
  {
    if s + 1 >= |ms| || Tokens.Count(encode, ms[s..]) <= budget then s
    else FirstFit(encode, ms, s + 1, budget)
  }

  lemma {:induction false} FirstFitIsFirst(encode: string -> nat, ms: seq<Message>, s: nat, budget: nat)
    requires s <= |ms|
    ensures var t := FirstFit(encode, ms, s, budget);
            && (t + 1 < |ms| ==> Tokens.Count(encode, ms[t..]) <= budget)
            && forall i | s <= i < t :: Tokens.Count(encode, ms[i..]) > budget
    decreases |ms| - s
  {
    if s + 1 < |ms| && Tokens.Count(encode, ms[s..]) > budget {
      FirstFitIsFirst(encode, ms, s + 1, budget);
    }
  }

  /** `FirstFit` is the only position with these properties. */
  lemma {:induction false} FirstFitUnique(encode: string -> nat, ms: seq<Message>, s: nat, budget: nat, t: nat)
    requires s <= t < |ms|
    requires t == |ms| - 1 || Tokens.Count(encode, ms[t..]) <= budget
    requires t == s || Tokens.Count(encode, ms[t - 1..]) > budget
    ensures FirstFit(encode, ms, s, budget) == t
    decreases t - s
  {
    if s < t {
      Tokens.CountSuffix(encode, ms, s, t - 1);
      FirstFitUnique(encode, ms, s + 1, budget, t);
    }
  }

  function Min(a: nat, b: nat): nat {
    if a <= b then a else b
  }

  /** `int(left * ratio)` of what is left, for the ratios the constructor accepts. */
  function Scale(left: nat, ratio: real): (n: nat)
    ensures 0.0 < ratio <= 1.0 ==> n <= left
  {
    if ratio <= 0.0 then 0
    else
      var scaled := left as real * ratio;
      assert scaled >= 0.0;
      assert ratio <= 1.0 ==> scaled <= left as real;
      scaled.Floor
  }

  /** `share(left)` is the part of the tokens the head leaves that the tail may use. */
  datatype Engine = Engine(
    budget: Budget,
    protectFirst: nat,
    protectLast: nat,
    share: nat -> nat,
    encode: string -> nat)
  {
    ghost predicate Valid() {
      match budget
      case MaxMessages(n) => n >= protectFirst + protectLast + 1
      case MaxTokens(_) => forall left: nat :: share(left) <= left
    }

    predicate ShouldCompress(ms: seq<Message>) {
      match budget
      case MaxMessages(n) => |ms| > n
      case MaxTokens(n) => Tokens.Count(encode, ms) > n
    }

    /** The tokens the tail may use next to `head`; nothing when the head alone is too large. */
    function TailBudget(head: seq<Message>): nat
      requires budget.MaxTokens?
    {
      var left := budget.limit - Tokens.Count(encode, head);
      if left <= 0 then 0 else share(left)
    }

    /** `head == ms[..h]` and `tail == ms[s..]`. */
    function Cut(ms: seq<Message>): (c: (nat, nat))
      ensures c.0 <= Min(protectFirst, |ms|) && c.1 <= |ms|
      ensures budget.MaxTokens? ==> c.0 <= c.1
    {
      var h := HeadCut(ms, Min(protectFirst, |ms|));
      var s := match budget
        case MaxMessages(_) => |ms| - Min(protectLast, |ms|)
        case MaxTokens(_) => FirstFit(encode, ms, h, TailBudget(ms[..h]));
      (h, SkipTools(ms, s))
    }

    function Middle(ms: seq<Message>): seq<Message>
    {
      var (h, s) := Cut(ms);
      if h <= s then ms[h..s] else []
    }

    function Compress(ms: seq<Message>): seq<Message>
    {
      var (h, s) := Cut(ms);
      if !ShouldCompress(ms) || s <= h then ms
      else ms[..h] + [Marker(s - h)] + ms[s..]
    }

    /** What callers use; `Compress` already returns its input when nothing is to be done. */
    function Apply(ms: seq<Message>): seq<Message>
    {
      if !ShouldCompress(ms) then ms else Compress(ms)
    }

    /** `Compress` changes the list. */
    predicate Cuts(ms: seq<Message>)
    {
      ShouldCompress(ms) && Cut(ms).0 < Cut(ms).1
    }
  }

  /** The cuts never separate an AI message from results on its right, nor start the tail with a
      result. */
  lemma CutIs(e: Engine, ms: seq<Message>)
    ensures var (h, s) := e.Cut(ms);
            && (h > 0 ==> !IsCallingAi(ms[h - 1]))
            && (forall i | h <= i < Min(e.protectFirst, |ms|) :: IsCallingAi(ms[i]))
            && (s < |ms| ==> !ms[s].Tool?)
            && (e.budget.MaxMessages? ==> forall i | |ms| - Min(e.protectLast, |ms|) <= i < s :: ms[i].Tool?)
  {
    var h := e.Cut(ms).0;
    HeadCutIs(ms, Min(e.protectFirst, |ms|));
    if e.budget.MaxMessages? {
      SkipToolsIs(ms, |ms| - Min(e.protectLast, |ms|));
    } else {
      SkipToolsIs(ms, FirstFit(e.encode, ms, h, e.TailBudget(ms[..h])));
    }
  }

  /** The checks of the constructor. */
  function Make(
    maxMessages: Option<int>, maxTokens: Option<int>, protectFirst: int, protectLast: int,
    targetRatio: real, encode: string -> nat): (r: Result<Engine, ConfigError>)
    ensures r.Success? ==> r.value.Valid()
  {
    if maxMessages.None? == maxTokens.None? then Failure(NotExactlyOneBudget)
    else if protectFirst < 0 then Failure(NegativeProtectFirst)
    else if protectLast < 0 then Failure(NegativeProtectLast)
    else if maxMessages.Some? && maxMessages.value < protectFirst + protectLast + 1 then
      Failure(WindowExceedsBudget)
    else if maxTokens.Some? && !(0.0 < targetRatio <= 1.0) then Failure(RatioOutOfRange)
    else
      var budget := if maxMessages.Some? then MaxMessages(maxMessages.value) else MaxTokens(maxTokens.value);
      Success(Engine(budget, protectFirst, protectLast, (left: nat) => Scale(left, targetRatio), encode))
  }

  // ---------- the loops of the source ----------

  method TrimHead(ms: seq<Message>, k: nat) returns (head: seq<Message>)
    requires k <= |ms|
    ensures head == ms[..HeadCut(ms, k)]
  {
    head := ms[..k];
    while head != [] && IsCallingAi(head[|head| - 1])
      invariant |head| <= k && head == ms[..|head|]
      invariant HeadCut(ms, |head|) == HeadCut(ms, k)
    {
      head := head[..|head| - 1];
    }
  }

  method TrimTail(window: seq<Message>, ghost ms: seq<Message>, ghost start: nat) returns (tail: seq<Message>)
    requires start <= |ms| && window == ms[start..]
    ensures tail == ms[SkipTools(ms, start)..]
  {
    tail := window;
    ghost var s := start;
    while tail != [] && tail[0].Tool?
      invariant start <= s <= |ms| && tail == ms[s..]
      invariant SkipTools(ms, s) == SkipTools(ms, start)
    {
      tail := tail[1..];
      s := s + 1;
    }
  }

  /** The greedy walk from the newest message back stops exactly where the longest fitting suffix
      starts. */
  method GreedyTail(encode: string -> nat, ms: seq<Message>, h: nat, budget: nat) returns (tail: seq<Message>)
    requires h <= |ms|
    ensures tail == ms[FirstFit(encode, ms, h, budget)..]
  {
    tail := [];
    var used := 0;
    var i := |ms|;
    while i > h
      invariant h <= i <= |ms| && tail == ms[i..] && used == Tokens.Count(encode, tail)
      invariant i + 1 < |ms| ==> used <= budget
    {
      var cost := Tokens.CountMessage(encode, ms[i - 1]);
      assert ms[i - 1..] == [ms[i - 1]] + ms[i..];
      if tail != [] && used + cost > budget {
        break;
      }
      tail := [ms[i - 1]] + tail;
      used := used + cost;
      i := i - 1;
    }
    if h < |ms| {
      FirstFitUnique(encode, ms, h, budget, i);
    }
  }

  method PartitionByTokens(e: Engine, ms: seq<Message>)
    returns (head: seq<Message>, middle: seq<Message>, tail: seq<Message>)
    requires e.budget.MaxTokens?
    ensures head == ms[..e.Cut(ms).0] && tail == ms[e.Cut(ms).1..] && middle == e.Middle(ms)
  {
    head := TrimHead(ms, Min(e.protectFirst, |ms|));
    var h, room := |head|, e.TailBudget(head);
    var window := GreedyTail(e.encode, ms, h, room);
    tail := TrimTail(window, ms, FirstFit(e.encode, ms, h, room));
    middle := ms[h..|ms| - |tail|];
  }

  method Partition(e: Engine, ms: seq<Message>)
    returns (head: seq<Message>, middle: seq<Message>, tail: seq<Message>)
    ensures head == ms[..e.Cut(ms).0] && tail == ms[e.Cut(ms).1..] && middle == e.Middle(ms)
  {
    if e.budget.MaxTokens? {
      head, middle, tail := PartitionByTokens(e, ms);
      return;
    }
    head := TrimHead(ms, Min(e.protectFirst, |ms|));
    var start := |ms| - Min(e.protectLast, |ms|);
    tail := TrimTail(ms[start..], ms, start);
    middle := if |head| <= |ms| - |tail| then ms[|head|..|ms| - |tail|] else [];
  }

  method CompressMessages(e: Engine, ms: seq<Message>) returns (out: seq<Message>)
    ensures out == e.Compress(ms)
  {
    if !e.ShouldCompress(ms) {
      return ms;
    }
    var head, middle, tail := Partition(e, ms);
    if middle == [] {
      return ms;
    }
    out := head + [Marker(|middle|)] + tail;
  }
}
