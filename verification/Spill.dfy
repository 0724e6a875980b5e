/** Oversized tool results are moved to a content-addressed store and replaced by a placeholder with
    a short preview. The digest of a payload is the world's business, so it is a parameter. */
module Spill {
  import opened Wrappers
  import opened Messages
  import Decimal

  const DEFAULT_THRESHOLD := 4000
  const PREVIEW_CHARS := 400
  const REF_LEN := 12
  const OPENING := "[spill:"

  datatype SpillRef = SpillRef(ref: string, size: nat)

  type Digest = string -> string

  type Store = map<string, string>

  function Take(s: string, n: nat): string {
    if |s| <= n then s else s[..n]
  }

  function RefOf(digest: Digest, payload: string): string {
    Take(digest(payload), REF_LEN)
  }

  /** A reference is the first twelve characters of the digest. */
  lemma RefIsADigestPrefix(digest: Digest, payload: string)
    ensures RefOf(digest, payload) <= digest(payload)
    ensures |RefOf(digest, payload)| == if |digest(payload)| < 12 then |digest(payload)| else 12
  {
  }

  /** The first payload stored under a reference stays. */
  function Keep(digest: Digest, store: Store, payload: string): Store {
    var ref := RefOf(digest, payload);
    if ref in store then store else store[ref := payload]
  }

  class InMemorySpillStore {
    const digest: Digest
    var data: Store

    constructor (digest: Digest)
      ensures this.digest == digest && data == map[]
    {
      this.digest := digest;
      data := map[];
    }

    method Put(payload: string) returns (r: SpillRef)
      modifies this
      ensures data == Keep(digest, old(data), payload)
      ensures r == SpillRef(RefOf(digest, payload), |payload|)
    {
      var ref := RefOf(digest, payload);
      if ref !in data {
        data := data[ref := payload];
      }
      r := SpillRef(ref, |payload|);
    }

    method Get(ref: string) returns (payload: Option<string>)
      ensures payload.Some? <==> ref in data
      ensures payload.Some? ==> payload.value == data[ref]
    {
      payload := if ref in data then Some(data[ref]) else None;
    }
  }

  // ---------- placeholders ----------

  /** The index of the last newline, or -1. */
  function LastNewline(s: string): (i: int)
    ensures -1 <= i < |s|
  {
    if s == [] then -1
    else if s[|s| - 1] == '\n' then |s| - 1
    else LastNewline(s[..|s| - 1])
  }

  lemma {:induction false} LastNewlineIs(s: string)
    ensures LastNewline(s) >= 0 ==> s[LastNewline(s)] == '\n'
    ensures forall k | LastNewline(s) < k < |s| :: s[k] != '\n'
  {
    if s != [] && s[|s| - 1] != '\n' {
      LastNewlineIs(s[..|s| - 1]);
    }
  }

  /** The start of a body: cut after a newline where that keeps more than half of what fits. */
  function Preview(body: string): string {
    if |body| <= PREVIEW_CHARS then body
    else
      var head := body[..PREVIEW_CHARS];
      var newline := LastNewline(head);
      if newline > PREVIEW_CHARS / 2 then head[..newline + 1] else head
  }

  /** What stands between the reference and the preview. */
  function Describe(size: nat, shown: nat): string {
    " size=" + Decimal.Str(size) + "] output spilled to store; preview ("
    + Decimal.Str(shown) + "/" + Decimal.Str(size) + " chars):\n"
  }

  function Placeholder(r: SpillRef, preview: string): string {
    OPENING + r.ref + Describe(r.size, |preview|) + preview
  }

  predicate LooksLikePlaceholder(body: string) {
    OPENING <= body
  }

  /** A preview is a prefix of the body that keeps to the cap, whole if the body does. Otherwise it
      fills the cap, or it is the longest run of whole lines that fits. */
  lemma PreviewIsALinePrefix(body: string)
    ensures Preview(body) <= body && |Preview(body)| <= PREVIEW_CHARS
    ensures |body| <= PREVIEW_CHARS ==> Preview(body) == body
    ensures |body| > PREVIEW_CHARS ==> |Preview(body)| > PREVIEW_CHARS / 2
    ensures |Preview(body)| < PREVIEW_CHARS < |body| ==>
              && Preview(body)[|Preview(body)| - 1] == '\n'
              && forall k | |Preview(body)| <= k < PREVIEW_CHARS :: body[k] != '\n'
    ensures |body| > 400 ==>
              ((exists k | 200 < k < 400 :: body[k] == '\n') <==> Preview(body)[|Preview(body)| - 1] == '\n')
  {
    if |body| > PREVIEW_CHARS {
      LastNewlineIs(body[..PREVIEW_CHARS]);
    }
  }

  lemma FourParts(a: string, b: string, c: string, d: string)
    ensures var text := a + b + c + d;
            && a <= text && text[|a|..][..|b|] == b
            && |d| <= |text| && text[|text| - |d|..] == d
  {
    var text := a + b + c + d;
    assert text[|a|..|a| + |b|] == b;
    assert text[|a|..][..|b|] == text[|a|..|a| + |b|];
  }

  lemma PlaceholderLooksLikeOne(r: SpillRef, preview: string)
    ensures LooksLikePlaceholder(Placeholder(r, preview))
    ensures Placeholder(r, preview)[|OPENING|..][..|r.ref|] == r.ref
    ensures var text := Placeholder(r, preview);
            |preview| <= |text| && text[|text| - |preview|..] == preview
  {
    FourParts(OPENING, r.ref, Describe(r.size, |preview|), preview);
  }

  // ---------- spilling ----------

  predicate Spills(threshold: int, m: Message) {
    m.Tool? && |m.body| > threshold && !LooksLikePlaceholder(m.body)
  }

  /** The message that takes the place of `m`. */
  function Spilled(digest: Digest, threshold: int, m: Message): Message {
    if Spills(threshold, m) then
      Tool(m.callId, Placeholder(SpillRef(RefOf(digest, m.body), |m.body|), Preview(m.body)))
    else m
  }

  function StoreAfter(digest: Digest, threshold: int, store: Store, m: Message): Store {
    if Spills(threshold, m) then Keep(digest, store, m.body) else store
  }

  function SpillAll(digest: Digest, threshold: int, ms: seq<Message>): seq<Message> {
    seq(|ms|, i requires 0 <= i < |ms| => Spilled(digest, threshold, ms[i]))
  }

  function StoreAll(digest: Digest, threshold: int, store: Store, ms: seq<Message>): Store {
    if ms == [] then store
    else StoreAfter(digest, threshold, StoreAll(digest, threshold, store, ms[..|ms| - 1]), ms[|ms| - 1])
  }

  method MaybeSpillToolMessage(m: Message, store: InMemorySpillStore, threshold: int) returns (out: Message)
    requires m.Tool?
    modifies store
    ensures out == Spilled(store.digest, threshold, m)
    ensures store.data == StoreAfter(store.digest, threshold, old(store.data), m)
  {
    if |m.body| <= threshold || LooksLikePlaceholder(m.body) {
      return m;
    }
    var ref := store.Put(m.body);
    out := Tool(m.callId, Placeholder(ref, Preview(m.body)));
  }

  method SpillMessages(ms: seq<Message>, store: InMemorySpillStore, threshold: int) returns (out: seq<Message>)
    modifies store
    ensures out == SpillAll(store.digest, threshold, ms)
    ensures store.data == StoreAll(store.digest, threshold, old(store.data), ms)
  {
    out := [];
    for i := 0 to |ms|
      invariant out == SpillAll(store.digest, threshold, ms[..i])
      invariant store.data == StoreAll(store.digest, threshold, old(store.data), ms[..i])
    {
      assert ms[..i + 1][..i] == ms[..i];
      if ms[i].Tool? {
        var m := MaybeSpillToolMessage(ms[i], store, threshold);
        out := out + [m];
      } else {
        out := out + [ms[i]];
      }
    }
    assert ms[..|ms|] == ms;
  }

  // ---------- the store ----------

  /** What a reference stands for never changes, whatever is spilled afterwards. */
  lemma {:induction false} StoredForever(digest: Digest, threshold: int, store: Store, ms: seq<Message>, ref: string)
    requires ref in store
    ensures ref in StoreAll(digest, threshold, store, ms)
    ensures StoreAll(digest, threshold, store, ms)[ref] == store[ref]
  {
    if ms != [] {
      StoredForever(digest, threshold, store, ms[..|ms| - 1], ref);
    }
  }

  /** No two payloads that meet under one reference differ. */
  predicate CollisionFree(digest: Digest, threshold: int, store: Store, ms: seq<Message>) {
    && (forall i | 0 <= i < |ms| && Spills(threshold, ms[i]) ::
          RefOf(digest, ms[i].body) in store ==> store[RefOf(digest, ms[i].body)] == ms[i].body)
    && (forall i, j | 0 <= i < j < |ms| && Spills(threshold, ms[i]) && Spills(threshold, ms[j]) ::
          RefOf(digest, ms[i].body) == RefOf(digest, ms[j].body) ==> ms[i].body == ms[j].body)
  }

  /** The reference in the place of `m` leads back to its body. */
  predicate Restores(digest: Digest, store: Store, m: Message)
    requires m.Tool?
  {
    RefOf(digest, m.body) in store && store[RefOf(digest, m.body)] == m.body
  }

  lemma {:induction false} StoreHolds(digest: Digest, threshold: int, store: Store, ms: seq<Message>, ref: string)
    ensures ref in StoreAll(digest, threshold, store, ms) <==>
            ref in store || exists i :: 0 <= i < |ms| && Spills(threshold, ms[i]) && RefOf(digest, ms[i].body) == ref
    ensures ref in StoreAll(digest, threshold, store, ms) && ref !in store ==>
              exists i :: 0 <= i < |ms| && Spills(threshold, ms[i]) && RefOf(digest, ms[i].body) == ref
                          && StoreAll(digest, threshold, store, ms)[ref] == ms[i].body
  {
    if ms != [] {
      var init := ms[..|ms| - 1];
      StoreHolds(digest, threshold, store, init, ref);
      assert forall i | 0 <= i < |init| :: init[i] == ms[i];
    }
  }

  /** Every spilled body can be read back through its placeholder exactly when no two different
      payloads share a reference. */
  lemma RestoredIffCollisionFree(digest: Digest, threshold: int, store: Store, ms: seq<Message>)
    ensures (forall i | 0 <= i < |ms| && Spills(threshold, ms[i]) ::
               Restores(digest, StoreAll(digest, threshold, store, ms), ms[i])) <==>
            CollisionFree(digest, threshold, store, ms)
  {
    var after := StoreAll(digest, threshold, store, ms);
    forall i | 0 <= i < |ms| && Spills(threshold, ms[i])
      ensures RefOf(digest, ms[i].body) in after
      ensures CollisionFree(digest, threshold, store, ms) ==> Restores(digest, after, ms[i])
      ensures var ref := RefOf(digest, ms[i].body); ref in store ==> after[ref] == store[ref]
    {
      var ref := RefOf(digest, ms[i].body);
      StoreHolds(digest, threshold, store, ms, ref);
      if ref in store {
        StoredForever(digest, threshold, store, ms, ref);
      } else {
        var j :| 0 <= j < |ms| && Spills(threshold, ms[j]) && RefOf(digest, ms[j].body) == ref
                 && after[ref] == ms[j].body;
        assert i < j || j < i || i == j;
      }
    }
  }

  /** What a placeholder says: a reference under which the body is found, the true size of that body,
      and how it begins. */
  lemma PlaceholderReadsBack(digest: Digest, threshold: int, store: Store, ms: seq<Message>, i: nat)
    requires i < |ms| && Spills(threshold, ms[i]) && CollisionFree(digest, threshold, store, ms)
    requires |digest(ms[i].body)| >= REF_LEN
    ensures var body, after := SpillAll(digest, threshold, ms)[i].body, StoreAll(digest, threshold, store, ms);
            && |body| >= |OPENING| + REF_LEN
            && var ref := body[|OPENING|..][..REF_LEN];
            && ref in after && after[ref] == ms[i].body
            && exists preview :: preview <= after[ref] && body == Placeholder(SpillRef(ref, |after[ref]|), preview)
  {
    var preview := Preview(ms[i].body);
    RestoredIffCollisionFree(digest, threshold, store, ms);
    PreviewIsALinePrefix(ms[i].body);
    PlaceholderLooksLikeOne(SpillRef(RefOf(digest, ms[i].body), |ms[i].body|), preview);
  }

  // ---------- the messages ----------

  lemma SpilledSpillsNoMore(digest: Digest, threshold: int, m: Message)
    ensures !Spills(threshold, Spilled(digest, threshold, m))
  {
    if Spills(threshold, m) {
      PlaceholderLooksLikeOne(SpillRef(RefOf(digest, m.body), |m.body|), Preview(m.body));
    }
  }

  lemma {:induction false} NothingToStore(digest: Digest, threshold: int, store: Store, ms: seq<Message>)
    requires forall m | m in ms :: !Spills(threshold, m)
    ensures StoreAll(digest, threshold, store, ms) == store
  {
    if ms != [] {
      NothingToStore(digest, threshold, store, ms[..|ms| - 1]);
    }
  }

  /** Spilling twice is spilling once: the second time neither the messages nor the store change,
      whatever the threshold and even if it lies below the placeholders' own length. */
  lemma SpillingTwiceIsOnce(digest: Digest, threshold: int, store: Store, ms: seq<Message>)
    ensures var once := SpillAll(digest, threshold, ms);
            SpillAll(digest, threshold, once) == once && StoreAll(digest, threshold, store, once) == store
  {
    var once := SpillAll(digest, threshold, ms);
    forall i | 0 <= i < |once| ensures !Spills(threshold, once[i]) {
      SpilledSpillsNoMore(digest, threshold, ms[i]);
    }
    NothingToStore(digest, threshold, store, once);
  }

  /** Spilling changes bodies of oversized tool results and nothing else, so it pairs calls with
      results as before: the outcome is a legal transcript exactly if the input is. */
  lemma SpillingKeepsPairing(digest: Digest, threshold: int, ms: seq<Message>)
    ensures var out := SpillAll(digest, threshold, ms);
            && |out| == |ms|
            && (forall i | 0 <= i < |ms| :: out[i] != ms[i] ==>
                  && ms[i].Tool? && out[i].Tool? && out[i].callId == ms[i].callId
                  && |ms[i].body| > threshold && LooksLikePlaceholder(out[i].body))
            && (Complete(out) <==> Complete(ms))
            && (NoOrphans(out) <==> NoOrphans(ms))
  {
    var out := SpillAll(digest, threshold, ms);
    forall i | 0 <= i < |ms| && out[i] != ms[i] ensures LooksLikePlaceholder(out[i].body) {
      PlaceholderLooksLikeOne(SpillRef(RefOf(digest, ms[i].body), |ms[i].body|), Preview(ms[i].body));
    }
    SameShape(ms, out);
    SameShape(out, ms);
  }

  lemma SameShape(ms: seq<Message>, out: seq<Message>)
    requires |out| == |ms|
    requires forall i | 0 <= i < |ms| ::
               out[i] == ms[i] || (ms[i].Tool? && out[i].Tool? && out[i].callId == ms[i].callId)
    ensures NoOrphans(ms) ==> NoOrphans(out)
    ensures FullyAnswered(ms) ==> FullyAnswered(out)
  {
    if NoOrphans(ms) {
      forall i: nat | i < |out| && out[i].Tool? ensures exists p: nat | p < i :: IsOwner(out, p, i) {
        var p: nat :| p < i && IsOwner(ms, p, i);
        assert IsOwner(out, p, i);
      }
    }
    if FullyAnswered(ms) {
      forall p: nat, j: nat | p < |out| && out[p].AI? && j < |out[p].calls| ensures Answered(out, p, j) {
        assert Answered(ms, p, j);
      }
    }
  }

  // ---------- how long bodies are afterwards ----------

  lemma PlaceholderLength(r: SpillRef, preview: string)
    requires |r.ref| <= REF_LEN && |preview| <= PREVIEW_CHARS
    ensures |Placeholder(r, preview)| <= 474 + 2 * |Decimal.Str(r.size)|
  {
    assert PREVIEW_CHARS < Decimal.Pow10(3) by {
      assert Decimal.Pow10(1) == 10 && Decimal.Pow10(2) == 100;
    }
    Decimal.StrLength(|preview|, 3);
  }

  /** Spilling leaves no tool result longer than the threshold exactly if each one that is longer can
      be spilled, which one that begins like a placeholder cannot, and has a placeholder that fits. */
  lemma BodiesFitIff(digest: Digest, threshold: int, ms: seq<Message>)
    ensures (forall m | m in SpillAll(digest, threshold, ms) && m.Tool? :: |m.body| <= threshold) <==>
            (forall m | m in ms && m.Tool? && |m.body| > threshold ::
               !LooksLikePlaceholder(m.body) && |Spilled(digest, threshold, m).body| <= threshold)
  {
    var out := SpillAll(digest, threshold, ms);
    forall m | m in ms ensures Spilled(digest, threshold, m) in out {
      var i :| 0 <= i < |ms| && ms[i] == m;
      assert out[i] == Spilled(digest, threshold, m);
    }
    forall m | m in out ensures exists m' | m' in ms :: Spilled(digest, threshold, m') == m {
      var i :| 0 <= i < |out| && out[i] == m;
      assert ms[i] in ms;
    }
  }

  /** At the default threshold placeholders always fit, so the bound holds exactly if no longer result
      begins like a placeholder. No string in memory has as many characters as the hypothesis excludes:
      their number is less than 2 to the power of 63. */
  lemma DefaultBoundIff(digest: Digest, ms: seq<Message>)
    requires forall m | m in ms && m.Tool? :: |m.body| < Decimal.Pow10(20)
    ensures (forall m | m in SpillAll(digest, DEFAULT_THRESHOLD, ms) && m.Tool? :: |m.body| <= 4000) <==>
            (forall m | m in ms && m.Tool? && |m.body| > 4000 :: !("[spill:" <= m.body))
  {
    BodiesFitIff(digest, DEFAULT_THRESHOLD, ms);
    forall m | m in ms && m.Tool? && Spills(DEFAULT_THRESHOLD, m)
      ensures |Spilled(digest, DEFAULT_THRESHOLD, m).body| <= DEFAULT_THRESHOLD
    {
      PreviewIsALinePrefix(m.body);
      Decimal.StrLength(|m.body|, 20);
      PlaceholderLength(SpillRef(RefOf(digest, m.body), |m.body|), Preview(m.body));
    }
  }
}
