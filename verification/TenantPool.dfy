/** The pool of per-tenant checkpointers: a cache filled under a lock, checked again once the lock is
    held, and asked by any number of concurrent callers. */
module TenantPool {
  import opened Wrappers

  /** An opened context; `handle` tells two openings apart. */
  datatype Entry = Entry(tenant: string, handle: nat)

  /** What the callers share: the cache, the lock, and the contexts to close at shutdown. */
  datatype Shared = Shared(entries: map<string, Entry>, locked: bool, stack: seq<Entry>) {
    function Lookup(tenant: string): Option<Entry> {
      if tenant in entries then Some(entries[tenant]) else None
    }

    /** The lock is taken and the cache looked at again. On a hit it is free again at once. */
    function Enter(tenant: string): Shared {
      this.(locked := tenant !in entries)
    }

    function Opened(e: Entry): Shared {
      Shared(entries[e.tenant := e], false, stack + [e])
    }

    function GivenUp(): Shared {
      this.(locked := false)
    }
  }

  /** `get`, cut at the points where it can be suspended. Between those points nothing else runs. */
  class TenantCheckpointerPool {
    var entries: map<string, Entry>
    var locked: bool
    var stack: seq<Entry>

    function View(): Shared
      reads this
    {
      Shared(entries, locked, stack)
    }

    constructor ()
      ensures View() == Shared(map[], false, [])
    {
      entries, locked, stack := map[], false, [];
    }

    /** Up to the wait for the lock: a hit returns without it. */
    method Begin(tenant: string) returns (hit: Option<Entry>)
      ensures hit == View().Lookup(tenant)
    {
      hit := if tenant in entries then Some(entries[tenant]) else None;
    }

    /** From the lock to the opening of the context, which is left to the caller on a miss. */
    method HoldLock(tenant: string) returns (hit: Option<Entry>)
      requires !locked
      modifies this
      ensures View() == old(View()).Enter(tenant)
      ensures hit == old(View()).Lookup(tenant)
      ensures hit.None? <==> locked
    {
      locked := true;
      hit := None;
      if tenant in entries {
        hit := Some(entries[tenant]);
        locked := false;
      }
    }

    /** From the opened context to the return. */
    method FinishOpen(tenant: string, handle: nat) returns (entry: Entry)
      requires locked
      modifies this
      ensures View() == old(View()).Opened(entry) && entry == Entry(tenant, handle)
    {
      entry := Entry(tenant, handle);
      stack := stack + [entry];
      entries := entries[tenant := entry];
      locked := false;
    }

    /** The way out when opening raises or is cancelled. */
    method AbandonOpen()
      requires locked
      modifies this
      ensures View() == old(View()).GivenUp()
    {
      locked := false;
    }
  }

  // ---------- all interleavings ----------

  datatype Caller = Waiting(tenant: string) | Opening(tenant: string) | Returned(entry: Entry) | Raised

  datatype State = State(pool: Shared, callers: seq<Caller>)

  datatype Event =
    | Call(tenant: string)
    | TakeLock(k: nat)
    | OpenSucceeds(k: nat, handle: nat)
    | OpenFails(k: nat)
    | Cancel(k: nat)

  predicate Enabled(s: State, e: Event) {
    match e
    case Call(_) => true
    case TakeLock(k) => k < |s.callers| && s.callers[k].Waiting? && !s.pool.locked
    case OpenSucceeds(k, _) => k < |s.callers| && s.callers[k].Opening?
    case OpenFails(k) => k < |s.callers| && s.callers[k].Opening?
    case Cancel(k) => k < |s.callers| && (s.callers[k].Waiting? || s.callers[k].Opening?)
  }

  function Step(s: State, e: Event): State
    requires Enabled(s, e)
  {
    match e
    case Call(tenant) =>
      var hit := s.pool.Lookup(tenant);
      s.(callers := s.callers + [if hit.Some? then Returned(hit.value) else Waiting(tenant)])
    case TakeLock(k) =>
      var tenant := s.callers[k].tenant;
      var hit := s.pool.Lookup(tenant);
      State(s.pool.Enter(tenant), s.callers[k := if hit.Some? then Returned(hit.value) else Opening(tenant)])
    case OpenSucceeds(k, handle) =>
      var entry := Entry(s.callers[k].tenant, handle);
      State(s.pool.Opened(entry), s.callers[k := Returned(entry)])
    case OpenFails(k) => State(s.pool.GivenUp(), s.callers[k := Raised])
    case Cancel(k) =>
      State(if s.callers[k].Opening? then s.pool.GivenUp() else s.pool, s.callers[k := Raised])
  }

  /** The state after a sequence of events, if each was enabled when it happened. */
  function Exec(events: seq<Event>): Option<State> {
    if events == [] then Some(State(Shared(map[], false, []), []))
    else
      var before := Exec(events[..|events| - 1]);
      var e := events[|events| - 1];
      if before.Some? && Enabled(before.value, e) then Some(Step(before.value, e)) else None
  }

  /** At most one caller opens, exactly while the lock is held, and only what is not cached. */
  ghost predicate LockInv(s: State) {
    && (s.pool.locked <==> exists k :: 0 <= k < |s.callers| && s.callers[k].Opening?)
    && (forall i, j | 0 <= i < |s.callers| && 0 <= j < |s.callers| ::
          s.callers[i].Opening? && s.callers[j].Opening? ==> i == j)
    && (forall k | 0 <= k < |s.callers| && s.callers[k].Opening? :: s.callers[k].tenant !in s.pool.entries)
  }

  /** What was returned is what is cached. */
  ghost predicate CacheInv(s: State) {
    && (forall t | t in s.pool.entries :: s.pool.entries[t].tenant == t)
    && (forall k | 0 <= k < |s.callers| && s.callers[k].Returned? ::
          s.pool.Lookup(s.callers[k].entry.tenant) == Some(s.callers[k].entry))
  }

  /** The contexts held are the cached entries, each once. */
  ghost predicate StackInv(pool: Shared) {
    && (forall i, j | 0 <= i < j < |pool.stack| :: pool.stack[i].tenant != pool.stack[j].tenant)
    && (forall i | 0 <= i < |pool.stack| :: pool.Lookup(pool.stack[i].tenant) == Some(pool.stack[i]))
    && (forall t | t in pool.entries :: Holds(pool.stack, t))
    && |pool.stack| == |pool.entries|
  }

  predicate Holds(stack: seq<Entry>, tenant: string) {
    exists i :: 0 <= i < |stack| && stack[i].tenant == tenant
  }

  lemma StepKeepsLock(s: State, e: Event)
    requires LockInv(s) && Enabled(s, e)
    ensures LockInv(Step(s, e))
  {
    var s' := Step(s, e);
    if e.TakeLock? && s'.callers[e.k].Opening? {
      assert s'.pool.locked;
    } else if e.TakeLock? {
      assert !s'.pool.locked;
    } else if e.Call? {
      assert forall k | 0 <= k < |s.callers| :: s'.callers[k] == s.callers[k];
    } else if s.callers[e.k].Waiting? {
      assert forall k | 0 <= k < |s.callers| && k != e.k :: s'.callers[k] == s.callers[k];
    } else {
      assert forall k | 0 <= k < |s.callers| && k != e.k :: !s'.callers[k].Opening?;
    }
  }

  lemma StepKeepsCache(s: State, e: Event)
    requires LockInv(s) && CacheInv(s) && Enabled(s, e)
    ensures CacheInv(Step(s, e))
  {
  }

  lemma OpenedKeepsStack(pool: Shared, e: Entry)
    requires StackInv(pool) && e.tenant !in pool.entries
    ensures StackInv(pool.Opened(e))
  {
    var stack', entries' := pool.stack + [e], pool.entries[e.tenant := e];
    var pool' := Shared(entries', false, stack');
    assert pool' == pool.Opened(e);
    forall i | 0 <= i < |stack'| ensures pool'.Lookup(stack'[i].tenant) == Some(stack'[i]) {
      if i < |pool.stack| {
        assert pool.Lookup(pool.stack[i].tenant) == Some(stack'[i]);
      }
    }
    forall t | t in entries' ensures Holds(stack', t) {
      if t == e.tenant {
        assert stack'[|pool.stack|] == e;
      } else {
        assert Holds(pool.stack, t);
        var i :| 0 <= i < |pool.stack| && pool.stack[i].tenant == t;
        assert stack'[i].tenant == t;
      }
    }
    forall i, j | 0 <= i < j < |stack'| ensures stack'[i].tenant != stack'[j].tenant {
      assert pool.Lookup(pool.stack[i].tenant) == Some(stack'[i]);
    }
    OneMore(pool.entries, e.tenant, e);
  }

  lemma OneMore<K, V>(m: map<K, V>, k: K, v: V)
    requires k !in m
    ensures |m[k := v]| == |m| + 1
  {
    assert m[k := v].Keys == m.Keys + {k};
  }

  lemma StepKeepsStack(s: State, e: Event)
    requires LockInv(s) && StackInv(s.pool) && Enabled(s, e)
    ensures StackInv(Step(s, e).pool)
  {
    if e.OpenSucceeds? {
      OpenedKeepsStack(s.pool, Entry(s.callers[e.k].tenant, e.handle));
    } else {
      assert Step(s, e).pool == s.pool.(locked := Step(s, e).pool.locked);
    }
  }

  lemma {:induction false} ExecInv(events: seq<Event>)
    requires Exec(events).Some?
    ensures var s := Exec(events).value; LockInv(s) && CacheInv(s) && StackInv(s.pool)
  {
    if events != [] {
      var before, e := Exec(events[..|events| - 1]).value, events[|events| - 1];
      ExecInv(events[..|events| - 1]);
      StepKeepsLock(before, e);
      StepKeepsCache(before, e);
      StepKeepsStack(before, e);
    }
  }

  // ---------- what every interleaving guarantees ----------

  /** The successful openings of a tenant. */
  function Openings(events: seq<Event>, tenant: string): nat {
    if events == [] then 0
    else
      var before, e := Exec(events[..|events| - 1]), events[|events| - 1];
      Openings(events[..|events| - 1], tenant) +
      if before.Some? && Enabled(before.value, e) && e.OpenSucceeds? && before.value.callers[e.k].tenant == tenant
      then 1 else 0
  }

  /** A tenant is opened successfully once if it is cached, and never otherwise. */
  lemma {:induction false} OpenedAtMostOnce(events: seq<Event>, tenant: string)
    requires Exec(events).Some?
    ensures Openings(events, tenant) == if tenant in Exec(events).value.pool.entries then 1 else 0
  {
    if events != [] {
      ExecInv(events[..|events| - 1]);
      OpenedAtMostOnce(events[..|events| - 1], tenant);
    }
  }

  /** The tenants asked for, in the order of the calls. */
  function Asked(events: seq<Event>): seq<string> {
    if events == [] then []
    else
      var e := events[|events| - 1];
      Asked(events[..|events| - 1]) + if e.Call? then [e.tenant] else []
  }

  /** This caller asked for the tenant it waits for, opens or got an entry of. */
  predicate Serves(c: Caller, tenant: string) {
    match c
    case Waiting(t) => t == tenant
    case Opening(t) => t == tenant
    case Returned(entry) => entry.tenant == tenant
    case Raised => true
  }

  predicate AllServed(callers: seq<Caller>, asked: seq<string>) {
    |callers| == |asked| && forall k | 0 <= k < |callers| :: Serves(callers[k], asked[k])
  }

  lemma StepServes(s: State, e: Event, asked: seq<string>)
    requires CacheInv(s) && AllServed(s.callers, asked) && Enabled(s, e)
    ensures AllServed(Step(s, e).callers, asked + if e.Call? then [e.tenant] else [])
  {
  }

  /** Every caller gets an entry of the tenant it asked for, or none. */
  lemma {:induction false} CallersGetTheirTenant(events: seq<Event>)
    requires Exec(events).Some?
    ensures AllServed(Exec(events).value.callers, Asked(events))
  {
    if events != [] {
      var before := events[..|events| - 1];
      CallersGetTheirTenant(before);
      ExecInv(before);
      StepServes(Exec(before).value, events[|events| - 1], Asked(before));
    }
  }

  /** All callers that asked for a tenant and returned hold the same entry. */
  lemma CallersShareTheEntry(events: seq<Event>, i: nat, j: nat)
    requires Exec(events).Some? && i < |Exec(events).value.callers| && j < |Exec(events).value.callers|
    requires var callers := Exec(events).value.callers;
             callers[i].Returned? && callers[j].Returned? && callers[i].entry.tenant == callers[j].entry.tenant
    ensures Exec(events).value.callers[i] == Exec(events).value.callers[j]
  {
    ExecInv(events);
    var s := Exec(events).value;
    assert s.pool.Lookup(s.callers[i].entry.tenant) == Some(s.callers[i].entry);
  }

  /** What is cached stays cached, as the very same entry. */
  lemma {:induction false} CachedForever(events: seq<Event>, more: seq<Event>, tenant: string)
    requires Exec(events + more).Some?
    ensures Exec(events).Some?
    ensures var early, late := Exec(events).value.pool, Exec(events + more).value.pool;
            early.Lookup(tenant).Some? ==> late.Lookup(tenant) == early.Lookup(tenant)
    decreases |more|
  {
    if more == [] {
      assert events + more == events;
    } else {
      var all := events + more;
      assert all[..|all| - 1] == events + more[..|more| - 1];
      CachedForever(events, more[..|more| - 1], tenant);
      ExecInv(events + more[..|more| - 1]);
    }
  }

  /** What shutdown will close is exactly what is cached, one context each, whatever openings
      failed or were cancelled. */
  lemma StackIsTheCache(events: seq<Event>)
    requires Exec(events).Some?
    ensures var pool := Exec(events).value.pool;
            && |pool.stack| == |pool.entries|
            && (forall i, j | 0 <= i < j < |pool.stack| :: pool.stack[i] != pool.stack[j])
            && forall e :: e in pool.stack <==> pool.Lookup(e.tenant) == Some(e)
  {
    ExecInv(events);
    var pool := Exec(events).value.pool;
    forall e ensures e in pool.stack <==> pool.Lookup(e.tenant) == Some(e) {
      if pool.Lookup(e.tenant) == Some(e) {
        var i :| 0 <= i < |pool.stack| && pool.stack[i].tenant == e.tenant;
        assert pool.stack[i] == e;
      }
    }
  }

  /** Opening failed for this caller, or it was cancelled. */
  predicate GaveUp(events: seq<Event>, k: nat) {
    OpenFails(k) in events || Cancel(k) in events
  }

  /** A caller raises exactly if that happened to it; another's failure is nothing to it. */
  lemma {:induction false} CallersRaiseIff(events: seq<Event>, k: nat)
    requires Exec(events).Some?
    ensures GaveUp(events, k) <==> k < |Exec(events).value.callers| && Exec(events).value.callers[k].Raised?
  {
    if events != [] {
      var before, e := events[..|events| - 1], events[|events| - 1];
      assert events == before + [e];
      CallersRaiseIff(before, k);
      assert GaveUp(events, k) <==> GaveUp(before, k) || e == OpenFails(k) || e == Cancel(k);
    }
  }

  lemma ExecSnoc(events: seq<Event>, e: Event)
    requires Exec(events).Some? && Enabled(Exec(events).value, e)
    ensures Exec(events + [e]) == Some(Step(Exec(events).value, e))
  {
    assert (events + [e])[..|events|] == events;
  }

  /** Whoever holds the lock may give it back. */
  lemma LockCanBeFreed(events: seq<Event>) returns (freed: seq<Event>)
    requires Exec(events).Some?
    ensures events <= freed && Exec(freed).Some? && !Exec(freed).value.pool.locked
    ensures |Exec(freed).value.callers| == |Exec(events).value.callers|
    ensures forall k | 0 <= k < |Exec(events).value.callers| && Exec(events).value.callers[k].Waiting? ::
              Exec(freed).value.callers[k] == Exec(events).value.callers[k]
  {
    ExecInv(events);
    var s := Exec(events).value;
    freed := events;
    if s.pool.locked {
      var j: nat :| j < |s.callers| && s.callers[j].Opening?;
      ExecSnoc(events, OpenFails(j));
      freed := events + [OpenFails(j)];
    }
  }

  lemma FreeLockServes(events: seq<Event>, k: nat, handle: nat) returns (served: seq<Event>)
    requires Exec(events).Some? && !Exec(events).value.pool.locked
    requires k < |Exec(events).value.callers| && Exec(events).value.callers[k].Waiting?
    ensures events <= served && Exec(served).Some?
    ensures k < |Exec(served).value.callers| && Exec(served).value.callers[k].Returned?
  {
    ExecSnoc(events, TakeLock(k));
    served := events + [TakeLock(k)];
    if Exec(served).value.callers[k].Opening? {
      ExecSnoc(served, OpenSucceeds(k, handle));
      served := served + [OpenSucceeds(k, handle)];
    }
  }

  /** Somebody who waits can still be served: whoever holds the lock may give it back, and then the
      entry is found or opened. */
  lemma WaiterCanBeServed(events: seq<Event>, k: nat, handle: nat) returns (more: seq<Event>)
    requires Exec(events).Some? && k < |Exec(events).value.callers| && Exec(events).value.callers[k].Waiting?
    ensures Exec(events + more).Some?
    ensures k < |Exec(events + more).value.callers| && Exec(events + more).value.callers[k].Returned?
  {
    var freed := LockCanBeFreed(events);
    var served := FreeLockServes(freed, k, handle);
    more := served[|events|..];
    assert events + more == served;
  }

  /** So at any time anybody can ask for any tenant and get an entry of it. */
  lemma AnyoneCanBeServed(events: seq<Event>, tenant: string, handle: nat) returns (more: seq<Event>)
    requires Exec(events).Some?
    ensures Exec(events + more).Some?
    ensures var k, callers := |Exec(events).value.callers|, Exec(events + more).value.callers;
            k < |callers| && callers[k].Returned? && callers[k].entry.tenant == tenant
  {
    var k := |Exec(events).value.callers|;
    ExecSnoc(events, Call(tenant));
    var asked := events + [Call(tenant)];
    more := [Call(tenant)];
    if Exec(asked).value.callers[k].Waiting? {
      var rest := WaiterCanBeServed(asked, k, handle);
      more := more + rest;
      assert events + more == asked + rest;
    }
    CallersGetTheirTenant(events + more);
    CallersGetTheirTenant(events);
    AskedConcat(events, tenant, more);
  }

  lemma {:induction false} AskedConcat(events: seq<Event>, tenant: string, more: seq<Event>)
    requires more != [] && more[0] == Call(tenant)
    ensures Asked(events) + [tenant] <= Asked(events + more)
    decreases |more|
  {
    var all := events + more;
    if |more| == 1 {
      assert all[..|all| - 1] == events;
    } else {
      assert all[..|all| - 1] == events + more[..|more| - 1];
      AskedConcat(events, tenant, more[..|more| - 1]);
    }
  }

  /** The lock is never left behind: whenever it is held, some caller can still give it back, and
      whenever it is free, every waiting caller can take it. */
  lemma LockIsNeverStuck(events: seq<Event>)
    requires Exec(events).Some?
    ensures var s := Exec(events).value;
            if s.pool.locked then
              exists k: nat :: k < |s.callers| && Enabled(s, OpenFails(k)) && !Step(s, OpenFails(k)).pool.locked
            else forall k: nat :: k < |s.callers| && s.callers[k].Waiting? ==> Enabled(s, TakeLock(k))
  {
    ExecInv(events);
    var s := Exec(events).value;
    if s.pool.locked {
      var k: nat :| k < |s.callers| && s.callers[k].Opening?;
      assert Enabled(s, OpenFails(k));
    }
  }
}
