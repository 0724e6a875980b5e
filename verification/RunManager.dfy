/** The registry of detached runs and its eviction of finished ones. */
module RunManagers {
  import opened RunBuffer

  // ---------- the eviction, on lists ----------

  /** The ids of `order` that are finished, oldest first. */
  function DoneIn(order: seq<string>, finished: set<string>): seq<string> {
    if order == [] then []
    else (if order[0] in finished then [order[0]] else []) + DoneIn(order[1..], finished)
  }

  /** `list.remove`: drops the first occurrence. */
  function Remove(order: seq<string>, id: string): seq<string>
    requires id in order
  {
    if order[0] == id then order[1..] else [order[0]] + Remove(order[1..], id)
  }

  /** `order` without its `n` oldest finished ids. */
  function DropOldest(order: seq<string>, finished: set<string>, n: nat): seq<string> {
    if n == 0 || order == [] then order
    else if order[0] in finished then DropOldest(order[1..], finished, n - 1)
    else [order[0]] + DropOldest(order[1..], finished, n)
  }

  predicate Distinct(order: seq<string>) {
    forall i, j | 0 <= i < j < |order| :: order[i] != order[j]
  }

  function IdSet(order: seq<string>): set<string> {
    set id | id in order
  }

  lemma IdSetCons(id: string, rest: seq<string>)
    ensures IdSet([id] + rest) == {id} + IdSet(rest)
  {
  }

  lemma DistinctCons(id: string, rest: seq<string>)
    ensures Distinct([id] + rest) <==> id !in IdSet(rest) && Distinct(rest)
  {
    var all := [id] + rest;
    assert forall i | 0 <= i < |rest| :: all[i + 1] == rest[i];
    if id in IdSet(rest) {
      var i :| 0 <= i < |rest| && rest[i] == id;
      assert all[0] == all[i + 1];
    }
    if Distinct(all) {
      forall i, j | 0 <= i < j < |rest| ensures rest[i] != rest[j] {
        assert all[i + 1] != all[j + 1];
      }
    }
  }

  lemma {:induction false} RemoveDistinct(order: seq<string>, id: string)
    requires id in order && Distinct(order)
    ensures Distinct(Remove(order, id)) && IdSet(Remove(order, id)) == IdSet(order) - {id}
  {
    var first, rest := order[0], order[1..];
    assert order == [first] + rest;
    IdSetCons(first, rest);
    DistinctCons(first, rest);
    if first != id {
      RemoveDistinct(rest, id);
      IdSetCons(first, Remove(rest, id));
      DistinctCons(first, Remove(rest, id));
    }
  }

  lemma {:induction false} DoneAreFinished(order: seq<string>, finished: set<string>, k: nat)
    requires k < |DoneIn(order, finished)|
    ensures DoneIn(order, finished)[k] in finished && DoneIn(order, finished)[k] in order
  {
    if order[0] in finished {
      if k > 0 { DoneAreFinished(order[1..], finished, k - 1); }
    } else {
      DoneAreFinished(order[1..], finished, k);
    }
  }

  /** Removing the next finished id is dropping one more. */
  lemma {:induction false} DropOneMore(order: seq<string>, finished: set<string>, n: nat)
    requires n < |DoneIn(order, finished)|
    ensures var victim, left := DoneIn(order, finished)[n], DropOldest(order, finished, n);
            victim in left && Remove(left, victim) == DropOldest(order, finished, n + 1)
  {
    var victim := DoneIn(order, finished)[n];
    DoneAreFinished(order, finished, n);
    if order[0] in finished {
      if n > 0 { DropOneMore(order[1..], finished, n - 1); }
      assert DropOldest(order[1..], finished, 0) == order[1..];
    } else {
      DropOneMore(order[1..], finished, n);
      var left := DropOldest(order[1..], finished, n);
      assert DropOldest(order, finished, n) == [order[0]] + left;
      assert ([order[0]] + left)[1..] == left;
    }
  }

  /** What is left: every unfinished id, in its place, and the finished ones started last. */
  lemma {:induction false} DropOldestKeepsTheRest(order: seq<string>, finished: set<string>, n: nat)
    requires n <= |DoneIn(order, finished)|
    ensures DoneIn(DropOldest(order, finished, n), finished) == DoneIn(order, finished)[n..]
    ensures forall others: set<string> | others !! finished ::
              DoneIn(DropOldest(order, finished, n), others) == DoneIn(order, others)
  {
    if n > 0 && order != [] {
      var rest := order[1..];
      if order[0] in finished {
        DropOldestKeepsTheRest(rest, finished, n - 1);
      } else {
        DropOldestKeepsTheRest(rest, finished, n);
        var left := DropOldest(rest, finished, n);
        assert DropOldest(order, finished, n) == [order[0]] + left;
        assert ([order[0]] + left)[1..] == left;
      }
    }
  }

  /** How many finished runs an eviction removes. */
  function Excess(order: seq<string>, finished: set<string>, keepDone: nat): nat {
    var n := |DoneIn(order, finished)|;
    if n <= keepDone then 0 else n - keepDone
  }

  lemma UnfinishedStay(order: seq<string>, finished: set<string>, n: nat)
    requires n <= |DoneIn(order, finished)|
    ensures forall id | id in order && id !in finished :: id in DropOldest(order, finished, n)
  {
    DropOldestKeepsTheRest(order, finished, n);
    var left := DropOldest(order, finished, n);
    forall id | id in order && id !in finished ensures id in left {
      assert DoneIn(left, {id}) == DoneIn(order, {id});
      OnlyOne(order, id);
      OnlyOne(left, id);
    }
  }

  /** After an eviction at most `keepDone` finished runs are left, they are the ones started last,
      and no unfinished run is gone. */
  lemma EvictionIsFair(order: seq<string>, finished: set<string>, keepDone: nat)
    ensures var left := DropOldest(order, finished, Excess(order, finished, keepDone));
            && |DoneIn(left, finished)| <= keepDone
            && DoneIn(left, finished) == DoneIn(order, finished)[Excess(order, finished, keepDone)..]
            && forall id | id in order && id !in finished :: id in left
  {
    var n := Excess(order, finished, keepDone);
    DropOldestKeepsTheRest(order, finished, n);
    UnfinishedStay(order, finished, n);
  }

  lemma {:induction false} OnlyOne(order: seq<string>, id: string)
    ensures DoneIn(order, {id}) == [] <==> id !in order
  {
    if order != [] {
      OnlyOne(order[1..], id);
      assert id in order <==> id == order[0] || id in order[1..];
    }
  }

  // ---------- the registry ----------

  class RunManager {
    const maxBuffer: nat
    const keepDone: nat
    var runs: map<string, Run>
    var order: seq<string>

    constructor (maxBuffer: nat, keepDone: nat)
      ensures this.maxBuffer == maxBuffer && this.keepDone == keepDone
      ensures runs == map[] && order == [] && Valid()
    {
      this.maxBuffer, this.keepDone := maxBuffer, keepDone;
      runs, order := map[], [];
    }

    /** The two indexes hold the same ids, each once. */
    ghost predicate Valid()
      reads this
    {
      Distinct(order) && runs.Keys == IdSet(order)
    }

    function Finished(): (ids: set<string>)
      reads this, runs.Values
      ensures forall id :: id in ids <==> id in runs && runs[id].done
    {
      set id | id in runs && runs[id].done
    }

    method Has(taskId: string) returns (b: bool)
      ensures b <==> taskId in runs
    {
      b := taskId in runs;
    }

    /** Drops one run from both indexes. */
    method Forget(victim: string)
      requires Valid() && victim in order
      modifies this`runs, this`order
      ensures Valid()
      ensures runs == old(runs) - {victim} && order == Remove(old(order), victim)
    {
      RemoveDistinct(order, victim);
      runs := runs - {victim};
      order := Remove(order, victim);
    }

    /** Drops the oldest finished runs from both indexes. */
    method EvictDone()
      requires Valid()
      modifies this`runs, this`order
      ensures Valid()
      ensures order == DropOldest(old(order), old(Finished()), Excess(old(order), old(Finished()), keepDone))
      ensures runs == map id | id in old(runs) && id in order :: old(runs)[id]
      ensures forall id | id in old(runs) && !old(runs)[id].done :: id in runs && id in order
      ensures forall id | id in old(runs) && id !in runs :: old(runs)[id].done
    {
      var doneIds := DoneIn(order, Finished());
      ghost var finished, all, n := Finished(), doneIds, 0;
      while |doneIds| > keepDone
        invariant n <= |all| && doneIds == all[n..] && n <= Excess(old(order), finished, keepDone)
        invariant order == DropOldest(old(order), finished, n)
        invariant Valid()
        invariant runs.Keys <= old(runs).Keys && forall id | id in runs :: runs[id] == old(runs)[id]
      {
        var victim := doneIds[0];
        DropOneMore(old(order), finished, n);
        Forget(victim);
        doneIds := doneIds[1..];
        n := n + 1;
      }
      UnfinishedStay(old(order), finished, n);
    }

    /** Evicts, then registers a new run. The indexes agree afterwards exactly when the id was not
        in use; task ids are fresh, so it never is. */
    method Start(taskId: string) returns (run: Run)
      requires Valid()
      modifies this`runs, this`order
      ensures fresh(run) && run.taskId == taskId && run.history == [] && run.Valid(maxBuffer) && !run.done
      ensures var kept := DropOldest(old(order), old(Finished()), Excess(old(order), old(Finished()), keepDone));
              && order == kept + [taskId]
              && runs == (map id | id in old(runs) && id in kept :: old(runs)[id])[taskId := run]
              && (Valid() <==> taskId !in kept)
      ensures forall id | id in old(runs) && !old(runs)[id].done && id != taskId ::
                id in runs && id in order && runs[id] == old(runs)[id]
    {
      EvictDone();
      ghost var kept := order;
      run := new Run(taskId);
      runs := runs[taskId := run];
      order := order + [taskId];
      if taskId in kept {
        var i :| 0 <= i < |kept| && kept[i] == taskId;
        assert order[i] == order[|kept|];
      } else {
        assert IdSet(order) == IdSet(kept) + {taskId};
      }
    }
  }
}
