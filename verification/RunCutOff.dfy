/** Runs that the recursion limit ends, and what their status says. The graph library raises once a run
    has taken as many supersteps as the limit allows and has not halted; the task state does not record
    that. */
module RunCutOffs {
  import opened Wrappers
  import opened TaskStates
  import opened Roles
  import opened Service
  import opened RunInvariants
  import opened RunTheorems
  import opened RunBounds
  import opened RunDirectives

  predicate CutOff(g: Graph, c: Config, xs: seq<Choice>) {
    Live(g, c, xs) && |xs| == GRAPH_RECURSION_LIMIT && Run(g, c, xs).node != End
  }

  /** A run that is over: it has halted within the limit, or the limit has ended it. */
  predicate Stops(g: Graph, c: Config, xs: seq<Choice>) {
    || (Live(g, c, xs) && |xs| <= GRAPH_RECURSION_LIMIT && Run(g, c, xs).node == End)
    || CutOff(g, c, xs)
  }

  /** A shorter stretch of a run is one as well, and has not halted. */
  lemma {:induction false} LivePrefix(g: Graph, c: Config, xs: seq<Choice>, n: nat)
    requires Live(g, c, xs) && n < |xs|
    ensures Live(g, c, xs[..n]) && Run(g, c, xs[..n]).node != End
    decreases n
  {
    if n > 0 {
      LivePrefix(g, Step(g, c, xs[0]), xs[1..], n - 1);
      assert xs[..n][1..] == xs[1..][..n - 1];
    }
  }

  /** A run that has not halted goes on. */
  lemma {:induction false} LiveSnoc(g: Graph, c: Config, xs: seq<Choice>, x: Choice)
    requires Live(g, c, xs) && Run(g, c, xs).node != End
    ensures Live(g, c, xs + [x])
    decreases |xs|
  {
    var more := xs + [x];
    if xs == [] {
      assert more[1..] == [];
    } else {
      LiveSnoc(g, Step(g, c, xs[0]), xs[1..], x);
      assert more[0] == xs[0] && more[1..] == xs[1..] + [x];
    }
  }

  lemma {:induction false} RunStaysWithin(
    g: Graph, req: TaskRequest, c: Config, xs: seq<Choice>, within: Config -> bool)
    requires Closed(g, req, within) && within(c) && Live(g, c, xs)
    ensures within(Run(g, c, xs))
    decreases |xs|
  {
    if xs != [] {
      RunStaysWithin(g, req, Step(g, c, xs[0]), xs[1..], within);
    }
  }

  lemma RunIsReachable(g: Graph, req: TaskRequest, c: Config, xs: seq<Choice>)
    requires req.Valid() && Reachable(g, req, c) && Live(g, c, xs)
    ensures Reachable(g, req, Run(g, c, xs))
  {
    ReachableIsClosed(g, req);
    RunStaysWithin(g, req, c, xs, c => Reachable(g, req, c));
  }

  /** Runs beyond a limit exist exactly if runs that reach it without halting do. */
  lemma BeyondIff(live: seq<Choice> -> bool, cut: seq<Choice> -> bool, limit: nat, x: Choice)
    requires forall xs :: live(xs) && |xs| > limit ==> cut(xs[..limit])
    requires forall xs :: cut(xs) ==> |xs| == limit && live(xs + [x])
    ensures (exists xs :: cut(xs)) <==> !(forall xs :: live(xs) ==> |xs| <= limit)
  {
    forall xs | cut(xs) ensures !(forall ys :: live(ys) ==> |ys| <= limit) {
      assert live(xs + [x]) && |xs + [x]| > limit;
    }
  }

  /** So the limit ends some run from `c` exactly if it does not cover all of them. */
  lemma CutOffIff(g: Graph, c: Config)
    ensures (exists xs :: CutOff(g, c, xs)) <==> !(forall xs :: Live(g, c, xs) ==> |xs| <= GRAPH_RECURSION_LIMIT)
  {
    var live := (xs: seq<Choice>) => Live(g, c, xs);
    var cut := (xs: seq<Choice>) => CutOff(g, c, xs);
    forall xs | live(xs) && |xs| > GRAPH_RECURSION_LIMIT ensures cut(xs[..GRAPH_RECURSION_LIMIT]) {
      LivePrefix(g, c, xs, GRAPH_RECURSION_LIMIT);
    }
    forall xs | cut(xs) ensures live(xs + [Undecided()]) {
      LiveSnoc(g, c, xs, Undecided());
    }
    BeyondIff(live, cut, GRAPH_RECURSION_LIMIT, Undecided());
    assert forall xs :: live(xs) == Live(g, c, xs) && cut(xs) == CutOff(g, c, xs);
  }

  /** The limit ends some first run of a request exactly if the request asks for fifty oracle rounds. */
  lemma CutOffExistsIff(g: Graph, req: TaskRequest)
    requires req.Valid()
    ensures (exists xs :: CutOff(g, Start(req), xs)) <==> OracleDecides(g, req) && req.maxIterations == 50
  {
    CutOffIff(g, Start(req));
    LimitSufficesIff(g, req);
  }

  /** From wherever it started, a run that is over says running exactly if the limit ended it or it
      delivered the empty text. */
  lemma StoppedSaysRunningIff(g: Graph, req: TaskRequest, c: Config, xs: seq<Choice>)
    requires req.Valid() && Reachable(g, req, c) && Stops(g, c, xs)
    ensures var end := Run(g, c, xs).state;
            MaterializeStatus(end) == Running <==> CutOff(g, c, xs) || end.delivery == Some("")
  {
    RunIsReachable(g, req, c, xs);
    RunningMeansInFlightIff(g, req, Run(g, c, xs));
    StatusAgrees(g, req, Run(g, c, xs));
  }

  /** A run the limit ended has delivered nothing, not even the empty text. */
  lemma CutOffDeliversNothing(g: Graph, req: TaskRequest, c: Config, xs: seq<Choice>)
    requires req.Valid() && Reachable(g, req, c) && CutOff(g, c, xs)
    ensures Run(g, c, xs).state.delivery.None? && MaterializeStatus(Run(g, c, xs).state) == Running
  {
    var end := Run(g, c, xs);
    RunIsReachable(g, req, c, xs);
    ReachableFacts(g, req, end);
    StatusAgrees(g, req, end);
    if end.state.delivery.Some? {
      DeliveredHasHalted(g, req, end);
    }
  }
}
