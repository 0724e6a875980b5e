/** How many supersteps an uninterrupted run takes: a measure that every superstep decreases, runs
    that attain it, and the recursion limit it has to fit. */
module RunBounds {
  import opened Wrappers
  import opened Messages
  import opened TaskStates
  import opened Routers
  import opened Roles
  import opened Service
  import opened RunInvariants
  import opened RunTheorems

  // ---------- the measure ----------

  /** Supersteps from a developer turn that starts at `devRound` to the end of the tool loop. */
  function TurnCost(devRound: nat): nat {
    if devRound >= MAX_DEV_ROUNDS then 1 else 2 * (MAX_DEV_ROUNDS - devRound) + 1
  }

  /** Supersteps of one round: a full tool loop, and the nodes that judge it. */
  function RoundCost(g: Graph, req: TaskRequest): nat {
    if g == Goal && !OracleDecides(g, req) then REACT_TURN_STEPS + 2 else REACT_TURN_STEPS + 1
  }

  /** Supervisor calls still to come once `round` rounds are over. */
  function CallsAhead(req: TaskRequest, round: nat): int {
    (req.maxIterations - 1) / STUCK_EVERY - round / STUCK_EVERY
  }

  /** Rounds that can follow the one under way. */
  function RoundsAhead(g: Graph, req: TaskRequest, verifyRound: nat, revisionRound: nat): int {
    if OracleDecides(g, req) then req.maxIterations - verifyRound - 1 else req.maxRevisions - revisionRound
  }

  /** What can follow the round under way: more rounds, supervisor calls at `perCall` supersteps
      each, and delivery. */
  function After(g: Graph, req: TaskRequest, verifyRound: nat, revisionRound: nat, perCall: nat): int {
    var n := RoundsAhead(g, req, verifyRound, revisionRound);
    1 + (if RoundCost(g, req) == REACT_TURN_STEPS + 1 then (REACT_TURN_STEPS + 1) * n else (REACT_TURN_STEPS + 2) * n)
    + if OracleDecides(g, req) then perCall * CallsAhead(req, verifyRound) else 0
  }

  /** An upper bound on the supersteps left at `node`, when every supervisor call is charged
      `perCall`. */
  function BoundAt(
    g: Graph, req: TaskRequest, node: Node, devRound: nat, verifyRound: nat, revisionRound: nat, perCall: nat): int
  {
    var judges := RoundCost(g, req) - REACT_TURN_STEPS;
    var after := After(g, req, verifyRound, revisionRound, perCall);
    match node
    case AtDeveloper => TurnCost(devRound) + judges + after
    case AtTools => 1 + TurnCost(devRound) + judges + after
    case AtPlanner => 1 + REACT_TURN_STEPS + judges + after
    case AtVerify => judges + after
    case AtReviewer => 1 + after
    case AtSupervisor => perCall + REACT_TURN_STEPS + judges + after
    case AtDelivery => 1
    case End => 0
  }

  function Bound(g: Graph, req: TaskRequest, c: Config, perCall: nat): int {
    BoundAt(g, req, c.node, c.state.devRound, c.state.verifyRound, c.state.revisionRound, perCall)
  }

  predicate IsReplan(c: Config, x: Choice) {
    c.node == AtSupervisor && x.stuck.action == Replan
  }

  /** What a superstep may cost beyond one when calls are charged `perCall` of at most two. */
  function Surcharge(c: Config, x: Choice, perCall: nat): nat {
    if IsReplan(c, x) && perCall == 1 then 1 else 0
  }

  /** What the measure needs to know about the tool budget. */
  predicate TurnFacts(c: Config) {
    TurnInv(c) && (c.node == AtSupervisor ==> c.state.devRound == 0)
  }

  lemma ToolLoopDecreases(g: Graph, req: TaskRequest, c: Config, x: Choice, perCall: nat)
    requires ModeInv(g, req, c) && TurnFacts(c)
    requires c.node == AtDeveloper || c.node == AtTools || c.node == AtPlanner
    ensures Bound(g, req, Step(g, c, x), perCall) + 1 <= Bound(g, req, c, perCall)
  {
  }

  lemma NextMultiple(v: nat)
    ensures (v + 1) / STUCK_EVERY == v / STUCK_EVERY + if (v + 1) % STUCK_EVERY == 0 then 1 else 0
  {
  }

  /** Where a verification leads. */
  function AfterVerify(req: TaskRequest, round: nat, passed: bool): Node {
    if passed then AtDelivery
    else if round >= req.maxIterations then End
    else if round % STUCK_EVERY == 0 then AtSupervisor
    else AtDeveloper
  }

  lemma VerifyOutcome(g: Graph, req: TaskRequest, c: Config, x: Choice)
    requires ModeInv(g, req, c) && TurnFacts(c) && c.node == AtVerify
    ensures var c', passed := Step(g, c, x), x.exitCode == Some(0);
            && c'.state.revisionRound == c.state.revisionRound
            && if OracleDecides(g, req) then
                 && c'.state.verifyRound == c.state.verifyRound + 1
                 && c'.node == AfterVerify(req, c.state.verifyRound + 1, passed)
                 && (!passed ==> c'.state.devRound == 0)
               else c'.node == AtReviewer && c'.state.verifyRound == c.state.verifyRound
  {
  }

  lemma VerifyBound(g: Graph, req: TaskRequest, round: nat, devRound: nat, passed: bool, perCall: nat)
    requires OracleDecides(g, req) && round < req.maxIterations && 1 <= perCall <= 2
    requires !passed ==> devRound == 0
    ensures var here := BoundAt(g, req, AtVerify, devRound, round, 0, perCall);
            var there := BoundAt(g, req, AfterVerify(req, round + 1, passed), devRound, round + 1, 0, perCall);
            && there + 1 <= here
            && (passed == (round + 1 == req.maxIterations) ==> there + 1 == here)
  {
    NextMultiple(round);
  }

  lemma VerifyDecreases(g: Graph, req: TaskRequest, c: Config, x: Choice, perCall: nat)
    requires req.Valid() && ModeInv(g, req, c) && TurnFacts(c) && c.node == AtVerify
    requires 1 <= perCall <= 2
    ensures var here, there := Bound(g, req, c, perCall), Bound(g, req, Step(g, c, x), perCall);
            && there + 1 <= here
            && ((x.exitCode == Some(0)) == (c.state.verifyRound + 1 == req.maxIterations) || !OracleDecides(g, req) ==>
                  there + 1 == here)
  {
    VerifyOutcome(g, req, c, x);
    if OracleDecides(g, req) {
      var s' := Step(g, c, x).state;
      VerifyBound(g, req, c.state.verifyRound, s'.devRound, x.exitCode == Some(0), perCall);
    }
  }

  lemma SupervisorDecreases(g: Graph, req: TaskRequest, c: Config, x: Choice, perCall: nat)
    requires req.Valid() && ModeInv(g, req, c) && TurnFacts(c) && c.node == AtSupervisor
    requires 1 <= perCall <= 2
    ensures Bound(g, req, Step(g, c, x), perCall) + 1 <= Bound(g, req, c, perCall) + Surcharge(c, x, perCall)
  {
  }

  /** Where a review leads. */
  lemma ReviewOutcome(g: Graph, req: TaskRequest, c: Config, x: Choice)
    requires ModeInv(g, req, c) && TurnFacts(c) && c.node == AtReviewer
    ensures !OracleDecides(g, req)
    ensures var c' := Step(g, c, x);
            && c'.state.verifyRound == c.state.verifyRound && c'.state.revisionRound == c.state.revisionRound + 1
            && (c'.node == AtDeveloper ==> c'.state.devRound == 0)
            && c'.node ==
                 if x.review.decision == Approved then AtDelivery
                 else if x.review.decision == NeedUserDecision || c.state.revisionRound + 1 > req.maxRevisions then End
                 else AtDeveloper
  {
  }

  lemma ReviewerDecreases(g: Graph, req: TaskRequest, c: Config, x: Choice, perCall: nat)
    requires ModeInv(g, req, c) && TurnFacts(c) && c.node == AtReviewer
    ensures Bound(g, req, Step(g, c, x), perCall) + 1 <= Bound(g, req, c, perCall)
  {
    ReviewOutcome(g, req, c, x);
  }

  /** Every superstep decreases the measure, so every uninterrupted run ends. */
  lemma StepDecreases(g: Graph, req: TaskRequest, c: Config, x: Choice, perCall: nat)
    requires req.Valid() && ModeInv(g, req, c) && TurnFacts(c) && c.node != End
    requires 1 <= perCall <= 2
    ensures Bound(g, req, Step(g, c, x), perCall) + 1 <= Bound(g, req, c, perCall) + Surcharge(c, x, perCall)
  {
    match c.node {
      case AtVerify => VerifyDecreases(g, req, c, x, perCall);
      case AtSupervisor => SupervisorDecreases(g, req, c, x, perCall);
      case AtReviewer => ReviewerDecreases(g, req, c, x, perCall);
      case AtDelivery =>
      case _ => ToolLoopDecreases(g, req, c, x, perCall);
    }
  }

  lemma StepKeepsTurnFacts(g: Graph, c: Config, x: Choice)
    requires TurnFacts(c)
    ensures TurnFacts(Step(g, c, x))
  {
  }

  lemma ResumeKeepsTurnFacts(g: Graph, req: TaskRequest, c: Config, directive: string)
    requires ModeInv(g, req, c) && TurnFacts(c) && Enabled(c, UserDecision(directive))
    ensures TurnFacts(Resume(c, directive))
  {
  }

  lemma BoundIsPositive(g: Graph, req: TaskRequest, c: Config, perCall: nat)
    requires req.Valid() && ModeInv(g, req, c) && perCall <= 2
    ensures Bound(g, req, c, perCall) >= if c.node == End then 0 else 1
  {
  }

  /** Every round already spent leaves at least that much less. */
  lemma AfterShrinks(g: Graph, req: TaskRequest, verifyRound: nat, revisionRound: nat, perCall: nat)
    requires perCall <= 2
    requires OracleDecides(g, req) || verifyRound == 0
    ensures After(g, req, verifyRound, revisionRound, perCall) + 18 * verifyRound <= After(g, req, 0, 0, perCall)
  {
    assert verifyRound / STUCK_EVERY >= 0 == 0 / STUCK_EVERY;
  }

  /** No configuration of a task, not even one after a resume, has more ahead than the start. */
  lemma StartIsWorst(g: Graph, req: TaskRequest, c: Config, perCall: nat)
    requires req.Valid() && ModeInv(g, req, c) && TurnFacts(c) && 1 <= perCall <= 2
    ensures Bound(g, req, c, perCall) <= BoundAt(g, req, AtPlanner, 0, 0, 0, perCall)
  {
    BoundIsPositive(g, req, c, perCall);
    AfterShrinks(g, req, c.state.verifyRound, c.state.revisionRound, perCall);
    StartIsPositive(g, req, perCall);
  }

  lemma StartIsPositive(g: Graph, req: TaskRequest, perCall: nat)
    requires req.Valid()
    ensures After(g, req, 0, 0, perCall) >= 1
  {
  }

  lemma {:induction false} LifeTurnFacts(g: Graph, req: TaskRequest, actions: seq<Action>)
    requires req.Valid() && Life(g, req, actions).Some?
    ensures TurnFacts(Life(g, req, actions).value)
    decreases |actions|
  {
    if actions != [] {
      LifeTurnFacts(g, req, actions[..|actions| - 1]);
      LifeFacts(g, req, actions[..|actions| - 1]);
      var c := Life(g, req, actions[..|actions| - 1]).value;
      match actions[|actions| - 1] {
        case Superstep(x) => StepKeepsTurnFacts(g, c, x);
        case UserDecision(d) => ResumeKeepsTurnFacts(g, req, c, d);
      }
    }
  }

  // ---------- every run ----------

  function Replans(g: Graph, c: Config, xs: seq<Choice>): nat
    decreases |xs|
  {
    if xs == [] then 0
    else (if IsReplan(c, xs[0]) then 1 else 0) + Replans(g, Step(g, c, xs[0]), xs[1..])
  }

  lemma {:induction false} RunWithinBound(g: Graph, req: TaskRequest, c: Config, xs: seq<Choice>, perCall: nat)
    requires req.Valid() && ModeInv(g, req, c) && TurnFacts(c) && Live(g, c, xs)
    requires 1 <= perCall <= 2
    ensures |xs| <= Bound(g, req, c, perCall) + if perCall == 1 then Replans(g, c, xs) else 0
    decreases |xs|
  {
    BoundIsPositive(g, req, c, perCall);
    if xs != [] {
      StepDecreases(g, req, c, xs[0], perCall);
      StepKeepsMode(g, req, c, xs[0]);
      StepKeepsTurnFacts(g, c, xs[0]);
      RunWithinBound(g, req, Step(g, c, xs[0]), xs[1..], perCall);
    }
  }

  // ---------- runs that attain the bound ----------

  /** The outside world at its slowest: tool calls while there is budget, failure while there are
      rounds, revisions while there are any, and a replan when one is wanted. */
  function Slowest(g: Graph, req: TaskRequest, c: Config, replan: bool): Choice {
    Choice("", "", "", [ToolCall("", "")], [],
           if c.state.verifyRound + 1 < req.maxIterations then Some(1) else Some(0), "",
           ReviewerDecision(if c.state.revisionRound < req.maxRevisions then RevisionRequired else Approved, "", []),
           StuckDecision(if replan then Replan else Continue, "", ""), "")
  }

  lemma SlowestTurn(g: Graph, req: TaskRequest, c: Config, replan: bool)
    requires ModeInv(g, req, c) && TurnFacts(c) && c.node == AtDeveloper
    ensures Bound(g, req, Step(g, c, Slowest(g, req, c, replan)), 1) + 1 == Bound(g, req, c, 1)
  {
  }

  lemma SlowestTools(g: Graph, req: TaskRequest, c: Config, replan: bool)
    requires ModeInv(g, req, c) && TurnFacts(c) && c.node == AtTools
    ensures Bound(g, req, Step(g, c, Slowest(g, req, c, replan)), 1) + 1 == Bound(g, req, c, 1)
  {
  }

  lemma SlowestPlanner(g: Graph, req: TaskRequest, c: Config, replan: bool)
    requires ModeInv(g, req, c) && TurnFacts(c) && c.node == AtPlanner
    ensures Bound(g, req, Step(g, c, Slowest(g, req, c, replan)), 1) + 1 == Bound(g, req, c, 1)
  {
  }

  lemma SlowestSupervisor(g: Graph, req: TaskRequest, c: Config, replan: bool)
    requires req.Valid() && ModeInv(g, req, c) && TurnFacts(c) && c.node == AtSupervisor
    ensures var x := Slowest(g, req, c, replan);
            Bound(g, req, Step(g, c, x), 1) + 1 == Bound(g, req, c, 1) + Surcharge(c, x, 1)
  {
  }

  lemma SlowestReviewer(g: Graph, req: TaskRequest, c: Config, replan: bool)
    requires ModeInv(g, req, c) && TurnFacts(c) && c.node == AtReviewer
    ensures Bound(g, req, Step(g, c, Slowest(g, req, c, replan)), 1) + 1 == Bound(g, req, c, 1)
  {
    ReviewOutcome(g, req, c, Slowest(g, req, c, replan));
  }

  lemma SlowestIsTight(g: Graph, req: TaskRequest, c: Config, replan: bool)
    requires req.Valid() && ModeInv(g, req, c) && TurnFacts(c) && c.node != End
    ensures var x := Slowest(g, req, c, replan);
            Bound(g, req, Step(g, c, x), 1) + 1 == Bound(g, req, c, 1) + Surcharge(c, x, 1)
  {
    match c.node {
      case AtVerify => VerifyDecreases(g, req, c, Slowest(g, req, c, replan), 1);
      case AtSupervisor => SlowestSupervisor(g, req, c, replan);
      case AtReviewer => SlowestReviewer(g, req, c, replan);
      case AtDelivery =>
      case AtPlanner => SlowestPlanner(g, req, c, replan);
      case AtDeveloper => SlowestTurn(g, req, c, replan);
      case AtTools => SlowestTools(g, req, c, replan);
    }
  }

  /** Supervisor calls of the slowest run from `c` on. */
  function CallsLeft(req: TaskRequest, c: Config): int {
    CallsAhead(req, c.state.verifyRound) + if c.node == AtSupervisor then 1 else 0
  }

  lemma SlowestKeepsCalls(g: Graph, req: TaskRequest, c: Config, replan: bool)
    requires req.Valid() && OracleDecides(g, req) && ModeInv(g, req, c) && c.node != End
    requires c.node != AtDelivery && TurnFacts(c)
    ensures var c' := Step(g, c, Slowest(g, req, c, replan));
            var left := CallsLeft(req, c) - if c.node == AtSupervisor then 1 else 0;
            left > 0 ==> CallsLeft(req, c') == left && c'.node != End && c'.node != AtDelivery
  {
    if c.node == AtVerify {
      VerifyOutcome(g, req, c, Slowest(g, req, c, replan));
      NextMultiple(c.state.verifyRound);
    }
  }

  /** One superstep of the slowest run, with what is left to it. */
  lemma SlowestStep(g: Graph, req: TaskRequest, c: Config, replans: nat)
    requires req.Valid() && ModeInv(g, req, c) && TurnFacts(c) && c.node != End
    requires replans > 0 ==> OracleDecides(g, req) && c.node != AtDelivery && replans <= CallsLeft(req, c)
    ensures var x := Slowest(g, req, c, replans > 0);
            var c' := Step(g, c, x);
            var rest := replans - if IsReplan(c, x) then 1 else 0;
            && ModeInv(g, req, c') && TurnFacts(c')
            && rest >= 0 && (rest > 0 ==> c'.node != End && c'.node != AtDelivery && rest <= CallsLeft(req, c'))
            && Bound(g, req, c', 1) + rest + 1 == Bound(g, req, c, 1) + replans
            && Bound(g, req, c', 2) < Bound(g, req, c, 2)
  {
    var x := Slowest(g, req, c, replans > 0);
    StepKeepsMode(g, req, c, x);
    StepKeepsTurnFacts(g, c, x);
    StepDecreases(g, req, c, x, 2);
    SlowestIsTight(g, req, c, replans > 0);
    if replans > 0 {
      SlowestKeepsCalls(g, req, c, replans > 0);
    }
  }

  lemma RunCons(g: Graph, c: Config, x: Choice, tail: seq<Choice>)
    requires c.node != End && Live(g, Step(g, c, x), tail)
    ensures Live(g, c, [x] + tail) && Run(g, c, [x] + tail) == Run(g, Step(g, c, x), tail)
    ensures Replans(g, c, [x] + tail) == Replans(g, Step(g, c, x), tail) + if IsReplan(c, x) then 1 else 0
  {
    assert ([x] + tail)[1..] == tail;
  }

  /** From every configuration a run of exactly this length, with exactly this many replans, exists. */
  lemma {:induction false} LongestRun(g: Graph, req: TaskRequest, c: Config, replans: nat) returns (xs: seq<Choice>)
    requires req.Valid() && ModeInv(g, req, c) && TurnFacts(c)
    requires replans > 0 ==>
               OracleDecides(g, req) && c.node != End && c.node != AtDelivery && replans <= CallsLeft(req, c)
    ensures Live(g, c, xs) && Run(g, c, xs).node == End
    ensures |xs| == Bound(g, req, c, 1) + replans && Replans(g, c, xs) == replans
    decreases Bound(g, req, c, 2)
  {
    BoundIsPositive(g, req, c, 2);
    if c.node == End {
      xs := [];
    } else {
      var x := Slowest(g, req, c, replans > 0);
      SlowestStep(g, req, c, replans);
      BoundIsPositive(g, req, Step(g, c, x), 2);
      var tail := LongestRun(g, req, Step(g, c, x), replans - if IsReplan(c, x) then 1 else 0);
      RunCons(g, c, x, tail);
      xs := [x] + tail;
    }
  }

  // ---------- the tool loop ----------

  /** `xs` is nothing but rounds of the tool loop: developer, tools, developer. */
  predicate OnlyDetours(g: Graph, c: Config, xs: seq<Choice>)
    decreases |xs|
  {
    if |xs| < 2 then xs == []
    else
      var tools := Step(g, c, xs[0]);
      c.node == AtDeveloper && tools.node == AtTools && OnlyDetours(g, Step(g, tools, xs[1]), xs[2..])
  }

  /** A turn goes round the tool loop no more often than its budget has rounds left. */
  lemma {:induction false} DetoursAreBounded(g: Graph, c: Config, xs: seq<Choice>)
    requires OnlyDetours(g, c, xs)
    ensures |xs| % 2 == 0
    ensures xs != [] ==> |xs| / 2 + c.state.devRound <= MAX_DEV_ROUNDS
    decreases |xs|
  {
    if xs != [] {
      var tools := Step(g, c, xs[0]);
      assert !BudgetUsed(c.state);
      DetoursAreBounded(g, Step(g, tools, xs[1]), xs[2..]);
    }
  }

  // ---------- the numbers ----------

  /** The length of the longest uninterrupted run of a request. */
  function LongestLength(g: Graph, req: TaskRequest): nat
    requires req.Valid()
  {
    if OracleDecides(g, req) then
      2 + 18 * req.maxIterations + 2 * ((req.maxIterations - 1) / STUCK_EVERY)
    else if g == Goal then 2 + 19 * (req.maxRevisions + 1)
    else 2 + 18 * (req.maxRevisions + 1)
  }

  lemma StartBound(g: Graph, req: TaskRequest)
    requires req.Valid()
    ensures Bound(g, req, Start(req), 2) == LongestLength(g, req)
    ensures OracleDecides(g, req) ==>
              && Bound(g, req, Start(req), 1) == 2 + 18 * req.maxIterations + (req.maxIterations - 1) / STUCK_EVERY
              && CallsLeft(req, Start(req)) == (req.maxIterations - 1) / STUCK_EVERY
    ensures !OracleDecides(g, req) ==> Bound(g, req, Start(req), 1) == LongestLength(g, req)
  {
  }

  lemma ReachableBound(g: Graph, req: TaskRequest, c: Config)
    requires req.Valid() && Reachable(g, req, c)
    ensures ModeInv(g, req, c) && TurnFacts(c) && Bound(g, req, c, 2) <= LongestLength(g, req)
  {
    var actions :| Life(g, req, actions) == Some(c);
    LifeFacts(g, req, actions);
    LifeTurnFacts(g, req, actions);
    StartIsWorst(g, req, c, 2);
    StartBound(g, req);
  }

  /** From any configuration a task can reach, after any resumes, a run halts within this many
      supersteps. */
  lemma RunsEnd(g: Graph, req: TaskRequest, c: Config, xs: seq<Choice>)
    requires req.Valid() && Reachable(g, req, c) && Live(g, c, xs)
    ensures |xs| <= LongestLength(g, req)
  {
    ReachableBound(g, req, c);
    RunWithinBound(g, req, c, xs, 2);
  }

  /** One run from the start takes exactly as many. */
  lemma BoundIsAttained(g: Graph, req: TaskRequest) returns (xs: seq<Choice>)
    requires req.Valid()
    ensures Live(g, Start(req), xs) && |xs| == LongestLength(g, req) && Run(g, Start(req), xs).node == End
  {
    StartBound(g, req);
    StartFacts(g, req);
    var calls := if OracleDecides(g, req) then (req.maxIterations - 1) / STUCK_EVERY else 0;
    xs := LongestRun(g, req, Start(req), calls);
  }

  /** Where an oracle decides, the length is governed by the replans: this many are possible, and a
      run with exactly `replans` of them can take exactly this long but not longer. */
  lemma ReplansSetTheLength(req: TaskRequest, replans: nat) returns (longest: seq<Choice>)
    requires req.Valid() && OracleDecides(Goal, req)
    requires replans <= (req.maxIterations - 1) / STUCK_EVERY
    ensures var length := 2 + 18 * req.maxIterations + (req.maxIterations - 1) / STUCK_EVERY + replans;
            && Live(Goal, Start(req), longest) && |longest| == length
            && Replans(Goal, Start(req), longest) == replans
            && forall xs | Live(Goal, Start(req), xs) && Replans(Goal, Start(req), xs) == replans :: |xs| <= length
  {
    StartBound(Goal, req);
    StartFacts(Goal, req);
    longest := LongestRun(Goal, req, Start(req), replans);
    forall xs | Live(Goal, Start(req), xs) && Replans(Goal, Start(req), xs) == replans
      ensures |xs| <= |longest|
    {
      RunWithinBound(Goal, req, Start(req), xs, 1);
    }
  }

  /** The recursion limit covers every run of a request exactly when the request does not ask for
      the full fifty oracle rounds. */
  lemma LimitSufficesIff(g: Graph, req: TaskRequest)
    requires req.maxRevisions <= 10 && 1 <= req.maxIterations <= 50
    ensures (forall xs :: Live(g, Start(req), xs) ==> |xs| <= GRAPH_RECURSION_LIMIT) <==>
            !(OracleDecides(g, req) && req.maxIterations == 50)
  {
    if OracleDecides(g, req) && req.maxIterations == 50 {
      var xs := BoundIsAttained(g, req);
      assert |xs| == 934;
    } else {
      forall xs | Live(g, Start(req), xs) ensures |xs| <= GRAPH_RECURSION_LIMIT {
        assert Life(g, req, []) == Some(Start(req));
        RunsEnd(g, req, Start(req), xs);
      }
    }
  }

  /** At fifty rounds a run is sure to fit with up to ten replans, and with every larger number it
      may not. */
  lemma FiftyRoundsFitIff(req: TaskRequest, replans: nat)
    requires req.Valid() && OracleDecides(Goal, req) && req.maxIterations == 50 && replans <= 16
    ensures (forall xs :: Live(Goal, Start(req), xs) && Replans(Goal, Start(req), xs) == replans ==>
                            |xs| <= GRAPH_RECURSION_LIMIT) <==>
            replans <= 10
  {
    var longest := ReplansSetTheLength(req, replans);
    assert |longest| == 918 + replans;
  }
}
