/** What a user decision does, when there is one to take, and other runs that are known to exist. */
module RunDirectives {
  import opened Wrappers
  import opened Messages
  import opened TaskStates
  import opened Routers
  import opened Roles
  import opened Service
  import opened RunInvariants
  import opened RunTheorems
  import opened RunBounds
  import opened ContextEngine

  // ---------- who sees the directive ----------

  /** A resume keeps the developer's transcript and its spent tool budget: the user's directive is
      not part of what the model sees in the next turn as soon as a transcript exists, and a
      developer that was out of tool turns stays out of them. */
  lemma ResumedDeveloperIgnoresDirective(c: Config, d1: string, d2: string, e: Engine, system: string)
    requires c.state.devMessages != []
    ensures LlmInput(e, Resume(c, d1).state, system) == LlmInput(e, Resume(c, d2).state, system)
    ensures LlmInput(e, Resume(c, d1).state, system) == LlmInput(e, c.state, system)
    ensures BudgetUsed(Resume(c, d1).state) == BudgetUsed(c.state)
  {
  }

  lemma {:induction false} BulletsSnoc(items: seq<string>, item: string)
    ensures Bullets(items + [item]) == Bullets(items) + "\n- " + item
  {
    if items == [] {
      assert items + [item] == [item];
    } else {
      BulletsSnoc(items[1..], item);
      assert (items + [item])[1..] == items[1..] + [item];
    }
  }

  /** The directives of a prompt up to the next one. */
  function DirectivesSoFar(directives: seq<string>): string {
    "\n\n# User directives (apply in order)" + Bullets(directives) + "\n- "
  }

  lemma DirectivesLayerSnoc(directives: seq<string>, d: string)
    ensures DirectivesLayer(directives + [d]) == DirectivesSoFar(directives) + d
  {
    BulletsSnoc(directives, d);
  }

  lemma Around(before: string, d1: string, d2: string, after: string)
    ensures before + d1 + after == before + d2 + after <==> d1 == d2
  {
    if before + d1 + after == before + d2 + after {
      assert d1 == (before + d1 + after)[|before|..|before| + |d1|];
      assert d2 == (before + d2 + after)[|before|..|before| + |d2|];
    }
  }

  /** A first prompt after a resume: the directive, between what does not depend on it. */
  lemma PromptAfterResume(c: Config, d: string, system: string)
    ensures var before := PlanAndTask(c.state) + DirectivesSoFar(c.state.userDirectives);
            var after := FeedbackLayer(ApplyUserDecision(c.state, "").review, c.state.revisionRound, c.state.code);
            BuildPrompt(Resume(c, d).state, system) == [System(system), Human(before + d + after)]
  {
    var s := Resume(c, d).state;
    var task, soFar := PlanAndTask(c.state), DirectivesSoFar(c.state.userDirectives);
    DirectivesLayerSnoc(c.state.userDirectives, d);
    assert PlanAndTask(s) == task && s.userDirectives == c.state.userDirectives + [d];
    Joined(task, soFar, d);
  }

  lemma Joined(a: string, b: string, c: string)
    ensures a + (b + c) == a + b + c
  {
  }

  /** Two resumes that differ in their directive lead to different conversations exactly when there is
      no transcript yet. */
  lemma DirectiveIsSeenIff(c: Config, d1: string, d2: string, system: string)
    requires d1 != d2
    ensures Convo(Resume(c, d1).state, system) != Convo(Resume(c, d2).state, system) <==> c.state.devMessages == []
  {
    if c.state.devMessages == [] {
      var before := PlanAndTask(c.state) + DirectivesSoFar(c.state.userDirectives);
      var after := FeedbackLayer(ApplyUserDecision(c.state, "").review, c.state.revisionRound, c.state.code);
      PromptAfterResume(c, d1, system);
      PromptAfterResume(c, d2, system);
      Around(before, d1, d2, after);
      NoteKeepsDifference(system, before + d1 + after, before + d2 + after);
    }
  }

  lemma NoteKeepsDifference(system: string, h1: string, h2: string)
    requires h1 != h2
    ensures AppendBudgetNote([System(system), Human(h1)]) != AppendBudgetNote([System(system), Human(h2)])
  {
    var note := "\n\n" + BUDGET_EXHAUSTED_NOTE;
    Around("", h1, h2, note);
    assert "" + h1 == h1 && "" + h2 == h2;
    assert AppendBudgetNote([System(system), Human(h1)])[1] == Human(h1 + note);
    assert AppendBudgetNote([System(system), Human(h2)])[1] == Human(h2 + note);
  }

  /** Every run that waits for a human has a transcript, so its directive is not seen. */
  lemma WaitingRunHasTranscript(g: Graph, req: TaskRequest, c: Config, directive: string)
    requires req.Valid() && Reachable(g, req, c)
    requires Enabled(c, UserDecision(directive))
    ensures c.state.devMessages != []
  {
    ReachableFacts(g, req, c);
  }

  // ---------- when a run waits ----------

  lemma StepIsReachable(g: Graph, req: TaskRequest, c: Config, x: Choice)
    requires Reachable(g, req, c) && c.node != End
    ensures Reachable(g, req, Step(g, c, x))
  {
    var actions :| Life(g, req, actions) == Some(c);
    var more := actions + [Superstep(x)];
    assert more[..|more| - 1] == actions;
    assert Life(g, req, more) == Some(Step(g, c, x));
  }

  /** A set of configurations that supersteps do not leave. */
  ghost predicate Closed(g: Graph, req: TaskRequest, within: Config -> bool) {
    && (forall c, x :: within(c) && c.node != End ==> within(Step(g, c, x)))
    && (forall c :: within(c) ==> ModeInv(g, req, c) && TurnFacts(c))
  }

  lemma ReachableIsClosed(g: Graph, req: TaskRequest)
    requires req.Valid()
    ensures Closed(g, req, c => Reachable(g, req, c))
  {
    forall c, x | Reachable(g, req, c) && c.node != End ensures Reachable(g, req, Step(g, c, x)) {
      StepIsReachable(g, req, c, x);
    }
    forall c | Reachable(g, req, c) ensures ModeInv(g, req, c) && TurnFacts(c) {
      ReachableBound(g, req, c);
    }
  }

  /** No tools, no success, and everyone asks the user. */
  function Undecided(): Choice {
    Choice("", "", "", [], [], Some(1), "",
           ReviewerDecision(NeedUserDecision, "", []), StuckDecision(AskUser, "", ""), "")
  }

  lemma UndecidedTurn(g: Graph, c: Config)
    ensures var c' := Step(g, c, Undecided());
            && (c.node != AtVerify ==> c'.state.verifyRound == c.state.verifyRound)
            && (c.node == AtPlanner ==> c'.node == AtDeveloper)
            && (c.node == AtDeveloper ==> c'.node == if g == Goal then AtVerify else AtReviewer)
            && (c.node == AtSupervisor || c.node == AtReviewer ==> PendingHuman(c'.history))
  {
  }

  /** An oracle round that fails. */
  lemma RoundFails(g: Graph, req: TaskRequest, c: Config, within: Config -> bool) returns (c': Config)
    requires OracleDecides(g, req) && Closed(g, req, within) && within(c) && c.node == AtDeveloper
    ensures within(c') && c'.state.verifyRound == c.state.verifyRound + 1
    ensures c'.node == AfterVerify(req, c.state.verifyRound + 1, false)
  {
    var judged := Step(g, c, Undecided());
    UndecidedTurn(g, c);
    assert within(judged) && ModeInv(g, req, judged);
    VerifyOutcome(g, req, judged, Undecided());
    c' := Step(g, judged, Undecided());
  }

  /** A run whose first `n` rounds fail. */
  lemma {:induction false} FailingRun(g: Graph, req: TaskRequest, n: nat, within: Config -> bool) returns (c: Config)
    requires OracleDecides(g, req) && n <= STUCK_EVERY < req.maxIterations
    requires Closed(g, req, within) && within(Start(req))
    ensures within(c) && c.state.verifyRound == n
    ensures c.node == if n == STUCK_EVERY then AtSupervisor else AtDeveloper
  {
    if n == 0 {
      c := Step(g, Start(req), Undecided());
      UndecidedTurn(g, Start(req));
    } else {
      c := FailingRun(g, req, n - 1, within);
      c := RoundFails(g, req, c, within);
    }
  }

  /** A run in which the supervisor asks after three failures. */
  lemma SupervisorIsAsked(g: Graph, req: TaskRequest, within: Config -> bool) returns (c: Config)
    requires OracleDecides(g, req) && req.maxIterations > STUCK_EVERY
    requires Closed(g, req, within) && within(Start(req))
    ensures within(c) && PendingHuman(c.history)
  {
    var stuck := FailingRun(g, req, STUCK_EVERY, within);
    c := Step(g, stuck, Undecided());
    UndecidedTurn(g, stuck);
  }

  /** A run in which the reviewer asks after the first turn. */
  lemma ReviewerIsAsked(g: Graph, req: TaskRequest, within: Config -> bool) returns (c: Config)
    requires !OracleDecides(g, req) && Closed(g, req, within) && within(Start(req))
    ensures within(c) && PendingHuman(c.history)
  {
    var first := Step(g, Start(req), Undecided());
    UndecidedTurn(g, Start(req));
    var answered := Step(g, first, Undecided());
    UndecidedTurn(g, first);
    if g == Goal {
      assert within(answered) && ModeInv(g, req, answered);
      VerifyOutcome(g, req, answered, Undecided());
      answered := Step(g, answered, Undecided());
    }
    c := Step(g, answered, Undecided());
    UndecidedTurn(g, answered);
  }

  lemma NobodyAskedLast(history: seq<Event>)
    requires SupervisorRounds(history) == [] && forall e | e in history :: !IsReview(e)
    ensures !PendingHuman(history)
  {
    assert history != [] ==> history[|history| - 1] in history;
  }

  lemma NoQuestionComes(g: Graph, req: TaskRequest, c: Config)
    requires req.Valid() && OracleDecides(g, req) && req.maxIterations <= STUCK_EVERY && Reachable(g, req, c)
    ensures !PendingHuman(c.history)
  {
    OracleRounds(g, req, c);
    ReachableFacts(g, req, c);
    NobodyAskedLast(c.history);
  }

  /** A pending question is a run that waits, and nothing else is. */
  lemma WaitsIff(g: Graph, req: TaskRequest, c: Config)
    requires req.Valid() && Reachable(g, req, c)
    ensures c.node == End && MaterializeStatus(c.state) == AwaitingUser <==> PendingHuman(c.history)
  {
    ReachableFacts(g, req, c);
    StatusAgrees(g, req, c);
  }

  /** Some run of a request waits for its user exactly if reviews decide, or the oracle may fail more
      than three times. */
  lemma WaitingIsReachableIff(g: Graph, req: TaskRequest)
    requires req.Valid()
    ensures (exists c :: Reachable(g, req, c) && MaterializeStatus(c.state) == AwaitingUser) <==>
            !(OracleDecides(g, req) && req.maxIterations <= STUCK_EVERY)
  {
    if OracleDecides(g, req) && req.maxIterations <= STUCK_EVERY {
      forall c | Reachable(g, req, c) ensures MaterializeStatus(c.state) != AwaitingUser {
        NoQuestionComes(g, req, c);
        StatusAgrees(g, req, c);
      }
    } else {
      var within := (c: Config) => Reachable(g, req, c);
      ReachableIsClosed(g, req);
      assert Life(g, req, []) == Some(Start(req)) && within(Start(req));
      var c;
      if OracleDecides(g, req) {
        c := SupervisorIsAsked(g, req, within);
      } else {
        c := ReviewerIsAsked(g, req, within);
      }
      WaitsIff(g, req, c);
    }
  }

  // ---------- a run that has halted and still says running ----------

  /** No tools, everyone agrees, and nothing is handed over. */
  function Agreed(): Choice {
    Choice("", "", "", [], [], Some(0), "",
           ReviewerDecision(Approved, "", []), StuckDecision(Continue, "", ""), "")
  }

  lemma AgreedTurn(g: Graph, c: Config)
    ensures var c' := Step(g, c, Agreed());
            && (c.node == AtPlanner ==> c'.node == AtDeveloper)
            && (c.node == AtDeveloper ==> c'.node == if g == Goal then AtVerify else AtReviewer)
            && (c.node == AtReviewer ==> c'.node == AtDelivery)
            && (c.node == AtDelivery ==> c'.node == End && c'.state.delivery == Some(""))
  {
  }

  /** Every request has a run that delivers the empty text. */
  lemma EmptyDeliveryIsReachable(g: Graph, req: TaskRequest) returns (c: Config)
    requires req.Valid()
    ensures Reachable(g, req, c) && c.node == End && MaterializeStatus(c.state) == Running
  {
    var within := (c: Config) => Reachable(g, req, c);
    ReachableIsClosed(g, req);
    assert Life(g, req, []) == Some(Start(req)) && within(Start(req));
    c := DeliversNothing(g, req, within);
    StatusAgrees(g, req, c);
  }

  lemma DeliversNothing(g: Graph, req: TaskRequest, within: Config -> bool) returns (c: Config)
    requires Closed(g, req, within) && within(Start(req))
    ensures within(c) && c.node == End && c.state.delivery == Some("")
  {
    var first := Step(g, Start(req), Agreed());
    AgreedTurn(g, Start(req));
    var answered := Step(g, first, Agreed());
    AgreedTurn(g, first);
    if g == Goal {
      assert within(answered) && ModeInv(g, req, answered);
      VerifyOutcome(g, req, answered, Agreed());
      answered := Step(g, answered, Agreed());
    }
    assert within(answered);
    if answered.node == AtReviewer {
      AgreedTurn(g, answered);
      answered := Step(g, answered, Agreed());
    }
    c := Step(g, answered, Agreed());
    AgreedTurn(g, answered);
  }
}
