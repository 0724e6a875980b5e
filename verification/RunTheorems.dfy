/** What holds of every configuration a task can reach, through any model output, exit codes, tool
    effects and user decisions. */
module RunTheorems {
  import opened Wrappers
  import opened Messages
  import opened TaskStates
  import opened Routers
  import opened Roles
  import opened Service
  import opened RunInvariants
  import opened ContextEngine
  import opened ContextEngineProofs

  // ---------- questions to the human, and deliveries ----------

  /** The last thing that happened is a question to the human. */
  predicate PendingHuman(history: seq<Event>) {
    history != [] &&
    match history[|history| - 1]
    case ReviewerCompleted(_, decision) => decision == NeedUserDecision
    case SupervisorDecided(_, action) => action == AskUser
    case _ => false
  }

  predicate Delivered(history: seq<Event>) {
    DeliveryCompleted in history
  }

  predicate HistoryInv(c: Config) {
    && (PendingHuman(c.history) <==> c.node == End && WaitsForHuman(c.state) && c.state.delivery.None?)
    && (Delivered(c.history) <==> c.state.delivery.Some?)
    && (c.node == AtDelivery ==>
          && c.history != []
          && match c.history[|c.history| - 1]
             case VerificationCompleted(_, passed) => passed
             case ReviewerCompleted(_, decision) => decision == Approved
             case _ => false)
  }

  lemma DeliveredSnoc(history: seq<Event>, emitted: seq<Event>)
    ensures Delivered(history + emitted) <==> Delivered(history) || Delivered(emitted)
  {
  }

  lemma TurnKeepsPending(g: Graph, req: TaskRequest, c: Config, x: Choice)
    requires req.Valid() && ModeInv(g, req, c) && HistoryInv(c) && (c.node == AtPlanner || c.node == AtDeveloper)
    ensures var c' := Step(g, c, x);
            PendingHuman(c'.history) <==> c'.node == End && WaitsForHuman(c'.state) && c'.state.delivery.None?
  {
  }

  lemma ToolsKeepPending(g: Graph, req: TaskRequest, c: Config, x: Choice)
    requires req.Valid() && ModeInv(g, req, c) && HistoryInv(c) && c.node == AtTools
    ensures var c' := Step(g, c, x);
            PendingHuman(c'.history) <==> c'.node == End && WaitsForHuman(c'.state) && c'.state.delivery.None?
  {
  }

  lemma VerifyKeepsPending(g: Graph, req: TaskRequest, c: Config, x: Choice)
    requires req.Valid() && ModeInv(g, req, c) && HistoryInv(c) && c.node == AtVerify
    ensures var c' := Step(g, c, x);
            PendingHuman(c'.history) <==> c'.node == End && WaitsForHuman(c'.state) && c'.state.delivery.None?
  {
  }

  lemma SupervisorKeepsPending(g: Graph, req: TaskRequest, c: Config, x: Choice)
    requires req.Valid() && ModeInv(g, req, c) && HistoryInv(c) && c.node == AtSupervisor
    ensures var c' := Step(g, c, x);
            PendingHuman(c'.history) <==> c'.node == End && WaitsForHuman(c'.state) && c'.state.delivery.None?
  {
  }

  lemma ReviewerKeepsPending(g: Graph, req: TaskRequest, c: Config, x: Choice)
    requires req.Valid() && ModeInv(g, req, c) && HistoryInv(c) && c.node == AtReviewer
    ensures var c' := Step(g, c, x);
            PendingHuman(c'.history) <==> c'.node == End && WaitsForHuman(c'.state) && c'.state.delivery.None?
  {
  }

  lemma DeliveryKeepsPending(g: Graph, req: TaskRequest, c: Config, x: Choice)
    requires req.Valid() && ModeInv(g, req, c) && HistoryInv(c) && c.node == AtDelivery
    ensures var c' := Step(g, c, x);
            PendingHuman(c'.history) <==> c'.node == End && WaitsForHuman(c'.state) && c'.state.delivery.None?
  {
  }

  lemma StepKeepsPending(g: Graph, req: TaskRequest, c: Config, x: Choice)
    requires req.Valid() && ModeInv(g, req, c) && c.node != End && HistoryInv(c)
    ensures var c' := Step(g, c, x);
            PendingHuman(c'.history) <==> c'.node == End && WaitsForHuman(c'.state) && c'.state.delivery.None?
  {
    match c.node {
      case AtTools => ToolsKeepPending(g, req, c, x);
      case AtVerify => VerifyKeepsPending(g, req, c, x);
      case AtSupervisor => SupervisorKeepsPending(g, req, c, x);
      case AtReviewer => ReviewerKeepsPending(g, req, c, x);
      case AtDelivery => DeliveryKeepsPending(g, req, c, x);
      case _ => TurnKeepsPending(g, req, c, x);
    }
  }

  lemma StepKeepsDelivered(g: Graph, req: TaskRequest, c: Config, x: Choice)
    requires c.node != End && HistoryInv(c)
    ensures var c' := Step(g, c, x); Delivered(c'.history) <==> c'.state.delivery.Some?
  {
    var emitted := Emitted(c.node, c.state, x);
    DeliveredSnoc(c.history, emitted);
    assert c.node == AtDelivery ==> emitted == [DeliveryCompleted];
  }

  lemma StepKeepsHistory(g: Graph, req: TaskRequest, c: Config, x: Choice)
    requires req.Valid() && ModeInv(g, req, c) && c.node != End && HistoryInv(c)
    ensures HistoryInv(Step(g, c, x))
  {
    StepKeepsPending(g, req, c, x);
    StepKeepsDelivered(g, req, c, x);
    EntersDelivery(g, req, c, x);
  }

  lemma EntersDelivery(g: Graph, req: TaskRequest, c: Config, x: Choice)
    requires req.Valid() && ModeInv(g, req, c) && c.node != End
    ensures var c' := Step(g, c, x);
            c'.node == AtDelivery ==>
              && c'.history != []
              && match c'.history[|c'.history| - 1]
                 case VerificationCompleted(_, passed) => passed
                 case ReviewerCompleted(_, decision) => decision == Approved
                 case _ => false
  {
  }

  lemma ResumeKeepsHistory(g: Graph, req: TaskRequest, c: Config, directive: string)
    requires ModeInv(g, req, c) && HistoryInv(c) && Enabled(c, UserDecision(directive))
    ensures HistoryInv(Resume(c, directive))
  {
    DeliveredSnoc(c.history, [UserDecisionApplied(directive)]);
  }

  // ---------- reviews ----------

  predicate IsReview(e: Event) {
    e.ReviewerCompleted?
  }

  /** The decision of the latest review. */
  function LatestReview(history: seq<Event>): Option<Decision> {
    if history == [] then None
    else if history[|history| - 1].ReviewerCompleted? then Some(history[|history| - 1].decision)
    else LatestReview(history[..|history| - 1])
  }

  predicate GateInv(g: Graph, req: TaskRequest, c: Config) {
    && (OracleDecides(g, req) ==> forall e | e in c.history :: !IsReview(e))
    && (!OracleDecides(g, req) && (c.node == AtDelivery || c.state.delivery.Some?) ==>
          LatestReview(c.history) == Some(Approved))
  }

  lemma LatestReviewSnoc(history: seq<Event>, e: Event)
    ensures LatestReview(history + [e]) == if IsReview(e) then Some(e.decision) else LatestReview(history)
  {
    assert (history + [e])[..|history|] == history;
  }

  /** With an oracle the reviewer never runs, so no superstep emits a review. */
  lemma StepKeepsOracleGate(g: Graph, req: TaskRequest, c: Config, x: Choice)
    requires req.Valid() && ModeInv(g, req, c) && c.node != End && GateInv(g, req, c) && OracleDecides(g, req)
    ensures forall e | e in Step(g, c, x).history :: !IsReview(e)
  {
    var emitted := Emitted(c.node, c.state, x);
    assert forall e | e in emitted :: !IsReview(e);
  }

  lemma LatestReviewStep(g: Graph, c: Config, x: Choice)
    ensures LatestReview(Step(g, c, x).history) ==
            if c.node == AtReviewer then Some(x.review.decision) else LatestReview(c.history)
  {
    var emitted := Emitted(c.node, c.state, x);
    assert Step(g, c, x).history == c.history + emitted;
    if emitted == [] {
      assert c.history + emitted == c.history;
    } else {
      assert emitted == [emitted[0]];
      LatestReviewSnoc(c.history, emitted[0]);
    }
  }

  /** Where delivery comes from when reviews decide. */
  lemma DeliveryComesFrom(g: Graph, req: TaskRequest, c: Config, x: Choice)
    requires req.Valid() && ModeInv(g, req, c) && c.node != End && !OracleDecides(g, req)
    ensures var c' := Step(g, c, x);
            && (c'.node == AtDelivery ==> c.node == AtReviewer && x.review.decision == Approved)
            && (c'.state.delivery.Some? ==> c.node == AtDelivery || (c.state.delivery.Some? && c.node != AtReviewer))
  {
  }

  /** Without an oracle, delivery comes right after an approval. */
  lemma StepKeepsReviewGate(g: Graph, req: TaskRequest, c: Config, x: Choice)
    requires req.Valid() && ModeInv(g, req, c) && c.node != End && GateInv(g, req, c) && !OracleDecides(g, req)
    ensures var c' := Step(g, c, x);
            c'.node == AtDelivery || c'.state.delivery.Some? ==> LatestReview(c'.history) == Some(Approved)
  {
    LatestReviewStep(g, c, x);
    DeliveryComesFrom(g, req, c, x);
  }

  lemma StepKeepsGate(g: Graph, req: TaskRequest, c: Config, x: Choice)
    requires req.Valid() && ModeInv(g, req, c) && c.node != End && GateInv(g, req, c)
    ensures GateInv(g, req, Step(g, c, x))
  {
    if OracleDecides(g, req) { StepKeepsOracleGate(g, req, c, x); } else { StepKeepsReviewGate(g, req, c, x); }
  }

  lemma ResumeKeepsGate(g: Graph, req: TaskRequest, c: Config, directive: string)
    requires ModeInv(g, req, c) && GateInv(g, req, c) && Enabled(c, UserDecision(directive))
    ensures GateInv(g, req, Resume(c, directive))
  {
    LatestReviewSnoc(c.history, UserDecisionApplied(directive));
  }

  // ---------- supervisor calls ----------

  /** The rounds at which the supervisor was asked. */
  function SupervisorRounds(history: seq<Event>): seq<nat> {
    if history == [] then []
    else
      var e := history[|history| - 1];
      SupervisorRounds(history[..|history| - 1]) + if e.SupervisorDecided? then [e.round] else []
  }

  /** 3, 6, ..., 3 * k */
  function Multiples(k: nat): seq<nat> {
    seq(k, i => 3 * (i + 1))
  }

  /** How many multiples of `STUCK_EVERY` are failed rounds below the ceiling, not counting one the
      supervisor is about to be asked about. */
  function SupervisorCalls(req: TaskRequest, c: Config): int {
    var failed := if LastPassed(c) then c.state.verifyRound - 1 else c.state.verifyRound;
    var below := if failed < req.maxIterations then failed else req.maxIterations - 1;
    below / STUCK_EVERY - if c.node == AtSupervisor then 1 else 0
  }

  predicate SupervisorInv(req: TaskRequest, c: Config) {
    var calls := SupervisorCalls(req, c);
    calls >= 0 && SupervisorRounds(c.history) == Multiples(calls)
  }

  lemma SupervisorRoundsSnoc(history: seq<Event>, e: Event)
    ensures SupervisorRounds(history + [e]) ==
            SupervisorRounds(history) + if e.SupervisorDecided? then [e.round] else []
  {
    assert (history + [e])[..|history|] == history;
  }

  lemma CallsAfterVerify(g: Graph, req: TaskRequest, c: Config, x: Choice)
    requires req.Valid() && OracleDecides(g, req) && ModeInv(g, req, c) && c.node == AtVerify
    ensures SupervisorCalls(req, Step(g, c, x)) == SupervisorCalls(req, c)
  {
    var c' := Step(g, c, x);
    var round := c.state.verifyRound;
    assert c'.state.verifyRound == round + 1 && LastPassed(c') == (x.exitCode == Some(0)) && !LastPassed(c);
    assert c'.node == AtSupervisor <==>
           !LastPassed(c') && round + 1 < req.maxIterations && (round + 1) % STUCK_EVERY == 0;
  }

  lemma SupervisorCallsStep(g: Graph, req: TaskRequest, c: Config, x: Choice)
    requires req.Valid() && OracleDecides(g, req) && ModeInv(g, req, c) && c.node != End
    ensures SupervisorCalls(req, Step(g, c, x)) ==
            SupervisorCalls(req, c) + if c.node == AtSupervisor then 1 else 0
  {
    if c.node == AtVerify {
      CallsAfterVerify(g, req, c, x);
    } else {
      var c' := Step(g, c, x);
      assert c'.verdicts == c.verdicts && c'.state.verifyRound == c.state.verifyRound && c'.node != AtSupervisor;
    }
  }

  lemma SupervisorRoundsStep(g: Graph, c: Config, x: Choice)
    ensures SupervisorRounds(Step(g, c, x).history) ==
            SupervisorRounds(c.history) + if c.node == AtSupervisor then [c.state.verifyRound] else []
  {
    var emitted := Emitted(c.node, c.state, x);
    assert Step(g, c, x).history == c.history + emitted;
    if emitted == [] {
      assert c.history + emitted == c.history;
    } else {
      assert emitted == [emitted[0]];
      SupervisorRoundsSnoc(c.history, emitted[0]);
      assert emitted[0].SupervisorDecided? <==> c.node == AtSupervisor;
    }
  }

  lemma StepKeepsSupervisor(g: Graph, req: TaskRequest, c: Config, x: Choice)
    requires req.Valid() && OracleDecides(g, req) && ModeInv(g, req, c) && c.node != End && SupervisorInv(req, c)
    ensures SupervisorInv(req, Step(g, c, x))
  {
    SupervisorCallsStep(g, req, c, x);
    SupervisorRoundsStep(g, c, x);
    if c.node == AtSupervisor {
      AskedAtTheNextMultiple(g, req, c);
      MultiplesSnoc(SupervisorCalls(req, c));
    } else {
      assert SupervisorRounds(c.history) + [] == SupervisorRounds(c.history);
    }
  }

  lemma MultiplesSnoc(k: nat)
    ensures Multiples(k + 1) == Multiples(k) + [STUCK_EVERY * (k + 1)]
  {
  }

  lemma AskedAtTheNextMultiple(g: Graph, req: TaskRequest, c: Config)
    requires OracleDecides(g, req) && ModeInv(g, req, c) && c.node == AtSupervisor
    ensures c.state.verifyRound == STUCK_EVERY * (SupervisorCalls(req, c) + 1)
  {
  }

  lemma ResumeLeadsElsewhere(c: Config, directive: string)
    ensures Resume(c, directive).node != AtSupervisor && Resume(c, directive).verdicts == c.verdicts
    ensures Resume(c, directive).state.verifyRound == c.state.verifyRound
  {
  }

  lemma ResumeKeepsSupervisor(g: Graph, req: TaskRequest, c: Config, directive: string)
    requires SupervisorInv(req, c) && Enabled(c, UserDecision(directive))
    ensures SupervisorInv(req, Resume(c, directive))
  {
    SupervisorRoundsSnoc(c.history, UserDecisionApplied(directive));
    assert SupervisorRounds(c.history) + [] == SupervisorRounds(c.history);
    ResumeKeepsCalls(req, c, directive);
  }

  lemma ResumeKeepsCalls(req: TaskRequest, c: Config, directive: string)
    requires c.node != AtSupervisor
    ensures SupervisorCalls(req, Resume(c, directive)) == SupervisorCalls(req, c)
    ensures Resume(c, directive).history == c.history + [UserDecisionApplied(directive)]
  {
    ResumeLeadsElsewhere(c, directive);
  }

  // ---------- all reachable configurations ----------

  ghost predicate Facts(g: Graph, req: TaskRequest, c: Config) {
    && ModeInv(g, req, c)
    && TranscriptInv(c)
    && HistoryInv(c)
    && GateInv(g, req, c)
    && (OracleDecides(g, req) ==> SupervisorInv(req, c))
  }

  lemma StartFacts(g: Graph, req: TaskRequest)
    requires req.Valid()
    ensures Facts(g, req, Start(req))
  {
  }

  lemma StepKeepsFacts(g: Graph, req: TaskRequest, c: Config, x: Choice)
    requires req.Valid() && Facts(g, req, c) && c.node != End
    ensures Facts(g, req, Step(g, c, x))
  {
    StepKeepsMode(g, req, c, x);
    StepKeepsTranscript(g, c, x);
    StepKeepsHistory(g, req, c, x);
    StepKeepsGate(g, req, c, x);
    if OracleDecides(g, req) { StepKeepsSupervisor(g, req, c, x); }
  }

  lemma ResumeKeepsFacts(g: Graph, req: TaskRequest, c: Config, directive: string)
    requires Facts(g, req, c) && Enabled(c, UserDecision(directive))
    ensures Facts(g, req, Resume(c, directive))
  {
    ResumeKeepsMode(g, req, c, directive);
    ResumeKeepsHistory(g, req, c, directive);
    ResumeKeepsGate(g, req, c, directive);
    if OracleDecides(g, req) { ResumeKeepsSupervisor(g, req, c, directive); }
  }

  lemma {:induction false} LifeFacts(g: Graph, req: TaskRequest, actions: seq<Action>)
    requires req.Valid() && Life(g, req, actions).Some?
    ensures Facts(g, req, Life(g, req, actions).value)
    decreases |actions|
  {
    if actions == [] {
      StartFacts(g, req);
    } else {
      LifeFacts(g, req, actions[..|actions| - 1]);
      var c := Life(g, req, actions[..|actions| - 1]).value;
      match actions[|actions| - 1] {
        case Superstep(x) => StepKeepsFacts(g, req, c, x);
        case UserDecision(d) => ResumeKeepsFacts(g, req, c, d);
      }
    }
  }

  /** Some life of the task leads to `c`. */
  ghost predicate Reachable(g: Graph, req: TaskRequest, c: Config) {
    exists actions :: Life(g, req, actions) == Some(c)
  }

  lemma ReachableFacts(g: Graph, req: TaskRequest, c: Config)
    requires req.Valid() && Reachable(g, req, c)
    ensures Facts(g, req, c)
  {
    var actions :| Life(g, req, actions) == Some(c);
    LifeFacts(g, req, actions);
  }

  // ---------- what the model sees ----------

  /** The list sent to the model in a developer turn. */
  function LlmInput(e: Engine, s: TaskState, system: string): seq<Message> {
    e.Apply(Convo(s, system))
  }

  /** Whenever the developer runs, after any number of rounds, replans and resumes, its transcript
      is complete, and the model is never shown a tool result whose call is missing. */
  lemma ModelSeesNoOrphans(g: Graph, req: TaskRequest, c: Config, e: Engine, system: string)
    requires req.Valid() && e.Valid() && Reachable(g, req, c)
    ensures c.node == AtDeveloper ==>
              && Complete(c.state.devMessages)
              && NoOrphans(LlmInput(e, c.state, system))
  {
    ReachableFacts(g, req, c);
    if c.node == AtDeveloper {
      ConvoIsComplete(c.state, system);
      CompressKeepsOwners(e, Convo(c.state, system));
    }
  }

  /** It is shown a call without its result exactly when the engine cuts and the head window ends
      inside a block of results. */
  lemma ModelSeesOpenCallsIff(g: Graph, req: TaskRequest, c: Config, e: Engine, system: string)
    requires req.Valid() && e.Valid() && Reachable(g, req, c) && c.node == AtDeveloper
    ensures var convo := Convo(c.state, system);
            FullyAnswered(LlmInput(e, c.state, system)) <==> !(e.Cuts(convo) && HeadCutsBlock(e, convo))
  {
    ReachableFacts(g, req, c);
    ConvoIsComplete(c.state, system);
    CompressAnsweredIff(e, Convo(c.state, system));
  }

  /** Compression keeps the newest message unless the tail window is empty. */
  lemma NewestSurvives(e: Engine, ms: seq<Message>)
    requires e.Valid() && ms != [] && !ms[|ms| - 1].Tool?
    requires e.budget.MaxMessages? ==> e.protectLast >= 1
    ensures var out := e.Apply(ms); out != [] && out[|out| - 1] == ms[|ms| - 1]
  {
    if e.Cuts(ms) {
      var (h, s) := e.Cut(ms);
      CompressIs(e, ms);
      NewestIsInTheTail(e, ms);
      LastOfTail(ms[..h] + [Marker(s - h)], ms, s);
    }
  }

  lemma LastOfTail(before: seq<Message>, ms: seq<Message>, s: nat)
    requires s < |ms|
    ensures var out := before + ms[s..]; out != [] && out[|out| - 1] == ms[|ms| - 1]
  {
  }

  lemma NewestIsInTheTail(e: Engine, ms: seq<Message>)
    requires ms != [] && !ms[|ms| - 1].Tool?
    requires if e.budget.MaxMessages? then e.protectLast >= 1 else e.Cut(ms).0 < |ms|
    ensures e.Cut(ms).1 < |ms|
  {
    var start := if e.budget.MaxMessages? then |ms| - Min(e.protectLast, |ms|) else RawTail(e, ms);
    SkipToolsIs(ms, start);
  }

  // ---------- status ----------

  /** The derived status agrees with the machine. A halted run is completed exactly when delivery
      wrote something, waits exactly when a question to the human is open, and otherwise has
      failed; a run in flight is running. Among runs that halt the one exception is a delivery of
      the empty text, after which the status says running. */
  lemma StatusAgrees(g: Graph, req: TaskRequest, c: Config)
    requires req.Valid() && Reachable(g, req, c)
    ensures Delivered(c.history) == c.state.delivery.Some?
    ensures MaterializeStatus(c.state) ==
              if c.node != End then Running
              else if Delivered(c.history) then (if c.state.delivery.value != "" then Completed else Running)
              else if PendingHuman(c.history) then AwaitingUser
              else Failed
  {
    ReachableFacts(g, req, c);
  }

  lemma DeliveredHasHalted(g: Graph, req: TaskRequest, c: Config)
    requires ModeInv(g, req, c) && c.state.delivery.Some?
    ensures c.node == End
  {
  }

  /** So `running` means not yet halted exactly when the delivery is not the empty text. A run that
      the recursion limit ended has not halted in this sense. */
  lemma RunningMeansInFlightIff(g: Graph, req: TaskRequest, c: Config)
    requires req.Valid() && Reachable(g, req, c)
    ensures (MaterializeStatus(c.state) == Running <==> c.node != End) <==> c.state.delivery != Some("")
  {
    ReachableFacts(g, req, c);
    StatusAgrees(g, req, c);
    if c.state.delivery.Some? {
      DeliveredHasHalted(g, req, c);
    }
  }

  /** The event log of the state is the latest 500 of everything that happened, in order, and the
      request is what it was. */
  lemma EventsAreTheLatest(g: Graph, req: TaskRequest, c: Config)
    requires req.Valid() && Reachable(g, req, c)
    ensures c.state.events == if |c.history| <= 500 then c.history else c.history[|c.history| - 500..]
    ensures c.state.maxIterations == req.maxIterations && c.state.maxRevisions == req.maxRevisions
    ensures c.state.verifyCommand == req.verifyCommand && c.state.verifyFiles == req.verifyFiles
  {
    ReachableFacts(g, req, c);
  }

  // ---------- the gate before delivery ----------

  /** Nothing is delivered unless the latest oracle run passed or, where no oracle is configured,
      the latest review approved; with an oracle no review takes part at all. */
  lemma DeliveryGate(g: Graph, req: TaskRequest, c: Config)
    requires req.Valid() && Reachable(g, req, c)
    ensures c.node == AtDelivery || Delivered(c.history) ==>
              if g == Goal && req.verifyCommand.Some? && req.verifyCommand.value != ""
              then LastPassed(c) && forall e | e in c.history :: !IsReview(e)
              else c.verdicts == [] && LatestReview(c.history) == Some(Approved)
  {
    ReachableFacts(g, req, c);
  }

  // ---------- oracle rounds and supervisor calls ----------

  /** `verify_round` counts the oracle runs and never exceeds the ceiling, all runs but possibly
      the last failed, and the supervisor was asked exactly once at every failed round divisible by
      three below the ceiling. */
  lemma OracleRounds(g: Graph, req: TaskRequest, c: Config)
    requires req.Valid() && OracleDecides(g, req) && Reachable(g, req, c)
    ensures c.state.verifyRound == |c.verdicts| <= req.maxIterations
    ensures forall i | 0 <= i < |c.verdicts| - 1 :: !c.verdicts[i]
    ensures SupervisorCalls(req, c) >= 0
    ensures SupervisorRounds(c.history) == Multiples(SupervisorCalls(req, c))
    ensures |SupervisorRounds(c.history)| <= (req.maxIterations - 1) / 3
  {
    ReachableFacts(g, req, c);
  }
}
