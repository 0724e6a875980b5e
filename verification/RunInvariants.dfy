/** What every superstep and every resume keeps. */
module RunInvariants {
  import opened Wrappers
  import opened Messages
  import opened TaskStates
  import opened Routers
  import opened Roles
  import opened Service

  /** The goal graph with a verification command. In every other case reviews decide. */
  predicate OracleDecides(g: Graph, req: TaskRequest) {
    g == Goal && HasOracle(req.verifyCommand)
  }

  // ---------- the request and the event log ----------

  predicate LogInv(req: TaskRequest, c: Config) {
    && c.state.maxRevisions == req.maxRevisions
    && c.state.maxIterations == req.maxIterations
    && c.state.verifyCommand == req.verifyCommand
    && c.state.verifyFiles == req.verifyFiles
    && c.state.events == Last(c.history, EVENTS_SOFT_CAP)
  }

  /** A node's update of the log and of the request fields, which it never writes. */
  predicate Logs(s: TaskState, s': TaskState, emitted: seq<Event>) {
    && s'.events == (if emitted == [] then s.events else CappedAppend(EVENTS_SOFT_CAP, s.events, emitted))
    && s'.maxRevisions == s.maxRevisions && s'.maxIterations == s.maxIterations
    && s'.verifyCommand == s.verifyCommand && s'.verifyFiles == s.verifyFiles
  }

  lemma PushLogs(s: TaskState, s': TaskState, emitted: seq<Event>, text: string)
    requires Logs(s, s', emitted)
    ensures Logs(s, Push(s', text), emitted)
  {
  }

  lemma DeveloperEmits(s: TaskState, x: Choice)
    ensures Logs(s, Developer(s, x), Emitted(AtDeveloper, s, x))
  {
  }

  lemma VerifierEmits(s: TaskState, x: Choice)
    ensures Logs(s, Verifier(s, x), Emitted(AtVerify, s, x))
  {
  }

  lemma ReviewerEmits(s: TaskState, x: Choice)
    ensures Logs(s, Reviewer(s, x), Emitted(AtReviewer, s, x))
  {
  }

  /** The events update of a node is what `Emitted` records. */
  lemma NodeEmits(node: Node, s: TaskState, x: Choice)
    ensures Logs(s, RunNode(node, s, x), Emitted(node, s, x))
  {
    match node {
      case AtPlanner =>
        PushLogs(s, Emit(s.(plan := Some(x.planText)), PlannerCompleted), [PlannerCompleted],
                 "# Revised plan\n" + x.planText);
      case AtDeveloper => DeveloperEmits(s, x);
      case AtVerify => VerifierEmits(s, x);
      case AtReviewer => ReviewerEmits(s, x);
      case _ =>
    }
  }

  lemma StepKeepsLog(g: Graph, req: TaskRequest, c: Config, x: Choice)
    requires LogInv(req, c)
    ensures LogInv(req, Step(g, c, x))
  {
    NodeEmits(c.node, c.state, x);
    CappedAppendKeepsLast(EVENTS_SOFT_CAP, c.history, Emitted(c.node, c.state, x));
  }

  lemma ResumeKeepsLog(req: TaskRequest, c: Config, directive: string)
    requires LogInv(req, c)
    ensures LogInv(req, Resume(c, directive))
  {
    CappedAppendKeepsLast(EVENTS_SOFT_CAP, c.history, [UserDecisionApplied(directive)]);
  }

  // ---------- the developer transcript ----------

  predicate TurnInv(c: Config) {
    var s := c.state;
    && (c.node == AtTools ==> 1 <= s.devRound <= MAX_DEV_ROUNDS)
    && (s.devMessages == [] ==> s.devRound == 0 && (c.node == AtPlanner || c.node == AtDeveloper))
  }

  ghost predicate TranscriptInv(c: Config) {
    && TurnInv(c)
    && if c.node == AtTools then AwaitingTools(c.state.devMessages) else Complete(c.state.devMessages)
  }

  lemma PromptIsComplete(s: TaskState, system: string)
    ensures Complete(BuildPrompt(s, system))
  {
    var prompt := BuildPrompt(s, system);
    assert prompt == [] + [prompt[0]] + [prompt[1]];
    CompleteSnoc([], prompt[0]);
    CompleteSnoc([] + [prompt[0]], prompt[1]);
  }

  lemma BudgetNoteKeepsComplete(convo: seq<Message>)
    requires Complete(convo)
    ensures Complete(AppendBudgetNote(convo))
  {
    if convo != [] {
      var last := convo[|convo| - 1];
      if last.Human? {
        var before := convo[..|convo| - 1];
        NoOrphansPrefix(convo, |convo| - 1);
        forall p: nat, j: nat | p < |before| && before[p].AI? && j < |before[p].calls|
          ensures Answered(before, p, j)
        {
          assert Answered(convo, p, j);
        }
        CompleteSnoc(before, Human(last.text + "\n\n" + BUDGET_EXHAUSTED_NOTE));
      } else {
        CompleteSnoc(convo, Human(BUDGET_EXHAUSTED_NOTE));
      }
    }
  }

  lemma ConvoIsComplete(s: TaskState, system: string)
    requires Complete(s.devMessages)
    ensures Complete(Convo(s, system)) && Convo(s, system) != []
  {
    PromptIsComplete(s, system);
    var convo := if s.devMessages == [] then BuildPrompt(s, system) else s.devMessages;
    BudgetNoteKeepsComplete(convo);
  }

  lemma DeveloperAppends(s: TaskState, x: Choice)
    ensures var response := AI(x.turnText, if BudgetUsed(s) then [] else x.turnCalls);
            var kept := if s.devMessages == [] then Convo(s, x.system) else s.devMessages;
            Developer(s, x).devMessages == kept + [response] && Developer(s, x).devRound == s.devRound + 1
  {
  }

  lemma DeveloperKeepsTranscript(g: Graph, c: Config, x: Choice)
    requires TranscriptInv(c) && c.node == AtDeveloper
    ensures TranscriptInv(Step(g, c, x))
  {
    var s := c.state;
    var response := AI(x.turnText, if BudgetUsed(s) then [] else x.turnCalls);
    var kept := if s.devMessages == [] then Convo(s, x.system) else s.devMessages;
    ConvoIsComplete(s, x.system);
    DeveloperAppends(s, x);
    var ms := kept + [response];
    assert ms[..|ms| - 1] == kept;
    if !IsCallingAi(response) {
      CompleteSnoc(kept, response);
    }
  }

  lemma ToolsKeepTranscript(g: Graph, c: Config, x: Choice)
    requires TranscriptInv(c) && c.node == AtTools
    ensures TranscriptInv(Step(g, c, x))
  {
    var ms := c.state.devMessages;
    var ai := ms[|ms| - 1];
    CompleteAfterTools(ms, ToolResults(ai.calls, x.toolBodies));
  }

  /** Planner, verifier and reviewer leave the transcript alone or push one message. */
  predicate Pushes(before: seq<Message>, after: seq<Message>) {
    || after == before
    || (before != [] && |after| == |before| + 1 && after[..|before|] == before && after[|before|].Human?)
  }

  lemma NodesPush(s: TaskState, x: Choice)
    ensures Pushes(s.devMessages, Planner(s, x).devMessages)
    ensures Pushes(s.devMessages, Verifier(s, x).devMessages)
    ensures Pushes(s.devMessages, Reviewer(s, x).devMessages)
  {
  }

  lemma PushesKeepComplete(before: seq<Message>, after: seq<Message>)
    requires Complete(before) && Pushes(before, after)
    ensures Complete(after) && (after == [] <==> before == [])
  {
    if after != before {
      CompleteSnoc(before, after[|before|]);
      assert after == before + [after[|before|]];
    }
  }

  lemma StepKeepsTranscript(g: Graph, c: Config, x: Choice)
    requires TranscriptInv(c)
    ensures TranscriptInv(Step(g, c, x))
  {
    match c.node {
      case AtDeveloper => DeveloperKeepsTranscript(g, c, x);
      case AtTools => ToolsKeepTranscript(g, c, x);
      case AtSupervisor =>
      case AtDelivery =>
      case End =>
      case _ => PushingKeepsTranscript(g, c, x);
    }
  }

  lemma PushingKeepsTranscript(g: Graph, c: Config, x: Choice)
    requires TranscriptInv(c) && (c.node == AtPlanner || c.node == AtVerify || c.node == AtReviewer)
    ensures TranscriptInv(Step(g, c, x))
  {
    var c' := Step(g, c, x);
    NodesPush(c.state, x);
    PushesKeepComplete(c.state.devMessages, c'.state.devMessages);
    assert c'.node != AtTools;
  }

  // ---------- where an oracle decides ----------

  predicate LastFailed(c: Config) {
    c.verdicts == [] || !c.verdicts[|c.verdicts| - 1]
  }

  predicate LastPassed(c: Config) {
    c.verdicts != [] && c.verdicts[|c.verdicts| - 1]
  }

  predicate WaitsForHuman(s: TaskState) {
    s.review.Some? && s.review.value.decision == NeedUserDecision
  }

  predicate Aborted(s: TaskState) {
    s.stuckDecision.Some? && s.stuckDecision.value.action == Abort
  }

  /** `verify_round` counts the oracle runs, and all but possibly the last one failed. */
  predicate OracleCounts(req: TaskRequest, c: Config) {
    && c.state.verifyRound == |c.verdicts| <= req.maxIterations
    && (forall i | 0 <= i < |c.verdicts| - 1 :: !c.verdicts[i])
    && c.state.revisionRound == 0
    && c.state.verification.Some? == (c.verdicts != [])
    && (c.verdicts != [] ==>
          c.state.verification.value.passed == c.verdicts[|c.verdicts| - 1])
  }

  predicate OracleInv(g: Graph, req: TaskRequest, c: Config) {
    var s := c.state;
    && OracleCounts(req, c)
    && (s.delivery.Some? ==> c.node == End)
    && match c.node
       case AtReviewer => false
       case AtDelivery => LastPassed(c) && !WaitsForHuman(s) && !Aborted(s)
       case AtSupervisor =>
         LastFailed(c) && 0 < s.verifyRound < req.maxIterations && s.verifyRound % STUCK_EVERY == 0
         && !WaitsForHuman(s) && !Aborted(s)
       case End =>
         if s.delivery.Some? then LastPassed(c) && !WaitsForHuman(s) && !Aborted(s)
         else if s.verifyRound == req.maxIterations then LastFailed(c) && !WaitsForHuman(s)
         else LastFailed(c) && 0 < s.verifyRound && WaitsForHuman(s) != Aborted(s)
       case _ => LastFailed(c) && s.verifyRound < req.maxIterations && !WaitsForHuman(s) && !Aborted(s)
  }

  lemma VerifyKeepsCounts(g: Graph, req: TaskRequest, c: Config, x: Choice)
    requires OracleDecides(g, req) && LogInv(req, c) && OracleInv(g, req, c) && c.node == AtVerify
    ensures OracleCounts(req, Step(g, c, x))
  {
    var c' := Step(g, c, x);
    assert c'.verdicts[..|c.verdicts|] == c.verdicts;
  }

  lemma VerifyKeepsOracle(g: Graph, req: TaskRequest, c: Config, x: Choice)
    requires OracleDecides(g, req) && req.Valid() && LogInv(req, c) && OracleInv(g, req, c) && c.node == AtVerify
    ensures OracleInv(g, req, Step(g, c, x))
  {
    VerifyKeepsCounts(g, req, c, x);
    var c' := Step(g, c, x);
    assert c'.verdicts[|c'.verdicts| - 1] == (x.exitCode == Some(0));
    assert WaitsForHuman(c'.state) == WaitsForHuman(c.state) && Aborted(c'.state) == Aborted(c.state);
  }

  lemma StepKeepsOracle(g: Graph, req: TaskRequest, c: Config, x: Choice)
    requires OracleDecides(g, req) && req.Valid() && LogInv(req, c) && OracleInv(g, req, c) && c.node != End
    ensures OracleInv(g, req, Step(g, c, x))
  {
    if c.node == AtVerify {
      VerifyKeepsOracle(g, req, c, x);
    }
  }

  lemma ResumeKeepsOracle(g: Graph, req: TaskRequest, c: Config, directive: string)
    requires OracleDecides(g, req) && LogInv(req, c) && OracleInv(g, req, c)
    requires Enabled(c, UserDecision(directive))
    ensures OracleInv(g, req, Resume(c, directive))
  {
  }

  // ---------- where reviews decide ----------

  predicate ReviewInv(g: Graph, req: TaskRequest, c: Config) {
    var s := c.state;
    && c.verdicts == [] && s.verifyRound == 0 && s.verification.None? && s.stuckDecision.None?
    && (s.delivery.Some? ==> c.node == End)
    && match c.node
       case AtPlanner => s.review.None? && s.revisionRound == 0
       case AtSupervisor => false
       case AtVerify =>
         && g == Goal && s.revisionRound <= req.maxRevisions
         && (s.review.Some? ==> s.review.value.decision == RevisionRequired)
       case AtDelivery => s.review.Some? && s.review.value.decision == Approved
       case End =>
         && s.review.Some?
         && s.delivery.Some? == (s.review.value.decision == Approved)
         && (s.review.value.decision == RevisionRequired ==> s.revisionRound > req.maxRevisions)
       case _ => s.revisionRound <= req.maxRevisions && (s.review.Some? ==> s.review.value.decision == RevisionRequired)
  }

  lemma StepKeepsReview(g: Graph, req: TaskRequest, c: Config, x: Choice)
    requires !OracleDecides(g, req) && LogInv(req, c) && ReviewInv(g, req, c) && c.node != End
    ensures ReviewInv(g, req, Step(g, c, x))
  {
  }

  lemma ResumeKeepsReview(g: Graph, req: TaskRequest, c: Config, directive: string)
    requires !OracleDecides(g, req) && LogInv(req, c) && ReviewInv(g, req, c)
    requires Enabled(c, UserDecision(directive))
    ensures ReviewInv(g, req, Resume(c, directive))
  {
  }

  // ---------- both ----------

  predicate ModeInv(g: Graph, req: TaskRequest, c: Config) {
    && LogInv(req, c)
    && (if OracleDecides(g, req) then OracleInv(g, req, c) else ReviewInv(g, req, c))
  }

  lemma StepKeepsMode(g: Graph, req: TaskRequest, c: Config, x: Choice)
    requires req.Valid() && ModeInv(g, req, c) && c.node != End
    ensures ModeInv(g, req, Step(g, c, x))
  {
    StepKeepsLog(g, req, c, x);
    if OracleDecides(g, req) { StepKeepsOracle(g, req, c, x); } else { StepKeepsReview(g, req, c, x); }
  }

  lemma ResumeKeepsMode(g: Graph, req: TaskRequest, c: Config, directive: string)
    requires ModeInv(g, req, c) && Enabled(c, UserDecision(directive))
    ensures ModeInv(g, req, Resume(c, directive))
  {
    ResumeKeepsLog(req, c, directive);
    if OracleDecides(g, req) {
      ResumeKeepsOracle(g, req, c, directive);
    } else {
      ResumeKeepsReview(g, req, c, directive);
    }
  }
}
