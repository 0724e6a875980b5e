/** The role nodes. Whatever comes from outside (model output, exit codes, tool results, the system
    prompt with its memory) arrives in a `Choice`; every node reads only its own part of it. */
module Roles {
  import opened Wrappers
  import opened Messages
  import opened TaskStates
  import Decimal

  datatype Choice = Choice(
    planText: string,
    system: string,
    turnText: string,
    turnCalls: seq<ToolCall>,
    toolBodies: seq<string>,
    exitCode: Option<int>,
    output: string,
    review: ReviewerDecision,
    stuck: StuckDecision,
    deliveryText: string)

  const MAX_DEV_ROUNDS: nat := 8

  const BUDGET_EXHAUSTED_NOTE :=
    "NOTE: You've used your full tool budget. Emit the final code now " + "without calling any more tools."
  const FIX_GUIDANCE :=
    "\n\nThe goal is NOT yet achieved. Read the failure output above, fix the "
    + "code (not the tests — they are re-seeded before every verification), and "
    + "finish with your updated final answer."

  function GetOr(o: Option<string>, default: string): string {
    if o.Some? then o.value else default
  }

  // ---------- planner ----------

  function Planner(s: TaskState, x: Choice): TaskState {
    Push(Emit(s.(plan := Some(x.planText)), PlannerCompleted), "# Revised plan\n" + x.planText)
  }

  // ---------- developer ----------

  function Bullets(items: seq<string>): string {
    if items == [] then "" else "\n- " + items[0] + Bullets(items[1..])
  }

  function FeedbackBlock(review: ReviewerDecision, round: nat, previousCode: Option<string>): string {
    "# Reviewer feedback (round " + Decimal.Str(round) + ")\n" + review.feedback + "\n\n## Issues"
    + (if review.issues == [] then "\n(see feedback)" else Bullets(review.issues))
    + if GetOr(previousCode, "") == "" then "" else "\n\n# Previous attempt\n" + previousCode.value
  }

  function PlanAndTask(s: TaskState): string {
    "# Plan\n" + GetOr(s.plan, "") + "\n\n# Task\n" + s.title + "\n" + s.description
  }

  function DirectivesLayer(directives: seq<string>): string {
    if directives == [] then "" else "\n\n# User directives (apply in order)" + Bullets(directives)
  }

  function FeedbackLayer(review: Option<ReviewerDecision>, round: nat, code: Option<string>): string {
    if review.Some? && review.value.decision == RevisionRequired then
      "\n\n" + FeedbackBlock(review.value, round, code)
    else ""
  }

  /** The first prompt: one system message and one human message. */
  function BuildPrompt(s: TaskState, system: string): (prompt: seq<Message>)
    ensures |prompt| == 2 && prompt[0].System? && prompt[1].Human?
  {
    var human := PlanAndTask(s) + DirectivesLayer(s.userDirectives) + FeedbackLayer(s.review, s.revisionRound, s.code);
    [System(system), Human(human)]
  }

  predicate BudgetSpent(s: TaskState, maxRounds: int) {
    s.devRound >= maxRounds
  }

  function AppendBudgetNote(convo: seq<Message>): seq<Message> {
    if convo == [] then convo
    else
      var last := convo[|convo| - 1];
      if last.Human? then convo[..|convo| - 1] + [Human(last.text + "\n\n" + BUDGET_EXHAUSTED_NOTE)]
      else convo + [Human(BUDGET_EXHAUSTED_NOTE)]
  }

  /** The conversation of this turn, before the context engine bounds it. */
  function ConvoWithin(s: TaskState, system: string, maxRounds: int): seq<Message> {
    var convo := if s.devMessages == [] then BuildPrompt(s, system) else s.devMessages;
    if BudgetSpent(s, maxRounds) then AppendBudgetNote(convo) else convo
  }

  /** One turn of a developer that may use tools in `maxRounds` turns. Without bound tools the model
      cannot call any. */
  function DeveloperTurn(s: TaskState, x: Choice, maxRounds: int): TaskState {
    var response := AI(x.turnText, if BudgetSpent(s, maxRounds) then [] else x.turnCalls);
    var kept := if s.devMessages == [] then ConvoWithin(s, x.system, maxRounds) else s.devMessages;
    var s' := s.(devRound := s.devRound + 1, devMessages := kept + [response]);
    if IsCallingAi(response) then s'
    else Emit(s'.(code := Some(x.turnText)), DeveloperCompleted(s.revisionRound))
  }

  // The presets all give their developer the same budget.

  predicate BudgetUsed(s: TaskState) {
    BudgetSpent(s, MAX_DEV_ROUNDS)
  }

  function Convo(s: TaskState, system: string): seq<Message> {
    ConvoWithin(s, system, MAX_DEV_ROUNDS)
  }

  function Developer(s: TaskState, x: Choice): TaskState {
    DeveloperTurn(s, x, MAX_DEV_ROUNDS)
  }

  /** What the tool node answers: every call once, in order. */
  function ToolResults(calls: seq<ToolCall>, bodies: seq<string>): seq<Message> {
    seq(|calls|, i requires 0 <= i < |calls| =>
      Tool(calls[i].id, if i < |bodies| then bodies[i] else ""))
  }

  function RunTools(s: TaskState, x: Choice): TaskState
    requires s.devMessages != []
  {
    var last := s.devMessages[|s.devMessages| - 1];
    var calls := if last.AI? then last.calls else [];
    s.(devMessages := s.devMessages + ToolResults(calls, x.toolBodies))
  }

  /** The last `n` messages are tool results and the one before them is not. */
  predicate IsTrailingRun(ms: seq<Message>, n: nat) {
    && n <= |ms|
    && (forall i | |ms| - n <= i < |ms| :: ms[i].Tool?)
    && (n < |ms| ==> !ms[|ms| - n - 1].Tool?)
  }

  /** The tool results that arrived since the last turn: the trailing run of tool messages. */
  method NewToolMessages(existing: seq<Message>) returns (out: seq<Message>)
    ensures IsTrailingRun(existing, |out|) && out == existing[|existing| - |out|..]
  {
    out := [];
    var i := |existing|;
    while i > 0
      invariant 0 <= i <= |existing| && |out| == |existing| - i
      invariant forall k | 0 <= k < |out| :: out[k] == existing[|existing| - 1 - k] && out[k].Tool?
    {
      if !existing[i - 1].Tool? {
        break;
      }
      out := out + [existing[i - 1]];
      i := i - 1;
    }
    var reversed := [];
    var k := |out|;
    while k > 0
      invariant 0 <= k <= |out| && |reversed| == |out| - k
      invariant forall j | 0 <= j < |reversed| :: reversed[j] == out[|out| - 1 - j]
    {
      k := k - 1;
      reversed := reversed + [out[k]];
    }
    assert forall j | 0 <= j < |reversed| :: reversed[j] == existing[i + j] && reversed[j].Tool?;
    assert forall j | i <= j < |existing| :: existing[j] == reversed[j - i];
    out := reversed;
  }

  /** On a transcript the tool node just extended, that run is exactly the answers to the last AI
      message, so the check of the newest tool output misses none and repeats none. */
  lemma NewToolMessagesAreTheAnswers(ms: seq<Message>, results: seq<Message>, n: nat)
    requires AwaitingTools(ms) && Answers(ms[|ms| - 1], results)
    requires IsTrailingRun(ms + results, n)
    ensures n == |results| && (ms + results)[|ms + results| - n..] == results
  {
    var all := ms + results;
    assert !all[|ms| - 1].Tool?;
    assert forall i | |ms| <= i < |all| :: all[i] == results[i - |ms|];
  }

  // ---------- verifier ----------

  predicate HasOracle(command: Option<string>) {
    command.Some? && command.value != ""
  }

  function ExitText(exitCode: Option<int>): string {
    match exitCode
    case None => "None"
    case Some(n) => if n < 0 then "-" + Decimal.Str(-n) else Decimal.Str(n)
  }

  function FailureBlock(round: nat, x: Choice): string {
    "# Verification failed (round " + Decimal.Str(round) + ", exit=" + ExitText(x.exitCode) + ")\n" + x.output
    + FIX_GUIDANCE
  }

  function Verifier(s: TaskState, x: Choice): TaskState {
    if !HasOracle(s.verifyCommand) then s.(verification := None)
    else
      var round := s.verifyRound + 1;
      var result := VerificationResult(x.exitCode == Some(0), x.exitCode, x.output, round);
      var s' := Emit(s.(verification := Some(result), verifyRound := round),
                     VerificationCompleted(round, result.passed));
      if result.passed then s'
      else Push(s', FailureBlock(round, x))
  }

  // ---------- supervisor, reviewer, delivery ----------

  function Supervisor(s: TaskState, x: Choice): TaskState {
    var s' := Emit(s.(stuckDecision := Some(x.stuck)), SupervisorDecided(s.verifyRound, x.stuck.action));
    if x.stuck.action == AskUser then
      s'.(review := Some(ReviewerDecision(NeedUserDecision,
                                          if x.stuck.question != "" then x.stuck.question else x.stuck.reasoning, [])))
    else s'
  }

  function Reviewer(s: TaskState, x: Choice): TaskState {
    var s' := Emit(s.(review := Some(x.review), revisionRound := s.revisionRound + 1),
                   ReviewerCompleted(s.revisionRound, x.review.decision));
    if x.review.decision == RevisionRequired then Push(s', FeedbackBlock(x.review, s.revisionRound, None))
    else s'
  }

  function Delivery(s: TaskState, x: Choice): TaskState {
    Emit(s.(delivery := Some(x.deliveryText)), DeliveryCompleted)
  }
}
