/** The state every node of a run reads and writes, and the reducers that merge updates into it. */
module TaskStates {
  import opened Wrappers
  import opened Messages

  datatype Decision = Approved | RevisionRequired | NeedUserDecision

  datatype ReviewerDecision = ReviewerDecision(decision: Decision, feedback: string, issues: seq<string>)

  datatype StuckAction = Continue | Replan | AskUser | Abort

  datatype StuckDecision = StuckDecision(action: StuckAction, reasoning: string, question: string)

  datatype VerificationResult =
    VerificationResult(passed: bool, exitCode: Option<int>, outputTail: string, round: nat)

  datatype Event =
    | PlannerCompleted
    | DeveloperCompleted(round: nat)
    | ReviewerCompleted(round: nat, decision: Decision)
    | VerificationCompleted(round: nat, passed: bool)
    | SupervisorDecided(round: nat, action: StuckAction)
    | DeliveryCompleted
    | UserDecisionApplied(directive: string)

  datatype TaskState = TaskState(
    title: string,
    description: string,
    plan: Option<string>,
    code: Option<string>,
    review: Option<ReviewerDecision>,
    delivery: Option<string>,
    revisionRound: nat,
    maxRevisions: nat,
    events: seq<Event>,
    userDirectives: seq<string>,
    devMessages: seq<Message>,
    devRound: nat,
    verifyCommand: Option<string>,
    verifyFiles: map<string, string>,
    verification: Option<VerificationResult>,
    verifyRound: nat,
    maxIterations: nat,
    stuckDecision: Option<StuckDecision>)

  const EVENTS_SOFT_CAP: nat := 500

  /** The last `n` elements of `s`. */
  function Last<T>(s: seq<T>, n: nat): seq<T> {
    if |s| <= n then s else s[|s| - n..]
  }

  /** The reducer of `events`. A negative slice bound of zero keeps the whole list, so a cap of
      zero would not trim at all. */
  function CappedAppend<T>(cap: nat, left: seq<T>, right: seq<T>): seq<T> {
    var merged := left + right;
    if |merged| <= cap || cap == 0 then merged else merged[|merged| - cap..]
  }

  /** Reducing step by step keeps exactly the last `cap` elements of everything appended. */
  lemma CappedAppendKeepsLast<T>(cap: nat, history: seq<T>, right: seq<T>)
    requires cap > 0
    ensures CappedAppend(cap, Last(history, cap), right) == Last(history + right, cap)
  {
  }

  /** The events update of a node. */
  function Emit(s: TaskState, e: Event): TaskState {
    s.(events := CappedAppend(EVENTS_SOFT_CAP, s.events, [e]))
  }

  /** The transcript push of planner, reviewer and verifier: new information for a developer in
      flight, together with a fresh tool budget. */
  function Push(s: TaskState, text: string): TaskState {
    if s.devMessages == [] then s
    else s.(devMessages := s.devMessages + [Human(text)], devRound := 0)
  }
}

/** The edge routers: pure functions from the state to a signal. */
module Routers {
  import opened Wrappers
  import opened TaskStates

  datatype Signal = ToDeveloper | ToDelivery | ToReviewer | ToSupervisor | ToPlanner | Halt

  const STUCK_EVERY: nat := 3

  function ReviewRouter(s: TaskState): Signal {
    match s.review
    case None => Halt
    case Some(review) =>
      if review.decision == Approved then ToDelivery
      else if review.decision == NeedUserDecision then Halt
      else if s.revisionRound > s.maxRevisions then Halt
      else ToDeveloper
  }

  function GoalRouter(s: TaskState): Signal {
    match s.verification
    case None => ToReviewer
    case Some(v) =>
      if v.passed then ToDelivery
      else if s.verifyRound >= s.maxIterations then Halt
      else if s.verifyRound > 0 && s.verifyRound % STUCK_EVERY == 0 then ToSupervisor
      else ToDeveloper
  }

  function StuckRouter(s: TaskState): Signal {
    match s.stuckDecision
    case None => Halt
    case Some(d) =>
      match d.action
      case Continue => ToDeveloper
      case Replan => ToPlanner
      case AskUser => Halt
      case Abort => Halt
  }
}
