/** The run machine: one superstep at a time through the workflow or the goal graph, parking for a
    human decision, resuming, and the status derived from the state. */
module Service {
  import opened Wrappers
  import opened Messages
  import opened TaskStates
  import opened Routers
  import opened Roles

  datatype TaskRequest = TaskRequest(
    title: string,
    description: string,
    maxRevisions: nat,
    verifyCommand: Option<string>,
    verifyFiles: map<string, string>,
    maxIterations: nat)
  {
    /** The bounds the request schema enforces. */
    predicate Valid() {
      maxRevisions <= 10 && 1 <= maxIterations <= 50
    }
  }

  const REACT_TURN_STEPS: nat := 2 * 8 + 1
  const FIXED_OVERHEAD: nat := 10
  const GRAPH_RECURSION_LIMIT: nat := FIXED_OVERHEAD + (50 + 1) * (REACT_TURN_STEPS + 1)

  function InitialState(req: TaskRequest): TaskState {
    TaskState(req.title, req.description, None, None, None, None, 0, req.maxRevisions, [], [], [], 0,
              req.verifyCommand, req.verifyFiles, None, 0, req.maxIterations, None)
  }

  // ---------- status ----------

  datatype Status = Running | Completed | Failed | AwaitingUser

  function MaterializeStatus(s: TaskState): Status {
    if s.delivery.Some? && s.delivery.value != "" then Completed
    else if s.review.Some? && s.review.value.decision == NeedUserDecision then AwaitingUser
    else if s.review.Some? && s.review.value.decision == RevisionRequired
            && s.revisionRound > s.maxRevisions then Failed
    else if s.stuckDecision.Some? && s.stuckDecision.value.action == Abort then Failed
    else if s.verification.Some? && !s.verification.value.passed && s.verifyRound >= s.maxIterations then Failed
    else Running
  }

  // ---------- topology ----------

  datatype Graph = Workflow | Goal

  datatype Node = AtPlanner | AtDeveloper | AtTools | AtVerify | AtSupervisor | AtReviewer | AtDelivery | End

  /** The branches both graphs declare for router signals. */
  function Target(signal: Signal): Node {
    match signal
    case ToDeveloper => AtDeveloper
    case ToDelivery => AtDelivery
    case ToReviewer => AtReviewer
    case ToSupervisor => AtSupervisor
    case ToPlanner => AtPlanner
    case Halt => End
  }

  /** The node after `node`, given the state `node` left behind. */
  function Next(g: Graph, node: Node, s: TaskState): Node {
    match node
    case AtPlanner => AtDeveloper
    case AtDeveloper =>
      if s.devMessages != [] && IsCallingAi(s.devMessages[|s.devMessages| - 1]) then AtTools
      else if g == Goal then AtVerify
      else AtReviewer
    case AtTools => AtDeveloper
    case AtVerify => Target(GoalRouter(s))
    case AtSupervisor => Target(StuckRouter(s))
    case AtReviewer => Target(ReviewRouter(s))
    case AtDelivery => End
    case End => End
  }

  // ---------- configurations ----------

  /** A run between two supersteps. `verdicts`, how each oracle run ended, and `history` are history
      variables: no node and no router reads them. */
  datatype Config = Config(
    node: Node,
    state: TaskState,
    verdicts: seq<bool>,
    history: seq<Event>)

  function Start(req: TaskRequest): Config {
    Config(AtPlanner, InitialState(req), [], [])
  }

  /** The event a node emits, if any; the same one its update appends to `events`. */
  function Emitted(node: Node, before: TaskState, x: Choice): seq<Event> {
    match node
    case AtPlanner => [PlannerCompleted]
    case AtDeveloper =>
      if BudgetUsed(before) || x.turnCalls == [] then [DeveloperCompleted(before.revisionRound)] else []
    case AtVerify =>
      if HasOracle(before.verifyCommand) then [VerificationCompleted(before.verifyRound + 1, x.exitCode == Some(0))]
      else []
    case AtSupervisor => [SupervisorDecided(before.verifyRound, x.stuck.action)]
    case AtReviewer => [ReviewerCompleted(before.revisionRound, x.review.decision)]
    case AtDelivery => [DeliveryCompleted]
    case AtTools => []
    case End => []
  }

  function RunNode(node: Node, s: TaskState, x: Choice): TaskState {
    match node
    case AtPlanner => Planner(s, x)
    case AtDeveloper => Developer(s, x)
    case AtTools => if s.devMessages == [] then s else RunTools(s, x)
    case AtVerify => Verifier(s, x)
    case AtSupervisor => Supervisor(s, x)
    case AtReviewer => Reviewer(s, x)
    case AtDelivery => Delivery(s, x)
    case End => s
  }

  /** One superstep. */
  function Step(g: Graph, c: Config, x: Choice): Config {
    var s := RunNode(c.node, c.state, x);
    var verdict := if c.node == AtVerify && HasOracle(c.state.verifyCommand) then [x.exitCode == Some(0)] else [];
    Config(Next(g, c.node, s), s, c.verdicts + verdict, c.history + Emitted(c.node, c.state, x))
  }

  /** The state update of a resume after `need_user_decision`, written as if by the reviewer. */
  function ApplyUserDecision(s: TaskState, directive: string): TaskState {
    Emit(s.(review := Some(ReviewerDecision(RevisionRequired, "See user directive in state.user_directives", [])),
            userDirectives := s.userDirectives + [directive]),
         UserDecisionApplied(directive))
  }

  function Resume(c: Config, directive: string): Config {
    var s := ApplyUserDecision(c.state, directive);
    c.(state := s, node := Target(ReviewRouter(s)), history := c.history + [UserDecisionApplied(directive)])
  }

  // ---------- runs ----------

  /** An uninterrupted run: supersteps until the graph halts or the list ends. */
  function Run(g: Graph, c: Config, xs: seq<Choice>): Config
    decreases |xs|
  {
    if xs == [] then c else Run(g, Step(g, c, xs[0]), xs[1..])
  }

  /** `xs` is a run of exactly `|xs|` supersteps: none of them starts at a halted configuration. */
  predicate Live(g: Graph, c: Config, xs: seq<Choice>)
    decreases |xs|
  {
    xs == [] || (c.node != End && Live(g, Step(g, c, xs[0]), xs[1..]))
  }

  /** What happens to a task over its whole life. */
  datatype Action = Superstep(x: Choice) | UserDecision(directive: string)

  /** A superstep needs a run that has not halted, a user decision one that waits for it. */
  predicate Enabled(c: Config, a: Action) {
    match a
    case Superstep(_) => c.node != End
    case UserDecision(_) => c.node == End && MaterializeStatus(c.state) == AwaitingUser
  }

  function Act(g: Graph, c: Config, a: Action): Config {
    match a
    case Superstep(x) => Step(g, c, x)
    case UserDecision(directive) => Resume(c, directive)
  }

  /** The configuration after a whole life, if every action was enabled when it happened. */
  function Life(g: Graph, req: TaskRequest, actions: seq<Action>): Option<Config> {
    if actions == [] then Some(Start(req))
    else
      match Life(g, req, actions[..|actions| - 1])
      case None => None
      case Some(c) =>
        var a := actions[|actions| - 1];
        if Enabled(c, a) then Some(Act(g, c, a)) else None
  }
}
