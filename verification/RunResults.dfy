/** What a task's result reports at any time: for every role the latest it has said, over the whole
    life of the task. */
module RunResults {
  import opened Wrappers
  import opened Messages
  import opened TaskStates
  import opened Roles
  import opened Service
  import opened RunInvariants
  import opened RunTheorems

  /** The latest of what `said` finds in the actions, each together with the configuration in which it
      happened. */
  function Latest<T>(g: Graph, req: TaskRequest, actions: seq<Action>, said: (Config, Action) -> Option<T>): Option<T>
    requires Life(g, req, actions).Some?
  {
    if actions == [] then None
    else
      var before := actions[..|actions| - 1];
      var last := said(Life(g, req, before).value, actions[|actions| - 1]);
      if last.Some? then last else Latest(g, req, before, said)
  }

  function PlanSaid(c: Config, a: Action): Option<string> {
    if a.Superstep? && c.node == AtPlanner then Some(a.x.planText) else None
  }

  /** An answer is a turn without tool calls. */
  function CodeSaid(c: Config, a: Action): Option<string> {
    if a.Superstep? && c.node == AtDeveloper && (a.x.turnCalls == [] || c.state.devRound >= 8) then Some(a.x.turnText)
    else None
  }

  function OracleSaid(c: Config, a: Action): Option<VerificationResult> {
    if a.Superstep? && c.node == AtVerify && HasOracle(c.state.verifyCommand) then
      Some(VerificationResult(a.x.exitCode == Some(0), a.x.exitCode, a.x.output, c.state.verifyRound + 1))
    else None
  }

  function SupervisorSaid(c: Config, a: Action): Option<StuckDecision> {
    if a.Superstep? && c.node == AtSupervisor then Some(a.x.stuck) else None
  }

  function DeliverySaid(c: Config, a: Action): Option<string> {
    if a.Superstep? && c.node == AtDelivery then Some(a.x.deliveryText) else None
  }

  /** Reviews come from the reviewer, from a supervisor that asks the user, and from the user. */
  function ReviewSaid(c: Config, a: Action): Option<ReviewerDecision> {
    match a
    case UserDecision(_) =>
      Some(ReviewerDecision(RevisionRequired, "See user directive in state.user_directives", []))
    case Superstep(x) =>
      if c.node == AtReviewer then Some(x.review)
      else if c.node == AtSupervisor && x.stuck.action == AskUser then
        Some(ReviewerDecision(NeedUserDecision,
                              if x.stuck.question == "" then x.stuck.reasoning else x.stuck.question, []))
      else None
  }

  function Directives(actions: seq<Action>): seq<string> {
    if actions == [] then []
    else
      var a := actions[|actions| - 1];
      Directives(actions[..|actions| - 1]) + if a.UserDecision? then [a.directive] else []
  }

  function Newer<T>(said: Option<T>, known: Option<T>): Option<T> {
    if said.Some? then said else known
  }

  /** What is reported after an action is what was said in it, and otherwise what was reported before. */
  predicate Updates(c: Config, a: Action, s': TaskState) {
    var s := c.state;
    && s'.plan == Newer(PlanSaid(c, a), s.plan)
    && s'.code == Newer(CodeSaid(c, a), s.code)
    && s'.verification == Newer(OracleSaid(c, a), s.verification)
    && s'.stuckDecision == Newer(SupervisorSaid(c, a), s.stuckDecision)
    && s'.delivery == Newer(DeliverySaid(c, a), s.delivery)
    && s'.review == Newer(ReviewSaid(c, a), s.review)
    && s'.userDirectives == s.userDirectives + (if a.UserDecision? then [a.directive] else [])
    && s'.verifyCommand == s.verifyCommand
  }

  lemma TurnIsReported(c: Config, x: Choice)
    requires c.node == AtDeveloper
    ensures Updates(c, Superstep(x), Developer(c.state, x))
  {
  }

  lemma JudgementIsReported(c: Config, x: Choice)
    requires c.state.verification.Some? ==> HasOracle(c.state.verifyCommand)
    ensures c.node == AtVerify ==> Updates(c, Superstep(x), Verifier(c.state, x))
  {
  }

  lemma ReviewIsReported(c: Config, x: Choice)
    ensures c.node == AtReviewer ==> Updates(c, Superstep(x), Reviewer(c.state, x))
    ensures c.node == AtSupervisor ==> Updates(c, Superstep(x), Supervisor(c.state, x))
  {
  }

  lemma NodeIsReported(c: Config, x: Choice)
    requires c.node != End && (c.state.verification.Some? ==> HasOracle(c.state.verifyCommand))
    ensures Updates(c, Superstep(x), RunNode(c.node, c.state, x))
  {
    match c.node {
      case AtDeveloper => TurnIsReported(c, x);
      case AtVerify => JudgementIsReported(c, x);
      case AtReviewer => ReviewIsReported(c, x);
      case AtSupervisor => ReviewIsReported(c, x);
      case _ =>
    }
  }

  lemma ActionIsReported(g: Graph, c: Config, a: Action)
    requires Enabled(c, a) && (c.state.verification.Some? ==> HasOracle(c.state.verifyCommand))
    ensures Updates(c, a, Act(g, c, a).state)
  {
    if a.Superstep? {
      NodeIsReported(c, a.x);
    }
  }

  ghost predicate Reports(g: Graph, req: TaskRequest, actions: seq<Action>, s: TaskState)
    requires Life(g, req, actions).Some?
  {
    && s.plan == Latest(g, req, actions, PlanSaid)
    && s.code == Latest(g, req, actions, CodeSaid)
    && s.verification == Latest(g, req, actions, OracleSaid)
    && s.stuckDecision == Latest(g, req, actions, SupervisorSaid)
    && s.delivery == Latest(g, req, actions, DeliverySaid)
    && s.review == Latest(g, req, actions, ReviewSaid)
    && s.userDirectives == Directives(actions)
    && s.verifyCommand == req.verifyCommand
    && (s.verification.Some? ==> HasOracle(req.verifyCommand))
  }

  /** Whatever happens to a task, its result reports the latest plan, answer, oracle run, strategy,
      review and delivery, and every directive in order. */
  lemma {:induction false} ResultIsTheLatest(g: Graph, req: TaskRequest, actions: seq<Action>)
    requires Life(g, req, actions).Some?
    ensures Reports(g, req, actions, Life(g, req, actions).value.state)
    decreases |actions|
  {
    if actions != [] {
      var before, a := actions[..|actions| - 1], actions[|actions| - 1];
      ResultIsTheLatest(g, req, before);
      ActionIsReported(g, Life(g, req, before).value, a);
    }
  }
}
