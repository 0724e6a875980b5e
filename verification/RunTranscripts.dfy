/** The transcript as an audit trail: it only ever grows, and what is judged and delivered is the
    answer it ends with. */
module RunTranscripts {
  import opened Wrappers
  import opened Messages
  import opened TaskStates
  import opened Routers
  import opened Roles
  import opened Service
  import opened RunTheorems

  lemma StepOnlyGrows(g: Graph, c: Config, a: Action)
    requires Enabled(c, a)
    ensures c.state.devMessages <= Act(g, c, a).state.devMessages
  {
  }

  /** No node, no replan and no user decision ever changes a message that is already there. */
  lemma {:induction false} TranscriptOnlyGrows(g: Graph, req: TaskRequest, actions: seq<Action>, more: seq<Action>)
    requires Life(g, req, actions + more).Some?
    ensures Life(g, req, actions).Some?
    ensures Life(g, req, actions).value.state.devMessages <= Life(g, req, actions + more).value.state.devMessages
    decreases |more|
  {
    if more == [] {
      assert actions + more == actions;
    } else {
      var all := actions + more;
      assert all[..|all| - 1] == actions + more[..|more| - 1];
      LastAction(g, req, all);
      TranscriptOnlyGrows(g, req, actions, more[..|more| - 1]);
    }
  }

  lemma LastAction(g: Graph, req: TaskRequest, actions: seq<Action>)
    requires actions != [] && Life(g, req, actions).Some?
    ensures var before := Life(g, req, actions[..|actions| - 1]);
            before.Some? && before.value.state.devMessages <= Life(g, req, actions).value.state.devMessages
  {
    StepOnlyGrows(g, Life(g, req, actions[..|actions| - 1]).value, actions[|actions| - 1]);
  }

  /** Where the developer's answer is judged or handed over, it is the last message and it is the
      code of the state. */
  predicate AnswerInv(c: Config) {
    c.node == AtVerify || c.node == AtReviewer || c.node == AtDelivery ==>
      var ms := c.state.devMessages;
      ms != [] && c.state.code.Some? && ms[|ms| - 1] == AI(c.state.code.value, [])
  }

  lemma DeveloperLeavesAnswer(g: Graph, c: Config, x: Choice)
    requires c.node == AtDeveloper
    ensures AnswerInv(Step(g, c, x))
  {
    var ms := Developer(c.state, x).devMessages;
    assert ms[|ms| - 1].AI? && ms[|ms| - 1].text == x.turnText;
  }

  lemma VerifierKeepsAnswer(g: Graph, c: Config, x: Choice)
    requires AnswerInv(c) && c.node == AtVerify
    ensures AnswerInv(Step(g, c, x))
  {
  }

  lemma ReviewerKeepsAnswer(g: Graph, c: Config, x: Choice)
    requires AnswerInv(c) && c.node == AtReviewer
    ensures AnswerInv(Step(g, c, x))
  {
  }

  lemma StepKeepsAnswer(g: Graph, c: Config, x: Choice)
    requires AnswerInv(c) && c.node != End
    ensures AnswerInv(Step(g, c, x))
  {
    match c.node {
      case AtDeveloper => DeveloperLeavesAnswer(g, c, x);
      case AtVerify => VerifierKeepsAnswer(g, c, x);
      case AtReviewer => ReviewerKeepsAnswer(g, c, x);
      case _ =>
    }
  }

  lemma ResumeKeepsAnswer(c: Config, directive: string)
    ensures AnswerInv(Resume(c, directive))
  {
    assert ReviewRouter(ApplyUserDecision(c.state, directive)) != ToDelivery;
  }

  lemma {:induction false} LifeKeepsAnswer(g: Graph, req: TaskRequest, actions: seq<Action>)
    requires Life(g, req, actions).Some?
    ensures AnswerInv(Life(g, req, actions).value)
    decreases |actions|
  {
    if actions != [] {
      var before, last := actions[..|actions| - 1], actions[|actions| - 1];
      LifeKeepsAnswer(g, req, before);
      var c := Life(g, req, before).value;
      match last {
        case Superstep(x) => StepKeepsAnswer(g, c, x);
        case UserDecision(directive) => ResumeKeepsAnswer(c, directive);
      }
    }
  }

  /** The oracle, the reviewer and delivery always deal with the developer's latest answer: one
      without tool calls, with nothing said since. */
  lemma JudgedCodeIsTheLatestAnswer(g: Graph, req: TaskRequest, c: Config)
    requires Reachable(g, req, c)
    ensures c.node == AtVerify || c.node == AtReviewer || c.node == AtDelivery ==>
              var ms := c.state.devMessages;
              c.state.code.Some? && ms != [] && ms[|ms| - 1] == AI(c.state.code.value, [])
  {
    var actions :| Life(g, req, actions) == Some(c);
    LifeKeepsAnswer(g, req, actions);
  }
}
