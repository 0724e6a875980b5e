/** What the model reads: its first prompt, and the news that planner, oracle and reviewer have for a
    developer in flight, word for word. */
module RunNews {
  import opened Wrappers
  import opened Messages
  import opened TaskStates
  import opened Routers
  import opened Roles
  import opened Service
  import opened RunInvariants
  import opened RunTheorems
  import opened ContextEngine
  import Decimal

  // ---------- texts that show what is in them ----------

  lemma AfterSame(before: string, a: string, b: string)
    ensures before + a == before + b <==> a == b
  {
    if before + a == before + b {
      assert a == (before + a)[|before|..] && b == (before + b)[|before|..];
    }
  }

  lemma BeforeSame(a: string, b: string, after: string)
    ensures a + after == b + after <==> a == b
  {
    if a + after == b + after {
      assert |a| == |b|;
      assert a == (a + after)[..|a|] && b == (b + after)[..|b|];
    }
  }

  /** One bullet per item, in order, and nothing else. */
  predicate Lists(text: string, items: seq<string>)
    decreases |items|
  {
    if items == [] then text == ""
    else
      var bullet := "\n- " + items[0];
      bullet <= text && Lists(text[|bullet|..], items[1..])
  }

  lemma {:induction false} BulletsList(items: seq<string>)
    ensures Lists(Bullets(items), items)
  {
    if items != [] {
      BulletsList(items[1..]);
      var bullet := "\n- " + items[0];
      assert Bullets(items) == bullet + Bullets(items[1..]);
      assert Bullets(items)[|bullet|..] == Bullets(items[1..]);
    }
  }

  /** Bullets that differ in one item differ. */
  lemma {:induction false} ItemIsShown(items: seq<string>, i: nat, item: string)
    requires i < |items|
    ensures Bullets(items[i := item]) == Bullets(items) <==> item == items[i]
  {
    var other := items[i := item];
    if i == 0 {
      assert other[1..] == items[1..];
      BeforeSame("\n- " + item, "\n- " + items[0], Bullets(items[1..]));
      AfterSame("\n- ", item, items[0]);
    } else {
      ItemIsShown(items[1..], i - 1, item);
      assert other[1..] == items[1..][i - 1 := item] && other[0] == items[0];
      AfterSame("\n- " + items[0], Bullets(other[1..]), Bullets(items[1..]));
    }
  }

  // ---------- exit codes ----------

  lemma ExitTextIs(exitCode: Option<int>)
    ensures exitCode.None? ==> ExitText(exitCode) == "None"
    ensures exitCode.Some? && exitCode.value >= 0 ==> ExitText(exitCode) == Decimal.Str(exitCode.value)
    ensures exitCode.Some? && exitCode.value < 0 ==> ExitText(exitCode) == "-" + Decimal.Str(-exitCode.value)
    ensures ')' !in ExitText(exitCode)
  {
  }

  lemma ExitTextStarts(exitCode: Option<int>)
    ensures var first := ExitText(exitCode)[0];
            match exitCode
            case None => first == 'N'
            case Some(n) => if n < 0 then first == '-' else Decimal.IsDigit(first)
  {
    if exitCode.Some? && exitCode.value >= 0 {
      assert ExitText(exitCode)[0] in Decimal.Str(exitCode.value);
    }
  }

  lemma ExitTextInjective(a: Option<int>, b: Option<int>)
    requires ExitText(a) == ExitText(b)
    ensures a == b
  {
    ExitTextStarts(a);
    ExitTextStarts(b);
    if a.Some? {
      if a.value < 0 {
        AfterSame("-", Decimal.Str(-a.value), Decimal.Str(-b.value));
        Decimal.StrInjective(-a.value, -b.value);
      } else {
        Decimal.StrInjective(a.value, b.value);
      }
    }
  }

  lemma UpToParen(a: string, b: string, s: string, t: string)
    requires ')' !in a && ')' !in b && a + ")\n" + s == b + ")\n" + t
    ensures a == b && s == t
  {
    var u, v := a + ")\n" + s, b + ")\n" + t;
    assert u[|a|] == ')' && v[|b|] == ')';
    assert forall i | 0 <= i < |a| :: u[i] == a[i];
    assert forall i | 0 <= i < |b| :: v[i] == b[i];
    assert |a| == |b|;
    assert a == u[..|a|] && b == v[..|b|] && s == u[|a| + 2..] && t == v[|b| + 2..];
  }

  // ---------- what each node has to say ----------

  /** The report of a failed oracle run. */
  predicate ReportsFailure(text: string, round: nat, exitCode: Option<int>, output: string) {
    text == "# Verification failed (round " + Decimal.Str(round) + ", exit=" + ExitText(exitCode) + ")\n" + output
            + FIX_GUIDANCE
  }

  /** The reviewer's objections: the feedback, every issue, and the code they are about if it is shown. */
  predicate ShowsReview(text: string, review: ReviewerDecision, round: nat, code: string, issues: string) {
    && (if review.issues == [] then issues == "\n(see feedback)" else Lists(issues, review.issues))
    && text == "# Reviewer feedback (round " + Decimal.Str(round) + ")\n" + review.feedback + "\n\n## Issues" + issues
               + if code == "" then "" else "\n\n# Previous attempt\n" + code
  }

  lemma FeedbackShowsReview(review: ReviewerDecision, round: nat, code: Option<string>)
    ensures exists issues :: ShowsReview(FeedbackBlock(review, round, code), review, round, GetOr(code, ""), issues)
  {
    BulletsList(review.issues);
    var issues := if review.issues == [] then "\n(see feedback)" else Bullets(review.issues);
    assert ShowsReview(FeedbackBlock(review, round, code), review, round, GetOr(code, ""), issues);
  }

  /** `text` is what the node of `c` has to tell a developer in flight. */
  ghost predicate Tells(c: Config, x: Choice, text: string) {
    match c.node
    case AtPlanner => text == "# Revised plan\n" + x.planText
    case AtVerify => ReportsFailure(text, |c.verdicts| + 1, x.exitCode, x.output)
    case AtReviewer => exists issues :: ShowsReview(text, x.review, c.state.revisionRound, "", issues)
    case _ => false
  }

  lemma NewsIsPushed(g: Graph, req: TaskRequest, c: Config, x: Choice) returns (text: string)
    requires ModeInv(g, req, c) && c.state.devMessages != [] && Step(g, c, x).node == AtDeveloper
    requires c.node == AtPlanner || c.node == AtVerify || c.node == AtReviewer
    ensures var s' := Step(g, c, x).state;
            s'.devMessages == c.state.devMessages + [Human(text)] && s'.devRound == 0
    ensures Tells(c, x, text)
  {
    match c.node {
      case AtPlanner => text := "# Revised plan\n" + x.planText;
      case AtVerify => text := FailureIsPushed(g, req, c, x);
      case _ =>
        ReviewIsPushed(g, req, c, x);
        FeedbackShowsReview(x.review, c.state.revisionRound, None);
        text := FeedbackBlock(x.review, c.state.revisionRound, None);
    }
  }

  lemma FailureIsPushed(g: Graph, req: TaskRequest, c: Config, x: Choice) returns (text: string)
    requires ModeInv(g, req, c) && c.state.devMessages != [] && Step(g, c, x).node == AtDeveloper && c.node == AtVerify
    ensures var s' := Step(g, c, x).state;
            s'.devMessages == c.state.devMessages + [Human(text)] && s'.devRound == 0
    ensures ReportsFailure(text, |c.verdicts| + 1, x.exitCode, x.output)
  {
    text := FailureBlock(c.state.verifyRound + 1, x);
  }

  lemma ReviewIsPushed(g: Graph, req: TaskRequest, c: Config, x: Choice)
    requires ModeInv(g, req, c) && c.node == AtReviewer
    requires c.state.devMessages != [] && Step(g, c, x).node == AtDeveloper
    ensures var s' := Step(g, c, x).state;
            && s'.devMessages == c.state.devMessages + [Human(FeedbackBlock(x.review, c.state.revisionRound, None))]
            && s'.devRound == 0
  {
  }

  /** This superstep of planner, oracle or reviewer gives a developer in flight its next turn. */
  predicate SendsBack(g: Graph, c: Config, x: Choice) {
    && (c.node == AtPlanner || c.node == AtVerify || c.node == AtReviewer)
    && c.state.devMessages != [] && Step(g, c, x).node == AtDeveloper
  }

  /** A failed verification, a reviewer's objections and a revised plan reach the model word for word
      as the last thing it reads in the developer's next turn, and that turn has its full tool
      budget. */
  lemma NewsReachesTheModel(g: Graph, req: TaskRequest, c: Config, x: Choice, e: Engine, system: string)
    returns (text: string)
    requires req.Valid() && e.Valid() && Reachable(g, req, c)
    requires e.budget.MaxMessages? ==> e.protectLast >= 1
    ensures var s' := Step(g, c, x).state;
            var input := LlmInput(e, s', system);
            SendsBack(g, c, x) ==>
              && input != [] && input[|input| - 1] == Human(text) && Tells(c, x, text)
              && s'.devRound == 0
  {
    text := "";
    if SendsBack(g, c, x) {
      ReachableFacts(g, req, c);
      text := NewsIsPushed(g, req, c, x);
      InputOfNews(e, Step(g, c, x).state, system, c.state.devMessages, text);
    }
  }

  // ---------- what changes what the model reads ----------

  lemma FiveParts(head: string, exit: string, close: string, output: string, guidance: string)
    ensures head + exit + close + output + guidance == head + (exit + close + (output + guidance))
  {
  }

  lemma BodiesDiffer(ea: Option<int>, eb: Option<int>, a: string, b: string)
    requires ExitText(ea) + ")\n" + a == ExitText(eb) + ")\n" + b
    ensures ea == eb && a == b
  {
    ExitTextIs(ea);
    ExitTextIs(eb);
    UpToParen(ExitText(ea), ExitText(eb), a, b);
    ExitTextInjective(ea, eb);
  }

  lemma ReportsDiffer(a: string, b: string, round: nat, ea: Option<int>, eb: Option<int>, oa: string, ob: string)
    requires ReportsFailure(a, round, ea, oa) && ReportsFailure(b, round, eb, ob)
    ensures a == b <==> ea == eb && oa == ob
  {
    if a == b {
      var head, guidance := "# Verification failed (round " + Decimal.Str(round) + ", exit=", FIX_GUIDANCE;
      FiveParts(head, ExitText(ea), ")\n", oa, guidance);
      FiveParts(head, ExitText(eb), ")\n", ob, guidance);
      AfterSame(head, ExitText(ea) + ")\n" + (oa + guidance), ExitText(eb) + ")\n" + (ob + guidance));
      BodiesDiffer(ea, eb, oa + guidance, ob + guidance);
      BeforeSame(oa, ob, guidance);
    }
  }

  lemma InputOfNews(e: Engine, s: TaskState, system: string, before: seq<Message>, text: string)
    requires e.Valid() && (e.budget.MaxMessages? ==> e.protectLast >= 1)
    requires s.devMessages == before + [Human(text)] && s.devRound == 0
    ensures var input := LlmInput(e, s, system);
            && input == e.Apply(before + [Human(text)])
            && input != [] && input[|input| - 1] == Human(text)
  {
    NewestSurvives(e, s.devMessages);
  }

  lemma SameInputIff(e: Engine, s: TaskState, t: TaskState, system: string, before: seq<Message>, a: string, b: string)
    requires e.Valid() && (e.budget.MaxMessages? ==> e.protectLast >= 1)
    requires s.devMessages == before + [Human(a)] && s.devRound == 0
    requires t.devMessages == before + [Human(b)] && t.devRound == 0
    ensures LlmInput(e, s, system) == LlmInput(e, t, system) <==> a == b
  {
    InputOfNews(e, s, system, before, a);
    InputOfNews(e, t, system, before, b);
  }

  /** Two failed verifications give the model the same to read exactly if exit code and output agree. */
  lemma FailureIsSeenIff(g: Graph, req: TaskRequest, c: Config, x: Choice, y: Choice, e: Engine, system: string)
    requires req.Valid() && e.Valid() && Reachable(g, req, c)
    requires e.budget.MaxMessages? ==> e.protectLast >= 1
    ensures c.node == AtVerify && SendsBack(g, c, x) && SendsBack(g, c, y) ==>
              (LlmInput(e, Step(g, c, x).state, system) == LlmInput(e, Step(g, c, y).state, system) <==>
               x.exitCode == y.exitCode && x.output == y.output)
  {
    if c.node == AtVerify && SendsBack(g, c, x) && SendsBack(g, c, y) {
      ReachableFacts(g, req, c);
      var a := FailureIsPushed(g, req, c, x);
      var b := FailureIsPushed(g, req, c, y);
      ReportsDiffer(a, b, |c.verdicts| + 1, x.exitCode, y.exitCode, x.output, y.output);
      SameInputIff(e, Step(g, c, x).state, Step(g, c, y).state, system, c.state.devMessages, a, b);
    }
  }

  /** Two revised plans do exactly if they are the same. */
  lemma RevisedPlanIsSeenIff(g: Graph, req: TaskRequest, c: Config, x: Choice, y: Choice, e: Engine, system: string)
    requires req.Valid() && e.Valid() && Reachable(g, req, c)
    requires e.budget.MaxMessages? ==> e.protectLast >= 1
    ensures c.node == AtPlanner && c.state.devMessages != [] ==>
              (LlmInput(e, Step(g, c, x).state, system) == LlmInput(e, Step(g, c, y).state, system) <==>
               x.planText == y.planText)
  {
    if c.node == AtPlanner && c.state.devMessages != [] {
      ReachableFacts(g, req, c);
      AfterSame("# Revised plan\n", x.planText, y.planText);
      SameInputIff(e, Step(g, c, x).state, Step(g, c, y).state, system, c.state.devMessages,
                   "# Revised plan\n" + x.planText, "# Revised plan\n" + y.planText);
    }
  }

  function IssueList(issues: seq<string>): string {
    if issues == [] then "\n(see feedback)" else Bullets(issues)
  }

  function ReviewHead(round: nat): string {
    "# Reviewer feedback (round " + Decimal.Str(round) + ")\n"
  }

  lemma FeedbackIs(review: ReviewerDecision, round: nat)
    ensures FeedbackBlock(review, round, None) ==
            ReviewHead(round) + review.feedback + "\n\n## Issues" + IssueList(review.issues)
  {
    var block := ReviewHead(round) + review.feedback + "\n\n## Issues" + IssueList(review.issues);
    assert block + "" == block;
  }

  lemma FourParts(head: string, feedback: string, title: string, issues: string)
    ensures head + feedback + title + issues == head + (feedback + (title + issues))
  {
  }

  lemma FeedbackDiffers(a: ReviewerDecision, b: ReviewerDecision, round: nat)
    requires a.issues == b.issues
    ensures FeedbackBlock(a, round, None) == FeedbackBlock(b, round, None) <==> a.feedback == b.feedback
  {
    var head, title, issues := ReviewHead(round), "\n\n## Issues", IssueList(a.issues);
    FeedbackIs(a, round);
    FeedbackIs(b, round);
    FourParts(head, a.feedback, title, issues);
    FourParts(head, b.feedback, title, issues);
    AfterSame(head, a.feedback + (title + issues), b.feedback + (title + issues));
    BeforeSame(a.feedback, b.feedback, title + issues);
  }

  lemma IssueDiffers(a: ReviewerDecision, b: ReviewerDecision, i: nat, round: nat)
    requires a.feedback == b.feedback && i < |a.issues| == |b.issues| && b.issues == a.issues[i := b.issues[i]]
    ensures FeedbackBlock(a, round, None) == FeedbackBlock(b, round, None) <==> a.issues[i] == b.issues[i]
  {
    FeedbackIs(a, round);
    FeedbackIs(b, round);
    AfterSame(ReviewHead(round) + a.feedback + "\n\n## Issues", Bullets(a.issues), Bullets(b.issues));
    ItemIsShown(a.issues, i, b.issues[i]);
  }

  /** Two requested revisions with the same issues do exactly if the feedback agrees. */
  lemma FeedbackIsSeenIff(g: Graph, req: TaskRequest, c: Config, x: Choice, y: Choice, e: Engine, system: string)
    requires req.Valid() && e.Valid() && Reachable(g, req, c)
    requires e.budget.MaxMessages? ==> e.protectLast >= 1
    requires x.review.issues == y.review.issues
    ensures c.node == AtReviewer && SendsBack(g, c, x) && SendsBack(g, c, y) ==>
              (LlmInput(e, Step(g, c, x).state, system) == LlmInput(e, Step(g, c, y).state, system) <==>
               x.review.feedback == y.review.feedback)
  {
    if c.node == AtReviewer && SendsBack(g, c, x) && SendsBack(g, c, y) {
      ReachableFacts(g, req, c);
      var round := c.state.revisionRound;
      ReviewIsPushed(g, req, c, x);
      ReviewIsPushed(g, req, c, y);
      FeedbackDiffers(x.review, y.review, round);
      SameInputIff(e, Step(g, c, x).state, Step(g, c, y).state, system, c.state.devMessages,
                   FeedbackBlock(x.review, round, None), FeedbackBlock(y.review, round, None));
    }
  }

  /** And two that differ in one issue never do. */
  lemma EveryIssueIsSeen(
    g: Graph, req: TaskRequest, c: Config, x: Choice, y: Choice, i: nat, e: Engine, system: string)
    requires req.Valid() && e.Valid() && Reachable(g, req, c)
    requires e.budget.MaxMessages? ==> e.protectLast >= 1
    requires var a, b := x.review, y.review;
             a.feedback == b.feedback && i < |a.issues| == |b.issues| && b.issues == a.issues[i := b.issues[i]]
    ensures c.node == AtReviewer && SendsBack(g, c, x) && SendsBack(g, c, y) ==>
              (LlmInput(e, Step(g, c, x).state, system) == LlmInput(e, Step(g, c, y).state, system) <==>
               x.review.issues[i] == y.review.issues[i])
  {
    if c.node == AtReviewer && SendsBack(g, c, x) && SendsBack(g, c, y) {
      ReachableFacts(g, req, c);
      var round := c.state.revisionRound;
      ReviewIsPushed(g, req, c, x);
      ReviewIsPushed(g, req, c, y);
      IssueDiffers(x.review, y.review, i, round);
      SameInputIff(e, Step(g, c, x).state, Step(g, c, y).state, system, c.state.devMessages,
                   FeedbackBlock(x.review, round, None), FeedbackBlock(y.review, round, None));
    }
  }

  // ---------- the first prompt ----------

  predicate ShowsDirectives(text: string, directives: seq<string>, list: string) {
    if directives == [] then text == ""
    else Lists(list, directives) && text == "\n\n# User directives (apply in order)" + list
  }

  predicate ShowsFeedback(text: string, s: TaskState, issues: string) {
    if s.review.Some? && s.review.value.decision == RevisionRequired then
      && "\n\n" <= text
      && ShowsReview(text[2..], s.review.value, s.revisionRound, GetOr(s.code, ""), issues)
    else text == ""
  }

  /** The human part of a first prompt: plan, title and description, then every directive in order,
      then the objections to the last attempt and that attempt. */
  lemma PromptShows(s: TaskState, system: string)
    returns (directives: string, list: string, feedback: string, issues: string)
    ensures BuildPrompt(s, system) ==
            [System(system),
             Human("# Plan\n" + GetOr(s.plan, "") + "\n\n# Task\n" + s.title + "\n" + s.description
                   + directives + feedback)]
    ensures ShowsDirectives(directives, s.userDirectives, list) && ShowsFeedback(feedback, s, issues)
  {
    directives, list := DirectivesLayer(s.userDirectives), Bullets(s.userDirectives);
    feedback, issues := FeedbackLayer(s.review, s.revisionRound, s.code), "";
    BulletsList(s.userDirectives);
    if s.review.Some? && s.review.value.decision == RevisionRequired {
      FeedbackShowsReview(s.review.value, s.revisionRound, s.code);
      var block := FeedbackBlock(s.review.value, s.revisionRound, s.code);
      issues :| ShowsReview(block, s.review.value, s.revisionRound, GetOr(s.code, ""), issues);
      assert feedback[2..] == block;
    }
  }

  /** Until the developer's first turn nothing but the planner has run, and nobody has decided
      anything. */
  predicate Fresh(req: TaskRequest, c: Config) {
    && c.state.title == req.title && c.state.description == req.description
    && (c.state.devMessages == [] ==>
          && c.state.userDirectives == [] && c.state.review.None? && c.state.code.None? && c.verdicts == []
          && (c.node == AtDeveloper ==> c.state.plan.Some?))
  }

  lemma StepKeepsFresh(g: Graph, req: TaskRequest, c: Config, x: Choice)
    requires Fresh(req, c) && TurnInv(c)
    ensures Fresh(req, Step(g, c, x))
  {
  }

  lemma ResumeKeepsFresh(req: TaskRequest, c: Config, directive: string)
    requires Fresh(req, c) && c.state.devMessages != []
    ensures Fresh(req, Resume(c, directive))
  {
  }

  lemma {:induction false} LifeIsFresh(g: Graph, req: TaskRequest, actions: seq<Action>)
    requires req.Valid() && Life(g, req, actions).Some?
    ensures Fresh(req, Life(g, req, actions).value)
    decreases |actions|
  {
    if actions != [] {
      var before, last := actions[..|actions| - 1], actions[|actions| - 1];
      LifeIsFresh(g, req, before);
      LifeFacts(g, req, before);
      var c := Life(g, req, before).value;
      match last {
        case Superstep(x) => StepKeepsFresh(g, req, c, x);
        case UserDecision(directive) => ResumeKeepsFresh(req, c, directive);
      }
    }
  }

  /** The first prompt of every run is the plan, the title and the description, and nothing else. */
  lemma FirstPromptIs(g: Graph, req: TaskRequest, c: Config, system: string)
    requires req.Valid() && Reachable(g, req, c) && c.node == AtDeveloper && c.state.devMessages == []
    ensures c.state.plan.Some?
    ensures Convo(c.state, system) ==
            [System(system),
             Human("# Plan\n" + c.state.plan.value + "\n\n# Task\n" + req.title + "\n" + req.description)]
  {
    var actions :| Life(g, req, actions) == Some(c);
    LifeIsFresh(g, req, actions);
    ReachableFacts(g, req, c);
    var directives, list, feedback, issues := PromptShows(c.state, system);
    var text := "# Plan\n" + c.state.plan.value + "\n\n# Task\n" + req.title + "\n" + req.description;
    assert text + "" + "" == text;
  }

  /** It carries the plan the planner has just written. */
  lemma FirstTurnReadsThePlan(g: Graph, req: TaskRequest, c: Config, x: Choice, system: string)
    requires req.Valid() && Reachable(g, req, c)
    ensures c.node == AtPlanner && c.state.devMessages == [] ==>
              Convo(Step(g, c, x).state, system) ==
              [System(system),
               Human("# Plan\n" + x.planText + "\n\n# Task\n" + req.title + "\n" + req.description)]
  {
    if c.node == AtPlanner && c.state.devMessages == [] {
      var actions :| Life(g, req, actions) == Some(c);
      var more := actions + [Superstep(x)];
      assert more[..|more| - 1] == actions;
      assert Life(g, req, more) == Some(Step(g, c, x));
      FirstPromptIs(g, req, Step(g, c, x), system);
    }
  }

  // ---------- what tools answer, and the last warning ----------

  /** After the tool node the transcript ends with one result per call, each under the id of its call
      and with the text its tool gave. */
  lemma ToolsAnswer(g: Graph, c: Config, x: Choice)
    requires c.node == AtTools && c.state.devMessages != [] && c.state.devMessages[|c.state.devMessages| - 1].AI?
    requires |x.toolBodies| >= |c.state.devMessages[|c.state.devMessages| - 1].calls|
    ensures var before, after := c.state.devMessages, Step(g, c, x).state.devMessages;
            var calls := before[|before| - 1].calls;
            && |after| == |before| + |calls| && before <= after
            && forall i | 0 <= i < |calls| :: after[|before| + i] == Tool(calls[i].id, x.toolBodies[i])
  {
    ToolsAppend(c.state, x);
  }

  lemma ToolsAppend(s: TaskState, x: Choice)
    requires s.devMessages != [] && s.devMessages[|s.devMessages| - 1].AI?
    requires |x.toolBodies| >= |s.devMessages[|s.devMessages| - 1].calls|
    ensures var before, after := s.devMessages, RunTools(s, x).devMessages;
            var calls := before[|before| - 1].calls;
            && |after| == |before| + |calls| && before <= after
            && forall i | 0 <= i < |calls| :: after[|before| + i] == Tool(calls[i].id, x.toolBodies[i])
  {
    ResultsBehind(s.devMessages, s.devMessages[|s.devMessages| - 1].calls, x.toolBodies);
  }

  lemma ResultsBehind(before: seq<Message>, calls: seq<ToolCall>, bodies: seq<string>)
    requires |bodies| >= |calls|
    ensures var after := before + ToolResults(calls, bodies);
            && |after| == |before| + |calls| && before <= after
            && forall i | 0 <= i < |calls| :: after[|before| + i] == Tool(calls[i].id, bodies[i])
  {
  }

  /** A developer out of tool turns is told so last: behind the news if there are any, and otherwise
      in a message of its own. Nothing else of what it would have read changes. */
  lemma WarnedWhenSpent(s: TaskState, system: string)
    requires BudgetUsed(s) && s.devMessages != []
    ensures var convo, last := Convo(s, system), s.devMessages[|s.devMessages| - 1];
            if last.Human?
            then convo == s.devMessages[..|s.devMessages| - 1] + [Human(last.text + "\n\n" + BUDGET_EXHAUSTED_NOTE)]
            else convo == s.devMessages + [Human(BUDGET_EXHAUSTED_NOTE)]
  {
  }
}
