/** The tool loop of one agent: the budget its specification gives it bounds the detours of a turn in
    the compiled graph, and a turn can use the budget up. */
module AgentTurns {
  import opened Wrappers
  import opened Messages
  import opened TaskStates
  import opened Roles
  import opened GraphSpecs
  import C = GraphCompiler
  import Sim = CompilerSimulation
  import PresetGraphs

  predicate CallsTools(s: TaskState) {
    s.devMessages != [] && IsCallingAi(s.devMessages[|s.devMessages| - 1])
  }

  /** `xs` is nothing but rounds of the tool loop: a turn that calls tools, then the tools. */
  predicate ToolRounds(s: TaskState, xs: seq<Choice>, maxRounds: int)
    decreases |xs|
  {
    if |xs| < 2 then xs == []
    else
      var asked := DeveloperTurn(s, xs[0], maxRounds);
      CallsTools(asked) && ToolRounds(RunTools(asked, xs[1]), xs[2..], maxRounds)
  }

  /** A turn goes round the tool loop no more often than its budget has rounds left. */
  lemma {:induction false} RoundsWithinBudget(s: TaskState, xs: seq<Choice>, maxRounds: int)
    requires ToolRounds(s, xs, maxRounds)
    ensures |xs| % 2 == 0
    ensures xs != [] ==> |xs| / 2 + s.devRound <= maxRounds
    decreases |xs|
  {
    if xs != [] {
      var asked := DeveloperTurn(s, xs[0], maxRounds);
      assert !BudgetSpent(s, maxRounds);
      RoundsWithinBudget(RunTools(asked, xs[1]), xs[2..], maxRounds);
    }
  }

  /** A model that keeps calling tools uses all of them. */
  lemma {:induction false} BudgetCanBeUsedUp(s: TaskState, x: Choice, maxRounds: int) returns (xs: seq<Choice>)
    requires x.turnCalls != [] && s.devRound <= maxRounds
    ensures ToolRounds(s, xs, maxRounds) && |xs| / 2 + s.devRound == maxRounds
    decreases maxRounds - s.devRound
  {
    if BudgetSpent(s, maxRounds) {
      xs := [];
    } else {
      var asked := DeveloperTurn(s, x, maxRounds);
      var rest := BudgetCanBeUsedUp(RunTools(asked, x), x, maxRounds);
      xs := [x, x] + rest;
      assert xs[2..] == rest;
    }
  }

  /** Once the budget is spent the agent leaves the loop, whatever the model says. */
  lemma SpentAgentLeaves(s: TaskState, x: Choice, maxRounds: int)
    requires BudgetSpent(s, maxRounds)
    ensures PresetGraphs.Ask(C.ToolsCondition, DeveloperTurn(s, x, maxRounds)) == Some(END)
  {
  }

  /** The visits such rounds make in a compiled graph, with the signals its tools condition gives. */
  function RoundVisits(name: string, s: TaskState, xs: seq<Choice>, maxRounds: int): seq<Sim.Visit>
    requires ToolRounds(s, xs, maxRounds)
    decreases |xs|
  {
    if xs == [] then []
    else
      var asked := DeveloperTurn(s, xs[0], maxRounds);
      [Sim.Visit(name, PresetGraphs.Ask(C.ToolsCondition, asked)), Sim.Visit(C.ToolsOf(name), None)]
      + RoundVisits(name, RunTools(asked, xs[1]), xs[2..], maxRounds)
  }

  lemma {:induction false} RoundsAreLoops(name: string, s: TaskState, xs: seq<Choice>, maxRounds: int)
    requires ToolRounds(s, xs, maxRounds)
    ensures RoundVisits(name, s, xs, maxRounds) == Sim.Loops(name, |xs| / 2)
    decreases |xs|
  {
    if xs != [] {
      var asked := DeveloperTurn(s, xs[0], maxRounds);
      RoundsAreLoops(name, RunTools(asked, xs[1]), xs[2..], maxRounds);
      assert |xs[2..]| / 2 == |xs| / 2 - 1;
    }
  }

  lemma SpecifiedBudget(env: C.Env, g: GraphSpec, b: C.Built, name: string)
    requires Sim.Compiles(env, g, b) && Sim.IsAgent(g, name)
    ensures name in b.nodes && b.nodes[name].Agent? && b.nodes[name].maxRounds >= 1
    ensures b.nodes[name].maxRounds ==
              if g.nodes[name].maxDevRounds.Some? then g.nodes[name].maxDevRounds.value else C.DEFAULT_ROUNDS
  {
    assert SettingsFit(g.nodes[name]);
  }

  /** For every agent of every compiled specification: the rounds of a turn are detours of the
      compiled graph, and from a fresh budget there are at most as many of them as the budget says. */
  lemma DetoursWithinSpecifiedBudget(
    env: C.Env, g: GraphSpec, b: C.Built, name: string, s: TaskState, xs: seq<Choice>, budget: int)
    requires Sim.Compiles(env, g, b) && Sim.IsAgent(g, name) && Sim.SpecStep(g, name, None).Some?
    requires name in b.nodes && b.nodes[name].Agent? && budget == b.nodes[name].maxRounds
    requires ToolRounds(s, xs, budget)
    ensures RoundVisits(name, s, xs, budget) == Sim.Loops(name, |xs| / 2)
    ensures Sim.BuiltPath(b, name, Sim.Loops(name, |xs| / 2), name)
    ensures |xs| / 2 <= budget && (xs != [] ==> |xs| / 2 + s.devRound <= budget)
  {
    SpecifiedBudget(env, g, b, name);
    RoundsWithinBudget(s, xs, budget);
    RoundsAreLoops(name, s, xs, budget);
    Sim.LoopsPath(env, g, b, name, |xs| / 2);
  }
}
