/** The two graphs the service runs, as specifications, and the proof that the run machine moves
    exactly as their compiled graphs do. */
module PresetGraphs {
  import opened Wrappers
  import opened Messages
  import opened TaskStates
  import opened Routers
  import opened GraphSpecs
  import C = GraphCompiler
  import Sim = CompilerSimulation
  import S = Service
  import Roles

  const GOAL_ROUTER := "agent_room.routers:goal_router"
  const STUCK_ROUTER := "agent_room.routers:stuck_router"

  function Plain(role: Role): NodeSpec {
    NodeSpec(role, None, [], None, None)
  }

  function ToolDeveloper(): NodeSpec {
    NodeSpec(DeveloperRole, None, ["glob", "read_text", "write_text", "shell"], Some(Unrestricted),
             Some(Roles.MAX_DEV_ROUNDS))
  }

  function To(from: string, to: string): EdgeSpec {
    EdgeSpec(from, Some(to), [], None)
  }

  function ReviewerEdge(): EdgeSpec {
    EdgeSpec("reviewer", None,
             [BranchSpec("developer", "developer"), BranchSpec("delivery", "delivery"), BranchSpec("halt", END)],
             None)
  }

  function VerifyEdge(): EdgeSpec {
    EdgeSpec("verify", None,
             [BranchSpec("delivery", "delivery"), BranchSpec("developer", "developer"),
              BranchSpec("reviewer", "reviewer"), BranchSpec("supervisor", "supervisor"), BranchSpec("halt", END)],
             Some(GOAL_ROUTER))
  }

  function SupervisorEdge(): EdgeSpec {
    EdgeSpec("supervisor", None,
             [BranchSpec("developer", "developer"), BranchSpec("planner", "planner"), BranchSpec("halt", END)],
             Some(STUCK_ROUTER))
  }

  function WorkflowSpec(): GraphSpec {
    GraphSpec("planner", ["planner", "developer", "reviewer", "delivery"],
              map["planner" := Plain(PlannerRole), "developer" := ToolDeveloper(),
                  "reviewer" := Plain(ReviewerRole), "delivery" := Plain(DeliveryRole)],
              [To("planner", "developer"), To("developer", "reviewer"), ReviewerEdge(), To("delivery", END)],
              None)
  }

  function GoalSpec(): GraphSpec {
    GraphSpec("planner", ["planner", "developer", "verify", "supervisor", "reviewer", "delivery"],
              map["planner" := Plain(PlannerRole), "developer" := ToolDeveloper(),
                  "verify" := Plain(VerifierRole), "supervisor" := Plain(SupervisorRole),
                  "reviewer" := Plain(ReviewerRole), "delivery" := Plain(DeliveryRole)],
              [To("planner", "developer"), To("developer", "verify"), VerifyEdge(), SupervisorEdge(),
               ReviewerEdge(), To("delivery", END)],
              None)
  }

  function SpecOf(graph: S.Graph): GraphSpec {
    if graph == S.Workflow then WorkflowSpec() else GoalSpec()
  }

  function NameOf(node: S.Node): string {
    match node
    case AtPlanner => "planner"
    case AtDeveloper => "developer"
    case AtTools => C.ToolsOf("developer")
    case AtVerify => "verify"
    case AtSupervisor => "supervisor"
    case AtReviewer => "reviewer"
    case AtDelivery => "delivery"
    case End => END
  }

  function SignalText(signal: Signal): string {
    match signal
    case ToDeveloper => "developer"
    case ToDelivery => "delivery"
    case ToReviewer => "reviewer"
    case ToSupervisor => "supervisor"
    case ToPlanner => "planner"
    case Halt => "halt"
  }

  /** What a router says about a state; only the three built-in ones are known. */
  function Ask(router: C.Router, s: TaskState): Option<string> {
    match router
    case ToolsCondition =>
      if s.devMessages == [] then None
      else Some(if IsCallingAi(s.devMessages[|s.devMessages| - 1]) then C.TOOLS else END)
    case Named(dotted) =>
      if dotted.None? then Some(SignalText(ReviewRouter(s)))
      else if dotted.value == GOAL_ROUTER then Some(SignalText(GoalRouter(s)))
      else if dotted.value == STUCK_ROUTER then Some(SignalText(StuckRouter(s)))
      else None
  }

  /** The signal that sends a compiled graph on from `name`, once its node has left `s` behind. */
  function SignalAt(b: C.Built, name: string, s: TaskState): Option<string> {
    if name in b.wires && b.wires[name].Branching? then Ask(b.wires[name].router, s) else None
  }

  predicate HasNode(graph: S.Graph, node: S.Node) {
    node != S.End && (graph == S.Workflow ==> node != S.AtVerify && node != S.AtSupervisor)
  }

  /** The tools and routers the presets name exist. */
  predicate Provides(env: C.Env) {
    && {"glob", "read_text", "write_text", "shell"} <= env.registered
    && env.builtinReadText
    && {GOAL_ROUTER, STUCK_ROUTER} <= env.callables
  }

  lemma SpecIsDict(graph: S.Graph)
    ensures IsDict(SpecOf(graph))
  {
    NamesAreDistinct();
  }

  lemma NamesAreDistinct()
    ensures var names := ["planner", "developer", "verify", "supervisor", "reviewer", "delivery"];
            forall i, j | 0 <= i < j < |names| :: names[i] != names[j]
  {
    assert "developer"[0] == 'd' && "reviewer"[0] == 'r' && "delivery"[0] == 'd';
  }

  lemma SpecIsSequential(graph: S.Graph)
    ensures C.OneEdgePerNode(SpecOf(graph))
  {
    NamesAreDistinct();
  }

  /** Every name the presets use for a node. */
  lemma NodesExist(graph: S.Graph)
    ensures var nodes := SpecOf(graph).nodes;
            && "planner" in nodes && "developer" in nodes && "reviewer" in nodes && "delivery" in nodes
            && (graph == S.Goal ==> "verify" in nodes && "supervisor" in nodes)
  {
  }

  lemma EdgeIsWellFormed(graph: S.Graph, e: EdgeSpec)
    requires e in SpecOf(graph).edges
    ensures LeadsToNodes(SpecOf(graph), e) && (e.router.Some? ==> e.branches != [])
    ensures e.from in SpecOf(graph).nodes
  {
    NodesExist(graph);
  }

  lemma SpecIsWellFormed(graph: S.Graph)
    ensures WellFormed(SpecOf(graph))
  {
    var g := SpecOf(graph);
    NodesExist(graph);
    forall e | e in g.edges
      ensures LeadsToNodes(g, e) && (e.router.Some? ==> e.branches != []) && e.from in g.nodes
    {
      EdgeIsWellFormed(graph, e);
    }
    forall n | n in g.nodes ensures SettingsFit(g.nodes[n]) {
      assert g.nodes[n] == ToolDeveloper() || g.nodes[n] == Plain(g.nodes[n].role);
    }
  }

  lemma NodesCompile(env: C.Env, graph: S.Graph, n: string)
    requires Provides(env) && n in SpecOf(graph).nodes
    ensures C.NodeFaultOf(env, SpecOf(graph).nodes[n]).None? && !C.IsReserved(n)
    ensures C.IsReact(SpecOf(graph).nodes[n]) ==> n == "developer"
  {
    var dev := ToolDeveloper();
    assert forall t | t in dev.tools :: t in {"glob", "read_text", "write_text", "shell"};
    assert C.Permitted(env, Unrestricted, dev.tools) != [];
    assert n[0] != '_';
  }

  lemma RoutersResolve(env: C.Env)
    requires Provides(env)
    ensures C.Resolves(env, None) && C.Resolves(env, Some(GOAL_ROUTER)) && C.Resolves(env, Some(STUCK_ROUTER))
  {
    assert GOAL_ROUTER[18] == ':' && STUCK_ROUTER[18] == ':';
  }

  lemma BranchingEdges(graph: S.Graph, e: EdgeSpec)
    requires e in SpecOf(graph).edges && e.to.None?
    ensures e.from != "developer" && e.router in [None, Some(GOAL_ROUTER), Some(STUCK_ROUTER)]
  {
  }

  lemma EdgeCompiles(env: C.Env, graph: S.Graph, e: EdgeSpec)
    requires Provides(env) && e in SpecOf(graph).edges
    ensures e.from in SpecOf(graph).nodes && C.EdgeFaultOf(env, SpecOf(graph), e).None?
  {
    EdgeIsWellFormed(graph, e);
    if e.to.None? {
      RoutersResolve(env);
      BranchingEdges(graph, e);
      NodesCompile(env, graph, e.from);
    }
  }

  lemma ToolsNameIsFree(graph: S.Graph)
    ensures C.ToolsOf("developer") !in SpecOf(graph).nodes
  {
    assert |C.ToolsOf("developer")| == 15;
    assert forall n | n in SpecOf(graph).nodes :: |n| <= 10;
  }

  lemma SpecIsAcceptable(env: C.Env, graph: S.Graph)
    requires Provides(env)
    ensures C.Acceptable(env, SpecOf(graph))
  {
    var g := SpecOf(graph);
    forall n | n in g.nodes
      ensures C.NodeFaultOf(env, g.nodes[n]).None? && !C.IsReserved(n)
      ensures C.IsReact(g.nodes[n]) ==> C.ToolsOf(n) !in g.nodes
    {
      NodesCompile(env, graph, n);
      ToolsNameIsFree(graph);
    }
    forall e | e in g.edges ensures e.from in g.nodes && C.EdgeFaultOf(env, g, e).None? {
      EdgeCompiles(env, graph, e);
    }
  }

  /** Both presets load and compile, wherever the four tools and the two routers exist. */
  lemma PresetsCompile(env: C.Env, graph: S.Graph)
    requires Provides(env)
    ensures IsDict(SpecOf(graph)) && Validate(SpecOf(graph)).None?
    ensures C.OneEdgePerNode(SpecOf(graph)) && C.Acceptable(env, SpecOf(graph))
  {
    SpecIsDict(graph);
    SpecIsSequential(graph);
    SpecIsWellFormed(graph);
    ValidateIff(SpecOf(graph));
    SpecIsAcceptable(env, graph);
  }

  lemma AgentNodes(env: C.Env, g: GraphSpec, b: C.Built, name: string)
    requires C.IsCompiled(env, g, b) && name in g.nodes && C.IsReact(g.nodes[name]) && C.ToolsOf(name) !in g.nodes
    ensures name in b.nodes && b.nodes[name] == C.AgentNode(env, g.nodes[name])
    ensures C.ToolsOf(name) in b.nodes && b.nodes[C.ToolsOf(name)] == C.ExecutorNode(env, g.nodes[name])
  {
    C.ToolsOfIsToolNode(g, name);
    C.AgentOfTools(name);
  }

  lemma NoNodeIsCalledSo(graph: S.Graph)
    ensures "developer_tools" !in SpecOf(graph).nodes
    ensures "developer" in SpecOf(graph).nodes && SpecOf(graph).nodes["developer"] == ToolDeveloper()
  {
    assert forall n | n in SpecOf(graph).nodes :: |n| <= 10;
  }

  /** Both presets let their developer read, write and run commands, ungated, in eight tool turns. */
  lemma DeveloperHolds(env: C.Env, graph: S.Graph, b: C.Built)
    requires C.IsCompiled(env, SpecOf(graph), b)
    ensures var tools := ["glob", "read_text", "write_text", "shell"];
            && "developer" in b.nodes && b.nodes["developer"] == C.Agent(tools, 8)
            && "developer_tools" in b.nodes && b.nodes["developer_tools"] == C.Executor(tools, false)
  {
    var dev := ToolDeveloper();
    assert C.ToolsOf("developer") == "developer_tools";
    NoNodeIsCalledSo(graph);
    AgentNodes(env, SpecOf(graph), b, "developer");
    AllPermitted(env, dev.tools);
  }

  lemma {:induction false} AllPermitted(env: C.Env, tools: seq<string>)
    ensures C.Permitted(env, Unrestricted, tools) == tools
  {
    if tools != [] {
      AllPermitted(env, tools[1..]);
    }
  }

  // ---------- the run machine walks the compiled graph ----------

  /** `b` is what the preset compiles to. */
  ghost predicate IsPreset(env: C.Env, graph: S.Graph, b: C.Built) {
    Provides(env) && C.IsCompiled(env, SpecOf(graph), b)
  }

  lemma PresetFacts(env: C.Env, graph: S.Graph, b: C.Built)
    requires IsPreset(env, graph, b)
    ensures Sim.Compiles(env, SpecOf(graph), b)
  {
    PresetsCompile(env, graph);
    ValidateIff(SpecOf(graph));
  }

  predicate HasWire(b: C.Built, name: string, wire: C.Wire) {
    name in b.wires && b.wires[name] == wire
  }

  function BranchingOf(e: EdgeSpec): C.Wire {
    C.Branching(C.Named(e.router), C.Mapping(e.branches))
  }

  function LoopOf(name: string, exit: string): C.Wire {
    C.Branching(C.ToolsCondition, map[C.TOOLS := C.ToolsOf(name), END := exit])
  }

  /** The wires of a compiled preset. */
  predicate Wired(graph: S.Graph, b: C.Built) {
    && HasWire(b, "planner", C.Straight("developer"))
    && HasWire(b, "developer", LoopOf("developer", if graph == S.Goal then "verify" else "reviewer"))
    && HasWire(b, C.ToolsOf("developer"), C.Straight("developer"))
    && (graph == S.Goal ==> HasWire(b, "verify", BranchingOf(VerifyEdge())))
    && (graph == S.Goal ==> HasWire(b, "supervisor", BranchingOf(SupervisorEdge())))
    && HasWire(b, "reviewer", BranchingOf(ReviewerEdge()))
    && HasWire(b, "delivery", C.Straight(END))
  }

  function WireFor(e: EdgeSpec): C.Wire {
    if e.to.None? then BranchingOf(e)
    else if e.from == "developer" then LoopOf(e.from, e.to.value)
    else C.Straight(e.to.value)
  }

  lemma WireAtSource(graph: S.Graph, i: nat)
    requires i < |SpecOf(graph).edges| && SpecOf(graph).edges[i].from in SpecOf(graph).nodes
    requires C.IsReact(SpecOf(graph).nodes[SpecOf(graph).edges[i].from]) <==>
               SpecOf(graph).edges[i].from == "developer"
    ensures var g := SpecOf(graph);
            C.WireAt(g, g.edges, g.edges[i].from) == Some(WireFor(g.edges[i]))
  {
    SpecIsSequential(graph);
    C.EdgeFromAt(SpecOf(graph), i);
  }

  lemma DeveloperIsAgent(graph: S.Graph)
    ensures "developer" in SpecOf(graph).nodes && C.IsReact(SpecOf(graph).nodes["developer"])
  {
    NodesExist(graph);
    assert SpecOf(graph).nodes["developer"] == ToolDeveloper();
  }

  lemma WireOfEdge(env: C.Env, graph: S.Graph, b: C.Built, i: nat)
    requires IsPreset(env, graph, b) && i < |SpecOf(graph).edges|
    ensures HasWire(b, SpecOf(graph).edges[i].from, WireFor(SpecOf(graph).edges[i]))
  {
    var e := SpecOf(graph).edges[i];
    EdgeIsWellFormed(graph, e);
    NodesCompile(env, graph, e.from);
    DeveloperIsAgent(graph);
    WireAtSource(graph, i);
    assert C.IsNode(SpecOf(graph), e.from);
  }

  lemma WireAtTools(graph: S.Graph)
    ensures var g, t := SpecOf(graph), C.ToolsOf("developer");
            C.IsNode(g, t) && C.WireAt(g, g.edges, t) == Some(C.Straight("developer"))
  {
    var g := SpecOf(graph);
    DeveloperIsAgent(graph);
    C.ToolsOfIsToolNode(g, "developer");
    C.AgentOfTools("developer");
    ToolsNameIsFree(graph);
    SpecIsSequential(graph);
    C.EdgeFromAt(g, 1);
  }

  lemma ToolsWire(env: C.Env, graph: S.Graph, b: C.Built)
    requires IsPreset(env, graph, b)
    ensures HasWire(b, C.ToolsOf("developer"), C.Straight("developer"))
  {
    WireAtTools(graph);
  }

  /** The wires for all the edges of a preset, and its tool node's, are the wires listed. */
  lemma WiresListed(graph: S.Graph, b: C.Built)
    requires forall i | 0 <= i < |SpecOf(graph).edges| ::
               HasWire(b, SpecOf(graph).edges[i].from, WireFor(SpecOf(graph).edges[i]))
    requires HasWire(b, C.ToolsOf("developer"), C.Straight("developer"))
    ensures Wired(graph, b)
  {
    assert "planner" != "developer" && "delivery" != "developer";
    var edges := SpecOf(graph).edges;
    assert HasWire(b, edges[0].from, WireFor(edges[0]));
    assert HasWire(b, edges[1].from, WireFor(edges[1]));
    assert HasWire(b, edges[2].from, WireFor(edges[2]));
    assert HasWire(b, edges[3].from, WireFor(edges[3]));
    if graph == S.Goal {
      assert HasWire(b, edges[4].from, WireFor(edges[4]));
      assert HasWire(b, edges[5].from, WireFor(edges[5]));
    }
  }

  lemma AllWires(env: C.Env, graph: S.Graph, b: C.Built)
    requires IsPreset(env, graph, b)
    ensures Wired(graph, b)
  {
    ToolsWire(env, graph, b);
    forall i | 0 <= i < |SpecOf(graph).edges|
      ensures HasWire(b, SpecOf(graph).edges[i].from, WireFor(SpecOf(graph).edges[i]))
    {
      WireOfEdge(env, graph, b, i);
    }
    WiresListed(graph, b);
  }

  /** A router's signal picks the branch declared for it. */
  lemma SignalLeads(b: C.Built, e: EdgeSpec, i: nat)
    requires i < |e.branches| && HasWire(b, e.from, BranchingOf(e))
    requires forall j | i < j < |e.branches| :: e.branches[j].on != e.branches[i].on
    ensures Sim.BuiltStep(b, e.from, Some(e.branches[i].on)) == Some(e.branches[i].to)
  {
    C.LastBranchWins(e.branches, i);
  }

  lemma ReviewerFollows(b: C.Built, s: TaskState)
    requires HasWire(b, "reviewer", BranchingOf(ReviewerEdge()))
    ensures Sim.BuiltStep(b, "reviewer", SignalAt(b, "reviewer", s)) == Some(NameOf(S.Target(ReviewRouter(s))))
  {
    assert "halt"[0] == 'h';
    match ReviewRouter(s) {
      case ToDeveloper => SignalLeads(b, ReviewerEdge(), 0);
      case ToDelivery => SignalLeads(b, ReviewerEdge(), 1);
      case Halt => SignalLeads(b, ReviewerEdge(), 2);
    }
  }

  lemma VerifyFollows(b: C.Built, s: TaskState)
    requires HasWire(b, "verify", BranchingOf(VerifyEdge()))
    ensures Sim.BuiltStep(b, "verify", SignalAt(b, "verify", s)) == Some(NameOf(S.Target(GoalRouter(s))))
  {
    assert "halt"[0] == 'h' && "reviewer"[0] == 'r' && "supervisor"[0] == 's' && "delivery"[0] == 'd';
    match GoalRouter(s) {
      case ToDelivery => SignalLeads(b, VerifyEdge(), 0);
      case ToDeveloper => SignalLeads(b, VerifyEdge(), 1);
      case ToReviewer => SignalLeads(b, VerifyEdge(), 2);
      case ToSupervisor => SignalLeads(b, VerifyEdge(), 3);
      case Halt => SignalLeads(b, VerifyEdge(), 4);
    }
  }

  lemma SupervisorFollows(b: C.Built, s: TaskState)
    requires HasWire(b, "supervisor", BranchingOf(SupervisorEdge()))
    ensures Sim.BuiltStep(b, "supervisor", SignalAt(b, "supervisor", s)) == Some(NameOf(S.Target(StuckRouter(s))))
  {
    assert GOAL_ROUTER[19] != STUCK_ROUTER[19];
    assert "halt"[0] == 'h' && "planner"[0] == 'p';
    match StuckRouter(s) {
      case ToDeveloper => SignalLeads(b, SupervisorEdge(), 0);
      case ToPlanner => SignalLeads(b, SupervisorEdge(), 1);
      case Halt => SignalLeads(b, SupervisorEdge(), 2);
    }
  }

  lemma AgentFollows(b: C.Built, name: string, exit: string, s: TaskState)
    requires s.devMessages != [] && HasWire(b, name, LoopOf(name, exit))
    ensures Sim.BuiltStep(b, name, SignalAt(b, name, s)) ==
            Some(if IsCallingAi(s.devMessages[|s.devMessages| - 1]) then C.ToolsOf(name) else exit)
  {
    assert C.TOOLS[0] != END[0];
  }

  /** The next node of the run machine is the one the compiled graph goes to. */
  lemma NextFollowsGraph(graph: S.Graph, b: C.Built, node: S.Node, s: TaskState)
    requires Wired(graph, b) && HasNode(graph, node)
    requires node == S.AtDeveloper ==> s.devMessages != []
    ensures Sim.BuiltStep(b, NameOf(node), SignalAt(b, NameOf(node), s)) == Some(NameOf(S.Next(graph, node, s)))
    ensures S.Next(graph, node, s) != S.End ==> HasNode(graph, S.Next(graph, node, s))
  {
    match node {
      case AtPlanner =>
      case AtTools =>
      case AtDelivery =>
      case AtDeveloper => AgentFollows(b, "developer", if graph == S.Goal then "verify" else "reviewer", s);
      case AtVerify => VerifyFollows(b, s);
      case AtSupervisor => SupervisorFollows(b, s);
      case AtReviewer => ReviewerFollows(b, s);
    }
  }

  /** The visits an uninterrupted run makes. */
  function Trace(graph: S.Graph, b: C.Built, c: S.Config, xs: seq<Roles.Choice>): seq<Sim.Visit>
    decreases |xs|
  {
    if xs == [] then []
    else
      var s := S.RunNode(c.node, c.state, xs[0]);
      [Sim.Visit(NameOf(c.node), SignalAt(b, NameOf(c.node), s))] + Trace(graph, b, S.Step(graph, c, xs[0]), xs[1..])
  }

  /** Every uninterrupted run is a path of the compiled graph. */
  lemma {:induction false} RunsAreCompiledPaths(graph: S.Graph, b: C.Built, c: S.Config, xs: seq<Roles.Choice>)
    requires Wired(graph, b) && S.Live(graph, c, xs) && (c.node == S.End || HasNode(graph, c.node))
    ensures Sim.BuiltPath(b, NameOf(c.node), Trace(graph, b, c, xs), NameOf(S.Run(graph, c, xs).node))
    decreases |xs|
  {
    if xs != [] {
      var s := S.RunNode(c.node, c.state, xs[0]);
      assert c.node == S.AtDeveloper ==> s.devMessages != [];
      NextFollowsGraph(graph, b, c.node, s);
      RunsAreCompiledPaths(graph, b, S.Step(graph, c, xs[0]), xs[1..]);
    }
  }

  /** Without its tool loops, a run from the start is a path of the preset as written. */
  lemma RunsFollowThePreset(env: C.Env, graph: S.Graph, b: C.Built, c: S.Config, xs: seq<Roles.Choice>)
    requires IsPreset(env, graph, b) && S.Live(graph, c, xs) && c.node == S.AtPlanner
    ensures var g := SpecOf(graph);
            Sim.SpecPath(g, g.entry, Sim.Erase(g, Trace(graph, b, c, xs)),
                         Sim.Collapse(g, NameOf(S.Run(graph, c, xs).node)))
  {
    TraceFromPlanner(env, graph, b, c, xs);
    EraseFromPlanner(env, graph, b, Trace(graph, b, c, xs), NameOf(S.Run(graph, c, xs).node));
  }

  lemma TraceFromPlanner(env: C.Env, graph: S.Graph, b: C.Built, c: S.Config, xs: seq<Roles.Choice>)
    requires IsPreset(env, graph, b) && S.Live(graph, c, xs) && c.node == S.AtPlanner
    ensures Sim.BuiltPath(b, "planner", Trace(graph, b, c, xs), NameOf(S.Run(graph, c, xs).node))
  {
    AllWires(env, graph, b);
    RunsAreCompiledPaths(graph, b, c, xs);
  }

  lemma EraseFromPlanner(env: C.Env, graph: S.Graph, b: C.Built, visits: seq<Sim.Visit>, to: string)
    requires IsPreset(env, graph, b) && Sim.BuiltPath(b, "planner", visits, to)
    ensures var g := SpecOf(graph);
            g.entry == "planner" && Sim.SpecPath(g, "planner", Sim.Erase(g, visits), Sim.Collapse(g, to))
  {
    var g := SpecOf(graph);
    NodesExist(graph);
    PresetFacts(env, graph, b);
    Sim.CompiledPathsErase(env, g, b, "planner", visits, to);
  }
}
