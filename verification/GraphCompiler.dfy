/** From a validated specification to the graph that runs: every tool-using developer becomes an
    agent and a tool node in a loop. */
module GraphCompiler {
  import opened Wrappers
  import opened GraphSpecs

  const START := "__start__"
  const TOOLS := "tools"
  const SUFFIX := "_tools"
  const DEFAULT_ROUNDS := 6

  /** The world a build looks names up in: registered tools, those of them that only read, whether
      the tool registered as `read_text` is the built-in one, and importable callables. */
  datatype Env = Env(registered: set<string>, readOnly: set<string>, builtinReadText: bool, callables: set<string>)

  // ---------- nodes ----------

  predicate IsReact(n: NodeSpec) {
    n.tools != [] && n.role.DeveloperRole? && n.variant.None?
  }

  function ModeOf(n: NodeSpec): Mode {
    if n.toolMode.Some? then n.toolMode.value else ReadOnly
  }

  /** The tools of a node its permission mode lets through, in the order listed. */
  function Permitted(env: Env, mode: Mode, tools: seq<string>): seq<string> {
    if tools == [] then []
    else
      (if mode != ReadOnly || tools[0] in env.readOnly then [tools[0]] else []) + Permitted(env, mode, tools[1..])
  }

  const READ_TEXT := "read_text"

  datatype NodeFault =
    | UnregisteredTool | EveryToolRefused | ToolsOnOtherRole
    | MissingReadText | ForeignReadText | UnknownVariant

  /** Why a node cannot be instantiated, if it cannot. A verifier takes its workspace from the
      registered `read_text`, whatever its variant says. */
  function NodeFaultOf(env: Env, n: NodeSpec): Option<NodeFault> {
    if IsReact(n) then
      if exists t | t in n.tools :: t !in env.registered then Some(UnregisteredTool)
      else if Permitted(env, ModeOf(n), n.tools) == [] then Some(EveryToolRefused)
      else None
    else if n.tools != [] && n.role != DeveloperRole then Some(ToolsOnOtherRole)
    else if n.role == VerifierRole then
      if READ_TEXT !in env.registered then Some(MissingReadText)
      else if !env.builtinReadText then Some(ForeignReadText)
      else None
    else if n.variant.None? then None
    else if n.role == PlannerRole && n.variant.value == "gate" then None
    else if n.role == ReviewerRole && n.variant.value == "two_call" then None
    else Some(UnknownVariant)
  }

  datatype Node =
    | Single(role: Role, variant: Option<string>)
    | Agent(tools: seq<string>, maxRounds: int)
    | Executor(tools: seq<string>, gated: bool)

  function AgentNode(env: Env, n: NodeSpec): Node {
    if IsReact(n) then
      Agent(Permitted(env, ModeOf(n), n.tools), if n.maxDevRounds.Some? then n.maxDevRounds.value else DEFAULT_ROUNDS)
    else Single(n.role, if n.role == VerifierRole then None else n.variant)
  }

  function ExecutorNode(env: Env, n: NodeSpec): Node {
    Executor(Permitted(env, ModeOf(n), n.tools), ModeOf(n) == Approval)
  }

  function ToolsOf(name: string): string {
    name + SUFFIX
  }

  function AgentOf(tools: string): string
    requires |tools| >= |SUFFIX|
  {
    tools[..|tools| - |SUFFIX|]
  }

  lemma AgentOfTools(name: string)
    ensures AgentOf(ToolsOf(name)) == name
  {
  }

  /** `x` is the tool node of one of the agents. */
  predicate IsToolNode(g: GraphSpec, x: string) {
    && |x| >= |SUFFIX|
    && x == ToolsOf(AgentOf(x))
    && AgentOf(x) in g.nodes
    && IsReact(g.nodes[AgentOf(x)])
  }

  lemma ToolsOfIsToolNode(g: GraphSpec, name: string)
    requires name in g.nodes && IsReact(g.nodes[name])
    ensures IsToolNode(g, ToolsOf(name))
  {
    AgentOfTools(name);
  }

  // ---------- edges ----------

  datatype Router = Named(dotted: Option<string>) | ToolsCondition

  /** What follows a node: one successor, or the one its router's signal is mapped to. */
  datatype Wire = Straight(to: string) | Branching(router: Router, mapping: map<string, string>)

  /** A branch list as a dictionary: of two branches on one signal the later counts. */
  function Mapping(branches: seq<BranchSpec>): map<string, string> {
    if branches == [] then map[]
    else
      var last := branches[|branches| - 1];
      Mapping(branches[..|branches| - 1])[last.on := last.to]
  }

  function WireOf(name: string, n: NodeSpec, e: EdgeSpec): Wire {
    if e.to.None? then Branching(Named(e.router), Mapping(e.branches))
    else if IsReact(n) then Branching(ToolsCondition, map[TOOLS := ToolsOf(name), END := e.to.value])
    else Straight(e.to.value)
  }

  predicate Resolves(env: Env, router: Option<string>) {
    router.None? || (':' in router.value && router.value in env.callables)
  }

  datatype EdgeFault = UnresolvedRouter | ConditionalOutOfAgent

  function EdgeFaultOf(env: Env, g: GraphSpec, e: EdgeSpec): Option<EdgeFault>
    requires e.from in g.nodes
  {
    if e.to.Some? then None
    else if !Resolves(env, e.router) then Some(UnresolvedRouter)
    else if IsReact(g.nodes[e.from]) then Some(ConditionalOutOfAgent)
    else None
  }

  // ---------- the whole graph ----------

  predicate OneEdgePerNode(g: GraphSpec) {
    forall i, j | 0 <= i < j < |g.edges| :: g.edges[i].from != g.edges[j].from
  }

  /** The edge out of a node, if it has one. */
  function EdgeFrom(edges: seq<EdgeSpec>, name: string): Option<EdgeSpec> {
    if edges == [] then None
    else
      var last := edges[|edges| - 1];
      if last.from == name then Some(last) else EdgeFrom(edges[..|edges| - 1], name)
  }

  lemma {:induction false} EdgeFromIs(edges: seq<EdgeSpec>, name: string)
    ensures EdgeFrom(edges, name).Some? ==>
              EdgeFrom(edges, name).value in edges && EdgeFrom(edges, name).value.from == name
    ensures (exists e | e in edges :: e.from == name) ==> EdgeFrom(edges, name).Some?
  {
    if edges != [] {
      EdgeFromIs(edges[..|edges| - 1], name);
      assert edges == edges[..|edges| - 1] + [edges[|edges| - 1]];
    }
  }

  /** With one edge per node, each edge is the one its source has. */
  lemma EdgeFromAt(g: GraphSpec, i: nat)
    requires OneEdgePerNode(g) && i < |g.edges|
    ensures EdgeFrom(g.edges, g.edges[i].from) == Some(g.edges[i])
  {
    assert g.edges[i] in g.edges;
    EdgeFromIs(g.edges, g.edges[i].from);
    var j :| 0 <= j < |g.edges| && g.edges[j] == EdgeFrom(g.edges, g.edges[i].from).value;
    assert !(i < j) && !(j < i);
  }

  predicate IsNode(g: GraphSpec, x: string) {
    x in g.nodes || IsToolNode(g, x)
  }

  function NodeAt(env: Env, g: GraphSpec, x: string): Node
    requires IsNode(g, x)
  {
    if x in g.nodes then AgentNode(env, g.nodes[x]) else ExecutorNode(env, g.nodes[AgentOf(x)])
  }

  /** What follows `x` when just `edges` have been wired. A tool node leads back to its agent once
      the agent's own edge is there. */
  function WireAt(g: GraphSpec, edges: seq<EdgeSpec>, x: string): Option<Wire>
    requires IsNode(g, x)
  {
    if x in g.nodes then
      var e := EdgeFrom(edges, x);
      if e.None? then None else Some(WireOf(x, g.nodes[x], e.value))
    else if EdgeFrom(edges, AgentOf(x)).Some? then Some(Straight(AgentOf(x)))
    else None
  }

  datatype Built = Built(entry: Option<string>, nodes: map<string, Node>, wires: map<string, Wire>)

  ghost predicate HasNodes(env: Env, g: GraphSpec, nodes: map<string, Node>) {
    && (forall x :: x in nodes <==> IsNode(g, x))
    && (forall x | x in nodes :: nodes[x] == NodeAt(env, g, x))
  }

  ghost predicate HasWires(g: GraphSpec, edges: seq<EdgeSpec>, wires: map<string, Wire>) {
    && (forall x :: x in wires <==> IsNode(g, x) && WireAt(g, edges, x).Some?)
    && (forall x | x in wires :: wires[x] == WireAt(g, edges, x).value)
  }

  /** `b` is what `g` compiles to: these nodes and wires and no others. */
  ghost predicate IsCompiled(env: Env, g: GraphSpec, b: Built) {
    && b.entry == Some(g.entry)
    && HasNodes(env, g, b.nodes)
    && HasWires(g, g.edges, b.wires)
  }

  /** Exactly one graph is. */
  lemma CompiledIsUnique(env: Env, g: GraphSpec, b: Built, b': Built)
    requires IsCompiled(env, g, b) && IsCompiled(env, g, b')
    ensures b == b'
  {
    assert b.nodes == b'.nodes;
    assert b.wires == b'.wires;
  }

  // ---------- building ----------

  predicate IsReserved(name: string) {
    name == START || name == END
  }

  /** What a specification must satisfy, beyond being well formed, to compile. */
  ghost predicate Acceptable(env: Env, g: GraphSpec) {
    && (forall n | n in g.nodes ::
          && NodeFaultOf(env, g.nodes[n]).None?
          && !IsReserved(n)
          && (IsReact(g.nodes[n]) ==> ToolsOf(n) !in g.nodes))
    && forall e | e in g.edges :: e.from in g.nodes && EdgeFaultOf(env, g, e).None?
  }

  datatype BuildError =
    | BadNode(name: string, nodeFault: NodeFault)
    | BadName(taken: string)
    | BadEdge(edge: EdgeSpec, edgeFault: EdgeFault)

  /** A specification with a verifier compiles only where the verifier finds its workspace. */
  lemma VerifierNeedsReadText(env: Env, g: GraphSpec, n: string)
    requires Acceptable(env, g) && n in g.nodes && g.nodes[n].role == VerifierRole
    ensures g.nodes[n].tools == [] && READ_TEXT in env.registered && env.builtinReadText
  {
    assert NodeFaultOf(env, g.nodes[n]).None?;
  }

  /** The error names something that is really wrong. */
  ghost predicate Explains(env: Env, g: GraphSpec, error: BuildError) {
    match error
    case BadNode(n, fault) => n in g.nodes && NodeFaultOf(env, g.nodes[n]) == Some(fault)
    case BadName(n) => (n in g.nodes && (IsReserved(n) || IsToolNode(g, n)))
    case BadEdge(e, fault) => e in g.edges && e.from in g.nodes && EdgeFaultOf(env, g, e) == Some(fault)
  }

  class StateGraph {
    var entry: Option<string>
    var nodes: map<string, Node>
    var wires: map<string, Wire>

    ghost function Contents(): Built
      reads this
    {
      Built(entry, nodes, wires)
    }

    constructor ()
      ensures Contents() == Built(None, map[], map[])
    {
      entry, nodes, wires := None, map[], map[];
    }

    method AddNode(name: string, node: Node) returns (ok: bool)
      modifies this
      ensures ok <==> name !in old(nodes) && !IsReserved(name)
      ensures Contents() == old(Contents()).(nodes := if ok then old(nodes)[name := node] else old(nodes))
    {
      ok := name !in nodes && !IsReserved(name);
      if ok {
        nodes := nodes[name := node];
      }
    }

    method AddEdge(from: string, to: string)
      requires from != START ==> from !in wires
      modifies this
      ensures Contents() == if from == START then old(Contents()).(entry := Some(to))
                            else old(Contents()).(wires := old(wires)[from := Straight(to)])
    {
      if from == START {
        entry := Some(to);
      } else {
        wires := wires[from := Straight(to)];
      }
    }

    method AddConditionalEdges(from: string, router: Router, mapping: map<string, string>)
      requires from !in wires
      modifies this
      ensures Contents() == old(Contents()).(wires := old(wires)[from := Branching(router, mapping)])
    {
      wires := wires[from := Branching(router, mapping)];
    }

    method AddReactBranch(agent: string, onEnd: string)
      requires agent !in wires && ToolsOf(agent) !in wires && ToolsOf(agent) != START
      modifies this
      ensures Contents() == old(Contents()).(wires :=
                old(wires)[agent := Branching(ToolsCondition, map[TOOLS := ToolsOf(agent), END := onEnd])]
                          [ToolsOf(agent) := Straight(agent)])
    {
      assert |ToolsOf(agent)| == |agent| + 6;
      AddConditionalEdges(agent, ToolsCondition, map[TOOLS := ToolsOf(agent), END := onEnd]);
      AddEdge(ToolsOf(agent), agent);
    }
  }

  // ---------- adding the nodes ----------

  predicate IsToolNodeOf(g: GraphSpec, done: seq<string>, x: string) {
    IsToolNode(g, x) && AgentOf(x) in done
  }

  /** The nodes that the names in `done` give rise to. */
  predicate IsNodeOf(g: GraphSpec, done: seq<string>, x: string) {
    x in done || IsToolNodeOf(g, done, x)
  }

  ghost predicate HasNodesOf(env: Env, g: GraphSpec, done: seq<string>, nodes: map<string, Node>) {
    && (forall n | n in done :: n in g.nodes)
    && (forall x :: x in nodes <==> IsNodeOf(g, done, x))
    && (forall x | x in done :: nodes[x] == AgentNode(env, g.nodes[x]))
    && (forall x | x in nodes && x !in done :: nodes[x] == ExecutorNode(env, g.nodes[AgentOf(x)]))
  }

  ghost predicate AcceptableNodes(env: Env, g: GraphSpec, done: seq<string>) {
    forall n | n in done ::
      && n in g.nodes
      && NodeFaultOf(env, g.nodes[n]).None?
      && !IsReserved(n)
      && (IsReact(g.nodes[n]) ==> ToolsOf(n) !in done)
  }

  lemma AddingAgent(env: Env, g: GraphSpec, done: seq<string>, nodes: map<string, Node>, n: string)
    requires HasNodesOf(env, g, done, nodes) && n in g.nodes && n !in nodes
    ensures var nodes' := nodes[n := AgentNode(env, g.nodes[n])];
            if IsReact(g.nodes[n]) then
              ToolsOf(n) !in nodes' ==>
                HasNodesOf(env, g, done + [n], nodes'[ToolsOf(n) := ExecutorNode(env, g.nodes[n])])
            else HasNodesOf(env, g, done + [n], nodes')
  {
    AgentOfTools(n);
    assert forall x | IsToolNode(g, x) && AgentOf(x) == n :: x == ToolsOf(n);
    assert IsReact(g.nodes[n]) ==> IsToolNode(g, ToolsOf(n));
  }

  lemma AcceptableSnoc(env: Env, g: GraphSpec, done: seq<string>, n: string)
    requires AcceptableNodes(env, g, done) && n in g.nodes
    requires NodeFaultOf(env, g.nodes[n]).None? && !IsReserved(n) && !IsToolNodeOf(g, done, n)
    requires IsReact(g.nodes[n]) ==> ToolsOf(n) !in done
    ensures AcceptableNodes(env, g, done + [n])
  {
    forall m | m in done && IsReact(g.nodes[m]) ensures ToolsOf(m) != n {
      AgentOfTools(m);
    }
    assert |ToolsOf(n)| == |n| + 6;
  }

  lemma ToolsNameIsFree(env: Env, g: GraphSpec, done: seq<string>, nodes: map<string, Node>, n: string)
    requires HasNodesOf(env, g, done, nodes) && n !in done
    ensures !IsReserved(ToolsOf(n)) && ToolsOf(n) != n
    ensures ToolsOf(n) in nodes ==> ToolsOf(n) in done
  {
    AgentOfTools(n);
    var t := ToolsOf(n);
    assert t[|t| - 1] == 's' && START[|START| - 1] == '_' && END[|END| - 1] == '_';
  }

  /** One round of the node loop. */
  method AddNodeFor(env: Env, g: GraphSpec, ghost done: seq<string>, name: string, graph: StateGraph)
    returns (error: Option<BuildError>)
    requires name in g.nodes && name !in done
    requires HasNodesOf(env, g, done, graph.nodes)
    modifies graph
    ensures graph.entry == old(graph.entry) && graph.wires == old(graph.wires)
    ensures error.None? ==>
              && HasNodesOf(env, g, done + [name], graph.nodes)
              && NodeFaultOf(env, g.nodes[name]).None?
              && !IsReserved(name)
              && !IsToolNodeOf(g, done, name)
              && (IsReact(g.nodes[name]) ==> ToolsOf(name) !in done)
    ensures error.Some? ==> Explains(env, g, error.value)
  {
    error := None;
    var spec := g.nodes[name];
    ghost var before := graph.nodes;
    var fault := NodeFaultOf(env, spec);
    if fault.Some? {
      return Some(BadNode(name, fault.value));
    }
    var ok := graph.AddNode(name, AgentNode(env, spec));
    if !ok {
      return Some(BadName(name));
    }
    AddingAgent(env, g, done, before, name);
    if IsReact(spec) {
      ToolsOfIsToolNode(g, name);
      ToolsNameIsFree(env, g, done, before, name);
      ok := graph.AddNode(ToolsOf(name), ExecutorNode(env, spec));
      if !ok {
        return Some(BadName(ToolsOf(name)));
      }
    }
  }

  lemma NextName(g: GraphSpec, i: nat)
    requires IsDict(g) && i < |g.names|
    ensures g.names[i] in g.nodes && g.names[i] !in g.names[..i]
    ensures g.names[..i + 1] == g.names[..i] + [g.names[i]]
  {
    assert g.names[i] in g.names;
  }

  method AddNodes(env: Env, g: GraphSpec, graph: StateGraph) returns (error: Option<BuildError>)
    requires IsDict(g) && graph.nodes == map[]
    modifies graph
    ensures graph.entry == old(graph.entry) && graph.wires == old(graph.wires)
    ensures error.None? ==>
              HasNodesOf(env, g, g.names, graph.nodes) && AcceptableNodes(env, g, g.names)
    ensures error.Some? ==> Explains(env, g, error.value)
  {
    error := None;
    var i := 0;
    ghost var done: seq<string> := [];
    while i < |g.names|
      invariant 0 <= i <= |g.names| && done == g.names[..i] && error.None?
      invariant graph.entry == old(graph.entry) && graph.wires == old(graph.wires)
      invariant HasNodesOf(env, g, done, graph.nodes)
      invariant AcceptableNodes(env, g, done)
    {
      var name := g.names[i];
      NextName(g, i);
      error := AddNodeFor(env, g, done, name, graph);
      if error.Some? {
        return;
      }
      AcceptableSnoc(env, g, done, name);
      done := done + [name];
      i := i + 1;
    }
    assert done == g.names;
  }

  // ---------- adding the edges ----------

  /** The names of tool nodes are free. */
  predicate NoClash(g: GraphSpec) {
    forall n | n in g.nodes && IsReact(g.nodes[n]) :: ToolsOf(n) !in g.nodes
  }

  lemma EdgeFromSnoc(done: seq<EdgeSpec>, e: EdgeSpec, name: string)
    ensures EdgeFrom(done + [e], name) == if e.from == name then Some(e) else EdgeFrom(done, name)
  {
    assert (done + [e])[..|done|] == done;
  }

  lemma AddingEdge(g: GraphSpec, done: seq<EdgeSpec>, wires: map<string, Wire>, e: EdgeSpec)
    requires NoClash(g) && HasWires(g, done, wires)
    requires e.from in g.nodes && (IsReact(g.nodes[e.from]) ==> e.to.Some?)
    ensures var n := g.nodes[e.from];
            var wires' := wires[e.from := WireOf(e.from, n, e)];
            HasWires(g, done + [e], if IsReact(n) then wires'[ToolsOf(e.from) := Straight(e.from)] else wires')
  {
    AgentOfTools(e.from);
    forall x ensures EdgeFrom(done + [e], x) == if e.from == x then Some(e) else EdgeFrom(done, x) {
      EdgeFromSnoc(done, e, x);
    }
    assert IsReact(g.nodes[e.from]) ==> IsToolNode(g, ToolsOf(e.from));
    assert forall x | IsToolNode(g, x) && AgentOf(x) == e.from :: x == ToolsOf(e.from);
  }

  lemma {:induction false} NotWiredYet(edges: seq<EdgeSpec>, name: string)
    requires forall e | e in edges :: e.from != name
    ensures EdgeFrom(edges, name).None?
  {
    if edges != [] {
      NotWiredYet(edges[..|edges| - 1], name);
    }
  }

  /** One round of the edge loop. */
  method AddEdgeFor(env: Env, g: GraphSpec, ghost done: seq<EdgeSpec>, e: EdgeSpec, graph: StateGraph)
    returns (error: Option<BuildError>)
    requires NoClash(g) && HasWires(g, done, graph.wires)
    requires e in g.edges && e.from in g.nodes && !IsReserved(e.from)
    requires forall earlier | earlier in done :: earlier.from != e.from
    modifies graph
    ensures graph.entry == old(graph.entry) && graph.nodes == old(graph.nodes)
    ensures error.None? ==> HasWires(g, done + [e], graph.wires) && EdgeFaultOf(env, g, e).None?
    ensures error.Some? ==> Explains(env, g, error.value)
  {
    error := None;
    ghost var before := graph.wires;
    NotWiredYet(done, e.from);
    AgentOfTools(e.from);
    var spec := g.nodes[e.from];
    if e.to.Some? {
      AddingEdge(g, done, before, e);
      if IsReact(spec) {
        ToolsOfIsToolNode(g, e.from);
        ToolsNameIsFree(env, g, [], map[], e.from);
        graph.AddReactBranch(e.from, e.to.value);
      } else {
        graph.AddEdge(e.from, e.to.value);
      }
    } else {
      if !Resolves(env, e.router) {
        return Some(BadEdge(e, UnresolvedRouter));
      }
      if IsReact(spec) {
        return Some(BadEdge(e, ConditionalOutOfAgent));
      }
      AddingEdge(g, done, before, e);
      var mapping := MappingOf(e.branches);
      graph.AddConditionalEdges(e.from, Named(e.router), mapping);
    }
  }

  method MappingOf(branches: seq<BranchSpec>) returns (mapping: map<string, string>)
    ensures mapping == Mapping(branches)
  {
    mapping := map[];
    for i := 0 to |branches|
      invariant mapping == Mapping(branches[..i])
    {
      mapping := mapping[branches[i].on := branches[i].to];
      assert branches[..i + 1][..i] == branches[..i];
    }
    assert branches[..|branches|] == branches;
  }

  /** The last branch on a signal decides where it leads. */
  lemma {:induction false} LastBranchWins(branches: seq<BranchSpec>, i: nat)
    requires i < |branches|
    requires forall j | i < j < |branches| :: branches[j].on != branches[i].on
    ensures branches[i].on in Mapping(branches) && Mapping(branches)[branches[i].on] == branches[i].to
    decreases |branches|
  {
    if i < |branches| - 1 {
      LastBranchWins(branches[..|branches| - 1], i);
    }
  }

  lemma {:induction false} MappedByABranch(branches: seq<BranchSpec>, on: string)
    requires on in Mapping(branches)
    ensures exists b | b in branches :: b.on == on && b.to == Mapping(branches)[on]
  {
    var last := branches[|branches| - 1];
    if last.on != on {
      MappedByABranch(branches[..|branches| - 1], on);
    }
  }

  method AddEdges(env: Env, g: GraphSpec, graph: StateGraph) returns (error: Option<BuildError>)
    requires WellFormed(g) && OneEdgePerNode(g) && NoClash(g)
    requires forall n | n in g.nodes :: !IsReserved(n)
    requires graph.wires == map[]
    modifies graph
    ensures graph.entry == old(graph.entry) && graph.nodes == old(graph.nodes)
    ensures error.None? ==>
              && HasWires(g, g.edges, graph.wires)
              && forall e | e in g.edges :: e.from in g.nodes && EdgeFaultOf(env, g, e).None?
    ensures error.Some? ==> Explains(env, g, error.value)
  {
    error := None;
    var i := 0;
    ghost var done: seq<EdgeSpec> := [];
    while i < |g.edges|
      invariant 0 <= i <= |g.edges| && done == g.edges[..i] && error.None?
      invariant graph.entry == old(graph.entry) && graph.nodes == old(graph.nodes)
      invariant HasWires(g, done, graph.wires)
      invariant forall e | e in done :: e.from in g.nodes && EdgeFaultOf(env, g, e).None?
    {
      var e := g.edges[i];
      assert e in g.edges;
      error := AddEdgeFor(env, g, done, e, graph);
      if error.Some? {
        return;
      }
      done := done + [e];
      i := i + 1;
    }
    assert done == g.edges;
  }

  /** The build succeeds exactly on the acceptable specifications, and then yields the one graph the
      specification compiles to. */
  method Build(env: Env, g: GraphSpec) returns (r: Result<StateGraph, BuildError>)
    requires IsDict(g) && WellFormed(g) && OneEdgePerNode(g)
    ensures r.Success? <==> Acceptable(env, g)
    ensures r.Success? ==> IsCompiled(env, g, r.value.Contents())
    ensures r.Failure? ==> Explains(env, g, r.error)
  {
    var graph := new StateGraph();
    var error := AddNodes(env, g, graph);
    if error.Some? {
      ErrorMeansUnacceptable(env, g, error.value);
      return Failure(error.value);
    }
    AllNodesAdded(env, g, graph.nodes);
    graph.AddEdge(START, g.entry);
    error := AddEdges(env, g, graph);
    if error.Some? {
      ErrorMeansUnacceptable(env, g, error.value);
      return Failure(error.value);
    }
    return Success(graph);
  }

  lemma ErrorMeansUnacceptable(env: Env, g: GraphSpec, error: BuildError)
    requires Explains(env, g, error)
    ensures !Acceptable(env, g)
  {
  }

  lemma AllNodesAdded(env: Env, g: GraphSpec, nodes: map<string, Node>)
    requires IsDict(g) && HasNodesOf(env, g, g.names, nodes) && AcceptableNodes(env, g, g.names)
    ensures HasNodes(env, g, nodes) && NoClash(g)
    ensures forall n | n in g.nodes :: NodeFaultOf(env, g.nodes[n]).None? && !IsReserved(n)
  {
    assert forall x :: x in g.names <==> x in g.nodes;
  }

  // ---------- what an agent may call ----------

  lemma {:induction false} PermittedIs(env: Env, mode: Mode, tools: seq<string>)
    ensures forall t :: t in Permitted(env, mode, tools) <==> t in tools && (mode != ReadOnly || t in env.readOnly)
  {
    if tools != [] {
      PermittedIs(env, mode, tools[1..]);
      assert tools == [tools[0]] + tools[1..];
    }
  }

  /** An agent and its executor hold the same tools: registered ones, at least one, and those of the
      specification that only read or that its mode allows. Without a mode none but reading ones are. */
  lemma AgentAndExecutorAgree(env: Env, g: GraphSpec, b: Built, name: string)
    requires Acceptable(env, g) && IsCompiled(env, g, b) && name in g.nodes && IsReact(g.nodes[name])
    ensures name in b.nodes && b.nodes[name].Agent?
    ensures ToolsOf(name) in b.nodes && b.nodes[ToolsOf(name)].Executor?
    ensures b.nodes[name].tools == b.nodes[ToolsOf(name)].tools != []
    ensures forall t :: t in b.nodes[name].tools <==>
              && t in g.nodes[name].tools
              && (t in env.readOnly || g.nodes[name].toolMode == Some(Approval)
                  || g.nodes[name].toolMode == Some(Unrestricted))
    ensures forall t | t in b.nodes[name].tools :: t in env.registered
    ensures b.nodes[ToolsOf(name)].gated <==> g.nodes[name].toolMode == Some(Approval)
  {
    ToolsOfIsToolNode(g, name);
    AgentOfTools(name);
    PermittedIs(env, ModeOf(g.nodes[name]), g.nodes[name].tools);
  }
}
