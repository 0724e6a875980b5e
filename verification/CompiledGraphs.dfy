/** What a specification compiles to, said of the specification alone: which specifications compile,
    which tools an agent gets, and where every node leads. */
module CompiledGraphs {
  import opened Wrappers
  import opened GraphSpecs
  import opened GraphCompiler

  // ---------- which specifications compile ----------

  /** A node without a mode may only call tools that read. */
  predicate MayCall(env: Env, n: NodeSpec, t: string) {
    t in n.tools && (t in env.readOnly || n.toolMode == Some(Approval) || n.toolMode == Some(Unrestricted))
  }

  /** A node that lists tools must be a plain developer, know them all and be allowed to call one. Any
      other needs an implementation of its role and variant, a verifier its workspace. */
  ghost predicate CanBeBuilt(env: Env, n: NodeSpec) {
    if n.tools != [] then
      && n.role == DeveloperRole && n.variant == None
      && (forall t | t in n.tools :: t in env.registered)
      && exists t :: MayCall(env, n, t)
    else
      match n.role
      case VerifierRole => "read_text" in env.registered && env.builtinReadText
      case PlannerRole => n.variant == None || n.variant == Some("gate")
      case ReviewerRole => n.variant == None || n.variant == Some("two_call")
      case _ => n.variant == None
  }

  lemma ModeAllows(env: Env, n: NodeSpec)
    ensures forall t :: t in Permitted(env, ModeOf(n), n.tools) <==> MayCall(env, n, t)
  {
    PermittedIs(env, ModeOf(n), n.tools);
  }

  lemma CanBeBuiltIff(env: Env, n: NodeSpec)
    ensures NodeFaultOf(env, n).None? <==> CanBeBuilt(env, n)
  {
    ModeAllows(env, n);
    var permitted := Permitted(env, ModeOf(n), n.tools);
    assert permitted != [] ==> permitted[0] in permitted;
  }

  /** The names of tool nodes are free and no name is one of the two the graph reserves. */
  predicate NamesFit(g: GraphSpec) {
    forall name | name in g.nodes ::
      name != "__start__" && name != "__end__" && (g.nodes[name].tools != [] ==> name + "_tools" !in g.nodes)
  }

  /** Routers that can be called, and none out of a node with tools. */
  predicate RoutersFit(env: Env, g: GraphSpec) {
    forall e | e in g.edges && e.to.None? ::
      && e.from in g.nodes && g.nodes[e.from].tools == []
      && (e.router.Some? ==> ':' in e.router.value && e.router.value in env.callables)
  }

  lemma AcceptableIff(env: Env, g: GraphSpec)
    requires WellFormed(g)
    ensures Acceptable(env, g) <==>
            && (forall name | name in g.nodes :: CanBeBuilt(env, g.nodes[name]))
            && NamesFit(g) && RoutersFit(env, g)
  {
    forall name | name in g.nodes ensures NodeFaultOf(env, g.nodes[name]).None? <==> CanBeBuilt(env, g.nodes[name]) {
      CanBeBuiltIff(env, g.nodes[name]);
    }
    assert forall name: string :: ToolsOf(name) == name + "_tools";
  }

  /** What the errors of a node say. */
  lemma NodeFaultMeans(env: Env, n: NodeSpec)
    requires NodeFaultOf(env, n).Some?
    ensures match NodeFaultOf(env, n).value
            case UnregisteredTool => exists t | t in n.tools :: t !in env.registered
            case EveryToolRefused => n.tools != [] && !exists t :: MayCall(env, n, t)
            case ToolsOnOtherRole => n.tools != [] && n.role != DeveloperRole
            case MissingReadText => n.role == VerifierRole && "read_text" !in env.registered
            case ForeignReadText => n.role == VerifierRole && !env.builtinReadText
            case UnknownVariant => n.variant.Some? && n.role != VerifierRole
  {
    ModeAllows(env, n);
  }

  // ---------- what agents hold ----------

  /** `picked` are elements of `all`, those at the positions `at`, in order. */
  predicate At(all: seq<string>, picked: seq<string>, at: seq<nat>) {
    && |at| == |picked|
    && (forall i | 0 <= i < |at| :: at[i] < |all| && picked[i] == all[at[i]])
    && (forall i, j | 0 <= i < j < |at| :: at[i] < at[j])
  }

  /** Those in `allowed` are picked, wherever they stand, and no others. */
  predicate Picks(all: seq<string>, allowed: set<string>, picked: seq<string>, at: seq<nat>) {
    && At(all, picked, at)
    && (forall t | t in picked :: t in allowed)
    && (forall k: nat | k < |all| && all[k] in allowed :: k in at)
  }

  function Shift(at: seq<nat>): seq<nat> {
    seq(|at|, i requires 0 <= i < |at| => at[i] + 1)
  }

  lemma ShiftHolds(at: seq<nat>, k: nat)
    ensures k + 1 in Shift(at) <==> k in at
  {
    if k in at {
      var i :| 0 <= i < |at| && at[i] == k;
      assert Shift(at)[i] == k + 1;
    }
  }

  lemma AtShifted(all: seq<string>, picked: seq<string>, at: seq<nat>)
    requires all != [] && At(all[1..], picked, at)
    ensures At(all, picked, Shift(at)) && forall i | 0 <= i < |at| :: Shift(at)[i] > 0
  {
  }

  lemma AtCons(all: seq<string>, picked: seq<string>, at: seq<nat>)
    requires all != [] && At(all, picked, at) && forall i | 0 <= i < |at| :: at[i] > 0
    ensures At(all, [all[0]] + picked, [0] + at)
  {
  }

  lemma AllowedBehind(all: seq<string>, allowed: set<string>, at: seq<nat>)
    requires all != [] && forall k: nat | k < |all[1..]| && all[1..][k] in allowed :: k in at
    ensures forall k: nat | 0 < k < |all| && all[k] in allowed :: k in Shift(at)
  {
    forall k: nat | 0 < k < |all| && all[k] in allowed ensures k in Shift(at) {
      assert all[1..][k - 1] == all[k];
      ShiftHolds(at, k - 1);
    }
  }

  lemma PickBehind(all: seq<string>, allowed: set<string>, picked: seq<string>, at: seq<nat>)
    requires all != [] && all[0] !in allowed && Picks(all[1..], allowed, picked, at)
    ensures Picks(all, allowed, picked, Shift(at))
  {
    AtShifted(all, picked, at);
    AllowedBehind(all, allowed, at);
  }

  lemma FirstIsHeld(all: seq<string>, allowed: set<string>, at: seq<nat>)
    requires forall k: nat | 0 < k < |all| && all[k] in allowed :: k in at
    ensures forall k: nat | k < |all| && all[k] in allowed :: k in [0] + at
  {
    assert ([0] + at)[0] == 0;
  }

  lemma FirstIsAllowed(first: string, allowed: set<string>, picked: seq<string>)
    requires first in allowed && forall t | t in picked :: t in allowed
    ensures forall t | t in [first] + picked :: t in allowed
  {
  }

  lemma PickFirst(all: seq<string>, allowed: set<string>, picked: seq<string>, at: seq<nat>)
    requires all != [] && all[0] in allowed && Picks(all[1..], allowed, picked, at)
    ensures Picks(all, allowed, [all[0]] + picked, [0] + Shift(at))
  {
    AtShifted(all, picked, at);
    var shifted := Shift(at);
    AtCons(all, picked, shifted);
    AllowedBehind(all, allowed, at);
    FirstIsHeld(all, allowed, shifted);
    FirstIsAllowed(all[0], allowed, picked);
  }

  lemma {:induction false} PermittedPicks(env: Env, mode: Mode, tools: seq<string>, allowed: set<string>)
    returns (at: seq<nat>)
    requires forall t | t in tools :: t in allowed <==> mode != ReadOnly || t in env.readOnly
    ensures Picks(tools, allowed, Permitted(env, mode, tools), at)
  {
    at := [];
    if tools != [] {
      var rest := PermittedPicks(env, mode, tools[1..], allowed);
      if tools[0] in allowed {
        PickFirst(tools, allowed, Permitted(env, mode, tools[1..]), rest);
        at := [0] + Shift(rest);
      } else {
        PickBehind(tools, allowed, Permitted(env, mode, tools[1..]), rest);
        at := Shift(rest);
        assert [] + Permitted(env, mode, tools[1..]) == Permitted(env, mode, tools[1..]);
      }
    }
  }

  function Allowed(env: Env, n: NodeSpec): set<string> {
    set t | t in n.tools && MayCall(env, n, t)
  }

  /** An agent gets the tools it may call, in the order listed, and its budget; its tool node the same
      tools, gated exactly in approval mode. */
  ghost predicate HoldsItsTools(env: Env, n: NodeSpec, agent: Node, executor: Node) {
    && agent.Agent? && executor.Executor?
    && agent.tools == executor.tools != []
    && (exists at: seq<nat> :: Picks(n.tools, Allowed(env, n), agent.tools, at))
    && agent.maxRounds == (if n.maxDevRounds.Some? then n.maxDevRounds.value else 6)
    && (executor.gated <==> n.toolMode == Some(Approval))
  }

  /** Every other node keeps its role and variant, except that a verifier has no variants. */
  predicate KeepsItsRole(n: NodeSpec, node: Node) {
    node == Single(n.role, if n.role == VerifierRole then None else n.variant)
  }

  lemma AgentHoldsItsTools(env: Env, n: NodeSpec)
    requires CanBeBuilt(env, n) && n.tools != []
    ensures HoldsItsTools(env, n, AgentNode(env, n), ExecutorNode(env, n))
  {
    ModeAllows(env, n);
    var at := PermittedPicks(env, ModeOf(n), n.tools, Allowed(env, n));
    var t :| MayCall(env, n, t);
    assert t in Permitted(env, ModeOf(n), n.tools);
  }

  /** The nodes of a compiled graph: those of the specification, and one tool node for each that has
      tools. */
  lemma CompiledNodes(env: Env, g: GraphSpec, b: Built)
    requires WellFormed(g) && Acceptable(env, g) && IsCompiled(env, g, b)
    ensures forall name | name in g.nodes :: name in b.nodes
    ensures forall name | name in g.nodes && g.nodes[name].tools != [] :: name + "_tools" in b.nodes
    ensures forall x | x in b.nodes && x !in g.nodes ::
              exists name | name in g.nodes && g.nodes[name].tools != [] :: x == name + "_tools"
    ensures forall name | name in g.nodes ::
              if g.nodes[name].tools != [] then
                HoldsItsTools(env, g.nodes[name], b.nodes[name], b.nodes[name + "_tools"])
              else KeepsItsRole(g.nodes[name], b.nodes[name])
  {
    AcceptableIff(env, g);
    forall name | name in g.nodes && g.nodes[name].tools != []
      ensures ToolsOf(name) == name + "_tools" && ToolsOf(name) in b.nodes
      ensures HoldsItsTools(env, g.nodes[name], b.nodes[name], b.nodes[ToolsOf(name)])
    {
      ToolsOfIsToolNode(g, name);
      AgentOfTools(name);
      AgentHoldsItsTools(env, g.nodes[name]);
    }
    forall x | x in b.nodes && x !in g.nodes
      ensures exists name | name in g.nodes && g.nodes[name].tools != [] :: x == name + "_tools"
    {
      assert IsToolNode(g, x) && x == ToolsOf(AgentOf(x)) && AgentOf(x) in g.nodes;
    }
  }

  // ---------- where nodes lead ----------

  /** No later branch has the signal of this one. */
  predicate Decides(branches: seq<BranchSpec>, i: nat)
    requires i < |branches|
  {
    forall j | i < j < |branches| :: branches[j].on != branches[i].on
  }

  /** Where a node with this edge leads: by the signals of its branches, of two branches on one signal
      by the later, to its target, or from an agent by whether it called tools. */
  ghost predicate LeadsAlong(n: NodeSpec, e: EdgeSpec, wire: Wire) {
    if e.to.None? then
      && wire.Branching? && wire.router == Named(e.router)
      && (forall signal :: signal in wire.mapping <==> exists b | b in e.branches :: b.on == signal)
      && (forall i | 0 <= i < |e.branches| && Decides(e.branches, i) ::
            wire.mapping[e.branches[i].on] == e.branches[i].to)
    else if n.tools != [] then
      && wire.Branching? && wire.router == ToolsCondition
      && wire.mapping == map["tools" := e.from + "_tools", "__end__" := e.to.value]
    else wire == Straight(e.to.value)
  }

  lemma MappingLeads(n: NodeSpec, e: EdgeSpec)
    requires e.to.None?
    ensures LeadsAlong(n, e, Branching(Named(e.router), Mapping(e.branches)))
  {
    var mapping := Mapping(e.branches);
    forall signal ensures signal in mapping <==> exists b | b in e.branches :: b.on == signal {
      if signal in mapping {
        MappedByABranch(e.branches, signal);
      }
      if b :| b in e.branches && b.on == signal {
        BranchIsMapped(e.branches, b);
      }
    }
    forall i | 0 <= i < |e.branches| && Decides(e.branches, i)
      ensures mapping[e.branches[i].on] == e.branches[i].to
    {
      LastBranchWins(e.branches, i);
    }
  }

  lemma {:induction false} BranchIsMapped(branches: seq<BranchSpec>, b: BranchSpec)
    requires b in branches
    ensures b.on in Mapping(branches)
  {
    var before, last := branches[..|branches| - 1], branches[|branches| - 1];
    assert branches == before + [last];
    if b != last {
      BranchIsMapped(before, b);
    }
  }

  /** A compiled graph starts where the specification says and leads where its edges say; a tool node
      leads back to its agent, and nothing else leads anywhere. */
  lemma CompiledWires(env: Env, g: GraphSpec, b: Built)
    requires WellFormed(g) && OneEdgePerNode(g) && Acceptable(env, g) && IsCompiled(env, g, b)
    ensures b.entry == Some(g.entry)
    ensures forall e | e in g.edges :: e.from in b.wires && LeadsAlong(g.nodes[e.from], e, b.wires[e.from])
    ensures forall e | e in g.edges && g.nodes[e.from].tools != [] ::
              e.from + "_tools" in b.wires && b.wires[e.from + "_tools"] == Straight(e.from)
    ensures forall x | x in b.wires ::
              exists e | e in g.edges :: x == e.from || (g.nodes[e.from].tools != [] && x == e.from + "_tools")
  {
    AcceptableIff(env, g);
    forall e | e in g.edges ensures e.from in b.wires && LeadsAlong(g.nodes[e.from], e, b.wires[e.from]) {
      EdgeIsWired(env, g, b, e);
    }
    forall e | e in g.edges && g.nodes[e.from].tools != []
      ensures e.from + "_tools" in b.wires && b.wires[e.from + "_tools"] == Straight(e.from)
    {
      ToolNodeIsWired(env, g, b, e);
    }
    forall x | x in b.wires
      ensures exists e | e in g.edges :: x == e.from || (g.nodes[e.from].tools != [] && x == e.from + "_tools")
    {
      EdgeFromIs(g.edges, if x in g.nodes then x else AgentOf(x));
    }
  }

  lemma EdgeIsWired(env: Env, g: GraphSpec, b: Built, e: EdgeSpec)
    requires WellFormed(g) && OneEdgePerNode(g) && Acceptable(env, g) && IsCompiled(env, g, b) && e in g.edges
    ensures e.from in b.wires && LeadsAlong(g.nodes[e.from], e, b.wires[e.from])
  {
    var i :| 0 <= i < |g.edges| && g.edges[i] == e;
    EdgeFromAt(g, i);
    CanBeBuiltIff(env, g.nodes[e.from]);
    if e.to.None? {
      MappingLeads(g.nodes[e.from], e);
    }
  }

  lemma ToolNodeIsWired(env: Env, g: GraphSpec, b: Built, e: EdgeSpec)
    requires WellFormed(g) && OneEdgePerNode(g) && Acceptable(env, g) && IsCompiled(env, g, b) && e in g.edges
    requires g.nodes[e.from].tools != []
    ensures e.from + "_tools" in b.wires && b.wires[e.from + "_tools"] == Straight(e.from)
  {
    var i :| 0 <= i < |g.edges| && g.edges[i] == e;
    EdgeFromAt(g, i);
    CanBeBuiltIff(env, g.nodes[e.from]);
    ToolsOfIsToolNode(g, e.from);
    AgentOfTools(e.from);
    assert ToolsOf(e.from) == e.from + "_tools" && ToolsOf(e.from) !in g.nodes;
  }
}
