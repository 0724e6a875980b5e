/** Compiling preserves meaning: a compiled graph walks exactly the paths of its specification, with
    any number of tool detours at its agents, and nothing else. */
module CompilerSimulation {
  import opened Wrappers
  import opened GraphSpecs
  import opened GraphCompiler

  /** A node that ran and the signal its router gave, if a router was asked. */
  datatype Visit = Visit(node: string, signal: Option<string>)

  type Stepper = (string, Option<string>) -> Option<string>

  /** Where a specification leads from `name`. */
  function SpecStep(g: GraphSpec, name: string, signal: Option<string>): Option<string> {
    var e := EdgeFrom(g.edges, name);
    if e.None? then None
    else if e.value.to.Some? then (if signal.None? then e.value.to else None)
    else if signal.Some? && signal.value in Mapping(e.value.branches) then
      Some(Mapping(e.value.branches)[signal.value])
    else None
  }

  /** Where a compiled graph leads from `name`. */
  function BuiltStep(b: Built, name: string, signal: Option<string>): Option<string> {
    if name !in b.wires then None
    else
      match b.wires[name]
      case Straight(to) => if signal.None? then Some(to) else None
      case Branching(_, mapping) =>
        if signal.Some? && signal.value in mapping then Some(mapping[signal.value]) else None
  }

  /** `visits` is a path that starts at `from` and leads to `to`. */
  ghost predicate Path(step: Stepper, from: string, visits: seq<Visit>, to: string)
    decreases |visits|
  {
    if visits == [] then from == to
    else
      && visits[0].node == from
      && step(from, visits[0].signal).Some?
      && Path(step, step(from, visits[0].signal).value, visits[1..], to)
  }

  ghost predicate SpecPath(g: GraphSpec, from: string, visits: seq<Visit>, to: string) {
    Path((n, s) => SpecStep(g, n, s), from, visits, to)
  }

  ghost predicate BuiltPath(b: Built, from: string, visits: seq<Visit>, to: string) {
    Path((n, s) => BuiltStep(b, n, s), from, visits, to)
  }

  lemma {:induction false} PathConcat(
    step: Stepper, from: string, a: seq<Visit>, mid: string, b: seq<Visit>, to: string)
    requires Path(step, from, a, mid) && Path(step, mid, b, to)
    ensures Path(step, from, a + b, to)
    decreases |a|
  {
    if a == [] {
      assert a + b == b;
    } else {
      assert (a + b)[0] == a[0] && (a + b)[1..] == a[1..] + b;
      PathConcat(step, step(from, a[0].signal).value, a[1..], mid, b, to);
    }
  }

  // ---------- forgetting the tool loop ----------

  predicate IsAgent(g: GraphSpec, name: string) {
    name in g.nodes && IsReact(g.nodes[name])
  }

  /** The node of the specification that a node of the compiled graph works for. */
  function Collapse(g: GraphSpec, x: string): string {
    if x !in g.nodes && IsToolNode(g, x) then AgentOf(x) else x
  }

  /** What a visit counts for in the specification: nothing for a tool node and for an agent that
      calls tools, one visit otherwise. */
  function EraseOne(g: GraphSpec, v: Visit): seq<Visit> {
    if v.node !in g.nodes then []
    else if IsAgent(g, v.node) then (if v.signal == Some(TOOLS) then [] else [Visit(v.node, None)])
    else [v]
  }

  function Erase(g: GraphSpec, visits: seq<Visit>): seq<Visit> {
    if visits == [] then [] else EraseOne(g, visits[0]) + Erase(g, visits[1..])
  }

  lemma {:induction false} EraseConcat(g: GraphSpec, a: seq<Visit>, b: seq<Visit>)
    ensures Erase(g, a + b) == Erase(g, a) + Erase(g, b)
  {
    if a == [] {
      assert a + b == b;
    } else {
      assert (a + b)[0] == a[0] && (a + b)[1..] == a[1..] + b;
      EraseConcat(g, a[1..], b);
    }
  }

  // ---------- one step ----------

  /** The facts about a well-formed, acceptable specification and its compilation that the proofs use. */
  ghost predicate Compiles(env: Env, g: GraphSpec, b: Built) {
    WellFormed(g) && OneEdgePerNode(g) && Acceptable(env, g) && IsCompiled(env, g, b)
  }

  lemma NoClashOf(env: Env, g: GraphSpec, b: Built)
    requires Compiles(env, g, b)
    ensures NoClash(g)
  {
  }

  /** Away from agents the compiled graph and the specification step alike. */
  lemma PlainStep(env: Env, g: GraphSpec, b: Built, name: string, signal: Option<string>)
    requires Compiles(env, g, b) && (name in g.nodes || name == END) && !IsAgent(g, name)
    ensures BuiltStep(b, name, signal) == SpecStep(g, name, signal)
  {
    EdgeFromIs(g.edges, name);
    assert !IsNode(g, END) by {
      assert IsToolNode(g, END) ==> END == ToolsOf(AgentOf(END));
      assert END[|END| - 1] == '_' && SUFFIX[|SUFFIX| - 1] == 's';
    }
  }

  /** An agent either hops to its tool node, or leaves along its edge in the specification. */
  lemma AgentStep(env: Env, g: GraphSpec, b: Built, name: string, signal: Option<string>)
    requires Compiles(env, g, b) && IsAgent(g, name)
    ensures BuiltStep(b, name, signal) ==
            if SpecStep(g, name, None).None? then None
            else if signal == Some(TOOLS) then Some(ToolsOf(name))
            else if signal == Some(END) then SpecStep(g, name, None)
            else None
  {
    EdgeFromIs(g.edges, name);
    var e := EdgeFrom(g.edges, name);
    assert e.Some? ==> EdgeFaultOf(env, g, e.value).None?;
    assert TOOLS[0] != END[0];
  }

  /** A tool node leads back to its agent. */
  lemma ToolStep(env: Env, g: GraphSpec, b: Built, name: string, signal: Option<string>)
    requires Compiles(env, g, b) && IsAgent(g, name) && SpecStep(g, name, None).Some?
    ensures ToolsOf(name) !in g.nodes && Collapse(g, ToolsOf(name)) == name
    ensures BuiltStep(b, ToolsOf(name), signal) == if signal.None? then Some(name) else None
  {
    AgentOfTools(name);
    ToolsOfIsToolNode(g, name);
    EdgeFromIs(g.edges, name);
  }

  /** Nodes that a path may stand at. */
  predicate IsPlace(g: GraphSpec, x: string) {
    IsNode(g, x) || x == END
  }

  lemma SpecStepStaysInside(env: Env, g: GraphSpec, b: Built, name: string, signal: Option<string>)
    requires Compiles(env, g, b) && SpecStep(g, name, signal).Some?
    ensures name in g.nodes && IsTarget(g, SpecStep(g, name, signal).value)
  {
    EdgeFromIs(g.edges, name);
    var e := EdgeFrom(g.edges, name).value;
    assert LeadsToNodes(g, e);
    if e.to.None? {
      MappedByABranch(e.branches, signal.value);
    }
  }

  // ---------- every edge leads somewhere ----------

  /** Both ends of every edge of the compiled graph exist, and so does its entry. */
  lemma EndpointsExist(env: Env, g: GraphSpec, b: Built, name: string, signal: Option<string>)
    requires Compiles(env, g, b)
    ensures b.entry.Some? && b.entry.value in b.nodes
    ensures name in b.wires ==> name in b.nodes
    ensures BuiltStep(b, name, signal).Some? ==>
              BuiltStep(b, name, signal).value in b.nodes || BuiltStep(b, name, signal).value == END
  {
    if BuiltStep(b, name, signal).Some? {
      if IsAgent(g, name) {
        AgentStep(env, g, b, name, signal);
        if signal == Some(END) { SpecStepStaysInside(env, g, b, name, None); }
        ToolsOfIsToolNode(g, name);
      } else if name in g.nodes {
        PlainStep(env, g, b, name, signal);
        SpecStepStaysInside(env, g, b, name, signal);
      }
    }
  }

  // ---------- forward: compiled paths are specification paths ----------

  lemma ForwardStep(env: Env, g: GraphSpec, b: Built, v: Visit)
    requires Compiles(env, g, b) && IsPlace(g, v.node) && BuiltStep(b, v.node, v.signal).Some?
    ensures var to := BuiltStep(b, v.node, v.signal).value;
            && IsPlace(g, to)
            && SpecPath(g, Collapse(g, v.node), EraseOne(g, v), Collapse(g, to))
  {
    EndpointsExist(env, g, b, v.node, v.signal);
    NoClashOf(env, g, b);
    var to := BuiltStep(b, v.node, v.signal).value;
    if IsAgent(g, v.node) {
      AgentStep(env, g, b, v.node, v.signal);
      if v.signal == Some(TOOLS) {
        ToolStep(env, g, b, v.node, None);
      } else {
        SpecStepStaysInside(env, g, b, v.node, None);
        EndIsNoNode(env, g, b);
        assert Collapse(g, to) == to;
        assert TOOLS[0] != END[0];
        OneVisitPath(g, Visit(v.node, None));
      }
    } else if v.node in g.nodes || v.node == END {
      EndIsNoNode(env, g, b);
      PlainStep(env, g, b, v.node, v.signal);
      SpecStepStaysInside(env, g, b, v.node, v.signal);
      assert Collapse(g, to) == to;
      OneVisitPath(g, v);
    } else {
      assert to == AgentOf(v.node);
    }
  }

  lemma EndIsNoNode(env: Env, g: GraphSpec, b: Built)
    requires Compiles(env, g, b)
    ensures END !in g.nodes && !IsToolNode(g, END)
  {
    assert IsToolNode(g, END) ==> END == ToolsOf(AgentOf(END));
    assert END[|END| - 1] == '_' && SUFFIX[|SUFFIX| - 1] == 's';
  }

  lemma OneVisitPath(g: GraphSpec, v: Visit)
    requires SpecStep(g, v.node, v.signal).Some?
    ensures SpecPath(g, v.node, [v], SpecStep(g, v.node, v.signal).value)
  {
    assert [v][1..] == [];
  }

  /** Erasing the tool loops from a compiled path leaves a path of the specification: the same
      nodes, the same router signals, the same ends. */
  lemma {:induction false} CompiledPathsErase(
    env: Env, g: GraphSpec, b: Built, from: string, visits: seq<Visit>, to: string)
    requires Compiles(env, g, b) && IsPlace(g, from) && BuiltPath(b, from, visits, to)
    ensures SpecPath(g, Collapse(g, from), Erase(g, visits), Collapse(g, to)) && IsPlace(g, to)
    decreases |visits|
  {
    if visits != [] {
      var next := BuiltStep(b, from, visits[0].signal).value;
      ForwardStep(env, g, b, visits[0]);
      CompiledPathsErase(env, g, b, next, visits[1..], to);
      PathConcat((n, s) => SpecStep(g, n, s), Collapse(g, from), EraseOne(g, visits[0]), Collapse(g, next),
                 Erase(g, visits[1..]), Collapse(g, to));
    }
  }

  // ---------- backward: specification paths, with any detours, are compiled paths ----------

  /** A round of the tool loop. */
  function Detour(agent: string): seq<Visit> {
    [Visit(agent, Some(TOOLS)), Visit(ToolsOf(agent), None)]
  }

  /** `count` rounds of it. */
  function Loops(agent: string, count: nat): seq<Visit> {
    if count == 0 then []
    else Detour(agent) + Loops(agent, count - 1)
  }

  /** A visit of the specification as the compiled graph makes it, after `count` detours if it is
      an agent's. */
  function ExpandOne(g: GraphSpec, v: Visit, count: nat): seq<Visit> {
    if IsAgent(g, v.node) then Loops(v.node, count) + [Visit(v.node, Some(END))] else [v]
  }

  function Expand(g: GraphSpec, visits: seq<Visit>, counts: seq<nat>): seq<Visit>
    requires |counts| == |visits|
  {
    if visits == [] then [] else ExpandOne(g, visits[0], counts[0]) + Expand(g, visits[1..], counts[1..])
  }

  lemma {:induction false} LoopsPathOf(b: Built, agent: string, count: nat)
    requires BuiltStep(b, agent, Some(TOOLS)) == Some(ToolsOf(agent))
    requires BuiltStep(b, ToolsOf(agent), None) == Some(agent)
    ensures BuiltPath(b, agent, Loops(agent, count), agent)
  {
    if count > 0 {
      LoopsPathOf(b, agent, count - 1);
      DetourPath(b, agent, Loops(agent, count - 1), agent);
    }
  }

  lemma {:induction false} EraseLoops(g: GraphSpec, agent: string, count: nat)
    requires IsAgent(g, agent) && ToolsOf(agent) !in g.nodes
    ensures Erase(g, Loops(agent, count)) == []
  {
    if count > 0 {
      EraseLoops(g, agent, count - 1);
      EraseDetour(g, agent, Loops(agent, count - 1));
    }
  }

  lemma LoopsPath(env: Env, g: GraphSpec, b: Built, agent: string, count: nat)
    requires Compiles(env, g, b) && IsAgent(g, agent) && SpecStep(g, agent, None).Some?
    ensures BuiltPath(b, agent, Loops(agent, count), agent)
    ensures Erase(g, Loops(agent, count)) == []
  {
    AgentStep(env, g, b, agent, Some(TOOLS));
    ToolStep(env, g, b, agent, None);
    LoopsPathOf(b, agent, count);
    EraseLoops(g, agent, count);
  }

  lemma DetourPath(b: Built, agent: string, rest: seq<Visit>, to: string)
    requires BuiltStep(b, agent, Some(TOOLS)) == Some(ToolsOf(agent))
    requires BuiltStep(b, ToolsOf(agent), None) == Some(agent)
    requires BuiltPath(b, agent, rest, to)
    ensures BuiltPath(b, agent, Detour(agent) + rest, to)
  {
    var all := Detour(agent) + rest;
    assert all[1..][1..] == rest && all[1..][0] == Visit(ToolsOf(agent), None);
    assert BuiltPath(b, ToolsOf(agent), all[1..], to);
  }

  lemma BackwardStep(env: Env, g: GraphSpec, b: Built, v: Visit, count: nat)
    requires Compiles(env, g, b) && SpecStep(g, v.node, v.signal).Some?
    ensures BuiltPath(b, v.node, ExpandOne(g, v, count), SpecStep(g, v.node, v.signal).value)
    ensures Erase(g, ExpandOne(g, v, count)) == [v]
  {
    SpecStepStaysInside(env, g, b, v.node, v.signal);
    var to := SpecStep(g, v.node, v.signal).value;
    var exit := if IsAgent(g, v.node) then Visit(v.node, Some(END)) else v;
    assert [exit][1..] == [];
    if IsAgent(g, v.node) {
      EdgeFromIs(g.edges, v.node);
      assert v.signal.None? by {
        assert EdgeFaultOf(env, g, EdgeFrom(g.edges, v.node).value).None?;
      }
      AgentStep(env, g, b, v.node, Some(END));
      LoopsPath(env, g, b, v.node, count);
      assert TOOLS[0] != END[0];
      assert BuiltPath(b, v.node, [exit], to);
      PathConcat((n, s) => BuiltStep(b, n, s), v.node, Loops(v.node, count), v.node, [exit], to);
      EraseConcat(g, Loops(v.node, count), [exit]);
      assert Erase(g, [exit]) == [v];
    } else {
      PlainStep(env, g, b, v.node, v.signal);
    }
  }

  /** Every path of the specification is a path of the compiled graph, whatever number of tool
      detours is taken at each agent, and erasing those detours gives it back. */
  lemma {:induction false} SpecPathsExpand(
    env: Env, g: GraphSpec, b: Built, from: string, visits: seq<Visit>, counts: seq<nat>, to: string)
    requires Compiles(env, g, b) && SpecPath(g, from, visits, to) && |counts| == |visits|
    ensures BuiltPath(b, from, Expand(g, visits, counts), to)
    ensures Erase(g, Expand(g, visits, counts)) == visits
    decreases |visits|
  {
    if visits != [] {
      var v, next := visits[0], SpecStep(g, from, visits[0].signal).value;
      var first, rest := ExpandOne(g, v, counts[0]), Expand(g, visits[1..], counts[1..]);
      BackwardStep(env, g, b, v, counts[0]);
      SpecPathsExpand(env, g, b, next, visits[1..], counts[1..], to);
      PathConcat((n, s) => BuiltStep(b, n, s), from, first, next, rest, to);
      EraseConcat(g, first, rest);
    }
  }

  // ---------- and there are no other compiled paths ----------

  lemma ExpandCons(g: GraphSpec, v: Visit, count: nat, visits: seq<Visit>, counts: seq<nat>)
    requires |counts| == |visits|
    ensures Expand(g, [v] + visits, [count] + counts) == ExpandOne(g, v, count) + Expand(g, visits, counts)
  {
    assert ([v] + visits)[1..] == visits && ([count] + counts)[1..] == counts;
  }

  lemma EraseCons(g: GraphSpec, v: Visit, visits: seq<Visit>)
    ensures Erase(g, [v] + visits) == EraseOne(g, v) + Erase(g, visits)
  {
    assert ([v] + visits)[1..] == visits;
  }

  lemma Regroup(a: seq<Visit>, b: seq<Visit>, c: seq<Visit>)
    ensures a + (b + c) == (a + b) + c
  {
  }

  /** `visits` is what `erased` expands to with these detours, followed by `last` detours at `to`. */
  ghost predicate Detours(
    g: GraphSpec, visits: seq<Visit>, erased: seq<Visit>, counts: seq<nat>, to: string, last: nat)
  {
    && |counts| == |erased|
    && visits == Expand(g, erased, counts) + Loops(to, last)
    && (last > 0 ==> IsAgent(g, to))
  }

  lemma ToolsNameIsNotEnd(name: string)
    ensures ToolsOf(name) != END
  {
    assert ToolsOf(name)[|ToolsOf(name)| - 1] == 's' && END[|END| - 1] == '_';
  }

  /** A visit that leaves its node for another node of the specification. */
  lemma ExitVisit(g: GraphSpec, v: Visit, rest: seq<Visit>, erased: seq<Visit>, counts: seq<nat>, to: string, last: nat)
    requires v.node in g.nodes && (IsAgent(g, v.node) ==> v.signal == Some(END))
    requires Detours(g, rest, erased, counts, to, last)
    ensures Detours(g, [v] + rest, EraseOne(g, v) + erased, [0] + counts, to, last)
  {
    assert TOOLS[0] != END[0];
    var one := EraseOne(g, v)[0];
    ExpandCons(g, one, 0, erased, counts);
    assert EraseOne(g, v) == [one];
    assert ExpandOne(g, one, 0) == [v];
    Regroup([v], Expand(g, erased, counts), Loops(to, last));
  }

  lemma EraseDetour(g: GraphSpec, agent: string, rest: seq<Visit>)
    requires IsAgent(g, agent) && ToolsOf(agent) !in g.nodes
    ensures Erase(g, Detour(agent) + rest) == Erase(g, rest)
  {
    var hop, back := Visit(agent, Some(TOOLS)), Visit(ToolsOf(agent), None);
    assert Detour(agent) + rest == [hop] + ([back] + rest);
    EraseCons(g, hop, [back] + rest);
    EraseCons(g, back, rest);
  }

  lemma LoopsSucc(agent: string, count: nat)
    ensures Loops(agent, count + 1) == Detour(agent) + Loops(agent, count)
  {
  }

  lemma DetourBeforeExit(
    g: GraphSpec, agent: string, rest: seq<Visit>, erased: seq<Visit>, counts: seq<nat>, to: string, last: nat)
    requires IsAgent(g, agent) && Detours(g, rest, erased, counts, to, last)
    requires erased != [] && erased[0].node == agent
    ensures Detours(g, Detour(agent) + rest, erased, [counts[0] + 1] + counts[1..], to, last)
  {
    var exit, others := [Visit(agent, Some(END))], Expand(g, erased[1..], counts[1..]);
    var loops, more := Loops(agent, counts[0]), Loops(agent, counts[0] + 1);
    LoopsSucc(agent, counts[0]);
    assert erased == [erased[0]] + erased[1..];
    assert counts == [counts[0]] + counts[1..];
    ExpandCons(g, erased[0], counts[0], erased[1..], counts[1..]);
    ExpandCons(g, erased[0], counts[0] + 1, erased[1..], counts[1..]);
    Regroup(Detour(agent), loops + exit + others, Loops(to, last));
    Regroup(Detour(agent), loops + exit, others);
    Regroup(Detour(agent), loops, exit);
  }

  lemma DetourBeforeEnd(g: GraphSpec, agent: string, rest: seq<Visit>, counts: seq<nat>, last: nat)
    requires IsAgent(g, agent) && Detours(g, rest, [], counts, agent, last)
    ensures Detours(g, Detour(agent) + rest, [], counts, agent, last + 1)
  {
    LoopsSucc(agent, last);
    assert [] + Loops(agent, last) == Loops(agent, last);
    assert [] + Loops(agent, last + 1) == Loops(agent, last + 1);
  }

  /** What an expansion starts with. */
  lemma ExpansionStart(g: GraphSpec, rest: seq<Visit>, erased: seq<Visit>, counts: seq<nat>, to: string, last: nat)
    requires Detours(g, rest, erased, counts, to, last)
    ensures erased != [] ==> rest != [] && rest[0].node == erased[0].node
    ensures erased == [] && rest != [] ==> rest[0].node == to
  {
    if erased != [] {
      assert ExpandOne(g, erased[0], counts[0])[0].node == erased[0].node;
    } else if last > 0 {
      LoopsSucc(to, last - 1);
    }
  }

  /** One detour more in front: before the agent's next exit, or at the end if there is none. */
  lemma OneMoreDetour(
    g: GraphSpec, b: Built, agent: string, rest: seq<Visit>, to: string, counts: seq<nat>, last: nat)
    returns (counts': seq<nat>, last': nat)
    requires IsAgent(g, agent) && ToolsOf(agent) !in g.nodes && BuiltPath(b, agent, rest, to)
    requires Detours(g, rest, Erase(g, rest), counts, to, last)
    ensures Detours(g, Detour(agent) + rest, Erase(g, Detour(agent) + rest), counts', to, last')
  {
    var erased := Erase(g, rest);
    EraseDetour(g, agent, rest);
    ExpansionStart(g, rest, erased, counts, to, last);
    if erased == [] {
      DetourBeforeEnd(g, agent, rest, counts, last);
      counts', last' := counts, last + 1;
    } else {
      DetourBeforeExit(g, agent, rest, erased, counts, to, last);
      counts', last' := [counts[0] + 1] + counts[1..], last;
    }
  }

  /** After a hop to the tool node the path comes back to the agent. */
  lemma HopReturns(env: Env, g: GraphSpec, b: Built, agent: string, visits: seq<Visit>, to: string)
    requires Compiles(env, g, b) && IsAgent(g, agent) && IsTarget(g, to)
    requires BuiltPath(b, agent, visits, to) && visits != [] && visits[0].signal == Some(TOOLS)
    ensures ToolsOf(agent) !in g.nodes
    ensures |visits| >= 2 && visits == Detour(agent) + visits[2..] && BuiltPath(b, agent, visits[2..], to)
  {
    AgentStep(env, g, b, agent, visits[0].signal);
    ToolStep(env, g, b, agent, None);
    ToolsNameIsNotEnd(agent);
    var tail := visits[1..];
    assert BuiltPath(b, ToolsOf(agent), tail, to);
    assert tail != [];
    ToolStep(env, g, b, agent, tail[0].signal);
    assert tail[1..] == visits[2..];
  }

  /** A compiled path between nodes of the specification is an expansion of what it erases to, with
      whatever detours the agent it ends at has begun. */
  lemma {:induction false} CompiledPathsAreExpansions(
    env: Env, g: GraphSpec, b: Built, from: string, visits: seq<Visit>, to: string)
    returns (counts: seq<nat>, last: nat)
    requires Compiles(env, g, b) && BuiltPath(b, from, visits, to) && IsTarget(g, from) && IsTarget(g, to)
    ensures Detours(g, visits, Erase(g, visits), counts, to, last)
    decreases |visits|
  {
    if visits == [] {
      counts, last := [], 0;
    } else if IsAgent(g, from) && visits[0].signal == Some(TOOLS) {
      HopReturns(env, g, b, from, visits, to);
      counts, last := CompiledPathsAreExpansions(env, g, b, from, visits[2..], to);
      counts, last := OneMoreDetour(g, b, from, visits[2..], to, counts, last);
    } else {
      var v, rest := visits[0], visits[1..];
      var next := BuiltStep(b, from, v.signal).value;
      LeavesToTarget(env, g, b, v);
      counts, last := CompiledPathsAreExpansions(env, g, b, next, rest, to);
      assert visits == [v] + rest;
      EraseCons(g, v, rest);
      ExitVisit(g, v, rest, Erase(g, rest), counts, to, last);
      counts := [0] + counts;
    }
  }

  lemma LeavesToTarget(env: Env, g: GraphSpec, b: Built, v: Visit)
    requires Compiles(env, g, b) && IsTarget(g, v.node) && BuiltStep(b, v.node, v.signal).Some?
    requires IsAgent(g, v.node) ==> v.signal != Some(TOOLS)
    ensures v.node in g.nodes && (IsAgent(g, v.node) ==> v.signal == Some(END))
    ensures IsTarget(g, BuiltStep(b, v.node, v.signal).value)
  {
    if IsAgent(g, v.node) {
      AgentStep(env, g, b, v.node, v.signal);
      SpecStepStaysInside(env, g, b, v.node, None);
    } else {
      PlainStep(env, g, b, v.node, v.signal);
      SpecStepStaysInside(env, g, b, v.node, v.signal);
    }
  }
}
