/** Graph specifications and the validators that run when one is loaded. */
module GraphSpecs {
  import opened Wrappers

  datatype Role = PlannerRole | DeveloperRole | ReviewerRole | DeliveryRole | VerifierRole | SupervisorRole

  datatype Mode = ReadOnly | Approval | Unrestricted

  datatype NodeSpec = NodeSpec(
    role: Role, variant: Option<string>, tools: seq<string>, toolMode: Option<Mode>, maxDevRounds: Option<int>)

  datatype BranchSpec = BranchSpec(on: string, to: string)

  datatype EdgeSpec = EdgeSpec(from: string, to: Option<string>, branches: seq<BranchSpec>, router: Option<string>)

  /** `names` lists the keys of `nodes` in the order they were written. */
  datatype GraphSpec = GraphSpec(
    entry: string, names: seq<string>, nodes: map<string, NodeSpec>, edges: seq<EdgeSpec>, stateClass: Option<string>)

  datatype SpecError =
    | RoundsOnOtherRole | RoundsBelowOne | ModeWithoutTools
    | NotExactlyOnePath | RouterWithoutBranches
    | UnknownEntry | UnknownSource | UnknownTarget | StateClassSet

  const END := "__end__"

  function CheckNode(n: NodeSpec): Option<SpecError> {
    if n.maxDevRounds.Some? && n.role != DeveloperRole then Some(RoundsOnOtherRole)
    else if n.maxDevRounds.Some? && n.maxDevRounds.value < 1 then Some(RoundsBelowOne)
    else if n.toolMode.Some? && n.tools == [] then Some(ModeWithoutTools)
    else None
  }

  function CheckEdge(e: EdgeSpec): Option<SpecError> {
    if e.to.Some? == (e.branches != []) then Some(NotExactlyOnePath)
    else if e.router.Some? && e.router.value != "" && e.branches == [] then Some(RouterWithoutBranches)
    else None
  }

  /** The targets an edge names. */
  function Targets(e: EdgeSpec): seq<string> {
    if e.to.Some? then [e.to.value]
    else seq(|e.branches|, i requires 0 <= i < |e.branches| => e.branches[i].to)
  }

  predicate IsTarget(g: GraphSpec, name: string) {
    name in g.nodes || name == END
  }

  function CheckReferences(g: GraphSpec, edges: seq<EdgeSpec>): Option<SpecError> {
    if edges == [] then None
    else if edges[0].from !in g.nodes then Some(UnknownSource)
    else if exists t | t in Targets(edges[0]) :: !IsTarget(g, t) then Some(UnknownTarget)
    else CheckReferences(g, edges[1..])
  }

  function CheckAll<T>(check: T -> Option<SpecError>, items: seq<T>): Option<SpecError> {
    if items == [] then None
    else if check(items[0]).Some? then check(items[0])
    else CheckAll(check, items[1..])
  }

  /** `names` is the key order of `nodes`. */
  ghost predicate IsDict(g: GraphSpec) {
    && (forall i, j | 0 <= i < j < |g.names| :: g.names[i] != g.names[j])
    && (forall name :: name in g.names <==> name in g.nodes)
  }

  function NodesInOrder(g: GraphSpec): seq<NodeSpec>
    requires IsDict(g)
  {
    seq(|g.names|, i requires 0 <= i < |g.names| => assert g.names[i] in g.names; g.nodes[g.names[i]])
  }

  /** Loading: the validators of the parts, then of the whole. */
  function Validate(g: GraphSpec): Option<SpecError>
    requires IsDict(g)
  {
    var nodes := CheckAll(CheckNode, NodesInOrder(g));
    var edges := CheckAll(CheckEdge, g.edges);
    if nodes.Some? then nodes
    else if edges.Some? then edges
    else if g.entry !in g.nodes then Some(UnknownEntry)
    else
      var refs := CheckReferences(g, g.edges);
      if refs.Some? then refs
      else if g.stateClass.Some? then Some(StateClassSet)
      else None
  }

  /** A budget only for developers and at least one round, a mode only next to tools. */
  predicate SettingsFit(n: NodeSpec) {
    && (n.maxDevRounds.Some? ==> n.role == DeveloperRole && n.maxDevRounds.value >= 1)
    && (n.toolMode.Some? ==> n.tools != [])
  }

  /** Either a target or branches, and all of them nodes or the end. */
  predicate LeadsToNodes(g: GraphSpec, e: EdgeSpec) {
    if e.to.Some? then e.branches == [] && (e.to.value in g.nodes || e.to.value == "__end__")
    else e.branches != [] && forall b | b in e.branches :: b.to in g.nodes || b.to == "__end__"
  }

  /** What the validators establish. */
  predicate WellFormed(g: GraphSpec) {
    && (forall name | name in g.nodes :: SettingsFit(g.nodes[name]))
    && (forall e | e in g.edges ::
          && LeadsToNodes(g, e)
          && (e.router.Some? && e.router.value != "" ==> e.branches != [])
          && e.from in g.nodes)
    && g.entry in g.nodes
    && g.stateClass.None?
  }

  lemma {:induction false} CheckAllIff<T>(check: T -> Option<SpecError>, items: seq<T>)
    ensures CheckAll(check, items).None? <==> forall item | item in items :: check(item).None?
  {
    if items != [] {
      CheckAllIff(check, items[1..]);
      assert items == [items[0]] + items[1..];
    }
  }

  lemma {:induction false} CheckReferencesIff(g: GraphSpec, edges: seq<EdgeSpec>)
    ensures CheckReferences(g, edges).None? <==>
            forall e | e in edges :: e.from in g.nodes && forall t | t in Targets(e) :: IsTarget(g, t)
    decreases |edges|
  {
    if edges != [] {
      CheckReferencesIff(g, edges[1..]);
      assert edges == [edges[0]] + edges[1..];
    }
  }

  lemma TargetsIff(g: GraphSpec, e: EdgeSpec)
    requires e.to.Some? <==> e.branches == []
    ensures LeadsToNodes(g, e) <==> forall t | t in Targets(e) :: IsTarget(g, t)
  {
    if e.to.Some? {
      assert e.to.value in Targets(e) && forall t | t in Targets(e) :: t == e.to.value;
    } else {
      forall b | b in e.branches ensures b.to in Targets(e) {
        var i :| 0 <= i < |e.branches| && e.branches[i] == b;
        assert Targets(e)[i] == b.to;
      }
      forall t | t in Targets(e) ensures exists b | b in e.branches :: b.to == t {
        var i :| 0 <= i < |Targets(e)| && Targets(e)[i] == t;
        assert e.branches[i] in e.branches;
      }
    }
  }

  lemma NodesFitIff(g: GraphSpec)
    requires IsDict(g)
    ensures CheckAll(CheckNode, NodesInOrder(g)).None? <==> forall name | name in g.nodes :: SettingsFit(g.nodes[name])
  {
    var nodes := NodesInOrder(g);
    CheckAllIff(CheckNode, nodes);
    forall name | name in g.nodes ensures g.nodes[name] in nodes {
      assert name in g.names;
      var i :| 0 <= i < |g.names| && g.names[i] == name;
      assert nodes[i] == g.nodes[name];
    }
    forall n | n in nodes ensures exists name | name in g.nodes :: g.nodes[name] == n {
      var i :| 0 <= i < |nodes| && nodes[i] == n;
      assert g.names[i] in g.names;
      assert g.nodes[g.names[i]] == n;
    }
    assert forall n: NodeSpec :: CheckNode(n).None? <==> SettingsFit(n);
  }

  lemma EdgeIff(g: GraphSpec, e: EdgeSpec)
    ensures (CheckEdge(e).None? && forall t | t in Targets(e) :: IsTarget(g, t)) <==>
            LeadsToNodes(g, e) && (e.router.Some? && e.router.value != "" ==> e.branches != [])
  {
    if e.to.Some? <==> e.branches == [] {
      TargetsIff(g, e);
    }
  }

  /** A specification loads exactly when it is well formed. */
  lemma ValidateIff(g: GraphSpec)
    requires IsDict(g)
    ensures Validate(g).None? <==> WellFormed(g)
  {
    NodesFitIff(g);
    CheckAllIff(CheckEdge, g.edges);
    CheckReferencesIff(g, g.edges);
    forall e | e in g.edges
      ensures (CheckEdge(e).None? && forall t | t in Targets(e) :: IsTarget(g, t)) <==>
              LeadsToNodes(g, e) && (e.router.Some? && e.router.value != "" ==> e.branches != [])
    {
      EdgeIff(g, e);
    }
  }
}
