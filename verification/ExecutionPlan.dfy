/** The plan compiler and the independent checker of its plans. */
module ExecutionPlan {
  import opened Wrappers
  import opened Graph
  import opened TopologicalOrder
  import opened ManifestModel

  const SCHEMA := "nodrix.execution-plan/v1"

  // Known of the nodes and edges by their description: devices, and copies planned per edge.
  datatype DescribedEdge = DescribedEdge(source: string, target: string, copies: int)
  datatype Description = Description(devices: map<string, string>, edges: seq<DescribedEdge>)

  datatype PlanNode = PlanNode(ordinal: nat, name: string, config: NodeConfig, device: string)
  datatype PlanEdge = PlanEdge(ordinal: nat, source: string, target: string, transported: bool, copies: int)
  datatype Warning = CyclicGraph | AutomaticDevice(name: string) | AutomaticParameters(name: string, keys: set<string>)

  datatype Plan = Plan(
    schema: string, manifestDigest: string, reproducible: bool, order: seq<string>, nodes: seq<PlanNode>,
    edges: seq<PlanEdge>, links: seq<Link>, applications: seq<string>, plannedCopies: int, warnings: seq<Warning>)

  predicate HexDigest(text: string)
  {
    |text| == 64 && forall c :: c in text ==> c in "0123456789abcdef"
  }

  // The copies of the last description of an edge; none when it is not described.
  function CopiesOf(described: seq<DescribedEdge>, source: string, target: string): int
  {
    if described == [] then 0
    else
      var last := described[|described| - 1];
      if last.source == source && last.target == target then last.copies
      else CopiesOf(described[..|described| - 1], source, target)
  }

  function SumCopies(edges: seq<PlanEdge>): int
  {
    if edges == [] then 0 else SumCopies(edges[..|edges| - 1]) + edges[|edges| - 1].copies
  }

  function PlanNodeNames(nodes: seq<PlanNode>): (names: seq<string>)
    ensures |names| == |nodes| && forall i :: 0 <= i < |nodes| ==> names[i] == nodes[i].name
  {
    seq(|nodes|, i requires 0 <= i < |nodes| => nodes[i].name)
  }

  // ---------------------------------------------------------------- what a valid plan is

  datatype Fault = Schema | Digest | NodeNames | ApplicationNames | SharedNames | Empty | UnknownInEdge | UnknownInLink

  predicate PlanEdgeKnown(edge: PlanEdge, nodes: set<string>, endpoints: set<string>)
  {
    EdgeKnown(Edge(edge.source, edge.target, edge.transported), nodes, endpoints)
  }

  ghost predicate Avoids(plan: Plan, fault: Fault)
  {
    var nodes, applications := Names(PlanNodeNames(plan.nodes)), Names(plan.applications);
    match fault
    case Schema => plan.schema == SCHEMA
    case Digest => HexDigest(plan.manifestDigest)
    case NodeNames => "" !in nodes && Distinct(PlanNodeNames(plan.nodes))
    case ApplicationNames => "" !in applications && Distinct(plan.applications)
    case SharedNames => nodes !! applications
    case Empty => plan.nodes != [] || plan.applications != []
    case UnknownInEdge => forall e :: e in plan.edges ==> PlanEdgeKnown(e, nodes, nodes + applications)
    case UnknownInLink => forall link :: link in plan.links ==> LinkKnown(link, nodes + applications)
  }

  ghost predicate ValidPlan(plan: Plan)
  {
    forall fault :: Avoids(plan, fault)
  }

  method ValidateExecutionPlan(plan: Plan) returns (result: Result<(), Fault>)
    ensures result.Err? ==> !Avoids(plan, result.error)
    ensures result.Ok? <==> ValidPlan(plan)
  {
    hide EdgeKnown, LinkKnown, Distinct, HexDigest;
    if plan.schema != SCHEMA { return Err(Schema); }
    if !HexDigest(plan.manifestDigest) { return Err(Digest); }
    var names := PlanNodeNames(plan.nodes);
    var distinct := NameCollision(names);
    if "" in names || !distinct { return Err(NodeNames); }
    distinct := NameCollision(plan.applications);
    if "" in plan.applications || !distinct { return Err(ApplicationNames); }
    var nodes, endpoints := Names(names), Names(names) + Names(plan.applications);
    if !(nodes !! Names(plan.applications)) { return Err(SharedNames); }
    if names == [] && plan.applications == [] { return Err(Empty); }
    for i := 0 to |plan.edges|
      invariant forall k :: 0 <= k < i ==> PlanEdgeKnown(plan.edges[k], nodes, endpoints)
    {
      if !PlanEdgeKnown(plan.edges[i], nodes, endpoints) { return Err(UnknownInEdge); }
    }
    for i := 0 to |plan.links|
      invariant forall k :: 0 <= k < i ==> LinkKnown(plan.links[k], endpoints)
    {
      if !LinkKnown(plan.links[i], endpoints) { return Err(UnknownInLink); }
    }
    return Ok(());
  }

  // ---------------------------------------------------------------- what the compiler owes a manifest

  function DeviceOf(d: Description, node: NamedNode): string
  {
    if node.name in d.devices then d.devices[node.name] else node.config.device
  }

  // Nothing about the node is left to be chosen at run time.
  predicate Settled(d: Description, node: NamedNode)
  {
    DeviceOf(d, node) != "auto" && node.config.automatic == {}
  }

  ghost predicate NodesCompiled(plan: Plan, m: Manifest, d: Description)
  {
    && multiset(plan.order) == multiset(ManifestModel.NodeNames(m.nodes))
    && |plan.nodes| == |plan.order|
    && forall i :: 0 <= i < |plan.nodes| ==> NodeCompiled(plan.nodes[i], i, plan.order[i], m, d)
  }

  ghost predicate NodeCompiled(node: PlanNode, i: nat, name: string, m: Manifest, d: Description)
  {
    var named := NamedNode(node.name, node.config);
    node.ordinal == i && node.name == name && named in m.nodes && node.device == DeviceOf(d, named)
  }

  ghost predicate EdgesCompiled(plan: Plan, m: Manifest, d: Description)
  {
    && |plan.edges| == |m.edges|
    && (forall i :: 0 <= i < |m.edges| ==> plan.edges[i] == CompiledEdge(i, m.edges[i], d))
    && plan.plannedCopies == SumCopies(plan.edges)
  }

  function CompiledEdge(i: nat, edge: Edge, d: Description): PlanEdge
  {
    PlanEdge(i, edge.source, edge.target, edge.transported,
             if edge.transported then 0 else CopiesOf(d.edges, edge.source, edge.target))
  }

  ghost predicate Compiled(plan: Plan, m: Manifest, d: Description)
  {
    && NodesCompiled(plan, m, d) && EdgesCompiled(plan, m, d)
    && plan.links == m.links && plan.applications == BoundNames(m.applications)
    && plan.schema == SCHEMA && HexDigest(plan.manifestDigest)
    && (CyclicGraph in plan.warnings <==> !Acyclic(Arcs(Links(m.edges))))
    && (CyclicGraph !in plan.warnings ==> SourcesFirst(Arcs(Links(m.edges)), plan.order))
    && InSchedule(Links(m.edges), ManifestModel.NodeNames(m.nodes), plan.order)
    && Warned(plan.nodes, plan.warnings)
    && (plan.reproducible <==> m.engine != AutoEngine && forall node :: node in m.nodes ==> Settled(d, node))
  }

  // The part of the manifest checks that the plan checker sees again.
  ghost predicate Plannable(m: Manifest)
  {
    && Holds(m, SomethingToRun) && Holds(m, EdgeEndpoints) && Holds(m, LinkEndpoints)
    && "" !in Endpoints(m)
    && Names(ManifestModel.NodeNames(m.nodes)) !! Names(BoundNames(m.applications))
  }

  // The names of a compiled plan are those of the manifest.
  lemma CompiledNames(plan: Plan, m: Manifest, d: Description)
    requires Dictionaries(m) && NodesCompiled(plan, m, d) && plan.applications == BoundNames(m.applications)
    ensures Names(PlanNodeNames(plan.nodes)) == Names(ManifestModel.NodeNames(m.nodes))
    ensures Names(PlanNodeNames(plan.nodes)) + Names(plan.applications) == Endpoints(m)
    ensures |plan.nodes| == |m.nodes| && |plan.applications| == |m.applications|
    ensures Distinct(PlanNodeNames(plan.nodes)) && Distinct(plan.applications)
  {
    assert PlanNodeNames(plan.nodes) == plan.order;
    PermutedDistinct(plan.order, ManifestModel.NodeNames(m.nodes));
    assert |multiset(plan.order)| == |multiset(ManifestModel.NodeNames(m.nodes))|;
  }

  /** Of any compiled manifest, the checker accepts the plan exactly when its graph is sound. */
  lemma PlanIsValidExactly(plan: Plan, m: Manifest, d: Description)
    requires Dictionaries(m) && Compiled(plan, m, d)
    ensures ValidPlan(plan) <==> Plannable(m)
  {
    hide Avoids, Holds, NodesCompiled, EdgesCompiled, HexDigest, Acyclic, SourcesFirst, InSchedule, Names;
    ReferencesAgree(plan, m, d);
    NamesAgree(plan, m, d);
    EveryFault(plan);
  }

  lemma EveryFault(plan: Plan)
    ensures ValidPlan(plan) <==>
            && Avoids(plan, Schema) && Avoids(plan, Digest) && Avoids(plan, NodeNames) && Avoids(plan, ApplicationNames)
            && Avoids(plan, SharedNames) && Avoids(plan, Empty) && Avoids(plan, UnknownInEdge) && Avoids(plan, UnknownInLink)
  {
    hide Avoids;
    if && Avoids(plan, Schema) && Avoids(plan, Digest) && Avoids(plan, Fault.NodeNames) && Avoids(plan, ApplicationNames)
       && Avoids(plan, SharedNames) && Avoids(plan, Empty) && Avoids(plan, UnknownInEdge) && Avoids(plan, UnknownInLink) {
      forall fault
        ensures Avoids(plan, fault)
      {
        match fault {
          case Schema =>
          case Digest =>
          case NodeNames =>
          case ApplicationNames =>
          case SharedNames =>
          case Empty =>
          case UnknownInEdge =>
          case UnknownInLink =>
        }
      }
    }
  }

  lemma ReferencesAgree(plan: Plan, m: Manifest, d: Description)
    requires Dictionaries(m) && Compiled(plan, m, d)
    ensures Avoids(plan, UnknownInEdge) <==> Holds(m, EdgeEndpoints)
    ensures Avoids(plan, UnknownInLink) <==> Holds(m, LinkEndpoints)
  {
    hide EdgeKnown, LinkKnown, Distinct, HexDigest, Acyclic, SourcesFirst, Names, Endpoints, NodesCompiled, EdgesCompiled;
    CompiledNames(plan, m, d);
    EdgesAgree(plan, m, d, Names(PlanNodeNames(plan.nodes)), Endpoints(m));
  }

  lemma NamesAgree(plan: Plan, m: Manifest, d: Description)
    requires Dictionaries(m) && Compiled(plan, m, d)
    ensures Avoids(plan, Schema) && Avoids(plan, Digest)
    ensures Avoids(plan, Empty) <==> Holds(m, SomethingToRun)
    ensures Avoids(plan, NodeNames) && Avoids(plan, ApplicationNames) <==> "" !in Endpoints(m)
    ensures Avoids(plan, SharedNames) <==> Names(ManifestModel.NodeNames(m.nodes)) !! Names(BoundNames(m.applications))
  {
    hide EdgeKnown, LinkKnown, Distinct, HexDigest, Acyclic, SourcesFirst, Names, Endpoints, NodesCompiled, EdgesCompiled;
    CompiledNames(plan, m, d);
    EmptyName(Names(PlanNodeNames(plan.nodes)), Names(plan.applications));
  }

  lemma EmptyName(a: set<string>, b: set<string>)
    ensures "" !in a + b <==> "" !in a && "" !in b
  {
  }

  lemma EdgesAgree(plan: Plan, m: Manifest, d: Description, nodes: set<string>, endpoints: set<string>)
    requires EdgesCompiled(plan, m, d)
    ensures (forall e :: e in plan.edges ==> PlanEdgeKnown(e, nodes, endpoints)) <==>
            (forall e :: e in m.edges ==> EdgeKnown(e, nodes, endpoints))
  {
    hide EdgeKnown, CopiesOf, SumCopies;
    forall i | 0 <= i < |m.edges|
      ensures plan.edges[i] in plan.edges && m.edges[i] in m.edges
      ensures PlanEdgeKnown(plan.edges[i], nodes, endpoints) <==> EdgeKnown(m.edges[i], nodes, endpoints)
    {
      var e := m.edges[i];
      assert e == Edge(e.source, e.target, e.transported);
    }
  }

  lemma AcceptedIsPlannable(m: Manifest)
    requires Accepted(m)
    ensures Plannable(m)
  {
    assert Blank("");
    assert Holds(m, EndpointNames) && Holds(m, SomethingToRun) && Holds(m, EdgeEndpoints) && Holds(m, LinkEndpoints);
  }

  // ---------------------------------------------------------------- the compiler

  function ConfigOf(nodes: seq<NamedNode>, name: string): (config: NodeConfig)
    requires exists node :: node in nodes && node.name == name
    ensures NamedNode(name, config) in nodes
  {
    if nodes[0].name == name then nodes[0].config else ConfigOf(nodes[1..], name)
  }

  lemma OneConfig(nodes: seq<NamedNode>, node: NamedNode)
    requires Distinct(ManifestModel.NodeNames(nodes)) && node in nodes
    ensures ConfigOf(nodes, node.name) == node.config
  {
    var config := ConfigOf(nodes, node.name);
    var i :| 0 <= i < |nodes| && nodes[i] == node;
    var j :| 0 <= j < |nodes| && nodes[j] == NamedNode(node.name, config);
    var names := ManifestModel.NodeNames(nodes);
    assert names[i] == names[j];
  }

  lemma NamedNodeIn(nodes: seq<NamedNode>, order: seq<string>, name: string)
    requires multiset(order) == multiset(ManifestModel.NodeNames(nodes)) && name in order
    ensures exists node :: node in nodes && node.name == name
  {
    var names := ManifestModel.NodeNames(nodes);
    assert name in multiset(order);
    assert name in names;
    var i :| 0 <= i < |names| && names[i] == name;
    assert nodes[i] in nodes;
  }

  method IndexDescriptions(described: seq<DescribedEdge>) returns (copies: map<(string, string), int>)
    ensures forall source, target ::
              CopiesOf(described, source, target) == if (source, target) in copies then copies[(source, target)] else 0
  {
    copies := map[];
    for i := 0 to |described|
      invariant forall source, target ::
                  CopiesOf(described[..i], source, target) == if (source, target) in copies then copies[(source, target)] else 0
    {
      var edge := described[i];
      assert described[..i + 1][..i] == described[..i];
      copies := copies[(edge.source, edge.target) := edge.copies];
    }
    assert described[..|described|] == described;
  }

  // There is a warning for every node whose device or parameters are left to be chosen, and no other.
  ghost predicate Warned(nodes: seq<PlanNode>, warnings: seq<Warning>)
  {
    && (forall name :: AutomaticDevice(name) in warnings <==>
          exists node :: node in nodes && node.name == name && node.device == "auto")
    && (forall name, keys :: AutomaticParameters(name, keys) in warnings <==>
          exists node :: node in nodes && node.name == name && node.config.automatic == keys && keys != {})
  }

  lemma WarnedNext(nodes: seq<PlanNode>, next: PlanNode, before: seq<Warning>, now: seq<Warning>)
    requires Warned(nodes, before)
    requires now == before + (if next.device == "auto" then [AutomaticDevice(next.name)] else [])
                    + (if next.config.automatic != {} then [AutomaticParameters(next.name, next.config.automatic)] else [])
    ensures Warned(nodes + [next], now)
  {
    var all := nodes + [next];
    assert forall node :: node in all <==> node in nodes || node == next;
    assert forall w :: w in now <==>
      || w in before || (w == AutomaticDevice(next.name) && next.device == "auto")
      || (w == AutomaticParameters(next.name, next.config.automatic) && next.config.automatic != {});
    forall name
      ensures AutomaticDevice(name) in now <==> exists node :: node in all && node.name == name && node.device == "auto"
    {
      if AutomaticDevice(name) in before {
        var node :| node in nodes && node.name == name && node.device == "auto";
        assert node in all;
      } else if AutomaticDevice(name) in now {
        assert next in all;
      }
    }
    forall name, keys
      ensures AutomaticParameters(name, keys) in now <==>
              exists node :: node in all && node.name == name && node.config.automatic == keys && keys != {}
    {
      if AutomaticParameters(name, keys) in before {
        var node :| node in nodes && node.name == name && node.config.automatic == keys && keys != {};
        assert node in all;
      } else if AutomaticParameters(name, keys) in now {
        assert next in all;
      }
    }
  }

  method CompileNodes(m: Manifest, d: Description, order: seq<string>)
    returns (nodes: seq<PlanNode>, reproducible: bool, warnings: seq<Warning>)
    requires Dictionaries(m) && multiset(order) == multiset(ManifestModel.NodeNames(m.nodes))
    ensures |nodes| == |order| && forall i :: 0 <= i < |nodes| ==> NodeCompiled(nodes[i], i, order[i], m, d)
    ensures reproducible <==> m.engine != AutoEngine && forall node :: node in m.nodes ==> Settled(d, node)
    ensures Warned(nodes, warnings) && CyclicGraph !in warnings
  {
    hide DeviceOf;
    nodes, warnings, reproducible := [], [], m.engine != AutoEngine;
    for i := 0 to |order|
      invariant |nodes| == i && forall k :: 0 <= k < i ==> NodeCompiled(nodes[k], k, order[k], m, d)
      invariant reproducible <==> m.engine != AutoEngine && forall k :: 0 <= k < i ==> Settled(d, NamedNode(nodes[k].name, nodes[k].config))
      invariant Warned(nodes, warnings) && CyclicGraph !in warnings
    {
      ghost var before := warnings;
      NamedNodeIn(m.nodes, order, order[i]);
      var node := NamedNode(order[i], ConfigOf(m.nodes, order[i]));
      var device := DeviceOf(d, node);
      if device == "auto" {
        reproducible := false;
        warnings := warnings + [AutomaticDevice(node.name)];
      }
      if node.config.automatic != {} {
        reproducible := false;
        warnings := warnings + [AutomaticParameters(node.name, node.config.automatic)];
      }
      WarnedNext(nodes, PlanNode(i, node.name, node.config, device), before, warnings);
      nodes := nodes + [PlanNode(i, node.name, node.config, device)];
    }
    AllSettled(m, d, order, nodes);
  }

  lemma AllSettled(m: Manifest, d: Description, order: seq<string>, nodes: seq<PlanNode>)
    requires Dictionaries(m) && multiset(order) == multiset(ManifestModel.NodeNames(m.nodes))
    requires |nodes| == |order| && forall i :: 0 <= i < |nodes| ==> NodeCompiled(nodes[i], i, order[i], m, d)
    ensures (forall k :: 0 <= k < |nodes| ==> Settled(d, NamedNode(nodes[k].name, nodes[k].config))) <==>
            (forall node :: node in m.nodes ==> Settled(d, node))
  {
    hide Settled, DeviceOf;
    var names := ManifestModel.NodeNames(m.nodes);
    forall node | node in m.nodes
      ensures exists k :: 0 <= k < |nodes| && NamedNode(nodes[k].name, nodes[k].config) == node
    {
      var i :| 0 <= i < |m.nodes| && m.nodes[i] == node;
      assert names[i] in multiset(order);
      var k :| 0 <= k < |order| && order[k] == node.name;
      OneConfig(m.nodes, node);
      OneConfig(m.nodes, NamedNode(nodes[k].name, nodes[k].config));
    }
  }

  method CompileEdges(m: Manifest, d: Description) returns (edges: seq<PlanEdge>, plannedCopies: int)
    ensures |edges| == |m.edges| && forall i :: 0 <= i < |m.edges| ==> edges[i] == CompiledEdge(i, m.edges[i], d)
    ensures plannedCopies == SumCopies(edges)
  {
    var described := IndexDescriptions(d.edges);
    edges, plannedCopies := [], 0;
    for i := 0 to |m.edges|
      invariant |edges| == i && forall k :: 0 <= k < i ==> edges[k] == CompiledEdge(k, m.edges[k], d)
      invariant plannedCopies == SumCopies(edges)
    {
      var edge := m.edges[i];
      var copies := 0;
      if !edge.transported && (edge.source, edge.target) in described {
        copies := described[(edge.source, edge.target)];
        plannedCopies := plannedCopies + copies;
      }
      var compiled := PlanEdge(i, edge.source, edge.target, edge.transported, copies);
      assert (edges + [compiled])[..i] == edges;
      edges := edges + [compiled];
    }
  }

  /**
   Every manifest its model accepts compiles, cycles included: the checker accepts the plan.
   */
  method CompileExecutionPlan(m: Manifest, d: Description, digest: string) returns (result: Result<Plan, Fault>)
    requires Accepted(m) && HexDigest(digest)
    ensures result.Ok? && Compiled(result.value, m, d) && ValidPlan(result.value)
  {
    hide Acyclic, SourcesFirst, InSchedule, Names, DeviceOf, CopiesOf, SumCopies, ValidPlan, HexDigest;
    AcceptedIsPlannable(m);
    AcceptedIsKnown(m);
    var order, acyclic := Order(ManifestModel.NodeNames(m.nodes), m.edges);
    var nodes, reproducible, warnings := CompileNodes(m, d, order);
    if !acyclic {
      WarnedWith(nodes, warnings, CyclicGraph);
      warnings := [CyclicGraph] + warnings;
    }
    var edges, plannedCopies := CompileEdges(m, d);
    var plan := Plan(SCHEMA, digest, reproducible, order, nodes, edges, m.links, BoundNames(m.applications), plannedCopies, warnings);
    PlanIsValidExactly(plan, m, d);
    var valid := ValidateExecutionPlan(plan);
    match valid {
      case Err(fault) => return Err(fault);
      case Ok(_) => return Ok(plan);
    }
  }

  lemma WarnedWith(nodes: seq<PlanNode>, warnings: seq<Warning>, other: Warning)
    requires Warned(nodes, warnings) && other.CyclicGraph?
    ensures Warned(nodes, [other] + warnings)
  {
    assert forall w :: w in [other] + warnings <==> w == other || w in warnings;
  }

  lemma AcceptedIsKnown(m: Manifest)
    requires Accepted(m)
    ensures Known(ManifestModel.NodeNames(m.nodes), m.edges)
  {
    assert Holds(m, EdgeEndpoints);
  }

  // ---------------------------------------------------------------- what a compiled plan says

  lemma {:induction false} LastDescriptionCounts(described: seq<DescribedEdge>, source: string, target: string, i: nat)
    requires i < |described| && described[i].source == source && described[i].target == target
    requires forall j :: i < j < |described| ==> described[j].source != source || described[j].target != target
    ensures CopiesOf(described, source, target) == described[i].copies
  {
    if i < |described| - 1 {
      var n := |described| - 1;
      assert described[n].source != source || described[n].target != target;
      LastDescriptionCounts(described[..n], source, target, i);
    }
  }

  lemma {:induction false} NotDescribed(described: seq<DescribedEdge>, source: string, target: string)
    requires forall j :: 0 <= j < |described| ==> described[j].source != source || described[j].target != target
    ensures CopiesOf(described, source, target) == 0
  {
    if described != [] {
      var n := |described| - 1;
      assert described[n].source != source || described[n].target != target;
      NotDescribed(described[..n], source, target);
    }
  }

  /**
   An edge of a compiled plan: transported edges plan no copies; a local one as many as the last
   description of an edge between the same two ports says, and none when there is no description.
   */
  lemma PlannedCopiesExactly(plan: Plan, m: Manifest, d: Description, i: nat)
    requires Compiled(plan, m, d) && i < |m.edges|
    ensures |plan.edges| == |m.edges|
    ensures var edge, planned := m.edges[i], plan.edges[i];
            && planned.ordinal == i && planned.source == edge.source && planned.target == edge.target
            && planned.transported == edge.transported
            && (edge.transported ==> planned.copies == 0)
            && (forall k :: 0 <= k < |d.edges| && !edge.transported
                  && d.edges[k].source == edge.source && d.edges[k].target == edge.target
                  && (forall j :: k < j < |d.edges| ==> d.edges[j].source != edge.source || d.edges[j].target != edge.target)
                  ==> planned.copies == d.edges[k].copies)
            && ((forall k :: 0 <= k < |d.edges| ==> d.edges[k].source != edge.source || d.edges[k].target != edge.target)
                  ==> planned.copies == 0)
  {
    hide CopiesOf;
    var edge := m.edges[i];
    forall k | 0 <= k < |d.edges| && !edge.transported
               && d.edges[k].source == edge.source && d.edges[k].target == edge.target
               && (forall j :: k < j < |d.edges| ==> d.edges[j].source != edge.source || d.edges[j].target != edge.target)
      ensures plan.edges[i].copies == d.edges[k].copies
    {
      LastDescriptionCounts(d.edges, edge.source, edge.target, k);
    }
    if forall k :: 0 <= k < |d.edges| ==> d.edges[k].source != edge.source || d.edges[k].target != edge.target {
      NotDescribed(d.edges, edge.source, edge.target);
    }
  }

  lemma {:induction false} CopiesAdd(a: seq<PlanEdge>, b: seq<PlanEdge>)
    ensures SumCopies(a + b) == SumCopies(a) + SumCopies(b)
  {
    if b == [] {
      assert a + b == a;
    } else {
      assert (a + b)[..|a + b| - 1] == a + b[..|b| - 1];
      CopiesAdd(a, b[..|b| - 1]);
    }
  }

  /**
   A node of a compiled plan has its own configuration, and the described device or else the
   configured one; a plan is reproducible exactly when no device and no parameter is left automatic
   and the engine is named, and it warns of exactly the nodes that leave something.
   */
  lemma CompiledNodesExactly(plan: Plan, m: Manifest, d: Description)
    requires Compiled(plan, m, d) && Dictionaries(m)
    ensures forall i :: 0 <= i < |plan.nodes| ==>
              var node := plan.nodes[i];
              && node.ordinal == i && node.name == plan.order[i] && NamedNode(node.name, node.config) in m.nodes
              && node.device == (if node.name in d.devices then d.devices[node.name] else node.config.device)
    ensures plan.reproducible <==>
            m.engine != AutoEngine && forall node :: node in plan.nodes ==> node.device != "auto" && node.config.automatic == {}
    ensures forall name :: AutomaticDevice(name) in plan.warnings <==>
              exists node :: node in plan.nodes && node.name == name && node.device == "auto"
    ensures forall name, keys :: AutomaticParameters(name, keys) in plan.warnings <==>
              exists node :: node in plan.nodes && node.name == name && node.config.automatic == keys && keys != {}
  {
    hide Acyclic, SourcesFirst, InSchedule;
    AllSettled(m, d, plan.order, plan.nodes);
    assert forall k :: 0 <= k < |plan.nodes| ==>
      (Settled(d, NamedNode(plan.nodes[k].name, plan.nodes[k].config)) <==>
       plan.nodes[k].device != "auto" && plan.nodes[k].config.automatic == {});
    assert forall k :: 0 <= k < |plan.nodes| ==> plan.nodes[k] in plan.nodes;
  }
}
