/** The manifest of a pipeline after parsing, and the cross-section checks its model makes. */
module ManifestModel {
  import opened Wrappers
  import opened Graph
  import opened TopologicalOrder

  datatype Engine = AutoEngine | Unified | Native

  datatype NodeConfig = NodeConfig(
    uses: string, bindings: map<string, string>, inProcess: bool, legacyPolicy: bool, device: string,
    automatic: set<string>)

  // A node, application or resource under its name; configuration dictionaries keep their order.
  datatype NamedNode = NamedNode(name: string, config: NodeConfig)
  datatype Bound = Bound(name: string, uses: string, bindings: map<string, string>)
  datatype Link = Link(source: string, target: string)

  datatype Manifest = Manifest(
    version2: bool, missingSections: set<string>, engine: Engine,
    sessions: set<string>, resources: seq<Bound>, applications: seq<Bound>, nodes: seq<NamedNode>,
    edges: seq<Edge>, links: seq<Link>, streams: seq<string>)

  datatype Check =
    | ExplicitSections | EngineSelected | CurrentPolicies | SomethingToRun | UnifiedIntegrations
    | ResourceNames | ResourceBindings | EndpointNames | NodeBindings | ApplicationBindings
    | LinkEndpoints | EdgeEndpoints | StreamNames

  function NodeNames(nodes: seq<NamedNode>): (names: seq<string>)
    ensures |names| == |nodes| && forall i :: 0 <= i < |nodes| ==> names[i] == nodes[i].name
  {
    seq(|nodes|, i requires 0 <= i < |nodes| => nodes[i].name)
  }

  function BoundNames(items: seq<Bound>): (names: seq<string>)
    ensures |names| == |items| && forall i :: 0 <= i < |items| ==> names[i] == items[i].name
  {
    seq(|items|, i requires 0 <= i < |items| => items[i].name)
  }

  // The dictionaries of a manifest: no name twice in one of them.
  ghost predicate Dictionaries(m: Manifest)
  {
    Distinct(NodeNames(m.nodes)) && Distinct(BoundNames(m.applications)) && Distinct(BoundNames(m.resources))
  }

  // Characters that str.strip() removes.
  predicate IsSpace(c: char)
  {
    var n := c as int;
    9 <= n <= 13 || 28 <= n <= 32 || n == 0x85 || n == 0xa0 || n == 0x1680 || 0x2000 <= n <= 0x200a
    || n in {0x2028, 0x2029, 0x202f, 0x205f, 0x3000}
  }

  predicate Blank(name: string)
  {
    forall c :: c in name ==> IsSpace(c)
  }

  predicate ProperName(name: string)
  {
    !Blank(name) && '.' !in name
  }

  predicate ProperBindings(bindings: map<string, string>, known: set<string>)
  {
    forall key :: key in bindings ==> !Blank(key) && bindings[key] in known
  }

  function Resources(m: Manifest): set<string>
  {
    m.sessions + Names(BoundNames(m.resources))
  }

  function Endpoints(m: Manifest): set<string>
  {
    Names(NodeNames(m.nodes)) + Names(BoundNames(m.applications))
  }

  predicate NodeBound(node: NamedNode, known: set<string>)
  {
    && ProperBindings(node.config.bindings, known)
    && (node.config.bindings != map[] ==> node.config.inProcess)
  }

  predicate EdgeKnown(edge: Edge, nodes: set<string>, endpoints: set<string>)
  {
    var allowed := if edge.transported then endpoints else nodes;
    NodeOf(edge.source) in allowed && NodeOf(edge.target) in allowed
  }

  predicate LinkKnown(link: Link, endpoints: set<string>)
  {
    NodeOf(link.source) in endpoints && NodeOf(link.target) in endpoints
  }

  // What each check of the model demands of a manifest.
  ghost predicate Holds(m: Manifest, check: Check)
  {
    match check
    case ExplicitSections => m.version2 ==> m.missingSections == {}
    case EngineSelected => m.version2 ==> m.engine != AutoEngine
    case CurrentPolicies => m.version2 ==> forall node :: node in m.nodes ==> !node.config.legacyPolicy
    case SomethingToRun => m.nodes != [] || m.applications != []
    case UnifiedIntegrations =>
      m.sessions != {} || m.resources != [] || m.applications != [] ==> m.engine != Native
    case ResourceNames =>
      m.sessions !! Names(BoundNames(m.resources)) && forall name :: name in Resources(m) ==> ProperName(name)
    case ResourceBindings => forall r :: r in m.resources ==> ProperBindings(r.bindings, m.sessions)
    case EndpointNames =>
      && Names(NodeNames(m.nodes)) !! Names(BoundNames(m.applications))
      && forall name :: name in Endpoints(m) ==> ProperName(name)
    case NodeBindings => forall node :: node in m.nodes ==> NodeBound(node, Resources(m))
    case ApplicationBindings => forall a :: a in m.applications ==> ProperBindings(a.bindings, Resources(m))
    case LinkEndpoints => forall link :: link in m.links ==> LinkKnown(link, Endpoints(m))
    case EdgeEndpoints => forall e :: e in m.edges ==> EdgeKnown(e, Names(NodeNames(m.nodes)), Endpoints(m))
    case StreamNames => Distinct(m.streams)
  }

  // The place of a check among the others, in the order in which they are made.
  function Place(check: Check): nat
  {
    match check
    case ExplicitSections => 0
    case EngineSelected => 1
    case CurrentPolicies => 2
    case SomethingToRun => 3
    case UnifiedIntegrations => 4
    case ResourceNames => 5
    case ResourceBindings => 6
    case EndpointNames => 7
    case NodeBindings => 8
    case ApplicationBindings => 9
    case LinkEndpoints => 10
    case EdgeEndpoints => 11
    case StreamNames => 12
  }

  // The check fails, and those made before it hold.
  ghost predicate FailsFirst(m: Manifest, check: Check)
  {
    !Holds(m, check) && forall c :: Place(c) < Place(check) ==> Holds(m, c)
  }

  ghost predicate Accepted(m: Manifest)
  {
    Dictionaries(m) && forall check :: Holds(m, check)
  }

  method NameCollision(names: seq<string>) returns (distinct: bool)
    ensures distinct <==> Distinct(names)
  {
    var seen := {};
    var i := 0;
    while i < |names|
      invariant i <= |names|
      invariant seen == Names(names[..i])
      invariant Distinct(names[..i])
    {
      if names[i] in seen {
        return false;
      }
      assert names[..i + 1] == names[..i] + [names[i]];
      seen := seen + {names[i]};
      i := i + 1;
    }
    assert names[..|names|] == names;
    return true;
  }

  predicate Early(check: Check)
  {
    check in {ExplicitSections, EngineSelected, CurrentPolicies, SomethingToRun, UnifiedIntegrations}
  }

  method ValidateSections(m: Manifest) returns (result: Result<(), Check>)
    ensures result.Ok? ==> forall check :: Early(check) ==> Holds(m, check)
    ensures result.Err? ==> FailsFirst(m, result.error)
  {
    if m.version2 {
      if m.missingSections != {} { return Err(ExplicitSections); }
      if m.engine == AutoEngine { return Err(EngineSelected); }
      if exists node :: node in m.nodes && node.config.legacyPolicy { return Err(CurrentPolicies); }
    }
    if m.nodes == [] && m.applications == [] { return Err(SomethingToRun); }
    if (m.sessions != {} || m.resources != [] || m.applications != []) && m.engine == Native {
      return Err(UnifiedIntegrations);
    }
    return Ok(());
  }

  method ValidateReferences(m: Manifest) returns (result: Result<(), Check>)
    requires forall check :: Early(check) ==> Holds(m, check)
    ensures result.Ok? ==> forall check :: Holds(m, check)
    ensures result.Err? ==> FailsFirst(m, result.error)
  {
    hide Distinct, Names, NodeNames, BoundNames, Resources, Endpoints, ProperName, ProperBindings, NodeBound, LinkKnown, EdgeKnown;
    var nodes, endpoints, resources := Names(NodeNames(m.nodes)), Endpoints(m), Resources(m);
    if !(m.sessions !! Names(BoundNames(m.resources))) || exists name :: name in resources && !ProperName(name) {
      return Err(ResourceNames);
    }
    for i := 0 to |m.resources|
      invariant forall k :: 0 <= k < i ==> ProperBindings(m.resources[k].bindings, m.sessions)
    {
      if !ProperBindings(m.resources[i].bindings, m.sessions) { return Err(ResourceBindings); }
    }
    if !(nodes !! Names(BoundNames(m.applications))) || exists name :: name in endpoints && !ProperName(name) {
      return Err(EndpointNames);
    }
    for i := 0 to |m.nodes|
      invariant forall k :: 0 <= k < i ==> NodeBound(m.nodes[k], resources)
    {
      if !NodeBound(m.nodes[i], resources) { return Err(NodeBindings); }
    }
    for i := 0 to |m.applications|
      invariant forall k :: 0 <= k < i ==> ProperBindings(m.applications[k].bindings, resources)
    {
      if !ProperBindings(m.applications[i].bindings, resources) { return Err(ApplicationBindings); }
    }
    for i := 0 to |m.links|
      invariant forall k :: 0 <= k < i ==> LinkKnown(m.links[k], endpoints)
    {
      if !LinkKnown(m.links[i], endpoints) { return Err(LinkEndpoints); }
    }
    for i := 0 to |m.edges|
      invariant forall k :: 0 <= k < i ==> EdgeKnown(m.edges[k], nodes, endpoints)
    {
      if !EdgeKnown(m.edges[i], nodes, endpoints) { return Err(EdgeEndpoints); }
    }
    var distinct := NameCollision(m.streams);
    if !distinct { return Err(StreamNames); }
    return Ok(());
  }

  /** Goes through the checks in order; an error names the first that does not hold. */
  method ValidateNodeNames(m: Manifest) returns (result: Result<(), Check>)
    requires Dictionaries(m)
    ensures result.Ok? <==> Accepted(m)
    ensures result.Err? ==> FailsFirst(m, result.error)
  {
    hide Holds, Early;
    result := ValidateSections(m);
    if result.Ok? {
      result := ValidateReferences(m);
    }
  }

  // ---------------------------------------------------------------- how accepted manifests grow

  lemma NamesGrow(nodes: seq<NamedNode>, node: NamedNode, items: seq<Bound>, item: Bound)
    ensures NodeNames(nodes + [node]) == NodeNames(nodes) + [node.name]
    ensures BoundNames(items + [item]) == BoundNames(items) + [item.name]
    ensures Names(NodeNames(nodes + [node])) == Names(NodeNames(nodes)) + {node.name}
    ensures Names(BoundNames(items + [item])) == Names(BoundNames(items)) + {item.name}
  {
    var a, b := NodeNames(nodes), BoundNames(items);
    assert NodeNames(nodes + [node]) == a + [node.name] && BoundNames(items + [item]) == b + [item.name];
    assert Names(a + [node.name]) == Names(a) + {node.name} && Names(b + [item.name]) == Names(b) + {item.name};
  }

  // Something other than white space is in the text.
  ghost predicate HasInk(text: string)
  {
    exists c :: c in text && !IsSpace(c)
  }

  // Every binding has a name and leads to a known provider.
  ghost predicate BindsTo(bindings: map<string, string>, known: set<string>)
  {
    forall key :: key in bindings ==> HasInk(key) && bindings[key] in known
  }

  // What each check makes of one more node.
  lemma NodeChecks(m: Manifest, more: Manifest, node: NamedNode, check: Check)
    requires Dictionaries(m) && more == m.(nodes := m.nodes + [node])
    requires Holds(m, EndpointNames) && Holds(m, LinkEndpoints) && Holds(m, EdgeEndpoints) && Holds(m, check)
    ensures Holds(more, check) <==>
            match check
            case CurrentPolicies => m.version2 ==> !node.config.legacyPolicy
            case EndpointNames => ProperName(node.name) && node.name !in Names(BoundNames(m.applications))
            case NodeBindings => NodeBound(node, Resources(m))
            case _ => true
  {
    if m.applications != [] {
      NamesGrow(m.nodes, node, m.applications, m.applications[0]);
    } else {
      NamesGrow(m.nodes, node, [], Bound("", "", map[]));
    }
    assert Endpoints(more) == Endpoints(m) + {node.name} && Resources(more) == Resources(m);
    hide NodeNames, BoundNames, Names, Endpoints, Resources, ProperName, ProperBindings, Distinct;
    assert forall n :: n in more.nodes <==> n in m.nodes || n == node;
  }

  /**
   A node of a new name may be added exactly when its name has ink and no dot and is no application's,
   its bindings lead to sessions or resources, it runs in process if it has any, and its failure
   policy is current if the version asks for that.
   */
  lemma NodeMayBeAdded(m: Manifest, node: NamedNode)
    requires Accepted(m) && node.name !in NodeNames(m.nodes)
    ensures Accepted(m.(nodes := m.nodes + [node])) <==>
            && HasInk(node.name) && '.' !in node.name && node.name !in BoundNames(m.applications)
            && BindsTo(node.config.bindings, m.sessions + Names(BoundNames(m.resources)))
            && (node.config.bindings == map[] || node.config.inProcess)
            && (m.version2 ==> !node.config.legacyPolicy)
  {
    var more := m.(nodes := m.nodes + [node]);
    NamesGrow(m.nodes, node, [], Bound("", "", map[]));
    assert Dictionaries(more);
    forall check
      ensures Holds(more, check) <==>
              match check
              case CurrentPolicies => m.version2 ==> !node.config.legacyPolicy
              case EndpointNames => ProperName(node.name) && node.name !in Names(BoundNames(m.applications))
              case NodeBindings => NodeBound(node, Resources(m))
              case _ => true
    {
      NodeChecks(m, more, node, check);
    }
    hide Holds, Dictionaries;
    assert Accepted(more) <==> Holds(more, CurrentPolicies) && Holds(more, EndpointNames) && Holds(more, NodeBindings);
  }

  lemma ApplicationChecks(m: Manifest, more: Manifest, a: Bound, check: Check)
    requires Dictionaries(m) && more == m.(applications := m.applications + [a])
    requires Holds(m, EndpointNames) && Holds(m, LinkEndpoints) && Holds(m, EdgeEndpoints) && Holds(m, check)
    ensures Holds(more, check) <==>
            match check
            case UnifiedIntegrations => m.engine != Native
            case EndpointNames => ProperName(a.name) && a.name !in Names(NodeNames(m.nodes))
            case ApplicationBindings => ProperBindings(a.bindings, Resources(m))
            case _ => true
  {
    NamesGrow([], NamedNode("", NodeConfig("", map[], true, false, "", {})), m.applications, a);
    assert Endpoints(more) == Endpoints(m) + {a.name} && Resources(more) == Resources(m);
    hide NodeNames, BoundNames, Names, Endpoints, Resources, ProperName, ProperBindings, Distinct;
    assert forall n :: n in more.applications <==> n in m.applications || n == a;
  }

  /** An application of a new name: the same, but for the names of nodes, and the engine must not be native. */
  lemma ApplicationMayBeAdded(m: Manifest, a: Bound)
    requires Accepted(m) && a.name !in BoundNames(m.applications)
    ensures Accepted(m.(applications := m.applications + [a])) <==>
            && HasInk(a.name) && '.' !in a.name && a.name !in NodeNames(m.nodes)
            && BindsTo(a.bindings, m.sessions + Names(BoundNames(m.resources)))
            && m.engine != Native
  {
    var more := m.(applications := m.applications + [a]);
    NamesGrow([], NamedNode("", NodeConfig("", map[], true, false, "", {})), m.applications, a);
    assert Dictionaries(more);
    forall check
      ensures Holds(more, check) <==>
              match check
              case UnifiedIntegrations => m.engine != Native
              case EndpointNames => ProperName(a.name) && a.name !in Names(NodeNames(m.nodes))
              case ApplicationBindings => ProperBindings(a.bindings, Resources(m))
              case _ => true
    {
      ApplicationChecks(m, more, a, check);
    }
    hide Holds, Dictionaries;
    assert Accepted(more) <==>
           Holds(more, UnifiedIntegrations) && Holds(more, EndpointNames) && Holds(more, ApplicationBindings);
  }

  lemma ResourceChecks(m: Manifest, more: Manifest, r: Bound, check: Check)
    requires Dictionaries(m) && more == m.(resources := m.resources + [r])
    requires Holds(m, ResourceNames) && Holds(m, NodeBindings) && Holds(m, ApplicationBindings) && Holds(m, check)
    ensures Holds(more, check) <==>
            match check
            case UnifiedIntegrations => m.engine != Native
            case ResourceNames => ProperName(r.name) && r.name !in m.sessions
            case ResourceBindings => ProperBindings(r.bindings, m.sessions)
            case _ => true
  {
    NamesGrow([], NamedNode("", NodeConfig("", map[], true, false, "", {})), m.resources, r);
    assert Endpoints(more) == Endpoints(m) && Resources(more) == Resources(m) + {r.name};
    hide NodeNames, BoundNames, Names, Endpoints, Resources, ProperName, Distinct;
    assert forall n :: n in more.resources <==> n in m.resources || n == r;
  }

  /** A resource of a new name, which must not be a session's either and binds to sessions only. */
  lemma ResourceMayBeAdded(m: Manifest, r: Bound)
    requires Accepted(m) && r.name !in BoundNames(m.resources)
    ensures Accepted(m.(resources := m.resources + [r])) <==>
            && HasInk(r.name) && '.' !in r.name && r.name !in m.sessions
            && BindsTo(r.bindings, m.sessions)
            && m.engine != Native
  {
    var more := m.(resources := m.resources + [r]);
    NamesGrow([], NamedNode("", NodeConfig("", map[], true, false, "", {})), m.resources, r);
    assert Dictionaries(more);
    forall check
      ensures Holds(more, check) <==>
              match check
              case UnifiedIntegrations => m.engine != Native
              case ResourceNames => ProperName(r.name) && r.name !in m.sessions
              case ResourceBindings => ProperBindings(r.bindings, m.sessions)
              case _ => true
    {
      ResourceChecks(m, more, r, check);
    }
    hide Holds, Dictionaries;
    assert Accepted(more) <==>
           Holds(more, UnifiedIntegrations) && Holds(more, ResourceNames) && Holds(more, ResourceBindings);
  }

  /**
   A local edge may be added exactly between nodes, a transported one and a link between nodes or
   applications, each named before the first dot; a stream under a new name.
   */
  lemma EdgeMayBeAdded(m: Manifest, edge: Edge, link: Link, stream: string)
    requires Accepted(m)
    ensures Accepted(m.(edges := m.edges + [edge])) <==>
            forall end :: end in {edge.source, edge.target} ==>
              NodeOf(end) in NodeNames(m.nodes) || (edge.transported && NodeOf(end) in BoundNames(m.applications))
    ensures Accepted(m.(links := m.links + [link])) <==>
            forall end :: end in {link.source, link.target} ==>
              NodeOf(end) in NodeNames(m.nodes) || NodeOf(end) in BoundNames(m.applications)
    ensures Accepted(m.(streams := m.streams + [stream])) <==> stream !in m.streams
  {
    hide Resources, ProperName, ProperBindings, NodeBound;
    EdgeChecks(m, edge);
    LinkChecks(m, link);
    StreamChecks(m, stream);
  }

  lemma EdgeChecks(m: Manifest, edge: Edge)
    requires Accepted(m)
    ensures Accepted(m.(edges := m.edges + [edge])) <==> EdgeKnown(edge, Names(NodeNames(m.nodes)), Endpoints(m))
  {
    var more := m.(edges := m.edges + [edge]);
    assert forall e :: e in more.edges <==> e in m.edges || e == edge;
    assert Endpoints(more) == Endpoints(m) && Resources(more) == Resources(m);
    hide NodeNames, BoundNames, Names, Endpoints, Resources, EdgeKnown, LinkKnown, NodeBound, ProperName, ProperBindings, Distinct;
    forall check | check != EdgeEndpoints
      ensures Holds(more, check)
    {
      assert Holds(m, check);
    }
    assert Accepted(more) <==> Holds(more, EdgeEndpoints);
    assert Holds(m, EdgeEndpoints);
  }

  lemma LinkChecks(m: Manifest, link: Link)
    requires Accepted(m)
    ensures Accepted(m.(links := m.links + [link])) <==> LinkKnown(link, Endpoints(m))
  {
    var more := m.(links := m.links + [link]);
    assert forall l :: l in more.links <==> l in m.links || l == link;
    assert Endpoints(more) == Endpoints(m) && Resources(more) == Resources(m);
    hide NodeNames, BoundNames, Names, Endpoints, Resources, EdgeKnown, LinkKnown, NodeBound, ProperName, ProperBindings, Distinct;
    forall check | check != LinkEndpoints
      ensures Holds(more, check)
    {
      assert Holds(m, check);
    }
    assert Accepted(more) <==> Holds(more, LinkEndpoints);
    assert Holds(m, LinkEndpoints);
  }

  lemma StreamChecks(m: Manifest, stream: string)
    requires Accepted(m)
    ensures Accepted(m.(streams := m.streams + [stream])) <==> stream !in m.streams
  {
    var more := m.(streams := m.streams + [stream]);
    assert Holds(m, StreamNames);
    assert Distinct(more.streams) <==> stream !in m.streams by {
      assert more.streams[|m.streams|] == stream;
      assert forall i :: 0 <= i < |m.streams| ==> more.streams[i] == m.streams[i];
    }
    assert Endpoints(more) == Endpoints(m) && Resources(more) == Resources(m);
    hide NodeNames, BoundNames, Names, Endpoints, Resources, EdgeKnown, LinkKnown, NodeBound, ProperName, ProperBindings, Distinct;
    forall check | check != StreamNames
      ensures Holds(more, check)
    {
      assert Holds(m, check);
    }
    assert Accepted(more) <==> Holds(more, StreamNames);
  }
}
