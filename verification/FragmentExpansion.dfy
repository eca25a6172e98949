/**
 Flattening of a tree of fragments into one graph.

 The first half is the expander: it works bottom-up on strings, renaming nodes to
 "instance__node" and replacing port references by already resolved ones.  The second half
 is the meaning of the tree, read top-down: an endpoint is a path of fragment instances that
 ends in a node, found by following public ports inwards.  The lemmas connect the two.
 */
module FragmentExpansion {
  import opened Wrappers
  import opened Document
  import opened References

  datatype Edge = Edge(source: string, target: string, options: Value)

  datatype Port = Port(name: string, reference: string)

  // A fragment document after loading.  Ports and children are listed in document order; as
  // keys of a mapping they occur once each.
  datatype Fragment = Fragment(
    nodes: map<string, Value>,
    nested: Children,
    edges: seq<Edge>,
    inputs: seq<Port>,
    outputs: seq<Port>)

  datatype Children = Empty | Child(name: string, fragment: Fragment, rest: Children)

  datatype ManifestError =
    | MissingPort(reference: string)
    | UnknownPort(reference: string)
    | DuplicateNodes(fragment: string)
    | NoPublicPort(reference: string)

  type PortMap = map<string, string>

  datatype Expanded = Expanded(
    nodes: map<string, Value>, edges: seq<Edge>, inputs: PortMap, outputs: PortMap)

  datatype ExpandedChildren = ExpandedChildren(
    nodes: map<string, Value>, edges: seq<Edge>,
    inputs: map<string, PortMap>, outputs: map<string, PortMap>)

  // ---------------------------------------------------------------- the expander

  function Namespaced(instance: string, nodes: map<string, Value>): (renamed: map<string, Value>)
    ensures forall name :: name in nodes ==>
              Qualify(instance, name) in renamed && renamed[Qualify(instance, name)] == nodes[name]
    ensures forall key :: key in renamed ==> exists name :: name in nodes && key == Qualify(instance, name)
  {
    assert forall a, b | a in nodes && b in nodes && Qualify(instance, a) == Qualify(instance, b) :: a == b by {
      forall a, b | a in nodes && b in nodes && Qualify(instance, a) == Qualify(instance, b)
        ensures a == b
      {
        QualifyInjective(instance, a, b);
      }
    }
    map name | name in nodes :: Qualify(instance, name) := nodes[name]
  }

  function Resolve(instance: string, nodes: map<string, Value>, kids: ExpandedChildren,
                   reference: string, source: bool): Result<string, ManifestError>
  {
    var cut := Partition(reference);
    var mappings := if source then kids.outputs else kids.inputs;
    if !cut.found then Err(MissingPort(reference))
    else if cut.head in nodes then Ok(Qualify(instance, cut.head) + "." + cut.tail)
    else if cut.head in mappings && cut.tail in mappings[cut.head] then Ok(mappings[cut.head][cut.tail])
    else Err(UnknownPort(reference))
  }

  function ResolveEdges(instance: string, nodes: map<string, Value>, kids: ExpandedChildren,
                        edges: seq<Edge>): Result<seq<Edge>, ManifestError>
  {
    if edges == [] then Ok([])
    else
      var source :- Resolve(instance, nodes, kids, edges[0].source, true);
      var target :- Resolve(instance, nodes, kids, edges[0].target, false);
      var rest :- ResolveEdges(instance, nodes, kids, edges[1..]);
      Ok([Edge(source, target, edges[0].options)] + rest)
  }

  function ResolvePorts(instance: string, nodes: map<string, Value>, kids: ExpandedChildren,
                        ports: seq<Port>, source: bool): Result<PortMap, ManifestError>
  {
    if ports == [] then Ok(map[])
    else
      var resolved :- Resolve(instance, nodes, kids, ports[0].reference, source);
      var rest :- ResolvePorts(instance, nodes, kids, ports[1..], source);
      Ok(rest[ports[0].name := resolved])
  }

  function Expand(instance: string, fragment: Fragment): Result<Expanded, ManifestError>
    decreases fragment
  {
    var kids :- ExpandChildren(instance, fragment.nested);
    var edges :- ResolveEdges(instance, fragment.nodes, kids, fragment.edges);
    var inputs :- ResolvePorts(instance, fragment.nodes, kids, fragment.inputs, false);
    var outputs :- ResolvePorts(instance, fragment.nodes, kids, fragment.outputs, true);
    Ok(Expanded(Namespaced(instance, fragment.nodes) + kids.nodes, kids.edges + edges, inputs, outputs))
  }

  function ExpandChildren(instance: string, children: Children): Result<ExpandedChildren, ManifestError>
    decreases children
  {
    match children
    case Empty => Ok(ExpandedChildren(map[], [], map[], map[]))
    case Child(name, fragment, rest) =>
      var head :- Expand(Qualify(instance, name), fragment);
      var tail :- ExpandChildren(instance, rest);
      Ok(ExpandedChildren(
           head.nodes + tail.nodes, head.edges + tail.edges,
           tail.inputs[name := head.inputs], tail.outputs[name := head.outputs]))
  }

  // ---------------------------------------------------------------- the meaning of the tree

  datatype Endpoint = Endpoint(path: Path, port: string)

  datatype Wire = Wire(source: Endpoint, target: Endpoint, options: Value)

  function PublicPort(ports: seq<Port>, name: string): Option<string>
  {
    if ports == [] then None
    else if ports[0].name == name then Some(ports[0].reference)
    else PublicPort(ports[1..], name)
  }

  // The node port that a reference written inside the fragment finally denotes.
  function Follow(fragment: Fragment, reference: string, source: bool): Option<Endpoint>
    decreases fragment, 1
  {
    var cut := Partition(reference);
    if !cut.found then None
    else if cut.head in fragment.nodes then Some(Endpoint(Node(cut.head), cut.tail))
    else FollowChild(fragment.nested, cut.head, cut.tail, source)
  }

  function FollowChild(children: Children, name: string, port: string, source: bool): Option<Endpoint>
    decreases children, 0
  {
    match children
    case Empty => None
    case Child(first, fragment, rest) =>
      if first != name then FollowChild(rest, name, port, source)
      else
        match PublicPort(if source then fragment.outputs else fragment.inputs, port)
        case None => None
        case Some(reference) =>
          match Follow(fragment, reference, source)
          case None => None
          case Some(inner) => Some(Within(name, inner))
  }

  // Every edge and every public port of the tree can be followed to a node.
  ghost predicate WellWired(fragment: Fragment)
  {
    && WellWiredChildren(fragment.nested)
    && (forall e :: e in fragment.edges ==>
          Follow(fragment, e.source, true).Some? && Follow(fragment, e.target, false).Some?)
    && (forall p :: p in fragment.inputs ==> Follow(fragment, p.reference, false).Some?)
    && (forall p :: p in fragment.outputs ==> Follow(fragment, p.reference, true).Some?)
  }

  ghost predicate WellWiredChildren(children: Children)
  {
    match children
    case Empty => true
    case Child(_, fragment, rest) => WellWired(fragment) && WellWiredChildren(rest)
  }

  // Every edge of the tree once, innermost fragments first, between the nodes it connects.
  ghost function Wires(fragment: Fragment): seq<Wire>
    requires WellWired(fragment)
    decreases fragment
  {
    WiresBelow(fragment.nested) + OwnWires(fragment, fragment.edges)
  }

  ghost function WiresBelow(children: Children): seq<Wire>
    requires WellWiredChildren(children)
    decreases children
  {
    match children
    case Empty => []
    case Child(name, fragment, rest) => Under(name, Wires(fragment)) + WiresBelow(rest)
  }

  ghost function OwnWires(fragment: Fragment, edges: seq<Edge>): seq<Wire>
    requires forall e :: e in edges ==>
      Follow(fragment, e.source, true).Some? && Follow(fragment, e.target, false).Some?
  {
    seq(|edges|, i requires 0 <= i < |edges| =>
      Wire(Follow(fragment, edges[i].source, true).value,
           Follow(fragment, edges[i].target, false).value,
           edges[i].options))
  }

  function Within(name: string, endpoint: Endpoint): Endpoint
  {
    Endpoint(Inside(name, endpoint.path), endpoint.port)
  }

  function Under(name: string, wires: seq<Wire>): seq<Wire>
  {
    seq(|wires|, i requires 0 <= i < |wires| =>
      Wire(Within(name, wires[i].source), Within(name, wires[i].target), wires[i].options))
  }

  // The nodes of the tree, each under the path of fragment instances that leads to it.
  function Leaves(fragment: Fragment): map<Path, Value>
  {
    OwnLeaves(fragment.nodes) + LeavesBelow(fragment.nested)
  }

  function LeavesBelow(children: Children): map<Path, Value>
  {
    match children
    case Empty => map[]
    case Child(name, fragment, rest) => LeavesBelow(rest) + LeavesUnder(name, Leaves(fragment))
  }

  function OwnLeaves(nodes: map<string, Value>): (leaves: map<Path, Value>)
    ensures forall p {:trigger p in leaves} :: p in leaves <==> p.Node? && p.name in nodes
    ensures forall p {:trigger leaves[p]} :: p in leaves ==> leaves[p] == nodes[p.name]
  {
    map name | name in nodes :: Node(name) := nodes[name]
  }

  function LeavesUnder(name: string, inner: map<Path, Value>): (leaves: map<Path, Value>)
    ensures forall p {:trigger p in leaves} :: p in leaves <==> p.Inside? && p.instance == name && p.rest in inner
    ensures forall p {:trigger leaves[p]} :: p in leaves ==> leaves[p] == inner[p.rest]
  {
    map p | p in inner :: Inside(name, p) := inner[p]
  }

  // How the flat graph writes an endpoint.
  function Render(instance: string, endpoint: Endpoint): string
  {
    Join(Inside(instance, endpoint.path)) + "." + endpoint.port
  }

  function RenderWires(instance: string, wires: seq<Wire>): seq<Edge>
  {
    seq(|wires|, i requires 0 <= i < |wires| =>
      Edge(Render(instance, wires[i].source), Render(instance, wires[i].target), wires[i].options))
  }

  // ---------------------------------------------------------------- flattening preserves connectivity

  ghost predicate PortsAgree(instance: string, fragment: Fragment, ports: seq<Port>, resolved: PortMap, source: bool)
  {
    forall port ::
      && (port in resolved <==> PublicPort(ports, port).Some?)
      && (port in resolved ==>
            var end := Follow(fragment, PublicPort(ports, port).value, source);
            end.Some? && resolved[port] == Render(instance, end.value))
  }

  ghost predicate ChildrenAgree(instance: string, children: Children, kids: ExpandedChildren)
  {
    forall name, port, source ::
      var mappings := if source then kids.outputs else kids.inputs;
      var end := FollowChild(children, name, port, source);
      && ((name in mappings && port in mappings[name]) <==> end.Some?)
      && (end.Some? ==> mappings[name][port] == Render(instance, end.value))
  }

  lemma ResolveFollows(instance: string, fragment: Fragment, kids: ExpandedChildren, reference: string, source: bool)
    requires ChildrenAgree(instance, fragment.nested, kids)
    ensures var resolved := Resolve(instance, fragment.nodes, kids, reference, source);
            var end := Follow(fragment, reference, source);
            && (resolved.Ok? <==> end.Some?)
            && (resolved.Ok? ==> resolved.value == Render(instance, end.value))
  {
    var cut := Partition(reference);
    if cut.found && cut.head in fragment.nodes {
      JoinQualify(instance, cut.head, Node(cut.head));
    } else if cut.found {
      var end := FollowChild(fragment.nested, cut.head, cut.tail, source);
    }
  }

  lemma {:induction false} EdgesFollow(instance: string, fragment: Fragment, kids: ExpandedChildren, edges: seq<Edge>)
    requires ChildrenAgree(instance, fragment.nested, kids)
    ensures var resolved := ResolveEdges(instance, fragment.nodes, kids, edges);
            && (resolved.Ok? <==>
                forall e :: e in edges ==>
                  Follow(fragment, e.source, true).Some? && Follow(fragment, e.target, false).Some?)
            && (resolved.Ok? ==> resolved.value == RenderWires(instance, OwnWires(fragment, edges)))
  {
    if edges != [] {
      ResolveFollows(instance, fragment, kids, edges[0].source, true);
      ResolveFollows(instance, fragment, kids, edges[0].target, false);
      EdgesFollow(instance, fragment, kids, edges[1..]);
      assert edges[0] in edges && forall e :: e in edges <==> e == edges[0] || e in edges[1..];
    }
  }

  lemma {:induction false} PortsFollow(instance: string, fragment: Fragment, kids: ExpandedChildren,
                                       ports: seq<Port>, source: bool)
    requires ChildrenAgree(instance, fragment.nested, kids)
    ensures var resolved := ResolvePorts(instance, fragment.nodes, kids, ports, source);
            && (resolved.Ok? <==> forall p :: p in ports ==> Follow(fragment, p.reference, source).Some?)
            && (resolved.Ok? ==> PortsAgree(instance, fragment, ports, resolved.value, source))
  {
    if ports != [] {
      ResolveFollows(instance, fragment, kids, ports[0].reference, source);
      PortsFollow(instance, fragment, kids, ports[1..], source);
      assert ports[0] in ports && forall p :: p in ports <==> p == ports[0] || p in ports[1..];
    }
  }

  // Every endpoint below a child is written the same way from the child and from its parent.
  lemma RenderWithin(instance: string, name: string, wires: seq<Wire>)
    ensures RenderWires(Qualify(instance, name), wires) == RenderWires(instance, Under(name, wires))
  {
    forall e: Endpoint
      ensures Render(Qualify(instance, name), e) == Render(instance, Within(name, e))
    {
      JoinQualify(instance, name, e.path);
    }
  }

  lemma RenderAppend(instance: string, a: seq<Wire>, b: seq<Wire>)
    ensures RenderWires(instance, a + b) == RenderWires(instance, a) + RenderWires(instance, b)
  {
  }

  /**
   Expansion succeeds exactly when the whole tree is well wired, and then its edges are the
   wires of the tree, each once and in order, with both endpoints renamed to the node reached
   by following public ports; the public ports name the nodes they lead to.
   */
  lemma {:induction false} ExpandPreservesConnectivity(instance: string, fragment: Fragment)
    ensures Expand(instance, fragment).Ok? <==> WellWired(fragment)
    ensures WellWired(fragment) ==>
              var expanded := Expand(instance, fragment).value;
              && expanded.edges == RenderWires(instance, Wires(fragment))
              && PortsAgree(instance, fragment, fragment.inputs, expanded.inputs, false)
              && PortsAgree(instance, fragment, fragment.outputs, expanded.outputs, true)
    decreases fragment, 1
  {
    ExpandBelowPreservesConnectivity(instance, fragment.nested);
    var kids := ExpandChildren(instance, fragment.nested);
    if kids.Ok? {
      ExpandLevel(instance, fragment, kids.value);
    }
  }

  // One level of the tree, given that the levels below agree.
  lemma ExpandLevel(instance: string, fragment: Fragment, kids: ExpandedChildren)
    requires WellWiredChildren(fragment.nested)
    requires ExpandChildren(instance, fragment.nested) == Ok(kids)
    requires ChildrenAgree(instance, fragment.nested, kids)
    requires kids.edges == RenderWires(instance, WiresBelow(fragment.nested))
    ensures Expand(instance, fragment).Ok? <==> WellWired(fragment)
    ensures WellWired(fragment) ==>
              var expanded := Expand(instance, fragment).value;
              && expanded.edges == RenderWires(instance, Wires(fragment))
              && PortsAgree(instance, fragment, fragment.inputs, expanded.inputs, false)
              && PortsAgree(instance, fragment, fragment.outputs, expanded.outputs, true)
  {
    EdgesFollow(instance, fragment, kids, fragment.edges);
    PortsFollow(instance, fragment, kids, fragment.inputs, false);
    PortsFollow(instance, fragment, kids, fragment.outputs, true);
    var edges := ResolveEdges(instance, fragment.nodes, kids, fragment.edges);
    var inputs := ResolvePorts(instance, fragment.nodes, kids, fragment.inputs, false);
    var outputs := ResolvePorts(instance, fragment.nodes, kids, fragment.outputs, true);
    assert WellWired(fragment) <==> edges.Ok? && inputs.Ok? && outputs.Ok?;
    if WellWired(fragment) {
      RenderAppend(instance, WiresBelow(fragment.nested), OwnWires(fragment, fragment.edges));
      var expanded := Expand(instance, fragment).value;
      assert expanded.edges == kids.edges + edges.value;
      assert expanded.inputs == inputs.value && expanded.outputs == outputs.value;
    }
  }

  lemma {:induction false} ExpandBelowPreservesConnectivity(instance: string, children: Children)
    ensures ExpandChildren(instance, children).Ok? <==> WellWiredChildren(children)
    ensures WellWiredChildren(children) ==>
              var expanded := ExpandChildren(instance, children).value;
              && expanded.edges == RenderWires(instance, WiresBelow(children))
              && ChildrenAgree(instance, children, expanded)
    decreases children, 0
  {
    match children
    case Empty =>
    case Child(name, fragment, rest) =>
      ExpandPreservesConnectivity(Qualify(instance, name), fragment);
      ExpandBelowPreservesConnectivity(instance, rest);
      if WellWiredChildren(children) {
        RenderWithin(instance, name, Wires(fragment));
        RenderAppend(instance, Under(name, Wires(fragment)), WiresBelow(rest));
        ChildAgrees(instance, children, Expand(Qualify(instance, name), fragment).value,
                    ExpandChildren(instance, rest).value);
      }
  }

  lemma ChildAgrees(instance: string, children: Children, head: Expanded, tail: ExpandedChildren)
    requires children.Child?
    requires PortsAgree(Qualify(instance, children.name), children.fragment, children.fragment.inputs, head.inputs, false)
    requires PortsAgree(Qualify(instance, children.name), children.fragment, children.fragment.outputs, head.outputs, true)
    requires ChildrenAgree(instance, children.rest, tail)
    requires WellWired(children.fragment)
    ensures ChildrenAgree(instance, children,
                          ExpandedChildren(head.nodes + tail.nodes, head.edges + tail.edges,
                                           tail.inputs[children.name := head.inputs],
                                           tail.outputs[children.name := head.outputs]))
  {
    var name, fragment := children.name, children.fragment;
    forall other, port, source: bool
      ensures var mappings := if source then tail.outputs[name := head.outputs] else tail.inputs[name := head.inputs];
              var end := FollowChild(children, other, port, source);
              && ((other in mappings && port in mappings[other]) <==> end.Some?)
              && (end.Some? ==> mappings[other][port] == Render(instance, end.value))
    {
      if other == name {
        var ports := if source then fragment.outputs else fragment.inputs;
        var mapping := if source then head.outputs else head.inputs;
        assert port in mapping <==> PublicPort(ports, port).Some?;
        if port in mapping {
          var inner := Follow(fragment, PublicPort(ports, port).value, source).value;
          JoinQualify(instance, name, inner.path);
        }
      } else {
        assert FollowChild(children, other, port, source) == FollowChild(children.rest, other, port, source);
      }
    }
  }

  // ---------------------------------------------------------------- no node is lost

  function ChildNames(children: Children): set<string>
  {
    match children
    case Empty => {}
    case Child(name, _, rest) => {name} + ChildNames(rest)
  }

  // Fragment names are clean, node names contain no "__", and a mapping has each key once.
  ghost predicate CleanTree(fragment: Fragment)
  {
    (forall name :: name in fragment.nodes ==> NoSeparator(name)) && CleanBelow(fragment.nested)
  }

  ghost predicate CleanBelow(children: Children)
  {
    match children
    case Empty => true
    case Child(name, fragment, rest) =>
      CleanInstance(name) && name !in ChildNames(rest) && CleanTree(fragment) && CleanBelow(rest)
  }

  // The node part of an expansion, which does not depend on the wiring.
  function Renamed(instance: string, fragment: Fragment): map<string, Value>
    decreases fragment
  {
    Namespaced(instance, fragment.nodes) + RenamedBelow(instance, fragment.nested)
  }

  function RenamedBelow(instance: string, children: Children): map<string, Value>
    decreases children
  {
    match children
    case Empty => map[]
    case Child(name, fragment, rest) => Renamed(Qualify(instance, name), fragment) + RenamedBelow(instance, rest)
  }

  lemma {:induction false} ExpansionRenames(instance: string, fragment: Fragment)
    requires Expand(instance, fragment).Ok?
    ensures Expand(instance, fragment).value.nodes == Renamed(instance, fragment)
    decreases fragment
  {
    ExpansionBelowRenames(instance, fragment.nested);
    var kids := ExpandChildren(instance, fragment.nested).value;
    assert Expand(instance, fragment).value.nodes == Namespaced(instance, fragment.nodes) + kids.nodes;
  }

  lemma {:induction false} ExpansionBelowRenames(instance: string, children: Children)
    requires ExpandChildren(instance, children).Ok?
    ensures ExpandChildren(instance, children).value.nodes == RenamedBelow(instance, children)
    decreases children
  {
    match children
    case Empty =>
    case Child(name, fragment, rest) =>
      ExpansionRenames(Qualify(instance, name), fragment);
      ExpansionBelowRenames(instance, rest);
  }

  /** Whatever the names are, each leaf of the tree names a node of the expansion. */
  lemma {:induction false} LeafIsRenamed(instance: string, fragment: Fragment, p: Path)
    requires p in Leaves(fragment)
    ensures Join(Inside(instance, p)) in Renamed(instance, fragment)
    decreases fragment
  {
    if p in LeavesBelow(fragment.nested) {
      LeafBelowIsRenamed(instance, fragment.nested, p);
    } else {
      JoinQualify(instance, p.name, p);
    }
  }

  lemma {:induction false} LeafBelowIsRenamed(instance: string, children: Children, p: Path)
    requires p in LeavesBelow(children)
    ensures Join(Inside(instance, p)) in RenamedBelow(instance, children)
    decreases children
  {
    if p in LeavesBelow(children.rest) {
      LeafBelowIsRenamed(instance, children.rest, p);
    } else {
      LeafIsRenamed(Qualify(instance, children.name), children.fragment, p.rest);
      JoinQualify(instance, children.name, p.rest);
    }
  }

  /** Conversely, each node of the expansion is named by a leaf of the tree. */
  lemma {:induction false} RenamedIsLeaf(instance: string, fragment: Fragment, key: string) returns (p: Path)
    requires key in Renamed(instance, fragment)
    ensures p in Leaves(fragment) && Join(Inside(instance, p)) == key
    decreases fragment
  {
    if key in RenamedBelow(instance, fragment.nested) {
      p := RenamedBelowIsLeaf(instance, fragment.nested, key);
    } else {
      var name :| name in fragment.nodes && Qualify(instance, name) == key;
      p := Node(name);
      JoinQualify(instance, name, p);
    }
  }

  lemma {:induction false} RenamedBelowIsLeaf(instance: string, children: Children, key: string) returns (p: Path)
    requires key in RenamedBelow(instance, children)
    ensures p in LeavesBelow(children) && Join(Inside(instance, p)) == key
    ensures p.Inside? && p.instance in ChildNames(children)
    decreases children
  {
    if key in RenamedBelow(instance, children.rest) {
      p := RenamedBelowIsLeaf(instance, children.rest, key);
    } else {
      var inner := RenamedIsLeaf(Qualify(instance, children.name), children.fragment, key);
      p := Inside(children.name, inner);
      JoinQualify(instance, children.name, inner);
    }
  }

  /** Following a reference always ends in a node of the tree, hence in a node of the expansion. */
  lemma {:induction false} FollowReachesLeaf(fragment: Fragment, reference: string, source: bool)
    requires Follow(fragment, reference, source).Some?
    ensures Follow(fragment, reference, source).value.path in Leaves(fragment)
    decreases fragment, 1
  {
    var cut := Partition(reference);
    if cut.head !in fragment.nodes {
      FollowChildReachesLeaf(fragment.nested, cut.head, cut.tail, source);
    }
  }

  lemma {:induction false} FollowChildReachesLeaf(children: Children, name: string, port: string, source: bool)
    requires FollowChild(children, name, port, source).Some?
    ensures FollowChild(children, name, port, source).value.path in LeavesBelow(children)
    decreases children, 0
  {
    if children.name != name {
      FollowChildReachesLeaf(children.rest, name, port, source);
    } else {
      var fragment := children.fragment;
      var reference := PublicPort(if source then fragment.outputs else fragment.inputs, port).value;
      FollowReachesLeaf(fragment, reference, source);
    }
  }

  lemma {:induction false} LeafPathClean(fragment: Fragment, p: Path)
    requires CleanTree(fragment) && p in Leaves(fragment)
    ensures CleanPath(p)
    decreases fragment
  {
    if p in LeavesBelow(fragment.nested) {
      LeafPathBelowClean(fragment.nested, p);
    }
  }

  lemma {:induction false} LeafPathBelowClean(children: Children, p: Path)
    requires CleanBelow(children) && p in LeavesBelow(children)
    ensures CleanPath(p) && p.Inside? && p.instance in ChildNames(children)
    decreases children
  {
    if p in LeavesBelow(children.rest) {
      LeafPathBelowClean(children.rest, p);
    } else {
      LeafPathClean(children.fragment, p.rest);
    }
  }

  ghost predicate Holds(nodes: map<string, Value>, key: string, config: Value)
  {
    key in nodes && nodes[key] == config
  }

  /** With clean names no expanded node overwrites another: each leaf keeps its own entry. */
  lemma {:induction false} ExpansionKeepsLeaf(context: Context, fragment: Fragment, p: Path)
    requires CleanContext(context) && CleanTree(fragment) && p in Leaves(fragment)
    ensures var instance := InstanceOf(context);
            Holds(Renamed(instance, fragment), Join(Inside(instance, p)), Leaves(fragment)[p])
    decreases fragment
  {
    var instance := InstanceOf(context);
    if p in LeavesBelow(fragment.nested) {
      ExpansionBelowKeepsLeaf(context, fragment.nested, p);
    } else {
      JoinQualify(instance, p.name, p);
      if Join(Inside(instance, p)) in RenamedBelow(instance, fragment.nested) {
        var q := RenamedBelowIsLeaf(instance, fragment.nested, Join(Inside(instance, p)));
        LeafPathBelowClean(fragment.nested, q);
        SameLeaf(context, p, q);
        assert false;
      }
    }
  }

  lemma {:induction false} ExpansionBelowKeepsLeaf(context: Context, children: Children, p: Path)
    requires CleanContext(context) && CleanBelow(children) && p in LeavesBelow(children)
    ensures var instance := InstanceOf(context);
            Holds(RenamedBelow(instance, children), Join(Inside(instance, p)), LeavesBelow(children)[p])
    decreases children
  {
    var instance := InstanceOf(context);
    if p !in LeavesUnder(children.name, Leaves(children.fragment)) {
      ExpansionBelowKeepsLeaf(context, children.rest, p);
    } else {
      ExpansionKeepsLeaf(Nested(context, children.name), children.fragment, p.rest);
      JoinQualify(instance, children.name, p.rest);
      if Join(Inside(instance, p)) in RenamedBelow(instance, children.rest) {
        var q := RenamedBelowIsLeaf(instance, children.rest, Join(Inside(instance, p)));
        LeafPathBelowClean(children.rest, q);
        LeafPathBelowClean(children, p);
        SameLeaf(context, p, q);
        assert false;
      }
    }
  }

  function NameOf(instance: string, p: Path): string
  {
    Join(Inside(instance, p))
  }

  // No two paths expand to one name.
  ghost predicate NamesApart(instance: string, paths: set<Path>)
  {
    forall p, q :: p in paths && q in paths && NameOf(instance, p) == NameOf(instance, q) ==> p == q
  }

  lemma {:induction false} NamesCounted(instance: string, paths: set<Path>)
    ensures var names := set p | p in paths :: NameOf(instance, p);
            |names| <= |paths| && (|names| == |paths| <==> NamesApart(instance, paths))
  {
    hide NameOf;
    var names := set p | p in paths :: NameOf(instance, p);
    if paths == {} {
      assert names == {};
    } else {
      var q :| q in paths;
      var fewer := paths - {q};
      var others := set p | p in fewer :: NameOf(instance, p);
      NamesCounted(instance, fewer);
      if NameOf(instance, q) in others {
        var p :| p in fewer && NameOf(instance, p) == NameOf(instance, q);
        assert names == others;
        assert !NamesApart(instance, paths);
      } else {
        assert names == others + {NameOf(instance, q)};
        assert NamesApart(instance, paths) <==> NamesApart(instance, fewer);
      }
    }
  }

  lemma RenamedNames(instance: string, fragment: Fragment)
    ensures Renamed(instance, fragment).Keys == set p | p in Leaves(fragment) :: NameOf(instance, p)
  {
    forall p | p in Leaves(fragment)
      ensures NameOf(instance, p) in Renamed(instance, fragment)
    {
      LeafIsRenamed(instance, fragment, p);
    }
    forall key | key in Renamed(instance, fragment)
      ensures exists p :: p in Leaves(fragment) && NameOf(instance, p) == key
    {
      var p := RenamedIsLeaf(instance, fragment, key);
      assert NameOf(instance, p) == key;
    }
  }

  /** An expansion has as many nodes as the tree exactly when no two leaves expand to one name, and never more. */
  lemma ExpansionCountsExactly(instance: string, fragment: Fragment)
    requires Expand(instance, fragment).Ok?
    ensures |Expand(instance, fragment).value.nodes| <= |Leaves(fragment)|
    ensures |Expand(instance, fragment).value.nodes| == |Leaves(fragment)| <==> NamesApart(instance, Leaves(fragment).Keys)
  {
    hide Renamed, Leaves, NameOf;
    ExpansionRenames(instance, fragment);
    RenamedNames(instance, fragment);
    NamesCounted(instance, Leaves(fragment).Keys);
    var nodes, paths := Renamed(instance, fragment), Leaves(fragment).Keys;
    assert |nodes| == |nodes.Keys| && |Leaves(fragment)| == |paths|;
    assert nodes.Keys == set p | p in paths :: NameOf(instance, p);
  }

  /** The expansion of a clean tree has exactly as many nodes as the tree. */
  lemma ExpansionCountsNodes(instance: string, fragment: Fragment)
    requires CleanInstance(instance) && CleanTree(fragment)
    requires Expand(instance, fragment).Ok?
    ensures |Expand(instance, fragment).value.nodes| == |Leaves(fragment)|
  {
    ExpansionCountsExactly(instance, fragment);
    CleanNamesApart(instance, fragment);
  }

  // A node called x__y beside a child x that has a node y.
  function Colliding(x: string, y: string, own: Value, inner: Value): Fragment
  {
    Fragment(map[Qualify(x, y) := own], Child(x, Fragment(map[y := inner], Empty, [], [], []), Empty), [], [], [])
  }

  /** Its expansion is left with one of the two nodes, the inner one. */
  lemma CollidingLosesNode(instance: string, x: string, y: string, own: Value, inner: Value)
    ensures var fragment := Colliding(x, y, own, inner);
            && Expand(instance, fragment).Ok?
            && Expand(instance, fragment).value.nodes == map[Qualify(instance, Qualify(x, y)) := inner]
            && Leaves(fragment).Keys == {Node(Qualify(x, y)), Inside(x, Node(y))}
  {
    hide Qualify, Renamed, Expand, WellWired;
    var fragment := Colliding(x, y, own, inner);
    CollidingIsWired(x, y, own, inner);
    ExpandPreservesConnectivity(instance, fragment);
    ExpansionRenames(instance, fragment);
    QualifyTwice(instance, x, y);
    assert Leaves(fragment.nested.fragment).Keys == {Node(y)};
    CollidingRenamed(instance, x, y, own, inner);
  }

  lemma CollidingIsWired(x: string, y: string, own: Value, inner: Value)
    ensures WellWired(Colliding(x, y, own, inner))
  {
    hide Follow;
    var fragment := Colliding(x, y, own, inner);
    assert WellWired(fragment.nested.fragment) && WellWiredChildren(Empty);
    assert WellWiredChildren(fragment.nested);
  }

  lemma CollidingRenamed(instance: string, x: string, y: string, own: Value, inner: Value)
    ensures Renamed(instance, Colliding(x, y, own, inner)) == map[Qualify(Qualify(instance, x), y) := inner]
  {
    hide Qualify;
    var fragment := Colliding(x, y, own, inner);
    QualifyTwice(instance, x, y);
    assert Renamed(Qualify(instance, x), fragment.nested.fragment) == map[Qualify(Qualify(instance, x), y) := inner];
    assert RenamedBelow(instance, fragment.nested) == map[Qualify(Qualify(instance, x), y) := inner];
  }

  lemma QualifyTwice(a: string, b: string, c: string)
    ensures Qualify(Qualify(a, b), c) == Qualify(a, Qualify(b, c))
  {
  }

  // ---------------------------------------------------------------- node configurations, for any names

  // Each fragment is under its own name, as keys of a mapping are.
  ghost predicate Keyed(fragment: Fragment)
  {
    KeyedBelow(fragment.nested)
  }

  ghost predicate KeyedBelow(children: Children)
  {
    match children
    case Empty => true
    case Child(name, fragment, rest) => name !in ChildNames(rest) && Keyed(fragment) && KeyedBelow(rest)
  }

  /** Each node of the expansion has the configuration of a leaf that expands to its name. */
  lemma {:induction false} RenamedIsConfigured(instance: string, fragment: Fragment, key: string) returns (p: Path)
    requires Keyed(fragment) && key in Renamed(instance, fragment)
    ensures p in Leaves(fragment) && NameOf(instance, p) == key && Renamed(instance, fragment)[key] == Leaves(fragment)[p]
    decreases fragment
  {
    if key in RenamedBelow(instance, fragment.nested) {
      p := RenamedBelowIsConfigured(instance, fragment.nested, key);
    } else {
      var name :| name in fragment.nodes && Qualify(instance, name) == key;
      p := Node(name);
      JoinQualify(instance, name, p);
      LeavesAreInside(fragment.nested);
    }
  }

  lemma {:induction false} RenamedBelowIsConfigured(instance: string, children: Children, key: string) returns (p: Path)
    requires KeyedBelow(children) && key in RenamedBelow(instance, children)
    ensures p in LeavesBelow(children) && NameOf(instance, p) == key
    ensures RenamedBelow(instance, children)[key] == LeavesBelow(children)[p]
    ensures p.Inside? && p.instance in ChildNames(children)
    decreases children
  {
    if key in RenamedBelow(instance, children.rest) {
      p := RenamedBelowIsConfigured(instance, children.rest, key);
    } else {
      var inner := RenamedIsConfigured(Qualify(instance, children.name), children.fragment, key);
      p := Inside(children.name, inner);
      JoinQualify(instance, children.name, inner);
    }
  }

  lemma {:induction false} LeavesAreInside(children: Children)
    ensures forall p :: p in LeavesBelow(children) ==> p.Inside?
    decreases children
  {
    if children.Child? {
      LeavesAreInside(children.rest);
    }
  }

  /** When no two leaves expand to one name, every leaf keeps its own configuration. */
  lemma ApartKeepsLeaf(instance: string, fragment: Fragment, p: Path)
    requires Keyed(fragment) && NamesApart(instance, Leaves(fragment).Keys) && p in Leaves(fragment)
    ensures Holds(Renamed(instance, fragment), NameOf(instance, p), Leaves(fragment)[p])
  {
    hide Renamed, Leaves;
    LeafIsRenamed(instance, fragment, p);
    var q := RenamedIsConfigured(instance, fragment, NameOf(instance, p));
    assert p == q;
  }

  lemma {:induction false} CleanIsKeyed(fragment: Fragment)
    requires CleanTree(fragment)
    ensures Keyed(fragment)
    decreases fragment
  {
    CleanIsKeyedBelow(fragment.nested);
  }

  lemma {:induction false} CleanIsKeyedBelow(children: Children)
    requires CleanBelow(children)
    ensures KeyedBelow(children)
    decreases children
  {
    if children.Child? {
      CleanIsKeyed(children.fragment);
      CleanIsKeyedBelow(children.rest);
    }
  }

  lemma CleanNamesApart(instance: string, fragment: Fragment)
    requires CleanInstance(instance) && CleanTree(fragment)
    ensures NamesApart(instance, Leaves(fragment).Keys)
  {
    hide Leaves, CleanTree;
    forall p, q | p in Leaves(fragment) && q in Leaves(fragment) && NameOf(instance, p) == NameOf(instance, q)
      ensures p == q
    {
      LeafPathClean(fragment, p);
      LeafPathClean(fragment, q);
      SameLeaf(Top(instance), p, q);
    }
  }

  // ---------------------------------------------------------------- what references and edges become

  function ChildNamed(children: Children, name: string): Option<Fragment>
  {
    match children
    case Empty => None
    case Child(first, fragment, rest) => if first == name then Some(fragment) else ChildNamed(rest, name)
  }

  /** A reference to a node of the fragment itself stays there. */
  lemma FollowOwnNode(fragment: Fragment, name: string, port: string, source: bool)
    requires '.' !in name && name in fragment.nodes
    ensures Follow(fragment, name + "." + port, source) == Some(Endpoint(Node(name), port))
  {
    PartitionOfReference(name, port);
  }

  /** A reference to a nested fragment goes on from the public port of that name: an output for a source, else an input. */
  lemma {:induction false} FollowPublicPort(fragment: Fragment, name: string, port: string, inner: string, source: bool)
    requires '.' !in name && name !in fragment.nodes && ChildNamed(fragment.nested, name).Some?
    requires var child := ChildNamed(fragment.nested, name).value;
             PublicPort(if source then child.outputs else child.inputs, port) == Some(inner)
    ensures var end := Follow(ChildNamed(fragment.nested, name).value, inner, source);
            Follow(fragment, name + "." + port, source) ==
            if end.None? then None else Some(Endpoint(Inside(name, end.value.path), end.value.port))
  {
    PartitionOfReference(name, port);
    FollowChildNamed(fragment.nested, name, port, inner, source);
  }

  lemma {:induction false} FollowChildNamed(children: Children, name: string, port: string, inner: string, source: bool)
    requires ChildNamed(children, name).Some?
    requires var child := ChildNamed(children, name).value;
             PublicPort(if source then child.outputs else child.inputs, port) == Some(inner)
    ensures var end := Follow(ChildNamed(children, name).value, inner, source);
            FollowChild(children, name, port, source) ==
            if end.None? then None else Some(Endpoint(Inside(name, end.value.path), end.value.port))
    decreases children
  {
    hide Follow;
    if children.name != name {
      FollowChildNamed(children.rest, name, port, inner, source);
    }
  }

  // The fragment reached from another one through instance names, and the name it is expanded under.
  function Descend(fragment: Fragment, names: seq<string>): Option<Fragment>
    decreases |names|
  {
    if names == [] then Some(fragment)
    else
      match ChildNamed(fragment.nested, names[0])
      case None => None
      case Some(child) => Descend(child, names[1..])
  }

  function DeepName(instance: string, names: seq<string>): string
    decreases |names|
  {
    if names == [] then instance else DeepName(Qualify(instance, names[0]), names[1..])
  }

  // An edge of a fragment as the flat graph has it, when both ends lead somewhere.
  ghost predicate Carried(instance: string, fragment: Fragment, edge: Edge, edges: seq<Edge>)
  {
    var source, target := Follow(fragment, edge.source, true), Follow(fragment, edge.target, false);
    source.Some? && target.Some? &&
    Edge(Render(instance, source.value), Render(instance, target.value), edge.options) in edges
  }

  /** Every edge of every fragment of the tree is in the expansion, between what it connects, with its own options. */
  lemma {:induction false} EdgeIsCarried(instance: string, fragment: Fragment, names: seq<string>, k: nat)
    requires Expand(instance, fragment).Ok? && Descend(fragment, names).Some?
    requires k < |Descend(fragment, names).value.edges|
    ensures var inner := Descend(fragment, names).value;
            Carried(DeepName(instance, names), inner, inner.edges[k], Expand(instance, fragment).value.edges)
    decreases |names|
  {
    hide Render, Follow;
    if names == [] {
      OwnEdgeIsCarried(instance, fragment, k);
    } else {
      hide ResolveEdges, ResolvePorts, Carried;
      ChildEdges(instance, fragment.nested, names[0]);
      var child := ChildNamed(fragment.nested, names[0]).value;
      EdgeIsCarried(Qualify(instance, names[0]), child, names[1..], k);
      var inner := Descend(fragment, names).value;
      CarriedOn(DeepName(instance, names), inner, inner.edges[k], Expand(Qualify(instance, names[0]), child).value.edges,
                Expand(instance, fragment).value.edges);
    }
  }

  lemma OwnEdgeIsCarried(instance: string, fragment: Fragment, k: nat)
    requires Expand(instance, fragment).Ok? && k < |fragment.edges|
    ensures Carried(instance, fragment, fragment.edges[k], Expand(instance, fragment).value.edges)
  {
    hide Render, Follow, Expand, WiresBelow;
    ExpandPreservesConnectivity(instance, fragment);
    var below, own := WiresBelow(fragment.nested), OwnWires(fragment, fragment.edges);
    assert fragment.edges[k] in fragment.edges;
    assert RenderWires(instance, below + own)[|below| + k] in RenderWires(instance, below + own);
  }

  lemma CarriedOn(instance: string, fragment: Fragment, edge: Edge, some: seq<Edge>, all: seq<Edge>)
    requires Carried(instance, fragment, edge, some) && forall e :: e in some ==> e in all
    ensures Carried(instance, fragment, edge, all)
  {
  }

  lemma {:induction false} ChildEdges(instance: string, children: Children, name: string)
    requires ExpandChildren(instance, children).Ok? && ChildNamed(children, name).Some?
    ensures var expanded := Expand(Qualify(instance, name), ChildNamed(children, name).value);
            expanded.Ok? && forall e :: e in expanded.value.edges ==> e in ExpandChildren(instance, children).value.edges
    decreases children
  {
    hide Expand;
    if children.name != name {
      ChildEdges(instance, children.rest, name);
    }
  }

  // All edges of the tree as they are written, innermost fragments first.
  function WrittenEdges(fragment: Fragment): seq<Edge>
    decreases fragment
  {
    WrittenBelow(fragment.nested) + fragment.edges
  }

  function WrittenBelow(children: Children): seq<Edge>
    decreases children
  {
    match children
    case Empty => []
    case Child(_, fragment, rest) => WrittenEdges(fragment) + WrittenBelow(rest)
  }

  ghost predicate SameOptions(a: seq<Edge>, b: seq<Edge>)
  {
    |a| == |b| && forall i :: 0 <= i < |a| ==> a[i].options == b[i].options
  }

  /** The expansion has exactly the edges that the tree is written with, as many and in order, with their options. */
  lemma {:induction false} ExpansionKeepsOptions(instance: string, fragment: Fragment)
    requires Expand(instance, fragment).Ok?
    ensures SameOptions(Expand(instance, fragment).value.edges, WrittenEdges(fragment))
    decreases fragment
  {
    ExpansionBelowKeepsOptions(instance, fragment.nested);
    var kids := ExpandChildren(instance, fragment.nested).value;
    ResolvedOptions(instance, fragment.nodes, kids, fragment.edges);
  }

  lemma {:induction false} ExpansionBelowKeepsOptions(instance: string, children: Children)
    requires ExpandChildren(instance, children).Ok?
    ensures SameOptions(ExpandChildren(instance, children).value.edges, WrittenBelow(children))
    decreases children
  {
    if children.Child? {
      ExpansionKeepsOptions(Qualify(instance, children.name), children.fragment);
      ExpansionBelowKeepsOptions(instance, children.rest);
    }
  }

  lemma {:induction false} ResolvedOptions(instance: string, nodes: map<string, Value>, kids: ExpandedChildren, edges: seq<Edge>)
    requires ResolveEdges(instance, nodes, kids, edges).Ok?
    ensures SameOptions(ResolveEdges(instance, nodes, kids, edges).value, edges)
  {
    if edges != [] {
      ResolvedOptions(instance, nodes, kids, edges[1..]);
    }
  }
}
