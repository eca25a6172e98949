/**
 The outer pass: every fragment instance of a pipeline is expanded into the pipeline's own
 nodes and edges, and then all edges, old and new, are rewritten from public ports of
 fragments to the nodes behind them.
 */
module PipelineAssembly {
  import opened Wrappers
  import opened Document
  import opened References
  import opened FragmentExpansion

  datatype Instance = Instance(name: string, fragment: Fragment)

  datatype Pipeline = Pipeline(nodes: map<string, Value>, edges: seq<Edge>)

  datatype Assembly = Assembly(
    nodes: map<string, Value>, edges: seq<Edge>,
    inputs: map<string, PortMap>, outputs: map<string, PortMap>)

  function Absorb(assembly: Assembly, name: string, expanded: Expanded): Assembly
  {
    Assembly(assembly.nodes + expanded.nodes, assembly.edges + expanded.edges,
             assembly.inputs[name := expanded.inputs], assembly.outputs[name := expanded.outputs])
  }

  function Assemble(assembly: Assembly, fragments: seq<Instance>): Result<Assembly, ManifestError>
    decreases |fragments|
  {
    if fragments == [] then Ok(assembly)
    else
      var expanded :- Expand(fragments[0].name, fragments[0].fragment);
      if assembly.nodes.Keys * expanded.nodes.Keys != {} then Err(DuplicateNodes(fragments[0].name))
      else Assemble(Absorb(assembly, fragments[0].name, expanded), fragments[1..])
  }

  function ResolveOuter(assembly: Assembly, reference: string, source: bool): Result<string, ManifestError>
  {
    var cut := Partition(reference);
    var mappings := if source then assembly.outputs else assembly.inputs;
    if !cut.found || cut.head !in mappings then Ok(reference)
    else if cut.tail !in mappings[cut.head] then Err(NoPublicPort(reference))
    else Ok(mappings[cut.head][cut.tail])
  }

  function Reroute(assembly: Assembly, edges: seq<Edge>): Result<seq<Edge>, ManifestError>
  {
    if edges == [] then Ok([])
    else
      var source :- ResolveOuter(assembly, edges[0].source, true);
      var target :- ResolveOuter(assembly, edges[0].target, false);
      var rest :- Reroute(assembly, edges[1..]);
      Ok([Edge(source, target, edges[0].options)] + rest)
  }

  function Flatten(pipeline: Pipeline, fragments: seq<Instance>): Result<Pipeline, ManifestError>
  {
    var assembly :- Assemble(Assembly(pipeline.nodes, pipeline.edges, map[], map[]), fragments);
    var edges :- Reroute(assembly, assembly.edges);
    Ok(Pipeline(assembly.nodes, edges))
  }

  /** The loader's first loop: expand every fragment into the pipeline. */
  method ExpandInstances(start: Assembly, fragments: seq<Instance>) returns (result: Result<Assembly, ManifestError>)
    ensures result == Assemble(start, fragments)
  {
    var assembly := start;
    var i := 0;
    while i < |fragments|
      invariant 0 <= i <= |fragments|
      invariant Assemble(start, fragments) == Assemble(assembly, fragments[i..])
    {
      var expanded := Expand(fragments[i].name, fragments[i].fragment);
      if expanded.Err? {
        return Err(expanded.error);
      }
      if assembly.nodes.Keys * expanded.value.nodes.Keys != {} {
        return Err(DuplicateNodes(fragments[i].name));
      }
      assert fragments[i..][1..] == fragments[i + 1..];
      assembly := Absorb(assembly, fragments[i].name, expanded.value);
      i := i + 1;
    }
    result := Ok(assembly);
  }

  function Prepend(done: seq<Edge>, rest: Result<seq<Edge>, ManifestError>): Result<seq<Edge>, ManifestError>
  {
    match rest
    case Ok(edges) => Ok(done + edges)
    case Err(error) => Err(error)
  }

  /** The loader's second loop: overwrite both endpoints of every edge in turn. */
  method RewriteEdges(assembly: Assembly, original: seq<Edge>) returns (result: Result<seq<Edge>, ManifestError>)
    ensures result == Reroute(assembly, original)
  {
    var edges := original;
    var i := 0;
    PrependNothing(assembly, original);
    while i < |edges|
      invariant 0 <= i <= |edges| == |original|
      invariant edges[i..] == original[i..]
      invariant Reroute(assembly, original) == Prepend(edges[..i], Reroute(assembly, original[i..]))
    {
      var edge := edges[i];
      assert edge == original[i..][0] && original[i..][1..] == original[i + 1..];
      var source := ResolveOuter(assembly, edge.source, true);
      if source.Err? {
        return Err(source.error);
      }
      var target := ResolveOuter(assembly, edge.target, false);
      if target.Err? {
        return Err(target.error);
      }
      var rewritten := Edge(source.value, target.value, edge.options);
      PrependOne(edges[..i], rewritten, Reroute(assembly, original[i + 1..]));
      assert edges[i := rewritten][..i + 1] == edges[..i] + [rewritten];
      assert edges[i := rewritten][i + 1..] == edges[i..][1..];
      edges := edges[i := rewritten];
      i := i + 1;
    }
    assert original[i..] == [] && edges[..i] + [] == edges;
    result := Ok(edges);
  }

  lemma PrependNothing(assembly: Assembly, edges: seq<Edge>)
    ensures Reroute(assembly, edges) == Prepend(edges[..0], Reroute(assembly, edges[0..]))
  {
    assert edges[0..] == edges;
    var all := Reroute(assembly, edges);
    assert all.Ok? ==> edges[..0] + all.value == all.value;
  }

  lemma PrependOne(done: seq<Edge>, edge: Edge, rest: Result<seq<Edge>, ManifestError>)
    ensures Prepend(done, Prepend([edge], rest)) == Prepend(done + [edge], rest)
  {
    assert rest.Ok? ==> done + ([edge] + rest.value) == (done + [edge]) + rest.value;
  }

  method NormalizeAndExpand(pipeline: Pipeline, fragments: seq<Instance>)
    returns (result: Result<Pipeline, ManifestError>)
    ensures result == Flatten(pipeline, fragments)
  {
    var assembly :- ExpandInstances(Assembly(pipeline.nodes, pipeline.edges, map[], map[]), fragments);
    var edges :- RewriteEdges(assembly, assembly.edges);
    result := Ok(Pipeline(assembly.nodes, edges));
  }

  // ---------------------------------------------------------------- what flattening means

  function Find(fragments: seq<Instance>, name: string): Option<Fragment>
  {
    if fragments == [] then None
    else if fragments[0].name == name then Some(fragments[0].fragment)
    else Find(fragments[1..], name)
  }

  ghost predicate DistinctInstances(fragments: seq<Instance>)
  {
    forall i, j :: 0 <= i < j < |fragments| ==> fragments[i].name != fragments[j].name
  }

  ghost predicate AllWired(fragments: seq<Instance>)
  {
    forall i :: 0 <= i < |fragments| ==> WellWired(fragments[i].fragment)
  }

  // The wires of all fragments, fragment by fragment, as the flat graph writes them.
  ghost function FragmentEdges(fragments: seq<Instance>): seq<Edge>
    requires AllWired(fragments)
  {
    if fragments == [] then []
    else RenderWires(fragments[0].name, Wires(fragments[0].fragment)) + FragmentEdges(fragments[1..])
  }

  // Where an endpoint written in the pipeline itself ends: behind the public port of a
  // fragment, or where it was written; None when the fragment has no such port.
  function OuterEnd(fragments: seq<Instance>, reference: string, source: bool): Option<string>
  {
    var cut := Partition(reference);
    if !cut.found then Some(reference)
    else
      match Find(fragments, cut.head)
      case None => Some(reference)
      case Some(fragment) =>
        match PublicPort(if source then fragment.outputs else fragment.inputs, cut.tail)
        case None => None
        case Some(inner) =>
          match Follow(fragment, inner, source)
          case None => None
          case Some(end) => Some(Render(cut.head, end))
  }

  ghost predicate Rerouted(fragments: seq<Instance>, edges: seq<Edge>, result: seq<Edge>)
  {
    && |result| == |edges|
    && forall i :: 0 <= i < |edges| ==>
         && OuterEnd(fragments, edges[i].source, true) == Some(result[i].source)
         && OuterEnd(fragments, edges[i].target, false) == Some(result[i].target)
         && result[i].options == edges[i].options
  }

  ghost predicate EntryAgrees(name: string, found: Option<Fragment>, assembly: Assembly)
  {
    && (name in assembly.inputs <==> found.Some?)
    && (name in assembly.outputs <==> found.Some?)
    && (found.Some? ==>
          && PortsAgree(name, found.value, found.value.inputs, assembly.inputs[name], false)
          && PortsAgree(name, found.value, found.value.outputs, assembly.outputs[name], true))
  }

  ghost predicate AssemblyAgrees(fragments: seq<Instance>, assembly: Assembly)
  {
    forall name :: EntryAgrees(name, Find(fragments, name), assembly)
  }

  lemma {:induction false} FindAppend(fragments: seq<Instance>, last: Instance, name: string)
    ensures Find(fragments + [last], name) ==
            if Find(fragments, name).Some? then Find(fragments, name)
            else if last.name == name then Some(last.fragment) else None
  {
    if fragments != [] {
      assert (fragments + [last])[1..] == fragments[1..] + [last];
      FindAppend(fragments[1..], last, name);
    } else {
      assert fragments + [last] == [last] && [last][1..] == [];
    }
  }

  lemma {:induction false} FindMember(fragments: seq<Instance>, name: string)
    ensures Find(fragments, name).Some? <==> exists i :: 0 <= i < |fragments| && fragments[i].name == name
  {
    if fragments != [] && fragments[0].name != name {
      FindMember(fragments[1..], name);
      if i :| 0 <= i < |fragments| && fragments[i].name == name {
        assert fragments[1..][i - 1].name == name;
      }
    }
  }

  // Absorbing one more fragment keeps the port tables in agreement with the fragments read.
  lemma AbsorbAgrees(seen: seq<Instance>, next: Instance, assembly: Assembly)
    requires AssemblyAgrees(seen, assembly)
    requires Find(seen, next.name).None? && WellWired(next.fragment)
    ensures Expand(next.name, next.fragment).Ok?
    ensures AssemblyAgrees(seen + [next], Absorb(assembly, next.name, Expand(next.name, next.fragment).value))
  {
    ExpandPreservesConnectivity(next.name, next.fragment);
    var expanded := Expand(next.name, next.fragment).value;
    forall name
      ensures EntryAgrees(name, Find(seen + [next], name), Absorb(assembly, next.name, expanded))
    {
      FindAppend(seen, next, name);
      assert EntryAgrees(name, Find(seen, name), assembly);
    }
  }

  lemma {:induction false} FragmentEdgesAppend(seen: seq<Instance>, next: Instance)
    requires AllWired(seen + [next])
    ensures AllWired(seen)
    ensures WellWired(next.fragment)
    ensures FragmentEdges(seen + [next]) == FragmentEdges(seen) + RenderWires(next.name, Wires(next.fragment))
  {
    hide WellWired, RenderWires, Wires;
    assert (seen + [next])[|seen|] == next;
    assert forall i :: 0 <= i < |seen| ==> (seen + [next])[i] == seen[i];
    if seen == [] {
      assert seen + [next] == [next] && [next][1..] == [];
    } else {
      assert (seen + [next])[1..] == seen[1..] + [next];
      FragmentEdgesAppend(seen[1..], next);
    }
  }

  // What the loop has established once the fragments in seen are absorbed.
  ghost predicate Absorbed(pipeline: Pipeline, seen: seq<Instance>, assembly: Assembly)
  {
    AllWired(seen) && AssemblyAgrees(seen, assembly) && assembly.edges == pipeline.edges + FragmentEdges(seen)
  }

  lemma AbsorbStep(pipeline: Pipeline, seen: seq<Instance>, next: Instance, assembly: Assembly)
    requires Absorbed(pipeline, seen, assembly)
    requires Find(seen, next.name).None? && Expand(next.name, next.fragment).Ok?
    ensures Absorbed(pipeline, seen + [next], Absorb(assembly, next.name, Expand(next.name, next.fragment).value))
  {
    var expanded := Expand(next.name, next.fragment).value;
    assert WellWired(next.fragment) && expanded.edges == RenderWires(next.name, Wires(next.fragment)) by {
      ExpandPreservesConnectivity(next.name, next.fragment);
    }
    assert AllWired(seen + [next]) by {
      assert forall i :: 0 <= i < |seen| + 1 ==> (seen + [next])[i] == if i < |seen| then seen[i] else next;
    }
    assert AssemblyAgrees(seen + [next], Absorb(assembly, next.name, expanded)) by {
      AbsorbAgrees(seen, next, assembly);
    }
    FragmentEdgesAppend(seen, next);
    Associative(pipeline.edges, FragmentEdges(seen), expanded.edges);
  }

  lemma Associative<T>(a: seq<T>, b: seq<T>, c: seq<T>)
    ensures (a + b) + c == a + (b + c)
  {
  }

  /** Assembling appends the wires of every fragment and collects their public ports. */
  lemma {:induction false} AssembleMeans(pipeline: Pipeline, seen: seq<Instance>, todo: seq<Instance>,
          assembly: Assembly)
    requires DistinctInstances(seen + todo)
    requires Absorbed(pipeline, seen, assembly)
    requires Assemble(assembly, todo).Ok?
    ensures Absorbed(pipeline, seen + todo, Assemble(assembly, todo).value)
    decreases |todo|
  {
    hide Expand, WellWired, FragmentEdges;
    if todo == [] {
      assert seen + todo == seen;
    } else {
      var next, rest := todo[0], todo[1..];
      assert seen + todo == (seen + [next]) + rest;
      UnseenName(seen, next, rest);
      AbsorbStep(pipeline, seen, next, assembly);
      AssembleMeans(pipeline, seen + [next], rest,
                    Absorb(assembly, next.name, Expand(next.name, next.fragment).value));
    }
  }

  lemma UnseenName(seen: seq<Instance>, next: Instance, rest: seq<Instance>)
    requires DistinctInstances((seen + [next]) + rest)
    ensures Find(seen, next.name).None?
  {
    var all := (seen + [next]) + rest;
    FindMember(seen, next.name);
    assert all[|seen|] == next;
    assert forall i :: 0 <= i < |seen| ==> all[i] == seen[i];
  }

  lemma OuterMeans(fragments: seq<Instance>, assembly: Assembly, reference: string, source: bool)
    requires AssemblyAgrees(fragments, assembly)
    ensures var resolved := ResolveOuter(assembly, reference, source);
            var end := OuterEnd(fragments, reference, source);
            && (resolved.Ok? <==> end.Some?)
            && (resolved.Ok? ==> Some(resolved.value) == end)
  {
    var cut := Partition(reference);
    assert EntryAgrees(cut.head, Find(fragments, cut.head), assembly);
    if cut.found && Find(fragments, cut.head).Some? {
      var fragment := Find(fragments, cut.head).value;
      var mapping := if source then assembly.outputs[cut.head] else assembly.inputs[cut.head];
      assert cut.tail in mapping <==> PublicPort(if source then fragment.outputs else fragment.inputs, cut.tail).Some?;
    }
  }

  lemma {:induction false} RerouteMeans(fragments: seq<Instance>, assembly: Assembly, edges: seq<Edge>)
    requires AssemblyAgrees(fragments, assembly)
    ensures Reroute(assembly, edges).Ok? <==>
            forall e :: e in edges ==>
              OuterEnd(fragments, e.source, true).Some? && OuterEnd(fragments, e.target, false).Some?
    ensures Reroute(assembly, edges).Ok? ==> Rerouted(fragments, edges, Reroute(assembly, edges).value)
  {
    hide OuterEnd, ResolveOuter, AssemblyAgrees;
    if edges != [] {
      OuterMeans(fragments, assembly, edges[0].source, true);
      OuterMeans(fragments, assembly, edges[0].target, false);
      RerouteMeans(fragments, assembly, edges[1..]);
      assert edges[0] in edges && forall e :: e in edges <==> e == edges[0] || e in edges[1..];
    }
  }

  // ---------------------------------------------------------------- which endpoints the outer pass captures

  // What is written before the first dot of the reference names a fragment instance.
  predicate Captured(fragments: seq<Instance>, reference: string)
  {
    Partition(reference).found && Find(fragments, Partition(reference).head).Some?
  }

  /** The outer pass leaves a reference as it is exactly when it is not captured. */
  lemma StaysExactly(fragments: seq<Instance>, reference: string, source: bool)
    ensures OuterEnd(fragments, reference, source) == Some(reference) <==> !Captured(fragments, reference)
  {
    hide Follow, PublicPort, Find;
    var cut := Partition(reference);
    PartitionSplits(reference);
    var end := OuterEnd(fragments, reference, source);
    if Captured(fragments, reference) && end.Some? {
      assert reference[|cut.head|] == '.';
      var rest := RenderedBelow(fragments, reference, source);
      assert end.value[|cut.head|] == '_';
    }
  }

  // A captured reference goes to a node below the instance that captures it.
  lemma RenderedBelow(fragments: seq<Instance>, reference: string, source: bool) returns (rest: string)
    requires Captured(fragments, reference) && OuterEnd(fragments, reference, source).Some?
    ensures OuterEnd(fragments, reference, source).value == Qualify(Partition(reference).head, rest)
  {
    var head := Partition(reference).head;
    var fragment := Find(fragments, head).value;
    var inner := PublicPort(if source then fragment.outputs else fragment.inputs, Partition(reference).tail).value;
    var end := Follow(fragment, inner, source).value;
    rest := Join(end.path) + "." + end.port;
    assert Join(Inside(head, end.path)) == Qualify(head, Join(end.path));
    assert Qualify(head, Join(end.path)) + "." + end.port == Qualify(head, rest);
  }

  predicate DotFreePath(path: Path)
  {
    match path
    case Node(name) => '.' !in name
    case Inside(instance, rest) => '.' !in instance && DotFreePath(rest)
  }

  lemma {:induction false} DotFreeJoin(path: Path)
    requires DotFreePath(path)
    ensures '.' !in Join(path)
  {
    if path.Inside? {
      DotFreeJoin(path.rest);
    }
  }

  /** Below dot-free names: an endpoint stays exactly when no instance has the name of its expanded node. */
  lemma ExpandedEndpointStays(fragments: seq<Instance>, name: string, end: Endpoint, source: bool)
    requires '.' !in name && DotFreePath(end.path)
    ensures OuterEnd(fragments, Render(name, end), source) == Some(Render(name, end)) <==>
            Find(fragments, Join(Inside(name, end.path))).None?
  {
    var path := Inside(name, end.path);
    DotFreeJoin(path);
    PartitionOfReference(Join(path), end.port);
    StaysExactly(fragments, Render(name, end), source);
  }

  // What is followed is named by heads of references, so it has no dots.
  lemma {:induction false} FollowedIsDotFree(fragment: Fragment, reference: string, source: bool)
    requires Follow(fragment, reference, source).Some?
    ensures DotFreePath(Follow(fragment, reference, source).value.path)
    decreases fragment, 1
  {
    var cut := Partition(reference);
    PartitionSplits(reference);
    if cut.head !in fragment.nodes {
      FollowedBelowIsDotFree(fragment.nested, cut.head, cut.tail, source);
    }
  }

  lemma {:induction false} FollowedBelowIsDotFree(children: Children, name: string, port: string, source: bool)
    requires '.' !in name && FollowChild(children, name, port, source).Some?
    ensures DotFreePath(FollowChild(children, name, port, source).value.path)
    decreases children, 0
  {
    if children.name != name {
      FollowedBelowIsDotFree(children.rest, name, port, source);
    } else {
      var fragment := children.fragment;
      FollowedIsDotFree(fragment, PublicPort(if source then fragment.outputs else fragment.inputs, port).value, source);
    }
  }

  // The outer pass captures no end of an edge that comes from a fragment.
  ghost predicate Uncaptured(fragments: seq<Instance>)
    requires AllWired(fragments)
  {
    forall e :: e in FragmentEdges(fragments) ==> !Captured(fragments, e.source) && !Captured(fragments, e.target)
  }

  // No instance name contains "__" or ".".
  ghost predicate PlainInstances(fragments: seq<Instance>)
  {
    forall i :: 0 <= i < |fragments| ==> NoSeparator(fragments[i].name) && '.' !in fragments[i].name
  }

  /** Instance names without "__" and "." capture nothing. */
  lemma PlainNamesCaptureNothing(fragments: seq<Instance>)
    requires AllWired(fragments) && PlainInstances(fragments)
    ensures Uncaptured(fragments)
  {
    hide WellWired, FragmentEdges, Captured, NoSeparator;
    forall e | e in FragmentEdges(fragments)
      ensures !Captured(fragments, e.source) && !Captured(fragments, e.target)
    {
      var i, wire := FragmentEdgeIsWire(fragments, e);
      PlainEndStays(fragments, i, wire.source);
      PlainEndStays(fragments, i, wire.target);
    }
  }

  lemma PlainEndStays(fragments: seq<Instance>, i: nat, end: Endpoint)
    requires PlainInstances(fragments) && i < |fragments|
    ensures !Captured(fragments, Render(fragments[i].name, end))
  {
    var name, rest := fragments[i].name, Join(end.path) + "." + end.port;
    assert '.' !in name + "__";
    PartitionKeeps(name + "__", rest);
    assert Render(name, end) == (name + "__") + rest;
    var head := Partition(Render(name, end)).head;
    assert SeparatorAt(head, |name|);
    FindMember(fragments, head);
  }

  lemma {:induction false} FragmentEdgeIsWire(fragments: seq<Instance>, e: Edge) returns (i: nat, wire: Wire)
    requires AllWired(fragments) && e in FragmentEdges(fragments)
    ensures i < |fragments| && wire in Wires(fragments[i].fragment)
    ensures e == Edge(Render(fragments[i].name, wire.source), Render(fragments[i].name, wire.target), wire.options)
    decreases |fragments|
  {
    hide WellWired, Render;
    var own := RenderWires(fragments[0].name, Wires(fragments[0].fragment));
    if e in own {
      var k :| 0 <= k < |own| && own[k] == e;
      i, wire := 0, Wires(fragments[0].fragment)[k];
    } else {
      AllWiredSplit(fragments);
      var j, below := FragmentEdgeIsWire(fragments[1..], e);
      i, wire := j + 1, below;
    }
  }

  // Every endpoint of every wire is a node of the tree.
  lemma {:induction false} WiresEndInLeaves(fragment: Fragment)
    requires WellWired(fragment)
    ensures forall w :: w in Wires(fragment) ==> w.source.path in Leaves(fragment) && w.target.path in Leaves(fragment)
    decreases fragment
  {
    WiresBelowEndInLeaves(fragment.nested);
    forall e | e in fragment.edges
      ensures Follow(fragment, e.source, true).value.path in Leaves(fragment)
      ensures Follow(fragment, e.target, false).value.path in Leaves(fragment)
    {
      FollowReachesLeaf(fragment, e.source, true);
      FollowReachesLeaf(fragment, e.target, false);
    }
  }

  lemma {:induction false} WiresBelowEndInLeaves(children: Children)
    requires WellWiredChildren(children)
    ensures forall w :: w in WiresBelow(children) ==> w.source.path in LeavesBelow(children) && w.target.path in LeavesBelow(children)
    decreases children
  {
    if children.Child? {
      WiresEndInLeaves(children.fragment);
      WiresBelowEndInLeaves(children.rest);
      forall w | w in Under(children.name, Wires(children.fragment))
        ensures w.source.path in LeavesBelow(children) && w.target.path in LeavesBelow(children)
      {
        var inner :| inner in Wires(children.fragment) &&
          w == Wire(Within(children.name, inner.source), Within(children.name, inner.target), inner.options);
      }
    }
  }

  lemma ReroutedSplit(fragments: seq<Instance>, a: seq<Edge>, b: seq<Edge>, result: seq<Edge>)
    requires Rerouted(fragments, a + b, result)
    ensures |a| <= |result| && Rerouted(fragments, a, result[..|a|]) && Rerouted(fragments, b, result[|a|..])
  {
    hide OuterEnd;
    assert forall i :: 0 <= i < |a| ==> (a + b)[i] == a[i];
    assert forall i :: 0 <= i < |b| ==> (a + b)[|a| + i] == b[i];
  }

  lemma ReroutedStays(fragments: seq<Instance>, edges: seq<Edge>, result: seq<Edge>)
    requires Rerouted(fragments, edges, result)
    ensures result == edges <==>
            forall e :: e in edges ==> !Captured(fragments, e.source) && !Captured(fragments, e.target)
  {
    hide OuterEnd, Captured;
    forall i | 0 <= i < |edges|
      ensures result[i] == edges[i] <==> !Captured(fragments, edges[i].source) && !Captured(fragments, edges[i].target)
    {
      StaysExactly(fragments, edges[i].source, true);
      StaysExactly(fragments, edges[i].target, false);
    }
    assert forall i :: 0 <= i < |edges| ==> edges[i] in edges;
  }

  /**
   Flattening a whole pipeline: the result's edges are the pipeline's own edges, in order, with
   public ports of fragments replaced by the nodes behind them, followed by the wires of every
   fragment, each once.  The latter are exactly as the fragments resolved them if and only if
   none of their ends is captured.
   */
  lemma FlattenPreservesConnectivity(pipeline: Pipeline, fragments: seq<Instance>)
    requires DistinctInstances(fragments) && Flatten(pipeline, fragments).Ok?
    ensures AllWired(fragments)
    ensures var edges := Flatten(pipeline, fragments).value.edges;
            var own := |pipeline.edges|;
            && own <= |edges|
            && Rerouted(fragments, pipeline.edges, edges[..own])
            && Rerouted(fragments, FragmentEdges(fragments), edges[own..])
            && (edges[own..] == FragmentEdges(fragments) <==> Uncaptured(fragments))
  {
    hide Rerouted, WellWired, FragmentEdges, Expand, Captured;
    var start := Assembly(pipeline.nodes, pipeline.edges, map[], map[]);
    AssembledAt(pipeline, fragments, start);
    var assembly := Assemble(start, fragments).value;
    RerouteMeans(fragments, assembly, assembly.edges);
    var edges := Flatten(pipeline, fragments).value.edges;
    ReroutedSplit(fragments, pipeline.edges, FragmentEdges(fragments), edges);
    ReroutedStays(fragments, FragmentEdges(fragments), edges[|pipeline.edges|..]);
  }

  lemma AssembledAt(pipeline: Pipeline, fragments: seq<Instance>, start: Assembly)
    requires DistinctInstances(fragments) && start == Assembly(pipeline.nodes, pipeline.edges, map[], map[])
    requires Assemble(start, fragments).Ok?
    ensures Absorbed(pipeline, fragments, Assemble(start, fragments).value)
  {
    assert [] + fragments == fragments;
    assert pipeline.edges + FragmentEdges([]) == pipeline.edges;
    AssembleMeans(pipeline, [], fragments, start);
  }

  // ---------------------------------------------------------------- when flattening succeeds

  // No expanded node name is already taken when its fragment is absorbed.
  ghost predicate NoClash(nodes: map<string, Value>, fragments: seq<Instance>)
    decreases |fragments|
  {
    fragments == [] ||
    var added := Renamed(fragments[0].name, fragments[0].fragment);
    nodes.Keys * added.Keys == {} && NoClash(nodes + added, fragments[1..])
  }

  lemma {:induction false} AssembleSucceeds(assembly: Assembly, fragments: seq<Instance>)
    ensures Assemble(assembly, fragments).Ok? <==> AllWired(fragments) && NoClash(assembly.nodes, fragments)
    decreases |fragments|
  {
    hide Expand, WellWired, Renamed;
    if fragments != [] {
      var next, rest := fragments[0], fragments[1..];
      ExpandPreservesConnectivity(next.name, next.fragment);
      AllWiredSplit(fragments);
      if WellWired(next.fragment) {
        ExpansionRenames(next.name, next.fragment);
        var expanded := Expand(next.name, next.fragment).value;
        AssembleSucceeds(Absorb(assembly, next.name, expanded), rest);
      }
    }
  }

  lemma AllWiredSplit(fragments: seq<Instance>)
    requires fragments != []
    ensures AllWired(fragments) <==> WellWired(fragments[0].fragment) && AllWired(fragments[1..])
  {
    hide WellWired;
    assert forall i :: 0 <= i < |fragments| - 1 ==> fragments[1..][i] == fragments[i + 1];
    assert forall i :: 0 < i < |fragments| ==> fragments[i] == fragments[1..][i - 1];
  }

  ghost predicate EdgesEnd(fragments: seq<Instance>, edges: seq<Edge>)
  {
    forall e :: e in edges ==>
      OuterEnd(fragments, e.source, true).Some? && OuterEnd(fragments, e.target, false).Some?
  }

  /**
   Flattening succeeds exactly when every fragment is well wired, no expanded name is taken
   twice, and no end of an edge, of the pipeline or of a fragment, names an instance without
   naming one of its public ports.
   */
  lemma {:induction false} FlattenSucceeds(pipeline: Pipeline, fragments: seq<Instance>)
    requires DistinctInstances(fragments)
    ensures Flatten(pipeline, fragments).Ok? <==>
            && AllWired(fragments) && NoClash(pipeline.nodes, fragments)
            && EdgesEnd(fragments, pipeline.edges) && EdgesEnd(fragments, FragmentEdges(fragments))
  {
    hide WellWired, OuterEnd, Renamed, Expand, FragmentEdges;
    var start := Assembly(pipeline.nodes, pipeline.edges, map[], map[]);
    AssembleSucceeds(start, fragments);
    if AllWired(fragments) && NoClash(pipeline.nodes, fragments) {
      AssembledAt(pipeline, fragments, start);
      var assembly := Assemble(start, fragments).value;
      RerouteMeans(fragments, assembly, assembly.edges);
      var inner := FragmentEdges(fragments);
      assert forall e :: e in assembly.edges <==> e in pipeline.edges || e in inner;
    }
  }

  /** Where nothing is captured, only the own edges of the pipeline can lack a port. */
  lemma UncapturedEdgesEnd(fragments: seq<Instance>)
    requires AllWired(fragments) && Uncaptured(fragments)
    ensures EdgesEnd(fragments, FragmentEdges(fragments))
  {
    hide OuterEnd, FragmentEdges, WellWired, Captured;
    forall e | e in FragmentEdges(fragments)
      ensures OuterEnd(fragments, e.source, true).Some? && OuterEnd(fragments, e.target, false).Some?
    {
      StaysExactly(fragments, e.source, true);
      StaysExactly(fragments, e.target, false);
    }
  }

  /**
   With plain instance names the edges that fragments resolved need nothing: flattening succeeds
   exactly when every fragment is well wired, no expanded name is taken twice, and the own edges
   of the pipeline name existing public ports.
   */
  lemma PlainFlattenSucceeds(pipeline: Pipeline, fragments: seq<Instance>)
    requires DistinctInstances(fragments) && PlainInstances(fragments)
    ensures Flatten(pipeline, fragments).Ok? <==>
            AllWired(fragments) && NoClash(pipeline.nodes, fragments) && EdgesEnd(fragments, pipeline.edges)
  {
    hide Flatten, WellWired, NoClash, EdgesEnd, FragmentEdges, PlainInstances, Uncaptured;
    FlattenSucceeds(pipeline, fragments);
    if AllWired(fragments) {
      PlainNamesCaptureNothing(fragments);
      UncapturedEdgesEnd(fragments);
    }
  }

  // ---------------------------------------------------------------- the flat nodes

  // All entries of one table are entries of the other.
  ghost predicate Includes(all: map<string, Value>, some: map<string, Value>)
  {
    forall key :: key in some ==> Holds(all, key, some[key])
  }

  ghost predicate FromFragment(fragments: seq<Instance>, key: string)
  {
    exists i :: 0 <= i < |fragments| && key in Renamed(fragments[i].name, fragments[i].fragment)
  }

  lemma {:induction false} AssembledContents(assembly: Assembly, fragments: seq<Instance>)
    requires Assemble(assembly, fragments).Ok?
    ensures var nodes := Assemble(assembly, fragments).value.nodes;
            && Includes(nodes, assembly.nodes)
            && (forall i :: 0 <= i < |fragments| ==> Includes(nodes, Renamed(fragments[i].name, fragments[i].fragment)))
            && (forall key :: key in nodes ==> key in assembly.nodes || FromFragment(fragments, key))
    decreases |fragments|
  {
    hide Expand, Renamed;
    if fragments != [] {
      var next, rest := fragments[0], fragments[1..];
      ExpansionRenames(next.name, next.fragment);
      var added := Renamed(next.name, next.fragment);
      AssembledContents(Absorb(assembly, next.name, Expand(next.name, next.fragment).value), rest);
      var nodes := Assemble(assembly, fragments).value.nodes;
      assert Includes(nodes, assembly.nodes + added);
      assert forall key :: key in assembly.nodes && key in added ==> key in assembly.nodes.Keys * added.Keys;
      forall key | key in nodes && key !in assembly.nodes
        ensures FromFragment(fragments, key)
      {
        if key in added {
          assert key in Renamed(fragments[0].name, fragments[0].fragment);
        } else {
          var i :| 0 <= i < |rest| && key in Renamed(rest[i].name, rest[i].fragment);
          assert fragments[i + 1] == rest[i];
        }
      }
      forall i | 0 <= i < |fragments|
        ensures Includes(nodes, Renamed(fragments[i].name, fragments[i].fragment))
      {
        assert i > 0 ==> fragments[i] == rest[i - 1];
      }
    }
  }

  /**
   The nodes of a flat pipeline: its own nodes, each with its own configuration, and the expanded
   nodes of the fragments; where the leaves of a fragment have names of their own, each of them
   with the configuration of its leaf.  There are no others.
   */
  lemma FlatNodes(pipeline: Pipeline, fragments: seq<Instance>)
    requires Flatten(pipeline, fragments).Ok?
    ensures var nodes := Flatten(pipeline, fragments).value.nodes;
            && (forall name :: name in pipeline.nodes ==> name in nodes && nodes[name] == pipeline.nodes[name])
            && (forall i, p :: 0 <= i < |fragments| && p in Leaves(fragments[i].fragment)
                               && Keyed(fragments[i].fragment)
                               && NamesApart(fragments[i].name, Leaves(fragments[i].fragment).Keys) ==>
                  Holds(nodes, Join(Inside(fragments[i].name, p)), Leaves(fragments[i].fragment)[p]))
            && (forall key :: key in nodes ==> key in pipeline.nodes || ExpandedName(fragments, key))
  {
    hide Flatten, Leaves, Renamed, NamesApart, Keyed, Holds, Includes, FromFragment, ExpandedName;
    FlatContents(pipeline, fragments);
    var nodes := Flatten(pipeline, fragments).value.nodes;
    OwnNodesKept(nodes, pipeline.nodes);
    forall i, p | 0 <= i < |fragments| && p in Leaves(fragments[i].fragment) && Keyed(fragments[i].fragment)
                  && NamesApart(fragments[i].name, Leaves(fragments[i].fragment).Keys)
      ensures Holds(nodes, Join(Inside(fragments[i].name, p)), Leaves(fragments[i].fragment)[p])
    {
      FlatLeaf(nodes, fragments[i], p);
    }
    forall key | key in nodes && key !in pipeline.nodes
      ensures ExpandedName(fragments, key)
    {
      LeafOfName(fragments, key);
    }
  }

  lemma FlatContents(pipeline: Pipeline, fragments: seq<Instance>)
    requires Flatten(pipeline, fragments).Ok?
    ensures var nodes := Flatten(pipeline, fragments).value.nodes;
            && Includes(nodes, pipeline.nodes)
            && (forall i :: 0 <= i < |fragments| ==> Includes(nodes, Renamed(fragments[i].name, fragments[i].fragment)))
            && (forall key :: key in nodes ==> key in pipeline.nodes || FromFragment(fragments, key))
  {
    hide Includes, FromFragment, Renamed, Reroute;
    AssembledContents(Assembly(pipeline.nodes, pipeline.edges, map[], map[]), fragments);
  }

  lemma OwnNodesKept(nodes: map<string, Value>, own: map<string, Value>)
    requires Includes(nodes, own)
    ensures forall name :: name in own ==> name in nodes && nodes[name] == own[name]
  {
    assert forall name :: name in own ==> Holds(nodes, name, own[name]);
  }

  lemma FlatLeaf(nodes: map<string, Value>, instance: Instance, p: Path)
    requires Includes(nodes, Renamed(instance.name, instance.fragment)) && p in Leaves(instance.fragment)
    requires Keyed(instance.fragment) && NamesApart(instance.name, Leaves(instance.fragment).Keys)
    ensures Holds(nodes, Join(Inside(instance.name, p)), Leaves(instance.fragment)[p])
  {
    hide Leaves, Renamed, Keyed, NamesApart;
    ApartKeepsLeaf(instance.name, instance.fragment, p);
  }

  lemma LeafOfName(fragments: seq<Instance>, key: string)
    requires FromFragment(fragments, key)
    ensures ExpandedName(fragments, key)
  {
    hide Leaves, Renamed;
    var i :| 0 <= i < |fragments| && key in Renamed(fragments[i].name, fragments[i].fragment);
    var p := RenamedIsLeaf(fragments[i].name, fragments[i].fragment, key);
    assert LeafNamed(fragments[i], key, p);
  }

  ghost predicate LeafNamed(instance: Instance, key: string, p: Path)
  {
    p in Leaves(instance.fragment) && Join(Inside(instance.name, p)) == key
  }

  // Some leaf of some instance expands to the name.
  ghost predicate ExpandedName(fragments: seq<Instance>, key: string)
  {
    exists i, p :: 0 <= i < |fragments| && LeafNamed(fragments[i], key, p)
  }

  /** In particular with clean names: every leaf of every instance is a flat node, configured as it was. */
  lemma CleanFlatNodes(pipeline: Pipeline, fragments: seq<Instance>, i: nat, p: Path)
    requires Flatten(pipeline, fragments).Ok? && i < |fragments| && p in Leaves(fragments[i].fragment)
    requires CleanInstance(fragments[i].name) && CleanTree(fragments[i].fragment)
    ensures Holds(Flatten(pipeline, fragments).value.nodes, Join(Inside(fragments[i].name, p)), Leaves(fragments[i].fragment)[p])
  {
    hide Flatten, Leaves, CleanTree, Keyed, NamesApart, Holds;
    CleanIsKeyed(fragments[i].fragment);
    CleanNamesApart(fragments[i].name, fragments[i].fragment);
    FlatNodes(pipeline, fragments);
  }

  // The edges that the fragments are written with, fragment by fragment.
  function WrittenAll(fragments: seq<Instance>): seq<Edge>
  {
    if fragments == [] then [] else WrittenEdges(fragments[0].fragment) + WrittenAll(fragments[1..])
  }

  lemma {:induction false} AssembledOptions(assembly: Assembly, fragments: seq<Instance>)
    requires Assemble(assembly, fragments).Ok?
    ensures SameOptions(Assemble(assembly, fragments).value.edges, assembly.edges + WrittenAll(fragments))
    decreases |fragments|
  {
    hide Expand, WrittenEdges;
    if fragments != [] {
      var next, rest := fragments[0], fragments[1..];
      ExpansionKeepsOptions(next.name, next.fragment);
      AssembledOptions(Absorb(assembly, next.name, Expand(next.name, next.fragment).value), rest);
    }
  }

  lemma {:induction false} ReroutedOptions(assembly: Assembly, edges: seq<Edge>)
    requires Reroute(assembly, edges).Ok?
    ensures SameOptions(Reroute(assembly, edges).value, edges)
  {
    if edges != [] {
      ReroutedOptions(assembly, edges[1..]);
    }
  }

  /** A flat pipeline has the edges that it and its fragments are written with, as many and in order, with their options. */
  lemma FlatKeepsOptions(pipeline: Pipeline, fragments: seq<Instance>)
    requires Flatten(pipeline, fragments).Ok?
    ensures SameOptions(Flatten(pipeline, fragments).value.edges, pipeline.edges + WrittenAll(fragments))
  {
    hide Reroute, Assemble, WrittenAll;
    var start := Assembly(pipeline.nodes, pipeline.edges, map[], map[]);
    AssembledOptions(start, fragments);
    var assembly := Assemble(start, fragments).value;
    ReroutedOptions(assembly, assembly.edges);
  }

  /** When nothing is captured, every edge of every fragment is in the flat pipeline, between what it connects. */
  lemma FlatCarriesEdge(pipeline: Pipeline, fragments: seq<Instance>, i: nat, names: seq<string>, k: nat)
    requires DistinctInstances(fragments) && Flatten(pipeline, fragments).Ok?
    requires AllWired(fragments) ==> Uncaptured(fragments)
    requires i < |fragments| && Descend(fragments[i].fragment, names).Some?
    requires k < |Descend(fragments[i].fragment, names).value.edges|
    ensures var inner := Descend(fragments[i].fragment, names).value;
            Carried(DeepName(fragments[i].name, names), inner, inner.edges[k], Flatten(pipeline, fragments).value.edges)
  {
    hide Flatten, Expand, Carried, Descend, Uncaptured, FragmentEdges, Rerouted, WellWired;
    FlattenPreservesConnectivity(pipeline, fragments);
    var edges, own := Flatten(pipeline, fragments).value.edges, |pipeline.edges|;
    assert forall e :: e in edges[own..] ==> e in edges;
    ExpandPreservesConnectivity(fragments[i].name, fragments[i].fragment);
    EdgeIsCarried(fragments[i].name, fragments[i].fragment, names, k);
    FragmentEdgesInclude(fragments, i);
    var inner := Descend(fragments[i].fragment, names).value;
    CarriedOn(DeepName(fragments[i].name, names), inner, inner.edges[k],
              Expand(fragments[i].name, fragments[i].fragment).value.edges, edges);
  }

  lemma {:induction false} FragmentEdgesInclude(fragments: seq<Instance>, i: nat)
    requires AllWired(fragments) && i < |fragments|
    ensures forall e :: e in RenderWires(fragments[i].name, Wires(fragments[i].fragment)) ==> e in FragmentEdges(fragments)
    decreases |fragments|
  {
    hide WellWired, RenderWires, Wires;
    if i > 0 {
      AllWiredSplit(fragments);
      FragmentEdgesInclude(fragments[1..], i - 1);
      assert fragments[1..][i - 1] == fragments[i];
    }
  }

  /** An end f.p written in the pipeline goes to the node behind port p of fragment f: an output for a source, else an input. */
  lemma PublicEnd(fragments: seq<Instance>, name: string, port: string, inner: string, source: bool)
    requires '.' !in name && Find(fragments, name).Some?
    requires var fragment := Find(fragments, name).value;
             PublicPort(if source then fragment.outputs else fragment.inputs, port) == Some(inner)
    ensures var end := Follow(Find(fragments, name).value, inner, source);
            OuterEnd(fragments, name + "." + port, source) ==
            if end.None? then None else Some(Join(Inside(name, end.value.path)) + "." + end.value.port)
  {
    PartitionOfReference(name, port);
  }

  // ---------------------------------------------------------------- the ends of the flat edges

  // The reference is a port of an expanded node.
  ghost predicate NamesNode(nodes: map<string, Value>, reference: string)
  {
    exists name, end: Endpoint :: reference == Render(name, end) && Join(Inside(name, end.path)) in nodes
  }

  // Every expanded node of the fragments is among the nodes.
  ghost predicate Houses(nodes: map<string, Value>, fragments: seq<Instance>)
  {
    forall i :: 0 <= i < |fragments| ==> Renamed(fragments[i].name, fragments[i].fragment).Keys <= nodes.Keys
  }

  lemma {:induction false} AssembledNodes(assembly: Assembly, fragments: seq<Instance>)
    requires Assemble(assembly, fragments).Ok?
    ensures assembly.nodes.Keys <= Assemble(assembly, fragments).value.nodes.Keys
    ensures Houses(Assemble(assembly, fragments).value.nodes, fragments)
    decreases |fragments|
  {
    hide Expand, Renamed;
    if fragments != [] {
      var next := fragments[0];
      ExpansionRenames(next.name, next.fragment);
      AssembledNodes(Absorb(assembly, next.name, Expand(next.name, next.fragment).value), fragments[1..]);
    }
  }

  lemma FlatHouses(pipeline: Pipeline, fragments: seq<Instance>)
    requires Flatten(pipeline, fragments).Ok?
    ensures Houses(Flatten(pipeline, fragments).value.nodes, fragments)
  {
    AssembledNodes(Assembly(pipeline.nodes, pipeline.edges, map[], map[]), fragments);
  }

  lemma LeafIsNode(nodes: map<string, Value>, fragments: seq<Instance>, i: nat, end: Endpoint)
    requires Houses(nodes, fragments) && i < |fragments| && end.path in Leaves(fragments[i].fragment)
    ensures NamesNode(nodes, Render(fragments[i].name, end))
  {
    hide Render, Leaves, Renamed;
    LeafIsRenamed(fragments[i].name, fragments[i].fragment, end.path);
  }

  // A captured end leads to a node.
  lemma CapturedEndIsNode(nodes: map<string, Value>, fragments: seq<Instance>, reference: string, source: bool)
    requires Houses(nodes, fragments) && Captured(fragments, reference)
    requires OuterEnd(fragments, reference, source).Some?
    ensures NamesNode(nodes, OuterEnd(fragments, reference, source).value)
  {
    hide Houses, NamesNode, Render;
    var cut := Partition(reference);
    var fragment := Find(fragments, cut.head).value;
    var inner := PublicPort(if source then fragment.outputs else fragment.inputs, cut.tail).value;
    FollowReachesLeaf(fragment, inner, source);
    var i := FoundAt(fragments, cut.head);
    LeafIsNode(nodes, fragments, i, Follow(fragment, inner, source).value);
  }

  lemma {:induction false} FoundAt(fragments: seq<Instance>, name: string) returns (i: nat)
    requires Find(fragments, name).Some?
    ensures i < |fragments| && fragments[i] == Instance(name, Find(fragments, name).value)
  {
    if fragments[0].name == name {
      i := 0;
    } else {
      var j := FoundAt(fragments[1..], name);
      i := j + 1;
    }
  }

  lemma OwnEndIsNode(nodes: map<string, Value>, fragments: seq<Instance>, reference: string, source: bool)
    requires Houses(nodes, fragments) && OuterEnd(fragments, reference, source).Some?
    ensures var end := OuterEnd(fragments, reference, source).value;
            NamesNode(nodes, end) || (end == reference && !Captured(fragments, reference))
  {
    hide Houses, NamesNode, OuterEnd;
    StaysExactly(fragments, reference, source);
    if Captured(fragments, reference) {
      CapturedEndIsNode(nodes, fragments, reference, source);
    }
  }

  lemma WireEndsAreNodes(nodes: map<string, Value>, fragments: seq<Instance>, j: nat, wire: Wire)
    requires AllWired(fragments) && Houses(nodes, fragments)
    requires j < |fragments| && wire in Wires(fragments[j].fragment)
    ensures NamesNode(nodes, Render(fragments[j].name, wire.source))
    ensures NamesNode(nodes, Render(fragments[j].name, wire.target))
  {
    hide Houses, NamesNode, Wires;
    WiresEndInLeaves(fragments[j].fragment);
    LeafIsNode(nodes, fragments, j, wire.source);
    LeafIsNode(nodes, fragments, j, wire.target);
  }

  /**
   Every end of a flat edge is a port of a node of the flat graph, except for what the pipeline
   itself wrote and the outer pass did not capture.
   */
  lemma FlatEndsAreNodes(pipeline: Pipeline, fragments: seq<Instance>, i: nat)
    requires DistinctInstances(fragments) && Flatten(pipeline, fragments).Ok?
    requires i < |Flatten(pipeline, fragments).value.edges|
    ensures var flat := Flatten(pipeline, fragments).value;
            var plain := i < |pipeline.edges|;
            && (NamesNode(flat.nodes, flat.edges[i].source) ||
                (plain && flat.edges[i].source == pipeline.edges[i].source && !Captured(fragments, flat.edges[i].source)))
            && (NamesNode(flat.nodes, flat.edges[i].target) ||
                (plain && flat.edges[i].target == pipeline.edges[i].target && !Captured(fragments, flat.edges[i].target)))
  {
    hide Flatten, Houses, NamesNode, OuterEnd, Captured, FragmentEdges, WellWired;
    FlatHouses(pipeline, fragments);
    FlattenPreservesConnectivity(pipeline, fragments);
    var flat, own := Flatten(pipeline, fragments).value, |pipeline.edges|;
    if i < own {
      assert flat.edges[..own][i] == flat.edges[i];
      OwnEndIsNode(flat.nodes, fragments, pipeline.edges[i].source, true);
      OwnEndIsNode(flat.nodes, fragments, pipeline.edges[i].target, false);
    } else {
      var e := FragmentEdges(fragments)[i - own];
      assert flat.edges[own..][i - own] == flat.edges[i] && e in FragmentEdges(fragments);
      var j, wire := FragmentEdgeIsWire(fragments, e);
      WireEndsAreNodes(flat.nodes, fragments, j, wire);
      OwnEndIsNode(flat.nodes, fragments, e.source, true);
      OwnEndIsNode(flat.nodes, fragments, e.target, false);
    }
  }

  // ---------------------------------------------------------------- why instance names matter

  // A fragment f with an edge from node n to node m, beside a fragment named f__n with a public output.
  function Impostor(f: string, n: string, m: string, x: string, port: string): seq<Instance>
  {
    [Instance(f, Fragment(map[n := Null, m := Null], Empty, [Edge(n + "." + port, m + "." + port, Null)], [], [])),
     Instance(Qualify(f, n), Fragment(map[x := Null], Empty, [], [], [Port(port, x + "." + port)]))]
  }

  // The names of the example differ from each other.
  predicate Apart(f: string, n: string, m: string, x: string)
  {
    '.' !in f && '.' !in n && '.' !in m && '.' !in x && n != m && m != Qualify(n, x)
  }

  lemma ImpostorWires(f: string, n: string, m: string, x: string, port: string)
    requires Apart(f, n, m, x)
    ensures var fragments := Impostor(f, n, m, x, port);
            && AllWired(fragments)
            && FragmentEdges(fragments) ==
               [Edge(Render(f, Endpoint(Node(n), port)), Render(f, Endpoint(Node(m), port)), Null)]
  {
    var fragments := Impostor(f, n, m, x, port);
    var first, second := fragments[0].fragment, fragments[1].fragment;
    PartitionOfReference(n, port);
    PartitionOfReference(m, port);
    PartitionOfReference(x, port);
    assert Follow(first, n + "." + port, true) == Some(Endpoint(Node(n), port));
    assert Follow(first, m + "." + port, false) == Some(Endpoint(Node(m), port));
    assert Follow(second, x + "." + port, true) == Some(Endpoint(Node(x), port));
    assert Wires(first) == [Wire(Endpoint(Node(n), port), Endpoint(Node(m), port), Null)];
    assert Wires(second) == [];
    assert fragments[1..] == [fragments[1]] && fragments[1..][1..] == [];
    assert RenderWires(Qualify(f, n), []) == [] && FragmentEdges([]) == [];
    assert FragmentEdges(fragments[1..]) == [];
  }

  // The renamed nodes of a fragment without fragments of its own.
  lemma FlatNames(instance: string, fragment: Fragment, key: string) returns (name: string)
    requires fragment.nested.Empty? && key in Renamed(instance, fragment)
    ensures name in fragment.nodes && key == Qualify(instance, name)
  {
    assert key in Namespaced(instance, fragment.nodes);
    name :| name in fragment.nodes && key == Qualify(instance, name);
  }

  lemma ImpostorNodes(f: string, n: string, m: string, x: string, port: string)
    requires Apart(f, n, m, x)
    ensures NoClash(map[], Impostor(f, n, m, x, port))
  {
    hide Renamed;
    var fragments := Impostor(f, n, m, x, port);
    var first, second := fragments[0], fragments[1];
    assert fragments[1..] == [second] && [second][1..] == [];
    assert Qualify(Qualify(f, n), x) == Qualify(f, Qualify(n, x)) && |n| < |Qualify(n, x)|;
    forall key | key in Renamed(first.name, first.fragment)
      ensures key !in Renamed(second.name, second.fragment)
    {
      if key in Renamed(second.name, second.fragment) {
        var a := FlatNames(first.name, first.fragment, key);
        var b := FlatNames(second.name, second.fragment, key);
        QualifyInjective(f, a, Qualify(n, x));
      }
    }
    var added := Renamed(first.name, first.fragment);
    assert NoClash(map[] + added + Renamed(second.name, second.fragment), []);
    assert NoClash(map[] + added, [second]);
  }

  lemma ImpostorEnds(f: string, n: string, m: string, x: string, port: string)
    requires Apart(f, n, m, x)
    ensures var fragments := Impostor(f, n, m, x, port);
            && OuterEnd(fragments, Render(f, Endpoint(Node(n), port)), true)
               == Some(Render(Qualify(f, n), Endpoint(Node(x), port)))
            && OuterEnd(fragments, Render(f, Endpoint(Node(m), port)), false)
               == Some(Render(f, Endpoint(Node(m), port)))
  {
    var fragments := Impostor(f, n, m, x, port);
    var second := fragments[1].fragment;
    JoinQualify(f, n, Node(n));
    JoinQualify(f, m, Node(m));
    PartitionOfReference(Qualify(f, n), port);
    PartitionOfReference(x, port);
    assert f != Qualify(f, n) && f != Qualify(f, m) by {
      assert |f| < |Qualify(f, n)| && |f| < |Qualify(f, m)|;
    }
    if Qualify(f, m) == Qualify(f, n) {
      QualifyInjective(f, m, n);
    }
    assert fragments[1..] == [fragments[1]] && fragments[1..][1..] == [];
    assert Find(fragments, Qualify(f, n)) == Some(second);
    assert Find(fragments[1..], Qualify(f, m)) == Find(fragments[1..][1..], Qualify(f, m)) == None;
    assert Find(fragments, Qualify(f, m)) == None;
    assert Follow(second, x + "." + port, true) == Some(Endpoint(Node(x), port));
    ExpandedEndpointStays(fragments, f, Endpoint(Node(m), port), false);
  }

  /**
   An instance name that contains "__" can capture another fragment's node: in the flat graph the
   edge of fragment f from n to m starts at the node f__n__x instead.
   */
  lemma OuterPassRedirects(f: string, n: string, m: string, x: string, port: string)
    requires Apart(f, n, m, x)
    ensures var flat := Flatten(Pipeline(map[], []), Impostor(f, n, m, x, port));
            && flat.Ok?
            && flat.value.edges ==
               [Edge(Render(Qualify(f, n), Endpoint(Node(x), port)), Render(f, Endpoint(Node(m), port)), Null)]
            && flat.value.edges[0].source != Render(f, Endpoint(Node(n), port))
  {
    hide Flatten, OuterEnd, WellWired, FragmentEdges, NoClash, Render, Captured;
    var fragments := Impostor(f, n, m, x, port);
    var pipeline := Pipeline(map[], []);
    ImpostorWires(f, n, m, x, port);
    ImpostorNodes(f, n, m, x, port);
    ImpostorEnds(f, n, m, x, port);
    assert f != Qualify(f, n) by {
      assert |f| < |Qualify(f, n)|;
    }
    FlattenSucceeds(pipeline, fragments);
    FlattenPreservesConnectivity(pipeline, fragments);
    var edges := Flatten(pipeline, fragments).value.edges;
    assert edges[0..] == edges;
    StaysExactly(fragments, Render(f, Endpoint(Node(n), port)), true);
    CapturedImpostor(f, n, m, x, port);
  }

  lemma CapturedImpostor(f: string, n: string, m: string, x: string, port: string)
    requires Apart(f, n, m, x)
    ensures Captured(Impostor(f, n, m, x, port), Render(f, Endpoint(Node(n), port)))
  {
    var fragments := Impostor(f, n, m, x, port);
    JoinQualify(f, n, Node(n));
    PartitionOfReference(Qualify(f, n), port);
    assert |f| < |Qualify(f, n)|;
    assert fragments[1..] == [fragments[1]];
  }
}
