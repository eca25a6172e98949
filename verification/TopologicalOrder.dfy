/** Scheduling order of an execution plan: Kahn's algorithm over the local edges of a manifest. */
module TopologicalOrder {
  import opened References
  import opened Graph

  // transported: the edge has a transport, so it is not a local scheduling dependency.
  datatype Edge = Edge(source: string, target: string, transported: bool)

  function NodeOf(reference: string): string
  {
    Partition(reference).head
  }

  // The scheduling dependencies in document order, parallel ones repeated.
  function Links(edges: seq<Edge>): seq<Arc>
  {
    if edges == [] then []
    else
      var link := Arc(NodeOf(edges[0].source), NodeOf(edges[0].target));
      (if edges[0].transported || link.from == link.to then [] else [link]) + Links(edges[1..])
  }

  function Arcs(links: seq<Arc>): set<Arc>
  {
    set a | a in links
  }

  // How often a name occurs.
  function Count(names: seq<string>, n: string): nat
  {
    if names == [] then 0 else (if names[0] == n then 1 else 0) + Count(names[1..], n)
  }

  function Targets(links: seq<Arc>, from: string): seq<string>
  {
    if links == [] then []
    else (if links[0].from == from then [links[0].to] else []) + Targets(links[1..], from)
  }

  // How many links into n come from nodes that are not done yet.
  function Pending(links: seq<Arc>, done: set<string>, n: string): nat
  {
    if links == [] then 0
    else (if links[0].to == n && links[0].from !in done then 1 else 0) + Pending(links[1..], done, n)
  }

  lemma {:induction false} PendingZero(links: seq<Arc>, done: set<string>, n: string)
    ensures Pending(links, done, n) == 0 <==> forall a :: a in links && a.to == n ==> a.from in done
  {
    if links != [] {
      PendingZero(links[1..], done, n);
      assert forall a :: a in links <==> a == links[0] || a in links[1..];
    }
  }

  lemma {:induction false} PendingDone(links: seq<Arc>, done: set<string>, name: string, n: string)
    requires name !in done
    ensures Pending(links, done, n) == Pending(links, done + {name}, n) + Count(Targets(links, name), n)
  {
    if links != [] {
      PendingDone(links[1..], done, name, n);
      var rest := Targets(links[1..], name);
      assert ([links[0].to] + rest)[1..] == rest && [] + rest == rest;
      assert Count([links[0].to] + rest, n) == (if links[0].to == n then 1 else 0) + Count(rest, n);
    }
  }

  lemma {:induction false} CountAppend(names: seq<string>, last: string, n: string)
    ensures Count(names + [last], n) == Count(names, n) + if last == n then 1 else 0
  {
    if names != [] {
      assert (names + [last])[1..] == names[1..] + [last];
      CountAppend(names[1..], last, n);
    } else {
      assert names + [last] == [last] && [last][1..] == [];
    }
  }

  lemma {:induction false} PendingAppend(links: seq<Arc>, last: Arc, done: set<string>, n: string)
    ensures Pending(links + [last], done, n) ==
            Pending(links, done, n) + if last.to == n && last.from !in done then 1 else 0
  {
    if links != [] {
      assert (links + [last])[1..] == links[1..] + [last];
      PendingAppend(links[1..], last, done, n);
    } else {
      assert links + [last] == [last] && [last][1..] == [];
    }
  }

  lemma {:induction false} TargetsAppend(links: seq<Arc>, last: Arc, from: string)
    ensures Targets(links + [last], from) == Targets(links, from) + if last.from == from then [last.to] else []
  {
    if links != [] {
      assert (links + [last])[1..] == links[1..] + [last];
      TargetsAppend(links[1..], last, from);
    } else {
      assert links + [last] == [last] && [last][1..] == [];
    }
  }

  lemma {:induction false} LinksConcat(a: seq<Edge>, b: seq<Edge>)
    ensures Links(a + b) == Links(a) + Links(b)
  {
    if a == [] {
      assert [] + b == b;
    } else {
      assert (a + b)[1..] == a[1..] + b;
      LinksConcat(a[1..], b);
    }
  }

  lemma {:induction false} TargetsConcat(a: seq<Arc>, b: seq<Arc>, from: string)
    ensures Targets(a + b, from) == Targets(a, from) + Targets(b, from)
  {
    if a == [] {
      assert [] + b == b;
    } else {
      assert (a + b)[1..] == a[1..] + b;
      TargetsConcat(a[1..], b, from);
    }
  }

  /**
   An edge before another gives links before those of the other: none if it is transported or joins a
   node with itself, and one otherwise, after all targets that its source has from edges before it.
   */
  lemma LinksInOrder(before: seq<Edge>, edge: Edge, after: seq<Edge>, from: string)
    ensures var (a, b) := (NodeOf(edge.source), NodeOf(edge.target));
            && Links(before + [edge] + after) ==
               Links(before) + (if edge.transported || a == b then [] else [Arc(a, b)]) + Links(after)
            && Targets(Links(before + [edge] + after), from) ==
               Targets(Links(before), from) + (if edge.transported || a == b || a != from then [] else [b])
               + Targets(Links(after), from)
    ensures Links([]) == [] && Targets([], from) == []
  {
    LinksConcat(before + [edge], after);
    LinksConcat(before, [edge]);
    TargetsConcat(Links(before + [edge]), Links(after), from);
    TargetsConcat(Links(before), Links([edge]), from);
    assert [edge][1..] == [] && Links([edge]) + [] == Links([edge]);
    if Links([edge]) != [] {
      assert Links([edge])[1..] == [];
    }
  }

  // Every local edge joins two nodes of the manifest, as the manifest model checks.
  ghost predicate Known(nodes: seq<string>, edges: seq<Edge>)
  {
    forall e :: e in edges && !e.transported ==> NodeOf(e.source) in nodes && NodeOf(e.target) in nodes
  }

  lemma {:induction false} LinksKnown(nodes: seq<string>, edges: seq<Edge>)
    requires Known(nodes, edges)
    ensures forall a :: a in Links(edges) ==> a.from in nodes && a.to in nodes && a.from != a.to
  {
    if edges != [] {
      assert edges[0] in edges && forall e :: e in edges[1..] ==> e in edges;
      LinksKnown(nodes, edges[1..]);
    }
  }

  lemma {:induction false} LinksSplit(edges: seq<Edge>, i: nat)
    requires i < |edges|
    ensures var link := Arc(NodeOf(edges[i].source), NodeOf(edges[i].target));
            Links(edges[..i + 1]) == Links(edges[..i]) + if edges[i].transported || link.from == link.to then [] else [link]
  {
    if i == 0 {
      assert edges[..1][1..] == [] && edges[..0] == [];
    } else {
      assert edges[..i + 1][1..] == edges[1..][..i] && edges[..i][1..] == edges[1..][..i - 1];
      LinksSplit(edges[1..], i - 1);
    }
  }

  ghost predicate Indexed(links: seq<Arc>, indegree: map<string, nat>, outgoing: map<string, seq<string>>)
  {
    && (forall n :: n in indegree ==> indegree[n] == Pending(links, {}, n))
    && (forall n :: Targets(links, n) == if n in outgoing then outgoing[n] else [])
  }

  lemma IndexLink(links: seq<Arc>, link: Arc, indegree: map<string, nat>, outgoing: map<string, seq<string>>)
    requires Indexed(links, indegree, outgoing) && link.to in indegree
    ensures Indexed(links + [link], indegree[link.to := indegree[link.to] + 1],
                    outgoing[link.from := (if link.from in outgoing then outgoing[link.from] else []) + [link.to]])
  {
    hide Pending, Targets;
    forall n
      ensures Pending(links + [link], {}, n) == Pending(links, {}, n) + if n == link.to then 1 else 0
      ensures Targets(links + [link], n) == Targets(links, n) + if n == link.from then [link.to] else []
    {
      PendingAppend(links, link, {}, n);
      TargetsAppend(links, link, n);
    }
  }

  /** Count the links into every node and collect the targets of every source. */
  method Index(nodes: seq<string>, edges: seq<Edge>)
    returns (indegree: map<string, nat>, outgoing: map<string, seq<string>>)
    requires Known(nodes, edges)
    ensures indegree.Keys == Names(nodes)
    ensures Indexed(Links(edges), indegree, outgoing)
  {
    indegree := map n | n in Names(nodes) :: 0;
    outgoing := map[];
    assert Links(edges[..0]) == [];
    for i := 0 to |edges|
      invariant indegree.Keys == Names(nodes)
      invariant Indexed(Links(edges[..i]), indegree, outgoing)
    {
      LinksSplit(edges, i);
      var source, target := NodeOf(edges[i].source), NodeOf(edges[i].target);
      if !edges[i].transported && source != target {
        assert edges[i] in edges;
        IndexLink(Links(edges[..i]), Arc(source, target), indegree, outgoing);
        outgoing := outgoing[source := (if source in outgoing then outgoing[source] else []) + [target]];
        indegree := indegree[target := indegree[target] + 1];
      } else {
        assert Links(edges[..i + 1]) == Links(edges[..i]);
      }
    }
    assert edges[..|edges|] == edges;
  }

  // Nodes that are done or waiting in the queue are exactly those without a pending link.
  ghost predicate QueueAgrees(nodes: seq<string>, indegree: map<string, nat>, ordered: seq<string>, ready: seq<string>)
  {
    && indegree.Keys == Names(nodes)
    && Distinct(ordered + ready)
    && Names(ordered + ready) <= Names(nodes)
    && forall n :: n in indegree ==> (n in ordered + ready <==> indegree[n] == 0)
  }

  lemma DistinctAppend(names: seq<string>, n: string)
    requires Distinct(names) && n !in names
    ensures Distinct(names + [n])
    ensures Names(names + [n]) == Names(names) + {n}
  {
  }

  // Behind every occurrence of a there is one of b.
  ghost predicate LastBefore(targets: seq<string>, a: string, b: string)
  {
    forall x | 0 <= x < |targets| && targets[x] == a :: b in targets[x + 1..]
  }

  // The released nodes are targets, in the order in which the last link to each comes.
  ghost predicate ByLastLink(targets: seq<string>, released: seq<string>)
  {
    && (forall n :: n in released ==> n in targets)
    && forall j, k | 0 <= j < k < |released| :: LastBefore(targets, released[j], released[k])
  }

  lemma LastStays(targets: seq<string>, next: string, a: string, b: string)
    requires a != next && (b == next || LastBefore(targets, a, b))
    ensures LastBefore(targets + [next], a, b)
  {
    var now := targets + [next];
    forall x | 0 <= x < |now| && now[x] == a
      ensures b in now[x + 1..]
    {
      assert x < |targets| && targets[x] == a;
      assert now[x + 1..] == targets[x + 1..] + [next];
    }
  }

  lemma LastLinkNext(targets: seq<string>, next: string, released: seq<string>)
    requires next !in released && ByLastLink(targets, released)
    ensures ByLastLink(targets + [next], released) && ByLastLink(targets + [next], released + [next])
  {
    hide LastBefore;
    forall j, k | 0 <= j < k < |released|
      ensures LastBefore(targets + [next], released[j], released[k])
    {
      LastStays(targets, next, released[j], released[k]);
    }
    forall j | 0 <= j < |released|
      ensures LastBefore(targets + [next], released[j], next)
    {
      LastStays(targets, next, released[j], next);
    }
    assert forall n :: n in released ==> n in targets;
  }

  lemma Enqueue(nodes: seq<string>, indegree: map<string, nat>, ordered: seq<string>, ready: seq<string>, target: string)
    requires QueueAgrees(nodes, indegree, ordered, ready) && target in indegree && indegree[target] > 0
    ensures target !in ready
    ensures QueueAgrees(nodes, indegree[target := indegree[target] - 1], ordered,
                        if indegree[target] == 1 then ready + [target] else ready)
  {
    DistinctAppend(ordered + ready, target);
    assert (ordered + ready) + [target] == ordered + (ready + [target]);
  }

  /** Walk the targets of one finished node, queueing those whose last pending link it was. */
  method Release(nodes: seq<string>, targets: seq<string>, before: map<string, nat>, ordered: seq<string>,
                 waiting: seq<string>)
    returns (indegree: map<string, nat>, ready: seq<string>)
    requires QueueAgrees(nodes, before, ordered, waiting)
    requires forall t :: t in targets ==> t in before
    requires forall n :: n in before ==> Count(targets, n) <= before[n]
    ensures QueueAgrees(nodes, indegree, ordered, ready)
    ensures forall n :: n in indegree ==> indegree[n] == before[n] - Count(targets, n)
    ensures waiting <= ready && ByLastLink(targets, ready[|waiting|..])
  {
    assert ByLastLink(targets[..0], []);
    indegree, ready := before, waiting;
    ghost var released := [];
    hide ByLastLink, QueueAgrees, Count;
    for j := 0 to |targets|
      invariant QueueAgrees(nodes, indegree, ordered, ready)
      invariant ready == waiting + released && ByLastLink(targets[..j], released)
      invariant indegree.Keys == before.Keys
      invariant forall n :: n in indegree ==> indegree[n] == before[n] - Count(targets, n) + Count(targets[j..], n)
    {
      var target := targets[j];
      CountFirst(targets, j);
      Enqueue(nodes, indegree, ordered, ready, target);
      LastLinkNext(targets[..j], target, released);
      assert targets[..j + 1] == targets[..j] + [target];
      indegree := indegree[target := indegree[target] - 1];
      if indegree[target] == 0 {
        ready := ready + [target];
        released := released + [target];
      }
    }
    CountNone(targets);
    assert targets[..|targets|] == targets && ready[|waiting|..] == released;
  }

  lemma CountFirst(targets: seq<string>, j: nat)
    requires j < |targets|
    ensures forall n :: Count(targets[j..], n) == (if n == targets[j] then 1 else 0) + Count(targets[j + 1..], n)
  {
    assert targets[j..][0] == targets[j] && targets[j..][1..] == targets[j + 1..];
  }

  lemma CountNone(targets: seq<string>)
    ensures forall n :: Count(targets[|targets|..], n) == 0
  {
  }

  // Links into finished nodes come from nodes finished earlier.
  ghost predicate Forward(links: seq<Arc>, order: seq<string>)
  {
    forall j, a :: 0 <= j < |order| && a in links && a.to == order[j] ==> a.from in order[..j]
  }

  // Some occurrence of a comes before some of b.
  ghost predicate Precedes(nodes: seq<string>, a: string, b: string)
  {
    exists u, v :: 0 <= u < v < |nodes| && nodes[u] == a && nodes[v] == b
  }

  ghost predicate IsRoot(links: seq<Arc>, n: string)
  {
    forall a :: a in links ==> a.to != n
  }

  // There is a link to n from the done node at p behind place x of its targets, or from a later one.
  ghost predicate ReachedLater(links: seq<Arc>, done: seq<string>, p: nat, x: nat, n: string)
    requires p < |done| && x < |Targets(links, done[p])|
  {
    n in Targets(links, done[p])[x + 1..] || exists q :: p < q < |done| && n in Targets(links, done[q])
  }

  // Of two nodes without links the first comes first in the document; otherwise its last link comes first.
  ghost predicate Turn(links: seq<Arc>, nodes: seq<string>, done: seq<string>, a: string, b: string)
  {
    && (IsRoot(links, a) && IsRoot(links, b) ==> Precedes(nodes, a, b))
    && forall p, x | 0 <= p < |done| && 0 <= x < |Targets(links, done[p])| ::
         Targets(links, done[p])[x] == a ==> ReachedLater(links, done, p, x, b)
  }

  /**
   First come, first served: nodes without links come in document order, and of any two nodes the one
   whose last link comes first, by the place of its source and then by document order, is first.
   */
  ghost predicate InTurn(links: seq<Arc>, nodes: seq<string>, done: seq<string>, all: seq<string>)
  {
    forall j, k | 0 <= j < k < |all| :: Turn(links, nodes, done, all[j], all[k])
  }

  ghost predicate InDocumentOrder(nodes: seq<string>, names: seq<string>)
  {
    forall j, k | 0 <= j < k < |names| :: Precedes(nodes, names[j], names[k])
  }

  lemma {:induction false} TargetsHas(links: seq<Arc>, from: string)
    ensures forall n :: n in Targets(links, from) <==> Arc(from, n) in links
  {
    if links != [] {
      TargetsHas(links[1..], from);
      assert forall a :: a in links <==> a == links[0] || a in links[1..];
    }
  }

  lemma NextTurn(links: seq<Arc>, nodes: seq<string>, done: seq<string>, waiting: seq<string>, name: string,
                 released: seq<string>)
    requires InTurn(links, nodes, done, done + [name] + waiting) && name !in done
    requires forall a :: a in links && a.to in done + [name] + waiting ==> a.from in done
    requires ByLastLink(Targets(links, name), released)
    ensures InTurn(links, nodes, done + [name], done + [name] + waiting + released)
  {
    hide Turn, LastBefore;
    var before, next := done + [name] + waiting, done + [name];
    var all := before + released;
    forall j, k | 0 <= j < k < |all|
      ensures Turn(links, nodes, next, all[j], all[k])
    {
      TargetsHas(links, name);
      if k < |before| {
        assert all[j] == before[j] && all[k] == before[k] && before[j] in before;
        TurnStays(links, nodes, done, name, all[j], all[k]);
      } else {
        assert all[k] == released[k - |before|] && all[k] in released;
        if j < |before| {
          assert all[j] == before[j] && before[j] in before;
        } else {
          assert all[j] == released[j - |before|];
          assert LastBefore(Targets(links, name), all[j], all[k]);
        }
        TurnReleased(links, nodes, done, name, all[j], all[k]);
      }
    }
  }

  lemma TurnStays(links: seq<Arc>, nodes: seq<string>, done: seq<string>, name: string, a: string, b: string)
    requires Turn(links, nodes, done, a, b) && a !in Targets(links, name)
    ensures Turn(links, nodes, done + [name], a, b)
  {
    hide Targets, Precedes;
    var next := done + [name];
    forall p, x | 0 <= p < |next| && 0 <= x < |Targets(links, next[p])| && Targets(links, next[p])[x] == a
      ensures ReachedLater(links, next, p, x, b)
    {
      assert p < |done| && next[p] == done[p];
      assert ReachedLater(links, done, p, x, b);
      if b !in Targets(links, done[p])[x + 1..] {
        var q :| p < q < |done| && b in Targets(links, done[q]);
        assert next[q] == done[q];
      }
    }
  }

  lemma TurnReleased(links: seq<Arc>, nodes: seq<string>, done: seq<string>, name: string, a: string, b: string)
    requires b in Targets(links, name) && (a in Targets(links, name) ==> LastBefore(Targets(links, name), a, b))
    ensures Turn(links, nodes, done + [name], a, b)
  {
    TargetsHas(links, name);
    assert Arc(name, b) in links && !IsRoot(links, b);
    hide Targets, Precedes;
    var next := done + [name];
    assert next[|done|] == name;
    forall p, x | 0 <= p < |next| && 0 <= x < |Targets(links, next[p])| && Targets(links, next[p])[x] == a
      ensures ReachedLater(links, next, p, x, b)
    {
      if p < |done| {
        assert b in Targets(links, next[|done|]);
      } else {
        assert a in Targets(links, name);
      }
    }
  }

  lemma RootsInTurn(links: seq<Arc>, nodes: seq<string>, ready: seq<string>)
    requires InDocumentOrder(nodes, ready)
    ensures InTurn(links, nodes, [], [] + ready)
  {
    hide Precedes;
    assert [] + ready == ready;
  }

  // What is done or queued waits for nothing but what is done.
  lemma QueuedAreFree(links: seq<Arc>, nodes: seq<string>, indegree: map<string, nat>, ordered: seq<string>,
                      ready: seq<string>)
    requires QueueAgrees(nodes, indegree, ordered, ready) && Counted(links, indegree, ordered) && ready != []
    ensures var all := ordered + [ready[0]] + ready[1..];
            && all == ordered + ready && ready[0] !in ordered
            && forall a :: a in links && a.to in all ==> a.from in ordered
  {
    var all := ordered + ready;
    assert ordered + [ready[0]] + ready[1..] == all;
    assert all[|ordered|] == ready[0] && forall i :: 0 <= i < |ordered| ==> all[i] == ordered[i];
    forall a | a in links && a.to in all
      ensures a.from in ordered
    {
      assert a.to in Names(all) && a.to in indegree;
      PendingZero(links, Names(ordered), a.to);
      assert a.from in Names(ordered);
    }
  }

  /**
   What the algorithm makes of the nodes: the first ones are scheduled, sources first and in turn; the
   others each wait for another of them, and follow in document order.
   */
  ghost predicate Scheduled(links: seq<Arc>, nodes: seq<string>, order: seq<string>, count: nat)
  {
    && count <= |order|
    && SourcesFirst(Arcs(links), order[..count])
    && InTurn(links, nodes, order[..count], order[..count])
    && (forall n :: n in order[count..] ==> Fed(Arcs(links), Names(order[count..]), n))
    && InDocumentOrder(nodes, order[count..])
  }

  ghost predicate InSchedule(links: seq<Arc>, nodes: seq<string>, order: seq<string>)
  {
    exists count :: Scheduled(links, nodes, order, count) && (count == |order| <==> Acyclic(Arcs(links)))
  }

  /**
   Kahn's algorithm.  The result is always a permutation of the nodes; the flag is true exactly
   when the local edges form no cycle, and then every local edge points forward.  Nodes that are
   scheduled come in turn, and those that wait for each other in document order.
   */
  method Order(nodes: seq<string>, edges: seq<Edge>) returns (order: seq<string>, acyclic: bool)
    requires Distinct(nodes) && Known(nodes, edges)
    ensures multiset(order) == multiset(nodes)
    ensures acyclic <==> Acyclic(Arcs(Links(edges)))
    ensures acyclic ==> SourcesFirst(Arcs(Links(edges)), order)
    ensures InSchedule(Links(edges), nodes, order)
  {
    hide InTurn, ByLastLink, Scheduled, InDocumentOrder, Acyclic, SourcesFirst, Targets, Others, Pending, Count, Links;
    ghost var links := Links(edges);
    LinksKnown(nodes, edges);
    var indegree, outgoing := Index(nodes, edges);
    var ready := Roots(nodes, indegree);
    var ordered: seq<string> := [];
    assert Names([]) == {} && Forward(links, ordered);
    RootsInTurn(links, nodes, ready);
    while ready != []
      invariant QueueAgrees(nodes, indegree, ordered, ready)
      invariant Counted(links, indegree, ordered)
      invariant Forward(links, ordered)
      invariant InTurn(links, nodes, ordered, ordered + ready)
      decreases |nodes| - |ordered|
    {
      var name := ready[0];
      FinishNode(links, nodes, indegree, ordered, ready);
      var targets := if name in outgoing then outgoing[name] else [];
      TargetsKnown(links, nodes, name);
      ghost var waiting := ready[1..];
      QueuedAreFree(links, nodes, indegree, ordered, ready);
      indegree, ready := Release(nodes, targets, indegree, ordered + [name], ready[1..]);
      NextTurn(links, nodes, ordered, waiting, name, ready[|waiting|..]);
      assert ordered + [name] + waiting + ready[|waiting|..] == (ordered + [name]) + ready;
      ordered := ordered + [name];
    }
    acyclic := |ordered| == |nodes|;
    order := ordered + Others(nodes, ordered);
    assert ordered + [] == ordered;
    AllScheduled(links, nodes, indegree, ordered);
    Leftover(links, nodes, indegree, ordered);
    Complete(nodes, ordered);
  }

  method Roots(nodes: seq<string>, indegree: map<string, nat>) returns (ready: seq<string>)
    requires Distinct(nodes) && indegree.Keys == Names(nodes)
    ensures QueueAgrees(nodes, indegree, [], ready)
    ensures InDocumentOrder(nodes, ready)
  {
    ready := [];
    assert InDocumentOrder(nodes[..0], ready);
    hide InDocumentOrder;
    for i := 0 to |nodes|
      invariant Distinct(ready)
      invariant InDocumentOrder(nodes[..i], ready)
      invariant forall n :: n in ready <==> n in nodes[..i] && indegree[n] == 0
    {
      RootNext(nodes, i, ready);
      if indegree[nodes[i]] == 0 {
        ready := ready + [nodes[i]];
      }
    }
    assert nodes[..|nodes|] == nodes && [] + ready == ready;
  }

  lemma RootNext(nodes: seq<string>, i: nat, ready: seq<string>)
    requires i < |nodes| && InDocumentOrder(nodes[..i], ready) && forall n :: n in ready ==> n in nodes[..i]
    ensures InDocumentOrder(nodes[..i + 1], ready) && InDocumentOrder(nodes[..i + 1], ready + [nodes[i]])
  {
    hide Precedes;
    assert nodes[..i + 1] == nodes[..i] + [nodes[i]];
    forall j, k | 0 <= j < k < |ready|
      ensures Precedes(nodes[..i + 1], ready[j], ready[k])
    {
      PrecedesMore(nodes[..i], nodes[i], ready[j], ready[k]);
    }
    forall j | 0 <= j < |ready|
      ensures Precedes(nodes[..i + 1], ready[j], nodes[i])
    {
      assert ready[j] in nodes[..i];
      PrecedesMore(nodes[..i], nodes[i], ready[j], nodes[i]);
    }
  }

  lemma PrecedesMore(nodes: seq<string>, next: string, a: string, b: string)
    requires Precedes(nodes, a, b) || (a in nodes && b == next)
    ensures Precedes(nodes + [next], a, b)
  {
    var now := nodes + [next];
    if Precedes(nodes, a, b) {
      var u, v :| 0 <= u < v < |nodes| && nodes[u] == a && nodes[v] == b;
      assert now[u] == a && now[v] == b;
    } else {
      var u :| 0 <= u < |nodes| && nodes[u] == a;
      assert now[u] == a && now[|nodes|] == b;
    }
  }

  lemma {:induction false} TargetsKnown(links: seq<Arc>, nodes: seq<string>, from: string)
    requires forall a :: a in links ==> a.to in nodes
    ensures forall t :: t in Targets(links, from) ==> t in nodes
  {
    if links != [] {
      assert links[0] in links && forall a :: a in links[1..] ==> a in links;
      TargetsKnown(links[1..], nodes, from);
    }
  }

  ghost predicate Counted(links: seq<Arc>, indegree: map<string, nat>, ordered: seq<string>)
  {
    forall n :: n in indegree ==> indegree[n] == Pending(links, Names(ordered), n)
  }

  // Taking the first node of the queue: it has no pending link, so it may come next.
  lemma FinishNode(links: seq<Arc>, nodes: seq<string>, indegree: map<string, nat>, ordered: seq<string>,
                   ready: seq<string>)
    requires QueueAgrees(nodes, indegree, ordered, ready) && ready != []
    requires Counted(links, indegree, ordered) && Forward(links, ordered)
    ensures |ordered| < |nodes|
    ensures Forward(links, ordered + [ready[0]])
    ensures QueueAgrees(nodes, indegree, ordered + [ready[0]], ready[1..])
    ensures forall n :: n in indegree ==>
              indegree[n] == Pending(links, Names(ordered + [ready[0]]), n) + Count(Targets(links, ready[0]), n)
  {
    var name := ready[0];
    var next := ordered + [name];
    assert next + ready[1..] == ordered + ready;
    assert (ordered + ready)[|ordered|] == name;
    assert forall i :: 0 <= i < |ordered| ==> (ordered + ready)[i] == ordered[i];
    PendingZero(links, Names(ordered), name);
    assert name in Names(ordered + ready) && name in indegree;
    forall j, a | 0 <= j < |next| && a in links && a.to == next[j]
      ensures a.from in next[..j]
    {
      if j < |ordered| {
        assert next[..j] == ordered[..j];
      } else {
        assert next[..j] == ordered;
      }
    }
    assert forall i :: 0 <= i < |next| ==> next[i] == (ordered + ready)[i];
    Fits(next, nodes);
    assert Names(next) == Names(ordered) + {name};
    forall n | n in indegree
      ensures indegree[n] == Pending(links, Names(next), n) + Count(Targets(links, name), n)
    {
      PendingDone(links, Names(ordered), name, n);
    }
  }

  lemma Fits(some: seq<string>, all: seq<string>)
    requires Names(some) <= Names(all) && Distinct(some)
    ensures |some| <= |all|
  {
    DistinctSize(some);
    NamesSize(all);
    SubsetSize(Names(some), Names(all));
  }

  lemma SubsetSize<T>(a: set<T>, b: set<T>)
    requires a <= b
    ensures |a| <= |b|
    ensures |a| == |b| ==> a == b
  {
    assert b == a + (b - a);
  }

  // When the queue runs dry: nodes left over wait for each other, so there is a cycle.
  lemma Leftover(links: seq<Arc>, nodes: seq<string>, indegree: map<string, nat>, ordered: seq<string>)
    requires Distinct(nodes) && QueueAgrees(nodes, indegree, ordered, [])
    requires Counted(links, indegree, ordered) && Forward(links, ordered)
    requires forall a :: a in links ==> a.from in nodes && a.to in nodes
    ensures |ordered| == |nodes| <==> Acyclic(Arcs(links))
    ensures |ordered| == |nodes| ==> SourcesFirst(Arcs(links), ordered)
    ensures Distinct(ordered) && Names(ordered) <= Names(nodes)
  {
    assert ordered + [] == ordered;
    DistinctSize(ordered);
    DistinctSize(nodes);
    SubsetSize(Names(ordered), Names(nodes));
    if |ordered| == |nodes| {
      forall a | a in Arcs(links)
        ensures a.from in ordered && a.to in ordered
      {
        assert a.from in Names(ordered) && a.to in Names(ordered);
      }
      OrderedIsAcyclic(Arcs(links), ordered);
    } else {
      var stuck := Names(nodes) - Names(ordered);
      var x := Missing(Names(ordered), Names(nodes));
      forall x | x in stuck
        ensures Fed(Arcs(links), stuck, x)
      {
        PendingZero(links, Names(ordered), x);
        var a :| a in links && a.to == x && a.from !in Names(ordered);
        assert a == Arc(a.from, x);
      }
      var cycle := PredecessorsCycle(Arcs(links), stuck, [x]);
    }
  }

  // The nodes that the queue never reached, in document order.
  function Others(nodes: seq<string>, ordered: seq<string>): seq<string>
  {
    if nodes == [] then []
    else (if nodes[0] in ordered then [] else [nodes[0]]) + Others(nodes[1..], ordered)
  }

  lemma {:induction false} OthersHas(nodes: seq<string>, ordered: seq<string>)
    ensures forall n :: n in Others(nodes, ordered) <==> n in nodes && n !in ordered
    ensures Distinct(nodes) ==> Distinct(Others(nodes, ordered))
  {
    if nodes != [] {
      OthersHas(nodes[1..], ordered);
    }
  }

  lemma {:induction false} OthersInOrder(nodes: seq<string>, ordered: seq<string>)
    ensures InDocumentOrder(nodes, Others(nodes, ordered))
  {
    if nodes != [] {
      var rest := Others(nodes[1..], ordered);
      OthersInOrder(nodes[1..], ordered);
      OthersHas(nodes[1..], ordered);
      OrderDeeper(nodes, rest);
      assert [] + rest == rest;
    }
  }

  lemma OrderDeeper(nodes: seq<string>, names: seq<string>)
    requires nodes != [] && InDocumentOrder(nodes[1..], names) && forall n :: n in names ==> n in nodes[1..]
    ensures InDocumentOrder(nodes, names) && InDocumentOrder(nodes, [nodes[0]] + names)
  {
    hide Precedes;
    forall j, k | 0 <= j < k < |names|
      ensures Precedes(nodes, names[j], names[k])
    {
      PrecedesDeeper(nodes, names[j], names[k]);
    }
    forall k | 0 <= k < |names|
      ensures Precedes(nodes, nodes[0], names[k])
    {
      assert names[k] in nodes[1..];
      FirstPrecedes(nodes, names[k]);
    }
  }

  lemma FirstPrecedes(nodes: seq<string>, b: string)
    requires nodes != [] && b in nodes[1..]
    ensures Precedes(nodes, nodes[0], b)
  {
    var v :| 0 <= v < |nodes[1..]| && nodes[1..][v] == b;
    assert nodes[v + 1] == b;
  }

  lemma PrecedesDeeper(nodes: seq<string>, a: string, b: string)
    requires nodes != [] && Precedes(nodes[1..], a, b)
    ensures Precedes(nodes, a, b)
  {
    var u, v :| 0 <= u < v < |nodes[1..]| && nodes[1..][u] == a && nodes[1..][v] == b;
    assert nodes[u + 1] == a && nodes[v + 1] == b;
  }

  lemma AllScheduled(links: seq<Arc>, nodes: seq<string>, indegree: map<string, nat>, ordered: seq<string>)
    requires Distinct(nodes) && QueueAgrees(nodes, indegree, ordered, [])
    requires Counted(links, indegree, ordered) && Forward(links, ordered)
    requires InTurn(links, nodes, ordered, ordered)
    requires forall a :: a in links ==> a.from in nodes && a.to in nodes
    ensures Scheduled(links, nodes, ordered + Others(nodes, ordered), |ordered|)
    ensures |ordered| == |nodes| <==> |ordered| == |ordered + Others(nodes, ordered)|
  {
    assert ordered + [] == ordered;
    Complete(nodes, ordered);
    assert |multiset(ordered + Others(nodes, ordered))| == |nodes|;
    hide InTurn, InDocumentOrder, QueueAgrees, Forward;
    var others := Others(nodes, ordered);
    var order := ordered + others;
    OthersHas(nodes, ordered);
    OthersInOrder(nodes, ordered);
    assert order[..|ordered|] == ordered && order[|ordered|..] == others;
    forall n | n in others
      ensures Fed(Arcs(links), Names(others), n)
    {
      StillWaits(links, nodes, indegree, ordered, n);
      var a :| a in links && a.to == n && a.from !in ordered;
      assert a.from in others && a == Arc(a.from, n) && a in Arcs(links);
    }
    ForwardFirst(links, ordered);
  }

  lemma ForwardFirst(links: seq<Arc>, order: seq<string>)
    requires Forward(links, order)
    ensures SourcesFirst(Arcs(links), order)
  {
    forall j, from | 0 <= j < |order| && Arc(from, order[j]) in Arcs(links)
      ensures from in order[..j]
    {
      assert Arc(from, order[j]) in links;
    }
  }

  lemma StillWaits(links: seq<Arc>, nodes: seq<string>, indegree: map<string, nat>, ordered: seq<string>, n: string)
    requires QueueAgrees(nodes, indegree, ordered, []) && Counted(links, indegree, ordered)
    requires n in nodes && n !in ordered
    ensures exists a :: a in links && a.to == n && a.from !in ordered
  {
    assert ordered + [] == ordered;
    assert n in Names(nodes) && n !in ordered + [];
    PendingZero(links, Names(ordered), n);
    var a :| a in links && a.to == n && a.from !in Names(ordered);
    assert a.from !in ordered;
  }

  lemma {:induction false} Complete(nodes: seq<string>, ordered: seq<string>)
    requires Distinct(nodes) && Distinct(ordered) && Names(ordered) <= Names(nodes)
    ensures multiset(ordered + Others(nodes, ordered)) == multiset(nodes)
    ensures |ordered| == |nodes| ==> ordered + Others(nodes, ordered) == ordered
  {
    OthersHas(nodes, ordered);
    var order := ordered + Others(nodes, ordered);
    assert forall n :: n in ordered ==> n in Names(ordered);
    assert forall n :: n in nodes <==> n in Names(nodes);
    DistinctConcat(ordered, Others(nodes, ordered));
    assert Names(order) == Names(nodes);
    SameNamesPermute(order, nodes);
    assert |order| == |multiset(order)| == |nodes|;
  }
}
