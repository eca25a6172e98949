/** Directed graphs over names: walks, cycles, and what an ordering says about them. */
module Graph {
  datatype Arc = Arc(from: string, to: string)

  ghost predicate Walk(arcs: set<Arc>, walk: seq<string>)
  {
    forall i :: 0 <= i < |walk| - 1 ==> Arc(walk[i], walk[i + 1]) in arcs
  }

  // A closed walk; a self-loop is a cycle of length one.
  ghost predicate Cycle(arcs: set<Arc>, cycle: seq<string>)
  {
    cycle != [] && Walk(arcs, cycle) && Arc(cycle[|cycle| - 1], cycle[0]) in arcs
  }

  ghost predicate Acyclic(arcs: set<Arc>)
  {
    forall cycle :: !Cycle(arcs, cycle)
  }

  predicate Distinct(names: seq<string>)
  {
    forall i, j :: 0 <= i < j < |names| ==> names[i] != names[j]
  }

  function Names(names: seq<string>): set<string>
  {
    set n | n in names
  }

  // Each name is listed after every name that has an arc into it.
  ghost predicate SourcesFirst(arcs: set<Arc>, order: seq<string>)
  {
    forall j, from :: 0 <= j < |order| && Arc(from, order[j]) in arcs ==> from in order[..j]
  }

  function Position(order: seq<string>, name: string): nat
  {
    if order == [] || order[0] == name then 0 else 1 + Position(order[1..], name)
  }

  lemma {:induction false} PositionFound(order: seq<string>, name: string)
    requires name in order
    ensures Position(order, name) < |order| && order[Position(order, name)] == name
  {
    if order[0] != name {
      PositionFound(order[1..], name);
    }
  }

  lemma {:induction false} PositionInPrefix(order: seq<string>, k: nat, name: string)
    requires k <= |order| && name in order[..k]
    ensures Position(order, name) < k
  {
    if order[0] != name {
      assert order[..k] == [order[0]] + order[1..][..k - 1];
      PositionInPrefix(order[1..], k - 1, name);
    }
  }

  lemma {:induction false} WalkForward(arcs: set<Arc>, order: seq<string>, walk: seq<string>)
    requires SourcesFirst(arcs, order) && Walk(arcs, walk)
    requires walk != [] && forall i :: 0 <= i < |walk| ==> walk[i] in order
    ensures Position(order, walk[0]) <= Position(order, walk[|walk| - 1])
    decreases |walk|
  {
    if |walk| > 1 {
      assert Arc(walk[0], walk[1]) in arcs;
      StepForward(arcs, order, walk[0], walk[1]);
      var rest := walk[1..];
      assert forall i :: 0 <= i < |rest| ==> rest[i] == walk[i + 1];
      WalkForward(arcs, order, rest);
    }
  }

  lemma StepForward(arcs: set<Arc>, order: seq<string>, from: string, to: string)
    requires SourcesFirst(arcs, order) && Arc(from, to) in arcs && to in order
    ensures Position(order, from) < Position(order, to)
  {
    PositionFound(order, to);
    PositionInPrefix(order, Position(order, to), from);
  }

  /** A graph whose nodes can be listed with all sources first has no cycle. */
  lemma OrderedIsAcyclic(arcs: set<Arc>, order: seq<string>)
    requires SourcesFirst(arcs, order)
    requires forall a :: a in arcs ==> a.from in order && a.to in order
    ensures Acyclic(arcs)
  {
    forall cycle | Cycle(arcs, cycle)
      ensures false
    {
      var last := cycle[|cycle| - 1];
      assert Arc(last, cycle[0]) in arcs;
      forall i | 0 <= i < |cycle|
        ensures cycle[i] in order
      {
        if i + 1 < |cycle| {
          assert Arc(cycle[i], cycle[i + 1]) in arcs;
        }
      }
      WalkForward(arcs, order, cycle);
      StepForward(arcs, order, last, cycle[0]);
    }
  }

  ghost predicate Fed(arcs: set<Arc>, within: set<string>, name: string)
  {
    exists p :: p in within && Arc(p, name) in arcs
  }

  /** In a finite set where every name has a predecessor, walking backwards closes a cycle. */
  lemma {:induction false} PredecessorsCycle(arcs: set<Arc>, stuck: set<string>, walk: seq<string>)
    returns (cycle: seq<string>)
    requires forall x :: x in stuck ==> Fed(arcs, stuck, x)
    requires walk != [] && Walk(arcs, walk) && Distinct(walk) && Names(walk) <= stuck
    ensures Cycle(arcs, cycle) && Names(cycle) <= stuck
    decreases |stuck - Names(walk)|
  {
    hide Walk, Cycle, Distinct;
    assert walk[0] in Names(walk) && Fed(arcs, stuck, walk[0]);
    var p :| p in stuck && Arc(p, walk[0]) in arcs;
    if p in walk {
      var j :| 0 <= j < |walk| && walk[j] == p;
      cycle := walk[..j + 1];
      CloseWalk(arcs, walk, j);
    } else {
      LongerWalk(arcs, p, walk);
      assert stuck - Names([p] + walk) == (stuck - Names(walk)) - {p};
      assert p in stuck - Names(walk);
      cycle := PredecessorsCycle(arcs, stuck, [p] + walk);
    }
  }

  lemma CloseWalk(arcs: set<Arc>, walk: seq<string>, j: nat)
    requires j < |walk| && Walk(arcs, walk) && Arc(walk[j], walk[0]) in arcs
    ensures Cycle(arcs, walk[..j + 1]) && Names(walk[..j + 1]) <= Names(walk)
  {
    var part := walk[..j + 1];
    assert forall i :: 0 <= i <= j ==> part[i] == walk[i];
  }

  lemma LongerWalk(arcs: set<Arc>, p: string, walk: seq<string>)
    requires walk != [] && Walk(arcs, walk) && Distinct(walk)
    requires Arc(p, walk[0]) in arcs && p !in walk
    ensures Walk(arcs, [p] + walk) && Distinct([p] + walk)
    ensures Names([p] + walk) == Names(walk) + {p}
  {
    var longer := [p] + walk;
    assert forall i :: 0 < i < |longer| ==> longer[i] == walk[i - 1];
  }

  lemma Missing<T>(a: set<T>, b: set<T>) returns (x: T)
    requires a <= b && |a| < |b|
    ensures x in b && x !in a
  {
    assert b == a + (b - a);
    assert |b - a| > 0;
    x :| x in b - a;
  }

  lemma DistinctConcat(a: seq<string>, b: seq<string>)
    requires Distinct(a) && Distinct(b) && forall n :: n in a ==> n !in b
    ensures Distinct(a + b) && Names(a + b) == Names(a) + Names(b)
  {
    forall i, j | 0 <= i < j < |a + b|
      ensures (a + b)[i] != (a + b)[j]
    {
      if i < |a| <= j {
        assert a[i] in a && b[j - |a|] in b;
      }
    }
  }

  lemma {:induction false} NamesSize(names: seq<string>)
    ensures |Names(names)| <= |names|
  {
    if names != [] {
      var init := names[..|names| - 1];
      NamesSize(init);
      assert Names(names) == Names(init) + {names[|names| - 1]};
    }
  }

  lemma {:induction false} DistinctSize(names: seq<string>)
    requires Distinct(names)
    ensures |Names(names)| == |names|
  {
    if names != [] {
      var init := names[..|names| - 1];
      DistinctSize(init);
      assert Names(names) == Names(init) + {names[|names| - 1]};
    }
  }

  lemma {:induction false} SameNamesPermute(a: seq<string>, b: seq<string>)
    requires Distinct(a) && Distinct(b) && Names(a) == Names(b)
    ensures multiset(a) == multiset(b)
  {
    forall n
      ensures multiset(a)[n] == multiset(b)[n]
    {
      DistinctCount(a, n);
      DistinctCount(b, n);
      assert n in a <==> n in Names(a);
      assert n in b <==> n in Names(b);
    }
  }

  lemma {:induction false} DistinctCount(names: seq<string>, n: string)
    requires Distinct(names)
    ensures multiset(names)[n] == if n in names then 1 else 0
  {
    if names != [] {
      var init := names[..|names| - 1];
      DistinctCount(init, n);
      assert names == init + [names[|names| - 1]];
    }
  }

  /** A permutation of distinct names is distinct, with the same names. */
  lemma PermutedDistinct(a: seq<string>, b: seq<string>)
    requires multiset(a) == multiset(b) && Distinct(b)
    ensures Distinct(a) && Names(a) == Names(b)
  {
    forall n
      ensures n in a <==> n in b
    {
      assert n in a <==> n in multiset(a);
      assert n in b <==> n in multiset(b);
    }
    forall i, j | 0 <= i < j < |a|
      ensures a[i] != a[j]
    {
      DistinctCount(b, a[i]);
      assert a == a[..i] + [a[i]] + a[i + 1..];
      assert a[j] == a[i + 1..][j - i - 1] && a[j] in multiset(a[i + 1..]);
    }
  }
}
