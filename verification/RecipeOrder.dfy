/** Build recipes in dependency order: the depth-first search of the build compiler. */
module RecipeOrder {
  import opened Wrappers
  import opened Graph

  // The depends_on list of every recipe.
  type Recipes = map<string, seq<string>>

  datatype RecipeError =
    | DependencyCycle(chain: seq<string>)
    | UnknownRecipe(recipe: string, dependency: string)

  // An arc leads from a dependency to the recipe that needs it.
  function Needs(recipes: Recipes): set<Arc>
  {
    set a, b | a in recipes && b in recipes[a] :: Arc(b, a)
  }

  ghost predicate AllKnown(recipes: Recipes)
  {
    forall a, b :: a in recipes && b in recipes[a] ==> b in recipes
  }

  // Each recipe in the stack needs the one that follows it.
  ghost predicate Chain(recipes: Recipes, stack: seq<string>)
  {
    forall i :: 0 <= i < |stack| - 1 ==> stack[i] in recipes && stack[i + 1] in recipes[stack[i]]
  }

  // What a failing visit reports: a chain that comes back to itself, or a missing recipe.
  ghost predicate Justified(recipes: Recipes, error: RecipeError)
  {
    match error
    case DependencyCycle(chain) =>
      |chain| > 1 && Chain(recipes, chain) && chain[|chain| - 1] in chain[..|chain| - 1]
    case UnknownRecipe(recipe, dependency) =>
      recipe in recipes && dependency in recipes[recipe] && dependency !in recipes
  }

  // A chain read backwards is a walk along the arcs, so a chain that returns is a cycle.
  function Reverse(names: seq<string>): seq<string>
  {
    if names == [] then [] else Reverse(names[1..]) + [names[0]]
  }

  lemma {:induction false} ReverseAt(names: seq<string>, k: nat)
    requires k < |names|
    ensures |Reverse(names)| == |names| && Reverse(names)[k] == names[|names| - 1 - k]
  {
    if |names| > 1 {
      ReverseAt(names[1..], if k < |names| - 1 then k else 0);
    }
  }

  lemma ChainIsCycle(recipes: Recipes, chain: seq<string>) returns (cycle: seq<string>)
    requires Justified(recipes, DependencyCycle(chain))
    ensures Cycle(Needs(recipes), cycle)
  {
    var last := |chain| - 1;
    var j :| 0 <= j < last && chain[j] == chain[last];
    var loop := chain[j..last];
    cycle := Reverse(loop);
    forall k | 0 <= k < |loop|
      ensures |cycle| == |loop| && cycle[k] == chain[last - 1 - k]
    {
      ReverseAt(loop, k);
    }
    ReverseAt(loop, 0);
    forall k | 0 <= k < |cycle| - 1
      ensures Arc(cycle[k], cycle[k + 1]) in Needs(recipes)
    {
      assert chain[last - 1 - k] in recipes[chain[last - 2 - k]];
    }
    assert chain[last] in recipes[chain[last - 1]];
  }

  // Every listed recipe comes after all its dependencies, and only once.
  ghost predicate Closed(recipes: Recipes, order: seq<string>)
  {
    && Distinct(order)
    && forall j, d :: 0 <= j < |order| && order[j] in recipes && d in recipes[order[j]] ==> d in order[..j]
  }

  // A chain of dependencies leads from a down to b.
  ghost predicate DependsOn(recipes: Recipes, a: string, b: string)
  {
    exists chain :: Chain(recipes, chain) && |chain| > 1 && chain[0] == a && chain[|chain| - 1] == b
  }

  lemma DependsStep(recipes: Recipes, a: string, d: string, b: string)
    requires a in recipes && d in recipes[a]
    requires d == b || DependsOn(recipes, d, b)
    ensures DependsOn(recipes, a, b)
  {
    if d == b {
      assert Chain(recipes, [a, b]);
    } else {
      var chain :| Chain(recipes, chain) && |chain| > 1 && chain[0] == d && chain[|chain| - 1] == b;
      var longer := [a] + chain;
      assert forall i :: 0 < i < |longer| ==> longer[i] == chain[i - 1];
      assert Chain(recipes, longer);
    }
  }

  lemma DependsVia(recipes: Recipes, a: string, b: string) returns (d: string)
    requires DependsOn(recipes, a, b)
    ensures a in recipes && d in recipes[a] && (d == b || DependsOn(recipes, d, b))
  {
    var chain :| Chain(recipes, chain) && |chain| > 1 && chain[0] == a && chain[|chain| - 1] == b;
    d := chain[1];
    if |chain| > 2 {
      var rest := chain[1..];
      assert forall i :: 0 <= i < |rest| ==> rest[i] == chain[i + 1];
      assert Chain(recipes, rest);
    }
  }

  // The name is listed or something in the list depends on it.
  ghost predicate Wanted(recipes: Recipes, name: string, list: seq<string>)
  {
    name in list || exists a :: a in list && DependsOn(recipes, a, name)
  }

  // From start to end the order lists what was missing of the names in the list and all they depend on.
  ghost predicate Covers(recipes: Recipes, order: seq<string>, start: nat, end: nat, list: seq<string>)
  {
    start <= end <= |order| && forall n :: n in order[..end] <==> n in order[..start] || Wanted(recipes, n, list)
  }

  ghost predicate CoversWithin(recipes: Recipes, order: seq<string>, start: nat, end: nat, list: seq<string>)
  {
    exists k: nat :: k <= end && Covers(recipes, order, start, k, list)
  }

  // The names in the list are served one by one: each prefix of it is covered before the next name is.
  ghost predicate Served(recipes: Recipes, order: seq<string>, start: nat, end: nat, list: seq<string>)
  {
    && Covers(recipes, order, start, end, list)
    && forall m | 0 <= m <= |list| :: CoversWithin(recipes, order, start, end, list[..m])
  }

  // Every recipe follows directly on its dependencies, which are served in the order of its list.
  ghost predicate OnDemand(recipes: Recipes, order: seq<string>)
  {
    forall j | 0 <= j < |order| ::
      order[j] in recipes && exists start: nat :: Served(recipes, order, start, j, recipes[order[j]])
  }

  lemma ServedStays(recipes: Recipes, order: seq<string>, more: seq<string>, start: nat, end: nat, list: seq<string>)
    requires Served(recipes, order, start, end, list)
    ensures Served(recipes, order + more, start, end, list)
  {
    CoversStays(recipes, order, more, start, end, list);
    forall m | 0 <= m <= |list|
      ensures CoversWithin(recipes, order + more, start, end, list[..m])
    {
      assert CoversWithin(recipes, order, start, end, list[..m]);
      var k: nat :| k <= end && Covers(recipes, order, start, k, list[..m]);
      CoversStays(recipes, order, more, start, k, list[..m]);
    }
  }

  lemma CoversStays(recipes: Recipes, order: seq<string>, more: seq<string>, start: nat, end: nat, list: seq<string>)
    requires Covers(recipes, order, start, end, list)
    ensures Covers(recipes, order + more, start, end, list)
  {
    hide Wanted;
    assert (order + more)[..end] == order[..end] && (order + more)[..start] == order[..start];
  }

  lemma ServedNone(recipes: Recipes, order: seq<string>)
    ensures Served(recipes, order, |order|, |order|, [])
  {
    assert Covers(recipes, order, |order|, |order|, []);
    forall m | 0 <= m <= 0
      ensures CoversWithin(recipes, order, |order|, |order|, [][..m])
    {
      assert Covers(recipes, order, |order|, |order|, [][..m]);
    }
  }

  // One visit adds the recipe and all it depends on, as far as they are missing, and nothing else.
  ghost predicate Adds(recipes: Recipes, before: seq<string>, order: seq<string>, name: string)
  {
    && before <= order
    && forall n :: n in order <==> n in before || n == name || DependsOn(recipes, name, n)
  }

  // One more name of the list is visited.
  lemma ServedNext(recipes: Recipes, order: seq<string>, now: seq<string>, start: nat, list: seq<string>, name: string)
    requires Served(recipes, order, start, |order|, list) && Adds(recipes, order, now, name)
    ensures Served(recipes, now, start, |now|, list + [name])
  {
    hide DependsOn;
    var more, longer := now[|order|..], list + [name];
    assert now == order + more;
    CoversNext(recipes, order, more, start, list, name);
    forall m | 0 <= m <= |longer|
      ensures CoversWithin(recipes, now, start, |now|, longer[..m])
    {
      if m <= |list| {
        assert longer[..m] == list[..m];
        assert CoversWithin(recipes, order, start, |order|, list[..m]);
        var k: nat :| k <= |order| && Covers(recipes, order, start, k, list[..m]);
        CoversStays(recipes, order, more, start, k, list[..m]);
      } else {
        assert longer[..m] == longer;
      }
    }
  }

  lemma CoversNext(recipes: Recipes, order: seq<string>, more: seq<string>, start: nat, list: seq<string>, name: string)
    requires Covers(recipes, order, start, |order|, list)
    requires forall n :: n in order + more <==> n in order || n == name || DependsOn(recipes, name, n)
    ensures Covers(recipes, order + more, start, |order + more|, list + [name])
  {
    hide DependsOn;
    var now, longer := order + more, list + [name];
    assert order[..|order|] == order && now[..|now|] == now && now[..start] == order[..start];
    forall n
      ensures Wanted(recipes, n, longer) <==> Wanted(recipes, n, list) || n == name || DependsOn(recipes, name, n)
    {
      assert name in longer && forall a :: a in longer <==> a in list || a == name;
    }
  }

  // What is wanted by the dependencies of a recipe is what it depends on.
  lemma WantedBelow(recipes: Recipes, name: string, n: string)
    requires name in recipes
    ensures Wanted(recipes, n, recipes[name]) <==> DependsOn(recipes, name, n)
  {
    if DependsOn(recipes, name, n) {
      var d := DependsVia(recipes, name, n);
    } else if Wanted(recipes, n, recipes[name]) {
      if n in recipes[name] {
        DependsStep(recipes, name, n, n);
      } else {
        var d :| d in recipes[name] && DependsOn(recipes, d, n);
        DependsStep(recipes, name, d, n);
      }
    }
  }

  // What is listed already brings nothing new.
  lemma NothingNew(recipes: Recipes, order: seq<string>, name: string)
    requires Closed(recipes, order) && name in Names(order)
    ensures Adds(recipes, order, order, name)
  {
    forall n | DependsOn(recipes, name, n)
      ensures n in order
    {
      var chain :| Chain(recipes, chain) && |chain| > 1 && chain[0] == name && chain[|chain| - 1] == n;
      ChainListed(recipes, order, chain, |chain| - 1);
    }
  }

  lemma {:induction false} ChainListed(recipes: Recipes, order: seq<string>, chain: seq<string>, i: nat)
    requires Closed(recipes, order) && Chain(recipes, chain) && i < |chain| && chain[0] in order
    ensures chain[i] in order
  {
    if i > 0 {
      ChainListed(recipes, order, chain, i - 1);
      var j :| 0 <= j < |order| && order[j] == chain[i - 1];
      assert chain[i] in recipes[chain[i - 1]];
      assert chain[i] in order[..j];
    }
  }

  // A recipe is finished right after its dependencies.
  lemma FinishOnDemand(recipes: Recipes, before: seq<string>, order: seq<string>, name: string)
    requires before <= order && name in recipes && OnDemand(recipes, order)
    requires Served(recipes, order, |before|, |order|, recipes[name])
    ensures OnDemand(recipes, order + [name])
    ensures Adds(recipes, before, order + [name], name)
  {
    var next := order + [name];
    forall j | 0 <= j < |next|
      ensures next[j] in recipes && exists start: nat :: Served(recipes, next, start, j, recipes[next[j]])
    {
      if j < |order| {
        assert next[j] == order[j];
        var start: nat :| Served(recipes, order, start, j, recipes[order[j]]);
        ServedStays(recipes, order, [name], start, j, recipes[order[j]]);
      } else {
        ServedStays(recipes, order, [name], |before|, |order|, recipes[name]);
      }
    }
    assert order[..|order|] == order && order[..|before|] == before;
    assert Covers(recipes, order, |before|, |order|, recipes[name]);
    forall n
      ensures n in next <==> n in before || n == name || DependsOn(recipes, name, n)
    {
      WantedBelow(recipes, name, n);
      assert n in next <==> n in order[..|order|] || n == name;
    }
  }

  // Finished recipes are listed once each, after all their dependencies and on demand.
  ghost predicate Underway(recipes: Recipes, visiting: set<string>, visited: set<string>, order: seq<string>)
  {
    && visiting <= recipes.Keys
    && visited == Names(order) && visited <= recipes.Keys
    && visited !! visiting
    && Closed(recipes, order) && OnDemand(recipes, order)
  }

  lemma BeginVisit(recipes: Recipes, visiting: set<string>, visited: set<string>, order: seq<string>, name: string)
    requires Underway(recipes, visiting, visited, order) && name in recipes && name !in visited && name !in visiting
    ensures Underway(recipes, visiting + {name}, visited, order)
    ensures |recipes.Keys - (visiting + {name})| < |recipes.Keys - visiting|
    ensures visiting + {name} - {name} == visiting
  {
    hide Closed, OnDemand;
    Shrinks(recipes.Keys, visiting, name);
  }

  lemma EndVisit(recipes: Recipes, visiting: set<string>, visited: set<string>, order: seq<string>, name: string,
                 before: seq<string>)
    requires Underway(recipes, visiting, visited, order) && name in visiting && before <= order
    requires forall k :: 0 <= k < |recipes[name]| ==> recipes[name][k] in visited
    requires Served(recipes, order, |before|, |order|, recipes[name])
    ensures Underway(recipes, visiting - {name}, visited + {name}, order + [name])
    ensures Adds(recipes, before, order + [name], name)
  {
    FinishRecipe(recipes, order, visited, name);
    FinishOnDemand(recipes, before, order, name);
  }

  /** The search state: recipes on the current path, recipes finished, and the order so far. */
  class RecipeSearch {
    const recipes: Recipes
    var visiting: set<string>
    var visited: set<string>
    var order: seq<string>

    constructor (recipes: Recipes)
      ensures this.recipes == recipes && visiting == {} && order == [] && Valid()
    {
      this.recipes, visiting, visited, order := recipes, {}, {}, [];
    }

    ghost predicate Valid()
      reads this
    {
      Underway(recipes, visiting, visited, order)
    }

    method Visit(name: string, stack: seq<string>) returns (error: Option<RecipeError>)
      requires Valid() && name in recipes
      requires visiting == Names(stack) && Chain(recipes, stack + [name])
      modifies this
      ensures error.Some? ==> Justified(recipes, error.value)
      ensures error.None? ==> Valid() && visiting == old(visiting) && name in visited
      ensures error.None? ==> old(visited) <= visited && Adds(recipes, old(order), order, name)
      decreases |recipes.Keys - visiting|, 1
    {
      hide Chain, Closed, Justified, Adds, OnDemand, Served;
      assert visiting <= recipes.Keys && visited == Names(order) && Closed(recipes, order);
      if name in visited {
        NothingNew(recipes, order, name);
        return None;
      }
      hide Names, Underway;
      var path := stack + [name];
      if name in visiting {
        ChainReturns(recipes, stack, name);
        return Some(DependencyCycle(path));
      }
      PathNames(stack, name);
      BeginVisit(recipes, visiting, visited, order, name);
      visiting := visiting + {name};
      error := VisitDependencies(name, path);
      if error.Some? {
        return;
      }
      EndVisit(recipes, visiting, visited, order, name, old(order));
      visiting := visiting - {name};
      visited := visited + {name};
      order := order + [name];
      return None;
    }

    // The loop over one recipe's dependencies, with the recipe itself on the path.
    method VisitDependencies(name: string, path: seq<string>) returns (error: Option<RecipeError>)
      requires Valid() && name in visiting
      requires visiting == Names(path) && Chain(recipes, path) && path != [] && path[|path| - 1] == name
      modifies this
      ensures error.Some? ==> Justified(recipes, error.value)
      ensures error.None? ==> Valid() && visiting == old(visiting) && old(visited) <= visited
      ensures error.None? ==> forall k :: 0 <= k < |recipes[name]| ==> recipes[name][k] in visited
      ensures error.None? ==> old(order) <= order && Served(recipes, order, |old(order)|, |order|, recipes[name])
      decreases |recipes.Keys - visiting|, 2
    {
      hide Chain, Closed, Justified, DependsOn, OnDemand, Served;
      var dependencies := recipes[name];
      ServedNone(recipes, order);
      for i := 0 to |dependencies|
        invariant old(order) <= order && Served(recipes, order, |old(order)|, |order|, dependencies[..i])
        invariant Valid() && visiting == old(visiting) && old(visited) <= visited
        invariant forall k :: 0 <= k < i ==> dependencies[k] in visited
      {
        var dependency := dependencies[i];
        if dependency !in recipes {
          MissingRecipe(recipes, name, dependency);
          return Some(UnknownRecipe(name, dependency));
        }
        ChainGrows(recipes, path, dependency);
        ghost var before := order;
        error := Visit(dependency, path);
        if error.Some? {
          return;
        }
        assert dependencies[..i + 1] == dependencies[..i] + [dependency];
        ServedNext(recipes, before, order, |old(order)|, dependencies[..i], dependency);
      }
      assert dependencies[..|dependencies|] == dependencies;
      return None;
    }
  }

  lemma PathNames(stack: seq<string>, name: string)
    ensures Names(stack + [name]) == Names(stack) + {name}
  {
  }

  lemma Shrinks(all: set<string>, some: set<string>, name: string)
    requires name in all && name !in some
    ensures |all - (some + {name})| < |all - some|
  {
    assert all - (some + {name}) == (all - some) - {name};
  }

  lemma ChainReturns(recipes: Recipes, stack: seq<string>, name: string)
    requires Chain(recipes, stack + [name]) && name in Names(stack)
    ensures Justified(recipes, DependencyCycle(stack + [name]))
  {
    assert (stack + [name])[..|stack|] == stack;
  }

  lemma MissingRecipe(recipes: Recipes, recipe: string, dependency: string)
    requires recipe in recipes && dependency in recipes[recipe] && dependency !in recipes
    ensures Justified(recipes, UnknownRecipe(recipe, dependency))
  {
  }

  lemma ChainGrows(recipes: Recipes, path: seq<string>, dependency: string)
    requires path != [] && Chain(recipes, path)
    requires path[|path| - 1] in recipes && dependency in recipes[path[|path| - 1]]
    ensures Chain(recipes, path + [dependency])
  {
    var longer := path + [dependency];
    assert forall i :: 0 <= i < |path| ==> longer[i] == path[i];
  }

  lemma FinishRecipe(recipes: Recipes, order: seq<string>, visited: set<string>, name: string)
    requires visited == Names(order) && Closed(recipes, order)
    requires name in recipes && name !in visited
    requires forall k :: 0 <= k < |recipes[name]| ==> recipes[name][k] in visited
    ensures Closed(recipes, order + [name]) && Names(order + [name]) == visited + {name}
  {
    var next := order + [name];
    forall j, d | 0 <= j < |next| && next[j] in recipes && d in recipes[next[j]]
      ensures d in next[..j]
    {
      if j < |order| {
        assert next[..j] == order[..j];
      } else {
        assert next[..j] == order;
        assert d in visited;
      }
    }
  }

  /**
   The order of all recipes.  It fails exactly when a recipe needs an unknown one or the
   dependencies form a cycle, a self-dependency included; otherwise every recipe is listed
   once, after everything it depends on.  The recipes are served in the order of the document, and
   the dependencies of each in the order of its list.
   */
  method Order(names: seq<string>, recipes: Recipes) returns (result: Result<seq<string>, RecipeError>)
    requires Distinct(names) && Names(names) == recipes.Keys
    ensures result.Ok? <==> AllKnown(recipes) && Acyclic(Needs(recipes))
    ensures result.Ok? ==> multiset(result.value) == multiset(names) && SourcesFirst(Needs(recipes), result.value)
    ensures result.Ok? ==> OnDemand(recipes, result.value) && Served(recipes, result.value, 0, |result.value|, names)
    ensures result.Err? ==> Justified(recipes, result.error)
  {
    hide Chain, Closed, Justified, DependsOn, OnDemand, Served;
    var search := new RecipeSearch(recipes);
    ServedNone(recipes, []);
    for i := 0 to |names|
      invariant fresh(search) && search.recipes == recipes && search.Valid() && search.visiting == {}
      invariant forall k :: 0 <= k < i ==> names[k] in search.visited
      invariant Served(recipes, search.order, 0, |search.order|, names[..i])
    {
      assert names[i] in Names(names);
      ChainOfOne(recipes, names[i]);
      ghost var before := search.order;
      var error := search.Visit(names[i], []);
      if error.Some? {
        Refutes(recipes, error.value);
        return Err(error.value);
      }
      assert names[..i + 1] == names[..i] + [names[i]];
      ServedNext(recipes, before, search.order, 0, names[..i], names[i]);
    }
    assert names[..|names|] == names;
    AllListed(names, recipes, search.order);
    return Ok(search.order);
  }

  lemma ChainOfOne(recipes: Recipes, name: string)
    ensures Chain(recipes, [] + [name])
  {
  }

  lemma Refutes(recipes: Recipes, error: RecipeError)
    requires Justified(recipes, error)
    ensures !(AllKnown(recipes) && Acyclic(Needs(recipes)))
  {
    if error.DependencyCycle? {
      var cycle := ChainIsCycle(recipes, error.chain);
    }
  }

  lemma AllListed(names: seq<string>, recipes: Recipes, order: seq<string>)
    requires Distinct(names) && Names(names) == recipes.Keys
    requires Closed(recipes, order) && Names(order) <= recipes.Keys
    requires forall k :: 0 <= k < |names| ==> names[k] in Names(order)
    ensures multiset(order) == multiset(names)
    ensures AllKnown(recipes) && Acyclic(Needs(recipes)) && SourcesFirst(Needs(recipes), order)
  {
    assert Names(order) == Names(names);
    SameNamesPermute(order, names);
    forall a, b | a in recipes && b in recipes[a]
      ensures b in recipes && b in order && a in order
    {
      assert a in Names(order);
      var j :| 0 <= j < |order| && order[j] == a;
      assert b in order[..j];
      assert b in Names(order);
    }
    OrderedIsAcyclic(Needs(recipes), order);
  }
}
