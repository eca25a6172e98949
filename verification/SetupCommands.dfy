/** Setup commands handed from every build recipe to the recipes that depend on it. */
module SetupCommands {
  import opened Wrappers
  import opened Graph
  import opened RecipeOrder

  // The commands that each recipe provides itself.
  type Own = map<string, seq<string>>

  // A command that the recipes below this one provide.
  ghost predicate Upstream(recipes: Recipes, own: Own, name: string, command: string)
  {
    exists r :: DependsOn(recipes, name, r) && r in own && command in own[r]
  }

  // Some recipe providing "later" depends on a recipe providing "earlier".
  ghost predicate Before(recipes: Recipes, own: Own, earlier: string, later: string)
  {
    exists r :: r in own && later in own[r] && Upstream(recipes, own, r, earlier)
  }

  // Each listed command comes after everything it builds on.
  ghost predicate Layered(recipes: Recipes, own: Own, commands: seq<string>)
  {
    forall i, c :: 0 <= i < |commands| && Before(recipes, own, c, commands[i]) ==> c in commands[..i]
  }

  // Wherever a command is provided, what it builds on is provided upstream or earlier in the same recipe.
  ghost predicate Orderly(recipes: Recipes, own: Own)
  {
    forall r, k, c :: r in own && 0 <= k < |own[r]| && Before(recipes, own, c, own[r][k]) ==>
      Upstream(recipes, own, r, c) || c in own[r][..k]
  }

  // No command is provided by two recipes.
  ghost predicate SingleProviders(own: Own)
  {
    forall r, s, c :: r in own && s in own && c in own[r] && c in own[s] ==> r == s
  }

  // Append the items that are not there yet, in order.
  function MergeNew(commands: seq<string>, items: seq<string>): seq<string>
    decreases |items|
  {
    if items == [] then commands
    else MergeNew(if items[0] in commands then commands else commands + [items[0]], items[1..])
  }

  lemma {:induction false} MergeSnoc(commands: seq<string>, items: seq<string>, last: string)
    ensures var merged := MergeNew(commands, items);
            MergeNew(commands, items + [last]) == if last in merged then merged else merged + [last]
    decreases |items|
  {
    if items == [] {
      assert items + [last] == [last] && [last][1..] == [];
    } else {
      assert (items + [last])[1..] == items[1..] + [last];
      MergeSnoc(if items[0] in commands then commands else commands + [items[0]], items[1..], last);
    }
  }

  /** Both accumulation loops of the compiler have this shape. */
  method Merge(commands: seq<string>, items: seq<string>) returns (merged: seq<string>)
    ensures merged == MergeNew(commands, items)
  {
    merged := commands;
    for k := 0 to |items|
      invariant merged == MergeNew(commands, items[..k])
    {
      assert items[..k + 1] == items[..k] + [items[k]];
      MergeSnoc(commands, items[..k], items[k]);
      if items[k] !in merged {
        merged := merged + [items[k]];
      }
    }
    assert items[..|items|] == items;
  }

  lemma {:induction false} MergeHas(commands: seq<string>, items: seq<string>)
    ensures forall c :: c in MergeNew(commands, items) <==> c in commands || c in items
    ensures Distinct(commands) ==> Distinct(MergeNew(commands, items))
    decreases |items|
  {
    if items != [] {
      var init, last := items[..|items| - 1], items[|items| - 1];
      assert items == init + [last];
      MergeHas(commands, init);
      MergeSnoc(commands, init, last);
    }
  }

  // Every item's requirements are met by the list it is merged into, or by the items before it.
  ghost predicate Supported(recipes: Recipes, own: Own, commands: seq<string>, items: seq<string>)
  {
    forall k, c :: 0 <= k < |items| && Before(recipes, own, c, items[k]) ==> c in commands || c in items[..k]
  }

  lemma {:induction false} MergeLayered(recipes: Recipes, own: Own, commands: seq<string>, items: seq<string>)
    requires Layered(recipes, own, commands) && Supported(recipes, own, commands, items)
    ensures Layered(recipes, own, MergeNew(commands, items))
    decreases |items|
  {
    hide Before;
    if items != [] {
      var init, last := items[..|items| - 1], items[|items| - 1];
      assert items == init + [last];
      assert forall k :: 0 <= k < |init| ==> init[k] == items[k] && init[..k] == items[..k];
      MergeLayered(recipes, own, commands, init);
      MergeSnoc(commands, init, last);
      MergeHas(commands, init);
      LayeredSnoc(recipes, own, MergeNew(commands, init), last);
    }
  }

  lemma LayeredSnoc(recipes: Recipes, own: Own, commands: seq<string>, last: string)
    requires Layered(recipes, own, commands)
    requires forall c :: Before(recipes, own, c, last) ==> c in commands
    ensures Layered(recipes, own, commands + [last])
  {
    hide Before;
    var longer := commands + [last];
    forall i, c | 0 <= i < |longer| && Before(recipes, own, c, longer[i])
      ensures c in longer[..i]
    {
      if i < |commands| {
        assert longer[..i] == commands[..i];
      } else {
        assert longer[..i] == commands;
      }
    }
  }

  // Every recipe is known and says what it provides.
  ghost predicate Complete(recipes: Recipes, own: Own)
  {
    recipes.Keys == own.Keys && AllKnown(recipes)
  }

  lemma UpstreamStep(recipes: Recipes, own: Own, name: string, d: string, command: string)
    requires Complete(recipes, own) && name in recipes && d in recipes[name] && d in own
    requires command in own[d] || Upstream(recipes, own, d, command)
    ensures Upstream(recipes, own, name, command)
  {
    var r := d;
    if command !in own[d] {
      r :| DependsOn(recipes, d, r) && r in own && command in own[r];
    }
    DependsStep(recipes, name, d, r);
  }

  lemma UpstreamVia(recipes: Recipes, own: Own, name: string, command: string) returns (d: string)
    requires Complete(recipes, own) && Upstream(recipes, own, name, command)
    ensures name in recipes && d in recipes[name] && d in own
    ensures command in own[d] || Upstream(recipes, own, d, command)
  {
    var r :| DependsOn(recipes, name, r) && r in own && command in own[r];
    d := DependsVia(recipes, name, r);
  }

  // What a recipe inherits: the commands of everything it depends on, once, in layers.
  ghost predicate Inherits(recipes: Recipes, own: Own, name: string, commands: seq<string>)
  {
    && Distinct(commands)
    && (forall c :: c in commands <==> Upstream(recipes, own, name, c))
    && (Orderly(recipes, own) ==> Layered(recipes, own, commands))
  }

  // What a recipe passes on: what it inherits and what it provides itself.
  ghost predicate Provides(recipes: Recipes, own: Own, name: string, commands: seq<string>)
    requires name in own
  {
    && Distinct(commands)
    && (forall c :: c in commands <==> Upstream(recipes, own, name, c) || c in own[name])
    && (Orderly(recipes, own) ==> Layered(recipes, own, commands))
  }

  ghost predicate Finished(recipes: Recipes, own: Own, names: seq<string>, provided: map<string, seq<string>>)
  {
    forall n :: n in names ==> n in own && n in provided && Provides(recipes, own, n, provided[n])
  }

  // The commands collected from the first dependencies of a recipe.
  ghost predicate Collected(recipes: Recipes, own: Own, dependencies: seq<string>, commands: seq<string>)
  {
    && Distinct(commands)
    && (forall c :: c in commands ==> exists d :: d in dependencies && d in own && (Upstream(recipes, own, d, c) || c in own[d]))
    && (forall c, d :: d in dependencies && d in own && (Upstream(recipes, own, d, c) || c in own[d]) ==> c in commands)
    && (Orderly(recipes, own) ==> Layered(recipes, own, commands))
  }

  lemma CollectOne(recipes: Recipes, own: Own, dependencies: seq<string>, commands: seq<string>, next: string,
                   items: seq<string>)
    requires Collected(recipes, own, dependencies, commands)
    requires next in own && Provides(recipes, own, next, items)
    ensures Collected(recipes, own, dependencies + [next], MergeNew(commands, items))
  {
    hide Upstream, Layered, Orderly;
    MergeHas(commands, items);
    if Orderly(recipes, own) {
      LayeredSupports(recipes, own, commands, items);
      MergeLayered(recipes, own, commands, items);
    }
  }

  lemma LayeredSupports(recipes: Recipes, own: Own, commands: seq<string>, items: seq<string>)
    requires Layered(recipes, own, items)
    ensures Supported(recipes, own, commands, items)
  {
    hide Before;
  }

  lemma CollectedInherits(recipes: Recipes, own: Own, name: string, commands: seq<string>)
    requires Complete(recipes, own) && name in recipes
    requires Collected(recipes, own, recipes[name], commands)
    ensures Inherits(recipes, own, name, commands)
  {
    hide Upstream, Layered;
    forall c
      ensures c in commands <==> Upstream(recipes, own, name, c)
    {
      if c in commands {
        var d :| d in recipes[name] && d in own && (Upstream(recipes, own, d, c) || c in own[d]);
        UpstreamStep(recipes, own, name, d, c);
      }
      if Upstream(recipes, own, name, c) {
        var d := UpstreamVia(recipes, own, name, c);
      }
    }
  }

  lemma OwnProvides(recipes: Recipes, own: Own, name: string, inherited: seq<string>)
    requires name in own && Inherits(recipes, own, name, inherited)
    ensures Provides(recipes, own, name, MergeNew(inherited, own[name]))
  {
    hide Upstream, Layered, Orderly;
    MergeHas(inherited, own[name]);
    if Orderly(recipes, own) {
      OwnSupported(recipes, own, name, inherited);
      MergeLayered(recipes, own, inherited, own[name]);
    }
  }

  lemma OwnSupported(recipes: Recipes, own: Own, name: string, inherited: seq<string>)
    requires name in own && Orderly(recipes, own)
    requires forall c :: c in inherited <==> Upstream(recipes, own, name, c)
    ensures Supported(recipes, own, inherited, own[name])
  {
    hide Upstream, Before;
  }

  /** With single providers, what a command builds on is always upstream of its recipe. */
  lemma SingleProvidersAreOrderly(recipes: Recipes, own: Own)
    requires SingleProviders(own)
    ensures Orderly(recipes, own)
  {
    hide Upstream;
    forall r, k, c | r in own && 0 <= k < |own[r]| && Before(recipes, own, c, own[r][k])
      ensures Upstream(recipes, own, r, c)
    {
      var s :| s in own && own[r][k] in own[s] && Upstream(recipes, own, s, c);
      assert s == r;
    }
  }

  // A layered list that a recipe passes on has what its own commands build on in time.
  lemma LayeredIsOrderly(recipes: Recipes, own: Own, name: string, inherited: seq<string>, k: nat, c: string)
    requires name in own && k < |own[name]| && Before(recipes, own, c, own[name][k])
    requires forall d :: d in inherited <==> Upstream(recipes, own, name, d)
    requires Layered(recipes, own, MergeNew(inherited, own[name]))
    ensures Upstream(recipes, own, name, c) || c in own[name][..k]
  {
    hide Upstream, Before;
    var items := own[name];
    var merged := MergeNew(inherited, items);
    MergeHas(inherited, items);
    assert items[k] in merged;
    var j := FirstAt(items, k);
    if items[k] in inherited {
      var i :| 0 <= i < |inherited| && inherited[i] == items[k];
      MergeExtends(inherited, items);
      assert merged[i] == items[k] && merged[..i] == inherited[..i];
    } else {
      MergeAt(inherited, items, j);
      var before := MergeNew(inherited, items[..j]);
      MergeHas(inherited, items[..j]);
      assert merged[|before|] == items[k] && merged[..|before|] == before;
    }
  }

  // The first occurrence of an item.
  lemma FirstAt(items: seq<string>, k: nat) returns (j: nat)
    requires k < |items|
    ensures j <= k && items[j] == items[k] && items[j] !in items[..j]
  {
    j := k;
    while items[j] in items[..j]
      invariant j <= k && items[j] == items[k]
      decreases j
    {
      var i :| 0 <= i < j && items[i] == items[j];
      j := i;
    }
  }

  lemma {:induction false} MergeExtends(commands: seq<string>, items: seq<string>)
    ensures commands <= MergeNew(commands, items)
    decreases |items|
  {
    if items != [] {
      MergeExtends(if items[0] in commands then commands else commands + [items[0]], items[1..]);
    }
  }

  // An item that is new when its turn comes is placed right behind what was merged before it.
  lemma {:induction false} MergeAt(commands: seq<string>, items: seq<string>, j: nat)
    requires j < |items| && items[j] !in commands && items[j] !in items[..j]
    ensures MergeNew(commands, items[..j]) + [items[j]] <= MergeNew(commands, items)
    decreases |items|
  {
    var next := if items[0] in commands then commands else commands + [items[0]];
    if j == 0 {
      MergeExtends(next, items[1..]);
    } else {
      assert items[..j][1..] == items[1..][..j - 1];
      assert items[0] in items[..j];
      MergeAt(next, items[1..], j - 1);
    }
  }

  // What the dependencies of a recipe pass on, merged in their order.
  function Gathered(dependencies: seq<string>, provided: map<string, seq<string>>): seq<string>
    requires forall d :: d in dependencies ==> d in provided
  {
    if dependencies == [] then []
    else
      var last := |dependencies| - 1;
      MergeNew(Gathered(dependencies[..last], provided), provided[dependencies[last]])
  }

  lemma {:induction false} GatheredKeeps(dependencies: seq<string>, before: map<string, seq<string>>,
                                         after: map<string, seq<string>>)
    requires forall d :: d in dependencies ==> d in before && d in after && after[d] == before[d]
    ensures Gathered(dependencies, before) == Gathered(dependencies, after)
  {
    if dependencies != [] {
      GatheredKeeps(dependencies[..|dependencies| - 1], before, after);
    }
  }

  // All that is passed on, repetitions included: dependency by dependency, each list in its order.
  function PassedOn(dependencies: seq<string>, provided: map<string, seq<string>>): seq<string>
    requires forall d :: d in dependencies ==> d in provided
  {
    if dependencies == [] then [] else provided[dependencies[0]] + PassedOn(dependencies[1..], provided)
  }

  lemma {:induction false} PassedOnSnoc(dependencies: seq<string>, last: string, provided: map<string, seq<string>>)
    requires forall d :: d in dependencies + [last] ==> d in provided
    ensures last in provided && forall d :: d in dependencies ==> d in provided
    ensures PassedOn(dependencies + [last], provided) == PassedOn(dependencies, provided) + provided[last]
  {
    assert last in dependencies + [last] && forall d :: d in dependencies ==> d in dependencies + [last];
    if dependencies == [] {
      assert dependencies + [last] == [last] && [last][1..] == [];
    } else {
      assert (dependencies + [last])[1..] == dependencies[1..] + [last];
      PassedOnSnoc(dependencies[1..], last, provided);
    }
  }

  // The commands are the items, each once, in the order in which they first appear among the items.
  ghost predicate FirstCome(items: seq<string>, commands: seq<string>)
  {
    && Names(commands) == Names(items)
    && forall p, q | 0 <= p < q < |commands| :: Position(items, commands[p]) < Position(items, commands[q])
  }

  lemma {:induction false} PositionAppend(items: seq<string>, last: string, c: string)
    ensures Position(items + [last], c) == if c in items || c == last then Position(items, c) else |items| + 1
    ensures c !in items ==> Position(items, c) == |items|
  {
    if items == [] {
      assert items + [last] == [last] && [last][1..] == [];
    } else {
      assert (items + [last])[1..] == items[1..] + [last];
      PositionAppend(items[1..], last, c);
    }
  }

  lemma FirstComeNext(items: seq<string>, commands: seq<string>, last: string)
    requires FirstCome(items, commands)
    ensures FirstCome(items + [last], if last in commands then commands else commands + [last])
  {
    hide Position;
    var more, next := items + [last], if last in commands then commands else commands + [last];
    assert forall c :: c in items <==> c in Names(items);
    assert forall c :: c in commands <==> c in Names(commands);
    forall p, q | 0 <= p < q < |next|
      ensures Position(more, next[p]) < Position(more, next[q])
    {
      assert next[p] == commands[p] && commands[p] in items;
      PositionAppend(items, last, next[p]);
      PositionAppend(items, last, next[q]);
      PositionFound(items, next[p]);
      assert next[q] in commands || next[q] == last;
    }
    assert Names(more) == Names(items) + {last};
    assert Names(next) == Names(commands) + {last};
  }

  lemma {:induction false} MergeFirstCome(items: seq<string>, commands: seq<string>, more: seq<string>)
    requires FirstCome(items, commands)
    ensures FirstCome(items + more, MergeNew(commands, more))
    decreases |more|
  {
    hide FirstCome;
    if more == [] {
      assert items + more == items;
    } else {
      var init, last := more[..|more| - 1], more[|more| - 1];
      assert more == init + [last] && items + more == (items + init) + [last];
      MergeFirstCome(items, commands, init);
      MergeSnoc(commands, init, last);
      FirstComeNext(items + init, MergeNew(commands, init), last);
    }
  }

  lemma {:induction false} GatheredFirstCome(dependencies: seq<string>, provided: map<string, seq<string>>)
    requires forall d :: d in dependencies ==> d in provided
    ensures FirstCome(PassedOn(dependencies, provided), Gathered(dependencies, provided))
  {
    if dependencies == [] {
      assert Gathered(dependencies, provided) == [] == PassedOn(dependencies, provided);
    } else {
      var init, last := dependencies[..|dependencies| - 1], dependencies[|dependencies| - 1];
      assert dependencies == init + [last];
      GatheredFirstCome(init, provided);
      PassedOnSnoc(init, last, provided);
      MergeFirstCome(PassedOn(init, provided), Gathered(init, provided), provided[last]);
    }
  }

  /**
   What a recipe inherits are the lists of its dependencies one after the other, and what it passes on
   are those followed by its own commands, each command only where it comes first.
   */
  lemma CompiledFirstCome(recipes: Recipes, own: Own, n: string, inherited: map<string, seq<string>>,
                          provided: map<string, seq<string>>)
    requires n in recipes && n in own && Compiled(recipes, own, n, inherited, provided)
    ensures FirstCome(PassedOn(recipes[n], provided), inherited[n])
    ensures FirstCome(PassedOn(recipes[n], provided) + own[n], provided[n])
  {
    GatheredFirstCome(recipes[n], provided);
    MergeFirstCome(PassedOn(recipes[n], provided), inherited[n], own[n]);
  }

  /** One recipe's inherited commands, from what its dependencies pass on. */
  method Inherit(recipes: Recipes, ghost own: Own, name: string, provided: map<string, seq<string>>)
    returns (inherited: seq<string>)
    requires Complete(recipes, own) && name in recipes
    requires Finished(recipes, own, recipes[name], provided)
    ensures Inherits(recipes, own, name, inherited)
    ensures inherited == Gathered(recipes[name], provided)
  {
    hide Collected, Provides, Inherits;
    var dependencies := recipes[name];
    inherited := [];
    CollectNone(recipes, own);
    for i := 0 to |dependencies|
      invariant Collected(recipes, own, dependencies[..i], inherited)
      invariant inherited == Gathered(dependencies[..i], provided)
    {
      var d := dependencies[i];
      assert dependencies[..i + 1] == dependencies[..i] + [d];
      assert dependencies[..i + 1][..i] == dependencies[..i];
      CollectOne(recipes, own, dependencies[..i], inherited, d, provided[d]);
      inherited := Merge(inherited, provided[d]);
    }
    assert dependencies[..|dependencies|] == dependencies;
    CollectedInherits(recipes, own, name, inherited);
  }

  lemma CollectNone(recipes: Recipes, own: Own)
    ensures forall none: seq<string> :: none == [] ==> Collected(recipes, own, none, none)
  {
  }

  // What the compiler computes for one recipe.
  ghost predicate Compiled(recipes: Recipes, own: Own, n: string, inherited: map<string, seq<string>>,
                           provided: map<string, seq<string>>)
    requires n in recipes && n in own
  {
    && n in inherited && n in provided && (forall d :: d in recipes[n] ==> d in provided)
    && inherited[n] == Gathered(recipes[n], provided)
    && provided[n] == MergeNew(inherited[n], own[n])
  }

  /**
   The propagation loop.  In dependency order, each recipe inherits exactly the commands of the
   recipes it depends on, directly or not, without duplicates.  All lists passed on are layered,
   each command behind the commands it builds on, exactly when the recipes are orderly.
   */
  method Propagate(order: seq<string>, recipes: Recipes, own: Own)
    returns (inherited: map<string, seq<string>>, provided: map<string, seq<string>>)
    requires Complete(recipes, own) && Names(order) == recipes.Keys
    requires Distinct(order) && SourcesFirst(Needs(recipes), order)
    ensures inherited.Keys == recipes.Keys
    ensures forall n :: n in inherited ==> Inherits(recipes, own, n, inherited[n])
    ensures Finished(recipes, own, order, provided)
    ensures forall n :: n in recipes ==> Compiled(recipes, own, n, inherited, provided)
    ensures (forall n :: n in order ==> Layered(recipes, own, provided[n])) <==> Orderly(recipes, own)
  {
    hide Inherits, Provides, Compiled, Layered, Orderly, SourcesFirst, Needs, Distinct, Names, Complete;
    inherited, provided := map[], map[];
    NothingNamed();
    for i := 0 to |order|
      invariant inherited.Keys == provided.Keys == Names(order[..i])
      invariant forall n :: n in inherited ==> Inherits(recipes, own, n, inherited[n])
      invariant Finished(recipes, own, order[..i], provided)
      invariant forall n :: n in order[..i] ==> n in recipes && n in own && Compiled(recipes, own, n, inherited, provided)
    {
      var name := order[i];
      NextRecipe(order, recipes, own, i);
      var commands := Inherit(recipes, own, name, provided);
      OwnProvides(recipes, own, name, commands);
      var combined := Merge(commands, own[name]);
      CompileNext(recipes, own, order[..i], name, inherited, provided, commands);
      inherited := inherited[name := commands];
      provided := provided[name := combined];
    }
    assert order[..|order|] == order;
    EveryRecipe(order, recipes);
    AllLayeredExactly(order, recipes, own, inherited, provided);
  }

  /** The whole compiler: recipes in dependency order, then the propagation over that order. */
  method CompileCommands(names: seq<string>, recipes: Recipes, own: Own)
    returns (result: Result<map<string, seq<string>>, RecipeError>, provided: map<string, seq<string>>)
    requires Distinct(names) && Names(names) == recipes.Keys == own.Keys
    ensures result.Ok? <==> AllKnown(recipes) && Acyclic(Needs(recipes))
    ensures result.Ok? ==> result.value.Keys == recipes.Keys
    ensures result.Ok? ==> forall n :: n in recipes ==>
              Inherits(recipes, own, n, result.value[n]) && Compiled(recipes, own, n, result.value, provided)
    ensures result.Ok? ==>
              ((forall n :: n in recipes ==> n in provided && Layered(recipes, own, provided[n])) <==> Orderly(recipes, own))
  {
    hide Inherits, Compiled, Layered, Orderly, Acyclic, Names, Distinct, SourcesFirst;
    provided := map[];
    var sorted := Order(names, recipes);
    if sorted.Err? {
      return Err(sorted.error), provided;
    }
    PermutedDistinct(sorted.value, names);
    var inherited;
    inherited, provided := Propagate(sorted.value, recipes, own);
    EveryRecipe(sorted.value, recipes);
    AllProvided(recipes, own, inherited, provided);
    return Ok(inherited), provided;
  }

  lemma AllProvided(recipes: Recipes, own: Own, inherited: map<string, seq<string>>, provided: map<string, seq<string>>)
    requires recipes.Keys == own.Keys
    requires forall n :: n in recipes ==> Compiled(recipes, own, n, inherited, provided)
    ensures forall n :: n in recipes ==> n in provided
  {
    forall n | n in recipes
      ensures n in provided
    {
      assert Compiled(recipes, own, n, inherited, provided);
    }
  }

  lemma NothingNamed()
    ensures Names([]) == {}
  {
  }

  lemma EveryRecipe(order: seq<string>, recipes: Recipes)
    requires Names(order) == recipes.Keys
    ensures forall n :: n in recipes <==> n in order
  {
    assert forall n :: n in order <==> n in Names(order);
  }

  // The next recipe in the order is new, and all it depends on is done.
  lemma NextRecipe(order: seq<string>, recipes: Recipes, own: Own, i: nat)
    requires Complete(recipes, own) && Names(order) == recipes.Keys && i < |order|
    requires Distinct(order) && SourcesFirst(Needs(recipes), order)
    ensures order[i] in recipes && order[i] in own && order[i] !in order[..i]
    ensures order[..i + 1] == order[..i] + [order[i]]
    ensures Names(order[..i + 1]) == Names(order[..i]) + {order[i]}
    ensures forall d :: d in recipes[order[i]] ==> d in order[..i] && d in Names(order[..i])
  {
    assert order[i] in Names(order);
    assert order[..i + 1] == order[..i] + [order[i]];
    forall d | d in recipes[order[i]]
      ensures d in order[..i]
    {
      assert Arc(d, order[i]) in Needs(recipes);
    }
  }

  lemma CompileNext(recipes: Recipes, own: Own, done: seq<string>, name: string, inherited: map<string, seq<string>>,
                    provided: map<string, seq<string>>, commands: seq<string>)
    requires (forall n :: n in done ==> n in recipes && n in own) && name in recipes && name in own && name !in done
    requires provided.Keys == Names(done) && forall d :: d in recipes[name] ==> d in done
    requires forall n :: n in done ==> Compiled(recipes, own, n, inherited, provided)
    requires commands == Gathered(recipes[name], provided)
    ensures forall n :: n in done + [name] ==>
              Compiled(recipes, own, n, inherited[name := commands], provided[name := MergeNew(commands, own[name])])
  {
    var now := provided[name := MergeNew(commands, own[name])];
    forall n | n in done + [name]
      ensures Compiled(recipes, own, n, inherited[name := commands], now)
    {
      assert n == name || Compiled(recipes, own, n, inherited, provided);
      GatheredKeeps(recipes[n], provided, now);
    }
  }

  lemma AllLayeredExactly(order: seq<string>, recipes: Recipes, own: Own, inherited: map<string, seq<string>>,
                          provided: map<string, seq<string>>)
    requires Complete(recipes, own) && Names(order) == recipes.Keys == inherited.Keys
    requires forall n :: n in inherited ==> Inherits(recipes, own, n, inherited[n])
    requires Finished(recipes, own, order, provided)
    requires forall n :: n in order ==> n in recipes && Compiled(recipes, own, n, inherited, provided)
    ensures (forall n :: n in order ==> Layered(recipes, own, provided[n])) <==> Orderly(recipes, own)
  {
    hide Before, Upstream, Layered, Gathered;
    if forall n :: n in order ==> Layered(recipes, own, provided[n]) {
      forall r, k, c | r in own && 0 <= k < |own[r]| && Before(recipes, own, c, own[r][k])
        ensures Upstream(recipes, own, r, c) || c in own[r][..k]
      {
        assert r in Names(order);
        assert Compiled(recipes, own, r, inherited, provided);
        LayeredIsOrderly(recipes, own, r, inherited[r], k, c);
      }
    }
  }

  /**
   With two providers of one command the layering can fail: recipes a and c both provide x and
   c needs d, which provides z; the recipe that depends on a and c inherits x before z.
   */
  method SharedProviderBreaksLayers() returns (recipes: Recipes, own: Own, inherited: map<string, seq<string>>)
    ensures "top" in inherited && inherited["top"] == ["x", "z"] && Before(recipes, own, "z", "x")
    ensures !Orderly(recipes, own)
  {
    hide Orderly, Before, Distinct, SourcesFirst, Compiled, Layered;
    recipes := map["a" := [], "c" := ["d"], "d" := [], "top" := ["a", "c"]];
    own := map["a" := ["x"], "c" := ["x"], "d" := ["z"], "top" := []];
    var order := ["a", "d", "c", "top"];
    ExampleOrder(recipes, order);
    ExampleIsNotOrderly(recipes, own);
    var provided;
    inherited, provided := Propagate(order, recipes, own);
    ExampleLists(recipes, own, inherited, provided);
  }

  lemma ExampleIsNotOrderly(recipes: Recipes, own: Own)
    requires recipes == map["a" := [], "c" := ["d"], "d" := [], "top" := ["a", "c"]]
    requires own == map["a" := ["x"], "c" := ["x"], "d" := ["z"], "top" := []]
    ensures Complete(recipes, own) && Before(recipes, own, "z", "x") && !Orderly(recipes, own)
  {
    hide DependsOn;
    DependsStep(recipes, "c", "d", "d");
    assert Upstream(recipes, own, "c", "z");
    assert Before(recipes, own, "z", own["a"][0]);
    if Upstream(recipes, own, "a", "z") {
      var d := UpstreamVia(recipes, own, "a", "z");
    }
  }

  lemma ExampleOrder(recipes: Recipes, order: seq<string>)
    requires recipes == map["a" := [], "c" := ["d"], "d" := [], "top" := ["a", "c"]] && order == ["a", "d", "c", "top"]
    ensures Distinct(order) && Names(order) == recipes.Keys && SourcesFirst(Needs(recipes), order)
  {
    forall j, from | 0 <= j < |order| && Arc(from, order[j]) in Needs(recipes)
      ensures from in order[..j]
    {
      assert from in recipes[order[j]];
      assert order[..2] == ["a", "d"] && order[..3] == ["a", "d", "c"];
    }
  }

  lemma ExampleLists(recipes: Recipes, own: Own, inherited: map<string, seq<string>>, provided: map<string, seq<string>>)
    requires recipes == map["a" := [], "c" := ["d"], "d" := [], "top" := ["a", "c"]]
    requires own == map["a" := ["x"], "c" := ["x"], "d" := ["z"], "top" := []]
    requires forall n :: n in recipes ==> Compiled(recipes, own, n, inherited, provided)
    ensures "top" in inherited && inherited["top"] == ["x", "z"]
  {
    hide MergeNew, Gathered;
    assert Compiled(recipes, own, "a", inherited, provided) && Compiled(recipes, own, "d", inherited, provided);
    assert Compiled(recipes, own, "c", inherited, provided) && Compiled(recipes, own, "top", inherited, provided);
    GatheredFew(provided, "d", "d");
    GatheredFew(provided, "a", "c");
    MergeFew([], "x", "x");
    MergeFew([], "z", "z");
    MergeFew(["z"], "x", "x");
    MergeFew(["x"], "z", "x");
    assert ["z"] + ["x"] == ["z", "x"] && ["x"] + ["z"] == ["x", "z"];
    assert [] + ["x"] == ["x"] && [] + ["z"] == ["z"];
    assert provided["a"] == ["x"] && provided["d"] == ["z"];
    assert provided["c"] == ["z", "x"];
    assert ["x", "z"][0] == "x" && MergeNew(["x"], ["z"]) == ["x", "z"];
  }

  lemma GatheredFew(provided: map<string, seq<string>>, a: string, b: string)
    requires a in provided && b in provided
    ensures Gathered([], provided) == [] && Gathered([a], provided) == MergeNew([], provided[a])
    ensures Gathered([a, b], provided) == MergeNew(MergeNew([], provided[a]), provided[b])
  {
    hide MergeNew;
    assert [a, b][..1] == [a] && [a][..0] == [];
  }

  lemma MergeFew(commands: seq<string>, x: string, y: string)
    ensures MergeNew(commands, []) == commands
    ensures MergeNew(commands, [x]) == if x in commands then commands else commands + [x]
    ensures y in MergeNew(commands, [x]) ==> MergeNew(commands, [x, y]) == MergeNew(commands, [x])
  {
    MergeSnoc(commands, [], x);
    MergeSnoc(commands, [x], y);
    assert [] + [x] == [x] && [x] + [y] == [x, y];
  }
}
