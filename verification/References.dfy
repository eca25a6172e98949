/** The two string notations of a pipeline graph: "node.port" and "fragment__node". */
module References {

  datatype Split = Split(head: string, found: bool, tail: string)

  // Python's text.partition("."): cut at the first dot.
  function Partition(text: string): Split
  {
    if text == [] then Split([], false, [])
    else if text[0] == '.' then Split([], true, text[1..])
    else
      var rest := Partition(text[1..]);
      Split([text[0]] + rest.head, rest.found, rest.tail)
  }

  lemma {:induction false} PartitionOfReference(name: string, port: string)
    requires '.' !in name
    ensures Partition(name + "." + port) == Split(name, true, port)
  {
    if name != [] {
      assert (name + "." + port)[1..] == name[1..] + "." + port;
      PartitionOfReference(name[1..], port);
    } else {
      assert name + "." + port == "." + port;
    }
  }

  lemma {:induction false} PartitionSplits(text: string)
    ensures '.' !in Partition(text).head
    ensures text == if Partition(text).found then Partition(text).head + "." + Partition(text).tail else Partition(text).head
  {
    if text != [] && text[0] != '.' {
      PartitionSplits(text[1..]);
    }
  }

  // A dot-free beginning of a text belongs to what lies before its first dot.
  lemma {:induction false} PartitionKeeps(start: string, rest: string)
    requires '.' !in start
    ensures Partition(start + rest).head == start + Partition(rest).head
  {
    if start != [] {
      assert (start + rest)[1..] == start[1..] + rest;
      PartitionKeeps(start[1..], rest);
    } else {
      assert start + rest == rest;
    }
  }

  function Qualify(instance: string, name: string): string
  {
    instance + "__" + name
  }

  lemma QualifyInjective(instance: string, a: string, b: string)
    requires Qualify(instance, a) == Qualify(instance, b)
    ensures a == b
  {
    assert Qualify(instance, a)[|instance| + 2..] == a;
    assert Qualify(instance, b)[|instance| + 2..] == b;
  }

  // A node of a fragment tree: the fragment instances that lead to it, outermost first.
  datatype Path = Node(name: string) | Inside(instance: string, rest: Path)

  // The name that a path is given in the flat graph.
  function Join(path: Path): string
  {
    match path
    case Node(name) => name
    case Inside(instance, rest) => Qualify(instance, Join(rest))
  }

  // Renaming level by level and joining the whole path give the same name.
  lemma JoinQualify(instance: string, name: string, rest: Path)
    ensures Join(Inside(Qualify(instance, name), rest)) == Join(Inside(instance, Inside(name, rest)))
    ensures Join(Inside(instance, Node(name))) == Qualify(instance, name)
  {
    assert Qualify(Qualify(instance, name), Join(rest)) == Qualify(instance, Qualify(name, Join(rest)));
  }

  predicate SeparatorAt(text: string, i: int)
  {
    0 <= i && i + 1 < |text| && text[i] == '_' && text[i + 1] == '_'
  }

  ghost predicate NoSeparator(name: string)
  {
    forall i :: !SeparatorAt(name, i)
  }

  ghost predicate CleanInstance(name: string)
  {
    NoSeparator(name) && (name != [] ==> name[|name| - 1] != '_')
  }

  // Fragment instances must be clean; the final node name only has to be free of "__".
  ghost predicate CleanPath(path: Path)
  {
    match path
    case Node(name) => NoSeparator(name)
    case Inside(instance, rest) => CleanInstance(instance) && CleanPath(rest)
  }

  lemma FirstSeparator(name: string, rest: string, i: int)
    requires CleanInstance(name)
    requires SeparatorAt(Qualify(name, rest), i)
    ensures |name| <= i
  {
    var text := Qualify(name, rest);
    if 0 <= i < |name| - 1 {
      assert text[i] == name[i] && text[i + 1] == name[i + 1];
      assert SeparatorAt(name, i);
    }
  }

  lemma QualifyCut(a: string, b: string, c: string, d: string)
    requires CleanInstance(a) && CleanInstance(c)
    requires Qualify(a, b) == Qualify(c, d)
    ensures a == c && b == d
  {
    assert SeparatorAt(Qualify(a, b), |a|) && SeparatorAt(Qualify(c, d), |c|);
    FirstSeparator(a, b, |c|);
    FirstSeparator(c, d, |a|);
    assert a == Qualify(a, b)[..|a|] == c;
    QualifyInjective(a, b, d);
  }

  /** Two clean paths that produce the same expanded name are the same path. */
  lemma {:induction false} JoinInjective(p: Path, q: Path)
    requires CleanPath(p) && CleanPath(q)
    requires Join(p) == Join(q)
    ensures p == q
  {
    if p.Inside? && q.Inside? {
      QualifyCut(p.instance, Join(p.rest), q.instance, Join(q.rest));
      JoinInjective(p.rest, q.rest);
    } else if p.Inside? || q.Inside? {
      var deep := if p.Inside? then p else q;
      assert SeparatorAt(Join(deep), |deep.instance|);
    }
  }

  // Cutting at the first separator leaves a clean name.
  lemma CutAtFirst(name: string) returns (clean: string, rest: string)
    requires !NoSeparator(name)
    ensures CleanInstance(clean) && name == Qualify(clean, rest)
  {
    var i :| SeparatorAt(name, i);
    while exists j :: j < i && SeparatorAt(name, j)
      invariant SeparatorAt(name, i)
      decreases i
    {
      var j :| j < i && SeparatorAt(name, j);
      i := j;
    }
    clean, rest := name[..i], name[i + 2..];
    forall j
      ensures !SeparatorAt(clean, j)
    {
      assert SeparatorAt(clean, j) ==> SeparatorAt(name, j);
    }
    assert clean != [] && clean[i - 1] == '_' ==> SeparatorAt(name, i - 1);
    assert name == clean + "__" + rest;
  }

  /**
   Being clean is exactly what an instance name needs: its expanded names are shared with no
   clean instance of another name.
   */
  lemma CleanExactly(a: string)
    ensures CleanInstance(a) <==> forall b, c, d :: CleanInstance(c) && Qualify(a, b) == Qualify(c, d) ==> a == c
  {
    if CleanInstance(a) {
      forall b, c, d | CleanInstance(c) && Qualify(a, b) == Qualify(c, d)
        ensures a == c
      {
        QualifyCut(a, b, c, d);
      }
    } else if NoSeparator(a) {
      var c := a[..|a| - 1];
      forall i
        ensures !SeparatorAt(c, i)
      {
        assert !SeparatorAt(a, i);
      }
      assert !SeparatorAt(a, |a| - 2);
      assert a == c + "_";
      assert Qualify(a, "") == Qualify(c, "_");
    } else {
      var c, d := CutAtFirst(a);
      assert Qualify(a, "") == Qualify(c, d + "__");
      assert |c| < |a|;
    }
  }

  /** And a node name is free of "__" exactly when no node below a clean instance expands to it. */
  lemma NodeCleanExactly(name: string)
    ensures NoSeparator(name) <==> forall c, d :: CleanInstance(c) ==> name != Qualify(c, d)
  {
    if NoSeparator(name) {
      forall c, d | CleanInstance(c)
        ensures name != Qualify(c, d)
      {
        assert SeparatorAt(Qualify(c, d), |c|);
      }
    } else {
      var c, d := CutAtFirst(name);
    }
  }

  /** Any node name containing "__" shares its expanded name with a nested path. */
  lemma SeparatorInNodeCollides(instance: string, a: string, b: string)
    ensures Join(Inside(instance, Node(a + "__" + b))) == Join(Inside(instance, Inside(a, Node(b))))
  {
    JoinQualify(instance, Qualify(a, b), Node(b));
    assert Join(Inside(a, Node(b))) == Qualify(a, b);
  }

  /** Any fragment name ending in "_" shares expanded names with the name one "_" shorter. */
  lemma TrailingUnderscoreCollides(instance: string, a: string, b: string)
    ensures Join(Inside(instance, Inside(a + "_", Node(b)))) == Join(Inside(instance, Inside(a, Node("_" + b))))
  {
    assert Join(Inside(a + "_", Node(b))) == Qualify(a + "_", b);
    assert Join(Inside(a, Node("_" + b))) == Qualify(a, "_" + b);
    assert Qualify(a + "_", b) == Qualify(a, "_" + b);
  }

  // The fragment instances around a subtree, innermost last.
  datatype Context = Top(name: string) | Nested(outer: Context, name: string)

  function InstanceOf(context: Context): string
  {
    match context
    case Top(name) => name
    case Nested(outer, name) => Qualify(InstanceOf(outer), name)
  }

  function Plug(context: Context, path: Path): Path
  {
    match context
    case Top(name) => Inside(name, path)
    case Nested(outer, name) => Plug(outer, Inside(name, path))
  }

  ghost predicate CleanContext(context: Context)
  {
    CleanInstance(context.name) && (context.Nested? ==> CleanContext(context.outer))
  }

  lemma {:induction false} PlugNames(context: Context, path: Path)
    ensures Join(Plug(context, path)) == Join(Inside(InstanceOf(context), path))
    ensures CleanContext(context) && CleanPath(path) ==> CleanPath(Plug(context, path))
  {
    if context.Nested? {
      PlugNames(context.outer, Inside(context.name, path));
      JoinQualify(InstanceOf(context.outer), context.name, path);
    }
  }

  lemma {:induction false} PlugInjective(context: Context, p: Path, q: Path)
    requires Plug(context, p) == Plug(context, q)
    ensures p == q
  {
    if context.Nested? {
      PlugInjective(context.outer, Inside(context.name, p), Inside(context.name, q));
    }
  }

  /** Below clean fragment instances, two clean paths with the same expanded name are the same. */
  lemma SameLeaf(context: Context, p: Path, q: Path)
    requires CleanContext(context) && CleanPath(p) && CleanPath(q)
    requires Join(Inside(InstanceOf(context), p)) == Join(Inside(InstanceOf(context), q))
    ensures p == q
  {
    PlugNames(context, p);
    PlugNames(context, q);
    JoinInjective(Plug(context, p), Plug(context, q));
    PlugInjective(context, p, q);
  }
}
