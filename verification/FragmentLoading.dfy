/**
 Loading fragments that import other fragment files.

 A fragment value is a mapping, written in place or imported with "uses" from a file; either
 may contain further fragment values.  The loader keeps the files of the current import chain
 on a stack and refuses to open one of them again.
 */
module FragmentLoading {
  import opened Wrappers
  import opened Document
  import opened DeepMerge
  import opened Graph

  // The part of the outside world that the loader reads.
  datatype Disk = Disk(
    files: map<string, Value>,               // parsed YAML by resolved path
    locate: (string, string) -> string,      // base directory and reference to resolved path
    parent: string -> string,                // directory of a file
    keys: set<string> -> seq<string>)        // document order of the keys of a mapping

  datatype LoadError =
    | RecursiveImport(chain: seq<string>)
    | NotAFragment
    | CannotLoad(path: string)
    | UnknownFields
    | NoNodes

  const FragmentFields := {"uses", "version", "description", "documentation", "tests", "parameters",
                           "inputs", "outputs", "nodes", "blocks", "flow", "edges", "fragments",
                           "hardware_requirements"}

  // A loaded fragment: its merged document and the fragments below it, in document order.
  datatype Loaded = Loaded(document: Value, nested: LoadedList)
  datatype LoadedList = End | Entry(name: string, fragment: Loaded, rest: LoadedList)

  // The file a fragment value imports, and what the value says besides.
  datatype Reference = Reference(uses: Option<string>, overlay: Mapping)

  function ReadReference(value: Value): Result<Reference, LoadError>
  {
    match value
    case Scalar(text) => Ok(Reference(Some(text), Object(map[])))
    case Object(fields) =>
      if "uses" !in fields || fields["uses"].Null? then Ok(Reference(None, Object(fields - {"uses"})))
      else if fields["uses"].Scalar? then Ok(Reference(Some(fields["uses"].text), Object(fields - {"uses"})))
      else Err(NotAFragment)
    case _ => Err(NotAFragment)
  }

  // Read one fragment file; the document may sit under a "fragment" key.
  function ReadFile(disk: Disk, path: string): Result<Mapping, LoadError>
  {
    if path !in disk.files then Err(CannotLoad(path))
    else
      match disk.files[path]
      case Null => Ok(Object(map[]))
      case Object(fields) =>
        if "fragment" !in fields then Ok(Object(fields))
        else if fields["fragment"].Object? then Ok(fields["fragment"])
        else Err(CannotLoad(path))
      case _ => Err(CannotLoad(path))
  }

  function CheckDocument(document: Mapping): (checked: Result<Mapping, LoadError>)
    ensures checked.Ok? ==> checked.value == document
    ensures checked.Ok? <==>
            && (forall key :: key in document.fields ==> key in FragmentFields)
            && (forall key :: key in {"nodes", "blocks"} && key in document.fields ==>
                  document.fields[key].Null? || document.fields[key].Object?)
            && (exists key :: key in {"nodes", "blocks"} && key in document.fields
                              && document.fields[key].Object? && document.fields[key].fields != map[])
    ensures checked.Err? ==> !checked.error.RecursiveImport?
  {
    var nodes := if "nodes" in document.fields then document.fields["nodes"] else Null;
    var blocks := if "blocks" in document.fields then document.fields["blocks"] else Null;
    if !(document.fields.Keys <= FragmentFields) then Err(UnknownFields)
    else if !(nodes.Null? || nodes.Object?) || !(blocks.Null? || blocks.Object?) then Err(NoNodes)
    else if (nodes.Null? || nodes.fields == map[]) && (blocks.Null? || blocks.fields == map[]) then Err(NoNodes)
    else Ok(document)
  }

  // The fragment values directly below a document.
  function Below(document: Mapping): map<string, Value>
  {
    if "fragments" in document.fields && document.fields["fragments"].Object?
    then document.fields["fragments"].fields else map[]
  }

  // Files that may still be opened: the first part of the termination measure.
  function Fresh(disk: Disk, stack: seq<string>): nat
  {
    |disk.files.Keys - Names(stack)|
  }

  lemma OpeningShrinks(disk: Disk, stack: seq<string>, path: string)
    requires path in disk.files && path !in stack
    ensures Fresh(disk, stack + [path]) < Fresh(disk, stack)
  {
    assert Names(stack + [path]) == Names(stack) + {path};
    assert disk.files.Keys - Names(stack + [path]) == (disk.files.Keys - Names(stack)) - {path};
    assert path in disk.files.Keys - Names(stack);
  }

  // Total on every disk: each import uses up a file, and what is written in place gets smaller.
  function Load(disk: Disk, value: Value, base: string, stack: seq<string>): Result<Loaded, LoadError>
    decreases Fresh(disk, stack), 1, value
  {
    var reference :- ReadReference(value);
    match reference.uses
    case Some(uses) => Import(disk, disk.locate(base, uses), reference.overlay, stack)
    case None =>
      var document :- CheckDocument(reference.overlay);
      var nested :- LoadBelow(disk, value, disk.keys(Below(document).Keys), base, stack);
      Ok(Loaded(document, nested))
  }

  // Load one file, with the importing reference merged over it.
  function Import(disk: Disk, path: string, overlay: Mapping, stack: seq<string>): Result<Loaded, LoadError>
    decreases Fresh(disk, stack), 0
  {
    if path in stack then Err(RecursiveImport(stack + [path]))
    else
      var file :- ReadFile(disk, path);
      var document :- CheckDocument(Merge(file, overlay));
      OpeningShrinks(disk, stack, path);
      var nested :- LoadBelow(disk, document, disk.keys(Below(document).Keys), disk.parent(path), stack + [path]);
      Ok(Loaded(document, nested))
  }

  // Load the fragments under the given keys of a document, in order.
  function LoadBelow(disk: Disk, document: Value, keys: seq<string>, base: string,
                     stack: seq<string>): Result<LoadedList, LoadError>
    decreases Fresh(disk, stack), 1, document, |keys|
  {
    if keys == [] || !document.Object? then Ok(End)
    else if keys[0] !in Below(document) then LoadBelow(disk, document, keys[1..], base, stack)
    else
      var fragment :- Load(disk, Below(document)[keys[0]], base, stack);
      var rest :- LoadBelow(disk, document, keys[1..], base, stack);
      Ok(Entry(keys[0], fragment, rest))
  }

  // ---------------------------------------------------------------- which imports are recursive

  // The files opened on the way down through the fragments named by keys, ignoring the stack.
  function Imports(disk: Disk, value: Value, base: string, keys: seq<string>): Option<seq<string>>
    decreases |keys|, 2
  {
    match ReadReference(value)
    case Err(_) => None
    case Ok(reference) =>
      match reference.uses
      case Some(uses) => ImportsFrom(disk, disk.locate(base, uses), reference.overlay, keys)
      case None => ImportsBelow(disk, reference.overlay, base, keys)
  }

  function ImportsFrom(disk: Disk, path: string, overlay: Mapping, keys: seq<string>): Option<seq<string>>
    decreases |keys|, 1
  {
    if keys == [] then Some([path])
    else
      match ReadFile(disk, path)
      case Err(_) => None
      case Ok(file) =>
        match ImportsBelow(disk, Merge(file, overlay), disk.parent(path), keys)
        case None => None
        case Some(files) => Some([path] + files)
  }

  function ImportsBelow(disk: Disk, document: Mapping, base: string, keys: seq<string>): Option<seq<string>>
    decreases |keys|, 0
  {
    if keys == [] then Some([])
    else if keys[0] !in Below(document) then None
    else Imports(disk, Below(document)[keys[0]], base, keys[1..])
  }

  // The disk lists every key of a mapping.
  ghost predicate ListsKeys(disk: Disk)
  {
    forall s :: Names(disk.keys(s)) == s
  }

  lemma DistinctSnoc(stack: seq<string>, path: string)
    requires Distinct(stack) && path !in stack
    ensures Distinct(stack + [path])
  {
  }

  /**
   A load that succeeds opened no file twice on any chain of imports, however deep; the same
   file on two different chains is fine.
   */
  lemma {:induction false} LoadedChainsAreDistinct(disk: Disk, value: Value, base: string, stack: seq<string>,
          keys: seq<string>)
    requires ListsKeys(disk) && Distinct(stack)
    requires Load(disk, value, base, stack).Ok? && Imports(disk, value, base, keys).Some?
    ensures Distinct(stack + Imports(disk, value, base, keys).value)
    decreases |keys|, 2
  {
    hide Distinct, CheckDocument;
    var reference := ReadReference(value).value;
    match reference.uses
    case Some(uses) => FileChainsAreDistinct(disk, disk.locate(base, uses), reference.overlay, stack, keys);
    case None => BelowChainsAreDistinct(disk, value, reference.overlay, base, stack, keys);
  }

  lemma {:induction false} FileChainsAreDistinct(disk: Disk, path: string, overlay: Mapping,
          stack: seq<string>, keys: seq<string>)
    requires ListsKeys(disk) && Distinct(stack)
    requires Import(disk, path, overlay, stack).Ok? && ImportsFrom(disk, path, overlay, keys).Some?
    ensures Distinct(stack + ImportsFrom(disk, path, overlay, keys).value)
    decreases |keys|, 1
  {
    hide Distinct, CheckDocument;
    DistinctSnoc(stack, path);
    if keys != [] {
      var document: Mapping := Merge(ReadFile(disk, path).value, overlay);
      BelowChainsAreDistinct(disk, document, document, disk.parent(path), stack + [path], keys);
      var files := ImportsBelow(disk, document, disk.parent(path), keys).value;
      assert stack + ([path] + files) == (stack + [path]) + files;
    }
  }

  lemma {:induction false} BelowChainsAreDistinct(disk: Disk, source: Value, document: Mapping, base: string,
          stack: seq<string>, keys: seq<string>)
    requires ListsKeys(disk) && Distinct(stack)
    requires source.Object? && Below(source) == Below(document)
    requires LoadBelow(disk, source, disk.keys(Below(document).Keys), base, stack).Ok?
    requires ImportsBelow(disk, document, base, keys).Some?
    ensures Distinct(stack + ImportsBelow(disk, document, base, keys).value)
    decreases |keys|, 0
  {
    if keys == [] {
      assert stack + [] == stack;
    } else {
      assert keys[0] in Names(disk.keys(Below(document).Keys));
      EachBelowLoads(disk, source, disk.keys(Below(document).Keys), base, stack, keys[0]);
      LoadedChainsAreDistinct(disk, Below(document)[keys[0]], base, stack, keys[1..]);
    }
  }

  lemma {:induction false} EachBelowLoads(disk: Disk, document: Value, keys: seq<string>, base: string,
          stack: seq<string>, key: string)
    requires document.Object? && LoadBelow(disk, document, keys, base, stack).Ok?
    requires key in keys && key in Below(document)
    ensures Load(disk, Below(document)[key], base, stack).Ok?
    decreases |keys|
  {
    if keys[0] != key {
      EachBelowLoads(disk, document, keys[1..], base, stack, key);
    }
  }

  // A chain that is reported: the stack, distinct files opened after it, and one of them again.
  ghost predicate Repeats(stack: seq<string>, files: seq<string>, chain: seq<string>)
  {
    && files != [] && chain == stack + files
    && Distinct(chain[..|chain| - 1])
    && chain[|chain| - 1] in chain[..|chain| - 1]
  }

  lemma SameBelow(disk: Disk, a: Mapping, b: Mapping, base: string, keys: seq<string>)
    requires Below(a) == Below(b)
    ensures ImportsBelow(disk, a, base, keys) == ImportsBelow(disk, b, base, keys)
  {
  }

  lemma RepeatsHere(stack: seq<string>, path: string)
    requires Distinct(stack) && path in stack
    ensures Repeats(stack, [path], stack + [path])
  {
    assert (stack + [path])[..|stack|] == stack;
  }

  lemma RepeatsUp(stack: seq<string>, path: string, files: seq<string>, chain: seq<string>)
    requires Repeats(stack + [path], files, chain)
    ensures Repeats(stack, [path] + files, chain)
  {
    assert stack + ([path] + files) == (stack + [path]) + files;
  }

  /** A reported recursion is real: some chain of imports opens a file that it has opened before. */
  lemma {:induction false} RecursionIsReal(disk: Disk, value: Value, base: string, stack: seq<string>)
    returns (keys: seq<string>)
    requires Distinct(stack)
    requires Load(disk, value, base, stack).Err? && Load(disk, value, base, stack).error.RecursiveImport?
    ensures Imports(disk, value, base, keys).Some?
    ensures Repeats(stack, Imports(disk, value, base, keys).value, Load(disk, value, base, stack).error.chain)
    decreases Fresh(disk, stack), 1, value
  {
    hide Distinct, Repeats, CheckDocument;
    var reference := ReadReference(value).value;
    match reference.uses
    case Some(uses) => keys := RecursionInFileIsReal(disk, disk.locate(base, uses), reference.overlay, stack);
    case None =>
      keys := RecursionBelowIsReal(disk, value, disk.keys(Below(reference.overlay).Keys), base, stack);
      SameBelow(disk, value, reference.overlay, base, keys);
  }

  lemma {:induction false} RecursionInFileIsReal(disk: Disk, path: string, overlay: Mapping, stack: seq<string>)
    returns (keys: seq<string>)
    requires Distinct(stack)
    requires Import(disk, path, overlay, stack).Err? && Import(disk, path, overlay, stack).error.RecursiveImport?
    ensures ImportsFrom(disk, path, overlay, keys).Some?
    ensures Repeats(stack, ImportsFrom(disk, path, overlay, keys).value, Import(disk, path, overlay, stack).error.chain)
    decreases Fresh(disk, stack), 0
  {
    hide Distinct, Repeats, CheckDocument;
    if path in stack {
      keys := [];
      RepeatsHere(stack, path);
    } else {
      DistinctSnoc(stack, path);
      OpeningShrinks(disk, stack, path);
      var document: Mapping := Merge(ReadFile(disk, path).value, overlay);
      keys := RecursionBelowIsReal(disk, document, disk.keys(Below(document).Keys), disk.parent(path), stack + [path]);
      RepeatsUp(stack, path, ImportsBelow(disk, document, disk.parent(path), keys).value,
                Import(disk, path, overlay, stack).error.chain);
    }
  }

  lemma {:induction false} RecursionBelowIsReal(disk: Disk, document: Value, order: seq<string>, base: string,
          stack: seq<string>)
    returns (keys: seq<string>)
    requires Distinct(stack) && document.Object?
    requires LoadBelow(disk, document, order, base, stack).Err?
    requires LoadBelow(disk, document, order, base, stack).error.RecursiveImport?
    ensures keys != [] && ImportsBelow(disk, document, base, keys).Some?
    ensures Repeats(stack, ImportsBelow(disk, document, base, keys).value, LoadBelow(disk, document, order, base, stack).error.chain)
    decreases Fresh(disk, stack), 1, document, |order|
  {
    hide Distinct, Repeats, Load, Imports;
    if order[0] !in Below(document) || Load(disk, Below(document)[order[0]], base, stack).Ok? {
      keys := RecursionBelowIsReal(disk, document, order[1..], base, stack);
    } else {
      var inner := RecursionIsReal(disk, Below(document)[order[0]], base, stack);
      keys := [order[0]] + inner;
      assert keys[1..] == inner;
    }
  }

  // ---------------------------------------------------------------- exactly when loading succeeds

  // The first fault on the way down through the fragments named by keys: a value that is no
  // reference, a file that is open already or cannot be read, or a document that is refused.
  function Fault(disk: Disk, value: Value, base: string, stack: seq<string>, keys: seq<string>): Option<LoadError>
    decreases |keys|, 2
  {
    match ReadReference(value)
    case Err(error) => Some(error)
    case Ok(reference) =>
      match reference.uses
      case Some(uses) => FaultFrom(disk, disk.locate(base, uses), reference.overlay, stack, keys)
      case None =>
        match CheckDocument(reference.overlay)
        case Err(error) => Some(error)
        case Ok(document) => FaultBelow(disk, document, base, stack, keys)
  }

  function FaultFrom(disk: Disk, path: string, overlay: Mapping, stack: seq<string>, keys: seq<string>): Option<LoadError>
    decreases |keys|, 1
  {
    if path in stack then Some(RecursiveImport(stack + [path]))
    else
      match ReadFile(disk, path)
      case Err(error) => Some(error)
      case Ok(file) =>
        match CheckDocument(Merge(file, overlay))
        case Err(error) => Some(error)
        case Ok(document) => FaultBelow(disk, document, disk.parent(path), stack + [path], keys)
  }

  function FaultBelow(disk: Disk, document: Mapping, base: string, stack: seq<string>, keys: seq<string>): Option<LoadError>
    decreases |keys|, 0
  {
    if keys == [] || keys[0] !in Below(document) then None
    else Fault(disk, Below(document)[keys[0]], base, stack, keys[1..])
  }

  // A load that succeeds met no fault on any chain.
  lemma {:induction false} LoadedIsFaultless(disk: Disk, value: Value, base: string, stack: seq<string>, keys: seq<string>)
    requires ListsKeys(disk) && Load(disk, value, base, stack).Ok?
    ensures Fault(disk, value, base, stack, keys).None?
    decreases |keys|, 2
  {
    hide CheckDocument;
    var reference := ReadReference(value).value;
    match reference.uses
    case Some(uses) =>
      var path := disk.locate(base, uses);
      var document: Mapping := Merge(ReadFile(disk, path).value, reference.overlay);
      LoadedBelowIsFaultless(disk, document, document, disk.parent(path), stack + [path], keys);
    case None => LoadedBelowIsFaultless(disk, value, reference.overlay, base, stack, keys);
  }

  lemma {:induction false} LoadedBelowIsFaultless(disk: Disk, source: Value, document: Mapping, base: string,
          stack: seq<string>, keys: seq<string>)
    requires ListsKeys(disk) && source.Object? && Below(source) == Below(document)
    requires LoadBelow(disk, source, disk.keys(Below(document).Keys), base, stack).Ok?
    ensures FaultBelow(disk, document, base, stack, keys).None?
    decreases |keys|, 0
  {
    if keys != [] && keys[0] in Below(document) {
      assert keys[0] in Names(disk.keys(Below(document).Keys));
      EachBelowLoads(disk, source, disk.keys(Below(document).Keys), base, stack, keys[0]);
      LoadedIsFaultless(disk, Below(document)[keys[0]], base, stack, keys[1..]);
    }
  }

  // A load that fails reports the fault of some chain.
  lemma {:induction false} FailureIsAFault(disk: Disk, value: Value, base: string, stack: seq<string>)
    returns (keys: seq<string>)
    requires Load(disk, value, base, stack).Err?
    ensures Fault(disk, value, base, stack, keys) == Some(Load(disk, value, base, stack).error)
    decreases Fresh(disk, stack), 1, value
  {
    hide CheckDocument;
    keys := [];
    if ReadReference(value).Ok? {
      var reference := ReadReference(value).value;
      match reference.uses
      case Some(uses) => keys := ImportFailureIsAFault(disk, disk.locate(base, uses), reference.overlay, stack);
      case None =>
        if CheckDocument(reference.overlay).Ok? {
          keys := FailureBelowIsAFault(disk, value, disk.keys(Below(reference.overlay).Keys), base, stack);
          SameFaultBelow(disk, value, reference.overlay, base, stack, keys);
        }
    }
  }

  lemma {:induction false} ImportFailureIsAFault(disk: Disk, path: string, overlay: Mapping, stack: seq<string>)
    returns (keys: seq<string>)
    requires Import(disk, path, overlay, stack).Err?
    ensures FaultFrom(disk, path, overlay, stack, keys) == Some(Import(disk, path, overlay, stack).error)
    decreases Fresh(disk, stack), 0
  {
    hide CheckDocument;
    keys := [];
    if path !in stack && ReadFile(disk, path).Ok? && CheckDocument(Merge(ReadFile(disk, path).value, overlay)).Ok? {
      OpeningShrinks(disk, stack, path);
      var document: Mapping := Merge(ReadFile(disk, path).value, overlay);
      keys := FailureBelowIsAFault(disk, document, disk.keys(Below(document).Keys), disk.parent(path), stack + [path]);
    }
  }

  lemma {:induction false} FailureBelowIsAFault(disk: Disk, document: Mapping, order: seq<string>, base: string,
          stack: seq<string>)
    returns (keys: seq<string>)
    requires LoadBelow(disk, document, order, base, stack).Err?
    ensures FaultBelow(disk, document, base, stack, keys) == Some(LoadBelow(disk, document, order, base, stack).error)
    decreases Fresh(disk, stack), 1, document, |order|
  {
    hide Load, Fault;
    if order[0] !in Below(document) || Load(disk, Below(document)[order[0]], base, stack).Ok? {
      keys := FailureBelowIsAFault(disk, document, order[1..], base, stack);
    } else {
      var inner := FailureIsAFault(disk, Below(document)[order[0]], base, stack);
      keys := [order[0]] + inner;
      assert keys[1..] == inner;
    }
  }

  lemma SameFaultBelow(disk: Disk, a: Mapping, b: Mapping, base: string, stack: seq<string>, keys: seq<string>)
    requires Below(a) == Below(b)
    ensures FaultBelow(disk, a, base, stack, keys) == FaultBelow(disk, b, base, stack, keys)
  {
  }

  /**
   Loading succeeds exactly when no chain of fragments has a fault: every reference reads, every
   file opens once on its chain, and every merged document is accepted.
   */
  lemma LoadsExactly(disk: Disk, value: Value, base: string, stack: seq<string>)
    requires ListsKeys(disk)
    ensures Load(disk, value, base, stack).Ok? <==> forall keys :: Fault(disk, value, base, stack, keys).None?
  {
    hide Load, Fault;
    if Load(disk, value, base, stack).Ok? {
      forall keys
        ensures Fault(disk, value, base, stack, keys).None?
      {
        LoadedIsFaultless(disk, value, base, stack, keys);
      }
    } else {
      var keys := FailureIsAFault(disk, value, base, stack);
    }
  }

  // No file is opened twice on any chain of imports.
  ghost predicate NoRepeats(disk: Disk, value: Value, base: string, stack: seq<string>)
  {
    forall keys ::
      Imports(disk, value, base, keys).Some? ==> Distinct(stack + Imports(disk, value, base, keys).value)
  }

  // Whatever goes wrong on a chain is the recursion of an import.
  ghost predicate NothingElseWrong(disk: Disk, value: Value, base: string, stack: seq<string>)
  {
    forall keys ::
      Fault(disk, value, base, stack, keys).Some? ==> Fault(disk, value, base, stack, keys).value.RecursiveImport?
  }

  /**
   When nothing else is wrong, loading succeeds exactly when no file occurs twice on a chain of
   imports, and reports a recursive import exactly when some file does.
   */
  lemma RecursionExactly(disk: Disk, value: Value, base: string, stack: seq<string>)
    requires ListsKeys(disk) && Distinct(stack) && NothingElseWrong(disk, value, base, stack)
    ensures Load(disk, value, base, stack).Ok? <==> NoRepeats(disk, value, base, stack)
    ensures Load(disk, value, base, stack).Err? ==> Load(disk, value, base, stack).error.RecursiveImport?
  {
    hide Load, Fault, Distinct, Imports;
    if Load(disk, value, base, stack).Ok? {
      forall keys | Imports(disk, value, base, keys).Some?
        ensures Distinct(stack + Imports(disk, value, base, keys).value)
      {
        LoadedChainsAreDistinct(disk, value, base, stack, keys);
      }
    } else {
      var faulty := FailureIsAFault(disk, value, base, stack);
      var keys := RecursionIsReal(disk, value, base, stack);
      NotDistinct(stack, Imports(disk, value, base, keys).value, Load(disk, value, base, stack).error.chain);
    }
  }

  lemma NotDistinct(stack: seq<string>, files: seq<string>, chain: seq<string>)
    requires Repeats(stack, files, chain)
    ensures !Distinct(stack + files)
  {
    var i :| 0 <= i < |chain| - 1 && chain[i] == chain[|chain| - 1];
  }

  lemma FaultInPlace(disk: Disk, document: Mapping, base: string, stack: seq<string>, key: string, keys: seq<string>)
    requires "uses" !in document.fields && CheckDocument(document).Ok?
    ensures Fault(disk, document, base, stack, []).None?
    ensures Fault(disk, document, base, stack, [key] + keys) ==
            if key in Below(document) then Fault(disk, Below(document)[key], base, stack, keys) else None
  {
    hide CheckDocument;
    assert document.fields - {"uses"} == document.fields;
    assert ([key] + keys)[1..] == keys;
  }

  /**
   A document in place loads exactly when each of its fragments loads on the same stack, whatever
   the others import: one file may be reached through several of them.
   */
  lemma DiamondIsAccepted(disk: Disk, document: Mapping, base: string, stack: seq<string>)
    requires ListsKeys(disk) && "uses" !in document.fields && CheckDocument(document).Ok?
    ensures Load(disk, document, base, stack).Ok? <==>
            forall key :: key in Below(document) ==> Load(disk, Below(document)[key], base, stack).Ok?
  {
    hide Load, Fault, CheckDocument;
    LoadsExactly(disk, document, base, stack);
    if Load(disk, document, base, stack).Ok? {
      forall key | key in Below(document)
        ensures Load(disk, Below(document)[key], base, stack).Ok?
      {
        LoadsExactly(disk, Below(document)[key], base, stack);
        forall keys ensures Fault(disk, Below(document)[key], base, stack, keys).None? {
          FaultInPlace(disk, document, base, stack, key, keys);
        }
      }
    }
    if forall key :: key in Below(document) ==> Load(disk, Below(document)[key], base, stack).Ok? {
      forall keys ensures Fault(disk, document, base, stack, keys).None? {
        var first, rest := if keys == [] then "" else keys[0], if keys == [] then [] else keys[1..];
        FaultInPlace(disk, document, base, stack, first, rest);
        assert keys != [] ==> keys == [first] + rest;
        if first in Below(document) {
          LoadsExactly(disk, Below(document)[first], base, stack);
        }
      }
    }
  }

  // ---------------------------------------------------------------- what a load returns

  function EntryOf(list: LoadedList, name: string): Option<Loaded>
  {
    match list
    case End => None
    case Entry(first, fragment, rest) => if first == name then Some(fragment) else EntryOf(rest, name)
  }

  function EntryNames(list: LoadedList): seq<string>
  {
    match list
    case End => []
    case Entry(name, _, rest) => [name] + EntryNames(rest)
  }

  // The entry that a chain of names leads to.
  function At(loaded: Loaded, keys: seq<string>): Option<Loaded>
    decreases |keys|
  {
    if keys == [] then Some(loaded)
    else
      match EntryOf(loaded.nested, keys[0])
      case None => None
      case Some(entry) => At(entry, keys[1..])
  }

  // The document that a fragment value stands for, and the directory its references are relative to.
  datatype Source = Source(document: Mapping, base: string)

  function SourceOf(disk: Disk, value: Value, base: string): Option<Source>
  {
    match ReadReference(value)
    case Err(_) => None
    case Ok(reference) =>
      match reference.uses
      case None => Some(Source(reference.overlay, base))
      case Some(uses) =>
        var path := disk.locate(base, uses);
        match ReadFile(disk, path)
        case Err(_) => None
        case Ok(file) => Some(Source(Merge(file, reference.overlay), disk.parent(path)))
  }

  // The source that a chain of names leads to through the fragments of the documents.
  function SourceAt(disk: Disk, value: Value, base: string, keys: seq<string>): Option<Source>
    decreases |keys|
  {
    match SourceOf(disk, value, base)
    case None => None
    case Some(source) =>
      if keys == [] then Some(source)
      else if keys[0] !in Below(source.document) then None
      else SourceAt(disk, Below(source.document)[keys[0]], source.base, keys[1..])
  }

  // The stack for what is below a value.
  function StackBelow(disk: Disk, value: Value, base: string, stack: seq<string>): seq<string>
  {
    match ReadReference(value)
    case Err(_) => stack
    case Ok(reference) => if reference.uses.Some? then stack + [disk.locate(base, reference.uses.value)] else stack
  }

  lemma {:induction false} EntriesBelow(disk: Disk, document: Value, keys: seq<string>, base: string, stack: seq<string>, key: string)
    requires document.Object? && LoadBelow(disk, document, keys, base, stack).Ok?
    requires forall k :: k in keys ==> k in Below(document)
    ensures var list := LoadBelow(disk, document, keys, base, stack).value;
            && EntryNames(list) == keys
            && (if key in keys then Load(disk, Below(document)[key], base, stack).Ok?
                                    && EntryOf(list, key) == Some(Load(disk, Below(document)[key], base, stack).value)
                else EntryOf(list, key) == None)
    decreases |keys|
  {
    hide Load;
    if keys != [] {
      EntriesBelow(disk, document, keys[1..], base, stack, key);
      assert keys == [keys[0]] + keys[1..];
    }
  }

  // One level of what a load returns.
  lemma LoadedLevel(disk: Disk, value: Value, base: string, stack: seq<string>, key: string)
    requires ListsKeys(disk) && Load(disk, value, base, stack).Ok?
    ensures var loaded, source := Load(disk, value, base, stack).value, SourceOf(disk, value, base);
            && source.Some? && loaded.document == source.value.document
            && EntryNames(loaded.nested) == disk.keys(Below(source.value.document).Keys)
            && (if key in Below(source.value.document) then
                  var below := Load(disk, Below(source.value.document)[key], source.value.base, StackBelow(disk, value, base, stack));
                  below.Ok? && EntryOf(loaded.nested, key) == Some(below.value)
                else EntryOf(loaded.nested, key) == None)
  {
    hide CheckDocument;
    var source := SourceOf(disk, value, base).value;
    var keys := disk.keys(Below(source.document).Keys);
    assert forall k :: k in keys <==> k in Names(keys);
    var whole: Value := if ReadReference(value).value.uses.Some? then source.document else value;
    assert Below(whole) == Below(source.document);
    EntriesBelow(disk, whole, keys, source.base, StackBelow(disk, value, base, stack), key);
  }

  /**
   What a load returns: along every chain of names it has an entry exactly where the documents
   have a fragment, with the document there and with the names of the fragments below in the order
   of the document.
   */
  lemma {:induction false} LoadedTree(disk: Disk, value: Value, base: string, stack: seq<string>, keys: seq<string>)
    requires ListsKeys(disk) && Load(disk, value, base, stack).Ok?
    ensures var entry, source := At(Load(disk, value, base, stack).value, keys), SourceAt(disk, value, base, keys);
            && (entry.Some? <==> source.Some?)
            && (entry.Some? ==> entry.value.document == source.value.document
                                && EntryNames(entry.value.nested) == disk.keys(Below(source.value.document).Keys))
    decreases |keys|
  {
    hide Load, SourceOf, Below;
    LoadedLevel(disk, value, base, stack, if keys == [] then "" else keys[0]);
    if keys != [] {
      var source := SourceOf(disk, value, base).value;
      if keys[0] in Below(source.document) {
        LoadedTree(disk, Below(source.document)[keys[0]], source.base, StackBelow(disk, value, base, stack), keys[1..]);
      }
    }
  }

  // The mapping a file holds, which may sit under a "fragment" key.
  function Contents(document: Value): Value
  {
    if document.Null? then Object(map[])
    else if document.Object? && "fragment" in document.fields then document.fields["fragment"]
    else document
  }

  /**
   What the document of an imported fragment shows at a path: what the importing reference says
   there, "uses" apart, merged over the file where both have mappings; nothing below a plain value of
   the reference; and what the file says everywhere else.
   */
  lemma ImportShows(disk: Disk, value: Value, base: string, uses: string, path: seq<string>)
    requires SourceOf(disk, value, base).Some? && path != []
    requires value == Scalar(uses) || (value.Object? && "uses" in value.fields && value.fields["uses"] == Scalar(uses))
    ensures var place := disk.locate(base, uses);
            var says := value.Object? && path[0] != "uses";
            && place in disk.files && SourceOf(disk, value, base).value.base == disk.parent(place)
            && Get(SourceOf(disk, value, base).value.document, path) ==
               match (if says then Get(value, path) else None)
               case Some(said) =>
                 (match Get(Contents(disk.files[place]), path)
                  case Some(below) => Some(Merge(below, said))
                  case None => Some(said))
               case None => if says && Blocked(value, path) then None else Get(Contents(disk.files[place]), path)
  {
    var overlay := ReadReference(value).value.overlay;
    var file := ReadFile(disk, disk.locate(base, uses)).value;
    assert file == Contents(disk.files[disk.locate(base, uses)]);
    MergePathLaw(file, overlay, path);
  }

  /** And of a fragment written in place: what is written, "uses" apart, relative to the same directory. */
  lemma InPlaceShows(disk: Disk, value: Value, base: string, path: seq<string>)
    requires SourceOf(disk, value, base).Some? && path != []
    requires value.Object? && ("uses" !in value.fields || value.fields["uses"].Null?)
    ensures SourceOf(disk, value, base).value.base == base
    ensures Get(SourceOf(disk, value, base).value.document, path) == if path[0] == "uses" then None else Get(value, path)
  {
  }

  /** The fragments below a document are those it lists under "fragments". */
  lemma BelowIsListed(document: Mapping, key: string)
    ensures Get(document, ["fragments", key]) == if key in Below(document) then Some(Below(document)[key]) else None
  {
    assert ["fragments", key][1..] == [key] && [key][1..] == [];
    if "fragments" in document.fields {
      var fragments := document.fields["fragments"];
      assert Get(document, ["fragments", key]) == Get(fragments, [key]);
      assert fragments.Object? && key in fragments.fields ==> Get(fragments, [key]) == Get(fragments.fields[key], []);
    }
  }

  /**
   A fragment value has a source exactly when it is a path or a mapping whose "uses" is absent, null
   or a path, and the file of that path exists and holds a mapping or nothing.
   */
  lemma SourceExactly(disk: Disk, value: Value, base: string)
    ensures SourceOf(disk, value, base).Some? <==>
            match value
            case Scalar(uses) => FileReads(disk, disk.locate(base, uses))
            case Object(fields) =>
              "uses" !in fields || fields["uses"].Null?
              || (fields["uses"].Scalar? && FileReads(disk, disk.locate(base, fields["uses"].text)))
            case _ => false
  {
  }

  predicate FileReads(disk: Disk, path: string)
  {
    path in disk.files && (disk.files[path].Null? || (disk.files[path].Object? && Contents(disk.files[path]).Object?))
  }

  /** Nothing is wrong with the value itself exactly when it has a source that is accepted and not open already. */
  lemma FaultlessExactly(disk: Disk, value: Value, base: string, stack: seq<string>)
    ensures Fault(disk, value, base, stack, []).None? <==>
            && SourceOf(disk, value, base).Some? && CheckDocument(SourceOf(disk, value, base).value.document).Ok?
            && (forall i :: |stack| <= i < |StackBelow(disk, value, base, stack)| ==>
                  StackBelow(disk, value, base, stack)[i] !in stack)
  {
    hide CheckDocument;
    var deeper := StackBelow(disk, value, base, stack);
    if ReadReference(value).Ok? && ReadReference(value).value.uses.Some? {
      assert deeper[|stack|] == disk.locate(base, ReadReference(value).value.uses.value);
    }
  }

  /** And the faults further down are those of the fragments below. */
  lemma FaultFurtherDown(disk: Disk, value: Value, base: string, stack: seq<string>, key: string, keys: seq<string>)
    requires Fault(disk, value, base, stack, []).None?
    ensures var source := SourceOf(disk, value, base);
            source.Some? && Fault(disk, value, base, stack, [key] + keys) ==
            if key !in Below(source.value.document) then None
            else Fault(disk, Below(source.value.document)[key], source.value.base, StackBelow(disk, value, base, stack), keys)
  {
    hide CheckDocument;
    assert ([key] + keys)[1..] == keys && ([key] + keys)[0] == key;
    var source := SourceOf(disk, value, base).value;
    assert Fault(disk, value, base, stack, [key] + keys)
        == FaultBelow(disk, source.document, source.base, StackBelow(disk, value, base, stack), [key] + keys);
  }
}
