/** Applying a built-in runtime preset to a manifest, and addressing configuration by path. */
module Profiles {
  import opened Wrappers
  import opened Document
  import opened DeepMerge

  // The sections of a canonical manifest that presets contribute to.
  datatype Manifest = Manifest(
    runtime: Mapping,
    nodes: map<string, Mapping>,
    edges: seq<Mapping>,
    streams: Mapping)

  datatype Preset = Preset(
    runtime: Mapping,
    nodeDefaults: map<string, Mapping>,
    edgeDefaults: Mapping,
    streamDefaults: Mapping)

  datatype ProfileError = UnknownPreset | MalformedExports

  // Python's truth value of an optional entry, and its text when it is a plain scalar.
  predicate Falsy(entry: Option<Value>)
  {
    match entry
    case None => true
    case Some(Null) => true
    case Some(Scalar(text)) => text == ""
    case Some(List(items)) => items == []
    case Some(Object(fields)) => fields == map[]
  }

  function Entry(mapping: Mapping, key: string): Option<Value>
  {
    if key in mapping.fields then Some(mapping.fields[key]) else None
  }

  function With(mapping: Mapping, key: string, value: Value): Mapping
  {
    Object(mapping.fields[key := value])
  }

  function Without(mapping: Mapping, key: string): Mapping
  {
    Object(mapping.fields - {key})
  }

  function MergeMappings(defaults: Mapping, document: Mapping): Mapping
  {
    Merge(defaults, document)
  }

  // str(value) of a uses entry; only scalars can name a provider.
  function UsesOf(node: Mapping): Option<string>
  {
    match Entry(node, "uses")
    case Some(Scalar(text)) => Some(text)
    case _ => None
  }

  function ApplyToNode(preset: Preset, node: Mapping): Mapping
  {
    match UsesOf(node)
    case None => node
    case Some(uses) =>
      if uses in preset.nodeDefaults && preset.nodeDefaults[uses].fields != map[]
      then MergeMappings(preset.nodeDefaults[uses], node) else node
  }

  function ApplyToEdges(preset: Preset, edges: seq<Mapping>): seq<Mapping>
  {
    seq(|edges|, i requires 0 <= i < |edges| => MergeMappings(preset.edgeDefaults, edges[i]))
  }

  // Each export gets the preset's queue under its own settings.
  function ApplyToExports(queue: Value, exports: seq<Value>): Result<seq<Value>, ProfileError>
  {
    if exports == [] then Ok([])
    else if !exports[0].Object? then Err(MalformedExports)
    else
      var rest :- ApplyToExports(queue, exports[1..]);
      Ok([Merge(Object(map["queue" := queue]), exports[0])] + rest)
  }

  function ApplyToStreams(preset: Preset, streams: Mapping): Result<Mapping, ProfileError>
  {
    var merged := MergeMappings(Without(preset.streamDefaults, "queue"), streams);
    match Entry(preset.streamDefaults, "queue")
    case None => Ok(merged)
    case Some(Null) => Ok(merged)
    case Some(queue) =>
      var exports := Entry(merged, "exports");
      if Falsy(exports) then Ok(With(merged, "exports", List([])))
      else if !exports.value.List? then Err(MalformedExports)
      else
        var items :- ApplyToExports(queue, exports.value.items);
        Ok(With(merged, "exports", List(items)))
  }

  function ApplyPreset(manifest: Manifest, name: Value, preset: Preset): Result<Manifest, ProfileError>
  {
    var streams :- ApplyToStreams(preset, manifest.streams);
    Ok(Manifest(
         MergeMappings(With(preset.runtime, "profile", name), manifest.runtime),
         map n | n in manifest.nodes :: ApplyToNode(preset, manifest.nodes[n]),
         ApplyToEdges(preset, manifest.edges),
         streams))
  }

  // The profile asked for, or else the one that the manifest names.
  function Chosen(manifest: Manifest, override: Option<string>): Option<Value>
  {
    if override.Some? && override.value != "" then Some(Scalar(override.value)) else Entry(manifest.runtime, "profile")
  }

  function ApplyProfile(manifest: Manifest, presets: map<string, Preset>,
                        override: Option<string>): Result<Manifest, ProfileError>
  {
    var chosen := Chosen(manifest, override);
    if Falsy(chosen) then Ok(manifest)
    else
      match chosen.value
      case Scalar(text) =>
        if text in presets then ApplyPreset(manifest, chosen.value, presets[text]) else Err(UnknownPreset)
      case _ => Err(UnknownPreset)
  }

  // ---------------------------------------------------------------- applying a profile twice

  lemma ApplyToNodeOnce(preset: Preset, node: Mapping)
    ensures ApplyToNode(preset, ApplyToNode(preset, node)) == ApplyToNode(preset, node)
  {
    var uses := UsesOf(node);
    if uses.Some? && uses.value in preset.nodeDefaults {
      MergeAbsorbs(preset.nodeDefaults[uses.value], node);
    }
  }

  lemma {:induction false} ApplyToExportsOnce(queue: Value, exports: seq<Value>)
    requires ApplyToExports(queue, exports).Ok?
    ensures ApplyToExports(queue, ApplyToExports(queue, exports).value) == ApplyToExports(queue, exports)
    ensures |ApplyToExports(queue, exports).value| == |exports|
  {
    if exports != [] {
      ApplyToExportsOnce(queue, exports[1..]);
      MergeAbsorbs(Object(map["queue" := queue]), exports[0]);
      var rest := ApplyToExports(queue, exports[1..]).value;
      var all := ApplyToExports(queue, exports).value;
      assert all[1..] == rest;
    }
  }

  // A plain value put over already merged defaults stays where it is.
  lemma MergeUnderEntry(defaults: Mapping, document: Mapping, key: string, value: Value)
    requires Merge(defaults, document) == document && !value.Object?
    ensures Merge(defaults, With(document, key, value)) == With(document, key, value)
  {
    var target := With(document, key, value);
    var merged := Merge(defaults, target).fields;
    assert Merge(defaults, document).fields == document.fields;
    forall k | k in merged
      ensures k in target.fields && merged[k] == target.fields[k]
    {
      if k in defaults.fields {
        assert k in Merge(defaults, document).fields;
        if k != key {
          assert document.fields[k] == Merge(defaults, document).fields[k] == Merge(defaults.fields[k], document.fields[k]);
          assert merged[k] == Merge(defaults.fields[k], target.fields[k]);
        } else {
          assert merged[k] == Merge(defaults.fields[k], value) == value;
        }
      }
    }
    assert merged == target.fields;
  }

  lemma ApplyToStreamsOnce(preset: Preset, streams: Mapping)
    requires ApplyToStreams(preset, streams).Ok?
    ensures ApplyToStreams(preset, ApplyToStreams(preset, streams).value) == ApplyToStreams(preset, streams)
  {
    var defaults := Without(preset.streamDefaults, "queue");
    var merged := MergeMappings(defaults, streams);
    MergeAbsorbs(defaults, streams);
    var queue := Entry(preset.streamDefaults, "queue");
    if queue.Some? && !queue.value.Null? {
      var exports := Entry(merged, "exports");
      var items := if Falsy(exports) then [] else ApplyToExports(queue.value, exports.value.items).value;
      if !Falsy(exports) {
        ApplyToExportsOnce(queue.value, exports.value.items);
      }
      var once := With(merged, "exports", List(items));
      assert ApplyToStreams(preset, streams) == Ok(once);
      MergeUnderEntry(defaults, merged, "exports", List(items));
      assert MergeMappings(defaults, once) == once;
      assert Entry(once, "exports") == Some(List(items));
      assert With(once, "exports", List(items)) == once;
    }
  }

  /** Applying the same profile a second time changes nothing. */
  lemma ProfileAppliesOnce(manifest: Manifest, presets: map<string, Preset>, override: Option<string>)
    requires ApplyProfile(manifest, presets, override).Ok?
    ensures ApplyProfile(ApplyProfile(manifest, presets, override).value, presets, override)
         == ApplyProfile(manifest, presets, override)
  {
    hide ApplyToNode, ApplyToStreams, ApplyToExports;
    var applied := ApplyProfile(manifest, presets, override).value;
    var chosen := Chosen(manifest, override);
    if !Falsy(chosen) {
      var preset := presets[chosen.value.text];
      ApplyToStreamsOnce(preset, manifest.streams);
      MergeAbsorbs(With(preset.runtime, "profile", chosen.value), manifest.runtime);
      forall n | n in manifest.nodes
        ensures ApplyToNode(preset, applied.nodes[n]) == applied.nodes[n]
      {
        ApplyToNodeOnce(preset, manifest.nodes[n]);
      }
      forall i | 0 <= i < |manifest.edges|
        ensures ApplyToEdges(preset, applied.edges)[i] == applied.edges[i]
      {
        MergeAbsorbs(preset.edgeDefaults, manifest.edges[i]);
      }
      assert ApplyToEdges(preset, applied.edges) == applied.edges;
      var again := ApplyPreset(applied, chosen.value, preset);
      assert again.Ok? && again.value.nodes == applied.nodes;
    }
  }

  // A plain value of one mapping is found at the same path in another.
  ghost predicate KeepsLeaves(before: Mapping, after: Mapping)
  {
    forall path :: Get(before, path).Some? && !Get(before, path).value.Object? ==> Get(after, path) == Get(before, path)
  }

  lemma MergeKeepsLeaves(defaults: Mapping, document: Mapping)
    ensures KeepsLeaves(document, MergeMappings(defaults, document))
  {
    forall path | Get(document, path).Some? && !Get(document, path).value.Object?
      ensures Get(Merge(defaults, document), path) == Get(document, path)
    {
      OverlayLeafWins(defaults, document, path);
    }
  }

  /**
   Whatever the manifest sets in its runtime, a node or an edge wins over the profile - even
   runtime.profile over the name of a profile override.
   */
  lemma ManifestBeatsProfile(manifest: Manifest, presets: map<string, Preset>, override: Option<string>)
    requires ApplyProfile(manifest, presets, override).Ok?
    ensures var applied := ApplyProfile(manifest, presets, override).value;
            && KeepsLeaves(manifest.runtime, applied.runtime)
            && applied.nodes.Keys == manifest.nodes.Keys
            && (forall n :: n in manifest.nodes ==> KeepsLeaves(manifest.nodes[n], applied.nodes[n]))
            && |applied.edges| == |manifest.edges|
            && (forall i :: 0 <= i < |manifest.edges| ==> KeepsLeaves(manifest.edges[i], applied.edges[i]))
  {
    hide KeepsLeaves, ApplyToStreams, Merge;
    var applied := ApplyProfile(manifest, presets, override).value;
    forall document: Mapping {:trigger KeepsLeaves(document, document)}
      ensures KeepsLeaves(document, document)
    {
      SameLeaves(document);
    }
    if applied != manifest {
      var chosen := Chosen(manifest, override);
      var preset := presets[chosen.value.text];
      MergeKeepsLeaves(With(preset.runtime, "profile", chosen.value), manifest.runtime);
      forall n | n in manifest.nodes
        ensures KeepsLeaves(manifest.nodes[n], applied.nodes[n])
      {
        var uses := UsesOf(manifest.nodes[n]);
        SameLeaves(manifest.nodes[n]);
        if uses.Some? && uses.value in preset.nodeDefaults {
          MergeKeepsLeaves(preset.nodeDefaults[uses.value], manifest.nodes[n]);
        }
      }
      forall i | 0 <= i < |manifest.edges|
        ensures KeepsLeaves(manifest.edges[i], applied.edges[i])
      {
        MergeKeepsLeaves(preset.edgeDefaults, manifest.edges[i]);
      }
    }
  }

  lemma SameLeaves(document: Mapping)
    ensures KeepsLeaves(document, document)
  {
  }

  /**
   After a preset is applied the runtime names the profile that was chosen exactly when the
   manifest has no profile entry of its own, or that very one; even a null entry wins.
   */
  lemma ProfileNameExactly(manifest: Manifest, presets: map<string, Preset>, override: Option<string>)
    requires ApplyProfile(manifest, presets, override).Ok? && !Falsy(Chosen(manifest, override))
    ensures Entry(ApplyProfile(manifest, presets, override).value.runtime, "profile") == Chosen(manifest, override) <==>
            Entry(manifest.runtime, "profile").None? || Entry(manifest.runtime, "profile") == Chosen(manifest, override)
  {
    hide ApplyToStreams, Merge;
    var chosen := Chosen(manifest, override);
    var defaults := With(presets[chosen.value.text].runtime, "profile", chosen.value);
    PlainDefault(defaults, manifest.runtime, "profile");
  }

  lemma PlainDefault(defaults: Mapping, document: Mapping, key: string)
    requires key in defaults.fields && !defaults.fields[key].Object?
    ensures Entry(MergeMappings(defaults, document), key) ==
            if key in document.fields then Some(document.fields[key]) else Some(defaults.fields[key])
  {
    var merged := Merge(defaults, document);
    assert key in merged.fields;
    if key in document.fields {
      assert merged.fields[key] == Merge(defaults.fields[key], document.fields[key]) == document.fields[key];
    }
  }

  /** A manifest that names another profile, or null, keeps it although "fast" was asked for. */
  lemma OverrideNotRecorded(own: Value)
    requires own != Scalar("fast")
    ensures var empty: Mapping := Object(map[]);
            var manifest := Manifest(Object(map["profile" := own]), map[], [], empty);
            var presets := map["fast" := Preset(empty, map[], empty, empty)];
            var applied := ApplyProfile(manifest, presets, Some("fast"));
            applied.Ok? && Entry(applied.value.runtime, "profile") == Some(own)
  {
    var empty: Mapping := Object(map[]);
    var manifest := Manifest(Object(map["profile" := own]), map[], [], empty);
    var presets := map["fast" := Preset(empty, map[], empty, empty)];
    assert Entry(empty, "queue").None? && ApplyToStreams(presets["fast"], empty).Ok?;
    var defaults := With(empty, "profile", Scalar("fast"));
    assert Merge(defaults, manifest.runtime).fields["profile"] == Merge(Scalar("fast"), own) == own;
  }

  predicate HasDefaults(preset: Preset, node: Mapping)
  {
    UsesOf(node).Some? && UsesOf(node).value in preset.nodeDefaults
  }

  // The manifest says nothing at the path, and nothing above it that is not a mapping.
  predicate Silent(document: Mapping, path: seq<string>)
  {
    Get(document, path).None? && !Blocked(document, path)
  }

  /** Where the manifest is silent the profile shows: in the runtime, in a node and in an edge. */
  lemma ProfileFillsIn(manifest: Manifest, presets: map<string, Preset>, override: Option<string>, path: seq<string>)
    requires ApplyProfile(manifest, presets, override).Ok? && !Falsy(Chosen(manifest, override))
    ensures var applied, name := ApplyProfile(manifest, presets, override).value, Chosen(manifest, override).value;
            && name.Scalar? && name.text in presets
            && var preset := presets[name.text];
               && (Silent(manifest.runtime, path) ==> Get(applied.runtime, path) == Get(With(preset.runtime, "profile", name), path))
               && (forall n :: n in manifest.nodes && HasDefaults(preset, manifest.nodes[n]) && Silent(manifest.nodes[n], path) ==>
                     Get(applied.nodes[n], path) == Get(preset.nodeDefaults[UsesOf(manifest.nodes[n]).value], path))
               && (forall i :: 0 <= i < |manifest.edges| && Silent(manifest.edges[i], path) ==>
                     Get(applied.edges[i], path) == Get(preset.edgeDefaults, path))
  {
    hide ApplyToStreams, Merge, Get, Blocked, Silent;
    var applied, name := ApplyProfile(manifest, presets, override).value, Chosen(manifest, override).value;
    var preset := presets[name.text];
    DefaultShows(With(preset.runtime, "profile", name), manifest.runtime, path);
    forall n | n in manifest.nodes && HasDefaults(preset, manifest.nodes[n]) && Silent(manifest.nodes[n], path)
      ensures Get(applied.nodes[n], path) == Get(preset.nodeDefaults[UsesOf(manifest.nodes[n]).value], path)
    {
      NodeDefaultShows(preset, manifest.nodes[n], path);
    }
    forall i | 0 <= i < |manifest.edges| && Silent(manifest.edges[i], path)
      ensures Get(applied.edges[i], path) == Get(preset.edgeDefaults, path)
    {
      DefaultShows(preset.edgeDefaults, manifest.edges[i], path);
    }
  }

  lemma DefaultShows(defaults: Mapping, document: Mapping, path: seq<string>)
    ensures Silent(document, path) ==> Get(MergeMappings(defaults, document), path) == Get(defaults, path)
  {
    MergePathLaw(defaults, document, path);
  }

  lemma NodeDefaultShows(preset: Preset, node: Mapping, path: seq<string>)
    requires HasDefaults(preset, node) && Silent(node, path)
    ensures Get(ApplyToNode(preset, node), path) == Get(preset.nodeDefaults[UsesOf(node).value], path)
  {
    DefaultShows(preset.nodeDefaults[UsesOf(node).value], node, path);
    if preset.nodeDefaults[UsesOf(node).value].fields == map[] {
      assert path != [];
    }
  }

  lemma {:induction false} ExportsKeepLeaves(queue: Value, exports: seq<Value>, i: nat)
    requires ApplyToExports(queue, exports).Ok? && i < |exports|
    ensures var items := ApplyToExports(queue, exports).value;
            |items| == |exports| && exports[i].Object? && items[i].Object? && KeepsLeaves(exports[i], items[i])
  {
    hide KeepsLeaves, Merge;
    if i == 0 {
      ApplyToExportsOnce(queue, exports);
      MergeKeepsLeaves(Object(map["queue" := queue]), exports[0]);
    } else {
      ExportsKeepLeaves(queue, exports[1..], i - 1);
    }
  }

  // The exports of a manifest, when it lists any.
  function ExportsOf(streams: Mapping): seq<Value>
  {
    match Entry(streams, "exports")
    case Some(List(items)) => items
    case _ => []
  }

  /** The same for streams: every setting outside the exports, and every setting of each export. */
  lemma StreamsBeatProfile(preset: Preset, streams: Mapping, path: seq<string>, i: nat)
    requires ApplyToStreams(preset, streams).Ok?
    ensures var applied := ApplyToStreams(preset, streams).value;
            && (path != [] && path[0] != "exports" && Get(streams, path).Some? && !Get(streams, path).value.Object? ==>
                  Get(applied, path) == Get(streams, path))
            && (ExportsOf(streams) != [] ==> |ExportsOf(applied)| == |ExportsOf(streams)|)
            && (i < |ExportsOf(streams)| && ExportsOf(streams)[i].Object? ==>
                  ExportsOf(applied)[i].Object? && KeepsLeaves(ExportsOf(streams)[i], ExportsOf(applied)[i]))
  {
    hide KeepsLeaves, Merge, ApplyToExports;
    var defaults := Without(preset.streamDefaults, "queue");
    var merged := MergeMappings(defaults, streams);
    if path != [] && Get(streams, path).Some? && !Get(streams, path).value.Object? {
      OverlayLeafWins(defaults, streams, path);
    }
    if ExportsOf(streams) != [] {
      var k := if i < |ExportsOf(streams)| then i else 0;
      OverlayLeafWins(defaults, streams, ["exports"]);
      assert Get(streams, ["exports"]) == Entry(streams, "exports") && Get(merged, ["exports"]) == Entry(merged, "exports") by {
        assert ["exports"][1..] == [];
      }
      var queue := Entry(preset.streamDefaults, "queue");
      if queue.Some? && !queue.value.Null? {
        ExportsKeepLeaves(queue.value, ExportsOf(streams), k);
      } else if ExportsOf(streams)[k].Object? {
        SameLeaves(ExportsOf(streams)[k]);
      }
    }
  }

  lemma {:induction false} ExportGetsQueue(queue: Value, exports: seq<Value>, i: nat)
    requires ApplyToExports(queue, exports).Ok? && i < |exports|
    ensures var items := ApplyToExports(queue, exports).value;
            && |items| == |exports| && exports[i].Object?
            && Get(items[i], ["queue"]) ==
               (match Get(exports[i], ["queue"])
                case None => Some(queue)
                case Some(own) => Some(Merge(queue, own)))
  {
    if i == 0 {
      ApplyToExportsOnce(queue, exports);
      var defaults := Object(map["queue" := queue]);
      assert ["queue"][1..] == [];
      MergePathLaw(defaults, exports[0], ["queue"]);
      assert Get(defaults, ["queue"]) == Some(queue);
    } else {
      ExportGetsQueue(queue, exports[1..], i - 1);
    }
  }

  /**
   Where the streams of a manifest are silent the stream defaults of the profile show, except for
   its queue, which goes to the exports: under every export's own settings for it, or alone.
   */
  lemma StreamsFillIn(preset: Preset, streams: Mapping, path: seq<string>, i: nat)
    requires ApplyToStreams(preset, streams).Ok?
    ensures path != [] && path[0] !in {"exports", "queue"} && Silent(streams, path) ==>
              Get(ApplyToStreams(preset, streams).value, path) == Get(preset.streamDefaults, path)
    ensures "queue" !in streams.fields ==> "queue" !in ApplyToStreams(preset, streams).value.fields
    ensures var queue, applied := Get(preset.streamDefaults, ["queue"]), ApplyToStreams(preset, streams).value;
            queue.Some? && !queue.value.Null? && i < |ExportsOf(streams)| ==>
              && |ExportsOf(applied)| == |ExportsOf(streams)|
              && Get(ExportsOf(applied)[i], ["queue"]) ==
                 (match Get(ExportsOf(streams)[i], ["queue"])
                  case None => queue
                  case Some(own) => Some(Merge(queue.value, own)))
  {
    hide ApplyToExports;
    var defaults := Without(preset.streamDefaults, "queue");
    assert ["queue"][1..] == [] && ["exports"][1..] == [];
    assert Get(preset.streamDefaults, ["queue"]) == Entry(preset.streamDefaults, "queue");
    if path != [] {
      DefaultShows(defaults, streams, path);
    }
    var queue := Entry(preset.streamDefaults, "queue");
    if queue.Some? && !queue.value.Null? && i < |ExportsOf(streams)| {
      var merged := MergeMappings(defaults, streams);
      OverlayLeafWins(defaults, streams, ["exports"]);
      assert Get(streams, ["exports"]) == Entry(streams, "exports") && Get(merged, ["exports"]) == Entry(merged, "exports");
      ExportGetsQueue(queue.value, ExportsOf(streams), i);
    }
  }

  /**
   Which profile is applied: the one asked for, unless that is empty, and else the one the manifest
   names; none when that is absent or empty.  A name without a preset is refused, and nodes that
   the preset has no defaults for stay as they are.
   */
  lemma ProfileChosen(manifest: Manifest, presets: map<string, Preset>, override: Option<string>)
    ensures var asked := if override.Some? && override.value != "" then Some(Scalar(override.value))
                         else Get(manifest.runtime, ["profile"]);
            var applied := ApplyProfile(manifest, presets, override);
            if asked in {None, Some(Null), Some(Scalar("")), Some(List([])), Some(Object(map[]))} then applied == Ok(manifest)
            else if !asked.value.Scalar? || asked.value.text !in presets then applied == Err(UnknownPreset)
            else
              && (applied.Ok? <==> ApplyToStreams(presets[asked.value.text], manifest.streams).Ok?)
              && (applied.Ok? ==>
                    && applied.value.streams == ApplyToStreams(presets[asked.value.text], manifest.streams).value
                    && forall n :: n in manifest.nodes && !HasDefaults(presets[asked.value.text], manifest.nodes[n]) ==>
                         n in applied.value.nodes && applied.value.nodes[n] == manifest.nodes[n])
  {
    hide ApplyToStreams, Merge;
    assert ["profile"][1..] == [];
    assert Get(manifest.runtime, ["profile"]) == Entry(manifest.runtime, "profile");
  }

  // ---------------------------------------------------------------- where values come from

  function Dotted(prefix: string, key: string): string
  {
    if prefix == "" then key else prefix + "." + key
  }

  // The dotted paths of all values that are not mappings.
  function FlattenPaths(value: Value, prefix: string): set<string>
  {
    match value
    case Object(fields) =>
      set key, path | key in fields && path in FlattenPaths(fields[key], Dotted(prefix, key)) :: path
    case _ => {prefix}
  }

  function DottedPath(prefix: string, path: seq<string>): string
    decreases |path|
  {
    if path == [] then prefix else DottedPath(Dotted(prefix, path[0]), path[1..])
  }

  lemma {:induction false} LeafIsFlattened(value: Value, prefix: string, path: seq<string>)
    requires Get(value, path).Some? && !Get(value, path).value.Object?
    ensures DottedPath(prefix, path) in FlattenPaths(value, prefix)
    decreases |path|
  {
    if path != [] {
      LeafIsFlattened(value.fields[path[0]], Dotted(prefix, path[0]), path[1..]);
    }
  }

  // What is known of one path after the given paths were given a source.
  ghost predicate SourceOf(path: string, paths: set<string>, sources: map<string, string>,
                           recorded: map<string, string>, origin: string)
  {
    && (path in recorded <==> path in sources || path in paths)
    && (path in recorded ==> recorded[path] == if path in sources then sources[path] else origin)
  }

  ghost predicate Labelled(paths: set<string>, sources: map<string, string>, recorded: map<string, string>,
                           origin: string)
  {
    forall path :: SourceOf(path, paths, sources, recorded, origin)
  }

  lemma LabelOne(paths: set<string>, sources: map<string, string>, recorded: map<string, string>,
                 origin: string, next: string)
    requires Labelled(paths, sources, recorded, origin)
    ensures Labelled(paths + {next}, sources, if next in recorded then recorded else recorded[next := origin], origin)
  {
    var more, now := paths + {next}, if next in recorded then recorded else recorded[next := origin];
    forall path
      ensures SourceOf(path, more, sources, now, origin)
    {
      assert SourceOf(path, paths, sources, recorded, origin);
    }
  }

  /** After a profile is applied every value has a source; what had one keeps it. */
  method RecordSources(document: Value, sources: map<string, string>, profile: string)
    returns (recorded: map<string, string>)
    ensures Labelled(FlattenPaths(document, ""), sources, recorded, "profile:" + profile)
  {
    hide FlattenPaths;
    recorded := sources;
    var origin := "profile:" + profile;
    var todo := FlattenPaths(document, "");
    ghost var done: set<string> := {};
    NothingLabelled(sources, origin);
    hide Labelled;
    while todo != {}
      invariant done + todo == FlattenPaths(document, "")
      invariant Labelled(done, sources, recorded, origin)
      decreases |todo|
    {
      var path :| path in todo;
      LabelOne(done, sources, recorded, origin, path);
      if path !in recorded {
        recorded := recorded[path := origin];
      }
      done, todo := done + {path}, todo - {path};
    }
    assert done == FlattenPaths(document, "");
  }

  lemma NothingLabelled(sources: map<string, string>, origin: string)
    ensures Labelled({}, sources, sources, origin)
  {
  }

  /** In particular, every value that is not a mapping has a source. */
  lemma EveryLeafHasSource(document: Value, sources: map<string, string>, recorded: map<string, string>,
                           origin: string, path: seq<string>)
    requires Labelled(FlattenPaths(document, ""), sources, recorded, origin)
    requires Get(document, path).Some? && !Get(document, path).value.Object?
    ensures DottedPath("", path) in recorded
  {
    LeafIsFlattened(document, "", path);
    assert SourceOf(DottedPath("", path), FlattenPaths(document, ""), sources, recorded, origin);
  }

  // The whole document: the modelled sections over the others.
  function DocumentOf(others: Mapping, manifest: Manifest): Mapping
  {
    Object(others.fields["runtime" := manifest.runtime]
           ["nodes" := Object(map n | n in manifest.nodes :: manifest.nodes[n])]
           ["edges" := List(manifest.edges)]
           ["streams" := manifest.streams])
  }

  /**
   Applying a profile to a document: the new document, and the sources of its values.  Every value
   that is not a mapping has a source then; what had one keeps it, and the rest names the profile.
   Without a profile nothing changes.
   */
  method ApplyAndRecord(manifest: Manifest, others: Mapping, presets: map<string, Preset>, override: Option<string>,
                        sources: map<string, string>)
    returns (result: Result<Manifest, ProfileError>, recorded: map<string, string>)
    ensures result == ApplyProfile(manifest, presets, override)
    ensures Falsy(Chosen(manifest, override)) || result.Err? ==> recorded == sources
    ensures result.Ok? && !Falsy(Chosen(manifest, override)) ==>
              && Chosen(manifest, override).value.Scalar?
              && Labelled(FlattenPaths(DocumentOf(others, result.value), ""), sources, recorded,
                          "profile:" + Chosen(manifest, override).value.text)
    ensures result.Ok? && !Falsy(Chosen(manifest, override)) ==>
              forall path :: Get(DocumentOf(others, result.value), path).Some?
                             && !Get(DocumentOf(others, result.value), path).value.Object? ==>
                DottedPath("", path) in recorded
  {
    hide Labelled, FlattenPaths, DocumentOf;
    var chosen := Chosen(manifest, override);
    result, recorded := ApplyProfile(manifest, presets, override), sources;
    if result.Err? || Falsy(chosen) {
      return;
    }
    var document := DocumentOf(others, result.value);
    recorded := RecordSources(document, sources, chosen.value.text);
    forall path | Get(document, path).Some? && !Get(document, path).value.Object?
      ensures DottedPath("", path) in recorded
    {
      EveryLeafHasSource(document, sources, recorded, "profile:" + chosen.value.text, path);
    }
  }

  // ---------------------------------------------------------------- configuration paths

  const NodeSections := {"uses", "parameters", "inputs", "outputs", "synchronization", "execution",
                         "failure", "health", "resources", "memory", "bindings"}

  // node.key becomes nodes.node.key, and an unknown node key becomes a parameter.
  function CanonicalPath(parts: seq<string>, nodes: set<string>): seq<string>
  {
    var rooted := if |parts| >= 2 && parts[0] in nodes then ["nodes"] + parts else parts;
    if |rooted| >= 3 && rooted[0] == "nodes" && rooted[2] !in NodeSections
    then rooted[..2] + ["parameters"] + rooted[2..] else rooted
  }

  /**
   Overrides are made canonical when they are read and again when they are set.  The second
   pass changes nothing except for a path that starts with a node name while some node is
   itself called "nodes".
   */
  lemma CanonicalPathTwice(parts: seq<string>, nodes: set<string>)
    ensures CanonicalPath(CanonicalPath(parts, nodes), nodes) == CanonicalPath(parts, nodes) <==>
            !(|parts| >= 2 && parts[0] in nodes && "nodes" in nodes)
  {
    var once := CanonicalPath(parts, nodes);
    assert "parameters" in NodeSections;
    if |once| >= 2 && once[0] in nodes {
      assert |CanonicalPath(once, nodes)| > |once|;
    }
  }

  // The document after an override: missing or plain intermediate entries become mappings.
  function SetPath(target: Mapping, parts: seq<string>, value: Value): Mapping
    requires parts != []
    decreases |parts|
  {
    if |parts| == 1 then With(target, parts[0], value)
    else
      var next := Entry(target, parts[0]);
      var inner := if next.Some? && next.value.Object? then next.value else Object(map[]);
      With(target, parts[0], SetPath(inner, parts[1..], value))
  }

  /** An override is seen at its own path, and at no path that leads elsewhere. */
  lemma {:induction false} SetPathLaw(target: Mapping, parts: seq<string>, value: Value, path: seq<string>)
    requires parts != []
    ensures var result := Get(SetPath(target, parts, value), path);
            if parts <= path then result == Get(value, path[|parts|..])
            else if path <= parts then result.Some? && result.value.Object?
            else result == Get(target, path)
    decreases |parts|
  {
    if path != [] && path[0] == parts[0] {
      assert parts <= path <==> parts[1..] <= path[1..];
      assert path <= parts <==> path[1..] <= parts[1..];
      if |parts| > 1 {
        var next := Entry(target, parts[0]);
        var inner := if next.Some? && next.value.Object? then next.value else Object(map[]);
        SetPathLaw(inner, parts[1..], value, path[1..]);
        if parts <= path {
          assert path[1..][|parts| - 1..] == path[|parts|..];
        }
      } else {
        assert parts == [parts[0]] && parts <= path;
      }
    }
  }
}
