# Nodrix planning and storage, modelled in Dafny

Nodrix plans and runs "Systems": pipelines of nodes composed from nested fragments, executed with
shared buffers and external providers, measured by benchmarks and kept in a content-addressed
store. This project models the parts of it that carry whole-run properties and proves them:

- **Fragment compiler** (`References`, `FragmentExpansion`, `PipelineAssembly`, `FragmentLoading`):
  flattening a tree of fragments keeps its connectivity, and the whole pipeline does exactly when no
  instance captures an end; the exact condition under which the names it makes do not collide, and
  that every node then keeps its configuration and every edge its options; importing fragment files
  terminates, succeeds exactly when no chain of imports has a fault, and returns what the files and
  the references to them say.
- **Configuration** (`DeepMerge`, `Profiles`): the path law of merging and what follows for runtime
  profiles and overrides.
- **Shared buffers** (`SharedBuffer`): reference counting as interleaved steps, safe for every
  schedule, and from everywhere it can still be freed.
- **Content-addressed store** (`JsonText`, `TreeDigest`, `MaterializeRace`, `MaterializedStore`): the
  directory digest is injective; concurrent materializers race safely on the rename; the
  sequential store keeps what is pinned and what nobody made ephemeral. One worker alone refines the sequential operation.
- **Schedulers** (`Graph`, `TopologicalOrder`, `RecipeOrder`, `SetupCommands`): Kahn's algorithm, the
  depth-first recipe order and the propagation of setup commands, as the loops and classes they are,
  with what each promises of the order itself.
- **Plan compiler and its checker** (`ManifestModel`, `ExecutionPlan`): two independent validators;
  what the first accepts compiles into what the second accepts.
- **Benchmark provenance** (`BenchmarkWorkload`, `BenchmarkExecution`): a cache, a polling loop, a run
  coordinator and a suite check that together tie recorded plans to executed ones, exactly as long as
  nothing clears the cache; then also exactly when all its requests succeed.
- **Provider lifecycle** (`IntegrationLifecycle`): opening, rollback and closing under any failure.
- **Statistics** (`Statistics`, `Aggregation`): percentiles and aggregation over reals.

`Wrappers` and `Document` hold the option, result and document types. Code that changes things step
by step is modelled by methods and classes and proved against functions; steps of concurrent calls
are state machines whose properties hold for every schedule. External calls (providers, files,
planning, inspection) may give any answer: their answers are inputs, or chosen freely.

Where the code differs from what one might expect, the model follows the code and says exactly when:

- Two leaves that expand to one name are one node of the expansion (`ExpansionCountsExactly`,
  `CollidingLosesNode`).
- An instance called like an expanded node, `f__n`, captures the ends of that node
  (`StaysExactly`, `FlattenPreservesConnectivity`, `OuterPassRedirects`).
- `runtime.profile` in the manifest, even when null, wins over the profile that was asked for
  (`ProfileNameExactly`, `OverrideNotRecorded`).
- Override paths are made canonical twice, which differs from once for a node called `nodes`
  (`CanonicalPathTwice`).
- When releasing the lease of a shared buffer raises, and only then, its handle is never closed
  (`SharedBufferIsFreed`, `RaisingLeaseLeavesHandleOpen`).
- A rollback drops an `Exception` of a close but not an interrupt: the provider concerned is still
  marked as open and is closed a second time by the emergency cleanup
  (`EndedOnceExactly`, `InterruptedCloseComesTwice`).
- A file that holds the text hashed for a directory has its digest; the store keeps whichever was
  published first and refuses the other (`FileAgainstDirectory`, `AllSucceedExactlyWhenCompatible`).
- Setup commands follow the layers of the recipes exactly when the recipes are orderly, as they are
  with single providers; two providers of one command can put it before a command it needs
  (`Propagate`, `AllLayeredExactly`, `SharedProviderBreaksLayers`).
- A benchmark certainly executes what it recorded exactly while nothing clears the resolver's cache
  in between; code called for each run can (`AgreeExactly`, `TracedExactly`, `ClearedBenchmark`).

## Model

| member | source | states |
|---|---|---|
| `FragmentExpansion.ExpandPreservesConnectivity` | src/nodrix/manifest_parser.py:555-610 | Expansion fails exactly when some reference of the tree leads nowhere; otherwise its edges are exactly the hierarchical edges, in order, each end replaced by the leaf that following public ports reaches, and its public ports are those of the fragment |
| `FragmentExpansion.FollowReachesLeaf` | src/nodrix/manifest_parser.py:582-595 | Following public ports always ends in a node of the tree |
| `FragmentExpansion.FollowOwnNode` | src/nodrix/manifest_parser.py:582-588 | A reference to a node of the fragment itself stays there |
| `FragmentExpansion.FollowPublicPort` | src/nodrix/manifest_parser.py:588-595 | A reference to a nested fragment goes on from its public port of that name, an output for a source and an input for a target |
| `FragmentExpansion.EdgeIsCarried` | src/nodrix/manifest_parser.py:597-601 | Every edge of every fragment, at any depth, is in the expansion between the leaves that its two ends reach, with its own options |
| `FragmentExpansion.ExpansionKeepsOptions` | src/nodrix/manifest_parser.py:582-601 | The expansion has as many edges as the tree is written with, and their options in order |
| `FragmentExpansion.ExpansionRenames` | src/nodrix/manifest_parser.py:564-580 | The nodes of a successful expansion are the renamed nodes of the whole tree, whatever the names are |
| `FragmentExpansion.LeafIsRenamed` | src/nodrix/manifest_parser.py:564-580 | Each leaf of the tree names a node of the expansion, so no edge or port dangles |
| `FragmentExpansion.RenamedIsLeaf` | src/nodrix/manifest_parser.py:564-580 | Each node of the expansion is named by a leaf of the tree: nothing is invented |
| `FragmentExpansion.ExpansionKeepsLeaf` | src/nodrix/manifest_parser.py:564-580 | With clean names every leaf keeps its own configuration: no expanded node overwrites another |
| `FragmentExpansion.ApartKeepsLeaf` | src/nodrix/manifest_parser.py:564-580 | More generally, wherever no two leaves expand to one name every leaf keeps its own configuration |
| `FragmentExpansion.RenamedIsConfigured` | src/nodrix/manifest_parser.py:564-580 | Each expanded node has the configuration of a leaf that expands to its name, whatever the names are |
| `FragmentExpansion.ExpansionCountsNodes` | src/nodrix/manifest_parser.py:564-580 | With clean names the expansion has exactly as many nodes as the tree |
| `FragmentExpansion.ExpansionCountsExactly` | src/nodrix/manifest_parser.py:564-580 | An expansion never has more nodes than the tree, and as many exactly when no two leaves expand to one name |
| `FragmentExpansion.CollidingLosesNode` | src/nodrix/manifest_parser.py:564-580 | A tree whose expansion loses a node: a node x__y beside an instance x with a node y |
| `References.JoinInjective` | src/nodrix/manifest_parser.py:565-572 | Joining names with "__" is injective on paths whose instances contain no "__" and do not end in "_" and whose node contains no "__" |
| `References.CleanExactly` | src/nodrix/manifest_parser.py:565-572 | An instance name is clean, free of "__" and not ending in "_", exactly when no other clean name can be mistaken for it in a joined name |
| `References.NodeCleanExactly` | src/nodrix/manifest_parser.py:565-572 | The same for the name at the end of a path |
| `References.SeparatorInNodeCollides` | src/nodrix/manifest_parser.py:565-572 | A node name with "__" inside always shares its expanded name with a nested path |
| `References.TrailingUnderscoreCollides` | src/nodrix/manifest_parser.py:565-572 | An instance name ending in "_" always shares expanded names with the name one "_" shorter |
| `References.PartitionOfReference` | src/nodrix/manifest_parser.py:582-588 | A reference node.port is cut at its first dot, so a dot-free node name and any port are read back |
| `PipelineAssembly.NormalizeAndExpand` | src/nodrix/manifest_parser.py:613-657 | The two loops of the loader compute the flattening function: expansion of every fragment in order, then rewriting of every edge |
| `PipelineAssembly.FlatNodes` | src/nodrix/manifest_parser.py:613-657 | The nodes of a flat pipeline are its own, each with its own configuration, and those of the fragments, with the configurations of their leaves wherever no two share a name; there are no others |
| `PipelineAssembly.CleanFlatNodes` | src/nodrix/manifest_parser.py:629-638 | With clean names every leaf of every instance is a flat node under its joined name, configured as it was |
| `PipelineAssembly.ExpandInstances` | src/nodrix/manifest_parser.py:627-639 | The first loop adds nodes and edges fragment by fragment, fails on the first clash or ill-wired fragment, and collects the public ports |
| `PipelineAssembly.RewriteEdges` | src/nodrix/manifest_parser.py:641-656 | The second loop rewrites both ends of every edge in place and keeps number and order |
| `PipelineAssembly.FlattenPreservesConnectivity` | src/nodrix/manifest_parser.py:613-657 | The flat edges are the own edges of the pipeline followed by those of the fragments, each end replaced by the leaf it means, if and only if no end that a fragment resolved is captured by an instance of the name the end begins with |
| `PipelineAssembly.FlatKeepsOptions` | src/nodrix/manifest_parser.py:637-656 | The flat edges carry the options of the own edges and then of all fragments, as many and in order |
| `PipelineAssembly.FlatCarriesEdge` | src/nodrix/manifest_parser.py:613-657 | When nothing is captured every edge of every fragment, at any depth, is a flat edge between the leaves it connects |
| `PipelineAssembly.PublicEnd` | src/nodrix/manifest_parser.py:641-652 | An end f.p of the pipeline goes to the node behind port p of fragment f: an output for a source, an input for a target |
| `PipelineAssembly.FlattenSucceeds` | src/nodrix/manifest_parser.py:629-656 | Flattening succeeds exactly when every fragment is well wired, no expanded name is taken already and every edge, own or resolved by a fragment, that names an instance names one of its public ports |
| `PipelineAssembly.PlainFlattenSucceeds` | src/nodrix/manifest_parser.py:629-656 | With instance names free of "__" and ".", only the wiring of the fragments, clashes of names and the own edges decide whether flattening succeeds |
| `PipelineAssembly.UncapturedEdgesEnd` | src/nodrix/manifest_parser.py:641-652 | Where no end is captured, the edges that fragments resolved pass the outer loop |
| `PipelineAssembly.ExpandedEndpointStays` | src/nodrix/manifest_parser.py:641-652 | The outer pass keeps the end of an expanded node exactly when no instance has the name of that node |
| `PipelineAssembly.StaysExactly` | src/nodrix/manifest_parser.py:641-652 | It keeps any reference exactly when the name before the first dot is that of no instance, or there is no dot |
| `PipelineAssembly.PlainNamesCaptureNothing` | src/nodrix/manifest_parser.py:641-652 | Instance names without "__" or "." capture no end that a fragment resolved, whatever the fragments contain |
| `PipelineAssembly.FlatEndsAreNodes` | src/nodrix/manifest_parser.py:613-657 | Every end of a flat edge names a node of the flat result, except for ends that the pipeline itself wrote and that begin with no instance name |
| `PipelineAssembly.OuterPassRedirects` | src/nodrix/manifest_parser.py:641-652 | A pipeline that flattens to the wrong edges: an instance called f__n captures the end of an edge of fragment f at its node n |
| `FragmentLoading.OpeningShrinks` | src/nodrix/manifest_parser.py:425-445 | Every file that is opened leaves fewer files off the import stack, the measure by which loading terminates on every finite set of files |
| `FragmentLoading.LoadedChainsAreDistinct` | src/nodrix/manifest_parser.py:411-498 | A load that succeeds opened no file twice on any chain of imports, however deep; the same file may appear on different chains |
| `FragmentLoading.LoadsExactly` | src/nodrix/manifest_parser.py:411-498 | A load succeeds exactly when on every chain of imports every reference reads, every file opens, every document passes its checks and no file is opened twice |
| `FragmentLoading.LoadedTree` | src/nodrix/manifest_parser.py:411-545 | What a load returns: along every chain of names an entry exactly where the documents have a fragment, holding the document there, with the fragments below in the order of the document |
| `FragmentLoading.ImportShows` | src/nodrix/manifest_parser.py:418-449 | An imported document shows, at every path, what the importing reference says over the file, merged where both are mappings |
| `FragmentLoading.InPlaceShows` | src/nodrix/manifest_parser.py:418-453 | A fragment written in place shows what is written |
| `FragmentLoading.BelowIsListed` | src/nodrix/manifest_parser.py:490-498 | The fragments below a document are those under its key "fragments" |
| `FragmentLoading.SourceExactly` | src/nodrix/manifest_parser.py:411-445 | A fragment value can be read exactly when it is a path or a mapping with a path, null or nothing as "uses", and the file, if any, exists and holds a mapping or nothing |
| `FragmentLoading.FaultlessExactly` | src/nodrix/manifest_parser.py:411-498 | Nothing is wrong with one value exactly when it can be read, its document passes the checks and its file is not open already |
| `FragmentLoading.FaultFurtherDown` | src/nodrix/manifest_parser.py:490-498 | The faults further down a chain are those of the fragments below, on the longer import stack |
| `FragmentLoading.FailureIsAFault` | src/nodrix/manifest_parser.py:411-498 | An error that is reported is the first fault of some chain |
| `FragmentLoading.RecursionExactly` | src/nodrix/manifest_parser.py:430-432 | When nothing else is wrong on any chain, recursion is reported exactly when some chain opens a file again |
| `FragmentLoading.DiamondIsAccepted` | src/nodrix/manifest_parser.py:425-445 | A document in place loads exactly when each of its fragments loads on the same stack, so that one file may be imported through several of them |
| `DeepMerge.MergePathLaw` | src/nodrix/manifest_parser.py:39-46 | At every path: the overlay wins, merged with the base where both are mappings; below a non-mapping of the overlay there is nothing; elsewhere the base shows |
| `DeepMerge.BaseLeafSurvives` | src/nodrix/manifest_parser.py:39-46 | A base leaf survives exactly when the overlay neither defines its path nor has a non-mapping above it |
| `DeepMerge.MergeAbsorbs` | src/nodrix/manifest_parser.py:39-46 | merge(d, merge(d, x)) = merge(d, x) |
| `DeepMerge.MergeIdempotent` | src/nodrix/manifest_parser.py:39-46 | merge(x, x) = x |
| `Profiles.ProfileAppliesOnce` | src/nodrix/manifest_parser.py:370-403 | Applying a profile a second time changes nothing |
| `Profiles.ManifestBeatsProfile` | src/nodrix/manifest_parser.py:382-403 | Every leaf that the manifest sets in its runtime, a node or an edge is unchanged; the profile name written in the manifest even beats the override |
| `Profiles.ProfileFillsIn` | src/nodrix/manifest_parser.py:382-394 | Where the manifest is silent the value of the profile shows, in the runtime and in every node |
| `Profiles.ProfileNameExactly` | src/nodrix/manifest_parser.py:373-394 | The profile that was applied is the one recorded exactly when the manifest has no profile entry, or that very entry; a null entry wins too |
| `Profiles.OverrideNotRecorded` | src/nodrix/manifest_parser.py:373-394 | A manifest on which the profile asked for is applied and another one recorded |
| `Profiles.StreamsBeatProfile` | src/nodrix/manifest_parser.py:396-403 | The same for streams: settings outside the exports, and every setting of each export, in number and order |
| `Profiles.StreamsFillIn` | src/nodrix/manifest_parser.py:396-403 | Where the streams are silent the stream defaults show; the queue of the profile goes to every export instead, alone or under the settings of the export |
| `Profiles.ProfileChosen` | src/nodrix/manifest_parser.py:370-381 | The profile applied is the one asked for unless empty, else the one the manifest names; without one nothing changes, and a name without a preset is refused |
| `Profiles.RecordSources` | src/nodrix/manifest_parser.py:405-408 | The source table afterwards has exactly the old paths and the flattened ones; old entries are kept and new ones name the profile |
| `Profiles.EveryLeafHasSource` | src/nodrix/manifest_parser.py:77-87 | Every value that is not a mapping has an entry under its dotted path |
| `Profiles.ApplyAndRecord` | src/nodrix/manifest_parser.py:370-408 | Applying a profile to a document leaves every value that is not a mapping with a source; old sources are kept, new ones name the profile, and without a profile nothing changes |
| `Profiles.CanonicalPathTwice` | src/nodrix/manifest_io.py:142-143 | An override path is made canonical twice; this differs from once exactly for a path that starts with a node name while some node is called "nodes" |
| `Profiles.SetPathLaw` | src/nodrix/manifest_parser.py:62-74 | An override is read back at its own path and changes no path that leads elsewhere |
| `SharedBuffer.SharedBufferResource.Retain` | src/nodrix/cv_types.py:85-89 | One more reference, or the error and no change when the count is zero |
| `SharedBuffer.SharedBufferResource.Release` | src/nodrix/cv_types.py:96-110 | One reference less; the lease and the handle are handed out exactly by the release that reaches zero |
| `SharedBuffer.ManagedBuffer.Release` | src/nodrix/cv_types.py:235-259 | The first release gives up the reference of the view, or frees what an unshared view owns; every later one does nothing |
| `SharedBuffer.ManagedBuffer.Share` | src/nodrix/cv_types.py:261-307 | The first share moves the lease into the resource and gives it up in the view; a new view holds one reference, no lease and the same handle; a failed construction leaves the count as it was |
| `SharedBuffer.NextKeeps` | src/nodrix/cv_types.py:74-307 | Every step of every call keeps the invariant: consistent views, the count equals live views plus calls in flight, lease and handle are in exactly one place |
| `SharedBuffer.SharedBufferSafety` | src/nodrix/cv_types.py:85-110 | Under every schedule retain never meets a released resource, the lease is released and the handle closed at most once, and neither happens while a view is alive |
| `SharedBuffer.SharedBufferIsFreed` | src/nodrix/cv_types.py:96-110 | When all views are released and all calls have returned the lease has been released exactly once; the handle has been closed once if and only if no step of the schedule was a release of the lease that raised |
| `SharedBuffer.CanBeFreed` | src/nodrix/cv_types.py:96-110 | From every state that a schedule reaches, the views can be released and the calls finished so that the lease is released exactly once and the handle closed exactly once, unless a release of the lease raised before |
| `SharedBuffer.ReleaseReleases` | src/nodrix/cv_types.py:235-259 | Releasing a view always leaves it released; a released view is left alone |
| `SharedBuffer.LoneShare` | src/nodrix/cv_types.py:261-307 | A share that nothing interrupts: both views live and attached, the count one more, lease and handle handed to the resource |
| `SharedBuffer.LoneShareFails` | src/nodrix/cv_types.py:285-307 | A share whose construction fails leaves the count as it was |
| `SharedBuffer.LoneRelease` | src/nodrix/cv_types.py:235-259 | A release that nothing interrupts: the view is released and the count one less, or lease and handle are freed, the handle unless the lease raised |
| `SharedBuffer.LeaksExactly` | src/nodrix/cv_types.py:96-110 | Over any schedule from a consistent state a handle is left behind exactly when some step is a release of the lease that raises |
| `SharedBuffer.RaisingLeaseLeavesHandleOpen` | src/nodrix/cv_types.py:103-110 | A schedule after which everything has returned and the handle is open |
| `SharedBuffer.CallsNeverBlock` | src/nodrix/cv_types.py:235-307 | A call in flight always has an enabled step |
| `TreeDigest.LinesInjective` | src/nodrix/materialized_storage.py:291-310 | The newline-terminated JSON entries can be cut apart again: equal text comes from equal entries |
| `TreeDigest.VisitInjective` | src/nodrix/materialized_storage.py:322-404 | Preorder entries with slash-joined paths determine the listing they came from |
| `TreeDigest.DigestDeterminesDirectory` | src/nodrix/materialized_storage.py:312-415 | With an injective hash, directories with equal digests are equal: names, structure and file contents |
| `TreeDigest.SizeAddsUp` | src/nodrix/materialized_storage.py:322-447 | The size of a payload is the length of all its files: any entry of a directory adds its size to that of the others |
| `TreeDigest.ExampleText` | src/nodrix/materialized_storage.py:291-415 | The text hashed for a directory with a file and a directory with a file, letter by letter |
| `TreeDigest.FileAgainstDirectory` | src/nodrix/materialized_storage.py:262-289 | A file has the digest of a directory exactly when it holds the text hashed for it; type and size then still tell them apart |
| `TreeDigest.InfoDeterminesPayload` | src/nodrix/materialized_storage.py:417-447 | Payloads with the same type and digest are the same payload |
| `TreeDigest.TreeHasher.HashDirectory` | src/nodrix/materialized_storage.py:322-404 | Visiting step by step feeds the hash exactly the entries in preorder and adds up the sizes of the files below |
| `TreeDigest.TreeInfo` | src/nodrix/materialized_storage.py:312-415 | Type, digest and total size of a directory |
| `MaterializeRace.NextKeeps` | src/nodrix/materialized_storage.py:1018-1156 | Every access of any worker keeps: content has the digest of its revision, descriptors describe it, directories only appear and only gain a descriptor, renames are the new directories, each once |
| `MaterializeRace.StoredForever` | src/nodrix/materialized_storage.py:1018-1156 | From any reachable state on, published payloads and written descriptors never change again |
| `MaterializeRace.RaceSafety` | src/nodrix/materialized_storage.py:949-1168 | Under every schedule and whatever the sources do: each new directory was renamed into place exactly once, and every record handed out verifies |
| `MaterializeRace.AllSucceedExactlyWhenCompatible` | src/nodrix/materialized_storage.py:1018-1156 | With stable sources all workers succeed, with records that depend on their own request and content alone, if and only if no two contents of different type or size share a revision directory |
| `MaterializeRace.StoredContentIsTheSource` | src/nodrix/materialized_storage.py:870-888 | With an injective hash the directory of a worker that succeeded holds exactly the content it hashed |
| `MaterializeRace.WorkersFinish` | src/nodrix/materialized_storage.py:949-1168 | No worker waits for another: each returns within nine accesses of its own |
| `MaterializeRace.WorkersNeverBlock` | src/nodrix/materialized_storage.py:949-1168 | A worker that has not returned always has an enabled access, whatever the others did |
| `MaterializedStore.LoneWorkerMaterializes` | src/nodrix/materialized_storage.py:949-1168 | A worker without competition changes the store and answers exactly as the sequential operation |
| `MaterializedStore.MaterializedStore.Materialize` | src/nodrix/materialized_storage.py:949-1168 | The new store and the answer: publish when absent, otherwise compare, complete a missing descriptor, or refuse |
| `MaterializedStore.MaterializedExactly` | src/nodrix/materialized_storage.py:949-1168 | Materializing succeeds exactly when the revision is new or there with the same type, digest and size and no other descriptor; a new one holds the source, unconfigured, an old one keeps payload and lifecycle, and nothing else changes |
| `MaterializedStore.MaterializedStore.SetLifecycle` | src/nodrix/materialized_storage.py:1717-1797 | The lifecycle of a discoverable revision is updated and returned; otherwise nothing changes and it is reported as missing |
| `MaterializedStore.ConfiguredOnly` | src/nodrix/materialized_storage.py:1743-1786 | Exactly the given fields are set, the others keep their value, and no payload or other revision changes |
| `MaterializedStore.MaterializedStore.Delete` | src/nodrix/materialized_storage.py:1841-1895 | False when absent, refused when pinned, otherwise removed |
| `MaterializedStore.DeletedExactly` | src/nodrix/materialized_storage.py:1841-1895 | Deleting takes away exactly the revision named, if described and not pinned |
| `MaterializedStore.MaterializedStore.Prune` | src/nodrix/materialized_storage.py:1924-1970 | The loop removes exactly the ephemeral unpinned revisions of the entity and lists them in listing order |
| `MaterializedStore.PruneReturnsExactly` | src/nodrix/materialized_storage.py:1447-1557 | The list holds each removed revision once and nothing else |
| `MaterializedStore.PinnedSurvives` | src/nodrix/materialized_storage.py:1865-1872 | Over any sequence of operations that never unpins it, a pinned revision keeps its payload and stays pinned |
| `MaterializedStore.RetainedSurvives` | src/nodrix/materialized_storage.py:1602-1610 | Over any sequence of operations that neither makes it ephemeral nor deletes it, a revision that is retained or was never configured keeps its payload through every prune |
| `MaterializedStore.MaterializedStays` | src/nodrix/materialized_storage.py:1924-1970 | So what is materialized anew keeps the content it was made from |
| `MaterializedStore.PruneRemovesExactly` | src/nodrix/materialized_storage.py:1948-1958 | A prune removes exactly the described revisions of the entity that were configured as ephemeral and unpinned |
| `MaterializedStore.FreshLifecycle` | src/nodrix/materialized_storage.py:1602-1610 | A revision that was never configured is retained and unpinned; configuring one of the two leaves the other so |
| `MaterializedStore.OnlyRemovalRemoves` | src/nodrix/materialized_storage.py:1841-1970 | A revision leaves the store, or changes its payload, only if one of the operations deletes it or prunes its entity |
| `MaterializedStore.MaterializeAgain` | src/nodrix/materialized_storage.py:1018-1066 | Materializing again, with anything in between but a removal, answers the same and changes neither payloads nor lifecycles |
| `MaterializedStore.ContentIsAddressed` | src/nodrix/materialized_storage.py:975-978 | Even deleted and materialized again, a revision of one payload type holds the same content |
| `TopologicalOrder.Order` | src/nodrix/execution_plan.py:16-41 | A permutation of the nodes; the flag is true exactly when the local edges form no cycle (self-loops and transported edges ignored, parallel edges counted), and then every such edge points forward; nodes without dependencies come in document order, others in the order in which their last dependency is scheduled, and nodes that wait on a cycle last, in document order |
| `TopologicalOrder.Index` | src/nodrix/execution_plan.py:17-27 | Degrees count parallel edges; targets are kept in document order |
| `TopologicalOrder.LinksInOrder` | src/nodrix/execution_plan.py:19-29 | An edge adds one link and one target, in document order, unless it is transported or joins a node with itself |
| `Graph.PredecessorsCycle` | src/nodrix/execution_plan.py:28-40 | In a finite set where every node has a predecessor there is a cycle, so the nodes that are left over lie behind one |
| `Graph.OrderedIsAcyclic` | src/nodrix/execution_plan.py:28-39 | A graph that can be listed sources first has no cycle |
| `RecipeOrder.Order` | src/nodrix/build_recipes.py:372-397 | Fails exactly when a recipe needs an unknown one or the recipes form a cycle, self-dependency included; otherwise each recipe comes once, after all it depends on; recipes are served in document order and dependencies in the order of each list, so that the order is determined |
| `RecipeOrder.RecipeSearch.Visit` | src/nodrix/build_recipes.py:377-393 | One recursive visit terminates, leaves the path as it found it and appends the recipe and all it depends on, as far as they are missing, each right after its dependencies |
| `RecipeOrder.ChainIsCycle` | src/nodrix/build_recipes.py:380-382 | The chain in the error message is a cycle of dependencies |
| `SetupCommands.Propagate` | src/nodrix/build_recipes.py:446-475 | The inherited commands are, without duplicates, exactly those provided by all transitive dependencies; every list follows the layers of the recipes if and only if the recipes are orderly |
| `SetupCommands.AllLayeredExactly` | src/nodrix/build_recipes.py:446-475 | All lists that recipes pass on are layered if and only if each command that must come before one of a recipe comes from upstream of it or is listed earlier there |
| `SetupCommands.SingleProvidersAreOrderly` | src/nodrix/build_recipes.py:446-475 | Commands with single providers are orderly |
| `SetupCommands.CompileCommands` | src/nodrix/build_recipes.py:372-479 | Order and propagation together succeed exactly when all dependencies are known and acyclic, and end in what Propagate promises |
| `SetupCommands.Inherit` | src/nodrix/build_recipes.py:451-455 | One step of it, from what the direct dependencies pass on |
| `SetupCommands.CompiledFirstCome` | src/nodrix/build_recipes.py:446-475 | Inherited commands are the lists of the dependencies one after the other, and what is passed on those and the own commands, each only where it comes first |
| `SetupCommands.SharedProviderBreaksLayers` | src/nodrix/build_recipes.py:446-475 | Propagation of three recipes, two of which provide one command, that puts it before a command it needs |
| `ManifestModel.ValidateNodeNames` | src/nodrix/manifest_model.py:398-543 | Accepts exactly the manifests on which every check holds; an error names the first check that fails |
| `ManifestModel.NodeMayBeAdded` | src/nodrix/manifest_model.py:423-507 | An accepted manifest stays accepted with one more node exactly when its name is proper and no application has it, its bindings are named and known, it runs in process if it has any, and its failure policy is current |
| `ManifestModel.ApplicationMayBeAdded` | src/nodrix/manifest_model.py:446-521 | The same for an application, which a native engine does not allow |
| `ManifestModel.ResourceMayBeAdded` | src/nodrix/manifest_model.py:446-478 | The same for a resource, whose bindings lead to sessions |
| `ManifestModel.EdgeMayBeAdded` | src/nodrix/manifest_model.py:522-543 | A local edge may join nodes, a transported one and a link also applications; a stream needs a new name |
| `ExecutionPlan.ValidateExecutionPlan` | src/nodrix/execution_plan.py:251-288 | Accepts exactly the plans with proper, distinct names whose edges and links reach known endpoints |
| `ExecutionPlan.CompileExecutionPlan` | src/nodrix/execution_plan.py:56-248 | Every accepted manifest, cyclic or not, compiles: nodes are a permutation of the manifest, edges correspond one to one, planned copies are their sum, the cycle warning and the reproducible flag are exact, and the checker accepts the plan |
| `ExecutionPlan.PlanIsValidExactly` | src/nodrix/execution_plan.py:251-288 | Of any compiled manifest, the checker accepts the plan exactly when something is to be run, names are not empty nor shared between nodes and applications, and all references are known |
| `ExecutionPlan.AcceptedIsPlannable` | src/nodrix/manifest_model.py:439-536 | The checks of the manifest imply all that the plan checker asks |
| `ExecutionPlan.CompileNodes` | src/nodrix/execution_plan.py:77-121 | Every node once, in scheduling order, with its own configuration; a warning for each thing left automatic and no other; reproducible exactly when nothing is left automatic |
| `ExecutionPlan.CompileEdges` | src/nodrix/execution_plan.py:123-159 | Every edge in order; transported edges plan no copies, local ones what their last description says; the total is their sum |
| `ExecutionPlan.PlannedCopiesExactly` | src/nodrix/execution_plan.py:123-159 | In a compiled plan a local edge plans as many copies as the last description of an edge between its two ports says, none without one, and a transported edge none |
| `ExecutionPlan.CompiledNodesExactly` | src/nodrix/execution_plan.py:77-121 | In a compiled plan each node has its own configuration and the described or else configured device; the reproducible flag and the warnings follow from what is left automatic |
| `BenchmarkWorkload.WorkloadResolver.ResolvedVariant` | src/nodrix/benchmark_system_workload.py:155-284 | Only a variant declared by the plan, without legacy overrides, is resolved, and the answer is that of the cache model: the first successful one since the cache was last cleared |
| `BenchmarkWorkload.WorkloadResolver.WorkloadSet` | src/nodrix/benchmark_system_workload.py:306-342 | Succeeds exactly when every variant resolves, under a clean name, to one System; the recorded identities, one per variant in order, are the answers |
| `BenchmarkWorkload.FirstAnswerStands` | src/nodrix/benchmark_system_workload.py:250-284 | However often and however differently variants resolve, without clearing the cache the first answer stands |
| `BenchmarkWorkload.AgreeExactly` | src/nodrix/benchmark_system_workload.py:140-284 | Over any sequence of questions and clearings: two answers for one variant agree whatever resolution gives if and only if the cache is not cleared between them |
| `BenchmarkWorkload.WorkloadResolver.ClearCache` | src/nodrix/benchmark_system_workload.py:140-145 | The cache is empty afterwards |
| `BenchmarkExecution.SystemRunner.Poll` | src/nodrix/benchmark_system_runner.py:401-427 | The waits are initial * multiplier^k capped at the maximum, one for each inspection that finds the run unfinished |
| `BenchmarkExecution.SystemRunner.Run` | src/nodrix/benchmark_system_runner.py:354-519 | A bundle is returned exactly when the variant resolves, it starts, ends after any number of inspections, is recorded and reopened, and run and Plan identity of the reopened run agree; an execution is stopped exactly when polling was cut short |
| `BenchmarkExecution.ExecuteRuns` | src/nodrix/benchmark_measured_runs.py:341-462 | Succeeds exactly when no request fails and no run identity comes back: per variant warmup and then repeat runs, requested in that order with their iteration numbers; otherwise the first failure is reported |
| `BenchmarkExecution.Executed` | src/nodrix/benchmark_system_workload.py:155-284 | Each request that succeeds executed the plan its own question was answered with |
| `BenchmarkExecution.ValidatedRunSets` | src/nodrix/benchmark_canonical_suite.py:299-422 | Accepts exactly one non-empty set per variant with no run in two sets |
| `BenchmarkExecution.ExecuteBenchmark` | src/nodrix/benchmark_system_execution.py:153-318 | Completes exactly when every variant resolves to one System, no request fails, the measured runs of each variant share one Plan and the results can be written; if nothing clears the cache before the last request, every warm-up and measured run executed the Plan recorded for its variant |
| `BenchmarkExecution.CompletesExactly` | src/nodrix/benchmark_system_runner.py:401-519 | While nothing clears the cache, the requests of a benchmark all succeed exactly when each starts, finishes after however many inspections, is recorded and reopened with the Plan recorded for its variant, in runs that differ; the measured runs then share their Plan |
| `BenchmarkExecution.TracedExactly` | src/nodrix/benchmark_system_execution.py:153-262 | For given requests at which the cache is cleared: that a request executes the recorded Plan is certain, whatever resolution and the Systems do, if and only if no request before it clears the cache |
| `BenchmarkExecution.ClearedBenchmark` | src/nodrix/benchmark_system_execution.py:153-318 | A benchmark that completes although its measured run executed another Plan than the recorded one |
| `BenchmarkExecution.SuiteAccepts` | src/nodrix/benchmark_system_execution.py:236-268 | What the run coordinator returns always satisfies the suite check |
| `IntegrationLifecycle.ProviderGroup.Open` | src/nodrix/integration_runtime.py:260-297 | Outcome, calls and flags are determined by what the providers answer: all are opened in order, or the opened ones are closed in reverse, up to one whose close raises an interrupt; an Exception of a close is dropped |
| `IntegrationLifecycle.OpensExactly` | src/nodrix/integration_runtime.py:260-297 | Opening succeeds exactly when every provider opens and is announced |
| `IntegrationLifecycle.ProviderGroup.Close` | src/nodrix/integration_runtime.py:299-319 | Exactly the open ones are closed, in reverse, whatever they raise |
| `IntegrationLifecycle.ApplicationGroup.Start` | src/nodrix/integration_runtime.py:140-185 | The same for applications, where the one whose preparation, configure or start failed is stopped too; whatever is still marked as started is still marked as configured |
| `IntegrationLifecycle.StartsExactly` | src/nodrix/integration_runtime.py:140-185 | Starting succeeds exactly when every application is prepared, configured, started and announced |
| `IntegrationLifecycle.ApplicationGroup.Active` | src/nodrix/integration_runtime.py:187-224 | A round fails exactly when a running application reports or raises a failure, or announcing that it completed fails; up to there those that completed are marked, and stay configured; a round is active exactly when it did not fail and one still runs |
| `IntegrationLifecycle.ApplicationGroup.Stop` | src/nodrix/integration_runtime.py:226-245 | Exactly the configured ones are stopped, in reverse, completed ones included; then none is marked as configured or started |
| `IntegrationLifecycle.RunSync` | src/nodrix/runtime_execution.py:169-512 | However a run goes, all opened, configured and started flags end false and the calls are those the answers of the providers determine: what was begun ends in reverse order, applications, resources, sessions; a run that returns met no failing application |
| `IntegrationLifecycle.Work` | src/nodrix/runtime_execution.py:338-366 | Rounds are polled while one is active; a failure is met exactly when some round before the first inactive one fails, or that one does |
| `IntegrationLifecycle.Attempt` | src/nodrix/runtime_execution.py:194-196 | Sessions, resources and applications are tried in this order, each only after the one before succeeded |
| `IntegrationLifecycle.CloseAll` | src/nodrix/runtime_execution.py:409-411 | Closing what is open, applications first, completes the calls of the run |
| `IntegrationLifecycle.EndedOnceExactly` | src/nodrix/integration_runtime.py:75-319 | Each provider that was begun ends exactly once, or twice exactly when its close interrupted the rollback of its group while it was marked as open; what was not begun never ends |
| `IntegrationLifecycle.InterruptedCloseComesTwice` | src/nodrix/integration_runtime.py:260-297 | Two sessions, of which the second fails to open and the first interrupts the rollback: the first is closed twice |
| `IntegrationLifecycle.EndedOnce` | src/nodrix/integration_runtime.py:75-319 | When no close raises an interrupt during a rollback, everything that was begun ends exactly once |
| `IntegrationLifecycle.EndsInReverse` | src/nodrix/runtime_execution.py:409-411 | When no rollback is interrupted, a run begins sessions, resources and applications in order and ends what it began in exactly the opposite order |
| `IntegrationLifecycle.InterruptedBy` | src/nodrix/integration_runtime.py:105-114 | Only the closing of a provider, or the stopping of an application, can interrupt a rollback |
| `IntegrationLifecycle.EndsExactly` | src/nodrix/integration_runtime.py:105-114 | The same for one group, from the answers of its providers |
| `IntegrationLifecycle.StuckExactly` | src/nodrix/integration_runtime.py:105-114 | A rollback stops at the last begun provider whose close raises an interrupt, and nowhere else |
| `IntegrationLifecycle.MarkedWhen` | src/nodrix/integration_runtime.py:140-185 | A begun session or resource is always marked; an application once configure has returned |
| `Statistics.PercentileWithin` | src/nodrix/benchmarking.py:24-36 | A percentile lies between the smallest and largest sample |
| `Statistics.PercentileMonotone` | src/nodrix/benchmarking.py:24-36 | A larger percentile is never smaller |
| `Statistics.PercentilePermuted` | src/nodrix/benchmarking.py:27-36 | A percentile depends only on the multiset of samples |
| `Statistics.PercentileEnds` | src/nodrix/benchmarking.py:30-36 | Percentile 0 is the smallest and percentile 1 the largest sample |
| `Statistics.PercentileLinear` | src/nodrix/benchmarking.py:30-36 | Between neighbouring ranks a percentile is linear in its place |
| `Statistics.MeanShares` | src/nodrix/benchmarking.py:39-50 | The mean times the number of samples is their sum |
| `Statistics.SummaryOfRanks` | src/nodrix/benchmarking.py:39-50 | The summary of the samples 0 to n: mean n/2, p50, p95 and p99 those shares of n |
| `Statistics.SummaryOrdered` | src/nodrix/benchmarking.py:39-50 | min <= p50 <= p95 <= p99 <= max and min <= mean <= max, for any order of the samples |
| `Aggregation.AggregateObservations` | src/nodrix/benchmark_aggregation.py:654-854 | Succeeds exactly when there are runs, distinct, one of them successful, and an identity stands for one metric; the result is the exact aggregate and no constructor check trips |
| `Aggregation.AggregateExactly` | src/nodrix/benchmark_aggregation.py:685-732 | Run ids in order, parted by success; complete exactly when every successful run is |
| `Aggregation.DurationExactly` | src/nodrix/benchmark_aggregation.py:718-724 | The duration counts the successful runs, from the shortest to the longest of them, with the mean that adds up to their time |
| `Aggregation.MetricsExactly` | src/nodrix/benchmark_aggregation.py:784-854 | A metric for exactly the identities that a successful run observed, with its counts and a summary of the means of the runs that observed it |
| `Aggregation.AggregateIsValid` | src/nodrix/benchmark_aggregation.py:467-545 | The result satisfies every check of its constructor: the run ids are partitioned, metrics sorted and unique |
| `Aggregation.ObservedRuns` | src/nodrix/benchmark_aggregation.py:817-833 | The count of a metric is the number of successful runs that observed it |
| `Aggregation.Group` | src/nodrix/benchmark_aggregation.py:729-783 | Grouping fails exactly when one identity stands for two meanings; otherwise each identity keeps its metrics in order |
| `Aggregation.ReorderingKeepsStatistics` | src/nodrix/benchmark_aggregation.py:654-854 | Observations in another order give the same statistics |
| `Aggregation.FailedRunsDoNotCount` | src/nodrix/benchmark_aggregation.py:689-727 | Failed runs change nothing but the list of runs |

## Left out

- Command line, rendering, YAML and JSON parsing, the file system, subprocesses, sockets, discovery,
  media and device code: replaced by abstract state or free choices, as each module says.
- SHA-256 is a function that some theorems assume to be injective; strings are sequences of
  characters, not encoded bytes.
- Storage paths: distinct revisions are taken to have distinct directories, and the location of a
  payload is fixed by its revision, so the `uri` of a record is not a field of the model.
- Materializing a directory into storage inside itself, links and special files, and I/O errors
  other than a rename onto an existing directory; directories of storage hold a payload.
- Deleting or pinning concurrently with other calls: lifecycle properties are sequential.
- Blocks, node normalisation, parameter overrides and compact flows of fragments: nodes keep an
  opaque configuration; unknown-field and block errors of fragment files are not modelled.
- Profiles.SetPathLaw: nested dictionaries are values, so aliasing between them is not modelled.
- Garbage collection of buffers, NumPy views, DLPack and a lease that is also the handle.
- Recipe compilers: the commands a recipe provides are a parameter; the error for an unknown
  recipe type is not modelled.
- Deprecation warnings, field-level checks of the manifest model other than `validate_node_names`,
  redaction, and the parts of a plan document that are copied without a decision.
- Edges of an unvalidated manifest that name unknown nodes: with an unknown target scheduling raises a
  KeyError, with an unknown source it reports a cycle.
- Object identity of a benchmark plan is a number, taken to be unique while the plan is alive.
- Result records, artifacts and workload digests of a benchmark: whether they can be written is an input;
  of the exact workload that measured runs must share, only the Plan id.
- Floating-point rounding: with floats a computed mean can leave the interval of its samples.
- Aggregation.ReorderingKeepsStatistics: the description of a metric is that of the last run that
  observed it and can change with the order; everything counted or measured cannot.
- Type checks on arguments, metric value kinds, and the historical pipeline benchmark reports.
