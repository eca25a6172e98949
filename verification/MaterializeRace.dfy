/**
 Concurrent materializers racing on the rename that publishes a revision directory.

 Each call to materialize is a worker that moves one file system access at a time; a schedule
 interleaves the workers in any order.  Source content is read twice, once to hash it and once
 to copy it, and may differ between the two.  Nothing is deleted.
 */
module MaterializeRace {
  import opened Wrappers
  import opened TreeDigest

  // One directory of storage; the location of the payload inside it is fixed by the revision.
  datatype Revision = Revision(dataset: bool, entity: string, digest: string)

  datatype Location = Location(revision: Revision, kind: Kind, size: nat)

  datatype Stored = Stored(payload: Node, descriptor: Option<Location>)

  type Storage = map<Revision, Stored>

  datatype Request = Request(
    dataset: bool, entity: string, kind: string, mediaType: Option<string>, metadata: map<string, string>)

  datatype Record = Record(request: Request, revision: Revision, size: nat)

  datatype Failure = SourceChanged | ContentConflict | DescriptorConflict

  datatype Phase =
    | Waiting
    | Hashed(info: Info)
    | Missing(info: Info)
    | Ready(info: Info, staged: Node)
    | Found(info: Info, raced: bool)
    | Matched(info: Info, raced: bool)
    | Undescribed(info: Info, raced: bool)
    | Settled(info: Info)
    | Validating(info: Info)
    | Done(info: Info, record: Record)
    | Failed(info: Info, failure: Failure)

  datatype Worker = Worker(request: Request, phase: Phase)

  datatype State = State(storage: Storage, workers: map<nat, Worker>, renames: seq<Revision>)

  // Hash and Copy read the source; every other access of a worker is its Advance.
  datatype Step = Hash(worker: nat, seen: Node) | Copy(worker: nat, copied: Node) | Advance(worker: nat)

  function RevisionOf(request: Request, info: Info): Revision
  {
    Revision(request.dataset, request.entity, info.digest)
  }

  function LocationOf(revision: Revision, info: Info): Location
  {
    Location(revision, info.kind, info.size)
  }

  function RecordOf(request: Request, info: Info): Record
  {
    Record(request, RevisionOf(request, info), info.size)
  }

  predicate Enabled(s: State, step: Step)
  {
    && step.worker in s.workers
    && match step
       case Hash(w, _) => s.workers[w].phase.Waiting?
       case Copy(w, _) => s.workers[w].phase.Missing?
       case Advance(w) =>
         var phase := s.workers[w].phase;
         !phase.Waiting? && !phase.Missing? && !phase.Done? && !phase.Failed?
  }

  predicate Matches(how: Method, storage: Storage, revision: Revision, info: Info)
  {
    revision in storage && InfoOf(how, storage[revision].payload) == info
  }

  // Storage and phase after one access of a worker.
  function Access(how: Method, storage: Storage, worker: Worker): (Storage, Phase)
  {
    var phase := worker.phase;
    if phase.Waiting? then (storage, phase)
    else
      var info := phase.info;
      var revision := RevisionOf(worker.request, info);
      var location := LocationOf(revision, info);
      match phase
      case Hashed(_) =>
        (storage, if revision in storage then Found(info, false) else Missing(info))
      case Found(_, raced) =>
        (storage, if Matches(how, storage, revision, info) then Matched(info, raced) else Failed(info, ContentConflict))
      case Matched(_, raced) =>
        (storage, if revision in storage && storage[revision].descriptor.Some? then Described(info, raced)
                  else Undescribed(info, raced))
      case Undescribed(_, raced) =>
        if revision in storage then
          (storage[revision := storage[revision].(descriptor := Some(location))], Described(info, raced))
        else (storage, Failed(info, DescriptorConflict))
      case Ready(_, staged) =>
        if revision in storage then (storage, Found(info, true))
        else (storage[revision := Stored(staged, Some(location))], Settled(info))
      case Settled(_) =>
        (storage, if Matches(how, storage, revision, info) then Validating(info) else Failed(info, ContentConflict))
      case Validating(_) =>
        (storage, if revision in storage && storage[revision].descriptor == Some(location)
                  then Done(info, RecordOf(worker.request, info)) else Failed(info, DescriptorConflict))
      case _ => (storage, phase)
  }

  // A worker that found the directory validates at once; one that lost the race checks again.
  function Described(info: Info, raced: bool): Phase
  {
    if raced then Settled(info) else Validating(info)
  }

  function Next(how: Method, s: State, step: Step): State
    requires Enabled(s, step)
  {
    var worker := s.workers[step.worker];
    match step
    case Hash(w, seen) =>
      s.(workers := s.workers[w := worker.(phase := Hashed(InfoOf(how, seen)))])
    case Copy(w, copied) =>
      var info := worker.phase.info;
      var phase := if InfoOf(how, copied) == info then Ready(info, copied) else Failed(info, SourceChanged);
      s.(workers := s.workers[w := worker.(phase := phase)])
    case Advance(w) =>
      var (storage, phase) := Access(how, s.storage, worker);
      var revision := RevisionOf(worker.request, worker.phase.info);
      State(storage, s.workers[w := worker.(phase := phase)],
            if revision in storage && revision !in s.storage then s.renames + [revision] else s.renames)
  }

  // ---------------------------------------------------------------- what every step keeps

  // Published content has the digest of its revision; a descriptor, once there, describes it.
  ghost predicate SoundEntry(how: Method, revision: Revision, stored: Stored)
  {
    var info := InfoOf(how, stored.payload);
    && info.digest == revision.digest
    && (stored.descriptor.Some? ==> stored.descriptor == Some(LocationOf(revision, info)))
  }

  ghost predicate Sound(how: Method, storage: Storage)
  {
    forall revision :: revision in storage ==> SoundEntry(how, revision, storage[revision])
  }

  // Directories appear and gain a descriptor; nothing else ever changes.
  ghost predicate GrowsEntry(before: Stored, after: Stored)
  {
    after.payload == before.payload && (before.descriptor.Some? ==> after.descriptor == before.descriptor)
  }

  ghost predicate Grows(before: Storage, after: Storage)
  {
    forall revision :: revision in before ==> revision in after && GrowsEntry(before[revision], after[revision])
  }

  predicate Describes(phase: Phase)
  {
    phase.Settled? || phase.Validating? || phase.Done?
  }

  // What a worker knows about storage in each phase.
  ghost predicate Informed(how: Method, storage: Storage, worker: Worker)
  {
    worker.phase.Waiting? ||
    (var phase, info := worker.phase, worker.phase.info;
     var revision := RevisionOf(worker.request, info);
     && (phase.Ready? ==> InfoOf(how, phase.staged) == info)
     && (phase.Found? ==> revision in storage)
     && (phase.Matched? || phase.Undescribed? || Describes(phase) ==> Matches(how, storage, revision, info))
     && (Describes(phase) ==> storage[revision].descriptor.Some?)
     && (phase.Done? ==> phase.record == RecordOf(worker.request, info))
     && (phase.Failed? ==>
           || phase.failure.SourceChanged?
           || (phase.failure.ContentConflict? && revision in storage && InfoOf(how, storage[revision].payload) != info)))
  }

  ghost predicate AllInformed(how: Method, storage: Storage, workers: map<nat, Worker>)
  {
    forall w :: w in workers ==> Informed(how, storage, workers[w])
  }

  // The renames that succeeded are exactly the directories that are new, each once.
  ghost predicate Published(before: Storage, s: State)
  {
    && (forall i, j :: 0 <= i < j < |s.renames| ==> s.renames[i] != s.renames[j])
    && (forall revision :: revision in s.renames <==> revision in s.storage && revision !in before)
  }

  ghost predicate Invariant(how: Method, before: Storage, s: State)
  {
    Sound(how, s.storage) && Grows(before, s.storage) && AllInformed(how, s.storage, s.workers) && Published(before, s)
  }

  lemma InformedGrows(how: Method, before: Storage, after: Storage, worker: Worker)
    requires Informed(how, before, worker) && Grows(before, after)
    ensures Informed(how, after, worker)
  {
    hide InfoOf;
  }

  lemma GrowsTransitive(a: Storage, b: Storage, c: Storage)
    requires Grows(a, b) && Grows(b, c)
    ensures Grows(a, c)
  {
  }

  lemma AccessKeeps(how: Method, storage: Storage, worker: Worker)
    requires Sound(how, storage) && Informed(how, storage, worker)
    ensures var (after, phase) := Access(how, storage, worker);
            Sound(how, after) && Grows(storage, after) && Informed(how, after, worker.(phase := phase))
  {
    hide InfoOf;
  }

  // A successful rename adds its own directory; any other access adds none.
  lemma AccessPublishes(how: Method, storage: Storage, worker: Worker)
    requires Informed(how, storage, worker) && !worker.phase.Waiting?
    ensures var revision, after := RevisionOf(worker.request, worker.phase.info), Access(how, storage, worker).0;
            after.Keys == storage.Keys || (revision !in storage && after.Keys == storage.Keys + {revision})
  {
    hide InfoOf;
  }

  lemma OneMore(names: seq<Revision>, name: Revision)
    requires forall i, j :: 0 <= i < j < |names| ==> names[i] != names[j]
    requires name !in names
    ensures forall i, j :: 0 <= i < j < |names + [name]| ==> (names + [name])[i] != (names + [name])[j]
    ensures forall n :: n in names + [name] <==> n in names || n == name
  {
  }

  lemma AdvancePublishes(how: Method, before: Storage, s: State, w: nat)
    requires Invariant(how, before, s) && Enabled(s, Advance(w))
    ensures Published(before, Next(how, s, Advance(w)))
  {
    assert forall r :: r in before ==> r in s.storage;
    hide Access, Informed, Sound, Grows;
    assert Informed(how, s.storage, s.workers[w]);
    AccessPublishes(how, s.storage, s.workers[w]);
    var revision := RevisionOf(s.workers[w].request, s.workers[w].phase.info);
    var t := Next(how, s, Advance(w));
    if revision in t.storage && revision !in s.storage {
      OneMore(s.renames, revision);
      assert t.storage.Keys == s.storage.Keys + {revision};
    } else {
      assert t.storage.Keys == s.storage.Keys;
    }
  }

  lemma NextKeeps(how: Method, before: Storage, s: State, step: Step)
    requires Invariant(how, before, s) && Enabled(s, step)
    ensures Invariant(how, before, Next(how, s, step)) && Grows(s.storage, Next(how, s, step).storage)
  {
    hide InfoOf, Access;
    var t := Next(how, s, step);
    var worker := s.workers[step.worker];
    assert Informed(how, s.storage, worker);
    if step.Advance? {
      AccessKeeps(how, s.storage, worker);
      AdvancePublishes(how, before, s, step.worker);
      GrowsTransitive(before, s.storage, t.storage);
    }
    assert Informed(how, t.storage, t.workers[step.worker]);
    forall w | w in t.workers && w != step.worker
      ensures Informed(how, t.storage, t.workers[w])
    {
      InformedGrows(how, s.storage, t.storage, s.workers[w]);
    }
  }

  // ---------------------------------------------------------------- whole runs

  ghost predicate Schedule(how: Method, s: State, steps: seq<Step>)
    decreases |steps|
  {
    steps == [] || (Enabled(s, steps[0]) && Schedule(how, Next(how, s, steps[0]), steps[1..]))
  }

  ghost function After(how: Method, s: State, steps: seq<Step>): State
    requires Schedule(how, s, steps)
    decreases |steps|
  {
    if steps == [] then s else After(how, Next(how, s, steps[0]), steps[1..])
  }

  function Start(storage: Storage, requests: map<nat, Request>): State
  {
    State(storage, map w | w in requests :: Worker(requests[w], Waiting), [])
  }

  /** From any reachable state on, published payloads and written descriptors never change again. */
  lemma {:induction false} StoredForever(how: Method, before: Storage, s: State, steps: seq<Step>)
    requires Invariant(how, before, s) && Schedule(how, s, steps)
    ensures Invariant(how, before, After(how, s, steps))
    ensures Grows(s.storage, After(how, s, steps).storage)
    decreases |steps|
  {
    hide Invariant, Enabled, Next, InfoOf;
    if steps != [] {
      NextKeeps(how, before, s, steps[0]);
      StoredForever(how, before, Next(how, s, steps[0]), steps[1..]);
    }
  }

  // What verify_materialized_record checks.
  ghost predicate Verified(how: Method, storage: Storage, record: Record)
  {
    && record.revision in storage
    && InfoOf(how, storage[record.revision].payload).digest == record.revision.digest
    && InfoOf(how, storage[record.revision].payload).size == record.size
  }

  /**
   Under every schedule, whatever the sources do: each directory that is new was renamed into
   place exactly once, content has the digest of its revision, descriptors describe it, and
   every record handed out verifies against storage.
   */
  lemma RaceSafety(how: Method, storage: Storage, requests: map<nat, Request>, steps: seq<Step>)
    requires Sound(how, storage) && Schedule(how, Start(storage, requests), steps)
    ensures var s := After(how, Start(storage, requests), steps);
            && Sound(how, s.storage) && Grows(storage, s.storage) && Published(storage, s)
            && forall w :: w in s.workers && s.workers[w].phase.Done? ==>
                 Verified(how, s.storage, s.workers[w].phase.record)
  {
    hide InfoOf, SoundEntry;
    var start := Start(storage, requests);
    assert AllInformed(how, storage, start.workers);
    StoredForever(how, storage, start, steps);
    var s := After(how, start, steps);
    forall w | w in s.workers && s.workers[w].phase.Done?
      ensures Verified(how, s.storage, s.workers[w].phase.record)
    {
      assert Informed(how, s.storage, s.workers[w]);
    }
  }

  // ---------------------------------------------------------------- when nobody fails

  // Sources that do not change between the two reads of a worker.
  ghost predicate Stable(sources: map<nat, Node>, steps: seq<Step>)
  {
    forall i :: 0 <= i < |steps| ==>
      && (steps[i].Hash? ==> steps[i].worker in sources && steps[i].seen == sources[steps[i].worker])
      && (steps[i].Copy? ==> steps[i].worker in sources && steps[i].copied == sources[steps[i].worker])
  }

  // Content for one directory has one type and size: between workers, and with what is stored.
  ghost predicate Compatible(how: Method, storage: Storage, requests: map<nat, Request>, sources: map<nat, Node>)
    requires requests.Keys <= sources.Keys
  {
    && (forall v, w :: v in requests && w in requests && Aim(how, requests, sources, v) == Aim(how, requests, sources, w) ==>
          InfoOf(how, sources[v]) == InfoOf(how, sources[w]))
    && (forall w :: w in requests ==> Fits(how, storage, requests, sources, w))
  }

  ghost function Aim(how: Method, requests: map<nat, Request>, sources: map<nat, Node>, w: nat): Revision
    requires w in requests && w in sources
  {
    RevisionOf(requests[w], InfoOf(how, sources[w]))
  }

  ghost predicate Fits(how: Method, storage: Storage, requests: map<nat, Request>, sources: map<nat, Node>, w: nat)
    requires w in requests && w in sources
  {
    Aim(how, requests, sources, w) in storage ==>
      InfoOf(how, storage[Aim(how, requests, sources, w)].payload) == InfoOf(how, sources[w])
  }

  // A worker of an undisturbed run: it works for its request, on its source.
  ghost predicate Steady(how: Method, s: State, requests: map<nat, Request>, sources: map<nat, Node>, w: nat)
    requires w in requests && w in sources
  {
    && w in s.workers && s.workers[w].request == requests[w]
    && (s.workers[w].phase.Waiting? || s.workers[w].phase.info == InfoOf(how, sources[w]))
    && (s.workers[w].phase.Failed? ==> !s.workers[w].phase.failure.SourceChanged?)
  }

  ghost predicate Smooth(how: Method, s: State, requests: map<nat, Request>, sources: map<nat, Node>)
  {
    && s.workers.Keys == requests.Keys <= sources.Keys
    && forall w :: w in requests ==> Steady(how, s, requests, sources, w)
  }

  ghost predicate NoneFailed(s: State)
  {
    forall w :: w in s.workers ==> !s.workers[w].phase.Failed?
  }

  lemma SmoothNext(how: Method, s: State, requests: map<nat, Request>, sources: map<nat, Node>, step: Step)
    requires Smooth(how, s, requests, sources) && Enabled(s, step) && Stable(sources, [step])
    ensures Smooth(how, Next(how, s, step), requests, sources)
  {
    hide InfoOf;
    assert [step][0] == step;
    assert Steady(how, s, requests, sources, step.worker);
    var t := Next(how, s, step);
    assert Steady(how, t, requests, sources, step.worker);
    forall w | w in requests && w != step.worker
      ensures Steady(how, t, requests, sources, w)
    {
      assert Steady(how, s, requests, sources, w);
    }
  }

  lemma CompatibleNext(how: Method, before: Storage, s: State, requests: map<nat, Request>, sources: map<nat,
                       Node>, step: Step)
    requires Invariant(how, before, s) && Smooth(how, s, requests, sources) && NoneFailed(s)
    requires Compatible(how, s.storage, requests, sources)
    requires Enabled(s, step) && Stable(sources, [step])
    ensures Compatible(how, Next(how, s, step).storage, requests, sources) && NoneFailed(Next(how, s, step))
  {
    hide InfoOf;
    var t := Next(how, s, step);
    assert Steady(how, s, requests, sources, step.worker) && Fits(how, s.storage, requests, sources, step.worker);
    assert Informed(how, s.storage, s.workers[step.worker]);
    StepNeverFails(how, before, s, requests, sources, step);
    forall w | w in requests
      ensures Fits(how, t.storage, requests, sources, w)
    {
      assert Fits(how, s.storage, requests, sources, w);
      FitsNext(how, before, s, requests, sources, step, w);
    }
  }

  lemma StepNeverFails(how: Method, before: Storage, s: State, requests: map<nat, Request>, sources: map<nat,
                       Node>, step: Step)
    requires Invariant(how, before, s) && Smooth(how, s, requests, sources)
    requires Enabled(s, step) && Stable(sources, [step]) && !s.workers[step.worker].phase.Failed?
    requires Fits(how, s.storage, requests, sources, step.worker)
    ensures !Next(how, s, step).workers[step.worker].phase.Failed?
  {
    hide InfoOf, Published, Grows;
    assert [step][0] == step;
    assert Steady(how, s, requests, sources, step.worker) && Informed(how, s.storage, s.workers[step.worker]);
  }

  lemma FitsNext(how: Method, before: Storage, s: State, requests: map<nat, Request>, sources: map<nat, Node>,
                 step: Step, w: nat)
    requires Invariant(how, before, s) && Smooth(how, s, requests, sources)
    requires Compatible(how, s.storage, requests, sources)
    requires Enabled(s, step) && w in requests && Fits(how, s.storage, requests, sources, w)
    ensures Fits(how, Next(how, s, step).storage, requests, sources, w)
  {
    hide InfoOf, Published, Sound, Grows;
    assert Steady(how, s, requests, sources, step.worker) && Informed(how, s.storage, s.workers[step.worker]);
    var aim := Aim(how, requests, sources, w);
    var t := Next(how, s, step);
    if aim in t.storage && aim !in s.storage {
      assert aim == Aim(how, requests, sources, step.worker);
    }
  }

  lemma {:induction false} SmoothRun(how: Method, before: Storage, s: State, requests: map<nat, Request>,
                                     sources: map<nat, Node>, steps: seq<Step>)
    requires Invariant(how, before, s) && Smooth(how, s, requests, sources)
    requires Schedule(how, s, steps) && Stable(sources, steps)
    ensures Smooth(how, After(how, s, steps), requests, sources)
    ensures Compatible(how, s.storage, requests, sources) && NoneFailed(s) ==> NoneFailed(After(how, s, steps))
    decreases |steps|
  {
    assert requests.Keys <= sources.Keys;
    hide Invariant, Enabled, Next, Smooth, Compatible, NoneFailed;
    if steps != [] {
      assert Stable(sources, [steps[0]]) && Stable(sources, steps[1..]) by {
        assert forall i :: 0 <= i < |steps[1..]| ==> steps[1..][i] == steps[i + 1];
      }
      NextKeeps(how, before, s, steps[0]);
      SmoothNext(how, s, requests, sources, steps[0]);
      if Compatible(how, s.storage, requests, sources) && NoneFailed(s) {
        CompatibleNext(how, before, s, requests, sources, steps[0]);
      }
      SmoothRun(how, before, Next(how, s, steps[0]), requests, sources, steps[1..]);
    }
  }

  ghost predicate Finished(s: State)
  {
    forall w :: w in s.workers ==> s.workers[w].phase.Done? || s.workers[w].phase.Failed?
  }

  // The outcome of a worker that succeeded: the record of its request, and its source in storage.
  ghost predicate Succeeded(how: Method, s: State, request: Request, source: Node, w: nat)
  {
    && w in s.workers && s.workers[w].phase.Done?
    && s.workers[w].phase.record == RecordOf(request, InfoOf(how, source))
    && Matches(how, s.storage, RevisionOf(request, InfoOf(how, source)), InfoOf(how, source))
  }

  /**
   With sources that do not change, whatever the schedule: every worker succeeds, with a record
   that depends on its own request and content alone, if and only if no two contents of
   different type or size share a revision directory.
   */
  lemma AllSucceedExactlyWhenCompatible(how: Method, storage: Storage, requests: map<nat, Request>,
                                        sources: map<nat, Node>, steps: seq<Step>)
    requires Sound(how, storage) && requests.Keys <= sources.Keys
    requires Schedule(how, Start(storage, requests), steps) && Stable(sources, steps)
    requires Finished(After(how, Start(storage, requests), steps))
    ensures (forall w :: w in requests ==> Succeeded(how, After(how, Start(storage, requests), steps), requests[w], sources[w], w))
            <==> Compatible(how, storage, requests, sources)
  {
    hide InfoOf;
    var start := Start(storage, requests);
    assert AllInformed(how, storage, start.workers) && Smooth(how, start, requests, sources);
    hide Informed, Steady, Matches, Sound;
    StoredForever(how, storage, start, steps);
    SmoothRun(how, storage, start, requests, sources, steps);
    var s := After(how, start, steps);
    if Compatible(how, storage, requests, sources) {
      forall w | w in requests
        ensures Succeeded(how, s, requests[w], sources[w], w)
      {
        DoneSucceeds(how, s, requests, sources, w);
      }
    }
    if forall w :: w in requests ==> Succeeded(how, s, requests[w], sources[w], w) {
      SuccessIsCompatible(how, storage, s.storage, requests, sources);
    }
  }

  lemma DoneSucceeds(how: Method, s: State, requests: map<nat, Request>, sources: map<nat, Node>, w: nat)
    requires Smooth(how, s, requests, sources) && AllInformed(how, s.storage, s.workers)
    requires w in requests && s.workers[w].phase.Done?
    ensures Succeeded(how, s, requests[w], sources[w], w)
  {
    hide InfoOf, Matches;
    assert Steady(how, s, requests, sources, w) && Informed(how, s.storage, s.workers[w]);
  }

  lemma SuccessIsCompatible(how: Method, before: Storage, storage: Storage, requests: map<nat, Request>,
                            sources: map<nat, Node>)
    requires requests.Keys <= sources.Keys && Grows(before, storage)
    requires forall w :: w in requests ==> Matches(how, storage, Aim(how, requests, sources, w), InfoOf(how, sources[w]))
    ensures Compatible(how, before, requests, sources)
  {
    hide InfoOf;
  }

  /** With an injective hash, the directory a worker ends with holds exactly the content it hashed. */
  lemma StoredContentIsTheSource(how: Method, s: State, request: Request, source: Node, w: nat)
    requires ListsNames(how) && CollisionFree(how) && Succeeded(how, s, request, source, w)
    requires ValidNames(source) && ValidNames(s.storage[s.workers[w].phase.record.revision].payload)
    ensures s.storage[s.workers[w].phase.record.revision].payload == source
  {
    InfoDeterminesPayload(how, s.storage[s.workers[w].phase.record.revision].payload, source);
  }

  // ---------------------------------------------------------------- progress

  function Remaining(phase: Phase): nat
  {
    match phase
    case Waiting => 9
    case Hashed(_) => 8
    case Missing(_) => 7
    case Ready(_, _) => 6
    case Found(_, _) => 5
    case Matched(_, _) => 4
    case Undescribed(_, _) => 3
    case Settled(_) => 2
    case Validating(_) => 1
    case _ => 0
  }

  function StepsOf(steps: seq<Step>, w: nat): nat
  {
    if steps == [] then 0 else (if steps[0].worker == w then 1 else 0) + StepsOf(steps[1..], w)
  }

  lemma StepCounts(how: Method, s: State, step: Step, w: nat)
    requires Enabled(s, step) && w in s.workers
    ensures w in Next(how, s, step).workers
    ensures Remaining(Next(how, s, step).workers[w].phase) + (if step.worker == w then 1 else 0) <= Remaining(s.workers[w].phase)
  {
    hide InfoOf, Matches;
  }

  /** No worker waits for another: it is never blocked, and it returns within nine accesses of its own. */
  lemma {:induction false} WorkersFinish(how: Method, s: State, steps: seq<Step>, w: nat)
    requires Schedule(how, s, steps) && w in s.workers
    ensures w in After(how, s, steps).workers
    ensures StepsOf(steps, w) + Remaining(After(how, s, steps).workers[w].phase) <= Remaining(s.workers[w].phase)
    decreases |steps|
  {
    hide Enabled, Next, Remaining;
    if steps != [] {
      StepCounts(how, s, steps[0], w);
      WorkersFinish(how, Next(how, s, steps[0]), steps[1..], w);
    }
  }

  lemma WorkersNeverBlock(s: State, w: nat, source: Node) returns (step: Step)
    requires w in s.workers && Remaining(s.workers[w].phase) > 0
    ensures Enabled(s, step) && step.worker == w
    ensures step.Hash? ==> step.seen == source
    ensures step.Copy? ==> step.copied == source
  {
    var phase := s.workers[w].phase;
    step := if phase.Waiting? then Hash(w, source) else if phase.Missing? then Copy(w, source) else Advance(w);
  }
}
