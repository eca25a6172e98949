/**
 The store as its callers see it: whole operations, one after the other.

 Payloads are immutable content under the digest that names them; beside each lies a small
 mutable lifecycle.  Revisions are those of the sha256 algorithm.
 */
module MaterializedStore {
  import opened Wrappers
  import opened Graph
  import opened TreeDigest
  import opened MaterializeRace

  datatype Retention = Retained | Ephemeral

  datatype Lifecycle = Lifecycle(retention: Retention, pinned: bool)

  // A revision directory; the lifecycle file is written only once it is configured.
  datatype Held = Held(stored: Stored, lifecycle: Option<Lifecycle>)

  type Revisions = map<Revision, Held>

  datatype StoreError = Conflict | NotFound | Pinned

  const DEFAULT_LIFECYCLE := Lifecycle(Retained, false)

  function LifecycleOf(held: Held): Lifecycle
  {
    match held.lifecycle
    case None => DEFAULT_LIFECYCLE
    case Some(lifecycle) => lifecycle
  }

  // What finding a revision needs: a directory with a descriptor.
  predicate Discoverable(revisions: Revisions, revision: Revision)
  {
    revision in revisions && revisions[revision].stored.descriptor.Some?
  }

  predicate Prunable(revisions: Revisions, dataset: bool, entity: string, revision: Revision)
  {
    && Discoverable(revisions, revision)
    && revision.dataset == dataset && revision.entity == entity
    && LifecycleOf(revisions[revision]) == Lifecycle(Ephemeral, false)
  }

  // Names are sorted: every name once.
  ghost predicate Sorts(how: Method)
  {
    ListsNames(how) && forall s :: Distinct(how.order(s))
  }

  // ---------------------------------------------------------------- what each operation makes of the store

  function Materialized(how: Method, revisions: Revisions, request: Request, source: Node): (Revisions,
                        Result<Record, StoreError>)
  {
    var info := InfoOf(how, source);
    var revision := RevisionOf(request, info);
    var location := LocationOf(revision, info);
    var record := RecordOf(request, info);
    if revision !in revisions then
      (revisions[revision := Held(Stored(source, Some(location)), None)], Ok(record))
    else
      var held := revisions[revision];
      if InfoOf(how, held.stored.payload) != info then (revisions, Err(Conflict))
      else if held.stored.descriptor.None? then
        (revisions[revision := held.(stored := held.stored.(descriptor := Some(location)))], Ok(record))
      else if held.stored.descriptor != Some(location) then (revisions, Err(Conflict))
      else (revisions, Ok(record))
  }

  function Configured(revisions: Revisions, revision: Revision, retention: Option<Retention>,
                      pinned: Option<bool>): Revisions
  {
    if !Discoverable(revisions, revision) then revisions
    else
      var held := revisions[revision];
      var current := LifecycleOf(held);
      revisions[revision := held.(lifecycle := Some(Lifecycle(
        if retention.None? then current.retention else retention.value,
        if pinned.None? then current.pinned else pinned.value)))]
  }

  function Deleted(revisions: Revisions, revision: Revision): Revisions
  {
    if Discoverable(revisions, revision) && !LifecycleOf(revisions[revision]).pinned then revisions - {revision} else revisions
  }

  function Pruned(revisions: Revisions, dataset: bool, entity: string): Revisions
  {
    map r | r in revisions && !Prunable(revisions, dataset, entity, r) :: revisions[r]
  }

  // ---------------------------------------------------------------- the operations

  function Digests(revisions: Revisions, dataset: bool, entity: string): set<string>
  {
    set r | r in revisions && Discoverable(revisions, r) && r.dataset == dataset && r.entity == entity :: r.digest
  }

  // Of the listed digests, those whose revision can be pruned.
  function PrunedOf(revisions: Revisions, dataset: bool, entity: string, digests: seq<string>): seq<Revision>
  {
    if digests == [] then []
    else
      var revision := Revision(dataset, entity, digests[|digests| - 1]);
      PrunedOf(revisions, dataset, entity, digests[..|digests| - 1]) +
      (if Prunable(revisions, dataset, entity, revision) then [revision] else [])
  }

  class MaterializedStore {
    const how: Method
    var revisions: Revisions

    constructor (how: Method)
      ensures this.how == how && revisions == map[]
    {
      this.how := how;
      revisions := map[];
    }

    method Materialize(request: Request, source: Node) returns (result: Result<Record, StoreError>)
      modifies this
      ensures (revisions, result) == Materialized(how, old(revisions), request, source)
    {
      var info := InfoOf(how, source);
      var revision := RevisionOf(request, info);
      var location := LocationOf(revision, info);
      if revision in revisions {
        var held := revisions[revision];
        if InfoOf(how, held.stored.payload) != info {
          return Err(Conflict);
        }
        if held.stored.descriptor.None? {
          revisions := revisions[revision := held.(stored := held.stored.(descriptor := Some(location)))];
        }
        if revisions[revision].stored.descriptor != Some(location) {
          return Err(Conflict);
        }
      } else {
        revisions := revisions[revision := Held(Stored(source, Some(location)), None)];
      }
      return Ok(RecordOf(request, info));
    }

    method SetLifecycle(revision: Revision, retention: Option<Retention>, pinned: Option<bool>)
      returns (result: Result<Lifecycle, StoreError>)
      modifies this
      ensures revisions == Configured(old(revisions), revision, retention, pinned)
      ensures result == if Discoverable(old(revisions), revision) then Ok(LifecycleOf(revisions[revision])) else Err(NotFound)
    {
      if !Discoverable(revisions, revision) {
        return Err(NotFound);
      }
      var updated := LifecycleOf(revisions[revision]);
      if retention.Some? {
        updated := updated.(retention := retention.value);
      }
      if pinned.Some? {
        updated := updated.(pinned := pinned.value);
      }
      revisions := revisions[revision := revisions[revision].(lifecycle := Some(updated))];
      return Ok(updated);
    }

    method Delete(revision: Revision) returns (result: Result<bool, StoreError>)
      modifies this
      ensures revisions == Deleted(old(revisions), revision)
      ensures result == if !Discoverable(old(revisions), revision) then Ok(false)
                        else if LifecycleOf(old(revisions)[revision]).pinned then Err(Pinned) else Ok(true)
    {
      if !Discoverable(revisions, revision) {
        return Ok(false);
      }
      if LifecycleOf(revisions[revision]).pinned {
        return Err(Pinned);
      }
      revisions := revisions - {revision};
      return Ok(true);
    }

    /** Removes exactly the ephemeral unpinned revisions of the entity, and returns each of them once. */
    method Prune(dataset: bool, entity: string) returns (deleted: seq<Revision>)
      requires Sorts(how)
      modifies this
      ensures revisions == Pruned(old(revisions), dataset, entity)
      ensures deleted == PrunedOf(old(revisions), dataset, entity, how.order(Digests(old(revisions), dataset, entity)))
    {
      var digests := how.order(Digests(revisions, dataset, entity));
      deleted := [];
      var i := 0;
      while i < |digests|
        invariant i <= |digests|
        invariant revisions == Without(old(revisions), dataset, entity, digests[..i])
        invariant deleted == PrunedOf(old(revisions), dataset, entity, digests[..i])
      {
        var revision := Revision(dataset, entity, digests[i]);
        WithoutNext(old(revisions), dataset, entity, digests, i);
        if Discoverable(revisions, revision) && LifecycleOf(revisions[revision]) == Lifecycle(Ephemeral, false) {
          var result := Delete(revision);
          if result == Ok(true) {
            deleted := deleted + [revision];
          }
        }
        i := i + 1;
      }
      WithoutAll(how, old(revisions), dataset, entity);
      assert digests[..|digests|] == digests;
    }
  }

  // Nothing else is touched while the digests are gone through.
  ghost function Without(revisions: Revisions, dataset: bool, entity: string, digests: seq<string>): Revisions
  {
    map r | r in revisions && !(Prunable(revisions, dataset, entity, r) && r.digest in digests) :: revisions[r]
  }

  lemma WithoutNext(revisions: Revisions, dataset: bool, entity: string, digests: seq<string>, i: nat)
    requires i < |digests| && Distinct(digests)
    ensures var revision := Revision(dataset, entity, digests[i]);
            var now := Without(revisions, dataset, entity, digests[..i]);
            && (revision in now <==> revision in revisions)
            && (revision in now ==> now[revision] == revisions[revision])
            && Without(revisions, dataset, entity, digests[..i + 1]) ==
               (if Prunable(revisions, dataset, entity, revision) then now - {revision} else now)
            && PrunedOf(revisions, dataset, entity, digests[..i + 1]) ==
               PrunedOf(revisions, dataset, entity, digests[..i]) +
               (if Prunable(revisions, dataset, entity, revision) then [revision] else [])
  {
    assert digests[..i + 1][..i] == digests[..i];
    assert digests[i] !in digests[..i];
    assert forall d :: d in digests[..i + 1] <==> d in digests[..i] || d == digests[i];
  }

  lemma WithoutAll(how: Method, revisions: Revisions, dataset: bool, entity: string)
    requires Sorts(how)
    ensures Without(revisions, dataset, entity, how.order(Digests(revisions, dataset, entity))) == Pruned(revisions, dataset, entity)
  {
    forall r | r in revisions && Prunable(revisions, dataset, entity, r)
      ensures r.digest in how.order(Digests(revisions, dataset, entity))
    {
      assert r.digest in Digests(revisions, dataset, entity);
      assert r.digest in Names(how.order(Digests(revisions, dataset, entity)));
    }
  }

  lemma {:induction false} PrunedOfHas(revisions: Revisions, dataset: bool, entity: string, digests: seq<string>)
    requires Distinct(digests)
    ensures var removed := PrunedOf(revisions, dataset, entity, digests);
            && (forall r :: r in removed <==> Prunable(revisions, dataset, entity, r) && r.digest in digests)
            && (forall i, j :: 0 <= i < j < |removed| ==> removed[i] != removed[j])
  {
    assert forall r :: Prunable(revisions, dataset, entity, r) ==> r == Revision(dataset, entity, r.digest);
    hide Prunable;
    if digests != [] {
      var n := |digests| - 1;
      PrunedOfHas(revisions, dataset, entity, digests[..n]);
      assert digests[n] !in digests[..n];
      assert forall d :: d in digests <==> d in digests[..n] || d == digests[n];
    }
  }

  /** Prune returns each ephemeral unpinned revision of the entity once, and returns nothing else. */
  lemma PruneReturnsExactly(how: Method, revisions: Revisions, dataset: bool, entity: string)
    requires Sorts(how)
    ensures var removed := PrunedOf(revisions, dataset, entity, how.order(Digests(revisions, dataset, entity)));
            && (forall r :: r in removed <==> Prunable(revisions, dataset, entity, r))
            && (forall i, j :: 0 <= i < j < |removed| ==> removed[i] != removed[j])
            && Pruned(revisions, dataset, entity).Keys == revisions.Keys - set r | r in removed
  {
    var digests := how.order(Digests(revisions, dataset, entity));
    PrunedOfHas(revisions, dataset, entity, digests);
    forall r | Prunable(revisions, dataset, entity, r)
      ensures r.digest in digests
    {
      assert r.digest in Digests(revisions, dataset, entity);
      assert r.digest in Names(digests);
    }
  }

  // ---------------------------------------------------------------- any sequence of operations

  datatype Op =
    | Materialize(request: Request, source: Node)
    | SetLifecycle(revision: Revision, retention: Option<Retention>, pinned: Option<bool>)
    | Delete(revision: Revision)
    | Prune(dataset: bool, entity: string)

  function Apply(how: Method, revisions: Revisions, op: Op): Revisions
  {
    match op
    case Materialize(request, source) => Materialized(how, revisions, request, source).0
    case SetLifecycle(revision, retention, pinned) => Configured(revisions, revision, retention, pinned)
    case Delete(revision) => Deleted(revisions, revision)
    case Prune(dataset, entity) => Pruned(revisions, dataset, entity)
  }

  function Run(how: Method, revisions: Revisions, ops: seq<Op>): Revisions
    decreases |ops|
  {
    if ops == [] then revisions else Run(how, Apply(how, revisions, ops[0]), ops[1..])
  }

  ghost predicate SoundRevisions(how: Method, revisions: Revisions)
  {
    forall r :: r in revisions ==> SoundEntry(how, r, revisions[r].stored)
  }

  predicate IsPinned(revisions: Revisions, revision: Revision)
  {
    revision in revisions && LifecycleOf(revisions[revision]).pinned
  }

  // An operation a caller uses to remove the revision.
  predicate Removes(op: Op, revision: Revision)
  {
    op == Delete(revision) || op == Prune(revision.dataset, revision.entity)
  }

  predicate Unpins(op: Op, revision: Revision)
  {
    op.SetLifecycle? && op.revision == revision && op.pinned == Some(false)
  }

  lemma ApplyKeepsSound(how: Method, revisions: Revisions, op: Op)
    requires SoundRevisions(how, revisions)
    ensures SoundRevisions(how, Apply(how, revisions, op))
  {
    hide InfoOf;
  }

  lemma ApplyKeepsPayload(how: Method, revisions: Revisions, op: Op, r: Revision)
    requires r in revisions && (!Removes(op, r) || IsPinned(revisions, r))
    ensures var now := Apply(how, revisions, op);
            && r in now && now[r].stored.payload == revisions[r].stored.payload
            && (IsPinned(revisions, r) && !Unpins(op, r) ==> IsPinned(now, r))
            && (!(op.SetLifecycle? && op.revision == r) ==> now[r].lifecycle == revisions[r].lifecycle)
  {
    hide InfoOf;
  }

  /** Configuring a revision sets what was asked for, keeps what was not, and touches nothing else. */
  lemma ConfiguredOnly(revisions: Revisions, revision: Revision, retention: Option<Retention>,
                       pinned: Option<bool>, r: Revision)
    requires Discoverable(revisions, revision)
    ensures var now := Configured(revisions, revision, retention, pinned);
            && now.Keys == revisions.Keys
            && (r in revisions ==> now[r].stored == revisions[r].stored)
            && (r in revisions && r != revision ==> now[r] == revisions[r])
            && LifecycleOf(now[revision]).retention == retention.UnwrapOr(LifecycleOf(revisions[revision]).retention)
            && LifecycleOf(now[revision]).pinned == pinned.UnwrapOr(LifecycleOf(revisions[revision]).pinned)
  {
    assert revision in Configured(revisions, revision, retention, pinned);
  }

  /**
   Over any sequence of operations that never unpins it, a pinned revision keeps its payload and
   stays pinned, whatever is deleted, pruned, configured or materialized meanwhile.
   */
  lemma {:induction false} PinnedSurvives(how: Method, revisions: Revisions, ops: seq<Op>, r: Revision)
    requires IsPinned(revisions, r) && forall i :: 0 <= i < |ops| ==> !Unpins(ops[i], r)
    ensures IsPinned(Run(how, revisions, ops), r)
    ensures Run(how, revisions, ops)[r].stored.payload == revisions[r].stored.payload
    decreases |ops|
  {
    hide Apply;
    if ops != [] {
      ApplyKeepsPayload(how, revisions, ops[0], r);
      assert forall i :: 0 <= i < |ops[1..]| ==> ops[1..][i] == ops[i + 1];
      PinnedSurvives(how, Apply(how, revisions, ops[0]), ops[1..], r);
    }
  }

  /** A revision leaves the store, or changes its payload, only by an operation that removes it. */
  lemma {:induction false} OnlyRemovalRemoves(how: Method, revisions: Revisions, ops: seq<Op>, r: Revision)
    requires r in revisions
    requires r !in Run(how, revisions, ops) || Run(how, revisions, ops)[r].stored.payload != revisions[r].stored.payload
    ensures exists i :: 0 <= i < |ops| && Removes(ops[i], r)
    decreases |ops|
  {
    hide Apply, Removes;
    if ops != [] && !Removes(ops[0], r) {
      ApplyKeepsPayload(how, revisions, ops[0], r);
      OnlyRemovalRemoves(how, Apply(how, revisions, ops[0]), ops[1..], r);
      var i :| 0 <= i < |ops[1..]| && Removes(ops[1..][i], r);
      assert Removes(ops[i + 1], r);
    }
  }

  lemma {:induction false} RunKeepsSound(how: Method, revisions: Revisions, ops: seq<Op>)
    requires SoundRevisions(how, revisions)
    ensures SoundRevisions(how, Run(how, revisions, ops))
    decreases |ops|
  {
    hide Apply, SoundRevisions;
    if ops != [] {
      ApplyKeepsSound(how, revisions, ops[0]);
      RunKeepsSound(how, Apply(how, revisions, ops[0]), ops[1..]);
    }
  }

  /** Even deleted and materialized again, a revision of one payload type always holds the same content. */
  lemma {:induction false} ContentIsAddressed(how: Method, revisions: Revisions, ops: seq<Op>, r: Revision)
    requires ListsNames(how) && CollisionFree(how) && SoundRevisions(how, revisions)
    requires r in revisions && r in Run(how, revisions, ops)
    requires var a, b := revisions[r].stored.payload, Run(how, revisions, ops)[r].stored.payload;
             ValidNames(a) && ValidNames(b) && a.File? == b.File?
    ensures Run(how, revisions, ops)[r].stored.payload == revisions[r].stored.payload
  {
    hide Run;
    RunKeepsSound(how, revisions, ops);
    var a, b := revisions[r].stored.payload, Run(how, revisions, ops)[r].stored.payload;
    assert SoundEntry(how, r, revisions[r].stored) && SoundEntry(how, r, Run(how, revisions, ops)[r].stored);
    InfoDeterminesPayload(how, a, b);
  }

  /**
   Materializing again, with anything in between but a removal, returns the same record and
   leaves the whole store, payloads and lifecycles, as it was.
   */
  lemma MaterializeAgain(how: Method, revisions: Revisions, request: Request, source: Node, ops: seq<Op>)
    requires SoundRevisions(how, revisions) && Materialized(how, revisions, request, source).1.Ok?
    requires var r := RevisionOf(request, InfoOf(how, source)); forall i :: 0 <= i < |ops| ==> !Removes(ops[i], r)
    ensures var (stored, result) := Materialized(how, revisions, request, source);
            var later := Run(how, stored, ops);
            var (again, second) := Materialized(how, later, request, source);
            second == result && again == later
  {
    hide Run, InfoOf, Removes;
    var r, stored := RevisionOf(request, InfoOf(how, source)), Materialized(how, revisions, request, source).0;
    ApplyKeepsSound(how, revisions, Materialize(request, source));
    DescribedStays(how, stored, ops, r);
    RunKeepsSound(how, stored, ops);
    assert SoundEntry(how, r, Run(how, stored, ops)[r].stored);
  }

  lemma ApplyKeepsDescribed(how: Method, revisions: Revisions, op: Op, r: Revision)
    requires Discoverable(revisions, r) && !Removes(op, r)
    ensures Discoverable(Apply(how, revisions, op), r)
  {
    hide InfoOf;
  }

  lemma {:induction false} DescribedStays(how: Method, revisions: Revisions, ops: seq<Op>, r: Revision)
    requires Discoverable(revisions, r) && forall i :: 0 <= i < |ops| ==> !Removes(ops[i], r)
    ensures var later := Run(how, revisions, ops);
            Discoverable(later, r) && later[r].stored.payload == revisions[r].stored.payload
    decreases |ops|
  {
    hide Apply, Removes;
    if ops != [] {
      ApplyKeepsDescribed(how, revisions, ops[0], r);
      ApplyKeepsPayload(how, revisions, ops[0], r);
      assert forall i :: 0 <= i < |ops[1..]| ==> ops[1..][i] == ops[i + 1];
      DescribedStays(how, Apply(how, revisions, ops[0]), ops[1..], r);
    }
  }

  // ---------------------------------------------------------------- what nobody configured is retained

  predicate MakesEphemeral(op: Op, revision: Revision)
  {
    op.SetLifecycle? && op.revision == revision && op.retention == Some(Ephemeral)
  }

  // Nobody has made the revision ephemeral.
  predicate IsRetained(revisions: Revisions, revision: Revision)
  {
    revision in revisions && revisions[revision].lifecycle != Some(Lifecycle(Ephemeral, false))
                          && revisions[revision].lifecycle != Some(Lifecycle(Ephemeral, true))
  }

  lemma ApplyKeepsRetained(how: Method, revisions: Revisions, op: Op, r: Revision)
    requires IsRetained(revisions, r) && op != Delete(r) && !MakesEphemeral(op, r)
    ensures var now := Apply(how, revisions, op); IsRetained(now, r) && now[r].stored.payload == revisions[r].stored.payload
  {
    hide InfoOf;
  }

  /**
   Over any sequence of operations none of which makes it ephemeral or deletes it, a revision that is
   not ephemeral keeps its payload, however often its entity is pruned; one that nobody ever
   configured is not ephemeral.
   */
  lemma {:induction false} RetainedSurvives(how: Method, revisions: Revisions, ops: seq<Op>, r: Revision)
    requires r in revisions
    requires match revisions[r].lifecycle case None => true case Some(lifecycle) => lifecycle.retention == Retained
    requires forall i :: 0 <= i < |ops| ==> ops[i] != Delete(r) && !MakesEphemeral(ops[i], r)
    ensures var later := Run(how, revisions, ops); r in later && later[r].stored.payload == revisions[r].stored.payload
    decreases |ops|
  {
    hide Apply;
    if ops != [] {
      ApplyKeepsRetained(how, revisions, ops[0], r);
      assert forall i :: 0 <= i < |ops[1..]| ==> ops[1..][i] == ops[i + 1];
      RetainedSurvives(how, Apply(how, revisions, ops[0]), ops[1..], r);
    }
  }

  /** So what is materialized anew stays until it is deleted or made ephemeral, with the content it was made from. */
  lemma MaterializedStays(how: Method, revisions: Revisions, request: Request, source: Node, ops: seq<Op>)
    requires RevisionOf(request, InfoOf(how, source)) !in revisions
    requires var r := RevisionOf(request, InfoOf(how, source));
             forall i :: 0 <= i < |ops| ==> ops[i] != Delete(r) && !MakesEphemeral(ops[i], r)
    ensures var r := RevisionOf(request, InfoOf(how, source));
            var later := Run(how, revisions, [Materialize(request, source)] + ops);
            r in later && later[r].stored.payload == source
  {
    hide InfoOf, Run, Pruned, Configured, Deleted, MakesEphemeral;
    var r, now := RevisionOf(request, InfoOf(how, source)), Apply(how, revisions, Materialize(request, source));
    assert r in now && now[r].lifecycle.None? && now[r].stored.payload == source;
    RetainedSurvives(how, now, ops, r);
    FirstOp(how, revisions, Materialize(request, source), ops);
  }

  lemma FirstOp(how: Method, revisions: Revisions, op: Op, ops: seq<Op>)
    ensures Run(how, revisions, [op] + ops) == Run(how, Apply(how, revisions, op), ops)
  {
    hide Apply;
    assert ([op] + ops)[1..] == ops;
  }

  /** Pruning an entity takes away exactly its described revisions that were made ephemeral and are not pinned. */
  lemma PruneRemovesExactly(revisions: Revisions, dataset: bool, entity: string, r: Revision)
    requires r in revisions
    ensures r !in Pruned(revisions, dataset, entity) <==>
            r.dataset == dataset && r.entity == entity && revisions[r].stored.descriptor.Some?
            && revisions[r].lifecycle == Some(Lifecycle(Ephemeral, false))
    ensures r in Pruned(revisions, dataset, entity) ==> Pruned(revisions, dataset, entity)[r] == revisions[r]
  {
  }

  /** A revision that was never configured is retained and unpinned: setting one of the two leaves the other so. */
  lemma FreshLifecycle(revisions: Revisions, r: Revision, pinned: bool, retention: Retention)
    requires r in revisions && revisions[r].stored.descriptor.Some? && revisions[r].lifecycle.None?
    ensures var (a, b) := (Configured(revisions, r, None, Some(pinned)), Configured(revisions, r, Some(retention), None));
            && r in a && LifecycleOf(a[r]) == Lifecycle(Retained, pinned)
            && r in b && LifecycleOf(b[r]) == Lifecycle(retention, false)
    ensures r !in Deleted(revisions, r)
  {
  }

  // ---------------------------------------------------------------- one operation, without its definition

  /**
   Materializing succeeds exactly when the revision named by the digest is new, or is already there
   with a payload of the same type, digest and size and with no descriptor or this very one.  Then the
   revision is described; a new one holds the source, an old one keeps payload and lifecycle.
   Otherwise nothing changes, and other revisions never do.
   */
  lemma MaterializedExactly(how: Method, revisions: Revisions, request: Request, source: Node, info: Info, r: Revision,
                            other: Revision)
    requires info == InfoOf(how, source) && r == Revision(request.dataset, request.entity, info.digest) && other != r
    ensures Materialized(how, revisions, request, source).1.Ok? <==>
            r !in revisions
            || (InfoOf(how, revisions[r].stored.payload) == info
                && revisions[r].stored.descriptor in {None, Some(Location(r, info.kind, info.size))})
    ensures var described := Some(Location(r, info.kind, info.size));
            var (after, result) := Materialized(how, revisions, request, source);
            && (result.Ok? ==> result.value == Record(request, r, info.size))
            && (result.Ok? ==> r in after && after[r].stored.descriptor == described)
            && (result.Err? ==> result.error == Conflict && after == revisions)
    ensures var after := Materialized(how, revisions, request, source).0;
            && r in after
            && (r !in revisions ==> after[r].stored.payload == source && after[r].lifecycle.None?)
            && (r in revisions ==> after[r].stored.payload == revisions[r].stored.payload)
            && (r in revisions ==> after[r].lifecycle == revisions[r].lifecycle)
            && (other in after <==> other in revisions)
            && (other in revisions ==> after[other] == revisions[other])
  {
    hide InfoOf;
  }

  /** Deleting takes away exactly the revision it names, if it is described and not pinned. */
  lemma DeletedExactly(revisions: Revisions, deleted: Revision, r: Revision)
    requires r in revisions
    ensures r !in Deleted(revisions, deleted) <==>
            r == deleted && revisions[r].stored.descriptor.Some?
            && (revisions[r].lifecycle.None? || !revisions[r].lifecycle.value.pinned)
    ensures r in Deleted(revisions, deleted) ==> Deleted(revisions, deleted)[r] == revisions[r]
  {
  }

  // ---------------------------------------------------------------- one worker, undisturbed

  ghost function Contents(revisions: Revisions): Storage
  {
    map r | r in revisions :: revisions[r].stored
  }

  // How far a lone worker has come from the store it started with.
  ghost predicate OnCourse(how: Method, revisions: Revisions, request: Request, source: Node, storage: Storage,
                           phase: Phase)
  {
    var info := InfoOf(how, source);
    var revision := RevisionOf(request, info);
    var before, (after, result) := Contents(revisions), Materialized(how, revisions, request, source);
    && (phase.Waiting? || phase.info == info)
    && match phase
       case Waiting => storage == before
       case Hashed(_) => storage == before
       case Missing(_) => storage == before && revision !in before
       case Ready(_, staged) => storage == before && revision !in before && staged == source
       case Found(_, raced) => storage == before && revision in before && !raced
       case Matched(_, raced) => storage == before && Matches(how, before, revision, info) && !raced
       case Undescribed(_, raced) =>
         storage == before && Matches(how, before, revision, info) && before[revision].descriptor.None? && !raced
       case Settled(_) => storage == Contents(after) && result.Ok? && Matches(how, storage, revision, info)
       case Validating(_) => storage == Contents(after) && result.Ok?
       case Done(_, record) => storage == Contents(after) && result == Ok(record)
       case Failed(_, _) => storage == Contents(after) && result == Err(Conflict)
  }

  lemma SoundAt(how: Method, revisions: Revisions, revision: Revision)
    requires SoundRevisions(how, revisions)
    ensures revision in revisions ==> SoundEntry(how, revision, revisions[revision].stored)
  {
  }

  lemma AccessOnCourse(how: Method, revisions: Revisions, request: Request, source: Node, storage: Storage,
                       phase: Phase)
    requires SoundRevisions(how, revisions) && OnCourse(how, revisions, request, source, storage, phase)
    requires !phase.Waiting? && !phase.Missing?
    ensures var (now, next) := Access(how, storage, Worker(request, phase));
            OnCourse(how, revisions, request, source, now, next)
  {
    hide InfoOf, SoundRevisions;
    var revision := RevisionOf(request, phase.info);
    SoundAt(how, revisions, revision);
    var after := Materialized(how, revisions, request, source).0;
    assert revision in after ==> Contents(after)[revision] == after[revision].stored;
    if phase.Undescribed? || phase.Ready? {
      assert Access(how, storage, Worker(request, phase)).0 == Contents(after);
    }
  }

  lemma NextOnCourse(how: Method, revisions: Revisions, request: Request, source: Node, s: State, step: Step)
    requires SoundRevisions(how, revisions) && Enabled(s, step) && step.worker == 0 && Stable(map[0 := source], [step])
    requires s.workers[0].request == request && OnCourse(how, revisions, request, source, s.storage, s.workers[0].phase)
    ensures var t := Next(how, s, step);
            t.workers[0].request == request && OnCourse(how, revisions, request, source, t.storage, t.workers[0].phase)
  {
    hide InfoOf, SoundRevisions, Materialized, Access;
    assert [step][0] == step;
    if step.Advance? {
      AccessOnCourse(how, revisions, request, source, s.storage, s.workers[0].phase);
    }
  }

  lemma {:induction false} AloneOnCourse(how: Method, revisions: Revisions, request: Request, source: Node,
          s: State, steps: seq<Step>)
    requires SoundRevisions(how, revisions)
    requires s.workers.Keys == {0} && s.workers[0].request == request
    requires OnCourse(how, revisions, request, source, s.storage, s.workers[0].phase)
    requires Schedule(how, s, steps) && Stable(map[0 := source], steps)
    ensures var end := After(how, s, steps);
            && end.workers.Keys == {0}
            && OnCourse(how, revisions, request, source, end.storage, end.workers[0].phase)
    decreases |steps|
  {
    hide InfoOf, OnCourse, Next, SoundRevisions;
    if steps != [] {
      assert [steps[0]][0] == steps[0] && forall i :: 0 <= i < |steps[1..]| ==> steps[1..][i] == steps[i + 1];
      NextOnCourse(how, revisions, request, source, s, steps[0]);
      NextWorkers(how, s, steps[0]);
      AloneOnCourse(how, revisions, request, source, Next(how, s, steps[0]), steps[1..]);
    }
  }

  lemma NextWorkers(how: Method, s: State, step: Step)
    requires Enabled(s, step)
    ensures Next(how, s, step).workers.Keys == s.workers.Keys
  {
    hide InfoOf, Access;
  }

  /** One worker without competition does what the sequential operation does, to the store and to its caller. */
  lemma LoneWorkerMaterializes(how: Method, revisions: Revisions, request: Request, source: Node, steps: seq<Step>)
    requires SoundRevisions(how, revisions)
    requires Schedule(how, Start(Contents(revisions), map[0 := request]), steps) && Stable(map[0 := source], steps)
    requires Finished(After(how, Start(Contents(revisions), map[0 := request]), steps))
    ensures var s := After(how, Start(Contents(revisions), map[0 := request]), steps);
            var (after, result) := Materialized(how, revisions, request, source);
            && s.storage == Contents(after) && s.workers.Keys == {0}
            && (result.Ok? <==> s.workers[0].phase.Done?)
            && (result.Ok? ==> s.workers[0].phase.record == result.value)
  {
    hide InfoOf, Access, Materialized;
    var start := Start(Contents(revisions), map[0 := request]);
    assert start.workers[0].phase.Waiting?;
    AloneOnCourse(how, revisions, request, source, start, steps);
  }
}
