/**
 Reference counting of shared buffers, for every schedule of share and release calls.

 A call runs in several steps because it takes two locks in turn: the lock of the view it is
 called on and the lock of the shared resource.  Each step below is what one thread does
 while it holds a lock, or one call into the lease or the handle made after the locks are
 dropped; other threads may run between any two steps.
 */
module SharedBuffer {
  import opened Wrappers

  // The counted part of _SharedBufferResource.
  datatype Resource = Resource(references: nat, lease: bool, handle: bool)

  // None stands for the "cannot retain a released buffer" error.
  function RetainResource(resource: Resource): Option<Resource>
  {
    if resource.references == 0 then None else Some(resource.(references := resource.references + 1))
  }

  // The resource after a release, and whether the caller must now free the lease and the handle.
  datatype Dropped = Dropped(resource: Resource, last: bool)

  function DropResource(resource: Resource): Dropped
  {
    if resource.references == 0 then Dropped(resource, false)
    else if resource.references > 1 then Dropped(resource.(references := resource.references - 1), false)
    else Dropped(Resource(0, false, false), true)
  }

  /** The resource object; each method is one critical section of its lock. */
  class SharedBufferResource {
    var references: nat
    var lease: bool
    var handle: bool

    function Abstract(): Resource
      reads this
    {
      Resource(references, lease, handle)
    }

    constructor (lease: bool, handle: bool)
      ensures Abstract() == Resource(1, lease, handle)
    {
      this.references, this.lease, this.handle := 1, lease, handle;
    }

    method Retain() returns (ok: bool)
      modifies this
      ensures ok <==> RetainResource(old(Abstract())).Some?
      ensures Abstract() == if ok then RetainResource(old(Abstract())).value else old(Abstract())
    {
      if references == 0 {
        return false;
      }
      references := references + 1;
      return true;
    }

    // Returns the lease and the handle that the caller has to free.
    method Release() returns (freeLease: bool, freeHandle: bool)
      modifies this
      ensures var dropped := DropResource(old(Abstract()));
              && Abstract() == dropped.resource
              && freeLease == (dropped.last && old(lease))
              && freeHandle == (dropped.last && old(handle))
    {
      if references == 0 {
        return false, false;
      }
      references := references - 1;
      if references != 0 {
        return false, false;
      }
      freeLease, freeHandle := lease, handle;
      lease, handle := false, false;
    }
  }

  /**
   One view of the buffer.  The fields lease and handle say whether the view itself holds a
   lease, and whether it holds a handle other than its owner.
   */
  class ManagedBuffer {
    var released: bool
    var lease: bool
    var handle: bool
    var shared: SharedBufferResource?

    constructor (lease: bool, handle: bool, shared: SharedBufferResource?)
      ensures !released && this.lease == lease && this.handle == handle && this.shared == shared
    {
      released, this.lease, this.handle, this.shared := false, lease, handle, shared;
    }

    // What is left to be freed by the caller: nothing for a second release, the view's own
    // lease and handle if it was never shared, and otherwise whatever the resource hands out.
    method Release() returns (freeLease: bool, freeHandle: bool)
      modifies this, shared
      ensures old(released) ==> unchanged(this) && !freeLease && !freeHandle
      ensures !old(released) ==> released && !lease && !handle && shared == null
      ensures !old(released) && old(shared) == null ==> freeLease == old(lease) && freeHandle == old(handle)
      ensures old(shared) != null ==>
                if old(released) then old(shared).Abstract() == old(shared.Abstract())
                else
                  var dropped := DropResource(old(shared.Abstract()));
                  && old(shared).Abstract() == dropped.resource
                  && freeLease == (dropped.last && old(shared.lease))
                  && freeHandle == (dropped.last && old(shared.handle))
    {
      if released {
        return false, false;
      }
      var resource := shared;
      freeLease, freeHandle := lease, handle;
      released, lease, handle, shared := true, false, false, null;
      if resource != null {
        freeLease, freeHandle := resource.Release();
      }
    }

    // The first share moves the lease and the handle into a new resource; constructing the
    // clone may fail, and then the reference taken for it is given back.
    method Share(constructionFails: bool) returns (clone: ManagedBuffer?)
      modifies this, shared
      ensures old(released) ==> clone == null && unchanged(this)
      ensures !old(released) ==> !released && shared != null && (old(shared) != null ==> shared == old(shared))
      ensures !old(released) ==>
                var before := if old(shared) == null then Resource(1, old(lease), old(handle)) else old(shared.Abstract());
                var retained := RetainResource(before);
                && (clone != null <==> retained.Some? && !constructionFails)
                && shared.Abstract() == (if clone != null then retained.value else before)
      ensures !old(released) ==> lease == (old(lease) && old(shared) != null) && handle == old(handle)
      ensures clone != null ==>
                fresh(clone) && !clone.released && !clone.lease && clone.handle == handle && clone.shared == shared
    {
      if released {
        return null;
      }
      if shared == null {
        shared := new SharedBufferResource(lease, handle);
        lease := false;
      }
      var retained := shared.Retain();
      if !retained {
        return null;
      }
      if constructionFails {
        var _, _ := shared.Release();
        return null;
      }
      clone := new ManagedBuffer(false, handle, shared);
    }
  }

  // ---------------------------------------------------------------- interleaved calls

  // attached: the view points to the shared resource.
  datatype View = View(released: bool, attached: bool)

  // A call that is between two of its steps.
  datatype Call =
    | Retaining(view: nat)                    // share, about to retain the resource
    | Building(view: nat)                     // share, retained, constructing the new view
    | Undoing(view: nat)                      // share, construction failed, about to give the reference back
    | Dropping                                // release, own lock dropped, about to release the resource
    | FreeingLease(lease: bool, handle: bool) // last reference gone, about to release the lease
    | FreeingHandle(handle: bool)             // about to close the handle

  datatype State = State(
    views: map<nat, View>,
    resource: Option<Resource>,
    ownLease: bool,            // the first buffer still holds the lease itself
    ownHandle: bool,
    calls: map<nat, Call>,     // by thread
    leaseReleases: nat,
    handleCloses: nat,
    handleLeaks: nat,          // handles left open because releasing the lease raised
    retainErrors: nat)

  // One buffer, not shared yet.
  function Init(lease: bool, handle: bool): State
  {
    State(map[0 := View(false, false)], None, lease, handle, map[], 0, 0, 0, 0)
  }

  datatype Step =
    | BeginShare(thread: nat, view: nat)
    | Retain(thread: nat)
    | Build(thread: nat, clone: nat)
    | BuildFails(thread: nat)
    | BeginRelease(thread: nat, view: nat)
    | Drop(thread: nat)
    | FreeLease(thread: nat, raises: bool)
    | FreeHandle(thread: nat)

  predicate SharingOn(call: Call, view: nat)
  {
    (call.Retaining? || call.Building? || call.Undoing?) && call.view == view
  }

  // A share call keeps its view's lock until it returns.
  predicate Unlocked(s: State, view: nat)
  {
    forall t :: t in s.calls ==> !SharingOn(s.calls[t], view)
  }

  function Continue(s: State, thread: nat, call: Call): State
  {
    s.(calls := s.calls[thread := call])
  }

  function Return(s: State, thread: nat): State
  {
    s.(calls := s.calls - {thread})
  }

  // Whether the step can be taken now.
  predicate Enabled(s: State, step: Step)
  {
    match step
    case BeginShare(t, v) => t !in s.calls && v in s.views && Unlocked(s, v)
    case BeginRelease(t, v) => t !in s.calls && v in s.views && Unlocked(s, v)
    case Retain(t) => t in s.calls && s.calls[t].Retaining? && s.resource.Some?
    case Build(t, w) => t in s.calls && s.calls[t].Building? && w !in s.views
    case BuildFails(t) => t in s.calls && s.calls[t].Building?
    case Drop(t) => t in s.calls && (s.calls[t].Dropping? || s.calls[t].Undoing?) && s.resource.Some?
    case FreeLease(t, _) => t in s.calls && s.calls[t].FreeingLease?
    case FreeHandle(t) => t in s.calls && s.calls[t].FreeingHandle?
  }

  function Next(s: State, step: Step): State
    requires Enabled(s, step)
  {
    match step
    case BeginShare(t, v) =>
      if s.views[v].released then s // raises: cannot share a released buffer
      else if s.views[v].attached then Continue(s, t, Retaining(v))
      else
        Continue(s.(resource := Some(Resource(1, s.ownLease, s.ownHandle)), ownLease := false, ownHandle := false,
                    views := s.views[v := View(false, true)]), t, Retaining(v))
    case Retain(t) =>
      (match RetainResource(s.resource.value)
       case None => Return(s.(retainErrors := s.retainErrors + 1), t)
       case Some(resource) => Continue(s.(resource := Some(resource)), t, Building(s.calls[t].view)))
    case Build(t, w) => Return(s.(views := s.views[w := View(false, true)]), t)
    case BuildFails(t) => Continue(s, t, Undoing(s.calls[t].view))
    case BeginRelease(t, v) =>
      if s.views[v].released then s
      else if s.views[v].attached then Continue(s.(views := s.views[v := View(true, false)]), t, Dropping)
      else
        Continue(s.(views := s.views[v := View(true, false)], ownLease := false, ownHandle := false),
                 t, FreeingLease(s.ownLease, s.ownHandle))
    case Drop(t) =>
      var dropped := DropResource(s.resource.value);
      var after := s.(resource := Some(dropped.resource));
      if dropped.last then Continue(after, t, FreeingLease(s.resource.value.lease, s.resource.value.handle))
      else Return(after, t)
    case FreeLease(t, raises) =>
      var call := s.calls[t];
      if !call.lease then Continue(s, t, FreeingHandle(call.handle))
      else if raises then
        Return(s.(leaseReleases := s.leaseReleases + 1,
                  handleLeaks := s.handleLeaks + if call.handle then 1 else 0), t)
      else Continue(s.(leaseReleases := s.leaseReleases + 1), t, FreeingHandle(call.handle))
    case FreeHandle(t) =>
      Return(s.(handleCloses := s.handleCloses + if s.calls[t].handle then 1 else 0), t)
  }

  // ---------------------------------------------------------------- what every step keeps

  function Where<V>(entries: map<nat, V>, holds: V -> bool): set<nat>
  {
    set k | k in entries && holds(entries[k])
  }

  function One(b: bool): nat
  {
    if b then 1 else 0
  }

  lemma WhereSet<V>(entries: map<nat, V>, holds: V -> bool, k: nat, value: V)
    ensures |Where(entries[k := value], holds)| ==
            |Where(entries, holds)| - One(k in entries && holds(entries[k])) + One(holds(value))
  {
    var rest := Where(entries, holds) - {k};
    assert Where(entries, holds) == if k in entries && holds(entries[k]) then rest + {k} else rest;
    assert Where(entries[k := value], holds) == if holds(value) then rest + {k} else rest;
  }

  lemma WhereGone<V>(entries: map<nat, V>, holds: V -> bool, k: nat)
    requires k in entries
    ensures |Where(entries - {k}, holds)| == |Where(entries, holds)| - One(holds(entries[k]))
  {
    var rest := Where(entries, holds) - {k};
    assert Where(entries, holds) == if holds(entries[k]) then rest + {k} else rest;
    assert Where(entries - {k}, holds) == rest;
  }

  // Views and calls that account for one reference each.
  const Attached := (view: View) => view.attached
  const Counted := (call: Call) => call.Building? || call.Undoing? || call.Dropping?

  // Calls that still have to free the lease or the handle.
  const FreesLease := (call: Call) => call.FreeingLease? && call.lease
  const FreesHandle := (call: Call) => (call.FreeingLease? || call.FreeingHandle?) && call.handle

  ghost predicate ViewsConsistent(s: State)
  {
    && 0 in s.views
    && (forall v :: v in s.views && s.views[v].attached ==> s.resource.Some? && !s.views[v].released)
    && (forall v :: v in s.views && !s.views[v].attached && !s.views[v].released ==> s.resource.None?)
    && (s.resource.None? ==> forall v :: v in s.views ==> v == 0)
    && (forall t, v :: t in s.calls && SharingOn(s.calls[t], v) ==> v in s.views && s.views[v].attached)
    && (forall t :: t in s.calls && s.calls[t].Dropping? ==> s.resource.Some?)
  }

  // The lease and the handle stay with the buffer, then with the resource, until the last release.
  ghost predicate Ownership(s: State, lease: bool, handle: bool)
    requires ViewsConsistent(s)
  {
    && (s.resource.None? ==>
          s.ownLease == (lease && !s.views[0].released) && s.ownHandle == (handle && !s.views[0].released))
    && (s.resource.Some? ==>
          var resource := s.resource.value;
          && !s.ownLease && !s.ownHandle
          && resource.lease == (lease && resource.references > 0)
          && resource.handle == (handle && resource.references > 0))
  }

  // The reference count is the number of live views plus calls between their two steps.
  ghost predicate Counts(s: State)
  {
    s.resource.Some? ==>
      s.resource.value.references == |Where(s.views, Attached)| + |Where(s.calls, Counted)|
  }

  // Each of lease and handle is in exactly one place: held, about to be freed, or freed.
  ghost predicate Conserved(s: State, lease: bool, handle: bool)
  {
    && One(s.ownLease) + One(s.resource.Some? && s.resource.value.lease)
       + |Where(s.calls, FreesLease)| + s.leaseReleases == One(lease)
    && One(s.ownHandle) + One(s.resource.Some? && s.resource.value.handle)
       + |Where(s.calls, FreesHandle)| + s.handleCloses + s.handleLeaks == One(handle)
    && s.handleLeaks <= s.leaseReleases
  }

  ghost predicate Invariant(s: State, lease: bool, handle: bool)
  {
    ViewsConsistent(s) && Ownership(s, lease, handle) && Counts(s) && Conserved(s, lease, handle) && s.retainErrors == 0
  }

  lemma InitInvariant(lease: bool, handle: bool)
    ensures Invariant(Init(lease, handle), lease, handle)
  {
    var s := Init(lease, handle);
    assert Where(s.calls, FreesLease) == {} && Where(s.calls, FreesHandle) == {};
  }

  // The three counts over calls, after a thread moved on or returned.
  lemma CallsSet(calls: map<nat, Call>, t: nat, call: Call)
    ensures var now := calls[t := call];
            && |Where(now, Counted)| == |Where(calls, Counted)| - One(t in calls && Counted(calls[t])) + One(Counted(call))
            && |Where(now, FreesLease)| == |Where(calls, FreesLease)| - One(t in calls && FreesLease(calls[t])) + One(FreesLease(call))
            && |Where(now, FreesHandle)| == |Where(calls, FreesHandle)| - One(t in calls && FreesHandle(calls[t])) + One(FreesHandle(call))
  {
    WhereSet(calls, Counted, t, call);
    WhereSet(calls, FreesLease, t, call);
    WhereSet(calls, FreesHandle, t, call);
  }

  lemma CallsGone(calls: map<nat, Call>, t: nat)
    requires t in calls
    ensures var now := calls - {t};
            && |Where(now, Counted)| == |Where(calls, Counted)| - One(Counted(calls[t]))
            && |Where(now, FreesLease)| == |Where(calls, FreesLease)| - One(FreesLease(calls[t]))
            && |Where(now, FreesHandle)| == |Where(calls, FreesHandle)| - One(FreesHandle(calls[t]))
  {
    WhereGone(calls, Counted, t);
    WhereGone(calls, FreesLease, t);
    WhereGone(calls, FreesHandle, t);
  }

  lemma SomeWhere<V>(entries: map<nat, V>, holds: V -> bool, k: nat)
    requires k in entries && holds(entries[k])
    ensures |Where(entries, holds)| > 0
  {
    assert k in Where(entries, holds);
  }

  lemma NoneWhere<V>(entries: map<nat, V>, holds: V -> bool)
    requires forall k :: k in entries ==> !holds(entries[k])
    ensures |Where(entries, holds)| == 0
  {
    assert Where(entries, holds) == {};
  }

  lemma CountedNeedsResource(s: State, t: nat)
    requires ViewsConsistent(s) && t in s.calls
    ensures Counted(s.calls[t]) ==> s.resource.Some?
  {
    if s.calls[t].Building? || s.calls[t].Undoing? {
      assert SharingOn(s.calls[t], s.calls[t].view);
      assert s.views[s.calls[t].view].attached;
    }
  }

  lemma BeginShareKeeps(s: State, t: nat, v: nat, lease: bool, handle: bool)
    requires Invariant(s, lease, handle) && Enabled(s, BeginShare(t, v))
    ensures Invariant(Next(s, BeginShare(t, v)), lease, handle)
  {
    hide Where;
    if !s.views[v].released {
      CallsSet(s.calls, t, Retaining(v));
      if !s.views[v].attached {
        forall u | u in s.calls
          ensures !Counted(s.calls[u])
        {
          CountedNeedsResource(s, u);
        }
        NoneWhere(s.calls, Counted);
        NoneWhere(s.views, Attached);
        WhereSet(s.views, Attached, v, View(false, true));
      }
    }
  }

  lemma RetainKeeps(s: State, t: nat, lease: bool, handle: bool)
    requires Invariant(s, lease, handle) && Enabled(s, Retain(t))
    ensures Invariant(Next(s, Retain(t)), lease, handle)
  {
    hide Where;
    var v := s.calls[t].view;
    assert SharingOn(s.calls[t], v);
    SomeWhere(s.views, Attached, v);
    CallsSet(s.calls, t, Building(v));
  }

  lemma BuildKeeps(s: State, t: nat, w: nat, lease: bool, handle: bool)
    requires Invariant(s, lease, handle) && Enabled(s, Build(t, w))
    ensures Invariant(Next(s, Build(t, w)), lease, handle)
  {
    hide Where;
    assert SharingOn(s.calls[t], s.calls[t].view);
    assert s.views[s.calls[t].view].attached;
    CallsGone(s.calls, t);
    WhereSet(s.views, Attached, w, View(false, true));
  }

  lemma BuildFailsKeeps(s: State, t: nat, lease: bool, handle: bool)
    requires Invariant(s, lease, handle) && Enabled(s, BuildFails(t))
    ensures Invariant(Next(s, BuildFails(t)), lease, handle)
  {
    hide Where;
    assert SharingOn(s.calls[t], s.calls[t].view);
    CallsSet(s.calls, t, Undoing(s.calls[t].view));
  }

  lemma BeginReleaseKeeps(s: State, t: nat, v: nat, lease: bool, handle: bool)
    requires Invariant(s, lease, handle) && Enabled(s, BeginRelease(t, v))
    ensures Invariant(Next(s, BeginRelease(t, v)), lease, handle)
  {
    hide Where;
    if !s.views[v].released {
      WhereSet(s.views, Attached, v, View(true, false));
      CallsSet(s.calls, t, if s.views[v].attached then Dropping else FreeingLease(s.ownLease, s.ownHandle));
    }
  }

  lemma DropKeeps(s: State, t: nat, lease: bool, handle: bool)
    requires Invariant(s, lease, handle) && Enabled(s, Drop(t))
    ensures Invariant(Next(s, Drop(t)), lease, handle)
  {
    hide Where;
    SomeWhere(s.calls, Counted, t);
    CallsGone(s.calls, t);
    CallsSet(s.calls, t, FreeingLease(s.resource.value.lease, s.resource.value.handle));
  }

  lemma FreeLeaseKeeps(s: State, t: nat, raises: bool, lease: bool, handle: bool)
    requires Invariant(s, lease, handle) && Enabled(s, FreeLease(t, raises))
    ensures Invariant(Next(s, FreeLease(t, raises)), lease, handle)
  {
    hide Where;
    CallsGone(s.calls, t);
    CallsSet(s.calls, t, FreeingHandle(s.calls[t].handle));
  }

  lemma FreeHandleKeeps(s: State, t: nat, lease: bool, handle: bool)
    requires Invariant(s, lease, handle) && Enabled(s, FreeHandle(t))
    ensures Invariant(Next(s, FreeHandle(t)), lease, handle)
  {
    hide Where;
    CallsGone(s.calls, t);
  }

  lemma NextKeeps(s: State, step: Step, lease: bool, handle: bool)
    requires Invariant(s, lease, handle) && Enabled(s, step)
    ensures Invariant(Next(s, step), lease, handle)
  {
    match step
    case BeginShare(t, v) => BeginShareKeeps(s, t, v, lease, handle);
    case Retain(t) => RetainKeeps(s, t, lease, handle);
    case Build(t, w) => BuildKeeps(s, t, w, lease, handle);
    case BuildFails(t) => BuildFailsKeeps(s, t, lease, handle);
    case BeginRelease(t, v) => BeginReleaseKeeps(s, t, v, lease, handle);
    case Drop(t) => DropKeeps(s, t, lease, handle);
    case FreeLease(t, raises) => FreeLeaseKeeps(s, t, raises, lease, handle);
    case FreeHandle(t) => FreeHandleKeeps(s, t, lease, handle);
  }

  // ---------------------------------------------------------------- whole runs

  // A schedule is any sequence of steps, each enabled when it is taken.
  ghost predicate Schedule(s: State, steps: seq<Step>)
    decreases |steps|
  {
    steps == [] || (Enabled(s, steps[0]) && Schedule(Next(s, steps[0]), steps[1..]))
  }

  ghost function After(s: State, steps: seq<Step>): State
    requires Schedule(s, steps)
    decreases |steps|
  {
    if steps == [] then s else After(Next(s, steps[0]), steps[1..])
  }

  lemma {:induction false} RunKeeps(s: State, steps: seq<Step>, lease: bool, handle: bool)
    requires Schedule(s, steps) && Invariant(s, lease, handle)
    ensures Invariant(After(s, steps), lease, handle)
    decreases |steps|
  {
    if steps != [] {
      NextKeeps(s, steps[0], lease, handle);
      RunKeeps(Next(s, steps[0]), steps[1..], lease, handle);
    }
  }

  ghost predicate AllReleased(s: State)
  {
    forall v :: v in s.views ==> s.views[v].released
  }

  /**
   Under every schedule: the count is live views plus calls in flight, retaining never fails,
   the lease is released at most once and never while a view is alive, and the handle is
   closed at most once and never while a view is alive.
   */
  lemma SharedBufferSafety(lease: bool, handle: bool, steps: seq<Step>)
    requires Schedule(Init(lease, handle), steps)
    ensures var s := After(Init(lease, handle), steps);
            && Counts(s)
            && s.retainErrors == 0
            && s.leaseReleases <= 1 && s.handleCloses <= 1
            && (s.leaseReleases + s.handleCloses + |Where(s.calls, FreesLease)| + |Where(s.calls, FreesHandle)| > 0 ==> AllReleased(s))
  {
    InitInvariant(lease, handle);
    RunKeeps(Init(lease, handle), steps, lease, handle);
    var s := After(Init(lease, handle), steps);
    forall v | v in s.views && !s.views[v].released && s.resource.Some?
      ensures s.resource.value.references > 0
    {
      SomeWhere(s.views, Attached, v);
    }
  }

  // The step releases the lease, and the release raises.
  predicate LeaseRaises(s: State, step: Step)
  {
    step.FreeLease? && step.raises && step.thread in s.calls
    && s.calls[step.thread].FreeingLease? && s.calls[step.thread].lease
  }

  // At some point of the schedule the release of the lease raises.
  ghost predicate LeaseRaised(s: State, steps: seq<Step>)
    requires Schedule(s, steps)
    decreases |steps|
  {
    steps != [] && (LeaseRaises(s, steps[0]) || LeaseRaised(Next(s, steps[0]), steps[1..]))
  }

  // Whoever has to release the lease also has to close the handle.
  ghost predicate FreedTogether(s: State, handle: bool)
  {
    forall t :: t in s.calls && s.calls[t].FreeingLease? && s.calls[t].lease ==> s.calls[t].handle == handle
  }

  lemma NextFreesTogether(s: State, step: Step, lease: bool, handle: bool)
    requires Invariant(s, lease, handle) && FreedTogether(s, handle) && Enabled(s, step)
    ensures FreedTogether(Next(s, step), handle)
    ensures Next(s, step).handleLeaks == s.handleLeaks + One(handle && LeaseRaises(s, step))
  {
    hide Where, Counts, Conserved;
  }

  // Handles are left open exactly by releases of the lease that raise.
  lemma {:induction false} LeaksExactly(s: State, steps: seq<Step>, lease: bool, handle: bool)
    requires Invariant(s, lease, handle) && FreedTogether(s, handle) && Schedule(s, steps)
    ensures After(s, steps).handleLeaks >= s.handleLeaks
    ensures After(s, steps).handleLeaks > s.handleLeaks <==> handle && LeaseRaised(s, steps)
    decreases |steps|
  {
    hide Invariant, FreedTogether, Enabled, Next, LeaseRaises;
    if steps != [] {
      NextKeeps(s, steps[0], lease, handle);
      NextFreesTogether(s, steps[0], lease, handle);
      LeaksExactly(Next(s, steps[0]), steps[1..], lease, handle);
    }
  }

  /**
   Under every schedule: once every view is released and every call has returned, the lease
   has been released exactly once, and the handle has been closed exactly once if and only if
   the release of the lease did not raise; otherwise it has not been closed at all.
   */
  lemma SharedBufferIsFreed(lease: bool, handle: bool, steps: seq<Step>)
    requires Schedule(Init(lease, handle), steps)
    requires AllReleased(After(Init(lease, handle), steps)) && After(Init(lease, handle), steps).calls == map[]
    ensures var s := After(Init(lease, handle), steps);
            && s.leaseReleases == One(lease)
            && (s.handleCloses == One(handle) <==> !(handle && LeaseRaised(Init(lease, handle), steps)))
            && s.handleCloses <= One(handle)
  {
    InitInvariant(lease, handle);
    RunKeeps(Init(lease, handle), steps, lease, handle);
    LeaksExactly(Init(lease, handle), steps, lease, handle);
    var s := After(Init(lease, handle), steps);
    NoneWhere(s.calls, Counted);
    NoneWhere(s.calls, FreesLease);
    NoneWhere(s.calls, FreesHandle);
    NoneWhere(s.views, Attached);
  }

  /** A buffer with a lease and a handle, released once: when the lease raises, the handle stays open. */
  lemma RaisingLeaseLeavesHandleOpen()
    ensures var steps, init := [BeginRelease(0, 0), FreeLease(0, true)], Init(true, true);
            && Schedule(init, steps) && AllReleased(After(init, steps)) && After(init, steps).calls == map[]
            && After(init, steps).leaseReleases == 1 && After(init, steps).handleCloses == 0
  {
    var steps, init := [BeginRelease(0, 0), FreeLease(0, true)], Init(true, true);
    var middle := Next(init, steps[0]);
    assert steps[1..] == [FreeLease(0, true)] && steps[1..][1..] == [];
    var end := Next(middle, steps[1]);
    assert Schedule(end, []) && Schedule(middle, steps[1..]) && Schedule(init, steps);
    assert After(middle, steps[1..]) == After(end, []) == end;
    assert end.calls == map[];
  }

  /** A call in flight is never blocked: its next step is always enabled. */
  lemma CallsNeverBlock(s: State, t: nat, lease: bool, handle: bool) returns (step: Step)
    requires Invariant(s, lease, handle) && t in s.calls
    ensures Enabled(s, step) && step.thread == t && !step.BeginShare? && !step.BeginRelease?
  {
    match s.calls[t]
    case Retaining(v) =>
      assert SharingOn(s.calls[t], v) && s.views[v].attached;
      step := Retain(t);
    case Building(_) => step := BuildFails(t);
    case Undoing(v) =>
      assert SharingOn(s.calls[t], v) && s.views[v].attached;
      step := Drop(t);
    case Dropping => step := Drop(t);
    case FreeingLease(_, _) => step := FreeLease(t, false);
    case FreeingHandle(_) => step := FreeHandle(t);
  }

  // ---------------------------------------------------------------- what a thread achieves alone

  // Where the buffer of a live view is counted before the view is shared once more.
  function Before(s: State, v: nat): Resource
    requires v in s.views && (s.views[v].attached ==> s.resource.Some?)
  {
    if s.views[v].attached then s.resource.value else Resource(1, s.ownLease, s.ownHandle)
  }

  lemma TwoSteps(s: State, a: Step, b: Step)
    requires Enabled(s, a) && Enabled(Next(s, a), b)
    ensures Schedule(s, [a, b]) && After(s, [a, b]) == Next(Next(s, a), b)
  {
    hide Enabled, Next;
    var middle, end := Next(s, a), Next(Next(s, a), b);
    assert [a, b][1..] == [b] && [b][1..] == [];
    assert Schedule(end, []) && Schedule(middle, [b]);
    assert After(middle, [b]) == After(end, []) == end;
  }

  lemma {:induction false} AfterBoth(s: State, a: seq<Step>, b: seq<Step>)
    requires Schedule(s, a) && Schedule(After(s, a), b)
    ensures Schedule(s, a + b) && After(s, a + b) == After(After(s, a), b)
    decreases |a|
  {
    hide Enabled, Next;
    if a == [] {
      assert a + b == b;
    } else {
      assert (a + b)[1..] == a[1..] + b;
      AfterBoth(Next(s, a[0]), a[1..], b);
    }
  }

  // The first half of sharing a live view.
  function Retained(s: State, t: nat, v: nat): State
    requires v in s.views && (s.views[v].attached ==> s.resource.Some?)
  {
    s.(views := s.views[v := View(false, true)],
       resource := Some(Before(s, v).(references := Before(s, v).references + 1)),
       ownLease := s.ownLease && s.views[v].attached, ownHandle := s.ownHandle && s.views[v].attached,
       calls := s.calls[t := Building(v)])
  }

  lemma LoneRetain(s: State, t: nat, v: nat)
    requires Enabled(s, BeginShare(t, v)) && !s.views[v].released
    requires s.views[v].attached ==> s.resource.Some? && s.resource.value.references > 0
    ensures Schedule(s, [BeginShare(t, v), Retain(t)]) && After(s, [BeginShare(t, v), Retain(t)]) == Retained(s, t, v)
  {
    TwoSteps(s, BeginShare(t, v), Retain(t));
    assert s.calls[t := Retaining(v)][t := Building(v)] == s.calls[t := Building(v)];
    assert s.views[v].attached ==> s.views[v := View(false, true)] == s.views;
  }

  /**
   Sharing a live view without interference: both views are live and attached, the count is one
   more, and the buffer has handed its lease and handle to the resource.
   */
  lemma LoneShare(s: State, t: nat, v: nat, w: nat)
    requires Enabled(s, BeginShare(t, v)) && !s.views[v].released && w !in s.views
    requires s.views[v].attached ==> s.resource.Some? && s.resource.value.references > 0
    ensures var steps := [BeginShare(t, v), Retain(t)] + [Build(t, w)];
            Schedule(s, steps) &&
            After(s, steps) == s.(views := s.views[v := View(false, true)][w := View(false, true)],
                                  resource := Some(Before(s, v).(references := Before(s, v).references + 1)),
                                  ownLease := s.ownLease && s.views[v].attached,
                                  ownHandle := s.ownHandle && s.views[v].attached)
  {
    LoneRetain(s, t, v);
    hide Schedule, After;
    OneStep(Retained(s, t, v), Build(t, w));
    AfterBoth(s, [BeginShare(t, v), Retain(t)], [Build(t, w)]);
    Settled(s, t, Building(v), Building(v));
  }

  /** When constructing the clone fails, the count is what it was. */
  lemma LoneShareFails(s: State, t: nat, v: nat)
    requires Enabled(s, BeginShare(t, v)) && !s.views[v].released
    requires s.views[v].attached ==> s.resource.Some? && s.resource.value.references > 0
    ensures var steps := [BeginShare(t, v), Retain(t)] + [BuildFails(t), Drop(t)];
            Schedule(s, steps) &&
            After(s, steps) == s.(views := s.views[v := View(false, true)], resource := Some(Before(s, v)),
                                  ownLease := s.ownLease && s.views[v].attached,
                                  ownHandle := s.ownHandle && s.views[v].attached)
  {
    LoneRetain(s, t, v);
    hide Schedule, After;
    TwoSteps(Retained(s, t, v), BuildFails(t), Drop(t));
    AfterBoth(s, [BeginShare(t, v), Retain(t)], [BuildFails(t), Drop(t)]);
    Settled(s, t, Building(v), Undoing(v));
  }

  // The call of a thread that had none is gone again after it returned.
  lemma Settled(s: State, t: nat, first: Call, last: Call)
    requires t !in s.calls
    ensures s.calls[t := first] - {t} == s.calls
    ensures s.calls[t := first][t := last] - {t} == s.calls
  {
    assert s.calls[t := first][t := last] == s.calls[t := last];
  }

  lemma OneStep(s: State, a: Step)
    requires Enabled(s, a)
    ensures Schedule(s, [a]) && After(s, [a]) == Next(s, a)
  {
    hide Enabled, Next;
    var end := Next(s, a);
    assert [a][1..] == [] && Schedule(end, []);
    assert After(end, []) == end;
  }

  // Freeing what a release handed out: the lease, and unless that raises the handle.
  function Freeing(t: nat, lease: bool, raises: bool): seq<Step>
  {
    if lease && raises then [FreeLease(t, true)] else [FreeLease(t, raises), FreeHandle(t)]
  }

  lemma LoneFreeing(s: State, t: nat, lease: bool, handle: bool, raises: bool)
    requires t in s.calls && s.calls[t] == FreeingLease(lease, handle)
    ensures Schedule(s, Freeing(t, lease, raises))
    ensures After(s, Freeing(t, lease, raises)) ==
            s.(calls := s.calls - {t}, leaseReleases := s.leaseReleases + One(lease),
               handleCloses := s.handleCloses + One(handle && !(lease && raises)),
               handleLeaks := s.handleLeaks + One(handle && lease && raises))
  {
    if lease && raises {
      OneStep(s, FreeLease(t, true));
    } else {
      TwoSteps(s, FreeLease(t, raises), FreeHandle(t));
      assert s.calls[t := FreeingHandle(handle)] - {t} == s.calls - {t};
    }
  }

  /**
   Releasing a live view without interference: the view is released, and either the count is one
   less, or what the buffer still held is freed and not held any more: the lease, and then the handle
   unless the release of the lease raised.
   */
  lemma LoneRelease(s: State, t: nat, v: nat, raises: bool) returns (steps: seq<Step>)
    requires Enabled(s, BeginRelease(t, v)) && !s.views[v].released
    requires s.views[v].attached ==> s.resource.Some? && s.resource.value.references > 0
    ensures Schedule(s, steps)
    ensures var held := Before(s, v);
            var lease, handle := held.references == 1 && held.lease, held.references == 1 && held.handle;
            After(s, steps) ==
            s.(views := s.views[v := View(true, false)],
               resource := if !s.views[v].attached then s.resource
                           else if held.references == 1 then Some(Resource(0, false, false))
                           else Some(held.(references := held.references - 1)),
               ownLease := s.ownLease && s.views[v].attached, ownHandle := s.ownHandle && s.views[v].attached,
               leaseReleases := s.leaseReleases + One(lease),
               handleCloses := s.handleCloses + One(handle && !(lease && raises)),
               handleLeaks := s.handleLeaks + One(handle && lease && raises))
  {
    if s.views[v].attached {
      steps := LoneReleaseShared(s, t, v, raises);
    } else {
      var begun := Next(s, BeginRelease(t, v));
      OneStep(s, BeginRelease(t, v));
      Settled(s, t, FreeingLease(s.ownLease, s.ownHandle), Dropping);
      LoneFreeing(begun, t, s.ownLease, s.ownHandle, raises);
      hide Enabled, Next;
      steps := [BeginRelease(t, v)] + Freeing(t, s.ownLease, raises);
      AfterBoth(s, [BeginRelease(t, v)], Freeing(t, s.ownLease, raises));
    }
  }

  lemma LoneReleaseShared(s: State, t: nat, v: nat, raises: bool) returns (steps: seq<Step>)
    requires Enabled(s, BeginRelease(t, v)) && !s.views[v].released && s.views[v].attached
    requires s.resource.Some? && s.resource.value.references > 0
    ensures Schedule(s, steps)
    ensures var held := s.resource.value;
            var lease, handle := held.references == 1 && held.lease, held.references == 1 && held.handle;
            After(s, steps) ==
            s.(views := s.views[v := View(true, false)],
               resource := if held.references == 1 then Some(Resource(0, false, false))
                           else Some(held.(references := held.references - 1)),
               leaseReleases := s.leaseReleases + One(lease),
               handleCloses := s.handleCloses + One(handle && !(lease && raises)),
               handleLeaks := s.handleLeaks + One(handle && lease && raises))
  {
    var held := s.resource.value;
    TwoSteps(s, BeginRelease(t, v), Drop(t));
    steps := [BeginRelease(t, v), Drop(t)];
    var dropped := After(s, steps);
    Settled(s, t, Dropping, FreeingLease(held.lease, held.handle));
    if held.references == 1 {
      LoneFreeing(dropped, t, held.lease, held.handle, raises);
      hide Enabled, Next;
      AfterBoth(s, steps, Freeing(t, held.lease, raises));
      steps := steps + Freeing(t, held.lease, raises);
    }
  }

  /** Releasing a view always leaves it released, and a released view is left alone. */
  lemma ReleaseReleases(s: State, t: nat, v: nat)
    requires Enabled(s, BeginRelease(t, v))
    ensures Next(s, BeginRelease(t, v)).views == if s.views[v].released then s.views else s.views[v := View(true, false)]
    ensures s.views[v].released ==> Next(s, BeginRelease(t, v)) == s
  {
  }

  // ---------------------------------------------------------------- everything can be freed

  // How many steps of its own a call may still need.
  function Rank(call: Call): nat
  {
    match call
    case Retaining(_) => 6
    case Building(_) => 5
    case Undoing(_) => 4
    case Dropping => 4
    case FreeingLease(_, _) => 2
    case FreeingHandle(_) => 1
  }

  // Nothing raises and no view appears or changes while one call is finished.
  lemma {:induction false} FinishCall(s: State, t: nat, lease: bool, handle: bool) returns (steps: seq<Step>)
    requires Invariant(s, lease, handle) && t in s.calls
    ensures Schedule(s, steps)
    ensures var after := After(s, steps);
            after.calls == s.calls - {t} && after.views == s.views && after.handleLeaks == s.handleLeaks
    decreases Rank(s.calls[t])
  {
    hide Invariant, Enabled, Next;
    var step := CallStep(s, t, lease, handle);
    NextKeeps(s, step, lease, handle);
    var next := Next(s, step);
    OneStep(s, step);
    steps := [step];
    if t in next.calls {
      var rest := FinishCall(next, t, lease, handle);
      AfterBoth(s, steps, rest);
      steps := steps + rest;
    } else {
      assert next.calls == next.calls - {t};
    }
  }

  lemma CallStep(s: State, t: nat, lease: bool, handle: bool) returns (step: Step)
    requires Invariant(s, lease, handle) && t in s.calls
    ensures Enabled(s, step)
    ensures var next := Next(s, step);
            && next.views == s.views && next.handleLeaks == s.handleLeaks && next.calls - {t} == s.calls - {t}
            && (t in next.calls ==> Rank(next.calls[t]) < Rank(s.calls[t]))
  {
    step := CallsNeverBlock(s, t, lease, handle);
    hide Invariant, Unlocked, SharingOn;
    step := if step.FreeLease? then FreeLease(t, false) else if step.Build? then BuildFails(t) else step;
  }

  lemma {:induction false} FinishCalls(s: State, lease: bool, handle: bool) returns (steps: seq<Step>)
    requires Invariant(s, lease, handle)
    ensures Schedule(s, steps)
    ensures var after := After(s, steps); after.calls == map[] && after.views == s.views && after.handleLeaks == s.handleLeaks
    decreases |s.calls|
  {
    hide Invariant, Enabled, Next;
    steps := [];
    if s.calls != map[] {
      var t :| t in s.calls;
      steps := FinishCall(s, t, lease, handle);
      RunKeeps(s, steps, lease, handle);
      assert |s.calls - {t}| < |s.calls| by {
        assert (s.calls - {t}).Keys == s.calls.Keys - {t};
      }
      var rest := FinishCalls(After(s, steps), lease, handle);
      AfterBoth(s, steps, rest);
      steps := steps + rest;
    }
  }

  // The views that are not released yet.
  function Living(s: State): set<nat>
  {
    set v | v in s.views && !s.views[v].released
  }

  lemma {:induction false} ReleaseAll(s: State, lease: bool, handle: bool) returns (steps: seq<Step>)
    requires Invariant(s, lease, handle)
    ensures Schedule(s, steps)
    ensures var after := After(s, steps); after.calls == map[] && AllReleased(after) && after.handleLeaks == s.handleLeaks
    decreases Living(s)
  {
    hide Invariant, Schedule, After, Enabled, Next;
    steps := FinishCalls(s, lease, handle);
    var quiet := After(s, steps);
    RunKeeps(s, steps, lease, handle);
    if Living(s) != {} {
      var v :| v in Living(s);
      var next := ReleaseOne(quiet, v, lease, handle);
      AfterBoth(s, steps, [BeginRelease(0, v)]);
      var rest := ReleaseAll(next, lease, handle);
      AfterBoth(s, steps + [BeginRelease(0, v)], rest);
      steps := steps + [BeginRelease(0, v)] + rest;
    } else {
      assert forall v :: v in s.views && !s.views[v].released ==> v in Living(s);
    }
  }

  lemma ReleaseOne(s: State, v: nat, lease: bool, handle: bool) returns (next: State)
    requires Invariant(s, lease, handle) && s.calls == map[] && v in Living(s)
    ensures Schedule(s, [BeginRelease(0, v)]) && After(s, [BeginRelease(0, v)]) == next
    ensures Invariant(next, lease, handle) && next.handleLeaks == s.handleLeaks && Living(next) < Living(s)
  {
    hide Invariant;
    var step := BeginRelease(0, v);
    OneStep(s, step);
    NextKeeps(s, step, lease, handle);
    next := Next(s, step);
    assert Living(next) == Living(s) - {v};
  }

  /**
   Nothing is stuck: from wherever a schedule has led, the views can be released and the calls
   finished so that the lease has been released exactly once, and the handle has been closed exactly
   once unless the release of the lease had already raised.
   */
  lemma CanBeFreed(lease: bool, handle: bool, steps: seq<Step>) returns (more: seq<Step>)
    requires Schedule(Init(lease, handle), steps)
    ensures Schedule(Init(lease, handle), steps + more)
    ensures var s := After(Init(lease, handle), steps + more);
            && s.calls == map[] && AllReleased(s) && s.leaseReleases == One(lease)
            && s.handleCloses == One(handle && !LeaseRaised(Init(lease, handle), steps))
  {
    hide Invariant, Enabled, Next, LeaseRaises;
    var init := Init(lease, handle);
    InitInvariant(lease, handle);
    RunKeeps(init, steps, lease, handle);
    LeaksExactly(init, steps, lease, handle);
    more := ReleaseAll(After(init, steps), lease, handle);
    AfterBoth(init, steps, more);
    RunKeeps(init, steps + more, lease, handle);
    AllFreed(After(init, steps + more), lease, handle);
  }

  lemma AllFreed(s: State, lease: bool, handle: bool)
    requires Invariant(s, lease, handle) && s.calls == map[] && AllReleased(s)
    ensures s.leaseReleases == One(lease) && s.handleCloses + s.handleLeaks == One(handle)
  {
    NoneWhere(s.calls, Counted);
    NoneWhere(s.calls, FreesLease);
    NoneWhere(s.calls, FreesHandle);
    NoneWhere(s.views, Attached);
  }
}
