/**
 Opening, rolling back and closing the sessions, resources and applications of one run.

 Every call into a provider can return, raise an Exception, or raise something that is not an
 Exception (an interrupt).  What the calls up to the end of a rollback answer is given for every
 provider; later answers make no difference, or are chosen freely.  A provider without an open or
 close method behaves as one whose method returns.
 */
module IntegrationLifecycle {
  import opened Wrappers

  datatype Outcome = Returned | Raised | Interrupted

  // Sessions and resources: opening, announcing that it is ready, and closing during a rollback.
  datatype ProviderAnswers = ProviderAnswers(open: nat -> Outcome, announce: nat -> Outcome, undo: nat -> Outcome)

  // Applications: preparing the context, configuring, starting, announcing, stopping during a rollback.
  datatype ApplicationAnswers = ApplicationAnswers(
    prepare: nat -> Outcome, configure: nat -> Outcome, start: nat -> Outcome, announce: nat -> Outcome, undo: nat -> Outcome)

  datatype Group = Sessions | Resources | Applications

  // What reached provider i of a group: it was opened (an application: its configuration was
  // attempted), or it was told to close (an application: to stop).
  datatype Event = Begun(group: Group, provider: nat) | Ended(group: Group, provider: nat)

  // ---------------------------------------------------------------- what the answers amount to

  function FirstFailure(a: Outcome, b: Outcome): Outcome
  {
    if a.Returned? then b else a
  }

  // The answers of a group.
  datatype Behaviour = OfProviders(p: ProviderAnswers) | OfApplications(a: ApplicationAnswers) {
    // Provider i counts as begun once it is tried; an application does even when configuring it failed.
    predicate Begins(i: nat) {
      OfProviders? ==> p.open(i).Returned?
    }

    // Trying provider i leaves it marked as open.
    predicate Marks(i: nat) {
      if OfProviders? then p.open(i).Returned? else FirstFailure(a.prepare(i), a.configure(i)).Returned?
    }

    // How trying provider i ends.
    function Tried(i: nat): Outcome {
      if OfProviders? then FirstFailure(p.open(i), p.announce(i))
      else FirstFailure(FirstFailure(a.prepare(i), a.configure(i)), FirstFailure(a.start(i), a.announce(i)))
    }

    // How ending provider i during a rollback ends.
    function Undo(i: nat): Outcome {
      if OfProviders? then p.undo(i) else a.undo(i)
    }
  }

  // How trying providers i to n - 1 in order ends.
  function Verdict(b: Behaviour, n: nat, i: nat): Outcome
    decreases n - i
  {
    if i >= n then Returned else if b.Tried(i).Returned? then Verdict(b, n, i + 1) else b.Tried(i)
  }

  // How many have begun then, those before i included.
  function Reached(b: Behaviour, n: nat, i: nat): nat
    decreases n - i
  {
    if i >= n then i
    else if b.Tried(i).Returned? then Reached(b, n, i + 1)
    else if b.Begins(i) then i + 1 else i
  }

  // The provider at which a rollback of the first k is interrupted.
  function Stuck(b: Behaviour, k: nat): Option<nat>
  {
    if k == 0 then None else if b.Undo(k - 1).Interrupted? then Some(k - 1) else Stuck(b, k - 1)
  }

  // How far a group gets: how many begin, where its rollback is interrupted, and whether the
  // provider there is still marked as open.
  datatype Course = Course(reached: nat, stuck: Option<nat>, again: bool)

  const NotTried := Course(0, None, false)

  function CourseOf(b: Behaviour, n: nat): Course
  {
    if Verdict(b, n, 0).Returned? then Course(n, None, false)
    else
      var k := Reached(b, n, 0);
      match Stuck(b, k)
      case None => Course(k, None, false)
      case Some(j) => Course(k, Some(j), b.Marks(j))
  }

  // What trying the group raises; an interrupted rollback replaces the first failure.
  function ResultOf(b: Behaviour, n: nat): Outcome
  {
    if CourseOf(b, n).stuck.Some? then Interrupted else Verdict(b, n, 0)
  }

  // How many are marked as open after the group was tried.
  function StillOpen(result: Outcome, course: Course): nat
  {
    if result.Returned? then course.reached
    else match course.stuck
      case None => 0
      case Some(j) => if course.again then j + 1 else j
  }

  lemma {:induction false} ReachedWithin(b: Behaviour, n: nat, i: nat)
    requires i <= n
    ensures i <= Reached(b, n, i) <= n
    decreases n - i
  {
    if i < n && b.Tried(i).Returned? {
      ReachedWithin(b, n, i + 1);
    }
  }

  lemma {:induction false} StuckBelow(b: Behaviour, k: nat)
    ensures Stuck(b, k).Some? ==> Stuck(b, k).value < k && b.Undo(Stuck(b, k).value).Interrupted?
    ensures forall j :: (if Stuck(b, k).Some? then Stuck(b, k).value + 1 else 0) <= j < k ==> !b.Undo(j).Interrupted?
  {
    if k > 0 {
      StuckBelow(b, k - 1);
    }
  }

  // Where a failed attempt ends: its rollback is completed, or interrupted at a provider that
  // stays open if it is marked.
  lemma FailedCourse(b: Behaviour, n: nat)
    requires !Verdict(b, n, 0).Returned?
    ensures var stuck := Stuck(b, Reached(b, n, 0));
            && CourseOf(b, n) == Course(Reached(b, n, 0), stuck, stuck.Some? && b.Marks(stuck.value))
            && ResultOf(b, n) == (if stuck.Some? then Interrupted else Verdict(b, n, 0))
            && StillOpen(ResultOf(b, n), CourseOf(b, n)) ==
               (if stuck.None? then 0 else if b.Marks(stuck.value) then stuck.value + 1 else stuck.value)
            && (stuck.Some? ==> stuck.value < Reached(b, n, 0))
  {
    StuckBelow(b, Reached(b, n, 0));
  }

  lemma {:induction false} VerdictExactly(b: Behaviour, n: nat, i: nat)
    requires i <= n
    ensures Verdict(b, n, i).Returned? <==> forall k :: i <= k < n ==> b.Tried(k).Returned?
    decreases n - i
  {
    if i < n {
      VerdictExactly(b, n, i + 1);
    }
  }

  lemma ResultExactly(b: Behaviour, n: nat)
    ensures ResultOf(b, n).Returned? <==> forall k :: 0 <= k < n ==> b.Tried(k).Returned?
  {
    VerdictExactly(b, n, 0);
  }

  /** Opening succeeds exactly when every provider opens and every announcement is made. */
  lemma OpensExactly(p: ProviderAnswers, n: nat)
    ensures ResultOf(OfProviders(p), n).Returned? <==>
            forall i :: 0 <= i < n ==> p.open(i).Returned? && p.announce(i).Returned?
  {
    hide ResultOf;
    ResultExactly(OfProviders(p), n);
    assert forall i :: 0 <= i < n ==>
      (OfProviders(p).Tried(i).Returned? <==> p.open(i).Returned? && p.announce(i).Returned?);
  }

  /** Starting succeeds exactly when every application is prepared, configured, started and announced. */
  lemma StartsExactly(a: ApplicationAnswers, n: nat)
    ensures ResultOf(OfApplications(a), n).Returned? <==>
            forall i :: 0 <= i < n ==>
              a.prepare(i).Returned? && a.configure(i).Returned? && a.start(i).Returned? && a.announce(i).Returned?
  {
    hide ResultOf;
    ResultExactly(OfApplications(a), n);
    assert forall i :: 0 <= i < n ==>
      (OfApplications(a).Tried(i).Returned? <==>
       a.prepare(i).Returned? && a.configure(i).Returned? && a.start(i).Returned? && a.announce(i).Returned?);
  }

  // ---------------------------------------------------------------- the log

  // The first k providers in order.
  function Up(group: Group, k: nat): seq<Event>
  {
    if k == 0 then [] else Up(group, k - 1) + [Begun(group, k - 1)]
  }

  // Providers hi - 1 down to lo.
  function Down(group: Group, hi: nat, lo: nat): seq<Event>
    decreases hi - lo
  {
    if hi <= lo then [] else Down(group, hi, lo + 1) + [Ended(group, lo)]
  }

  ghost predicate FirstOnly(flags: seq<bool>, k: nat)
  {
    forall i :: 0 <= i < |flags| ==> (flags[i] <==> i < k)
  }

  // Trying a group: all of it, or some of it and a rollback.
  function Attempted(group: Group, result: Outcome, course: Course): seq<Event>
  {
    Up(group, course.reached) +
    if result.Returned? then []
    else match course.stuck
      case None => Down(group, course.reached, 0)
      case Some(j) => Down(group, course.reached, j)
  }

  // The end of a group over the whole run: in reverse order, once each but for a provider that
  // interrupted the rollback and was still marked as open.
  function Tail(group: Group, course: Course): seq<Event>
  {
    match course.stuck
    case None => Down(group, course.reached, 0)
    case Some(j) => Down(group, course.reached, j) + Down(group, if course.again then j + 1 else j, 0)
  }

  datatype Courses = Courses(sessions: Course, resources: Course, applications: Course)

  // A group is tried only when the ones before it succeeded.
  function CoursesOf(s: Behaviour, sessions: nat, r: Behaviour, resources: nat, a: Behaviour, applications: nat): Courses
  {
    if !ResultOf(s, sessions).Returned? then Courses(CourseOf(s, sessions), NotTried, NotTried)
    else if !ResultOf(r, resources).Returned? then Courses(CourseOf(s, sessions), CourseOf(r, resources), NotTried)
    else Courses(CourseOf(s, sessions), CourseOf(r, resources), CourseOf(a, applications))
  }

  // Everything that happened in a run, in order: what was begun last ends first.
  function RunLog(c: Courses): seq<Event>
  {
    Up(Sessions, c.sessions.reached) + Up(Resources, c.resources.reached) + Up(Applications, c.applications.reached)
    + Tail(Applications, c.applications) + Tail(Resources, c.resources) + Tail(Sessions, c.sessions)
  }

  function Count(log: seq<Event>, event: Event): nat
  {
    if log == [] then 0 else Count(log[..|log| - 1], event) + (if log[|log| - 1] == event then 1 else 0)
  }

  // The calls of one run, shared by its groups.
  class Journal {
    var log: seq<Event>

    constructor ()
      ensures log == []
    {
      log := [];
    }
  }

  // ---------------------------------------------------------------- sessions and resources

  // The loaded instances of a group in configuration order, with their flags.
  class ProviderGroup {
    const group: Group
    const journal: Journal
    const answers: ProviderAnswers
    var isOpen: seq<bool>

    constructor (group: Group, journal: Journal, answers: ProviderAnswers, size: nat)
      ensures this.group == group && this.journal == journal && this.answers == answers
      ensures |isOpen| == size && FirstOnly(isOpen, 0)
    {
      this.group, this.journal, this.answers := group, journal, answers;
      isOpen := seq(size, _ => false);
    }

    method Open() returns (result: Outcome)
      requires FirstOnly(isOpen, 0)
      modifies this, journal
      ensures |isOpen| == old(|isOpen|)
      ensures result == ResultOf(OfProviders(answers), |isOpen|)
      ensures journal.log == old(journal.log) + Attempted(group, result, CourseOf(OfProviders(answers), |isOpen|))
      ensures FirstOnly(isOpen, StillOpen(result, CourseOf(OfProviders(answers), |isOpen|)))
    {
      ghost var b, n := OfProviders(answers), |isOpen|;
      result := Returned;
      var i := 0;
      while i < |isOpen|
        invariant 0 <= i <= |isOpen| == n && result.Returned?
        invariant Verdict(b, n, 0) == Verdict(b, n, i) && Reached(b, n, 0) == Reached(b, n, i)
        invariant journal.log == old(journal.log) + Up(group, i) && FirstOnly(isOpen, i)
        invariant forall k :: 0 <= k < i ==> b.Marks(k)
      {
        result := answers.open(i);
        if !result.Returned? {
          break;
        }
        isOpen := isOpen[i := true];
        journal.log := journal.log + [Begun(group, i)];
        // The event that announces it can fail too.
        result := answers.announce(i);
        i := i + 1;
        if !result.Returned? {
          break;
        }
      }
      if !result.Returned? {
        FailedCourse(b, n);
        hide CourseOf, ResultOf, Verdict, Reached;
        var interrupted := Rollback(i);
        if interrupted.Some? {
          result := Interrupted;
        }
      }
    }

    // An Exception of a close is dropped; an interrupt leaves the rollback with the flag still set.
    method Rollback(reached: nat) returns (stuck: Option<nat>)
      requires reached <= |isOpen| && FirstOnly(isOpen, reached)
      modifies this, journal
      ensures |isOpen| == old(|isOpen|) && stuck == Stuck(OfProviders(answers), reached)
      ensures journal.log == old(journal.log) + Down(group, reached, if stuck.Some? then stuck.value else 0)
      ensures FirstOnly(isOpen, if stuck.Some? then stuck.value + 1 else 0)
    {
      var j := reached;
      while j > 0
        invariant 0 <= j <= reached <= |isOpen| == old(|isOpen|)
        invariant Stuck(OfProviders(answers), reached) == Stuck(OfProviders(answers), j)
        invariant journal.log == old(journal.log) + Down(group, reached, j) && FirstOnly(isOpen, j)
      {
        journal.log := journal.log + [Ended(group, j - 1)];
        if answers.undo(j - 1).Interrupted? {
          return Some(j - 1);
        }
        isOpen := isOpen[j - 1 := false];
        j := j - 1;
      }
      return None;
    }

    // Whatever a close raises is recorded, and the next one follows.
    method Close(ghost k: nat)
      requires FirstOnly(isOpen, k) && k <= |isOpen|
      modifies this, journal
      ensures |isOpen| == old(|isOpen|) && FirstOnly(isOpen, 0)
      ensures journal.log == old(journal.log) + Down(group, k, 0)
    {
      var j := |isOpen|;
      while j > 0
        invariant 0 <= j <= |isOpen| == old(|isOpen|)
        invariant FirstOnly(isOpen, if j < k then j else k)
        invariant journal.log == old(journal.log) + Down(group, k, if j < k then j else k)
      {
        j := j - 1;
        if isOpen[j] {
          journal.log := journal.log + [Ended(group, j)];
          isOpen := isOpen[j := false];
        }
      }
    }
  }

  // ---------------------------------------------------------------- applications

  // What polling an application comes to: it runs, it has completed and announcing that ended as
  // given, or the poll raises or reports a failure.
  datatype Poll = Running | Completed(announced: Outcome) | Unhealthy {
    predicate Breaks() {
      Unhealthy? || (Completed? && !announced.Returned?)
    }
  }

  // What polling gives in one round, by application.
  type Round = nat -> Poll

  // Some application before number n that still runs fails in the round.
  ghost predicate Fails(round: Round, completed: seq<bool>, n: nat)
  {
    exists i :: 0 <= i < n && i < |completed| && !completed[i] && round(i).Breaks()
  }

  // A round marks what completes, up to the application that fails.
  ghost predicate Polled(round: Round, before: seq<bool>, after: seq<bool>, k: nat)
  {
    && |before| == |after|
    && forall i :: 0 <= i < |after| ==>
         (after[i] <==> before[i] || (i < k && round(i).Completed? && !Fails(round, before, i)))
  }

  class ApplicationGroup {
    const journal: Journal
    const answers: ApplicationAnswers
    var configured: seq<bool>
    var started: seq<bool>
    var completed: seq<bool>

    ghost predicate Sized(n: nat)
      reads this
    {
      |configured| == |started| == |completed| == n
    }

    // What is started is configured.
    ghost predicate Backed()
      reads this
    {
      |configured| == |started| && forall i :: 0 <= i < |started| && started[i] ==> configured[i]
    }

    // Between start and stop: the first k are configured, and each of them runs or has completed.
    ghost predicate Live(k: nat)
      reads this
    {
      && |configured| == |started| == |completed|
      && FirstOnly(configured, k)
      && forall i :: 0 <= i < |started| ==> (started[i] <==> i < k && !completed[i])
    }

    lemma LiveIsBacked(k: nat)
      requires Live(k)
      ensures Backed()
    {
    }

    constructor (journal: Journal, answers: ApplicationAnswers, size: nat)
      ensures this.journal == journal && this.answers == answers
      ensures Sized(size) && Live(0) && FirstOnly(completed, 0)
    {
      this.journal, this.answers := journal, answers;
      configured, started, completed := seq(size, _ => false), seq(size, _ => false), seq(size, _ => false);
    }

    method Start() returns (result: Outcome)
      requires Live(0) && FirstOnly(completed, 0)
      modifies this, journal
      ensures Sized(old(|configured|)) && Backed() && completed == old(completed)
      ensures result == ResultOf(OfApplications(answers), |configured|)
      ensures journal.log == old(journal.log)
                             + Attempted(Applications, result, CourseOf(OfApplications(answers), |configured|))
      ensures FirstOnly(configured, StillOpen(result, CourseOf(OfApplications(answers), |configured|)))
      ensures result.Returned? ==> Live(|configured|)
    {
      ghost var b, n := OfApplications(answers), |configured|;
      var reached;
      result, reached := StartEach();
      if !result.Returned? {
        FailedCourse(b, n);
        hide CourseOf, ResultOf, Verdict, Reached;
        var interrupted := Rollback(reached);
        if interrupted.Some? {
          result := Interrupted;
        }
      }
    }

    // One application after the other, until one fails; that one is rolled back too.
    method StartEach() returns (result: Outcome, reached: nat)
      requires Live(0) && FirstOnly(completed, 0)
      modifies this, journal
      ensures Sized(old(|configured|)) && Backed() && completed == old(completed)
      ensures result == Verdict(OfApplications(answers), |configured|, 0)
      ensures reached == Reached(OfApplications(answers), |configured|, 0) <= |configured|
      ensures journal.log == old(journal.log) + Up(Applications, reached)
      ensures result.Returned? ==> reached == |configured| && Live(reached)
      ensures !result.Returned? ==>
                && reached > 0 && (forall i :: 0 <= i < reached - 1 ==> OfApplications(answers).Marks(i))
                && FirstOnly(configured, if OfApplications(answers).Marks(reached - 1) then reached else reached - 1)
    {
      ghost var b, n := OfApplications(answers), |configured|;
      result, reached := Returned, 0;
      while reached < |configured|
        invariant 0 <= reached <= |configured| && Sized(n) && result.Returned?
        invariant Verdict(b, n, 0) == Verdict(b, n, reached) && Reached(b, n, 0) == Reached(b, n, reached)
        invariant forall k :: 0 <= k < reached ==> b.Marks(k)
        invariant journal.log == old(journal.log) + Up(Applications, reached)
        invariant Live(reached) && FirstOnly(completed, 0) && completed == old(completed)
      {
        journal.log := journal.log + [Begun(Applications, reached)];
        result := Launch(reached);
        reached := reached + 1;
        if !result.Returned? {
          return;
        }
      }
    }

    // One application up to its announcement; each flag is set when its call has returned.
    method Launch(i: nat) returns (result: Outcome)
      requires i < |configured| && Live(i)
      modifies this
      ensures Sized(old(|configured|)) && Backed() && completed == old(completed)
      ensures result == OfApplications(answers).Tried(i)
      ensures FirstOnly(configured, if OfApplications(answers).Marks(i) then i + 1 else i)
      ensures result.Returned? && !completed[i] ==> Live(i + 1)
    {
      result := answers.prepare(i);
      if !result.Returned? {
        return;
      }
      result := answers.configure(i);
      if !result.Returned? {
        return;
      }
      configured := configured[i := true];
      result := answers.start(i);
      if !result.Returned? {
        return;
      }
      started := started[i := true];
      result := answers.announce(i);
    }

    method Rollback(reached: nat) returns (stuck: Option<nat>)
      requires Sized(|configured|) && Backed() && 0 < reached <= |configured|
      requires forall i :: 0 <= i < reached - 1 ==> OfApplications(answers).Marks(i)
      requires FirstOnly(configured, if OfApplications(answers).Marks(reached - 1) then reached else reached - 1)
      modifies this, journal
      ensures Sized(old(|configured|)) && Backed() && completed == old(completed)
      ensures stuck == Stuck(OfApplications(answers), reached)
      ensures journal.log == old(journal.log) + Down(Applications, reached, if stuck.Some? then stuck.value else 0)
      ensures stuck.None? ==> FirstOnly(configured, 0)
      ensures stuck.Some? ==>
                FirstOnly(configured, if OfApplications(answers).Marks(stuck.value) then stuck.value + 1 else stuck.value)
    {
      var j := reached;
      while j > 0
        invariant 0 <= j <= reached <= |configured| && Sized(old(|configured|)) && Backed()
        invariant Stuck(OfApplications(answers), reached) == Stuck(OfApplications(answers), j)
        invariant journal.log == old(journal.log) + Down(Applications, reached, j)
        invariant completed == old(completed)
        invariant FirstOnly(configured, if j > 0 && !OfApplications(answers).Marks(j - 1) then j - 1 else j)
      {
        journal.log := journal.log + [Ended(Applications, j - 1)];
        if answers.undo(j - 1).Interrupted? {
          return Some(j - 1);
        }
        started := started[j - 1 := false];
        configured := configured[j - 1 := false];
        j := j - 1;
      }
      return None;
    }

    /**
     One round of polls.  A failing application, or a failing announcement that one completed,
     ends the round as inactive; otherwise the answer is whether some application still runs.
     Completed applications stay configured.
     */
    method Active(round: Round, ghost k: nat) returns (active: bool, failed: bool)
      requires Live(k) && k <= |configured|
      modifies this
      ensures Sized(old(|configured|)) && Live(k)
      ensures failed <==> Fails(round, old(completed), k)
      ensures Polled(round, old(completed), completed, k)
      ensures active <==> !failed && exists i :: 0 <= i < k && !completed[i]
    {
      active, failed := false, false;
      ghost var before := completed;
      var i := 0;
      while i < |started|
        invariant 0 <= i <= |started| && Sized(old(|configured|)) && Live(k)
        invariant !Fails(round, before, if i < k then i else k)
        invariant forall j :: 0 <= j < |completed| ==>
                    (completed[j] <==> before[j] || (j < i && j < k && round(j).Completed?))
        invariant active <==> exists j :: 0 <= j < i && j < k && !completed[j]
      {
        if started[i] && !completed[i] {
          var poll := round(i);
          match poll {
            case Unhealthy => return false, true;
            case Running => active := true;
            case Completed(announced) =>
              ghost var was := completed;
              completed := completed[i := true];
              started := started[i := false];
              if !announced.Returned? {
                return false, true;
              }
              assert forall j :: 0 <= j < i ==> completed[j] == was[j];
          }
        }
        i := i + 1;
      }
    }

    method Stop(ghost k: nat)
      requires Sized(|configured|) && Backed() && FirstOnly(configured, k) && k <= |configured|
      modifies this, journal
      ensures Sized(old(|configured|)) && FirstOnly(configured, 0) && FirstOnly(started, 0)
      ensures journal.log == old(journal.log) + Down(Applications, k, 0)
    {
      var j := |configured|;
      while j > 0
        invariant 0 <= j <= |configured| && Sized(old(|configured|)) && Backed()
        invariant FirstOnly(configured, if j < k then j else k)
        invariant journal.log == old(journal.log) + Down(Applications, k, if j < k then j else k)
      {
        j := j - 1;
        if configured[j] {
          journal.log := journal.log + [Ended(Applications, j)];
          started := started[j := false];
          configured := configured[j := false];
        }
      }
    }
  }

  // ---------------------------------------------------------------- one run

  lemma CourseWithin(b: Behaviour, n: nat)
    ensures var c := CourseOf(b, n);
            && c.reached <= n && (c.stuck.Some? ==> c.stuck.value < c.reached)
            && (ResultOf(b, n).Returned? ==> c == Course(n, None, false))
            && StillOpen(ResultOf(b, n), c) <= n
  {
    ReachedWithin(b, n, 0);
    StuckBelow(b, Reached(b, n, 0));
  }

  // Whatever came of trying a group, closing what is still open completes its tail.
  lemma AttemptedThenClosed(group: Group, b: Behaviour, n: nat)
    ensures var result, course := ResultOf(b, n), CourseOf(b, n);
            Attempted(group, result, course) + Down(group, StillOpen(result, course), 0)
            == Up(group, course.reached) + Tail(group, course)
  {
    hide Up;
    CourseWithin(b, n);
    assert Down(group, 0, 0) == [];
  }

  // Closing what is open, applications first, completes the log of the run.
  ghost predicate Due(log: seq<Event>, c: Courses, open: (nat, nat, nat))
  {
    log + Down(Applications, open.2, 0) + Down(Resources, open.1, 0) + Down(Sessions, open.0, 0) == RunLog(c)
  }

  lemma SessionsTried(log: seq<Event>, b: Behaviour, n: nat)
    requires log == Attempted(Sessions, ResultOf(b, n), CourseOf(b, n))
    ensures Due(log, Courses(CourseOf(b, n), NotTried, NotTried), (StillOpen(ResultOf(b, n), CourseOf(b, n)), 0, 0))
  {
    hide Attempted, CourseOf, ResultOf;
    AttemptedThenClosed(Sessions, b, n);
    var up, tail := Up(Sessions, CourseOf(b, n).reached), Tail(Sessions, CourseOf(b, n));
    assert up + [] + [] + [] + [] + tail == up + tail;
    assert log + [] + [] == log;
  }

  lemma ResourcesTried(log: seq<Event>, sessions: nat, b: Behaviour, n: nat)
    requires log == Up(Sessions, sessions) + Attempted(Resources, ResultOf(b, n), CourseOf(b, n))
    ensures Due(log, Courses(Course(sessions, None, false), CourseOf(b, n), NotTried),
                (sessions, StillOpen(ResultOf(b, n), CourseOf(b, n)), 0))
  {
    hide Attempted, CourseOf, ResultOf;
    AttemptedThenClosed(Resources, b, n);
    var up, tail := Up(Resources, CourseOf(b, n).reached), Tail(Resources, CourseOf(b, n));
    Regroup(Up(Sessions, sessions), Attempted(Resources, ResultOf(b, n), CourseOf(b, n)),
            Down(Resources, StillOpen(ResultOf(b, n), CourseOf(b, n)), 0), up, tail);
    assert log + [] == log && Up(Sessions, sessions) + up + [] + [] == Up(Sessions, sessions) + up;
  }

  lemma ApplicationsTried(log: seq<Event>, sessions: nat, resources: nat, b: Behaviour, n: nat)
    requires log == Up(Sessions, sessions) + Up(Resources, resources) + Attempted(Applications, ResultOf(b, n), CourseOf(b, n))
    ensures Due(log, Courses(Course(sessions, None, false), Course(resources, None, false), CourseOf(b, n)),
                (sessions, resources, StillOpen(ResultOf(b, n), CourseOf(b, n))))
  {
    hide Attempted, CourseOf, ResultOf;
    AttemptedThenClosed(Applications, b, n);
    Regroup(Up(Sessions, sessions) + Up(Resources, resources), Attempted(Applications, ResultOf(b, n), CourseOf(b, n)),
            Down(Applications, StillOpen(ResultOf(b, n), CourseOf(b, n)), 0),
            Up(Applications, CourseOf(b, n).reached), Tail(Applications, CourseOf(b, n)));
  }

  lemma Regroup(front: seq<Event>, a: seq<Event>, b: seq<Event>, c: seq<Event>, d: seq<Event>)
    requires a + b == c + d
    ensures front + a + b == front + c + d
  {
    assert front + a + b == front + (a + b);
    assert front + c + d == front + (c + d);
  }

  ghost predicate OneRun(sessions: ProviderGroup, resources: ProviderGroup, applications: ApplicationGroup)
  {
    && sessions.group == Sessions && resources.group == Resources && sessions != resources
    && sessions.journal == resources.journal == applications.journal
  }

  // How far the groups of a run get, by what their providers answer.
  ghost function CoursesIn(sessions: ProviderGroup, resources: ProviderGroup, applications: ApplicationGroup): Courses
    reads sessions, resources, applications
  {
    CoursesOf(OfProviders(sessions.answers), |sessions.isOpen|, OfProviders(resources.answers), |resources.isOpen|,
              OfApplications(applications.answers), |applications.configured|)
  }

  ghost predicate Underway(sessions: ProviderGroup, resources: ProviderGroup, applications: ApplicationGroup, open: (nat, nat, nat))
    reads sessions, resources, applications, sessions.journal
  {
    && FirstOnly(sessions.isOpen, open.0) && open.0 <= |sessions.isOpen|
    && FirstOnly(resources.isOpen, open.1) && open.1 <= |resources.isOpen|
    && FirstOnly(applications.configured, open.2) && open.2 <= |applications.configured|
    && |applications.configured| == |applications.completed| && applications.Backed()
    && Due(sessions.journal.log, CoursesIn(sessions, resources, applications), open)
  }

  // Stops the applications, then closes the resources and the sessions.
  method CloseAll(sessions: ProviderGroup, resources: ProviderGroup, applications: ApplicationGroup, ghost open: (nat, nat, nat))
    requires OneRun(sessions, resources, applications) && Underway(sessions, resources, applications, open)
    modifies sessions, resources, applications, sessions.journal
    ensures Underway(sessions, resources, applications, (0, 0, 0)) && FirstOnly(applications.started, 0)
    ensures |sessions.isOpen| == old(|sessions.isOpen|) && |resources.isOpen| == old(|resources.isOpen|)
    ensures |applications.configured| == old(|applications.configured|)
  {
    hide RunLog, FirstOnly, CoursesOf;
    applications.Stop(open.2);
    resources.Close(open.1);
    sessions.Close(open.0);
    assert Down(Applications, 0, 0) == [] && Down(Resources, 0, 0) == [] && Down(Sessions, 0, 0) == [];
  }

  ghost predicate Fresh(sessions: ProviderGroup, resources: ProviderGroup, applications: ApplicationGroup)
    reads sessions, resources, applications, sessions.journal
  {
    && FirstOnly(sessions.isOpen, 0) && FirstOnly(resources.isOpen, 0)
    && applications.Live(0) && FirstOnly(applications.completed, 0) && sessions.journal.log == []
  }

  // All three groups began completely.
  ghost predicate AllBegan(sessions: ProviderGroup, resources: ProviderGroup, applications: ApplicationGroup)
    reads sessions, resources, applications
  {
    && ResultOf(OfProviders(sessions.answers), |sessions.isOpen|).Returned?
    && ResultOf(OfProviders(resources.answers), |resources.isOpen|).Returned?
    && ResultOf(OfApplications(applications.answers), |applications.configured|).Returned?
  }

  method Attempt(sessions: ProviderGroup, resources: ProviderGroup, applications: ApplicationGroup,
                 rounds: seq<Round>)
    returns (result: Outcome, failed: bool, ghost open: (nat, nat, nat))
    requires OneRun(sessions, resources, applications) && Fresh(sessions, resources, applications)
    modifies sessions, resources, applications, sessions.journal
    ensures Underway(sessions, resources, applications, open)
    ensures |sessions.isOpen| == old(|sessions.isOpen|) && |resources.isOpen| == old(|resources.isOpen|)
    ensures |applications.configured| == old(|applications.configured|)
    ensures result.Returned? ==> AllBegan(sessions, resources, applications)
    ensures result.Returned? ==>
              failed == RoundsFail(rounds, old(applications.completed), |applications.configured|)
  {
    failed := false;
    applications.LiveIsBacked(0);
    hide RunLog, FirstOnly, Due, Attempted, CourseOf, ResultOf, Verdict, RoundsFail;
    ghost var s, n := OfProviders(sessions.answers), |sessions.isOpen|;
    ghost var r, m := OfProviders(resources.answers), |resources.isOpen|;
    ghost var a, l := OfApplications(applications.answers), |applications.configured|;
    CourseWithin(s, n);
    CourseWithin(r, m);
    CourseWithin(a, l);
    result := sessions.Open();
    assert [] + Attempted(Sessions, result, CourseOf(s, n)) == Attempted(Sessions, result, CourseOf(s, n));
    SessionsTried(sessions.journal.log, s, n);
    open := (StillOpen(result, CourseOf(s, n)), 0, 0);
    if !result.Returned? {
      return;
    }
    AllOf(Sessions, n);
    result := resources.Open();
    ResourcesTried(sessions.journal.log, n, r, m);
    open := (n, StillOpen(result, CourseOf(r, m)), 0);
    if !result.Returned? {
      return;
    }
    AllOf(Resources, m);
    result := applications.Start();
    ApplicationsTried(sessions.journal.log, n, m, a, l);
    open := (n, m, StillOpen(result, CourseOf(a, l)));
    if result.Returned? {
      result, failed := Work(applications, rounds, l);
      applications.LiveIsBacked(l);
    }
  }

  lemma AllOf(group: Group, n: nat)
    ensures Attempted(group, Returned, Course(n, None, false)) == Up(group, n)
  {
  }

  /**
   A whole run, with the emergency cleanup that follows any failure.  However it goes: all open,
   configured and started flags end false, and what was begun has ended in exactly the reverse order, applications before
   resources before sessions; a failed opener is never closed.  What happens is determined by the
   answers of the providers.
   */
  method RunSync(sessions: ProviderGroup, resources: ProviderGroup, applications: ApplicationGroup,
                 rounds: seq<Round>)
    returns (result: Outcome)
    requires OneRun(sessions, resources, applications) && Fresh(sessions, resources, applications)
    modifies sessions, resources, applications, sessions.journal
    ensures FirstOnly(sessions.isOpen, 0) && FirstOnly(resources.isOpen, 0)
    ensures FirstOnly(applications.configured, 0) && FirstOnly(applications.started, 0)
    ensures |sessions.isOpen| == old(|sessions.isOpen|) && |resources.isOpen| == old(|resources.isOpen|)
    ensures |applications.configured| == old(|applications.configured|)
    ensures sessions.journal.log == RunLog(CoursesIn(sessions, resources, applications))
    ensures result.Returned? ==> AllBegan(sessions, resources, applications)
    ensures result.Returned? ==> !RoundsFail(rounds, old(applications.completed), |applications.configured|)
  {
    hide RunLog, CoursesOf, ResultOf, RoundsFail;
    ghost var open;
    var failed: bool;
    result, failed, open := Attempt(sessions, resources, applications, rounds);
    if result.Returned? {
      CloseAll(sessions, resources, applications, open);
      open := (0, 0, 0);
      // Writing the report can still fail, and a recorded failure is raised at the end.
      result := *;
      if failed {
        result := Raised;
      }
    }
    if !result.Returned? {
      CloseAll(sessions, resources, applications, open);
    }
    assert Down(Applications, 0, 0) == [] && Down(Resources, 0, 0) == [] && Down(Sessions, 0, 0) == [];
  }

  // Polling round after round, as long as something runs, meets a failure.
  ghost predicate RoundsFail(rounds: seq<Round>, completed: seq<bool>, k: nat)
    decreases |rounds|
  {
    rounds != [] &&
    (Fails(rounds[0], completed, k) ||
     exists after :: Polled(rounds[0], completed, after, k) && (exists i :: 0 <= i < k && i < |after| && !after[i])
                     && RoundsFail(rounds[1..], after, k))
  }

  method Work(applications: ApplicationGroup, rounds: seq<Round>, ghost k: nat) returns (result: Outcome, failed: bool)
    requires applications.Live(k) && k <= |applications.configured|
    modifies applications
    ensures applications.Sized(old(|applications.configured|)) && applications.Live(k)
    ensures failed == RoundsFail(rounds, old(applications.completed), k)
  {
    failed := false;
    for i := 0 to |rounds|
      invariant applications.Sized(old(|applications.configured|)) && applications.Live(k) && !failed
      invariant RoundsFail(rounds, old(applications.completed), k) == RoundsFail(rounds[i..], applications.completed, k)
    {
      ghost var before := applications.completed;
      var active;
      active, failed := applications.Active(rounds[i], k);
      NextRound(rounds[i..], before, applications.completed, k);
      assert rounds[i..][1..] == rounds[i + 1..];
      if !active {
        break;
      }
    }
    result := *;
  }

  lemma NextRound(rounds: seq<Round>, before: seq<bool>, after: seq<bool>, k: nat)
    requires rounds != [] && Polled(rounds[0], before, after, k)
    ensures RoundsFail(rounds, before, k) <==>
            Fails(rounds[0], before, k) ||
            ((exists i :: 0 <= i < k && i < |after| && !after[i]) && RoundsFail(rounds[1..], after, k))
  {
    forall other | Polled(rounds[0], before, other, k)
      ensures other == after
    {
      assert forall i :: 0 <= i < |after| ==> other[i] == after[i];
    }
  }

  // ---------------------------------------------------------------- what the log means

  lemma {:induction false} CountConcat(a: seq<Event>, b: seq<Event>, event: Event)
    ensures Count(a + b, event) == Count(a, event) + Count(b, event)
  {
    if b == [] {
      assert a + b == a;
    } else {
      assert (a + b)[..|a + b| - 1] == a + b[..|b| - 1];
      CountConcat(a, b[..|b| - 1], event);
    }
  }

  lemma {:induction false} UpCount(group: Group, k: nat, event: Event)
    ensures Count(Up(group, k), event) == if event.Begun? && event.group == group && event.provider < k then 1 else 0
  {
    if k > 0 {
      UpCount(group, k - 1, event);
      assert Up(group, k)[..|Up(group, k)| - 1] == Up(group, k - 1);
    }
  }

  lemma {:induction false} DownCount(group: Group, hi: nat, lo: nat, event: Event)
    ensures Count(Down(group, hi, lo), event) ==
            if event.Ended? && event.group == group && lo <= event.provider < hi then 1 else 0
    decreases hi - lo
  {
    if lo < hi {
      DownCount(group, hi, lo + 1, event);
      assert Down(group, hi, lo)[..|Down(group, hi, lo)| - 1] == Down(group, hi, lo + 1);
    }
  }

  // How often a provider is told to end over the whole run.
  function Ends(course: Course, i: nat): nat
  {
    if i >= course.reached then 0 else if course.again && course.stuck == Some(i) then 2 else 1
  }

  lemma TailCount(group: Group, course: Course, event: Event)
    requires course.stuck.Some? ==> course.stuck.value < course.reached
    ensures Count(Tail(group, course), event) ==
            if event.Ended? && event.group == group then Ends(course, event.provider) else 0
  {
    hide Down, Count;
    match course.stuck
    case None => DownCount(group, course.reached, 0, event);
    case Some(j) =>
      var last := if course.again then j + 1 else j;
      DownCount(group, course.reached, j, event);
      DownCount(group, last, 0, event);
      CountConcat(Down(group, course.reached, j), Down(group, last, 0), event);
  }

  ghost predicate WellFormed(c: Courses)
  {
    && (c.sessions.stuck.Some? ==> c.sessions.stuck.value < c.sessions.reached)
    && (c.resources.stuck.Some? ==> c.resources.stuck.value < c.resources.reached)
    && (c.applications.stuck.Some? ==> c.applications.stuck.value < c.applications.reached)
  }

  lemma RunLogCount(c: Courses, event: Event)
    ensures Count(RunLog(c), event) ==
            Count(Up(Sessions, c.sessions.reached), event) + Count(Up(Resources, c.resources.reached), event)
            + Count(Up(Applications, c.applications.reached), event) + Count(Tail(Applications, c.applications), event)
            + Count(Tail(Resources, c.resources), event) + Count(Tail(Sessions, c.sessions), event)
  {
    hide Up, Tail, Count;
    var u, v, w := Up(Sessions, c.sessions.reached), Up(Resources, c.resources.reached), Up(Applications, c.applications.reached);
    var x, y, z := Tail(Applications, c.applications), Tail(Resources, c.resources), Tail(Sessions, c.sessions);
    CountConcat(u, v, event);
    CountConcat(u + v, w, event);
    CountConcat(u + v + w, x, event);
    CountConcat(u + v + w + x, y, event);
    CountConcat(u + v + w + x + y, z, event);
  }

  function CourseIn(c: Courses, group: Group): Course
  {
    match group
    case Sessions => c.sessions
    case Resources => c.resources
    case Applications => c.applications
  }

  lemma EventCount(c: Courses, event: Event)
    requires WellFormed(c)
    ensures var course := CourseIn(c, event.group);
            Count(RunLog(c), event) ==
            if event.Ended? then Ends(course, event.provider) else if event.provider < course.reached then 1 else 0
  {
    hide RunLog, Up, Tail, Count, Ends;
    RunLogCount(c, event);
    UpCount(Sessions, c.sessions.reached, event);
    UpCount(Resources, c.resources.reached, event);
    UpCount(Applications, c.applications.reached, event);
    TailCount(Sessions, c.sessions, event);
    TailCount(Resources, c.resources, event);
    TailCount(Applications, c.applications, event);
  }

  // The rollback of a group gets as far as provider i, and ending it there raises an interrupt.
  ghost predicate InterruptsRollback(b: Behaviour, n: nat, i: nat)
  {
    && !Verdict(b, n, 0).Returned? && i < Reached(b, n, 0) && b.Undo(i).Interrupted?
    && forall j :: i < j < Reached(b, n, 0) ==> !b.Undo(j).Interrupted?
  }

  lemma StuckExactly(b: Behaviour, n: nat, i: nat)
    ensures CourseOf(b, n).stuck == Some(i) <==> InterruptsRollback(b, n, i)
  {
    StuckBelow(b, Reached(b, n, 0));
  }

  /**
   A provider that was begun ends twice exactly when ending it interrupted the rollback of its
   group while it was marked as open; otherwise it ends exactly once, and what was not begun
   never ends.
   */
  lemma EndsExactly(b: Behaviour, n: nat, i: nat)
    ensures Ends(CourseOf(b, n), i) ==
            if i >= CourseOf(b, n).reached then 0 else if InterruptsRollback(b, n, i) && b.Marks(i) then 2 else 1
  {
    hide Reached, Stuck, Verdict, InterruptsRollback;
    StuckExactly(b, n, i);
  }

  // The group was tried at all.
  ghost predicate WasTried(s: Behaviour, sessions: nat, r: Behaviour, resources: nat, group: Group)
  {
    && (!group.Sessions? ==> ResultOf(s, sessions).Returned?)
    && (group.Applications? ==> ResultOf(r, resources).Returned?)
  }

  /**
   The log of a run: each provider that was begun ends once, or twice exactly when ending it
   interrupted the rollback of its group while it was marked as open.
   */
  lemma EndedOnceExactly(s: Behaviour, sessions: nat, r: Behaviour, resources: nat, a: Behaviour, applications: nat,
                         group: Group, i: nat)
    ensures var log := RunLog(CoursesOf(s, sessions, r, resources, a, applications));
            var b := if group.Sessions? then s else if group.Resources? then r else a;
            var n := if group.Sessions? then sessions else if group.Resources? then resources else applications;
            var begun := WasTried(s, sessions, r, resources, group) && i < CourseOf(b, n).reached;
            && Count(log, Begun(group, i)) == (if begun then 1 else 0)
            && Count(log, Ended(group, i)) ==
               (if !begun then 0 else if InterruptsRollback(b, n, i) && b.Marks(i) then 2 else 1)
  {
    hide RunLog, Count, Ends, CourseOf, InterruptsRollback;
    var c := CoursesOf(s, sessions, r, resources, a, applications);
    CourseWithin(s, sessions);
    CourseWithin(r, resources);
    CourseWithin(a, applications);
    EventCount(c, Begun(group, i));
    EventCount(c, Ended(group, i));
    EndsExactly(if group.Sessions? then s else if group.Resources? then r else a,
                if group.Sessions? then sessions else if group.Resources? then resources else applications, i);
    NotTriedNeverEnds(i);
  }

  lemma NotTriedNeverEnds(i: nat)
    ensures Ends(NotTried, i) == 0
  {
  }

  // The first session opens, the second raises, and closing is interrupted.
  const TwiceClosed :=
    ProviderAnswers((i: nat) => if i == 0 then Returned else Raised, (i: nat) => Returned, (i: nat) => Interrupted)

  /** Two sessions: the rollback of the second is interrupted while it closes the first, which is closed again. */
  lemma InterruptedCloseComesTwice(r: Behaviour, resources: nat, a: Behaviour, applications: nat)
    ensures var log := RunLog(CoursesOf(OfProviders(TwiceClosed), 2, r, resources, a, applications));
            Count(log, Begun(Sessions, 0)) == 1 && Count(log, Ended(Sessions, 0)) == 2
  {
    hide RunLog, Count, CoursesOf;
    var s := OfProviders(TwiceClosed);
    assert s.Tried(0).Returned? && s.Tried(1).Raised? && !s.Begins(1) && s.Undo(0).Interrupted? && s.Marks(0);
    assert Verdict(s, 2, 1) == Raised && Verdict(s, 2, 0) == Raised;
    assert Reached(s, 2, 1) == 1 && Reached(s, 2, 0) == 1 && CourseOf(s, 2).reached == 1;
    EndedOnceExactly(s, 2, r, resources, a, applications, Sessions, 0);
  }

  /** When no rollback is interrupted, everything that was begun ends exactly once. */
  lemma EndedOnce(s: Behaviour, sessions: nat, r: Behaviour, resources: nat, a: Behaviour, applications: nat,
                  group: Group, i: nat)
    requires forall j :: !s.Undo(j).Interrupted? && !r.Undo(j).Interrupted? && !a.Undo(j).Interrupted?
    ensures var log := RunLog(CoursesOf(s, sessions, r, resources, a, applications));
            Count(log, Ended(group, i)) == Count(log, Begun(group, i)) <= 1
  {
    hide RunLog, Count, CoursesOf, CourseOf;
    EndedOnceExactly(s, sessions, r, resources, a, applications, group, i);
  }

  // The same calls backwards, each provider ending instead of beginning.
  function Backwards(log: seq<Event>): seq<Event>
  {
    if log == [] then []
    else [Ended(log[|log| - 1].group, log[|log| - 1].provider)] + Backwards(log[..|log| - 1])
  }

  lemma {:induction false} BackwardsBoth(a: seq<Event>, b: seq<Event>)
    ensures Backwards(a + b) == Backwards(b) + Backwards(a)
  {
    if b == [] {
      assert a + b == a;
    } else {
      assert (a + b)[..|a + b| - 1] == a + b[..|b| - 1];
      BackwardsBoth(a, b[..|b| - 1]);
    }
  }

  lemma {:induction false} UpBackwards(group: Group, k: nat)
    ensures Backwards(Up(group, k)) == Down(group, k, 0)
  {
    if k > 0 {
      UpBackwards(group, k - 1);
      assert Up(group, k)[..|Up(group, k)| - 1] == Up(group, k - 1);
      DownFirst(group, k, 0);
    }
  }

  lemma {:induction false} DownFirst(group: Group, hi: nat, lo: nat)
    requires lo < hi
    ensures Down(group, hi, lo) == [Ended(group, hi - 1)] + Down(group, hi - 1, lo)
    decreases hi - lo
  {
    if lo + 1 < hi {
      DownFirst(group, hi, lo + 1);
    }
  }

  lemma {:induction false} UpAt(group: Group, k: nat, i: nat)
    requires i < k
    ensures |Up(group, k)| == k && Up(group, k)[i] == Begun(group, i)
  {
    if k > 1 {
      UpAt(group, k - 1, if i < k - 1 then i else 0);
    }
  }

  /**
   When no rollback is interrupted, a run begins its sessions, resources and applications in this
   order, those of a group one after the other, and ends them in exactly the opposite order.
   */
  lemma EndsInReverse(c: Courses)
    requires c.sessions.stuck.None? && c.resources.stuck.None? && c.applications.stuck.None?
    ensures var begun := Up(Sessions, c.sessions.reached) + Up(Resources, c.resources.reached) + Up(Applications, c.applications.reached);
            && RunLog(c) == begun + Backwards(begun)
            && |begun| == c.sessions.reached + c.resources.reached + c.applications.reached
            && (forall i :: 0 <= i < c.sessions.reached ==> begun[i] == Begun(Sessions, i))
            && (forall i :: 0 <= i < c.resources.reached ==> begun[c.sessions.reached + i] == Begun(Resources, i))
            && (forall i :: 0 <= i < c.applications.reached ==>
                  begun[c.sessions.reached + c.resources.reached + i] == Begun(Applications, i))
  {
    hide Up, Down, Backwards;
    var u, v, w := Up(Sessions, c.sessions.reached), Up(Resources, c.resources.reached), Up(Applications, c.applications.reached);
    BackwardsBoth(u + v, w);
    BackwardsBoth(u, v);
    UpBackwards(Sessions, c.sessions.reached);
    UpBackwards(Resources, c.resources.reached);
    UpBackwards(Applications, c.applications.reached);
    UpEach(Sessions, c.sessions.reached);
    UpEach(Resources, c.resources.reached);
    UpEach(Applications, c.applications.reached);
    Grouped(u + v + w, Down(Applications, c.applications.reached, 0), Down(Resources, c.resources.reached, 0),
            Down(Sessions, c.sessions.reached, 0));
  }

  lemma Grouped(a: seq<Event>, b: seq<Event>, c: seq<Event>, d: seq<Event>)
    ensures a + b + c + d == a + (b + (c + d))
  {
  }

  lemma UpEach(group: Group, k: nat)
    ensures |Up(group, k)| == k && forall i :: 0 <= i < k ==> Up(group, k)[i] == Begun(group, i)
  {
    hide Up;
    UpLength(group, k);
    forall i | 0 <= i < k
      ensures Up(group, k)[i] == Begun(group, i)
    {
      UpAt(group, k, i);
    }
  }

  lemma {:induction false} UpLength(group: Group, k: nat)
    ensures |Up(group, k)| == k
  {
    if k > 0 {
      UpLength(group, k - 1);
    }
  }

  /** What interrupts a rollback is the answer to closing, of an application to stopping. */
  lemma InterruptedBy(p: ProviderAnswers, a: ApplicationAnswers, n: nat, i: nat)
    ensures InterruptsRollback(OfProviders(p), n, i) ==> p.undo(i).Interrupted?
    ensures InterruptsRollback(OfApplications(a), n, i) ==> a.undo(i).Interrupted?
  {
  }

  /** Of a session or resource that was begun, the mark is always set; of an application, once configuring returned. */
  lemma MarkedWhen(p: ProviderAnswers, a: ApplicationAnswers, n: nat, i: nat)
    ensures i < CourseOf(OfProviders(p), n).reached ==> OfProviders(p).Marks(i)
    ensures OfApplications(a).Marks(i) <==> a.prepare(i).Returned? && a.configure(i).Returned?
  {
    ReachedBegins(OfProviders(p), n, 0, i);
  }

  lemma {:induction false} ReachedBegins(b: Behaviour, n: nat, from: nat, i: nat)
    ensures from <= i < Reached(b, n, from) ==> b.Begins(i)
    ensures from <= i < n && Verdict(b, n, from).Returned? ==> b.Begins(i)
    decreases n - from
  {
    if from < n && b.Tried(from).Returned? {
      ReachedBegins(b, n, from + 1, i);
    }
  }
}
