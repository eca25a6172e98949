/**
 Running a benchmark: polling one System run to its end, repeating it, and assembling the suite.

 Starting, inspecting, stopping and reopening a run are outside: what each gives is an input, request
 by request.  Making the orchestrator calls code from outside, which may clear the resolver's cache.
 */
module BenchmarkExecution {
  import opened Wrappers
  import opened Graph
  import opened BenchmarkWorkload

  // A reopened run: its own identity, and the System Plan it says it executed.
  datatype Bundle = Bundle(runId: string, planId: string)

  datatype VariantRuns = VariantRuns(variant: Variant, warmup: seq<Bundle>, measured: seq<Bundle>)

  // One request to the runner, with the bundle it was answered by.
  datatype Made = Made(variant: string, measured: bool, iteration: nat, bundle: Bundle)

  // What one request meets: whether an orchestrator is made, and the cache cleared meanwhile;
  // whether the System starts; how often it is still unfinished when inspected, and whether it is
  // then found finished; the run session, whether its record was written, and what reopening gives.
  datatype Environment = Environment(orchestrated: bool, clears: bool, started: bool, unfinished: nat, terminal: bool,
                                     session: Option<string>, recorded: bool, reopened: Option<Bundle>)

  // How a request for a System Plan ends: with the reopened run exactly when every step succeeds and
  // the identities agree, however often the run was inspected before it was finished.
  function Concluded(e: Environment, planId: string): (result: Result<Bundle, Failure>)
    ensures result.Ok? <==>
            && e.orchestrated && e.started && e.terminal && e.session.Some? && e.recorded && e.reopened.Some?
            && e.reopened.value.runId == e.session.value && e.reopened.value.planId == planId
    ensures result.Ok? ==> e.reopened == Some(result.value) && e.session == Some(result.value.runId)
    ensures result.Ok? ==> result.value.planId == planId
    ensures result.Err? ==> result.error !in {SuiteInput, VariantCount, AssemblyFailed}
  {
    if !e.orchestrated then Err(FactoryFailed)
    else if !e.started then Err(StartFailed)
    else if !e.terminal then Err(InspectionFailed)
    else if e.session.None? then Err(NoSession)
    else if !e.recorded then Err(NotRecorded)
    else if e.reopened.None? then Err(ReopenFailed)
    else if e.reopened.value.runId != e.session.value then Err(OtherRun)
    else if e.reopened.value.planId != planId then Err(OtherPlan)
    else Ok(e.reopened.value)
  }

  datatype Execution = Execution(recorded: seq<Recorded>, runs: seq<VariantRuns>)

  // ---------------------------------------------------------------- one run

  function Power(base: real, exponent: nat): real
  {
    if exponent == 0 then 1.0 else Power(base, exponent - 1) * base
  }

  function Min(a: real, b: real): real
  {
    if a <= b then a else b
  }

  function Longer(delay: real, maximum: real, multiplier: real): real
  {
    Min(maximum, delay * multiplier)
  }

  // The wait after inspection k.
  function Backoff(initial: real, maximum: real, multiplier: real, k: nat): real
  {
    Min(maximum, initial * Power(multiplier, k))
  }

  function Backoffs(initial: real, maximum: real, multiplier: real, n: nat): seq<real>
  {
    if n == 0 then [] else Backoffs(initial, maximum, multiplier, n - 1) + [Backoff(initial, maximum, multiplier, n - 1)]
  }

  // Capping after every step is the same as capping the exponential once.
  lemma NextBackoff(initial: real, maximum: real, multiplier: real, k: nat)
    requires 0.0 < initial <= maximum && multiplier >= 1.0
    ensures Longer(Backoff(initial, maximum, multiplier, k), maximum, multiplier) == Backoff(initial, maximum, multiplier, k + 1)
  {
    var grown := initial * Power(multiplier, k);
    assert initial * Power(multiplier, k + 1) == grown * multiplier;
    if grown <= maximum {
    } else {
      Scaled(maximum, grown, multiplier);
    }
  }

  lemma FirstBackoff(initial: real, maximum: real, multiplier: real)
    requires 0.0 < initial <= maximum
    ensures Backoff(initial, maximum, multiplier, 0) == initial
  {
  }

  lemma Scaled(a: real, b: real, m: real)
    requires 0.0 < a < b && m >= 1.0
    ensures a <= a * m < b * m
  {
  }

  class SystemRunner {
    const resolver: WorkloadResolver
    const environment: nat -> Environment
    const initial: real
    const maximum: real
    const multiplier: real
    // Requests that asked for a workload, executions started, those stopped because polling was cut
    // short, and every wait.
    var requests: nat
    var starts: nat
    var stops: nat
    var waits: seq<real>
    // Every request answered so far.
    var made: seq<Made>

    ghost predicate Valid()
      reads resolver
    {
      0.0 < initial <= maximum && multiplier >= 1.0 && resolver.Valid()
    }

    constructor (resolver: WorkloadResolver, environment: nat -> Environment, initial: real, maximum: real, multiplier: real)
      requires 0.0 < initial <= maximum && multiplier >= 1.0 && resolver.Valid()
      ensures Valid() && this.resolver == resolver && this.environment == environment
      ensures requests == starts == stops == 0 && waits == [] && made == []
    {
      this.resolver, this.environment := resolver, environment;
      this.initial, this.maximum, this.multiplier := initial, maximum, multiplier;
      requests, starts, stops, waits, made := 0, 0, 0, [], [];
    }

    /** Inspects until the run is no longer unfinished; the waits in between grow exponentially up to the maximum. */
    method Poll(unfinished: nat)
      requires Valid()
      modifies this`waits
      ensures waits == old(waits) + Backoffs(initial, maximum, multiplier, unfinished)
    {
      var delay := initial;
      var i := 0;
      FirstBackoff(initial, maximum, multiplier);
      hide Backoff, Longer;
      while i < unfinished
        invariant 0 <= i <= unfinished
        invariant delay == Backoff(initial, maximum, multiplier, i)
        invariant waits == old(waits) + Backoffs(initial, maximum, multiplier, i)
      {
        waits := waits + [delay];
        NextBackoff(initial, maximum, multiplier, i);
        delay := Longer(delay, maximum, multiplier);
        i := i + 1;
      }
    }

    /**
     The plan of the bundle it returns is the plan the variant resolves to; an execution is stopped
     exactly when polling was cut short.
     */
    method Run(id: nat, plan: BenchmarkPlan, variant: Variant, measured: bool, iteration: nat)
      returns (result: Result<Bundle, Failure>)
      requires Valid() && ValidBenchmark(plan)
      modifies this, resolver
      ensures Valid()
      ensures variant in plan.variants ==>
                Sent(resolver.answers, environment, id, old(resolver.history), old(requests), variant)
                == Answered(resolver.history, requests, result)
      ensures variant !in plan.variants ==>
                result == Err(UnknownVariant) && resolver.history == old(resolver.history) && requests == old(requests)
      ensures variant in plan.variants && !variant.legacyOverrides ==>
                var e, answer := environment(old(requests)), AnswerAt(resolver.answers, resolver.history, old(|resolver.history|));
                result.Ok? <==>
                  && answer.Some? && e.orchestrated && e.started && e.terminal && e.session.Some? && e.recorded
                  && e.reopened == Some(Bundle(e.session.value, answer.value.planId))
      ensures made == old(made) + if result.Ok? then [Made(variant.name, measured, iteration, result.value)] else []
      ensures result.Ok? ==> starts == old(starts) + 1
      ensures stops == old(stops) + if result == Err(InspectionFailed) then 1 else 0
      ensures result.Err? ==> result.error !in {SuiteInput, VariantCount, AssemblyFailed, ReusedRun}
    {
      var resolved := resolver.ResolvedVariant(id, plan, variant);
      if resolved.Err? && resolved.error != ResolutionFailed {
        return Err(resolved.error);
      }
      var e := environment(requests);
      requests := requests + 1;
      var workload :- resolved;
      if e.clears {
        resolver.ClearCache();
        AnswerStands(resolver.answers, old(resolver.history) + [Ask((id, variant.name))], resolver.history,
                     old(|resolver.history|));
      }
      if !e.orchestrated {
        return Err(FactoryFailed);
      }
      if !e.started {
        return Err(StartFailed);
      }
      starts := starts + 1;
      Poll(e.unfinished);
      if !e.terminal {
        stops := stops + 1;
        return Err(InspectionFailed);
      }
      match e.session {
        case None => return Err(NoSession);
        case Some(runId) =>
          if !e.recorded {
            return Err(NotRecorded);
          }
          match e.reopened {
            case None => return Err(ReopenFailed);
            case Some(bundle) =>
              if bundle.runId != runId {
                return Err(OtherRun);
              }
              if bundle.planId != workload.planId {
                return Err(OtherPlan);
              }
              made := made + [Made(variant.name, measured, iteration, bundle)];
              return Ok(bundle);
          }
      }
    }
  }

  // ---------------------------------------------------------------- what a run of requests comes to

  // The steps of the cache and the number of requests so far, and what the last one gave.
  datatype Answered = Answered(history: seq<CacheStep>, requests: nat, result: Result<Bundle, Failure>)

  // One request for a variant of the plan.
  function Sent(answers: Answers, environment: nat -> Environment, id: nat, history: seq<CacheStep>, requests: nat,
                variant: Variant): (sent: Answered)
    ensures history <= sent.history && sent.requests <= requests + 1
  {
    var asked := history + [Ask((id, variant.name))];
    var e := environment(requests);
    if variant.legacyOverrides then Answered(history, requests, Err(LegacyOverrides))
    else
      match AnswerAt(answers, asked, |history|)
      case None => Answered(asked, requests + 1, Err(ResolutionFailed))
      case Some(resolved) =>
        Answered(if e.clears then asked + [Clear] else asked, requests + 1, Concluded(e, resolved.planId))
  }

  // Requests one after the other until one fails; no run identity may come back.
  datatype Progress = Progress(history: seq<CacheStep>, requests: nat, bundles: seq<Bundle>, failure: Option<Failure>)

  function Next(answers: Answers, environment: nat -> Environment, id: nat, s: Progress, variant: Variant): (next: Progress)
    ensures s.history <= next.history && s.bundles <= next.bundles
  {
    if s.failure.Some? then s
    else
      var sent := Sent(answers, environment, id, s.history, s.requests, variant);
      match sent.result
      case Err(error) => Progress(sent.history, sent.requests, s.bundles, Some(error))
      case Ok(bundle) =>
        if bundle.runId in Ids(s.bundles) then Progress(sent.history, sent.requests, s.bundles, Some(ReusedRun))
        else Progress(sent.history, sent.requests, s.bundles + [bundle], None)
  }

  function After(answers: Answers, environment: nat -> Environment, id: nat, s: Progress, variants: seq<Variant>):
    (after: Progress)
    ensures s.history <= after.history && s.bundles <= after.bundles
  {
    if variants == [] then s
    else
      Next(answers, environment, id, After(answers, environment, id, s, variants[..|variants| - 1]),
           variants[|variants| - 1])
  }

  lemma {:induction false} AfterBoth(answers: Answers, environment: nat -> Environment, id: nat, s: Progress,
                                     a: seq<Variant>, b: seq<Variant>)
    ensures After(answers, environment, id, s, a + b)
            == After(answers, environment, id, After(answers, environment, id, s, a), b)
  {
    if b == [] {
      assert a + b == a;
    } else {
      assert (a + b)[..|a + b| - 1] == a + b[..|b| - 1];
      AfterBoth(answers, environment, id, s, a, b[..|b| - 1]);
    }
  }

  lemma {:induction false} FailureStays(answers: Answers, environment: nat -> Environment, id: nat, s: Progress,
                                        variants: seq<Variant>)
    requires s.failure.Some?
    ensures After(answers, environment, id, s, variants) == s
  {
    if variants != [] {
      FailureStays(answers, environment, id, s, variants[..|variants| - 1]);
    }
  }

  function Copies(variant: Variant, n: nat): (copies: seq<Variant>)
    ensures |copies| == n && forall i :: 0 <= i < n ==> copies[i] == variant
  {
    seq(n, _ => variant)
  }

  // The variants in the order in which runs of them are requested.
  function Schedule(plan: BenchmarkPlan, n: nat): seq<Variant>
    requires plan.warmup >= 0 && plan.repeat >= 0 && n <= |plan.variants|
  {
    if n == 0 then []
    else Schedule(plan, n - 1) + Copies(plan.variants[n - 1], plan.warmup) + Copies(plan.variants[n - 1], plan.repeat)
  }

  // ---------------------------------------------------------------- all runs of a plan

  function Ids(bundles: seq<Bundle>): (ids: seq<string>)
    ensures |ids| == |bundles| && forall i :: 0 <= i < |bundles| ==> ids[i] == bundles[i].runId
  {
    seq(|bundles|, i requires 0 <= i < |bundles| => bundles[i].runId)
  }

  // All bundles, in the order in which the runs were made.
  function Bundles(runs: seq<VariantRuns>): seq<Bundle>
  {
    if runs == [] then []
    else
      var last := runs[|runs| - 1];
      Bundles(runs[..|runs| - 1]) + last.warmup + last.measured
  }

  // The requests of one phase of a variant, in order.
  ghost function Phase(variant: string, measured: bool, bundles: seq<Bundle>): (phase: seq<Made>)
  {
    seq(|bundles|, i requires 0 <= i < |bundles| => Made(variant, measured, i, bundles[i]))
  }

  // The requests of all variants: for each its warm-up runs, then its measured runs.
  ghost function Requests(runs: seq<VariantRuns>): seq<Made>
  {
    if runs == [] then []
    else
      var last := runs[|runs| - 1];
      Requests(runs[..|runs| - 1]) + Phase(last.variant.name, false, last.warmup) + Phase(last.variant.name, true, last.measured)
  }

  // The variants of the plan in order, each with as many runs as it is to have.
  ghost predicate Shaped(runs: seq<VariantRuns>, plan: BenchmarkPlan)
  {
    |runs| <= |plan.variants| && forall i :: 0 <= i < |runs| ==>
      runs[i].variant == plan.variants[i] && |runs[i].warmup| == plan.warmup && |runs[i].measured| == plan.repeat
  }

  // The first runs were made, none identity twice; `seen` is what has been recorded.
  ghost predicate Recording(ids: seq<string>, seen: set<string>)
  {
    Distinct(ids) && Names(ids) == seen
  }

  lemma RecordedIds(ids: seq<string>, seen: set<string>, next: string)
    requires Recording(ids, seen)
    ensures next in seen <==> next in ids
  {
  }

  lemma RecordOne(ids: seq<string>, seen: set<string>, next: string)
    requires Recording(ids, seen) && next !in seen
    ensures Recording(ids + [next], seen + {next})
  {
    assert next in ids ==> next in Names(ids);
    DistinctConcat(ids, [next]);
  }

  // Where a runner is when nothing has failed, with the identities recorded up to then.
  ghost predicate Stands(runner: SystemRunner, s: Progress, seen: set<string>)
    reads runner, runner.resolver
  {
    && s.failure.None? && s.history == runner.resolver.history && s.requests == runner.requests
    && Recording(Ids(s.bundles), seen)
  }

  method Repeat(id: nat, plan: BenchmarkPlan, variant: Variant, measured: bool, count: nat, runner: SystemRunner,
                seen: set<string>, ghost s: Progress)
    returns (result: Result<seq<Bundle>, Failure>, seenNow: set<string>, ghost after: Progress)
    requires runner.Valid() && ValidBenchmark(plan) && variant in plan.variants && Stands(runner, s, seen)
    modifies runner, runner.resolver
    ensures runner.Valid()
    ensures after == After(runner.resolver.answers, runner.environment, id, s, Copies(variant, count))
    ensures result.Ok? ==>
              Stands(runner, after, seenNow) && after.bundles == s.bundles + result.value && |result.value| == count
    ensures result.Ok? ==> runner.made == old(runner.made) + Phase(variant.name, measured, result.value)
    ensures result.Err? ==> after.failure == Some(result.error) && result.error !in {SuiteInput, VariantCount, AssemblyFailed}
  {
    hide Distinct, Names, Sent, After;
    ghost var answers, environment := runner.resolver.answers, runner.environment;
    var bundles: seq<Bundle> := [];
    seenNow, after := seen, s;
    Nothing(answers, environment, id, s, variant);
    assert Phase(variant.name, measured, []) == [];
    for i := 0 to count
      invariant |bundles| == i && runner.Valid() && Stands(runner, after, seenNow)
      invariant after == After(answers, environment, id, s, Copies(variant, i)) && after.bundles == s.bundles + bundles
      invariant runner.made == old(runner.made) + Phase(variant.name, measured, bundles)
    {
      OneMore(answers, environment, id, s, variant, i, count);
      var bundle := runner.Run(id, plan, variant, measured, i);
      if bundle.Err? {
        after := Next(answers, environment, id, after, variant);
        return Err(bundle.error), seenNow, After(answers, environment, id, s, Copies(variant, count));
      }
      RecordedIds(Ids(after.bundles), seenNow, bundle.value.runId);
      if bundle.value.runId in seenNow {
        return Err(ReusedRun), seenNow, After(answers, environment, id, s, Copies(variant, count));
      }
      RecordOne(Ids(after.bundles), seenNow, bundle.value.runId);
      assert Ids(after.bundles) + [bundle.value.runId] == Ids(after.bundles + [bundle.value]);
      assert Phase(variant.name, measured, bundles + [bundle.value])
          == Phase(variant.name, measured, bundles) + [Made(variant.name, measured, i, bundle.value)];
      after := Next(answers, environment, id, after, variant);
      seenNow := seenNow + {bundle.value.runId};
      bundles := bundles + [bundle.value];
    }
    return Ok(bundles), seenNow, after;
  }

  lemma Nothing(answers: Answers, environment: nat -> Environment, id: nat, s: Progress, variant: Variant)
    ensures After(answers, environment, id, s, Copies(variant, 0)) == s
  {
  }

  // After one more of the copies; if that one fails, nothing changes any more.
  lemma OneMore(answers: Answers, environment: nat -> Environment, id: nat, s: Progress, variant: Variant,
                i: nat, count: nat)
    requires i < count
    ensures var next := Next(answers, environment, id, After(answers, environment, id, s, Copies(variant, i)), variant);
            && After(answers, environment, id, s, Copies(variant, i + 1)) == next
            && (next.failure.Some? ==> After(answers, environment, id, s, Copies(variant, count)) == next)
  {
    hide Next;
    assert Copies(variant, i + 1)[..i] == Copies(variant, i);
    var next := After(answers, environment, id, s, Copies(variant, i + 1));
    assert Copies(variant, count) == Copies(variant, i + 1) + Copies(variant, count - i - 1);
    AfterBoth(answers, environment, id, s, Copies(variant, i + 1), Copies(variant, count - i - 1));
    if next.failure.Some? {
      FailureStays(answers, environment, id, next, Copies(variant, count - i - 1));
    }
  }

  // The runs of one variant, warm-up first.
  method RunVariant(id: nat, plan: BenchmarkPlan, variant: Variant, runner: SystemRunner, seen: set<string>,
                    ghost s: Progress)
    returns (result: Result<VariantRuns, Failure>, seenNow: set<string>, ghost after: Progress)
    requires runner.Valid() && ValidBenchmark(plan) && variant in plan.variants && Stands(runner, s, seen)
    modifies runner, runner.resolver
    ensures runner.Valid()
    ensures after == After(runner.resolver.answers, runner.environment, id, s,
                           Copies(variant, plan.warmup) + Copies(variant, plan.repeat))
    ensures result.Ok? ==>
              && Stands(runner, after, seenNow) && after.bundles == s.bundles + result.value.warmup + result.value.measured
              && result.value.variant == variant
              && |result.value.warmup| == plan.warmup && |result.value.measured| == plan.repeat
    ensures result.Ok? ==> runner.made == old(runner.made) + Phase(variant.name, false, result.value.warmup)
                                          + Phase(variant.name, true, result.value.measured)
    ensures result.Err? ==> after.failure == Some(result.error) && result.error !in {SuiteInput, VariantCount, AssemblyFailed}
  {
    hide Distinct, Names, Recording, Phase, After;
    ghost var answers, environment := runner.resolver.answers, runner.environment;
    AfterBoth(answers, environment, id, s, Copies(variant, plan.warmup), Copies(variant, plan.repeat));
    var warmup, afterWarmup, middle := Repeat(id, plan, variant, false, plan.warmup, runner, seen, s);
    if warmup.Err? {
      FailureStays(answers, environment, id, middle, Copies(variant, plan.repeat));
      return Err(warmup.error), seen, middle;
    }
    var measured, afterMeasured, last := Repeat(id, plan, variant, true, plan.repeat, runner, afterWarmup, middle);
    if measured.Err? {
      return Err(measured.error), seen, last;
    }
    return Ok(VariantRuns(variant, warmup.value, measured.value)), afterMeasured, last;
  }

  lemma OneVariantMore(answers: Answers, environment: nat -> Environment, id: nat, s: Progress, plan: BenchmarkPlan, n: nat)
    requires plan.warmup >= 0 && plan.repeat >= 0 && n < |plan.variants|
    ensures After(answers, environment, id, s, Schedule(plan, n + 1))
            == After(answers, environment, id, After(answers, environment, id, s, Schedule(plan, n)),
                     Copies(plan.variants[n], plan.warmup) + Copies(plan.variants[n], plan.repeat))
  {
    hide After;
    var more := Copies(plan.variants[n], plan.warmup) + Copies(plan.variants[n], plan.repeat);
    AfterBoth(answers, environment, id, s, Schedule(plan, n), more);
    assert Schedule(plan, n + 1) == Schedule(plan, n) + more;
  }

  lemma {:induction false} FailureStaysTo(answers: Answers, environment: nat -> Environment, id: nat, s: Progress,
                                          plan: BenchmarkPlan, i: nat, n: nat)
    requires plan.warmup >= 0 && plan.repeat >= 0 && i <= n <= |plan.variants|
    requires After(answers, environment, id, s, Schedule(plan, i)).failure.Some?
    ensures After(answers, environment, id, s, Schedule(plan, n)) == After(answers, environment, id, s, Schedule(plan, i))
    decreases n - i
  {
    hide After;
    if i < n {
      OneVariantMore(answers, environment, id, s, plan, n - 1);
      FailureStaysTo(answers, environment, id, s, plan, i, n - 1);
      FailureStays(answers, environment, id, After(answers, environment, id, s, Schedule(plan, n - 1)),
                   Copies(plan.variants[n - 1], plan.warmup) + Copies(plan.variants[n - 1], plan.repeat));
    }
  }

  /**
   Warm-up and measured runs of every variant, which succeed exactly when no request fails and no
   run identity comes back.
   */
  method ExecuteRuns(id: nat, plan: BenchmarkPlan, runner: SystemRunner)
    returns (result: Result<seq<VariantRuns>, Failure>, ghost after: Progress)
    requires runner.Valid() && ValidBenchmark(plan)
    modifies runner, runner.resolver
    ensures runner.Valid()
    ensures after == After(runner.resolver.answers, runner.environment, id,
                           Progress(old(runner.resolver.history), old(runner.requests), [], None),
                           Schedule(plan, |plan.variants|))
    ensures result.Ok? <==> after.failure.None?
    ensures result.Ok? ==>
              |result.value| == |plan.variants| && Shaped(result.value, plan) && Bundles(result.value) == after.bundles
    ensures result.Ok? ==> Distinct(Ids(Bundles(result.value)))
    ensures result.Ok? ==> runner.made == old(runner.made) + Requests(result.value)
    ensures result.Err? ==> after.failure == Some(result.error) && result.error !in {SuiteInput, VariantCount, AssemblyFailed}
  {
    assert Recording([], {});
    assert Shaped([], plan) && Bundles([]) == [] && Requests([]) == [];
    hide Distinct, Names, Recording, Phase, After, Schedule, Shaped, Bundles, Requests, Copies;
    ghost var answers, environment := runner.resolver.answers, runner.environment;
    ghost var start := Progress(runner.resolver.history, runner.requests, [], None);
    var runs: seq<VariantRuns>, seen: set<string> := [], {};
    after := start;
    NoVariants(answers, environment, id, start, plan);
    for i := 0 to |plan.variants|
      invariant |runs| == i && runner.Valid() && Stands(runner, after, seen) && Shaped(runs, plan)
      invariant after == After(answers, environment, id, start, Schedule(plan, i)) && after.bundles == Bundles(runs)
      invariant runner.made == old(runner.made) + Requests(runs)
    {
      OneVariantMore(answers, environment, id, start, plan, i);
      var next, seenNow, further := RunVariant(id, plan, plan.variants[i], runner, seen, after);
      if next.Err? {
        FailureStaysTo(answers, environment, id, start, plan, i + 1, |plan.variants|);
        return Err(next.error), further;
      }
      ShapedNext(runs, next.value, plan);
      MadeNext(old(runner.made), runs, next.value);
      runs, seen, after := runs + [next.value], seenNow, further;
    }
    IdsDistinct(Ids(after.bundles), seen);
    return Ok(runs), after;
  }

  lemma NoVariants(answers: Answers, environment: nat -> Environment, id: nat, s: Progress, plan: BenchmarkPlan)
    requires plan.warmup >= 0 && plan.repeat >= 0
    ensures After(answers, environment, id, s, Schedule(plan, 0)) == s
  {
  }

  lemma ShapedNext(runs: seq<VariantRuns>, next: VariantRuns, plan: BenchmarkPlan)
    requires Shaped(runs, plan) && |runs| < |plan.variants| && next.variant == plan.variants[|runs|]
    requires |next.warmup| == plan.warmup && |next.measured| == plan.repeat
    ensures Shaped(runs + [next], plan)
    ensures Bundles(runs + [next]) == Bundles(runs) + next.warmup + next.measured
  {
    var all := runs + [next];
    assert Bundles(all) == Bundles(runs) + next.warmup + next.measured by {
      assert all[..|runs|] == runs && all[|runs|] == next;
    }
    hide Bundles;
    forall i | 0 <= i < |all|
      ensures all[i].variant == plan.variants[i] && |all[i].warmup| == plan.warmup && |all[i].measured| == plan.repeat
    {
      assert i < |runs| ==> all[i] == runs[i];
    }
  }

  lemma MadeNext(made: seq<Made>, runs: seq<VariantRuns>, next: VariantRuns)
    ensures made + Requests(runs) + Phase(next.variant.name, false, next.warmup) + Phase(next.variant.name, true, next.measured)
            == made + Requests(runs + [next])
  {
    hide Phase;
    assert (runs + [next])[..|runs|] == runs;
  }

  // ---------------------------------------------------------------- the suite

  // The run identities of the measured sets, variant by variant.
  function MeasuredIds(names: seq<string>, measured: map<string, seq<Bundle>>): seq<string>
    requires forall n :: n in names ==> n in measured
  {
    if names == [] then []
    else
      var init, last := names[..|names| - 1], names[|names| - 1];
      MeasuredIds(init, measured) + Ids(measured[last])
  }

  ghost predicate GoodRunSets(plan: BenchmarkPlan, measured: map<string, seq<Bundle>>)
  {
    && measured.Keys == Names(VariantNames(plan.variants))
    && (forall n :: n in measured ==> measured[n] != [])
    && Distinct(MeasuredIds(VariantNames(plan.variants), measured))
  }

  lemma RepeatedId(before: seq<string>, bundles: seq<Bundle>, j: nat, seen: set<string>)
    requires j < |bundles| && Recording(before + Ids(bundles[..j]), seen) && bundles[j].runId in seen
    ensures !Distinct(before + Ids(bundles))
  {
    var all, some := before + Ids(bundles), before + Ids(bundles[..j]);
    assert bundles[j].runId in some;
    var i :| 0 <= i < |some| && some[i] == bundles[j].runId;
    assert all[i] == some[i] && all[|before| + j] == bundles[j].runId;
  }

  method RecordAll(bundles: seq<Bundle>, seen: set<string>, ghost before: seq<string>)
    returns (ok: bool, seenNow: set<string>)
    requires Recording(before, seen)
    ensures ok ==> Recording(before + Ids(bundles), seenNow)
    ensures !ok ==> !Distinct(before + Ids(bundles))
  {
    hide Distinct, Names, Recording;
    seenNow := seen;
    assert before + Ids(bundles[..0]) == before;
    for j := 0 to |bundles|
      invariant Recording(before + Ids(bundles[..j]), seenNow)
    {
      var runId := bundles[j].runId;
      if runId in seenNow {
        RepeatedId(before, bundles, j, seenNow);
        return false, seenNow;
      }
      RecordOne(before + Ids(bundles[..j]), seenNow, runId);
      assert before + Ids(bundles[..j]) + [runId] == before + Ids(bundles[..j + 1]);
      seenNow := seenNow + {runId};
    }
    assert bundles[..|bundles|] == bundles;
    return true, seenNow;
  }

  lemma {:induction false} MeasuredPrefix(names: seq<string>, measured: map<string, seq<Bundle>>, i: nat)
    requires i <= |names| && forall n :: n in names ==> n in measured
    requires Distinct(MeasuredIds(names, measured))
    ensures Distinct(MeasuredIds(names[..i], measured))
    decreases |names|
  {
    if i == |names| {
      assert names[..i] == names;
    } else {
      var init := names[..|names| - 1];
      DistinctFront(MeasuredIds(init, measured), Ids(measured[names[|names| - 1]]));
      assert init[..i] == names[..i];
      MeasuredPrefix(init, measured, i);
    }
  }

  lemma DistinctFront(a: seq<string>, b: seq<string>)
    requires Distinct(a + b)
    ensures Distinct(a)
  {
    assert forall i :: 0 <= i < |a| ==> (a + b)[i] == a[i];
  }

  method CheckedSets(names: seq<string>, measured: map<string, seq<Bundle>>)
    returns (ok: bool, checked: map<string, seq<Bundle>>)
    requires forall n :: n in names ==> n in measured
    ensures ok <==> (forall n :: n in names ==> measured[n] != []) && Distinct(MeasuredIds(names, measured))
    ensures ok ==> forall n :: n in checked <==> n in names
    ensures ok ==> forall n :: n in checked ==> checked[n] == measured[n]
  {
    assert Recording([], {});
    hide Distinct, Names, Recording, MeasuredIds;
    checked := map[];
    var seen: set<string> := {};
    NoneMeasured(measured);
    for i := 0 to |names|
      invariant forall n :: n in checked <==> n in names[..i]
      invariant forall n :: n in checked ==> checked[n] == measured[n] && measured[n] != []
      invariant Recording(MeasuredIds(names[..i], measured), seen)
    {
      var bundles := measured[names[i]];
      if bundles == [] {
        return false, checked;
      }
      MeasureNext(names, measured, i);
      var disjoint, seenNow := RecordAll(bundles, seen, MeasuredIds(names[..i], measured));
      if !disjoint {
        return false, checked;
      }
      seen := seenNow;
      checked := checked[names[i] := bundles];
    }
    assert names[..|names|] == names;
    IdsDistinct(MeasuredIds(names, measured), seen);
    return true, checked;
  }

  /** Accepts exactly one non-empty set of runs per variant, no run in two of them. */
  method ValidatedRunSets(plan: BenchmarkPlan, measured: map<string, seq<Bundle>>)
    returns (result: Result<map<string, seq<Bundle>>, Failure>)
    requires ValidBenchmark(plan)
    ensures result.Ok? <==> GoodRunSets(plan, measured)
    ensures result.Ok? ==> result.value == measured
    ensures result.Err? ==> result.error == SuiteInput
  {
    hide Distinct, MeasuredIds;
    var names := VariantNames(plan.variants);
    if measured.Keys != Names(names) {
      return Err(SuiteInput);
    }
    assert forall n :: n in names <==> n in measured;
    var ok, checked := CheckedSets(names, measured);
    if !ok {
      return Err(SuiteInput);
    }
    assert checked == measured;
    return Ok(checked);
  }

  lemma NoneMeasured(measured: map<string, seq<Bundle>>)
    ensures MeasuredIds([], measured) == []
  {
  }

  lemma MeasureNext(names: seq<string>, measured: map<string, seq<Bundle>>, i: nat)
    requires i < |names| && forall n :: n in names ==> n in measured
    ensures MeasuredIds(names[..i + 1], measured) == MeasuredIds(names[..i], measured) + Ids(measured[names[i]])
    ensures !Distinct(MeasuredIds(names[..i + 1], measured)) ==> !Distinct(MeasuredIds(names, measured))
  {
    hide Distinct;
    assert names[..i + 1][..i] == names[..i];
    if Distinct(MeasuredIds(names, measured)) {
      MeasuredPrefix(names, measured, i + 1);
    }
  }

  lemma IdsDistinct(ids: seq<string>, seen: set<string>)
    requires Recording(ids, seen)
    ensures Distinct(ids)
  {
  }

  // ---------------------------------------------------------------- the whole benchmark

  lemma {:induction false} MeasuredDistinct(names: seq<string>, runs: seq<VariantRuns>, measured: map<string,
          seq<Bundle>>)
    requires |names| == |runs| && forall n :: n in names ==> n in measured
    requires forall i :: 0 <= i < |names| ==> measured[names[i]] == runs[i].measured
    requires Distinct(Ids(Bundles(runs)))
    ensures Distinct(MeasuredIds(names, measured))
    ensures forall id :: id in MeasuredIds(names, measured) ==> id in Ids(Bundles(runs))
  {
    if names != [] {
      var k := |names| - 1;
      var before, warm, last := Ids(Bundles(runs[..k])), Ids(runs[k].warmup), Ids(runs[k].measured);
      assert Ids(Bundles(runs)) == before + warm + last;
      Parts(before, warm, last);
      MeasuredDistinct(names[..k], runs[..k], measured);
      DistinctConcat(MeasuredIds(names[..k], measured), last);
    }
  }

  lemma Parts(a: seq<string>, b: seq<string>, c: seq<string>)
    requires Distinct(a + b + c)
    ensures Distinct(a) && Distinct(c) && forall x :: x in a ==> x !in c
  {
    var all := a + b + c;
    assert forall i :: 0 <= i < |a| ==> all[i] == a[i];
    assert forall i :: 0 <= i < |c| ==> all[|a| + |b| + i] == c[i];
  }

  method MeasuredRuns(plan: BenchmarkPlan, runs: seq<VariantRuns>) returns (measured: map<string, seq<Bundle>>)
    requires Distinct(VariantNames(plan.variants)) && |runs| == |plan.variants|
    ensures measured.Keys == Names(VariantNames(plan.variants))
    ensures forall i :: 0 <= i < |runs| ==> measured[VariantNames(plan.variants)[i]] == runs[i].measured
  {
    var names := VariantNames(plan.variants);
    measured := map[];
    for i := 0 to |names|
      invariant measured.Keys == Names(names[..i])
      invariant forall k :: 0 <= k < i ==> names[k] in measured && measured[names[k]] == runs[k].measured
    {
      assert names[..i + 1] == names[..i] + [names[i]];
      measured := measured[names[i] := runs[i].measured];
    }
    assert names[..|names|] == names;
  }

  // Every run of the variant executed the System Plan recorded for it.
  ghost predicate Traced(recorded: Recorded, runs: VariantRuns, plan: BenchmarkPlan, variant: Variant)
  {
    && recorded.name == variant.name && runs.variant == variant
    && |runs.warmup| == plan.warmup && |runs.measured| == plan.repeat
    && forall bundle :: bundle in runs.warmup + runs.measured ==> bundle.planId == recorded.planId
  }

  ghost predicate Provenance(execution: Execution, plan: BenchmarkPlan)
  {
    && |execution.recorded| == |execution.runs| == |plan.variants|
    && (forall i :: 0 <= i < |plan.variants| ==> Traced(execution.recorded[i], execution.runs[i], plan, plan.variants[i]))
  }

  lemma {:induction false} SuiteAccepts(plan: BenchmarkPlan, runs: seq<VariantRuns>, measured: map<string, seq<Bundle>>)
    requires ValidBenchmark(plan) && |runs| == |plan.variants| && Shaped(runs, plan) && Distinct(Ids(Bundles(runs)))
    requires measured.Keys == Names(VariantNames(plan.variants))
    requires forall i :: 0 <= i < |runs| ==> measured[VariantNames(plan.variants)[i]] == runs[i].measured
    ensures GoodRunSets(plan, measured)
  {
    var names := VariantNames(plan.variants);
    MeasuredDistinct(names, runs, measured);
    forall n | n in measured
      ensures measured[n] != []
    {
      assert n in names;
      var i :| 0 <= i < |names| && names[i] == n;
      assert runs[i].variant == plan.variants[i];
    }
  }

  // ---------------------------------------------------------------- which plan a request executes

  lemma {:induction false} OneBundleEach(answers: Answers, environment: nat -> Environment, id: nat, s: Progress,
                                         variants: seq<Variant>)
    requires After(answers, environment, id, s, variants).failure.None?
    ensures var after := After(answers, environment, id, s, variants);
            |after.bundles| == |s.bundles| + |variants| && after.requests == s.requests + |variants|
  {
    if variants != [] {
      OneBundleEach(answers, environment, id, s, variants[..|variants| - 1]);
    }
  }

  // Request j asks after the requests before it, and executes the plan it is answered with.
  lemma {:induction false} Executed(answers: Answers, environment: nat -> Environment, id: nat, s: Progress,
                                    variants: seq<Variant>, j: nat)
    requires j < |variants| && After(answers, environment, id, s, variants).failure.None?
    ensures var after := After(answers, environment, id, s, variants);
            var p := |After(answers, environment, id, s, variants[..j]).history|;
            && |after.bundles| == |s.bundles| + |variants|
            && p < |after.history| && after.history[p] == Ask((id, variants[j].name))
            && AnswerAt(answers, after.history, p).Some?
            && after.bundles[|s.bundles| + j].planId == AnswerAt(answers, after.history, p).value.planId
  {
    hide AnswerAt, Concluded;
    var front := variants[..|variants| - 1];
    var before, after := After(answers, environment, id, s, front), After(answers, environment, id, s, variants);
    OneBundleEach(answers, environment, id, s, variants);
    OneBundleEach(answers, environment, id, s, front);
    if j == |variants| - 1 {
      AnswerStands(answers, before.history + [Ask((id, variants[j].name))], after.history, |before.history|);
    } else {
      Executed(answers, environment, id, s, front, j);
      assert front[..j] == variants[..j];
      AnswerStands(answers, before.history, after.history, |After(answers, environment, id, s, variants[..j]).history|);
    }
  }

  lemma {:induction false} PrefixHistory(answers: Answers, environment: nat -> Environment, id: nat, s: Progress,
                                         variants: seq<Variant>, j: nat)
    requires j <= |variants|
    ensures After(answers, environment, id, s, variants[..j]).history <= After(answers, environment, id, s, variants).history
  {
    assert variants == variants[..j] + variants[j..];
    AfterBoth(answers, environment, id, s, variants[..j], variants[j..]);
  }

  lemma {:induction false} NotCleared(answers: Answers, environment: nat -> Environment, id: nat, s: Progress,
                                      variants: seq<Variant>)
    requires Undisturbed(environment, s.requests, |variants|)
    ensures var after := After(answers, environment, id, s, variants);
            && after.requests <= s.requests + |variants|
            && forall p :: |s.history| <= p < |after.history| ==> after.history[p].Ask?
    ensures After(answers, environment, id, s, variants).failure.None? ==>
              |After(answers, environment, id, s, variants).history| == |s.history| + |variants|
  {
    hide AnswerAt, Concluded;
    if variants != [] {
      NotCleared(answers, environment, id, s, variants[..|variants| - 1]);
      OneBundleEachFront(answers, environment, id, s, variants);
    }
  }

  lemma OneBundleEachFront(answers: Answers, environment: nat -> Environment, id: nat, s: Progress, variants: seq<Variant>)
    requires variants != []
    ensures var before := After(answers, environment, id, s, variants[..|variants| - 1]);
            before.failure.None? ==> before.requests == s.requests + |variants| - 1
  {
    if After(answers, environment, id, s, variants[..|variants| - 1]).failure.None? {
      OneBundleEach(answers, environment, id, s, variants[..|variants| - 1]);
    }
  }

  // No request before j clears the cache.
  ghost predicate Undisturbed(environment: nat -> Environment, requests: nat, j: int)
  {
    forall k: nat :: requests <= k < requests + j ==> !environment(k).clears
  }

  /** Request j executes the plan recorded at step r when the cache is not cleared in between. */
  lemma RecordedPlanRuns(answers: Answers, environment: nat -> Environment, id: nat, s: Progress,
                         variants: seq<Variant>, r: nat, j: nat)
    requires j < |variants| && r < |s.history| && s.history[r] == Ask((id, variants[j].name)) && Kept(s.history, r, |s.history|)
    requires Undisturbed(environment, s.requests, j)
    requires After(answers, environment, id, s, variants).failure.None? && AnswerAt(answers, s.history, r).Some?
    ensures var after := After(answers, environment, id, s, variants);
            |after.bundles| == |s.bundles| + |variants|
            && after.bundles[|s.bundles| + j].planId == AnswerAt(answers, s.history, r).value.planId
  {
    hide AnswerAt, After;
    var after, before := After(answers, environment, id, s, variants), After(answers, environment, id, s, variants[..j]);
    Executed(answers, environment, id, s, variants, j);
    PrefixHistory(answers, environment, id, s, variants, j);
    NotCleared(answers, environment, id, s, variants[..j]);
    assert Kept(after.history, r, |before.history|) by {
      assert s.history <= before.history <= after.history;
    }
    FirstAnswerStands(answers, after.history, r, |before.history|);
    AnswerStands(answers, s.history, after.history, r);
  }

  // ---------------------------------------------------------------- a cleared cache

  function RunName(k: nat): string
  {
    seq(k + 1, _ => 'r')
  }

  // Nothing fails, the cache is cleared as in another environment, and requests up to number k
  // execute plan "a", later ones plan "b".
  function Smooth(environment: nat -> Environment, k: nat): nat -> Environment
  {
    (i: nat) => Environment(true, environment(i).clears, true, 0, true, Some(RunName(i)), true,
                            Some(Bundle(RunName(i), if i <= k then "a" else "b")))
  }

  const PlanA := SystemPlan("a", "s", "r")
  const PlanB := SystemPlan("b", "s", "r")

  // Where the smooth requests are after the first n, when the first clearing is that of request first.
  ghost predicate RanSmoothly(after: Progress, history: seq<CacheStep>, requests: nat, first: nat, n: nat)
  {
    && after.failure.None? && |after.bundles| == n && after.requests == requests + n
    && (forall i :: 0 <= i < n ==> after.bundles[i] == Bundle(RunName(requests + i), if i <= first then "a" else "b"))
    && (if n <= first then |after.history| == |history| + n
        else |history| + first + 1 < |after.history| && after.history[|history| + first + 1].Clear?)
  }

  lemma NextSmoothly(e: nat -> Environment, id: nat, before: Progress, history: seq<CacheStep>, requests: nat,
                     variant: Variant, first: nat, n: nat)
    requires Undisturbed(e, requests, first) && e(requests + first).clears && !variant.legacyOverrides
    requires RanSmoothly(before, history, requests, first, n)
    ensures RanSmoothly(Next(Switch(|history| + first + 1, PlanA, PlanB), Smooth(e, requests + first), id, before, variant),
                        history, requests, first, n + 1)
  {
    hide AnswerAt;
    SwitchedAnswer(before.history + [Ask((id, variant.name))], |history| + first + 1, PlanA, PlanB, |before.history|);
    assert n < first ==> !e(requests + n).clears;
    forall i | 0 <= i < n ensures Ids(before.bundles)[i] != RunName(requests + n) {
      assert |RunName(requests + i)| < |RunName(requests + n)|;
    }
  }

  lemma {:induction false} SmoothRuns(e: nat -> Environment, id: nat, history: seq<CacheStep>, requests: nat,
                                      variants: seq<Variant>, first: nat)
    requires Undisturbed(e, requests, first) && e(requests + first).clears
    requires forall i :: 0 <= i < |variants| ==> !variants[i].legacyOverrides
    ensures RanSmoothly(After(Switch(|history| + first + 1, PlanA, PlanB), Smooth(e, requests + first), id,
                              Progress(history, requests, [], None), variants), history, requests, first, |variants|)
  {
    hide Next, Undisturbed;
    if variants != [] {
      var n := |variants| - 1;
      SmoothRuns(e, id, history, requests, variants[..n], first);
      NextSmoothly(e, id, After(Switch(|history| + first + 1, PlanA, PlanB), Smooth(e, requests + first), id,
                                Progress(history, requests, [], None), variants[..n]), history, requests, variants[n], first, n);
    }
  }

  // The request numbers at which the cache is cleared are the same.
  ghost predicate ClearsAlike(a: nat -> Environment, b: nat -> Environment)
  {
    forall k: nat :: a(k).clears == b(k).clears
  }

  // If the step-r question was answered and all requests succeed, request j executes that answer.
  ghost predicate TracedRequest(answers: Answers, environment: nat -> Environment, id: nat, s: Progress,
                                variants: seq<Variant>, r: nat, j: nat)
    requires r < |s.history| && s.history[r].Ask?
  {
    var after := After(answers, environment, id, s, variants);
    AnswerAt(answers, s.history, r).Some? && after.failure.None? ==>
      && |s.bundles| + j < |after.bundles|
      && after.bundles[|s.bundles| + j].planId == AnswerAt(answers, s.history, r).value.planId
  }

  /**
   When the cache is cleared at given requests, it is certain that request j executes the plan
   recorded for its variant, whatever resolution gives and whatever else happens, exactly when no
   request before it clears the cache.
   */
  lemma TracedExactly(e: nat -> Environment, id: nat, history: seq<CacheStep>, requests: nat, variants: seq<Variant>,
                      r: nat, j: nat)
    requires j < |variants| && forall i :: 0 <= i < |variants| ==> !variants[i].legacyOverrides
    requires r < |history| && history[r] == Ask((id, variants[j].name)) && Kept(history, r, |history|)
    ensures (forall answers: Answers, environment: nat -> Environment :: ClearsAlike(environment, e) ==>
               TracedRequest(answers, environment, id, Progress(history, requests, [], None), variants, r, j))
            <==> Undisturbed(e, requests, j)
  {
    hide After, AnswerAt, Kept;
    var s := Progress(history, requests, [], None);
    if Undisturbed(e, requests, j) {
      forall answers: Answers, environment: nat -> Environment | ClearsAlike(environment, e)
        ensures TracedRequest(answers, environment, id, s, variants, r, j)
      {
        if AnswerAt(answers, history, r).Some? && After(answers, environment, id, s, variants).failure.None? {
          RecordedPlanRuns(answers, environment, id, s, variants, r, j);
        }
      }
    } else {
      var first := FirstClear(e, requests, j);
      var c := |history| + first + 1;
      SmoothRuns(e, id, history, requests, variants, first);
      SwitchedAnswer(history, c, PlanA, PlanB, r);
      assert ClearsAlike(Smooth(e, requests + first), e);
      assert !TracedRequest(Switch(c, PlanA, PlanB), Smooth(e, requests + first), id, s, variants, r, j);
    }
  }

  lemma {:induction false} FirstClear(e: nat -> Environment, requests: nat, j: nat) returns (first: nat)
    requires !Undisturbed(e, requests, j)
    ensures first < j && e(requests + first).clears && Undisturbed(e, requests, first)
  {
    if Undisturbed(e, requests, j - 1) {
      first := j - 1;
    } else {
      first := FirstClear(e, requests, j - 1);
    }
  }

  // ---------------------------------------------------------------- a benchmark as a whole

  // The bundles of a variant stand where runs of it are requested.
  lemma {:induction false} Placed(runs: seq<VariantRuns>, plan: BenchmarkPlan)
    requires plan.warmup >= 0 && plan.repeat >= 0 && Shaped(runs, plan)
    ensures |Bundles(runs)| == |Schedule(plan, |runs|)|
    ensures forall i, bundle :: 0 <= i < |runs| && bundle in runs[i].warmup + runs[i].measured ==>
              exists j :: 0 <= j < |Bundles(runs)| && Bundles(runs)[j] == bundle && Schedule(plan, |runs|)[j] == plan.variants[i]
  {
    if runs != [] {
      var n := |runs| - 1;
      Placed(runs[..n], plan);
      var front, all := Bundles(runs[..n]), Bundles(runs);
      var variant := plan.variants[n];
      assert runs[n].variant == variant;
      assert all == front + (runs[n].warmup + runs[n].measured);
      assert Schedule(plan, n + 1) == Schedule(plan, n) + (Copies(variant, plan.warmup) + Copies(variant, plan.repeat));
      forall i, bundle | 0 <= i < |runs| && bundle in runs[i].warmup + runs[i].measured
        ensures exists j :: 0 <= j < |all| && all[j] == bundle && Schedule(plan, n + 1)[j] == plan.variants[i]
      {
        if i < n {
          assert runs[..n][i] == runs[i];
          var j :| 0 <= j < |front| && front[j] == bundle && Schedule(plan, n)[j] == plan.variants[i];
          assert all[j] == bundle && Schedule(plan, n + 1)[j] == plan.variants[i];
        } else {
          var own := runs[n].warmup + runs[n].measured;
          var k :| 0 <= k < |own| && own[k] == bundle;
          assert all[|front| + k] == bundle && Schedule(plan, n + 1)[|front| + k] == variant;
        }
      }
    }
  }

  lemma SameParts(x: seq<Bundle>, u: seq<Bundle>, v: seq<Bundle>, y: seq<Bundle>, w: seq<Bundle>, z: seq<Bundle>)
    requires x + u + v == y + w + z && |u| == |w| && |v| == |z|
    ensures x == y && u == w && v == z
  {
    var all := x + u + v;
    assert x == all[..|x|] && u == all[|x|..|x| + |u|] && v == all[|x| + |u|..];
    assert y == all[..|x|] && w == all[|x|..|x| + |u|] && z == all[|x| + |u|..];
  }

  // The shape determines which bundle is a run of which variant.
  lemma {:induction false} SameRuns(a: seq<VariantRuns>, b: seq<VariantRuns>, plan: BenchmarkPlan)
    requires |a| == |b| && Shaped(a, plan) && Shaped(b, plan) && Bundles(a) == Bundles(b)
    ensures a == b
  {
    if a != [] {
      var n := |a| - 1;
      var p, q := a[n], b[n];
      assert p.variant == q.variant && |p.warmup| == |q.warmup| && |p.measured| == |q.measured|;
      SameParts(Bundles(a[..n]), p.warmup, p.measured, Bundles(b[..n]), q.warmup, q.measured);
      SameRuns(a[..n], b[..n], plan);
      assert a == a[..n] + [p] && b == b[..n] + [q];
    }
  }

  // Repetitions of one exact workload.
  predicate OneWorkload(bundles: seq<Bundle>)
  {
    forall i :: 0 <= i < |bundles| ==> bundles[i].planId == bundles[0].planId
  }

  // The measured runs of each variant executed one plan.
  ghost predicate Aggregable(bundles: seq<Bundle>, plan: BenchmarkPlan)
  {
    exists runs: seq<VariantRuns> ::
      |runs| == |plan.variants| && Shaped(runs, plan) && Bundles(runs) == bundles && Uniform(runs)
  }

  predicate Uniform(runs: seq<VariantRuns>)
  {
    forall i :: 0 <= i < |runs| ==> OneWorkload(runs[i].measured)
  }

  // What the requests of a benchmark come to, asked after its variants were recorded.
  function Requested(answers: Answers, environment: nat -> Environment, id: nat, plan: BenchmarkPlan,
                     history: seq<CacheStep>, requests: nat): Progress
    requires plan.warmup >= 0 && plan.repeat >= 0
  {
    After(answers, environment, id, Progress(history + Questions(id, plan.variants), requests, [], None),
          Schedule(plan, |plan.variants|))
  }

  // The records of the variants, in order, as they are answered after the given steps.
  ghost predicate RecordedAll(recorded: seq<Recorded>, answers: Answers, history: seq<CacheStep>, id: nat, plan: BenchmarkPlan)
  {
    |recorded| == |plan.variants| && forall i :: 0 <= i < |plan.variants| ==>
      RecordedFrom(recorded[i], answers, history + Questions(id, plan.variants), |history| + i, id, plan.variants[i])
  }

  lemma AllTraced(recorded: seq<Recorded>, runs: seq<VariantRuns>, answers: Answers, environment: nat -> Environment,
                  id: nat, plan: BenchmarkPlan, history: seq<CacheStep>, requests: nat)
    requires ValidBenchmark(plan) && |recorded| == |runs| == |plan.variants| && Shaped(runs, plan)
    requires RecordedAll(recorded, answers, history, id, plan)
    requires Requested(answers, environment, id, plan, history, requests).failure.None?
    requires Bundles(runs) == Requested(answers, environment, id, plan, history, requests).bundles
    requires Undisturbed(environment, requests, |Schedule(plan, |plan.variants|)| - 1)
    ensures Provenance(Execution(recorded, runs), plan)
  {
    hide After, AnswerAt, Schedule;
    Placed(runs, plan);
    var s, variants := Progress(history + Questions(id, plan.variants), requests, [], None), Schedule(plan, |plan.variants|);
    forall i, bundle | 0 <= i < |runs| && bundle in runs[i].warmup + runs[i].measured
      ensures bundle.planId == recorded[i].planId
    {
      var j :| 0 <= j < |Bundles(runs)| && Bundles(runs)[j] == bundle && variants[j] == plan.variants[i];
      RecordedPlanRuns(answers, environment, id, s, variants, |history| + i, j);
    }
    forall i | 0 <= i < |runs| ensures Traced(recorded[i], runs[i], plan, plan.variants[i]) {
      assert runs[i].variant == plan.variants[i];
    }
  }

  // ---------------------------------------------------------------- when a benchmark completes

  // The request starts, becomes terminal after any number of inspections, has a recorded session, and
  // reopens with that run identity and the given Plan.
  predicate Succeeds(e: Environment, planId: string)
  {
    && e.orchestrated && e.started && e.terminal && e.session.Some? && e.recorded
    && e.reopened == Some(Bundle(e.session.value, planId))
  }

  // All requests from the given number on succeed with what the cache holds, in distinct runs.
  ghost predicate AllSucceed(environment: nat -> Environment, id: nat, requests: nat, variants: seq<Variant>, cache: Cache)
    requires forall v :: v in variants ==> (id, v.name) in cache
  {
    && (forall k: nat :: requests <= k < requests + |variants| ==>
          Succeeds(environment(k), cache[(id, variants[k - requests].name)].planId))
    && (forall k: nat, l: nat :: requests <= k < l < requests + |variants| ==> environment(k).session != environment(l).session)
  }

  ghost predicate Extends(before: Cache, after: Cache)
  {
    forall key :: key in before ==> key in after && after[key] == before[key]
  }

  // Where the requests are when all of them succeeded.
  ghost predicate Went(answers: Answers, environment: nat -> Environment, requests: nat, n: nat, cache: Cache, after: Progress)
  {
    && after.failure.None? && |after.bundles| == n && after.requests == requests + n
    && (forall k: nat :: requests <= k < requests + n ==>
          environment(k).reopened == Some(after.bundles[k - requests])
          && environment(k).session == Some(after.bundles[k - requests].runId))
    && Extends(cache, CacheAt(answers, after.history, |after.history|))
  }

  lemma NextWent(answers: Answers, environment: nat -> Environment, id: nat, requests: nat, n: nat, cache: Cache,
                 before: Progress, variant: Variant)
    requires Went(answers, environment, requests, n, cache, before)
    requires !variant.legacyOverrides && (id, variant.name) in cache && !environment(requests + n).clears
    ensures var next, e := Next(answers, environment, id, before, variant), environment(requests + n);
            && (next.failure.None? <==>
                Succeeds(e, cache[(id, variant.name)].planId)
                && forall k: nat :: requests <= k < requests + n ==> environment(k).session != e.session)
            && (next.failure.None? ==> Went(answers, environment, requests, n + 1, cache, next))
  {
    var asked, e := before.history + [Ask((id, variant.name))], environment(requests + n);
    CacheStands(answers, before.history, asked, |before.history|);
    assert AnswerAt(answers, asked, |before.history|) == Some(cache[(id, variant.name)]);
    assert CacheAt(answers, asked, |asked|) == CacheAt(answers, before.history, |before.history|);
    SeenBefore(environment, requests, n, before.bundles, e.session);
  }

  lemma SeenBefore(environment: nat -> Environment, requests: nat, n: nat, bundles: seq<Bundle>, session: Option<string>)
    requires |bundles| == n
    requires forall k: nat :: requests <= k < requests + n ==> environment(k).session == Some(bundles[k - requests].runId)
    ensures session.Some? ==>
              (session.value in Ids(bundles) <==> exists k: nat :: requests <= k < requests + n && environment(k).session == session)
  {
    if session.Some? {
      var ids := Ids(bundles);
      if session.value in ids {
        var i :| 0 <= i < |ids| && ids[i] == session.value;
        assert environment(requests + i).session == session;
      }
      if k: nat :| requests <= k < requests + n && environment(k).session == session {
        assert ids[k - requests] == session.value;
      }
    }
  }

  lemma {:induction false} UndisturbedSucceed(answers: Answers, environment: nat -> Environment, id: nat, s: Progress,
                                              variants: seq<Variant>, cache: Cache)
    requires s.failure.None? && s.bundles == [] && Extends(cache, CacheAt(answers, s.history, |s.history|))
    requires forall v :: v in variants ==> !v.legacyOverrides && (id, v.name) in cache
    requires Undisturbed(environment, s.requests, |variants|)
    ensures var after := After(answers, environment, id, s, variants);
            && (after.failure.None? <==> AllSucceed(environment, id, s.requests, variants, cache))
            && (after.failure.None? ==> Went(answers, environment, s.requests, |variants|, cache, after))
  {
    hide Next, Succeeds, Went, AllSucceed, Extends, Undisturbed, CacheAt;
    if variants == [] {
      NoneSucceed(answers, environment, id, s, cache);
    } else {
      var n := |variants| - 1;
      var front := variants[..n];
      UndisturbedFront(environment, s.requests, n);
      UndisturbedSucceed(answers, environment, id, s, front, cache);
      var before := After(answers, environment, id, s, front);
      assert After(answers, environment, id, s, variants) == Next(answers, environment, id, before, variants[n]);
      assert variants[n] in variants;
      if before.failure.None? {
        NextWent(answers, environment, id, s.requests, n, cache, before, variants[n]);
        OneMoreSucceeds(environment, id, s.requests, variants, cache);
      } else {
        FailedStays(answers, environment, id, before, variants[n]);
        if AllSucceed(environment, id, s.requests, variants, cache) {
          FewerSucceed(environment, id, s.requests, variants, cache);
        }
      }
    }
  }

  lemma NoneSucceed(answers: Answers, environment: nat -> Environment, id: nat, s: Progress, cache: Cache)
    requires s.failure.None? && s.bundles == [] && Extends(cache, CacheAt(answers, s.history, |s.history|))
    ensures AllSucceed(environment, id, s.requests, [], cache) && Went(answers, environment, s.requests, 0, cache, s)
  {
  }

  lemma UndisturbedFront(environment: nat -> Environment, requests: nat, n: nat)
    requires Undisturbed(environment, requests, n + 1)
    ensures Undisturbed(environment, requests, n) && !environment(requests + n).clears
  {
  }

  lemma FailedStays(answers: Answers, environment: nat -> Environment, id: nat, s: Progress, variant: Variant)
    requires s.failure.Some?
    ensures Next(answers, environment, id, s, variant) == s
  {
  }

  lemma OneMoreSucceeds(environment: nat -> Environment, id: nat, requests: nat, variants: seq<Variant>, cache: Cache)
    requires variants != [] && forall v :: v in variants ==> (id, v.name) in cache
    requires var n := |variants| - 1; AllSucceed(environment, id, requests, variants[..n], cache)
    ensures var n := |variants| - 1;
            AllSucceed(environment, id, requests, variants, cache) <==>
            Succeeds(environment(requests + n), cache[(id, variants[n].name)].planId)
            && forall k: nat :: requests <= k < requests + n ==> environment(k).session != environment(requests + n).session
  {
    hide Succeeds;
    var n := |variants| - 1;
    forall k: nat | requests <= k < requests + n
      ensures Succeeds(environment(k), cache[(id, variants[k - requests].name)].planId)
    {
      assert variants[..n][k - requests] == variants[k - requests];
    }
  }

  lemma FewerSucceed(environment: nat -> Environment, id: nat, requests: nat, variants: seq<Variant>, cache: Cache)
    requires variants != [] && forall v :: v in variants ==> (id, v.name) in cache
    requires AllSucceed(environment, id, requests, variants, cache)
    ensures AllSucceed(environment, id, requests, variants[..|variants| - 1], cache)
  {
    hide Succeeds;
    var n := |variants| - 1;
    forall k: nat | requests <= k < requests + n
      ensures Succeeds(environment(k), cache[(id, variants[..n][k - requests].name)].planId)
    {
      assert variants[..n][k - requests] == variants[k - requests];
    }
  }
  // Of the questions about all variants, each answer is in the cache afterwards.
  lemma QuestionsCached(answers: Answers, history: seq<CacheStep>, id: nat, plan: BenchmarkPlan, i: nat)
    requires Recordable(answers, history, id, plan) && i < |plan.variants|
    ensures var whole := history + Questions(id, plan.variants);
            var cache := CacheAt(answers, whole, |whole|);
            && AnswerAt(answers, whole, |history| + i).Some?
            && (id, plan.variants[i].name) in cache
            && cache[(id, plan.variants[i].name)] == AnswerAt(answers, whole, |history| + i).value
  {
    hide AnswerAt, CacheAt;
    var whole := history + Questions(id, plan.variants);
    assert whole[|history| + i] == Ask((id, plan.variants[i].name));
    assert Kept(whole, |history| + i, |whole|) by {
      assert forall c :: |history| <= c < |whole| ==> whole[c] == Questions(id, plan.variants)[c - |history|];
    }
    Remembers(answers, whole, |history| + i, |whole|);
  }

  lemma {:induction false} ScheduledVariants(plan: BenchmarkPlan, n: nat)
    requires plan.warmup >= 0 && plan.repeat >= 0 && n <= |plan.variants|
    ensures forall v :: v in Schedule(plan, n) ==> v in plan.variants
  {
    if n > 0 {
      ScheduledVariants(plan, n - 1);
    }
  }

  // The recorded answers.
  ghost function RecordedCache(answers: Answers, history: seq<CacheStep>, id: nat, plan: BenchmarkPlan): Cache
  {
    var whole := history + Questions(id, plan.variants);
    CacheAt(answers, whole, |whole|)
  }

  /**
   When nothing clears the cache, the requests of a benchmark all succeed exactly when each starts,
   finishes after however many inspections, and is recorded and reopened with the Plan recorded for
   its variant, in runs that differ from each other; the measured runs then share their Plan.
   */
  lemma CompletesExactly(answers: Answers, environment: nat -> Environment, id: nat, plan: BenchmarkPlan,
                         history: seq<CacheStep>, requests: nat)
    requires ValidBenchmark(plan) && Recordable(answers, history, id, plan)
    requires Undisturbed(environment, requests, |Schedule(plan, |plan.variants|)|)
    ensures forall v :: v in Schedule(plan, |plan.variants|) ==> (id, v.name) in RecordedCache(answers, history, id, plan)
    ensures var requested := Requested(answers, environment, id, plan, history, requests);
            && (requested.failure.None? <==>
                AllSucceed(environment, id, requests, Schedule(plan, |plan.variants|), RecordedCache(answers, history, id, plan)))
            && (requested.failure.None? ==> Aggregable(requested.bundles, plan))
  {
    hide After, CacheAt, AnswerAt, Schedule, Undisturbed, AllSucceed, Distinct;
    var whole, variants := history + Questions(id, plan.variants), Schedule(plan, |plan.variants|);
    var cache := CacheAt(answers, whole, |whole|);
    ScheduledVariants(plan, |plan.variants|);
    forall v | v in variants
      ensures !v.legacyOverrides && (id, v.name) in cache
    {
      var i :| 0 <= i < |plan.variants| && plan.variants[i] == v;
      QuestionsCached(answers, history, id, plan, i);
    }
    UndisturbedSucceed(answers, environment, id, Progress(whole, requests, [], None), variants, cache);
    var requested := Requested(answers, environment, id, plan, history, requests);
    if requested.failure.None? {
      BundlesOfSucceeding(environment, id, requests, variants, cache, requested.bundles);
      SharedPlans(plan, id, cache, requested.bundles);
    }
  }

  // The bundle is of a run of the plan that the cache holds for the variant.
  ghost predicate Executes(bundle: Bundle, variant: Variant, id: nat, cache: Cache)
  {
    (id, variant.name) in cache && bundle.planId == cache[(id, variant.name)].planId
  }

  ghost predicate Executing(variants: seq<Variant>, bundles: seq<Bundle>, id: nat, cache: Cache)
  {
    |bundles| == |variants| && forall j :: 0 <= j < |bundles| ==> Executes(bundles[j], variants[j], id, cache)
  }

  lemma BundlesOfSucceeding(environment: nat -> Environment, id: nat, requests: nat, variants: seq<Variant>,
                            cache: Cache, bundles: seq<Bundle>)
    requires (forall v :: v in variants ==> (id, v.name) in cache) && AllSucceed(environment, id, requests, variants, cache)
    requires |bundles| == |variants|
    requires forall k: nat :: requests <= k < requests + |bundles| ==> environment(k).reopened == Some(bundles[k - requests])
    ensures Executing(variants, bundles, id, cache)
  {
    forall j | 0 <= j < |bundles|
      ensures Executes(bundles[j], variants[j], id, cache)
    {
      assert environment(requests + j).reopened == Some(bundles[j]);
    }
  }

  // The runs of the first n variants, cut out of their bundles.
  function CutRuns(plan: BenchmarkPlan, n: nat, bundles: seq<Bundle>): (runs: seq<VariantRuns>)
    requires plan.warmup >= 0 && plan.repeat >= 0 && n <= |plan.variants| && |bundles| == |Schedule(plan, n)|
    ensures |runs| == n
  {
    if n == 0 then []
    else
      var before, variant := |Schedule(plan, n - 1)|, plan.variants[n - 1];
      CutRuns(plan, n - 1, bundles[..before])
      + [VariantRuns(variant, bundles[before..before + plan.warmup], bundles[before + plan.warmup..])]
  }

  lemma {:induction false} CutRunsFit(plan: BenchmarkPlan, n: nat, bundles: seq<Bundle>, id: nat, cache: Cache)
    requires plan.warmup >= 0 && plan.repeat >= 0 && n <= |plan.variants|
    requires Executing(Schedule(plan, n), bundles, id, cache)
    ensures var runs := CutRuns(plan, n, bundles); Shaped(runs, plan) && Bundles(runs) == bundles && Uniform(runs)
  {
    if n > 0 {
      hide Schedule, Bundles, Executes, Shaped, Uniform, CutRuns;
      ScheduleGrows(plan, n);
      FrontPlans(plan, n, bundles, id, cache);
      CutRunsFit(plan, n - 1, bundles[..|Schedule(plan, n - 1)|], id, cache);
      MeasuredShare(plan, n, bundles, id, cache);
      CutRunsNext(plan, n, bundles);
    } else {
      assert Bundles([]) == [];
    }
  }

  lemma {:induction false} CutRunsNext(plan: BenchmarkPlan, n: nat, bundles: seq<Bundle>)
    requires plan.warmup >= 0 && plan.repeat >= 0 && 0 < n <= |plan.variants| && |bundles| == |Schedule(plan, n)|
    requires |Schedule(plan, n)| == |Schedule(plan, n - 1)| + plan.warmup + plan.repeat
    requires var front := bundles[..|Schedule(plan, n - 1)|];
             var init := CutRuns(plan, n - 1, front);
             Shaped(init, plan) && Bundles(init) == front && Uniform(init)
    requires OneWorkload(bundles[|Schedule(plan, n - 1)| + plan.warmup..])
    ensures var runs := CutRuns(plan, n, bundles); Shaped(runs, plan) && Bundles(runs) == bundles && Uniform(runs)
  {
    hide Schedule, Bundles, Shaped, Uniform, OneWorkload;
    var before := |Schedule(plan, n - 1)|;
    var init := CutRuns(plan, n - 1, bundles[..before]);
    var last := VariantRuns(plan.variants[n - 1], bundles[before..before + plan.warmup], bundles[before + plan.warmup..]);
    assert CutRuns(plan, n, bundles) == init + [last];
    Pieces(bundles, before, before + plan.warmup);
    ShapedNext(init, last, plan);
    UniformNext(init, last);
  }

  lemma MeasuredShare(plan: BenchmarkPlan, n: nat, bundles: seq<Bundle>, id: nat, cache: Cache)
    requires plan.warmup >= 0 && plan.repeat >= 0 && 0 < n <= |plan.variants|
    requires Executing(Schedule(plan, n), bundles, id, cache)
    requires |bundles| == |Schedule(plan, n - 1)| + plan.warmup + plan.repeat
    ensures OneWorkload(bundles[|Schedule(plan, n - 1)| + plan.warmup..])
  {
    hide Schedule, Executing;
    var measured := bundles[|Schedule(plan, n - 1)| + plan.warmup..];
    forall k | 0 <= k < |measured|
      ensures measured[k].planId == measured[0].planId
    {
      MeasuredPlan(plan, n, bundles, id, cache, k);
      MeasuredPlan(plan, n, bundles, id, cache, 0);
    }
  }

  lemma UniformNext(runs: seq<VariantRuns>, next: VariantRuns)
    requires Uniform(runs) && OneWorkload(next.measured)
    ensures Uniform(runs + [next])
  {
  }

  lemma Pieces<T>(s: seq<T>, a: nat, b: nat)
    requires a <= b <= |s|
    ensures s[..a] + s[a..b] + s[b..] == s
  {
  }

  lemma ScheduleGrows(plan: BenchmarkPlan, n: nat)
    requires plan.warmup >= 0 && plan.repeat >= 0 && 0 < n <= |plan.variants|
    ensures |Schedule(plan, n)| == |Schedule(plan, n - 1)| + plan.warmup + plan.repeat
    ensures forall j :: 0 <= j < |Schedule(plan, n - 1)| ==> Schedule(plan, n)[j] == Schedule(plan, n - 1)[j]
  {
  }

  lemma FrontPlans(plan: BenchmarkPlan, n: nat, bundles: seq<Bundle>, id: nat, cache: Cache)
    requires plan.warmup >= 0 && plan.repeat >= 0 && 0 < n <= |plan.variants|
    requires Executing(Schedule(plan, n), bundles, id, cache)
    ensures |Schedule(plan, n - 1)| <= |bundles|
    ensures Executing(Schedule(plan, n - 1), bundles[..|Schedule(plan, n - 1)|], id, cache)
  {
    hide Schedule;
    ScheduleGrows(plan, n);
    var fewer, front := Schedule(plan, n - 1), bundles[..|Schedule(plan, n - 1)|];
    forall j | 0 <= j < |fewer|
      ensures Executes(front[j], fewer[j], id, cache)
    {
      assert Schedule(plan, n)[j] == fewer[j] && Executes(bundles[j], Schedule(plan, n)[j], id, cache);
    }
  }

  lemma MeasuredPlan(plan: BenchmarkPlan, n: nat, bundles: seq<Bundle>, id: nat, cache: Cache, k: nat)
    requires plan.warmup >= 0 && plan.repeat >= 0 && 0 < n <= |plan.variants|
    requires Executing(Schedule(plan, n), bundles, id, cache)
    requires k < plan.repeat
    ensures var at := |Schedule(plan, n - 1)| + plan.warmup + k;
            && at < |bundles| && (id, plan.variants[n - 1].name) in cache
            && bundles[at].planId == cache[(id, plan.variants[n - 1].name)].planId
  {
    var at := |Schedule(plan, n - 1)| + plan.warmup + k;
    assert Schedule(plan, n)[at] == plan.variants[n - 1] && Executes(bundles[at], Schedule(plan, n)[at], id, cache);
  }

  lemma SharedPlans(plan: BenchmarkPlan, id: nat, cache: Cache, bundles: seq<Bundle>)
    requires plan.warmup >= 0 && plan.repeat >= 0 && Executing(Schedule(plan, |plan.variants|), bundles, id, cache)
    ensures Aggregable(bundles, plan)
  {
    hide Schedule, Shaped, Bundles, Uniform;
    CutRunsFit(plan, |plan.variants|, bundles, id, cache);
  }

  /**
   A benchmark completes exactly when every variant resolves to one System, no request fails, and
   the measured runs of each variant executed one plan.  Unless the cache is cleared before the last
   request, every warm-up and measured run executed the System Plan recorded for the variant.
   The suite never rejects the runs.
   */
  method ExecuteBenchmark(id: nat, plan: BenchmarkPlan, runner: SystemRunner, assembled: bool)
    returns (result: Result<Execution, Failure>)
    requires runner.Valid() && ValidBenchmark(plan)
    modifies runner, runner.resolver
    ensures runner.Valid()
    ensures var requested := Requested(runner.resolver.answers, runner.environment, id, plan,
                                       old(runner.resolver.history), old(runner.requests));
            result.Ok? <==> Recordable(runner.resolver.answers, old(runner.resolver.history), id, plan)
                            && requested.failure.None? && Aggregable(requested.bundles, plan) && assembled
    ensures result.Ok? ==>
              && |result.value.runs| == |plan.variants| && Shaped(result.value.runs, plan)
              && Bundles(result.value.runs) == Requested(runner.resolver.answers, runner.environment, id, plan,
                                                         old(runner.resolver.history), old(runner.requests)).bundles
              && RecordedAll(result.value.recorded, runner.resolver.answers, old(runner.resolver.history), id, plan)
              && Distinct(Ids(Bundles(result.value.runs)))
              && runner.made == old(runner.made) + Requests(result.value.runs)
    ensures result.Ok?
            && Undisturbed(runner.environment, old(runner.requests), |Schedule(plan, |plan.variants|)| - 1)
            ==> Provenance(result.value, plan)
    ensures result.Err? ==> result.error !in {SuiteInput, VariantCount}
  {
    hide Distinct, Names, Traced, RecordedFrom, GoodRunSets, After, Undisturbed, Schedule, Recordable, Requests, Provenance;
    hide Shaped, Bundles, Uniform, OneWorkload;
    var recorded :- runner.resolver.WorkloadSet(id, plan);
    var ran, after := ExecuteRuns(id, plan, runner);
    var runs :- ran;
    var measured := MeasuredRuns(plan, runs);
    SuiteAccepts(plan, runs, measured);
    var sets := ValidatedRunSets(plan, measured);
    if sets.Err? {
      return Err(SuiteInput);
    }
    if !Uniform(runs) {
      if Aggregable(after.bundles, plan) {
        var other: seq<VariantRuns> :|
          |other| == |plan.variants| && Shaped(other, plan) && Bundles(other) == after.bundles && Uniform(other);
        SameRuns(runs, other, plan);
      }
      return Err(AssemblyFailed);
    }
    if !assembled {
      return Err(AssemblyFailed);
    }
    if Undisturbed(runner.environment, old(runner.requests), |Schedule(plan, |plan.variants|)| - 1) {
      AllTraced(recorded, runs, runner.resolver.answers, runner.environment, id, plan,
                old(runner.resolver.history), old(runner.requests));
    }
    return Ok(Execution(recorded, runs));
  }

  /**
   A benchmark that completes without provenance: the orchestrator of the warm-up run clears the
   cache, the System has changed since it was recorded, and the measured run executes another plan.
   */
  method ClearedBenchmark() returns (result: Result<Execution, Failure>)
    ensures result.Ok? && |result.value.recorded| == |result.value.runs| == 1 == |result.value.runs[0].measured|
    ensures result.value.recorded[0].planId == "a" && result.value.runs[0].measured[0].planId == "b"
  {
    hide Recordable, After, Aggregable, AnswerAt, Schedule;
    var variant := Variant("v", None, false);
    var plan := BenchmarkPlan(1, 1, [variant]);
    var resolver := new WorkloadResolver(Switch(2, PlanA, PlanB));
    var environment := (k: nat) => Environment(true, k == 0, true, 0, true, None, true, None);
    var runner := new SystemRunner(resolver, Smooth(environment, 0), 1.0, 1.0, 1.0);
    ClearedRequests(environment, variant, plan);
    result := ExecuteBenchmark(0, plan, runner, true);
    OneRunOnly(result.value.runs, plan);
  }

  lemma OneRunOnly(runs: seq<VariantRuns>, plan: BenchmarkPlan)
    requires |runs| == 1 && Shaped(runs, plan) && plan.warmup == plan.repeat == 1
    ensures |runs[0].warmup| == |runs[0].measured| == 1 && Bundles(runs) == [runs[0].warmup[0], runs[0].measured[0]]
  {
    assert Bundles(runs) == Bundles([]) + runs[0].warmup + runs[0].measured;
  }

  lemma ClearedRequests(e: nat -> Environment, variant: Variant, plan: BenchmarkPlan)
    requires variant == Variant("v", None, false) && plan == BenchmarkPlan(1, 1, [variant]) && e(0).clears
    ensures Recordable(Switch(2, PlanA, PlanB), [], 0, plan)
    ensures var after := After(Switch(2, PlanA, PlanB), Smooth(e, 0), 0,
                               Progress([] + Questions(0, plan.variants), 0, [], None), Schedule(plan, |plan.variants|));
            after.failure.None? && after.bundles == [Bundle(RunName(0), "a"), Bundle(RunName(1), "b")]
            && Aggregable(after.bundles, plan)
    ensures AnswerAt(Switch(2, PlanA, PlanB), [] + Questions(0, plan.variants), 0) == Some(PlanA)
  {
    hide After, AnswerAt;
    var asked := [] + Questions(0, plan.variants);
    assert asked == [Ask((0, "v"))];
    assert Strip("v") == "v";
    SwitchedAnswer(asked, 2, PlanA, PlanB, 0);
    assert Schedule(plan, 1) == [variant, variant] by {
      assert Schedule(plan, 0) == [];
    }
    SmoothRuns(e, 0, asked, 0, [variant, variant], 0);
    var bundles := [Bundle(RunName(0), "a"), Bundle(RunName(1), "b")];
    var runs := [VariantRuns(variant, [bundles[0]], [bundles[1]])];
    assert Bundles(runs) == Bundles([]) + [bundles[0]] + [bundles[1]] == bundles;
    assert Shaped(runs, plan) && Uniform(runs);
  }
}
