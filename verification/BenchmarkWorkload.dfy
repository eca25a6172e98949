/**
 Which System Plan a benchmark variant stands for: resolution, its cache, and the recorded identity.

 Loading and planning a System is outside: what a fresh resolution would give at each moment is an
 input, and may change at will.  A live benchmark plan is known by its object identity, a number.
 */
module BenchmarkWorkload {
  import opened Wrappers
  import opened Graph
  import opened ManifestModel

  datatype Variant = Variant(name: string, profile: Option<string>, legacyOverrides: bool)

  datatype BenchmarkPlan = BenchmarkPlan(repeat: int, warmup: int, variants: seq<Variant>)

  // Text without surrounding white space; plan records strip their id when they are made.
  function Strip(text: string): string
  {
    if text == [] then []
    else if IsSpace(text[0]) then Strip(text[1..])
    else if IsSpace(text[|text| - 1]) then Strip(text[..|text| - 1])
    else text
  }

  type PlanId = id: string | id != "" && Strip(id) == id witness "p"

  datatype SystemPlan = SystemPlan(planId: PlanId, system: string, revision: string)

  datatype Recorded = Recorded(name: string, system: string, revision: string, planId: string)

  datatype Failure =
    | UnknownVariant | LegacyOverrides | ResolutionFailed | EmptyName | RepeatedName | SystemsDiffer | NamesDiffer
    | FactoryFailed | StartFailed | InspectionFailed | NoSession | NotRecorded | ReopenFailed | OtherRun | OtherPlan
    | ReusedRun | VariantCount | SuiteInput | AssemblyFailed

  function VariantNames(variants: seq<Variant>): (names: seq<string>)
    ensures |names| == |variants| && forall i :: 0 <= i < |variants| ==> names[i] == variants[i].name
  {
    seq(|variants|, i requires 0 <= i < |variants| => variants[i].name)
  }

  // What constructing a benchmark plan checks.
  ghost predicate ValidBenchmark(plan: BenchmarkPlan)
  {
    plan.repeat >= 1 && plan.warmup >= 0 && plan.variants != [] && Distinct(VariantNames(plan.variants))
  }

  function FindVariant(variants: seq<Variant>, name: string): Option<Variant>
  {
    if variants == [] then None
    else if variants[0].name == name then Some(variants[0])
    else FindVariant(variants[1..], name)
  }

  lemma NamedOnce(variants: seq<Variant>, i: nat, j: nat)
    requires Distinct(VariantNames(variants)) && i < j < |variants|
    ensures variants[i].name != variants[j].name
  {
    var names := VariantNames(variants);
    assert names[i] != names[j];
  }

  lemma {:induction false} FoundVariant(variants: seq<Variant>, variant: Variant)
    requires Distinct(VariantNames(variants))
    ensures FindVariant(variants, variant.name) == Some(variant) <==> variant in variants
  {
    if variants != [] {
      var names := VariantNames(variants);
      assert forall i :: 0 <= i < |variants| - 1 ==> VariantNames(variants[1..])[i] == names[i + 1];
      FoundVariant(variants[1..], variant);
      if variants[0].name == variant.name && variant in variants[1..] {
        var i :| 0 <= i < |variants[1..]| && variants[1..][i] == variant;
        NamedOnce(variants, 0, i + 1);
      }
    }
  }

  // ---------------------------------------------------------------- what the cache answers

  type Key = (nat, string)

  type Cache = map<Key, SystemPlan>

  datatype CacheStep = Ask(key: Key) | Clear

  // What resolving afresh gives, by the number of steps taken before; None is a failure.
  type Answers = nat -> Option<SystemPlan>

  // The cache after the first n steps: a successful resolution is added, never changed.
  function CacheAt(answers: Answers, history: seq<CacheStep>, n: nat): Cache
    requires n <= |history|
  {
    if n == 0 then map[]
    else
      var before := CacheAt(answers, history, n - 1);
      match history[n - 1]
      case Clear => map[]
      case Ask(key) =>
        if key in before || answers(n - 1).None? then before else before[key := answers(n - 1).value]
  }

  // What the question at step p is answered with.
  function AnswerAt(answers: Answers, history: seq<CacheStep>, p: nat): Option<SystemPlan>
    requires p < |history| && history[p].Ask?
  {
    var before := CacheAt(answers, history, p);
    if history[p].key in before then Some(before[history[p].key]) else answers(p)
  }

  lemma {:induction false} CacheStands(answers: Answers, history: seq<CacheStep>, longer: seq<CacheStep>, n: nat)
    requires history <= longer && n <= |history|
    ensures CacheAt(answers, history, n) == CacheAt(answers, longer, n)
  {
    if n > 0 {
      CacheStands(answers, history, longer, n - 1);
    }
  }

  lemma AnswerStands(answers: Answers, history: seq<CacheStep>, longer: seq<CacheStep>, p: nat)
    requires history <= longer && p < |history| && history[p].Ask?
    ensures AnswerAt(answers, history, p) == AnswerAt(answers, longer, p)
  {
    CacheStands(answers, history, longer, p);
  }

  class WorkloadResolver {
    const answers: Answers
    var cache: Cache
    var history: seq<CacheStep>

    ghost predicate Valid()
      reads this
    {
      cache == CacheAt(answers, history, |history|)
    }

    constructor (answers: Answers)
      ensures Valid() && this.answers == answers && history == []
    {
      this.answers, cache, history := answers, map[], [];
    }

    method ClearCache()
      modifies this
      ensures Valid() && cache == map[] && history == old(history) + [Clear]
    {
      cache, history := map[], history + [Clear];
    }

    /** Answers for a plan object and variant name with the plan it first resolved them to since the cache was last cleared. */
    method ResolvedVariant(id: nat, plan: BenchmarkPlan, variant: Variant) returns (result: Result<SystemPlan, Failure>)
      requires Valid() && ValidBenchmark(plan)
      modifies this
      ensures Valid()
      ensures variant !in plan.variants ==> result == Err(UnknownVariant)
      ensures variant in plan.variants && variant.legacyOverrides ==> result == Err(LegacyOverrides)
      ensures variant in plan.variants && !variant.legacyOverrides ==>
                && history == old(history) + [Ask((id, variant.name))]
                && match AnswerAt(answers, history, old(|history|))
                   case None => result == Err(ResolutionFailed)
                   case Some(resolved) => result == Ok(resolved)
      ensures variant !in plan.variants || variant.legacyOverrides ==> history == old(history)
    {
      FoundVariant(plan.variants, variant);
      if FindVariant(plan.variants, variant.name) != Some(variant) {
        return Err(UnknownVariant);
      }
      if variant.legacyOverrides {
        return Err(LegacyOverrides);
      }
      var key := (id, variant.name);
      var found := answers(|history|);
      CacheStands(answers, history, history + [Ask(key)], |history|);
      history := history + [Ask(key)];
      if key in cache {
        return Ok(cache[key]);
      }
      match found {
        case None => return Err(ResolutionFailed);
        case Some(resolved) =>
          cache := cache[key := resolved];
          return Ok(resolved);
      }
    }

    // Resolves every variant in the order of the benchmark plan.
    method ResolveAll(id: nat, plan: BenchmarkPlan) returns (result: Result<seq<Recorded>, Failure>)
      requires Valid() && ValidBenchmark(plan)
      modifies this
      ensures Valid() && old(history) <= history <= old(history) + Questions(id, plan.variants)
      ensures result.Ok? ==> history == old(history) + Questions(id, plan.variants) && |result.value| == |plan.variants|
      ensures result.Ok? ==> forall i :: 0 <= i < |plan.variants| ==>
                Stated(result.value[i], answers, history, old(|history|) + i, id, plan.variants[i])
      ensures result.Err? ==> exists i :: 0 <= i < |plan.variants| && Unresolved(answers, old(history), id, plan, i)
      ensures result.Err? ==> result.error !in {SuiteInput, VariantCount}
    {
      hide Distinct, Strip, AnswerAt, CacheAt;
      ghost var start, whole := |history|, history + Questions(id, plan.variants);
      var recorded: seq<Recorded> := [];
      for i := 0 to |plan.variants|
        invariant |recorded| == i && Valid() && |history| == start + i && old(history) <= history <= whole
        invariant forall k :: 0 <= k < i ==> Stated(recorded[k], answers, whole, start + k, id, plan.variants[k])
      {
        var variant := plan.variants[i];
        ghost var asked := history + [Ask((id, variant.name))];
        AnswerStands(answers, asked, whole, start + i);
        var resolved := ResolvedVariant(id, plan, variant);
        if resolved.Err? {
          assert Unresolved(answers, old(history), id, plan, i);
          return Err(resolved.error);
        }
        var found := resolved.value;
        recorded := recorded + [Recorded(Strip(variant.name), found.system, found.revision, found.planId)];
      }
      return Ok(recorded);
    }

    /** Resolves every variant and records its identity. */
    method WorkloadSet(id: nat, plan: BenchmarkPlan) returns (result: Result<seq<Recorded>, Failure>)
      requires Valid() && ValidBenchmark(plan)
      modifies this
      ensures Valid() && old(history) <= history <= old(history) + Questions(id, plan.variants)
      ensures result.Ok? <==> Recordable(answers, old(history), id, plan)
      ensures result.Ok? ==> history == old(history) + Questions(id, plan.variants) && |result.value| == |plan.variants|
      ensures result.Ok? ==> forall i :: 0 <= i < |plan.variants| ==>
                RecordedFrom(result.value[i], answers, history, old(|history|) + i, id, plan.variants[i])
      ensures result.Err? ==> result.error !in {SuiteInput, VariantCount}
    {
      hide Distinct, Strip, AnswerAt;
      var recorded :- ResolveAll(id, plan);
      if exists i :: 0 <= i < |recorded| && recorded[i].name == "" {
        return Err(EmptyName);
      }
      if exists i :: 0 <= i < |recorded| && recorded[i].system != recorded[0].system {
        return Err(SystemsDiffer);
      }
      if exists i :: 0 <= i < |recorded| && recorded[i].name != plan.variants[i].name {
        return Err(NamesDiffer);
      }
      return Ok(recorded);
    }
  }

  ghost predicate Unresolved(answers: Answers, history: seq<CacheStep>, id: nat, plan: BenchmarkPlan, i: nat)
    requires i < |plan.variants|
  {
    plan.variants[i].legacyOverrides || AnswerAt(answers, history + Questions(id, plan.variants), |history| + i).None?
  }

  // One question for each variant in order.
  function Questions(id: nat, variants: seq<Variant>): (steps: seq<CacheStep>)
    ensures |steps| == |variants| && forall i :: 0 <= i < |variants| ==> steps[i] == Ask((id, variants[i].name))
  {
    seq(|variants|, i requires 0 <= i < |variants| => Ask((id, variants[i].name)))
  }

  // The question at step p is about the variant and is answered with the recorded plan.
  ghost predicate Stated(recorded: Recorded, answers: Answers, history: seq<CacheStep>, p: nat, id: nat, variant: Variant)
  {
    && p < |history| && history[p] == Ask((id, variant.name)) && !variant.legacyOverrides
    && recorded.name == Strip(variant.name)
    && match AnswerAt(answers, history, p)
       case None => false
       case Some(plan) =>
         recorded.planId == plan.planId && recorded.system == plan.system && recorded.revision == plan.revision
  }

  ghost predicate RecordedFrom(recorded: Recorded, answers: Answers, history: seq<CacheStep>, p: nat, id: nat, variant: Variant)
  {
    Stated(recorded, answers, history, p, id, variant) && recorded.name == variant.name
  }

  // Every variant resolves, under a clean name that is not empty, and all of them to one System.
  ghost predicate Recordable(answers: Answers, history: seq<CacheStep>, id: nat, plan: BenchmarkPlan)
  {
    var whole, n := history + Questions(id, plan.variants), |history|;
    forall i :: 0 <= i < |plan.variants| ==>
      && !plan.variants[i].legacyOverrides && Strip(plan.variants[i].name) == plan.variants[i].name != ""
      && AnswerAt(answers, whole, n + i).Some? && AnswerAt(answers, whole, n).Some?
      && AnswerAt(answers, whole, n + i).value.system == AnswerAt(answers, whole, n).value.system
  }

  // ---------------------------------------------------------------- one cache is enough exactly while it is not cleared

  ghost predicate Kept(history: seq<CacheStep>, p: nat, q: nat)
  {
    forall c :: p < c < q && c < |history| ==> !history[c].Clear?
  }

  lemma {:induction false} Remembers(answers: Answers, history: seq<CacheStep>, p: nat, n: nat)
    requires p < n <= |history| && history[p].Ask? && AnswerAt(answers, history, p).Some? && Kept(history, p, n)
    ensures var cache := CacheAt(answers, history, n);
            history[p].key in cache && cache[history[p].key] == AnswerAt(answers, history, p).value
  {
    if n > p + 1 {
      Remembers(answers, history, p, n - 1);
    }
  }

  /** However often and however differently variants are resolved, without clearing the first answer stands. */
  lemma FirstAnswerStands(answers: Answers, history: seq<CacheStep>, p: nat, q: nat)
    requires p < q < |history| && history[p].Ask? && history[q] == history[p] && Kept(history, p, q)
    ensures AnswerAt(answers, history, p).Some? ==> AnswerAt(answers, history, q) == AnswerAt(answers, history, p)
  {
    if AnswerAt(answers, history, p).Some? {
      Remembers(answers, history, p, q);
    }
  }

  // Resolution gives plan a up to step c, and plan b from then on.
  function Switch(c: nat, a: SystemPlan, b: SystemPlan): Answers
  {
    (i: nat) => if i <= c then Some(a) else Some(b)
  }

  lemma {:induction false} SwitchedCache(history: seq<CacheStep>, c: nat, a: SystemPlan, b: SystemPlan, n: nat)
    requires n <= |history| && (c < n ==> history[c].Clear?)
    ensures forall key :: key in CacheAt(Switch(c, a, b), history, n) ==>
              CacheAt(Switch(c, a, b), history, n)[key] == if n <= c then a else b
  {
    if n > 0 {
      SwitchedCache(history, c, a, b, n - 1);
    }
  }

  lemma SwitchedAnswer(history: seq<CacheStep>, c: nat, a: SystemPlan, b: SystemPlan, p: nat)
    requires p < |history| && history[p].Ask? && (c < p ==> history[c].Clear?)
    ensures AnswerAt(Switch(c, a, b), history, p) == Some(if p <= c then a else b)
  {
    SwitchedCache(history, c, a, b, p);
  }

  // Two questions that are both answered are answered with the same plan.
  ghost predicate Agree(answers: Answers, history: seq<CacheStep>, p: nat, q: nat)
    requires p < |history| && q < |history| && history[p].Ask? && history[q].Ask?
  {
    AnswerAt(answers, history, p).Some? && AnswerAt(answers, history, q).Some? ==>
      AnswerAt(answers, history, p).value.planId == AnswerAt(answers, history, q).value.planId
  }

  /**
   The plan recorded at step p and the plan executed at step q agree, whatever resolution gives and
   whenever it changes, exactly when the cache is not cleared in between.
   */
  lemma AgreeExactly(history: seq<CacheStep>, p: nat, q: nat)
    requires p < q < |history| && history[p].Ask? && history[q] == history[p]
    ensures (forall answers :: Agree(answers, history, p, q)) <==> Kept(history, p, q)
  {
    hide AnswerAt;
    if Kept(history, p, q) {
      forall answers: Answers ensures Agree(answers, history, p, q) {
        FirstAnswerStands(answers, history, p, q);
      }
    } else {
      var c :| p < c < q && history[c].Clear?;
      PlainIds();
      var a, b := SystemPlan("a", "s", "r"), SystemPlan("b", "s", "r");
      SwitchedAnswer(history, c, a, b, p);
      SwitchedAnswer(history, c, a, b, q);
      assert !Agree(Switch(c, a, b), history, p, q);
    }
  }

  lemma PlainIds()
    ensures Strip("a") == "a" && Strip("b") == "b"
  {
  }
}
