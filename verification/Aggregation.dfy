/**
 Aggregating the observations of the runs of one benchmark.

 Means are exact: numbers are real, so rounding is not modelled.  Run identities are already
 stripped, and `order` stands for sorting a set of identifiers.
 */
module Aggregation {
  import opened Wrappers
  import opened Graph
  import opened Statistics

  // The description does not take part in the identity of a metric.
  datatype Descriptor = Descriptor(id: string, name: string, valueType: string, unit: Option<string>, description: Option<string>)

  datatype Metric = Metric(descriptor: Descriptor, count: nat, mean: real)

  datatype Observation = Observation(runId: string, successful: bool, duration: real, metricsComplete: bool, metrics: seq<Metric>)

  datatype NumericSummary = NumericSummary(count: int, minimum: real, maximum: real, mean: real)

  datatype MetricAggregate = MetricAggregate(
    descriptor: Descriptor, successfulRuns: int, observedRuns: int, totalObservations: int,
    runMeans: NumericSummary, complete: bool)

  datatype Aggregate = Aggregate(
    runIds: seq<string>, successfulRunIds: seq<string>, failedRunIds: seq<string>,
    duration: NumericSummary, metricsComplete: bool, metrics: seq<MetricAggregate>)

  datatype Failure = NoRuns | RepeatedRun | NoSuccess | MixedSemantics | InvalidSummary | InvalidMetric | InvalidAggregate

  type Order = set<string> -> seq<string>

  ghost predicate Sorting(order: Order)
  {
    forall s :: Names(order(s)) == s && Distinct(order(s))
  }

  // ---------------------------------------------------------------- what the constructors check

  function MetricIds(metrics: seq<Metric>): (ids: seq<string>)
    ensures |ids| == |metrics| && forall i :: 0 <= i < |metrics| ==> ids[i] == metrics[i].descriptor.id
  {
    seq(|metrics|, i requires 0 <= i < |metrics| => metrics[i].descriptor.id)
  }

  ghost predicate ValidObservation(o: Observation)
  {
    && o.runId != "" && o.duration >= 0.0 && Distinct(MetricIds(o.metrics))
    && forall m :: m in o.metrics ==> m.count >= 1
  }

  predicate ValidSummary(s: NumericSummary)
  {
    s.count >= 1 && s.minimum <= s.mean <= s.maximum
  }

  predicate ValidMetric(a: MetricAggregate)
  {
    && 1 <= a.observedRuns <= a.successfulRuns
    && a.runMeans.count == a.observedRuns <= a.totalObservations
  }

  function AggregateIds(metrics: seq<MetricAggregate>): (ids: seq<string>)
    ensures |ids| == |metrics| && forall i :: 0 <= i < |metrics| ==> ids[i] == metrics[i].descriptor.id
  {
    seq(|metrics|, i requires 0 <= i < |metrics| => metrics[i].descriptor.id)
  }

  predicate ValidAggregate(order: Order, a: Aggregate)
  {
    var partition := a.successfulRunIds + a.failedRunIds;
    && a.runIds != [] && a.successfulRunIds != [] && |Names(a.runIds)| == |a.runIds|
    && Names(partition) == Names(a.runIds) && |partition| == |a.runIds|
    && a.duration.count == |a.successfulRunIds|
    && AggregateIds(a.metrics) == order(Names(AggregateIds(a.metrics)))
  }

  // ---------------------------------------------------------------- what is aggregated

  function RunIds(runs: seq<Observation>): (ids: seq<string>)
    ensures |ids| == |runs| && forall i :: 0 <= i < |runs| ==> ids[i] == runs[i].runId
  {
    seq(|runs|, i requires 0 <= i < |runs| => runs[i].runId)
  }

  function Durations(runs: seq<Observation>): (durations: seq<real>)
    ensures |durations| == |runs| && forall i :: 0 <= i < |runs| ==> durations[i] == runs[i].duration
  {
    seq(|runs|, i requires 0 <= i < |runs| => runs[i].duration)
  }

  function Means(metrics: seq<Metric>): (means: seq<real>)
    ensures |means| == |metrics| && forall i :: 0 <= i < |metrics| ==> means[i] == metrics[i].mean
  {
    seq(|metrics|, i requires 0 <= i < |metrics| => metrics[i].mean)
  }

  function Total(metrics: seq<Metric>): nat
  {
    if metrics == [] then 0 else Total(metrics[..|metrics| - 1]) + metrics[|metrics| - 1].count
  }

  function Having(runs: seq<Observation>, successful: bool): seq<Observation>
  {
    if runs == [] then []
    else
      var last := runs[|runs| - 1];
      Having(runs[..|runs| - 1], successful) + if last.successful == successful then [last] else []
  }

  // The metrics of the runs, one run after the other.
  function Observed(runs: seq<Observation>): seq<Metric>
  {
    if runs == [] then [] else Observed(runs[..|runs| - 1]) + runs[|runs| - 1].metrics
  }

  function Of(metrics: seq<Metric>, id: string): seq<Metric>
  {
    if metrics == [] then []
    else
      var last := metrics[|metrics| - 1];
      Of(metrics[..|metrics| - 1], id) + if last.descriptor.id == id then [last] else []
  }

  function Ids(metrics: seq<Metric>): set<string>
  {
    set m | m in metrics :: m.descriptor.id
  }

  predicate SameSemantics(a: Descriptor, b: Descriptor)
  {
    a.name == b.name && a.valueType == b.valueType && a.unit == b.unit
  }

  // An identity stands for one meaning.
  ghost predicate Coherent(metrics: seq<Metric>)
  {
    forall i, j :: 0 <= i < j < |metrics| && metrics[i].descriptor.id == metrics[j].descriptor.id ==>
      SameSemantics(metrics[i].descriptor, metrics[j].descriptor)
  }

  function SummaryOf(values: seq<real>): NumericSummary
    requires values != []
  {
    NumericSummary(|values|, Minimum(values), Maximum(values), Mean(values))
  }

  // ---------------------------------------------------------------- grouping by descriptor

  // What the two dictionaries hold for one identity after the metrics so far.
  ghost predicate GroupedAt(metrics: seq<Metric>, descriptors: map<string, Descriptor>, groups: map<string,
                            seq<Metric>>, id: string)
  {
    && (id in descriptors <==> id in groups) && (id in groups <==> id in Ids(metrics))
    && (id in groups ==>
          && groups[id] == Of(metrics, id) && groups[id] != []
          && descriptors[id] == groups[id][|groups[id]| - 1].descriptor)
    && (forall m :: m in metrics && m.descriptor.id == id ==> id in descriptors && SameSemantics(m.descriptor, descriptors[id]))
  }

  ghost predicate Grouped(metrics: seq<Metric>, descriptors: map<string, Descriptor>, groups: map<string, seq<Metric>>)
  {
    forall id :: GroupedAt(metrics, descriptors, groups, id)
  }

  lemma GroupOne(metrics: seq<Metric>, m: Metric, descriptors: map<string, Descriptor>, groups: map<string,
                 seq<Metric>>)
    requires Grouped(metrics, descriptors, groups)
    requires m.descriptor.id in descriptors ==> SameSemantics(descriptors[m.descriptor.id], m.descriptor)
    ensures var id := m.descriptor.id;
            var group := if id in groups then groups[id] else [];
            Grouped(metrics + [m], descriptors[id := m.descriptor], groups[id := group + [m]])
  {
    hide Of, Ids;
    var id := m.descriptor.id;
    var group := if id in groups then groups[id] else [];
    var more, d, g := metrics + [m], descriptors[id := m.descriptor], groups[id := group + [m]];
    forall other
      ensures GroupedAt(more, d, g, other)
    {
      assert GroupedAt(metrics, descriptors, groups, other);
      OfNext(metrics, m, other);
      OfNone(metrics, other);
    }
  }

  lemma OfNext(metrics: seq<Metric>, m: Metric, id: string)
    ensures Of(metrics + [m], id) == Of(metrics, id) + if m.descriptor.id == id then [m] else []
    ensures id in Ids(metrics + [m]) <==> id in Ids(metrics) || id == m.descriptor.id
  {
    assert (metrics + [m])[..|metrics|] == metrics;
  }

  lemma {:induction false} OfNone(metrics: seq<Metric>, id: string)
    ensures id !in Ids(metrics) <==> Of(metrics, id) == []
  {
    if metrics != [] {
      var init, last := metrics[..|metrics| - 1], metrics[|metrics| - 1];
      OfNone(init, id);
      assert metrics == init + [last];
      assert Ids(metrics) == Ids(init) + {last.descriptor.id};
    }
  }

  lemma GroupedCoherent(metrics: seq<Metric>, descriptors: map<string, Descriptor>, groups: map<string, seq<Metric>>)
    requires Grouped(metrics, descriptors, groups)
    ensures Coherent(metrics)
  {
    hide Of, Ids;
    forall i, j | 0 <= i < j < |metrics| && metrics[i].descriptor.id == metrics[j].descriptor.id
      ensures SameSemantics(metrics[i].descriptor, metrics[j].descriptor)
    {
      assert GroupedAt(metrics, descriptors, groups, metrics[i].descriptor.id);
      assert metrics[i] in metrics && metrics[j] in metrics;
    }
  }

  lemma Clash(metrics: seq<Metric>, m: Metric, rest: seq<Metric>, descriptors: map<string, Descriptor>,
              groups: map<string, seq<Metric>>)
    requires Grouped(metrics, descriptors, groups)
    requires m.descriptor.id in descriptors && !SameSemantics(descriptors[m.descriptor.id], m.descriptor)
    ensures !Coherent(metrics + [m] + rest)
  {
    var all := metrics + [m] + rest;
    assert GroupedAt(metrics, descriptors, groups, m.descriptor.id);
    assert m.descriptor.id in Ids(metrics);
    var n :| n in metrics && n.descriptor.id == m.descriptor.id;
    var i :| 0 <= i < |metrics| && metrics[i] == n;
    assert all[i] == n && all[|metrics|] == m;
  }

  method Group(runs: seq<Observation>)
    returns (ok: bool, descriptors: map<string, Descriptor>, groups: map<string, seq<Metric>>)
    ensures ok <==> Coherent(Observed(runs))
    ensures ok ==> Grouped(Observed(runs), descriptors, groups)
  {
    hide Coherent, Grouped, SameSemantics;
    descriptors, groups := map[], map[];
    assert Grouped([], map[], map[]) by {
      NothingGrouped();
    }
    for i := 0 to |runs|
      invariant Grouped(Observed(runs[..i]), descriptors, groups)
    {
      ghost var before := Observed(runs[..i]);
      var metrics := runs[i].metrics;
      assert before + metrics[..0] == before;
      for j := 0 to |metrics|
        invariant Grouped(before + metrics[..j], descriptors, groups)
      {
        var m := metrics[j];
        var id := m.descriptor.id;
        if id in descriptors && !SameSemantics(descriptors[id], m.descriptor) {
          ghost var rest := ObservedSplit(runs, i, j);
          Clash(before + metrics[..j], m, rest, descriptors, groups);
          return false, descriptors, groups;
        }
        GroupOne(before + metrics[..j], m, descriptors, groups);
        assert before + metrics[..j] + [m] == before + metrics[..j + 1];
        groups := groups[id := (if id in groups then groups[id] else []) + [m]];
        descriptors := descriptors[id := m.descriptor];
      }
      assert before + metrics[..|metrics|] == Observed(runs[..i + 1]) by {
        assert runs[..i + 1][..i] == runs[..i];
      }
    }
    assert runs[..|runs|] == runs;
    GroupedCoherent(Observed(runs), descriptors, groups);
    return true, descriptors, groups;
  }

  lemma NothingGrouped()
    ensures Grouped([], map[], map[])
  {
  }

  // What is observed after metric j of run i.
  lemma {:induction false} ObservedSplit(runs: seq<Observation>, i: nat, j: nat) returns (rest: seq<Metric>)
    requires i < |runs| && j < |runs[i].metrics|
    ensures Observed(runs) == Observed(runs[..i]) + runs[i].metrics[..j] + [runs[i].metrics[j]] + rest
    decreases |runs|
  {
    var last := runs[|runs| - 1].metrics;
    var init := runs[..|runs| - 1];
    if i == |runs| - 1 {
      rest := last[j + 1..];
      assert last == last[..j] + [last[j]] + rest;
    } else {
      var inner := ObservedSplit(init, i, j);
      assert init[..i] == runs[..i];
      rest := inner + last;
    }
  }

  // ---------------------------------------------------------------- why no constructor check trips

  lemma {:induction false} HavingSplits(runs: seq<Observation>)
    ensures |Having(runs, true)| + |Having(runs, false)| == |runs|
    ensures forall o :: o in runs <==> o in Having(runs, true) || o in Having(runs, false)
    ensures forall o :: o in Having(runs, true) ==> o.successful
    ensures forall o :: o in Having(runs, false) ==> !o.successful
  {
    if runs != [] {
      HavingSplits(runs[..|runs| - 1]);
      assert runs == runs[..|runs| - 1] + [runs[|runs| - 1]];
    }
  }

  lemma {:induction false} OfConcat(a: seq<Metric>, b: seq<Metric>, id: string)
    ensures Of(a + b, id) == Of(a, id) + Of(b, id)
  {
    if b == [] {
      assert a + b == a;
    } else {
      assert (a + b)[..|a + b| - 1] == a + b[..|b| - 1];
      OfConcat(a, b[..|b| - 1], id);
    }
  }

  // How many of the runs observed the metric.
  function Observing(runs: seq<Observation>, id: string): nat
  {
    if runs == [] then 0
    else
      var last := runs[|runs| - 1];
      Observing(runs[..|runs| - 1], id) + if id in MetricIds(last.metrics) then 1 else 0
  }

  lemma {:induction false} OncePerRun(metrics: seq<Metric>, id: string)
    requires Distinct(MetricIds(metrics))
    ensures |Of(metrics, id)| == if id in MetricIds(metrics) then 1 else 0
  {
    if metrics != [] {
      var k := |metrics| - 1;
      var ids, init := MetricIds(metrics), MetricIds(metrics[..k]);
      assert ids == init + [metrics[k].descriptor.id];
      assert forall i :: 0 <= i < k ==> init[i] == ids[i];
      OncePerRun(metrics[..k], id);
    }
  }

  /** The count of a metric is the number of successful runs that observed it. */
  lemma {:induction false} ObservedRuns(runs: seq<Observation>, id: string)
    requires forall o :: o in runs ==> ValidObservation(o)
    ensures |Of(Observed(runs), id)| == Observing(runs, id) <= |runs|
  {
    hide Of, ValidObservation;
    if runs == [] {
      OfEmpty(id);
    } else {
      var init, last := runs[..|runs| - 1], runs[|runs| - 1];
      assert ValidObservation(last);
      ObservedRuns(init, id);
      OfConcat(Observed(init), last.metrics, id);
      ValidOnce(last, id);
    }
  }

  lemma OfEmpty(id: string)
    ensures Of([], id) == []
  {
  }

  lemma ValidOnce(o: Observation, id: string)
    requires ValidObservation(o)
    ensures |Of(o.metrics, id)| == if id in MetricIds(o.metrics) then 1 else 0
  {
    OncePerRun(o.metrics, id);
  }

  lemma {:induction false} ObservedCounts(runs: seq<Observation>)
    requires forall o :: o in runs ==> ValidObservation(o)
    ensures forall m :: m in Observed(runs) ==> m.count >= 1
  {
    if runs != [] {
      ObservedCounts(runs[..|runs| - 1]);
      assert ValidObservation(runs[|runs| - 1]);
    }
  }

  lemma {:induction false} OfWithin(metrics: seq<Metric>, id: string)
    ensures forall m :: m in Of(metrics, id) ==> m in metrics && m.descriptor.id == id
  {
    if metrics != [] {
      OfWithin(metrics[..|metrics| - 1], id);
    }
  }

  lemma {:induction false} TotalAtLeast(metrics: seq<Metric>)
    requires forall m :: m in metrics ==> m.count >= 1
    ensures Total(metrics) >= |metrics|
  {
    if metrics != [] {
      TotalAtLeast(metrics[..|metrics| - 1]);
    }
  }

  lemma SummaryIsValid(values: seq<real>)
    requires values != []
    ensures ValidSummary(SummaryOf(values))
  {
    MeanWithin(values);
  }

  // What the aggregate of one metric is, from the successful runs.
  function MetricAggregateOf(runs: seq<Observation>, id: string): MetricAggregate
    requires Of(Observed(runs), id) != []
  {
    var metrics := Of(Observed(runs), id);
    MetricAggregate(metrics[|metrics| - 1].descriptor, |runs|, |metrics|, Total(metrics), SummaryOf(Means(metrics)), AllComplete(runs))
  }

  predicate AllComplete(runs: seq<Observation>)
  {
    forall o :: o in runs ==> o.metricsComplete
  }

  lemma MetricIsValid(runs: seq<Observation>, id: string)
    requires forall o :: o in runs ==> ValidObservation(o)
    requires Of(Observed(runs), id) != []
    ensures ValidMetric(MetricAggregateOf(runs, id)) && ValidSummary(MetricAggregateOf(runs, id).runMeans)
    ensures MetricAggregateOf(runs, id).descriptor.id == id
  {
    hide ValidSummary, SummaryOf, ValidObservation;
    var metrics := Of(Observed(runs), id);
    ObservedRuns(runs, id);
    ObservedCounts(runs);
    OfWithin(Observed(runs), id);
    TotalAtLeast(metrics);
    SummaryIsValid(Means(metrics));
    SummaryCounts(Means(metrics));
  }

  lemma SummaryCounts(values: seq<real>)
    requires values != []
    ensures SummaryOf(values).count == |values|
  {
  }

  // ---------------------------------------------------------------- the aggregation

  ghost predicate Aggregable(observations: seq<Observation>)
  {
    && observations != [] && Distinct(RunIds(observations)) && Having(observations, true) != []
    && Coherent(Observed(Having(observations, true)))
  }

  // The run ids partitioned in order; everything else from the successful runs alone.
  ghost predicate Aggregates(a: Aggregate, order: Order, observations: seq<Observation>)
  {
    var successful := Having(observations, true);
    && a.runIds == RunIds(observations)
    && a.successfulRunIds == RunIds(successful) && a.failedRunIds == RunIds(Having(observations, false))
    && Durations(successful) != [] && a.duration == SummaryOf(Durations(successful))
    && a.metricsComplete == AllComplete(successful)
    && AggregateIds(a.metrics) == order(Ids(Observed(successful)))
    && forall i :: 0 <= i < |a.metrics| ==> MetricAggregated(a.metrics[i], successful)
  }

  ghost predicate MetricAggregated(a: MetricAggregate, successful: seq<Observation>)
  {
    Of(Observed(successful), a.descriptor.id) != [] && a == MetricAggregateOf(successful, a.descriptor.id)
  }

  lemma AggregateIsValid(a: Aggregate, order: Order, observations: seq<Observation>)
    requires Sorting(order) && Aggregates(a, order, observations)
    requires observations != [] && Distinct(RunIds(observations))
    ensures ValidAggregate(order, a)
  {
    hide Observed, Of, Ids, Having, SummaryOf, MetricAggregated, AllComplete;
    var successful, failed := Having(observations, true), Having(observations, false);
    DistinctSize(a.runIds);
    HavingSplits(observations);
    SummaryCounts(Durations(successful));
    var partition := a.successfulRunIds + a.failedRunIds;
    forall id
      ensures id in partition <==> id in a.runIds
    {
      SameIds(observations, successful, failed, id);
    }
    assert Names(order(Ids(Observed(successful)))) == Ids(Observed(successful));
  }

  lemma SameIds(runs: seq<Observation>, a: seq<Observation>, b: seq<Observation>, id: string)
    requires forall o :: o in runs <==> o in a || o in b
    ensures id in RunIds(runs) <==> id in RunIds(a) + RunIds(b)
  {
    IdOf(runs, id);
    IdOf(a, id);
    IdOf(b, id);
  }

  lemma IdOf(runs: seq<Observation>, id: string)
    ensures id in RunIds(runs) <==> exists o :: o in runs && o.runId == id
  {
    if id in RunIds(runs) {
      var i :| 0 <= i < |runs| && RunIds(runs)[i] == id;
      assert runs[i] in runs;
    }
    if o :| o in runs && o.runId == id {
      var i :| 0 <= i < |runs| && runs[i] == o;
      assert RunIds(runs)[i] == id;
    }
  }

  method MetricAggregates(order: Order, successful: seq<Observation>, descriptors: map<string, Descriptor>,
                          groups: map<string, seq<Metric>>)
    returns (result: Result<seq<MetricAggregate>, Failure>)
    requires Sorting(order) && forall o :: o in successful ==> ValidObservation(o)
    requires Grouped(Observed(successful), descriptors, groups)
    ensures result.Ok? && AggregateIds(result.value) == order(Ids(Observed(successful)))
    ensures forall i :: 0 <= i < |result.value| ==> MetricAggregated(result.value[i], successful)
  {
    hide ValidMetric, ValidSummary, ValidObservation, Observed, Of, Ids, Distinct, SummaryOf;
    GroupKeys(Observed(successful), descriptors, groups);
    var ids := order(groups.Keys);
    assert Names(ids) == groups.Keys;
    var complete := AllComplete(successful);
    var aggregates: seq<MetricAggregate> := [];
    for i := 0 to |ids|
      invariant |aggregates| == i
      invariant forall k :: 0 <= k < i ==> aggregates[k].descriptor.id == ids[k] && MetricAggregated(aggregates[k], successful)
    {
      var id := ids[i];
      assert id in Names(ids);
      assert GroupedAt(Observed(successful), descriptors, groups, id);
      var metrics := groups[id];
      var means := SummaryOf(Means(metrics));
      var aggregate := MetricAggregate(descriptors[id], |successful|, |metrics|, Total(metrics), means, complete);
      MetricIsValid(successful, id);
      if !ValidSummary(means) {
        return Err(InvalidSummary);
      }
      if !ValidMetric(aggregate) {
        return Err(InvalidMetric);
      }
      aggregates := aggregates + [aggregate];
    }
    assert AggregateIds(aggregates) == ids;
    return Ok(aggregates);
  }

  lemma GroupKeys(metrics: seq<Metric>, descriptors: map<string, Descriptor>, groups: map<string, seq<Metric>>)
    requires Grouped(metrics, descriptors, groups)
    ensures groups.Keys == Ids(metrics)
  {
    hide Ids, Of;
    forall id
      ensures id in groups <==> id in Ids(metrics)
    {
      assert GroupedAt(metrics, descriptors, groups, id);
    }
  }

  /**
   Succeeds exactly when there is a successful run, run identities are distinct and an identity
   stands for one metric; no constructor check is ever tripped.
   */
  method AggregateObservations(order: Order, observations: seq<Observation>)
    returns (result: Result<Aggregate, Failure>)
    requires Sorting(order) && forall o :: o in observations ==> ValidObservation(o)
    ensures result.Ok? <==> Aggregable(observations)
    ensures result.Ok? ==> Aggregates(result.value, order, observations) && ValidAggregate(order, result.value)
    ensures result.Err? ==> result.error in {NoRuns, RepeatedRun, NoSuccess, MixedSemantics}
  {
    if observations == [] {
      return Err(NoRuns);
    }
    var runIds := RunIds(observations);
    SizeDistinct(runIds);
    if |runIds| != |Names(runIds)| {
      return Err(RepeatedRun);
    }
    hide Distinct, Names, Observed, Of, Ids, ValidObservation, Coherent, ValidAggregate, SummaryOf, ValidSummary, Sorting;
    var successful, failed := Having(observations, true), Having(observations, false);
    if successful == [] {
      return Err(NoSuccess);
    }
    HavingSplits(observations);
    SummaryIsValid(Durations(successful));
    var duration := SummaryOf(Durations(successful));
    if !ValidSummary(duration) {
      return Err(InvalidSummary);
    }
    var ok, descriptors, groups := Group(successful);
    if !ok {
      return Err(MixedSemantics);
    }
    var metrics := MetricAggregates(order, successful, descriptors, groups);
    match metrics {
      case Err(failure) => return Err(failure);
      case Ok(aggregates) =>
        var aggregate := Aggregate(runIds, RunIds(successful), RunIds(failed), duration, AllComplete(successful), aggregates);
        AggregateIsValid(aggregate, order, observations);
        if !ValidAggregate(order, aggregate) {
          return Err(InvalidAggregate);
        }
        return Ok(aggregate);
    }
  }

  lemma SizeDistinct(names: seq<string>)
    ensures |Names(names)| == |names| <==> Distinct(names)
  {
    if Distinct(names) {
      DistinctSize(names);
    } else {
      var i, j :| 0 <= i < j < |names| && names[i] == names[j];
      var fewer := names[..j] + names[j + 1..];
      assert names == names[..j] + [names[j]] + names[j + 1..];
      assert names[i] in names[..j];
      assert Names(names) == Names(fewer);
      NamesSize(fewer);
    }
  }

  // ---------------------------------------------------------------- failed runs and reordering

  // What each element of a sequence contributes, all together.
  ghost function Bag<T, U>(s: seq<T>, part: T -> multiset<U>): multiset<U>
  {
    if s == [] then multiset{} else Bag(s[..|s| - 1], part) + part(s[|s| - 1])
  }

  lemma {:induction false} BagWithout<T, U>(s: seq<T>, part: T -> multiset<U>, j: nat)
    requires j < |s|
    ensures Bag(s, part) == Bag(s[..j] + s[j + 1..], part) + part(s[j])
    ensures multiset(s) == multiset(s[..j] + s[j + 1..]) + multiset{s[j]}
    decreases |s|
  {
    var k := |s| - 1;
    assert s == s[..j] + [s[j]] + s[j + 1..];
    if j < k {
      BagWithout(s[..k], part, j);
      var rest := s[..j] + s[j + 1..];
      assert rest[..|rest| - 1] == s[..k][..j] + s[..k][j + 1..];
    } else {
      assert s[..j] + s[j + 1..] == s[..k];
    }
  }

  /** The order in which contributions are collected does not matter. */
  lemma {:induction false} BagPermuted<T, U>(a: seq<T>, b: seq<T>, part: T -> multiset<U>)
    requires multiset(a) == multiset(b)
    ensures Bag(a, part) == Bag(b, part)
    decreases |a|
  {
    assert |a| == |multiset(a)| == |multiset(b)| == |b|;
    if a != [] {
      var k := |a| - 1;
      assert a[k] in multiset(b);
      var j :| 0 <= j < |b| && b[j] == a[k];
      BagWithout(a, part, k);
      BagWithout(b, part, j);
      assert a[..k] + a[k + 1..] == a[..k];
      assert multiset(a[..k]) == multiset(a) - multiset{a[k]};
      assert multiset(b[..j] + b[j + 1..]) == multiset(b) - multiset{a[k]};
      BagPermuted(a[..k], b[..j] + b[j + 1..], part);
    }
  }

  ghost function DurationOf(o: Observation): multiset<real>
  {
    if o.successful then multiset{o.duration} else multiset{}
  }

  ghost function MetricsOf(o: Observation, id: string): multiset<Metric>
  {
    if o.successful then multiset(Of(o.metrics, id)) else multiset{}
  }

  lemma {:induction false} DurationsBag(runs: seq<Observation>)
    ensures multiset(Durations(Having(runs, true))) == Bag(runs, DurationOf)
  {
    if runs != [] {
      var init, last := runs[..|runs| - 1], runs[|runs| - 1];
      DurationsBag(init);
      var before := Having(init, true);
      assert Durations(before + [last]) == Durations(before) + [last.duration];
      assert before + [] == before;
    }
  }

  lemma {:induction false} MetricsBag(runs: seq<Observation>, id: string)
    ensures multiset(Of(Observed(Having(runs, true)), id)) == Bag(runs, o => MetricsOf(o, id))
  {
    if runs != [] {
      var init, last := runs[..|runs| - 1], runs[|runs| - 1];
      MetricsBag(init, id);
      var before := Having(init, true);
      assert (before + [last])[..|before|] == before && before + [] == before;
      OfConcat(Observed(before), last.metrics, id);
    }
  }

  lemma {:induction false} MeansBag(metrics: seq<Metric>)
    ensures multiset(Means(metrics)) == Bag(metrics, (m: Metric) => multiset{m.mean})
  {
    if metrics != [] {
      var init, last := metrics[..|metrics| - 1], metrics[|metrics| - 1];
      MeansBag(init);
      assert Means(metrics) == Means(init) + [last.mean];
    }
  }

  // As many copies of nothing in particular as there are observations.
  ghost function Copies(m: Metric): multiset<()>
  {
    multiset{}[() := m.count]
  }

  lemma {:induction false} TotalBag(metrics: seq<Metric>)
    ensures Bag(metrics, Copies)[()] == Total(metrics)
  {
    if metrics != [] {
      TotalBag(metrics[..|metrics| - 1]);
    }
  }

  lemma MetricsPermuted(a: seq<Metric>, b: seq<Metric>)
    requires multiset(a) == multiset(b) && a != []
    ensures b != [] && |a| == |b| && Total(a) == Total(b) && SummaryOf(Means(a)) == SummaryOf(Means(b))
  {
    assert |a| == |multiset(a)| == |multiset(b)| == |b|;
    TotalBag(a);
    TotalBag(b);
    BagPermuted(a, b, Copies);
    MeansBag(a);
    MeansBag(b);
    BagPermuted(a, b, (m: Metric) => multiset{m.mean});
    SummaryPermuted(Means(a), Means(b));
  }

  // Everything that is counted or measured about a metric.
  ghost predicate SameMetric(a: MetricAggregate, b: MetricAggregate)
  {
    && a.descriptor.id == b.descriptor.id
    && a.successfulRuns == b.successfulRuns && a.observedRuns == b.observedRuns
    && a.totalObservations == b.totalObservations && a.runMeans == b.runMeans && a.complete == b.complete
  }

  ghost predicate SameStatistics(a: Aggregate, b: Aggregate)
  {
    && a.duration == b.duration && a.metricsComplete == b.metricsComplete && |a.metrics| == |b.metrics|
    && forall i :: 0 <= i < |a.metrics| ==> SameMetric(a.metrics[i], b.metrics[i])
  }

  lemma {:induction false} MetricReordered(a: seq<Observation>, b: seq<Observation>, id: string)
    requires multiset(a) == multiset(b)
    requires Of(Observed(Having(a, true)), id) != [] && Of(Observed(Having(b, true)), id) != []
    requires |Having(a, true)| == |Having(b, true)| && AllComplete(Having(a, true)) == AllComplete(Having(b, true))
    ensures MetricAggregateOf(Having(a, true), id).(descriptor := MetricAggregateOf(Having(b, true), id).descriptor)
            == MetricAggregateOf(Having(b, true), id)
  {
    hide Having, Observed, Of, AllComplete, SummaryOf, Total;
    MetricsBag(a, id);
    MetricsBag(b, id);
    BagPermuted(a, b, o => MetricsOf(o, id));
    MetricsPermuted(Of(Observed(Having(a, true)), id), Of(Observed(Having(b, true)), id));
  }

  lemma ReorderedRuns(a: seq<Observation>, b: seq<Observation>)
    requires multiset(a) == multiset(b)
    ensures multiset(Durations(Having(a, true))) == multiset(Durations(Having(b, true)))
    ensures |Having(a, true)| == |Having(b, true)| && AllComplete(Having(a, true)) == AllComplete(Having(b, true))
    ensures Ids(Observed(Having(a, true))) == Ids(Observed(Having(b, true)))
  {
    hide Having, Observed, Of, Ids;
    DurationsBag(a);
    DurationsBag(b);
    BagPermuted(a, b, DurationOf);
    assert |Having(a, true)| == |multiset(Durations(Having(a, true)))| == |multiset(Durations(Having(b, true)))| == |Having(b, true)|;
    SuccessesIn(a, b);
    SuccessesIn(b, a);
    forall id
      ensures id in Ids(Observed(Having(a, true))) <==> id in Ids(Observed(Having(b, true)))
    {
      SameMetricIds(a, b, id);
    }
  }

  lemma SuccessesIn(a: seq<Observation>, b: seq<Observation>)
    requires multiset(a) == multiset(b)
    ensures forall o :: o in Having(a, true) ==> o in Having(b, true)
  {
    HavingSplits(a);
    HavingSplits(b);
    forall o | o in Having(a, true)
      ensures o in Having(b, true)
    {
      assert o in multiset(a);
      assert o in b;
    }
  }

  lemma SameMetricIds(a: seq<Observation>, b: seq<Observation>, id: string)
    requires multiset(a) == multiset(b)
    ensures id in Ids(Observed(Having(a, true))) <==> id in Ids(Observed(Having(b, true)))
  {
    hide Having, Observed, Of, Ids;
    MetricsBag(a, id);
    MetricsBag(b, id);
    BagPermuted(a, b, o => MetricsOf(o, id));
    OfNone(Observed(Having(a, true)), id);
    OfNone(Observed(Having(b, true)), id);
    EmptyBags(Of(Observed(Having(a, true)), id), Of(Observed(Having(b, true)), id));
  }

  lemma EmptyBags(a: seq<Metric>, b: seq<Metric>)
    requires multiset(a) == multiset(b)
    ensures a == [] <==> b == []
  {
    assert |a| == |multiset(a)| == |multiset(b)| == |b|;
  }

  /** Observations in another order give the same statistics. */
  lemma ReorderingKeepsStatistics(order: Order, a: seq<Observation>, b: seq<Observation>, first: Aggregate,
                                  second: Aggregate)
    requires Sorting(order) && multiset(a) == multiset(b)
    requires Aggregates(first, order, a) && Aggregates(second, order, b)
    ensures SameStatistics(first, second)
  {
    hide Having, Observed, Of, Ids, AllComplete, SummaryOf, Durations, MetricAggregateOf, Sorting;
    ReorderedRuns(a, b);
    DurationsPermuted(Durations(Having(a, true)), Durations(Having(b, true)));
    var ids := AggregateIds(first.metrics);
    forall i | 0 <= i < |first.metrics|
      ensures SameMetric(first.metrics[i], second.metrics[i])
    {
      var id := ids[i];
      assert AggregateIds(second.metrics)[i] == id;
      assert MetricAggregated(first.metrics[i], Having(a, true)) && MetricAggregated(second.metrics[i], Having(b, true));
      MetricReordered(a, b, id);
    }
  }

  lemma DurationsPermuted(a: seq<real>, b: seq<real>)
    requires multiset(a) == multiset(b) && a != [] && b != []
    ensures SummaryOf(a) == SummaryOf(b)
  {
    SummaryPermuted(a, b);
  }

  lemma {:induction false} HavingTwice(runs: seq<Observation>)
    ensures Having(Having(runs, true), true) == Having(runs, true)
  {
    if runs != [] {
      var init, last := runs[..|runs| - 1], runs[|runs| - 1];
      HavingTwice(init);
      var before := Having(init, true);
      assert (before + [last])[..|before|] == before && before + [] == before;
    }
  }

  /** Failed runs change nothing but the list of runs. */
  lemma FailedRunsDoNotCount(order: Order, observations: seq<Observation>, all: Aggregate, only: Aggregate)
    requires Aggregates(all, order, observations) && Aggregates(only, order, Having(observations, true))
    ensures SameStatistics(all, only) && all.successfulRunIds == only.successfulRunIds
  {
    hide Having, Observed, Of, Ids, AllComplete, SummaryOf, Durations, MetricAggregateOf;
    HavingTwice(observations);
    forall i | 0 <= i < |all.metrics|
      ensures SameMetric(all.metrics[i], only.metrics[i])
    {
      assert AggregateIds(all.metrics)[i] == AggregateIds(only.metrics)[i];
      assert MetricAggregated(all.metrics[i], Having(observations, true)) && MetricAggregated(only.metrics[i], Having(observations, true));
    }
  }

  // ---------------------------------------------------------------- the aggregate in terms of the runs

  lemma {:induction false} HavingIn(runs: seq<Observation>, successful: bool, o: Observation)
    ensures o in Having(runs, successful) <==> o in runs && o.successful == successful
  {
    if runs != [] {
      HavingIn(runs[..|runs| - 1], successful, o);
      assert o in runs <==> o in runs[..|runs| - 1] || o == runs[|runs| - 1];
    }
  }

  lemma {:induction false} ObservedIn(runs: seq<Observation>, m: Metric)
    ensures m in Observed(runs) <==> exists o :: o in runs && m in o.metrics
  {
    if runs != [] {
      var init, last := runs[..|runs| - 1], runs[|runs| - 1];
      ObservedIn(init, m);
      assert forall o :: o in runs <==> o in init || o == last;
    }
  }

  lemma {:induction false} OfIn(metrics: seq<Metric>, id: string, m: Metric)
    ensures m in Of(metrics, id) <==> m in metrics && m.descriptor.id == id
  {
    if metrics != [] {
      OfIn(metrics[..|metrics| - 1], id, m);
      assert m in metrics <==> m in metrics[..|metrics| - 1] || m == metrics[|metrics| - 1];
    }
  }

  lemma RunIdIn(observations: seq<Observation>, successful: bool, id: string)
    ensures id in RunIds(Having(observations, successful)) <==>
            exists o :: o in observations && o.successful == successful && o.runId == id
  {
    hide Having;
    var some := Having(observations, successful);
    if id in RunIds(some) {
      var i :| 0 <= i < |some| && RunIds(some)[i] == id;
      HavingIn(observations, successful, some[i]);
    }
    if o :| o in observations && o.successful == successful && o.runId == id {
      HavingIn(observations, successful, o);
      var i :| 0 <= i < |some| && some[i] == o;
      assert RunIds(some)[i] == id;
    }
  }

  // A summary in terms of its values: how many, the extremes among them, and the mean that shares them evenly.
  lemma SummaryMeans(values: seq<real>)
    requires values != []
    ensures var s := SummaryOf(values);
            && s.count == |values| && s.minimum in values && s.maximum in values
            && (forall v :: v in values ==> s.minimum <= v <= s.maximum)
            && Times(|values|, s.mean) == Sum(values)
  {
    hide Sum, Minimum, Maximum;
    Extremes(values);
    MeanShares(values);
  }

  /**
   An aggregate in terms of the runs: the run ids in order, parted by success; its metrics are complete
   when those of every successful run are.
   */
  lemma AggregateExactly(a: Aggregate, order: Order, observations: seq<Observation>)
    requires Sorting(order) && Aggregates(a, order, observations)
    ensures |a.runIds| == |observations| && forall i :: 0 <= i < |observations| ==> a.runIds[i] == observations[i].runId
    ensures forall id :: id in a.successfulRunIds <==> exists o :: o in observations && o.successful && o.runId == id
    ensures forall id :: id in a.failedRunIds <==> exists o :: o in observations && !o.successful && o.runId == id
    ensures a.metricsComplete <==> forall o :: o in observations && o.successful ==> o.metricsComplete
  {
    hide Having, Observed, Of, Ids, SummaryOf, Durations, Sorting, MetricAggregated;
    forall o
      ensures o in Having(observations, true) <==> o in observations && o.successful
    {
      HavingIn(observations, true, o);
    }
    forall id
      ensures id in a.successfulRunIds <==> exists o :: o in observations && o.successful && o.runId == id
      ensures id in a.failedRunIds <==> exists o :: o in observations && !o.successful && o.runId == id
    {
      RunIdIn(observations, true, id);
      RunIdIn(observations, false, id);
    }
  }

  /**
   The duration of an aggregate: over as many runs as succeeded, from the shortest to the longest of
   them, with the mean that adds up to all of their time.
   */
  lemma DurationExactly(a: Aggregate, order: Order, observations: seq<Observation>)
    requires Aggregates(a, order, observations)
    ensures a.duration.count == |a.successfulRunIds|
    ensures forall o :: o in observations && o.successful ==> a.duration.minimum <= o.duration <= a.duration.maximum
    ensures exists o :: o in observations && o.successful && o.duration == a.duration.minimum
    ensures exists o :: o in observations && o.successful && o.duration == a.duration.maximum
    ensures Times(|a.successfulRunIds|, a.duration.mean) == Sum(Durations(Having(observations, true)))
  {
    hide Having, Observed, Of, Ids, SummaryOf, Sum, Times, Sorting, MetricAggregated, AllComplete;
    var successful := Having(observations, true);
    forall o
      ensures o in successful <==> o in observations && o.successful
    {
      HavingIn(observations, true, o);
    }
    var durations := Durations(successful);
    SummaryMeans(durations);
    DurationIn(successful, a.duration.minimum);
    DurationIn(successful, a.duration.maximum);
    forall o | o in successful
      ensures o.duration in durations
    {
      var i :| 0 <= i < |successful| && successful[i] == o;
      assert durations[i] == o.duration;
    }
  }

  lemma DurationIn(runs: seq<Observation>, d: real)
    requires d in Durations(runs)
    ensures exists o :: o in runs && o.duration == d
  {
    var i :| 0 <= i < |runs| && Durations(runs)[i] == d;
    assert runs[i] in runs;
  }

  /**
   A metric of an aggregate: one for exactly the identities that a successful run observed, with the
   number of successful runs and of those that observed it, and a summary of the means of these.
   */
  lemma MetricsExactly(a: Aggregate, order: Order, observations: seq<Observation>)
    requires Sorting(order) && Aggregates(a, order, observations) && forall o :: o in observations ==> ValidObservation(o)
    ensures forall id :: id in AggregateIds(a.metrics) <==>
              exists o, m :: o in observations && o.successful && m in o.metrics && m.descriptor.id == id
    ensures forall i :: 0 <= i < |a.metrics| ==>
              var metric := a.metrics[i];
              var seen := Of(Observed(Having(observations, true)), metric.descriptor.id);
              && metric.successfulRuns == |a.successfulRunIds|
              && metric.observedRuns == Observing(Having(observations, true), metric.descriptor.id) == |seen| > 0
              && metric.totalObservations == Total(seen) && metric.complete == a.metricsComplete
              && metric.runMeans.count == metric.observedRuns
              && (forall m :: m in seen ==> metric.runMeans.minimum <= m.mean <= metric.runMeans.maximum)
              && Times(|seen|, metric.runMeans.mean) == Sum(Means(seen))
  {
    hide Having, Observed, Of, SummaryOf, Sum, Times, Total, Observing, ValidObservation, AllComplete;
    var successful := Having(observations, true);
    forall id
      ensures id in AggregateIds(a.metrics) <==>
              exists o, m :: o in observations && o.successful && m in o.metrics && m.descriptor.id == id
    {
      assert id in AggregateIds(a.metrics) <==> id in Names(order(Ids(Observed(successful))));
      MetricIdIn(observations, id);
    }
    forall o | o in successful
      ensures ValidObservation(o)
    {
      HavingIn(observations, true, o);
    }
    forall i | 0 <= i < |a.metrics|
      ensures MetricFits(a.metrics[i], successful, a.metricsComplete)
    {
      assert MetricAggregated(a.metrics[i], successful);
      MetricMeans(successful, a.metrics[i].descriptor.id);
    }
  }

  // What a metric of an aggregate has to do with the successful runs.
  ghost predicate MetricFits(metric: MetricAggregate, successful: seq<Observation>, complete: bool)
  {
    var seen := Of(Observed(successful), metric.descriptor.id);
    && metric.successfulRuns == |successful|
    && metric.observedRuns == Observing(successful, metric.descriptor.id) == |seen| > 0
    && metric.totalObservations == Total(seen) && metric.complete == complete
    && metric.runMeans.count == metric.observedRuns
    && (forall m :: m in seen ==> metric.runMeans.minimum <= m.mean <= metric.runMeans.maximum)
    && Times(|seen|, metric.runMeans.mean) == Sum(Means(seen))
  }

  lemma MetricMeans(successful: seq<Observation>, id: string)
    requires Of(Observed(successful), id) != [] && forall o :: o in successful ==> ValidObservation(o)
    ensures MetricAggregateOf(successful, id).descriptor.id == id
    ensures MetricFits(MetricAggregateOf(successful, id), successful, AllComplete(successful))
  {
    hide Observed, SummaryOf, Sum, Times, Total, Observing, ValidObservation, AllComplete;
    var seen := Of(Observed(successful), id);
    OfIn(Observed(successful), id, seen[|seen| - 1]);
    hide Of;
    ObservedRuns(successful, id);
    SummaryMeans(Means(seen));
    forall m | m in seen
      ensures m.mean in Means(seen)
    {
      var k :| 0 <= k < |seen| && seen[k] == m;
      assert Means(seen)[k] == m.mean;
    }
  }

  lemma MetricIdIn(observations: seq<Observation>, id: string)
    ensures id in Ids(Observed(Having(observations, true))) <==>
            exists o, m :: o in observations && o.successful && m in o.metrics && m.descriptor.id == id
  {
    hide Having, Observed;
    var successful := Having(observations, true);
    if id in Ids(Observed(successful)) {
      var m :| m in Observed(successful) && m.descriptor.id == id;
      ObservedIn(successful, m);
      var o :| o in successful && m in o.metrics;
      HavingIn(observations, true, o);
    }
    if o, m :| o in observations && o.successful && m in o.metrics && m.descriptor.id == id {
      HavingIn(observations, true, o);
      ObservedIn(successful, m);
    }
  }
}
