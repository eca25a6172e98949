/** Sorting, percentiles and summaries over real samples. */
module Statistics {

  // Each sample is at most those behind it.
  ghost predicate Sorted(s: seq<real>)
  {
    s == [] || ((forall x :: x in s ==> s[0] <= x) && Sorted(s[1..]))
  }

  function Insert(x: real, s: seq<real>): seq<real>
  {
    if s == [] || x <= s[0] then [x] + s else [s[0]] + Insert(x, s[1..])
  }

  function Sort(s: seq<real>): (sorted: seq<real>)
    ensures |sorted| == |s|
  {
    if s == [] then [] else
      InsertLength(s[0], Sort(s[1..]));
      Insert(s[0], Sort(s[1..]))
  }

  lemma {:induction false} InsertLength(x: real, s: seq<real>)
    ensures |Insert(x, s)| == |s| + 1
  {
    if s != [] && x > s[0] {
      InsertLength(x, s[1..]);
    }
  }

  lemma HeadTail(s: seq<real>)
    requires s != []
    ensures multiset(s) == multiset(s[1..]) + multiset{s[0]}
    ensures forall x :: x in s <==> x == s[0] || x in s[1..]
  {
    assert s == [s[0]] + s[1..];
  }

  lemma {:induction false} InsertSorts(x: real, s: seq<real>)
    requires Sorted(s)
    ensures Sorted(Insert(x, s))
    ensures forall y :: y in Insert(x, s) <==> y == x || y in s
  {
    if s == [] || x <= s[0] {
      assert ([x] + s)[1..] == s;
    } else {
      HeadTail(s);
      InsertSorts(x, s[1..]);
      var rest := Insert(x, s[1..]);
      assert ([s[0]] + rest)[1..] == rest;
    }
  }

  lemma {:induction false} InsertKeeps(x: real, s: seq<real>)
    ensures multiset(Insert(x, s)) == multiset(s) + multiset{x}
  {
    if s != [] && x > s[0] {
      HeadTail(s);
      InsertKeeps(x, s[1..]);
    }
  }

  lemma {:induction false} SortSorts(s: seq<real>)
    ensures Sorted(Sort(s)) && multiset(Sort(s)) == multiset(s)
    ensures forall x :: x in Sort(s) <==> x in s
  {
    if s != [] {
      HeadTail(s);
      SortSorts(s[1..]);
      InsertSorts(s[0], Sort(s[1..]));
      InsertKeeps(s[0], Sort(s[1..]));
    }
  }

  lemma {:induction false} SortedAt(s: seq<real>, i: nat, j: nat)
    requires Sorted(s) && i <= j < |s|
    ensures s[i] <= s[j]
  {
    if i > 0 {
      SortedAt(s[1..], i - 1, j - 1);
    } else {
      assert s[j] in s;
    }
  }

  lemma SameRest(a: multiset<real>, b: multiset<real>, x: real)
    requires a + multiset{x} == b + multiset{x}
    ensures a == b
  {
    assert a == (a + multiset{x}) - multiset{x};
  }

  /** There is only one sorted arrangement of the same samples. */
  lemma {:induction false} SortedUnique(a: seq<real>, b: seq<real>)
    requires Sorted(a) && Sorted(b) && multiset(a) == multiset(b)
    ensures a == b
  {
    assert |a| == |multiset(a)| == |multiset(b)| == |b|;
    if a != [] {
      assert a[0] in multiset(b) && b[0] in multiset(a);
      assert a[0] in b && b[0] in a;
      HeadTail(a);
      HeadTail(b);
      SameRest(multiset(a[1..]), multiset(b[1..]), a[0]);
      SortedUnique(a[1..], b[1..]);
      assert a == [a[0]] + a[1..] && b == [b[0]] + b[1..];
    }
  }

  lemma SortPermuted(a: seq<real>, b: seq<real>)
    requires multiset(a) == multiset(b)
    ensures Sort(a) == Sort(b)
  {
    SortSorts(a);
    SortSorts(b);
    SortedUnique(Sort(a), Sort(b));
  }

  // ---------------------------------------------------------------- percentiles

  function Mix(a: real, b: real, weight: real): real
  {
    a * (1.0 - weight) + b * weight
  }

  // The share w of a distance.
  function Part(d: real, w: real): real
  {
    d * w
  }

  lemma MixIs(a: real, b: real, w: real)
    ensures Mix(a, b, w) == a + Part(b - a, w)
  {
    assert a * (1.0 - w) == a - a * w;
    assert (b - a) * w == b * w - a * w;
  }

  lemma PartWithin(d: real, w: real)
    requires d >= 0.0 && 0.0 <= w <= 1.0
    ensures 0.0 <= Part(d, w) <= d
  {
    assert d * w <= d * 1.0;
  }

  lemma PartMore(d: real, v: real, w: real)
    requires d >= 0.0 && v <= w
    ensures Part(d, v) <= Part(d, w)
  {
    assert d * (w - v) >= 0.0;
    assert d * (w - v) == d * w - d * v;
  }

  lemma MixWithin(a: real, b: real, w: real)
    requires a <= b && 0.0 <= w <= 1.0
    ensures a <= Mix(a, b, w) <= b
  {
    hide Mix, Part;
    MixIs(a, b, w);
    PartWithin(b - a, w);
  }

  lemma MixMore(a: real, b: real, v: real, w: real)
    requires a <= b && v <= w
    ensures Mix(a, b, v) <= Mix(a, b, w)
  {
    hide Mix, Part;
    MixIs(a, b, v);
    MixIs(a, b, w);
    PartMore(b - a, v, w);
  }

  // The place of a percentile among n + 1 ordered samples.
  function Position(n: nat, percentile: real): (position: real)
    requires 0.0 <= percentile <= 1.0
    ensures 0.0 <= position <= n as real
  {
    PartWithin(n as real, percentile);
    Part(n as real, percentile)
  }

  lemma PositionMonotone(n: nat, p: real, q: real)
    requires 0.0 <= p <= q <= 1.0
    ensures Position(n, p) <= Position(n, q)
  {
    hide Part;
    PartMore(n as real, p, q);
  }

  // The value at a position: that of a sample, or between two neighbours.
  function Interpolated(ordered: seq<real>, position: real): real
    requires ordered != [] && 0.0 <= position <= (|ordered| - 1) as real
  {
    var lower := position.Floor;
    if position == lower as real then ordered[lower]
    else Mix(ordered[lower], ordered[lower + 1], position - lower as real)
  }

  /** Percentile of the samples, 0.0 when there are none; the position falls between neighbours. */
  function Percentile(values: seq<real>, percentile: real): real
    requires 0.0 <= percentile <= 1.0
  {
    if values == [] then 0.0
    else Interpolated(Sort(values), Position(|values| - 1, percentile))
  }

  // The value lies between its two neighbours.
  lemma InterpolatedWithin(s: seq<real>, x: real)
    requires Sorted(s) && s != [] && 0.0 <= x <= (|s| - 1) as real
    ensures s[x.Floor] <= Interpolated(s, x)
    ensures x == x.Floor as real ==> Interpolated(s, x) == s[x.Floor]
    ensures x != x.Floor as real ==> x.Floor + 1 < |s| && Interpolated(s, x) <= s[x.Floor + 1]
  {
    hide Mix;
    var lower := x.Floor;
    if x != lower as real {
      SortedAt(s, lower, lower + 1);
      MixWithin(s[lower], s[lower + 1], x - lower as real);
    }
  }

  lemma InterpolatedMonotone(s: seq<real>, x: real, y: real)
    requires Sorted(s) && s != [] && 0.0 <= x <= y <= (|s| - 1) as real
    ensures Interpolated(s, x) <= Interpolated(s, y)
  {
    hide Mix, Sorted;
    InterpolatedWithin(s, x);
    InterpolatedWithin(s, y);
    var lower := x.Floor;
    if lower == y.Floor {
      if x != lower as real {
        SortedAt(s, lower, lower + 1);
        MixMore(s[lower], s[lower + 1], x - lower as real, y - lower as real);
      }
    } else {
      SortedAt(s, lower, y.Floor);
      if x != lower as real {
        SortedAt(s, lower + 1, y.Floor);
      }
    }
  }

  /** A percentile lies between the smallest and the largest sample. */
  lemma PercentileWithin(values: seq<real>, p: real, lo: real, hi: real)
    requires values != [] && 0.0 <= p <= 1.0
    requires forall v :: v in values ==> lo <= v <= hi
    ensures lo <= Percentile(values, p) <= hi
  {
    hide Interpolated, Position, Sorted;
    SortSorts(values);
    var s, x := Sort(values), Position(|values| - 1, p);
    InterpolatedWithin(s, x);
    assert s[x.Floor] in s && (x.Floor + 1 < |s| ==> s[x.Floor + 1] in s);
  }

  /** A larger percentile is never smaller; so p50 is at most p95, and p95 at most p99. */
  lemma PercentileMonotone(values: seq<real>, p: real, q: real)
    requires 0.0 <= p <= q <= 1.0
    ensures Percentile(values, p) <= Percentile(values, q)
  {
    hide Interpolated, Position, Sorted;
    if values != [] {
      SortSorts(values);
      PositionMonotone(|values| - 1, p, q);
      InterpolatedMonotone(Sort(values), Position(|values| - 1, p), Position(|values| - 1, q));
    }
  }

  /** The ends: percentile zero is the smallest sample and percentile one the largest. */
  lemma PercentileEnds(values: seq<real>)
    requires values != []
    ensures Percentile(values, 0.0) == Sort(values)[0] && Percentile(values, 1.0) == Sort(values)[|values| - 1]
  {
    hide Sort, Interpolated;
    var n := |values| - 1;
    assert Position(n, 0.0) == 0.0 && Position(n, 1.0) == n as real;
    hide Position;
    InterpolatedAt(Sort(values), 0, 0.0);
    InterpolatedAt(Sort(values), n, n as real);
  }

  lemma InterpolatedAt(s: seq<real>, k: nat, x: real)
    requires k < |s| && x == k as real
    ensures Interpolated(s, x) == s[k]
  {
    hide Mix;
  }

  /** Only the samples matter, not their order. */
  lemma PercentilePermuted(a: seq<real>, b: seq<real>, p: real)
    requires multiset(a) == multiset(b) && 0.0 <= p <= 1.0
    ensures Percentile(a, p) == Percentile(b, p)
  {
    hide Interpolated, Position, Sort;
    SortPermuted(a, b);
    assert |a| == |multiset(a)| == |multiset(b)| == |b|;
  }

  // ---------------------------------------------------------------- summaries

  function Sum(values: seq<real>): real
  {
    if values == [] then 0.0 else values[0] + Sum(values[1..])
  }

  function Minimum(values: seq<real>): real
    requires values != []
  {
    if |values| == 1 then values[0]
    else
      var rest := Minimum(values[1..]);
      if values[0] <= rest then values[0] else rest
  }

  function Maximum(values: seq<real>): real
    requires values != []
  {
    if |values| == 1 then values[0]
    else
      var rest := Maximum(values[1..]);
      if values[0] >= rest then values[0] else rest
  }

  function Mean(values: seq<real>): real
    requires values != []
  {
    Sum(values) / |values| as real
  }

  lemma {:induction false} Extremes(values: seq<real>)
    requires values != []
    ensures Minimum(values) in values && Maximum(values) in values
    ensures forall v :: v in values ==> Minimum(values) <= v <= Maximum(values)
  {
    HeadTail(values);
    if |values| > 1 {
      Extremes(values[1..]);
    }
  }

  function Times(n: nat, x: real): real
  {
    n as real * x
  }

  lemma TimesNext(n: nat, x: real)
    ensures Times(n + 1, x) == Times(n, x) + x
  {
  }

  lemma {:induction false} SumWithin(values: seq<real>, lo: real, hi: real)
    requires forall v :: v in values ==> lo <= v <= hi
    ensures Times(|values|, lo) <= Sum(values) <= Times(|values|, hi)
  {
    if values != [] {
      hide Times;
      HeadTail(values);
      assert values[0] in values;
      SumWithin(values[1..], lo, hi);
      TimesNext(|values[1..]|, lo);
      TimesNext(|values[1..]|, hi);
    }
  }

  lemma Strictly(a: real, b: real, m: real)
    requires a < b && m > 0.0
    ensures m * a < m * b
  {
  }

  lemma Quotient(sum: real, n: nat, lo: real, hi: real)
    requires n > 0 && Times(n, lo) <= sum <= Times(n, hi)
    ensures lo <= sum / n as real <= hi
  {
    var q := sum / n as real;
    assert n as real * q == sum;
    if q < lo {
      Strictly(q, lo, n as real);
    }
    if q > hi {
      Strictly(hi, q, n as real);
    }
  }

  /** The mean lies between the extremes. */
  lemma MeanWithin(values: seq<real>)
    requires values != []
    ensures Minimum(values) <= Mean(values) <= Maximum(values)
  {
    hide Sum, Minimum, Maximum;
    Extremes(values);
    SumWithin(values, Minimum(values), Maximum(values));
    Quotient(Sum(values), |values|, Minimum(values), Maximum(values));
  }

  lemma {:induction false} InsertSum(x: real, s: seq<real>)
    ensures Sum(Insert(x, s)) == x + Sum(s)
  {
    if s == [] || x <= s[0] {
      assert ([x] + s)[1..] == s;
    } else {
      var rest := Insert(x, s[1..]);
      assert ([s[0]] + rest)[1..] == rest;
      InsertSum(x, s[1..]);
    }
  }

  lemma {:induction false} SortSum(s: seq<real>)
    ensures Sum(Sort(s)) == Sum(s)
  {
    if s != [] {
      InsertSum(s[0], Sort(s[1..]));
      SortSum(s[1..]);
    }
  }

  /** Reordering the samples changes neither the extremes nor the mean. */
  lemma SummaryPermuted(a: seq<real>, b: seq<real>)
    requires multiset(a) == multiset(b) && a != []
    ensures b != [] && |a| == |b|
    ensures Minimum(a) == Minimum(b) && Maximum(a) == Maximum(b) && Mean(a) == Mean(b)
  {
    hide Sum, Minimum, Maximum, Sort;
    assert |a| == |multiset(a)| == |multiset(b)| == |b|;
    SortPermuted(a, b);
    SortSum(a);
    SortSum(b);
    Extremes(a);
    Extremes(b);
    assert forall v :: v in a <==> v in multiset(a);
    assert forall v :: v in b <==> v in multiset(b);
  }

  datatype Summary = Summary(mean: real, min: real, max: real, p50: real, p95: real, p99: real)

  // Everything is zero when there are no samples.
  function Summarize(samples: seq<real>): Summary
  {
    if samples == [] then Summary(0.0, 0.0, 0.0, 0.0, 0.0, 0.0)
    else Summary(Mean(samples), Minimum(samples), Maximum(samples),
                 Percentile(samples, 0.50), Percentile(samples, 0.95), Percentile(samples, 0.99))
  }

  /** A summary is ordered, and does not depend on the order of its samples. */
  lemma SummaryOrdered(a: seq<real>, b: seq<real>)
    requires multiset(a) == multiset(b)
    ensures var s := Summarize(a);
            && s.min <= s.p50 <= s.p95 <= s.p99 <= s.max && s.min <= s.mean <= s.max
            && Summarize(b) == s
  {
    hide Percentile, Mean, Minimum, Maximum;
    assert |a| == |multiset(a)| == |multiset(b)| == |b|;
    if a != [] {
      Extremes(a);
      PercentileWithin(a, 0.50, Minimum(a), Maximum(a));
      PercentileWithin(a, 0.99, Minimum(a), Maximum(a));
      PercentileMonotone(a, 0.50, 0.95);
      PercentileMonotone(a, 0.95, 0.99);
      MeanWithin(a);
      SummaryPermuted(a, b);
      PercentilePermuted(a, b, 0.50);
      PercentilePermuted(a, b, 0.95);
      PercentilePermuted(a, b, 0.99);
    }
  }

  // ---------------------------------------------------------------- where the values are

  /**
   A percentile is linear between neighbouring samples: when its place, the percentile times one less
   than the number of samples, falls between ranks k and k + 1, it is as far between the two samples.
   */
  lemma PercentileLinear(values: seq<real>, ordered: seq<real>, p: real, k: nat)
    requires Sorted(ordered) && multiset(ordered) == multiset(values) && 0.0 <= p <= 1.0
    requires k + 1 < |ordered| && k as real <= (|ordered| - 1) as real * p <= (k + 1) as real
    ensures Percentile(values, p) == ordered[k] + (ordered[k + 1] - ordered[k]) * ((|ordered| - 1) as real * p - k as real)
  {
    hide Sorted, Sort, Interpolated;
    OrderedSamples(values, ordered);
    PlaceOf(|ordered| - 1, p);
    var x := Position(|ordered| - 1, p);
    hide Position, Part;
    LinearAt(ordered, x, k);
    PartIs(ordered[k + 1] - ordered[k], (|ordered| - 1) as real * p - k as real);
  }

  lemma PartIs(d: real, w: real)
    ensures Part(d, w) == d * w
  {
  }

  lemma PlaceOf(n: nat, p: real)
    requires 0.0 <= p <= 1.0
    ensures Position(n, p) == n as real * p
  {
  }

  lemma OrderedSamples(values: seq<real>, ordered: seq<real>)
    requires Sorted(ordered) && multiset(ordered) == multiset(values)
    ensures |ordered| == |values| && Sort(values) == ordered
  {
    assert |ordered| == |multiset(ordered)| == |multiset(values)| == |values|;
    SortSorts(values);
    SortedUnique(Sort(values), ordered);
  }

  lemma LinearAt(s: seq<real>, x: real, k: nat)
    requires k + 1 < |s| && k as real <= x <= (k + 1) as real
    ensures Interpolated(s, x) == s[k] + Part(s[k + 1] - s[k], x - k as real)
  {
    hide Mix, Part;
    PartEnds(s[k + 1] - s[k]);
    if x == (k + 1) as real {
      assert x.Floor == k + 1 && x - k as real == 1.0;
    } else {
      assert x.Floor == k && (x == k as real ==> x - k as real == 0.0);
      MixIs(s[k], s[k + 1], x - k as real);
    }
  }

  lemma PartEnds(d: real)
    ensures Part(d, 0.0) == 0.0 && Part(d, 1.0) == d
  {
  }

  /** The mean is what all samples add up to, divided evenly. */
  lemma MeanShares(values: seq<real>)
    requires values != []
    ensures Mean(values) * |values| as real == Sum(values)
  {
  }

  lemma {:induction false} SumAdds(a: seq<real>, b: seq<real>)
    ensures Sum(a + b) == Sum(a) + Sum(b)
  {
    if a == [] {
      assert a + b == b;
    } else {
      assert (a + b)[1..] == a[1..] + b;
      SumAdds(a[1..], b);
    }
  }

  // The samples 0, 1, ..., n.
  function Ranks(n: nat): (ranks: seq<real>)
    ensures |ranks| == n + 1 && forall i :: 0 <= i <= n ==> ranks[i] == i as real
  {
    seq(n + 1, i requires 0 <= i <= n => i as real)
  }

  lemma {:induction false} InOrder(s: seq<real>)
    requires forall i, j :: 0 <= i < j < |s| ==> s[i] <= s[j]
    ensures Sorted(s)
  {
    if s != [] {
      InOrder(s[1..]);
    }
  }

  lemma RankPercentile(n: nat, p: real)
    requires 0.0 <= p <= 1.0
    ensures Percentile(Ranks(n), p) == n as real * p
  {
    hide Percentile;
    InOrder(Ranks(n));
    var x := n as real * p;
    PartWithin(n as real, p);
    assert Part(n as real, p) == x;
    if n == 0 {
      OneSample(Ranks(0), p);
    } else {
      var k: nat := if x.Floor < n then x.Floor else n - 1;
      PercentileLinear(Ranks(n), Ranks(n), p, k);
      assert Ranks(n)[k] == k as real && Ranks(n)[k + 1] == (k + 1) as real;
      assert ((k + 1) as real - k as real) * (x - k as real) == x - k as real;
    }
  }

  lemma OneSample(values: seq<real>, p: real)
    requires |values| == 1 && 0.0 <= p <= 1.0
    ensures Percentile(values, p) == values[0]
  {
    SortSorts(values);
    assert Position(0, p) == 0.0;
    assert multiset(Sort(values)) == multiset([values[0]]);
    assert Sort(values)[0] in multiset(Sort(values));
  }

  lemma {:induction false} RankSum(n: nat)
    ensures 2.0 * Sum(Ranks(n)) == n as real * (n + 1) as real
  {
    if n == 0 {
      assert Ranks(0)[1..] == [];
    } else {
      RankSum(n - 1);
      assert Ranks(n) == Ranks(n - 1) + [n as real];
      SumAdds(Ranks(n - 1), [n as real]);
      assert [n as real][1..] == [];
      assert n as real * (n + 1) as real == (n - 1) as real * n as real + 2.0 * n as real;
    }
  }

  /** The summary of the samples 0 to n: the percentiles are those shares of n, and the mean is the middle. */
  lemma SummaryOfRanks(n: nat)
    ensures var s := Summarize(Ranks(n));
            && s.min == 0.0 && s.max == n as real && 2.0 * s.mean == n as real
            && s.p50 == n as real * 0.5 && s.p95 == n as real * 0.95 && s.p99 == n as real * 0.99
  {
    hide Percentile, Minimum, Maximum, Mean, Sum;
    RankPercentile(n, 0.5);
    RankPercentile(n, 0.95);
    RankPercentile(n, 0.99);
    Extremes(Ranks(n));
    assert Ranks(n)[0] in Ranks(n) && Ranks(n)[n] in Ranks(n);
    RankSum(n);
    MeanShares(Ranks(n));
    Halved(Mean(Ranks(n)), n);
  }

  lemma Halved(mean: real, n: nat)
    requires 2.0 * (mean * (n + 1) as real) == n as real * (n + 1) as real
    ensures 2.0 * mean == n as real
  {
    var m := (n + 1) as real;
    assert (2.0 * mean - n as real) * m == 0.0;
  }
}
