/** Cross-sectional percentile ranks, tie-averaged, and the ranking of candidates by one score. */
module Ranking {
  import opened StableSort

  /** A score; a missing one ranks below every number. */
  datatype Value = Missing | Number(x: real)

  predicate AtMost(a: Value, b: Value) { a.Missing? || (b.Number? && a.x <= b.x) }

  predicate Below(a: Value, b: Value) { AtMost(a, b) && a != b }

  // ---------------------------------------------------------------------- counting

  /** How many values are strictly below `v`. */
  ghost function CountBelow(vs: seq<Value>, v: Value): nat {
    if vs == [] then 0 else CountBelow(vs[..|vs| - 1], v) + if Below(vs[|vs| - 1], v) then 1 else 0
  }

  ghost function CountEqual(vs: seq<Value>, v: Value): nat { multiset(vs)[v] }

  lemma {:induction false} CountBelowConcat(a: seq<Value>, b: seq<Value>, v: Value)
    ensures CountBelow(a + b, v) == CountBelow(a, v) + CountBelow(b, v)
  {
    if b == [] {
      assert a + b == a;
    } else {
      assert (a + b)[..|a + b| - 1] == a + b[..|b| - 1];
      CountBelowConcat(a, b[..|b| - 1], v);
    }
  }

  lemma {:induction false} CountBelowPermutes(a: seq<Value>, b: seq<Value>, v: Value)
    requires multiset(a) == multiset(b)
    ensures CountBelow(a, v) == CountBelow(b, v)
    decreases |a|
  {
    hide CountBelow;
    if a == [] {
      assert |multiset(b)| == 0;
      assert b == [];
    } else {
      var prior, last := a[..|a| - 1], a[|a| - 1];
      assert a == prior + [last];
      assert last in multiset(b);
      var k :| 0 <= k < |b| && b[k] == last;
      TakenOut(a, b, k);
      var left, right := b[..k], b[k + 1..];
      CountBelowPermutes(prior, left + right, v);
      CountBelowConcat(prior, [last], v);
      CountBelowConcat(left, right, v);
      CountBelowConcat(left, [last], v);
      CountBelowConcat(left + [last], right, v);
    }
  }

  lemma {:induction false} AllBelow(vs: seq<Value>, v: Value)
    requires forall k | 0 <= k < |vs| :: Below(vs[k], v)
    ensures CountBelow(vs, v) == |vs| && CountEqual(vs, v) == 0
  {
    if vs != [] {
      AllBelow(vs[..|vs| - 1], v);
      assert vs == vs[..|vs| - 1] + [vs[|vs| - 1]];
    }
  }

  lemma {:induction false} NoneBelow(vs: seq<Value>, v: Value)
    requires forall k | 0 <= k < |vs| :: !Below(vs[k], v)
    ensures CountBelow(vs, v) == 0
  {
    if vs != [] { NoneBelow(vs[..|vs| - 1], v); }
  }

  lemma {:induction false} AllEqual(vs: seq<Value>, v: Value)
    requires forall k | 0 <= k < |vs| :: vs[k] == v
    ensures CountEqual(vs, v) == |vs|
  {
    if vs != [] {
      AllEqual(vs[..|vs| - 1], v);
      assert vs == vs[..|vs| - 1] + [vs[|vs| - 1]];
    }
  }

  lemma {:induction false} NoneEqual(vs: seq<Value>, v: Value)
    requires forall k | 0 <= k < |vs| :: vs[k] != v
    ensures CountEqual(vs, v) == 0
  {
    if vs != [] {
      NoneEqual(vs[..|vs| - 1], v);
      assert vs == vs[..|vs| - 1] + [vs[|vs| - 1]];
    }
  }

  /** In a sorted sequence, a run of equal values starts at the number of smaller ones. */
  lemma {:induction false} RunCounts(vs: seq<Value>, start: nat, end: nat)
    requires start < end <= |vs| && forall i, j | 0 <= i < j < |vs| :: AtMost(vs[i], vs[j])
    requires forall k | start <= k < end :: vs[k] == vs[start]
    requires start > 0 ==> vs[start - 1] != vs[start]
    requires end < |vs| ==> vs[end] != vs[start]
    ensures CountBelow(vs, vs[start]) == start && CountEqual(vs, vs[start]) == end - start
  {
    var v := vs[start];
    forall k | 0 <= k < start ensures Below(vs[k], v) {
      assert AtMost(vs[k], v) && (k == start - 1 || AtMost(vs[k], vs[start - 1]));
    }
    forall k | end <= k < |vs| ensures !Below(vs[k], v) && vs[k] != v {
      assert AtMost(v, vs[k]) && AtMost(v, vs[end]) && (k == end || AtMost(vs[end], vs[k]));
    }
    RegionCounts(vs, v, start, end);
  }

  lemma {:induction false} RegionCounts(vs: seq<Value>, v: Value, start: nat, end: nat)
    requires start < end <= |vs|
    requires forall k | 0 <= k < start :: Below(vs[k], v)
    requires forall k | start <= k < end :: vs[k] == v
    requires forall k | end <= k < |vs| :: !Below(vs[k], v) && vs[k] != v
    ensures CountBelow(vs, v) == start && CountEqual(vs, v) == end - start
  {
    RegionsBelow(vs[..start], vs[start..end], vs[end..], v);
    RegionsEqual(vs[..start], vs[start..end], vs[end..], v);
    assert vs == vs[..start] + vs[start..end] + vs[end..];
  }

  lemma {:induction false} RegionsBelow(low: seq<Value>, run: seq<Value>, high: seq<Value>, v: Value)
    requires (forall k | 0 <= k < |low| :: Below(low[k], v)) && forall k | 0 <= k < |run| :: run[k] == v
    requires forall k | 0 <= k < |high| :: !Below(high[k], v)
    ensures CountBelow(low + run + high, v) == |low|
  {
    AllBelow(low, v);
    NoneBelow(run, v);
    NoneBelow(high, v);
    CountBelowConcat(low + run, high, v);
    CountBelowConcat(low, run, v);
  }

  lemma {:induction false} RegionsEqual(low: seq<Value>, run: seq<Value>, high: seq<Value>, v: Value)
    requires (forall k | 0 <= k < |low| :: Below(low[k], v)) && forall k | 0 <= k < |run| :: run[k] == v
    requires forall k | 0 <= k < |high| :: high[k] != v
    ensures CountEqual(low + run + high, v) == |run|
  {
    AllBelow(low, v);
    AllEqual(run, v);
    NoneEqual(high, v);
  }

  // -------------------------------------------------------------------- percentiles

  function Denominator(n: nat): nat { if n > 1 then n - 1 else 1 }

  /** The tie-averaged rank of `v`: values strictly below it, plus half of its other ties. */
  ghost function Percentile(vs: seq<Value>, v: Value): real {
    (CountBelow(vs, v) as real + (CountEqual(vs, v) as real - 1.0) / 2.0) / Denominator(|vs|) as real
  }

  function At(vs: seq<Value>, p: int): Value { if 0 <= p < |vs| then vs[p] else Missing }

  function ByValue(vs: seq<Value>): (int, int) -> bool { (i: int, j: int) => AtMost(At(vs, i), At(vs, j)) }

  function Positions(n: nat): seq<int> { seq(n, i => i) }

  ghost function Image(vs: seq<Value>, ps: seq<int>): seq<Value> {
    seq(|ps|, k requires 0 <= k < |ps| => At(vs, ps[k]))
  }

  lemma {:induction false} ImagePermutes(vs: seq<Value>, a: seq<int>, b: seq<int>)
    requires multiset(a) == multiset(b)
    ensures multiset(Image(vs, a)) == multiset(Image(vs, b))
    decreases |a|
  {
    if a == [] {
      assert |multiset(b)| == 0;
      assert b == [];
    } else {
      var n := |a| - 1;
      var last := a[n];
      assert a == a[..n] + [last];
      assert last in multiset(b);
      var k :| 0 <= k < |b| && b[k] == last;
      var rest := b[..k] + b[k + 1..];
      TakenOut(a, b, k);
      ImagePermutes(vs, a[..n], rest);
      ImageConcat(vs, a[..n], [last]);
      ImageConcat(vs, b[..k], b[k + 1..]);
      ImageConcat(vs, b[..k], [last]);
      ImageConcat(vs, b[..k] + [last], b[k + 1..]);
    }
  }

  lemma {:induction false} ImageConcat(vs: seq<Value>, a: seq<int>, b: seq<int>)
    ensures Image(vs, a + b) == Image(vs, a) + Image(vs, b)
  {
  }

  /** Sorting the positions by value: a permutation of them whose values ascend. */
  lemma {:induction false} SortedPositions(vs: seq<Value>, order: seq<int>)
    requires order == Sorted(Positions(|vs|), ByValue(vs))
    ensures |order| == |vs| && Distinct(order) && forall p :: p in order <==> 0 <= p < |vs|
    ensures forall p, q | 0 <= p < q < |order| :: AtMost(At(vs, order[p]), At(vs, order[q]))
    ensures multiset(Image(vs, order)) == multiset(vs)
  {
    var ids := Positions(|vs|);
    SortedMembers(ids, ByValue(vs));
    SortedOrdered(ids, ByValue(vs));
    SortedDistinct(ids, ByValue(vs));
    SortedPermutes(ids, ByValue(vs));
    forall p ensures p in order <==> 0 <= p < |vs| {
      if 0 <= p < |vs| { assert ids[p] == p; }
    }
    forall p, q | 0 <= p < q < |order|
      ensures AtMost(At(vs, order[p]), At(vs, order[q]))
    {
      assert ByValue(vs)(order[p], order[q]);
    }
    ImagePermutes(vs, ids, order);
    assert Image(vs, ids) == vs;
  }

  /** `_percentile_scores`: one sweep over the runs of equal values in sorted order. */
  method PercentileScores(vs: seq<Value>) returns (result: seq<real>)
    ensures |result| == |vs| && forall i | 0 <= i < |vs| :: result[i] == Percentile(vs, vs[i])
  {
    var order := Sorted(Positions(|vs|), ByValue(vs));
    SortedPositions(vs, order);
    var denominator := Denominator(|vs|);
    result := seq(|vs|, i => 0.0);
    var position := 0;
    while position < |order|
      invariant 0 <= position <= |order| && |result| == |vs|
      invariant 0 < position < |order| ==> At(vs, order[position - 1]) != At(vs, order[position])
      invariant RankedUpTo(vs, order, result, position)
    {
      var end := RunEnd(vs, order, position);
      var averageRank := (position + end - 1) as real / 2.0;
      RunRank(vs, order, position, end);
      result := AssignRank(vs, order, result, position, end, averageRank / denominator as real);
      position := end;
    }
    AllRanked(vs, order, result);
  }

  /** The end of the run of equal values that starts at `position`. */
  method RunEnd(vs: seq<Value>, order: seq<int>, position: nat) returns (end: nat)
    requires position < |order|
    ensures position < end <= |order|
    ensures forall p | position <= p < end :: At(vs, order[p]) == At(vs, order[position])
    ensures end < |order| ==> At(vs, order[end]) != At(vs, order[position])
  {
    end := position + 1;
    while end < |order| && At(vs, order[end]) == At(vs, order[position])
      invariant position < end <= |order|
      invariant forall p | position <= p < end :: At(vs, order[p]) == At(vs, order[position])
    {
      end := end + 1;
    }
  }

  method AssignRank(vs: seq<Value>, order: seq<int>, before: seq<real>, position: nat, end: nat, rank: real)
      returns (result: seq<real>)
    requires Distinct(order) && (forall p :: p in order <==> 0 <= p < |vs|) && position <= end <= |order|
    requires RankedUpTo(vs, order, before, position)
    requires forall p | position <= p < end :: rank == Percentile(vs, At(vs, order[p]))
    ensures RankedUpTo(vs, order, result, end)
  {
    result := before;
    for p := position to end
      invariant RankedUpTo(vs, order, result, p)
    {
      assert order[p] in order;
      RankOne(vs, order, result, p, rank);
      result := result[order[p] := rank];
    }
  }

  lemma {:induction false} AllRanked(vs: seq<Value>, order: seq<int>, result: seq<real>)
    requires (forall p :: p in order <==> 0 <= p < |vs|) && RankedUpTo(vs, order, result, |order|)
    ensures forall i | 0 <= i < |vs| :: result[i] == Percentile(vs, vs[i])
  {
    forall i | 0 <= i < |vs| ensures result[i] == Percentile(vs, vs[i]) {
      assert i in order;
      var p :| 0 <= p < |order| && order[p] == i;
    }
  }

  /** The first `n` positions of the sorted order have their rank. */
  ghost predicate RankedUpTo(vs: seq<Value>, order: seq<int>, result: seq<real>, n: int) {
    |result| == |vs| && n <= |order| && forall p | 0 <= p < n ::
      0 <= order[p] < |vs| && result[order[p]] == Percentile(vs, vs[order[p]])
  }

  lemma {:induction false} RankOne(vs: seq<Value>, order: seq<int>, result: seq<real>, p: nat, rank: real)
    requires Distinct(order) && p < |order| && 0 <= order[p] < |vs| && RankedUpTo(vs, order, result, p)
    requires rank == Percentile(vs, vs[order[p]])
    ensures RankedUpTo(vs, order, result[order[p] := rank], p + 1)
  {
  }

  /** Every position of a maximal run has the run's average rank. */
  lemma {:induction false} RunRank(vs: seq<Value>, order: seq<int>, position: nat, end: nat)
    requires position < end <= |order| && multiset(Image(vs, order)) == multiset(vs)
    requires forall p, q | 0 <= p < q < |order| :: AtMost(At(vs, order[p]), At(vs, order[q]))
    requires forall p | position <= p < end :: At(vs, order[p]) == At(vs, order[position])
    requires position > 0 ==> At(vs, order[position - 1]) != At(vs, order[position])
    requires end < |order| ==> At(vs, order[end]) != At(vs, order[position])
    ensures (position + end - 1) as real / 2.0 / Denominator(|vs|) as real == Percentile(vs, At(vs, order[position]))
  {
    var ascending, v := Image(vs, order), At(vs, order[position]);
    RunCounts(ascending, position, end);
    CountBelowPermutes(ascending, vs, v);
    AverageRank(vs, v, position, end);
  }

  lemma {:induction false} AverageRank(vs: seq<Value>, v: Value, position: nat, end: nat)
    requires position < end && CountBelow(vs, v) == position && CountEqual(vs, v) == end - position
    ensures (position + end - 1) as real / 2.0 / Denominator(|vs|) as real == Percentile(vs, v)
  {
  }

  // --------------------------------------------------------------------- properties

  lemma {:induction false} CountsBounded(vs: seq<Value>, v: Value)
    ensures CountBelow(vs, v) + CountEqual(vs, v) <= |vs|
  {
    if vs != [] {
      CountsBounded(vs[..|vs| - 1], v);
      assert vs == vs[..|vs| - 1] + [vs[|vs| - 1]];
    }
  }

  lemma {:induction false} CountsGrow(vs: seq<Value>, v: Value, w: Value)
    requires Below(v, w)
    ensures CountBelow(vs, v) + CountEqual(vs, v) <= CountBelow(vs, w)
  {
    if vs != [] {
      CountsGrow(vs[..|vs| - 1], v, w);
      assert vs == vs[..|vs| - 1] + [vs[|vs| - 1]];
    }
  }

  lemma {:induction false} QuotientBounds(a: real, d: real)
    requires 0.0 <= a <= d && d > 0.0
    ensures 0.0 <= a / d <= 1.0
  {
  }

  lemma {:induction false} QuotientGrows(a: real, b: real, d: real)
    requires a < b && d > 0.0
    ensures a / d < b / d
  {
  }

  /** Percentiles lie in [0, 1]. */
  lemma {:induction false} PercentileBounds(vs: seq<Value>, v: Value)
    requires v in vs
    ensures 0.0 <= Percentile(vs, v) <= 1.0
  {
    CountsBounded(vs, v);
    assert v in multiset(vs);
    QuotientBounds(CountBelow(vs, v) as real + (CountEqual(vs, v) as real - 1.0) / 2.0, Denominator(|vs|) as real);
  }

  /** Percentiles order candidates exactly as their values do, ties included. */
  lemma {:induction false} PercentileOrder(vs: seq<Value>, v: Value, w: Value)
    requires v in vs && w in vs
    ensures Percentile(vs, v) < Percentile(vs, w) <==> Below(v, w)
    ensures Percentile(vs, v) == Percentile(vs, w) <==> v == w
  {
    assert v in multiset(vs) && w in multiset(vs);
    if Below(v, w) { Increases(vs, v, w); } else if Below(w, v) { Increases(vs, w, v); } else { assert v == w; }
  }

  lemma {:induction false} Increases(vs: seq<Value>, v: Value, w: Value)
    requires v in multiset(vs) && w in multiset(vs) && Below(v, w)
    ensures Percentile(vs, v) < Percentile(vs, w)
  {
    CountsGrow(vs, v, w);
    QuotientGrows(CountBelow(vs, v) as real + (CountEqual(vs, v) as real - 1.0) / 2.0,
                  CountBelow(vs, w) as real + (CountEqual(vs, w) as real - 1.0) / 2.0, Denominator(|vs|) as real);
  }

  /** A candidate's percentile follows it under any reordering of the input. */
  lemma {:induction false} PercentileFollows(vs: seq<Value>, ws: seq<Value>, v: Value)
    requires multiset(vs) == multiset(ws)
    ensures Percentile(vs, v) == Percentile(ws, v)
  {
    CountBelowPermutes(vs, ws, v);
    assert |vs| == |multiset(vs)| == |ws|;
  }

  // --------------------------------------------------------------------- leadership

  datatype Attributes = Attributes(signalScore: Value, relativeStrength: Value, adx: Value, volumeRatio: Value)

  function Signals(cs: seq<Attributes>): seq<Value> { seq(|cs|, k requires 0 <= k < |cs| => cs[k].signalScore) }
  function Strengths(cs: seq<Attributes>): seq<Value> { seq(|cs|, k requires 0 <= k < |cs| => cs[k].relativeStrength) }
  function Trends(cs: seq<Attributes>): seq<Value> { seq(|cs|, k requires 0 <= k < |cs| => cs[k].adx) }
  function Volumes(cs: seq<Attributes>): seq<Value> { seq(|cs|, k requires 0 <= k < |cs| => cs[k].volumeRatio) }

  /** The weighted percentiles of one candidate. */
  ghost function Leadership(cs: seq<Attributes>, c: Attributes): real {
    0.35 * Percentile(Signals(cs), c.signalScore) + 0.40 * Percentile(Strengths(cs), c.relativeStrength)
    + 0.15 * Percentile(Trends(cs), c.adx) + 0.10 * Percentile(Volumes(cs), c.volumeRatio)
  }

  /** Balanced scores lie in [0, 1]. */
  lemma {:induction false} LeadershipBounds(cs: seq<Attributes>, i: nat)
    requires i < |cs|
    ensures 0.0 <= Leadership(cs, cs[i]) <= 1.0
  {
    assert Signals(cs)[i] == cs[i].signalScore && Strengths(cs)[i] == cs[i].relativeStrength;
    assert Trends(cs)[i] == cs[i].adx && Volumes(cs)[i] == cs[i].volumeRatio;
    PercentileBounds(Signals(cs), cs[i].signalScore);
    PercentileBounds(Strengths(cs), cs[i].relativeStrength);
    PercentileBounds(Trends(cs), cs[i].adx);
    PercentileBounds(Volumes(cs), cs[i].volumeRatio);
  }

  /** A candidate at least as high in every attribute, and higher in one, scores strictly higher. */
  lemma {:induction false} LeadershipDominates(cs: seq<Attributes>, i: nat, j: nat)
    requires i < |cs| && j < |cs| && cs[i] != cs[j]
    requires AtMost(cs[i].signalScore, cs[j].signalScore) && AtMost(cs[i].relativeStrength, cs[j].relativeStrength)
    requires AtMost(cs[i].adx, cs[j].adx) && AtMost(cs[i].volumeRatio, cs[j].volumeRatio)
    ensures Leadership(cs, cs[i]) < Leadership(cs, cs[j])
  {
    assert Signals(cs)[i] == cs[i].signalScore && Signals(cs)[j] == cs[j].signalScore;
    assert Strengths(cs)[i] == cs[i].relativeStrength && Strengths(cs)[j] == cs[j].relativeStrength;
    assert Trends(cs)[i] == cs[i].adx && Trends(cs)[j] == cs[j].adx;
    assert Volumes(cs)[i] == cs[i].volumeRatio && Volumes(cs)[j] == cs[j].volumeRatio;
    PercentileOrder(Signals(cs), cs[i].signalScore, cs[j].signalScore);
    PercentileOrder(Strengths(cs), cs[i].relativeStrength, cs[j].relativeStrength);
    PercentileOrder(Trends(cs), cs[i].adx, cs[j].adx);
    PercentileOrder(Volumes(cs), cs[i].volumeRatio, cs[j].volumeRatio);
  }

  /** Against a single rival an attribute counts fully, half or not. */
  ghost function Against(v: Value, rival: Value): real {
    if v == rival then 0.5
    else if v.Number? && (rival.Missing? || v.x > rival.x) then 1.0 else 0.0
  }

  lemma {:induction false} PairPercentile(v: Value, w: Value)
    ensures Percentile([v, w], v) == Against(v, w)
  {
    var vs := [v, w];
    assert vs[..1] == [v] && vs[..1][..0] == [];
    assert CountBelow(vs, v) == CountBelow(vs[..1], v) + if Below(w, v) then 1 else 0;
    assert CountBelow(vs[..1], v) == 0;
    assert multiset(vs) == multiset{v, w};
  }

  /** Between two candidates relative strength weighs most, then the signal, then the trend, then the volume; strength
      and volume together weigh as much as signal and trend. */
  lemma {:induction false} PairScore(a: Attributes, b: Attributes)
    ensures Leadership([a, b], a) ==
      (35.0 * Against(a.signalScore, b.signalScore) + 40.0 * Against(a.relativeStrength, b.relativeStrength)
       + 15.0 * Against(a.adx, b.adx) + 10.0 * Against(a.volumeRatio, b.volumeRatio)) / 100.0
  {
    hide Percentile, Against, Signals, Strengths, Trends, Volumes;
    PairColumns(a, b);
    PairPercentile(a.signalScore, b.signalScore);
    PairPercentile(a.relativeStrength, b.relativeStrength);
    PairPercentile(a.adx, b.adx);
    PairPercentile(a.volumeRatio, b.volumeRatio);
  }

  lemma {:induction false} PairColumns(a: Attributes, b: Attributes)
    ensures Signals([a, b]) == [a.signalScore, b.signalScore]
    ensures Strengths([a, b]) == [a.relativeStrength, b.relativeStrength]
    ensures Trends([a, b]) == [a.adx, b.adx] && Volumes([a, b]) == [a.volumeRatio, b.volumeRatio]
  {
    assert |Signals([a, b])| == 2;
  }

  method AddWeighted(scores: seq<real>, percentiles: seq<real>, weight: real) returns (r: seq<real>)
    requires |percentiles| == |scores|
    ensures |r| == |scores| && forall i | 0 <= i < |r| :: r[i] == scores[i] + weight * percentiles[i]
  {
    r := scores;
    for i := 0 to |percentiles|
      invariant |r| == |scores|
      invariant forall j | 0 <= j < i :: r[j] == scores[j] + weight * percentiles[j]
      invariant forall j | i <= j < |r| :: r[j] == scores[j]
    {
      r := r[i := r[i] + weight * percentiles[i]];
    }
  }

  /** `cross_sectional_leadership_scores`. */
  method LeadershipScores(cs: seq<Attributes>) returns (scores: seq<real>)
    ensures |scores| == |cs| && forall i | 0 <= i < |cs| :: scores[i] == Leadership(cs, cs[i])
  {
    scores := seq(|cs|, i => 0.0);
    var p := PercentileScores(Signals(cs));
    scores := AddWeighted(scores, p, 0.35);
    p := PercentileScores(Strengths(cs));
    scores := AddWeighted(scores, p, 0.40);
    p := PercentileScores(Trends(cs));
    scores := AddWeighted(scores, p, 0.15);
    p := PercentileScores(Volumes(cs));
    scores := AddWeighted(scores, p, 0.10);
  }
}
