/** Capping portfolio weights and redistributing the excess: the loop over an unordered set of
    symbols, with the remaining weight decreased in the middle of a round, reaches one result. */
module WaterFilling {
  import opened MarketTypes
  import opened Multiples

  type Weights = map<Symbol, real>

  /** The slack the cap comparison and the feasibility check allow. */
  const TOLERANCE: real := 0.000000000001

  datatype WeightError = InvalidMaximum | NoValidWeight | Infeasible

  // ------------------------------------------------------------------------ sums

  ghost function Sum(w: Weights, ts: set<Symbol>): real
    requires ts <= w.Keys
  {
    if ts == {} then 0.0 else var x :| x in ts; w[x] + Sum(w, ts - {x})
  }

  lemma {:induction false} SumRemove(w: Weights, ts: set<Symbol>, x: Symbol)
    requires ts <= w.Keys && x in ts
    ensures Sum(w, ts) == w[x] + Sum(w, ts - {x})
  {
    var y :| y in ts && Sum(w, ts) == w[y] + Sum(w, ts - {y});
    if x != y {
      SumRemove(w, ts - {y}, x);
      SumRemove(w, ts - {x}, y);
      assert ts - {y} - {x} == ts - {x} - {y};
    }
  }

  lemma {:induction false} SumSplit(w: Weights, ts: set<Symbol>, part: set<Symbol>)
    requires part <= ts <= w.Keys
    ensures Sum(w, ts) == Sum(w, part) + Sum(w, ts - part)
  {
    if part == {} {
      assert ts - part == ts;
    } else {
      var x :| x in part;
      SumRemove(w, ts, x);
      SumRemove(w, part, x);
      SumSplit(w, ts - {x}, part - {x});
      assert ts - {x} - (part - {x}) == ts - part;
    }
  }

  lemma {:induction false} SumPositive(w: Weights, ts: set<Symbol>)
    requires ts <= w.Keys && forall s | s in ts :: w[s] > 0.0
    ensures Sum(w, ts) >= 0.0 && (ts != {} ==> Sum(w, ts) > 0.0)
  {
    if ts != {} {
      var x :| x in ts;
      SumRemove(w, ts, x);
      SumPositive(w, ts - {x});
    }
  }

  /** A sum of values that are each at least `bound` is at least the bound times their number. */
  lemma {:induction false} SumAbove(v: Weights, ts: set<Symbol>, bound: real)
    requires ts <= v.Keys && forall s | s in ts :: v[s] >= bound
    ensures Sum(v, ts) >= Times(|ts|, bound)
  {
    if ts != {} {
      var x :| x in ts;
      SumRemove(v, ts, x);
      SumAbove(v, ts - {x}, bound);
      assert |ts| == |ts - {x}| + 1;
    }
  }

  lemma {:induction false} SumEqual(w: Weights, v: Weights, ts: set<Symbol>, factor: real)
    requires ts <= w.Keys && ts <= v.Keys && forall s | s in ts :: v[s] == factor * w[s]
    ensures Sum(v, ts) == factor * Sum(w, ts)
  {
    if ts != {} {
      var x :| x in ts;
      SumRemove(w, ts, x);
      SumRemove(v, ts, x);
      SumEqual(w, v, ts - {x}, factor);
      Distribute(factor, w[x], Sum(w, ts - {x}));
    }
  }

  lemma {:induction false} Distribute(f: real, a: real, b: real)
    ensures f * (a + b) == f * a + f * b
  {
  }

  lemma {:induction false} SumConstant(v: Weights, ts: set<Symbol>, c: real)
    requires ts <= v.Keys && forall s | s in ts :: v[s] == c
    ensures Sum(v, ts) == Times(|ts|, c)
  {
    if ts != {} {
      var x :| x in ts;
      SumRemove(v, ts, x);
      SumConstant(v, ts - {x}, c);
      assert |ts| == |ts - {x}| + 1;
    }
  }

  lemma {:induction false} SumCongruent(v: Weights, w: Weights, ts: set<Symbol>)
    requires ts <= v.Keys && ts <= w.Keys && forall s | s in ts :: v[s] == w[s]
    ensures Sum(v, ts) == Sum(w, ts)
  {
    if ts != {} {
      var x :| x in ts;
      SumRemove(v, ts, x);
      SumRemove(w, ts, x);
      SumCongruent(v, w, ts - {x});
    }
  }

  // --------------------------------------------------------------- normalization

  function Positive(raw: Weights): set<Symbol> { set s | s in raw && raw[s] > 0.0 }

  /** The normalized weights: the positive ones, each divided by their total. */
  ghost predicate NormalizedOf(raw: Weights, n: Weights) {
    && n.Keys == Positive(raw) && n != map[]
    && forall s | s in n :: n[s] > 0.0 && n[s] * Sum(raw, n.Keys) == raw[s]
  }

  lemma {:induction false} NormalizedSum(raw: Weights, n: Weights)
    requires NormalizedOf(raw, n)
    ensures Sum(n, n.Keys) == 1.0
  {
    var total := Sum(raw, n.Keys);
    SumPositive(raw, n.Keys);
    SumEqual(n, raw, n.Keys, total);
    SameQuotient(Sum(n, n.Keys), 1.0, total);
  }

  lemma {:induction false} NormalizedUnique(raw: Weights, m: Weights, n: Weights)
    requires NormalizedOf(raw, m) && NormalizedOf(raw, n)
    ensures m == n
  {
    SumPositive(raw, n.Keys);
    forall s | s in n.Keys ensures m[s] == n[s] { SameQuotient(m[s], n[s], Sum(raw, n.Keys)); }
  }

  lemma {:induction false} SameQuotient(a: real, b: real, t: real)
    requires t > 0.0 && a * t == b * t
    ensures a == b
  {
    assert (a - b) * t == 0.0;
  }

  /** The sum over a set, in whatever order its elements come. */
  method TotalOf(w: Weights, ts: set<Symbol>) returns (total: real)
    requires ts <= w.Keys
    ensures total == Sum(w, ts)
  {
    total := 0.0;
    var rest := ts;
    while rest != {}
      invariant rest <= ts && total + Sum(w, rest) == Sum(w, ts)
      decreases |rest|
    {
      var s :| s in rest;
      SumRemove(w, rest, s);
      total := total + w[s];
      rest := rest - {s};
    }
  }

  /** `_normalize_weights`. */
  method NormalizeWeights(raw: Weights) returns (r: Result<Weights, WeightError>)
    ensures r.Ok? <==> Positive(raw) != {}
    ensures r.Ok? ==> NormalizedOf(raw, r.value)
    ensures r.Err? ==> r.error == NoValidWeight
  {
    var valid := map s | s in raw && raw[s] > 0.0 :: raw[s];
    var total := TotalOf(raw, valid.Keys);
    assert valid.Keys == Positive(raw);
    SumPositive(raw, valid.Keys);
    if total <= 0.0 { return Err(NoValidWeight); }
    var n := map s | s in valid :: raw[s] / total;
    forall s | s in n ensures n[s] > 0.0 && n[s] * total == raw[s] { DividePositive(raw[s], total); }
    assert n.Keys == valid.Keys && n != map[];
    return Ok(n);
  }

  lemma {:induction false} DividePositive(a: real, t: real)
    requires a > 0.0 && t > 0.0
    ensures a / t > 0.0 && a / t * t == a
  {
  }

  // ------------------------------------------------------------------ water level

  lemma {:induction false} ProductPositive(a: real, b: real)
    requires a > 0.0 && b > 0.0
    ensures a * b > 0.0
  {
  }

  lemma {:induction false} Cancel(f: real, g: real, t: real)
    requires t > 0.0 && f * t <= g * t
    ensures f <= g
  {
    if f > g { ProductPositive(f - g, t); }
  }

  lemma {:induction false} Scale(f: real, g: real, w: real)
    requires f <= g && w > 0.0
    ensures f * w <= g * w
  {
    assert (g - f) * w >= 0.0;
  }

  lemma {:induction false} OpenIsNonempty(n: Weights, capped: set<Symbol>)
    requires capped < n.Keys
    ensures n.Keys - capped != {} && |n| == |n.Keys|
  {
    var s :| s in n.Keys && s !in capped;
    assert s in n.Keys - capped;
  }

  /** Every weight times the factor. */
  ghost function Scaled(n: Weights, f: real): Weights { map s | s in n :: f * n[s] }

  /** `f` is the factor that spends exactly what the capped symbols leave over. */
  ghost predicate IsFactor(n: Weights, maximum: real, capped: set<Symbol>, f: real) {
    && capped < n.Keys && (forall s | s in n :: n[s] > 0.0)
    && Sum(Scaled(n, f), n.Keys - capped) == 1.0 - Times(|capped|, maximum)
  }

  /** Every capped symbol exceeds the cap at the common factor. */
  ghost predicate OverCap(n: Weights, maximum: real, capped: set<Symbol>, f: real) {
    IsFactor(n, maximum, capped, f) && forall s | s in capped :: Scaled(n, f)[s] > maximum + TOLERANCE
  }

  /** Exactly the capped symbols exceed the cap at the common factor. */
  ghost predicate WaterLevel(n: Weights, maximum: real, capped: set<Symbol>, f: real) {
    OverCap(n, maximum, capped, f) && forall s | s in n.Keys - capped :: Scaled(n, f)[s] <= maximum + TOLERANCE
  }

  /** The water level with the least set of capped symbols; there is at most one. */
  ghost predicate LeastLevel(n: Weights, maximum: real, capped: set<Symbol>, f: real) {
    && WaterLevel(n, maximum, capped, f)
    && forall other, g | WaterLevel(n, maximum, other, g) :: capped <= other
  }

  ghost function Filled(n: Weights, maximum: real, capped: set<Symbol>, f: real): Weights {
    map s | s in n :: if s in capped then maximum else Scaled(n, f)[s]
  }

  lemma {:induction false} ScaledSum(n: Weights, f: real, ts: set<Symbol>)
    requires ts <= n.Keys
    ensures Sum(Scaled(n, f), ts) == f * Sum(n, ts)
  {
    SumEqual(n, Scaled(n, f), ts, f);
  }

  /** Scaled sums order the factors. */
  lemma {:induction false} SumsOrder(n: Weights, ts: set<Symbol>, f: real, g: real)
    requires ts <= n.Keys && ts != {} && forall s | s in n :: n[s] > 0.0
    requires Sum(Scaled(n, f), ts) <= Sum(Scaled(n, g), ts)
    ensures f <= g
  {
    ScaledSum(n, f, ts);
    ScaledSum(n, g, ts);
    SumPositive(n, ts);
    Cancel(f, g, Sum(n, ts));
  }

  lemma {:induction false} ScaledGrows(n: Weights, f: real, g: real, s: Symbol)
    requires f <= g && s in n && n[s] > 0.0
    ensures Scaled(n, f)[s] <= Scaled(n, g)[s]
  {
    Scale(f, g, n[s]);
  }

  lemma {:induction false} Regions(n: Weights, f: real, capped: set<Symbol>, more: set<Symbol>)
    requires more !! capped && capped + more < n.Keys
    ensures Sum(Scaled(n, f), n.Keys - capped) == Sum(Scaled(n, f), more) + Sum(Scaled(n, f), n.Keys - (capped + more))
    ensures n.Keys - (capped + more) != {} && n.Keys - capped != {}
    ensures |capped + more| == |capped| + |more|
  {
    var open := n.Keys - capped;
    SumSplit(Scaled(n, f), open, more);
    assert open - more == n.Keys - (capped + more);
    OpenIsNonempty(n, capped + more);
    OpenIsNonempty(n, capped);
  }

  /** Capping more symbols that exceed the cap raises the common factor. */
  lemma {:induction false} FactorGrows(n: Weights, maximum: real, capped: set<Symbol>, f: real, more: set<Symbol>,
      g: real)
    requires IsFactor(n, maximum, capped, f) && more !! capped && IsFactor(n, maximum, capped + more, g)
    requires forall s | s in more :: Scaled(n, f)[s] >= maximum
    ensures f <= g
  {
    Regions(n, f, capped, more);
    SumAbove(Scaled(n, f), more, maximum);
    TimesAdds(|capped|, |more|, maximum);
    SumsOrder(n, n.Keys - (capped + more), f, g);
  }

  /** No factor on the way to a water level exceeds the one at it. */
  lemma {:induction false} FactorBelow(n: Weights, maximum: real, capped: set<Symbol>, f: real, level: set<Symbol>,
      g: real)
    requires IsFactor(n, maximum, capped, f) && OverCap(n, maximum, level, g) && capped <= level
    ensures f <= g
  {
    var more := level - capped;
    assert level == capped + more;
    Regions(n, g, capped, more);
    SumAbove(Scaled(n, g), more, maximum);
    TimesAdds(|capped|, |more|, maximum);
    SumsOrder(n, n.Keys - capped, f, g);
  }

  /** Under the feasibility check a round never caps every remaining symbol. */
  lemma {:induction false} SomeStayOpen(n: Weights, maximum: real, capped: set<Symbol>, f: real, more: set<Symbol>)
    requires Times(|n|, maximum) >= 1.0 - TOLERANCE
    requires IsFactor(n, maximum, capped, f) && more <= n.Keys - capped
    requires forall s | s in more :: Scaled(n, f)[s] > maximum + TOLERANCE
    ensures capped + more < n.Keys
  {
    if capped + more == n.Keys {
      OpenIsNonempty(n, capped);
      assert n.Keys - capped == more;
      var s :| s in more;
      SumRemove(Scaled(n, f), more, s);
      SumAbove(Scaled(n, f), more - {s}, maximum);
      assert |more| == |more - {s}| + 1 && |n.Keys| == |capped| + |more|;
      TimesAdds(|capped|, |more|, maximum);
    }
  }

  lemma {:induction false} FactorExists(n: Weights, maximum: real, capped: set<Symbol>) returns (f: real)
    requires capped < n.Keys && forall s | s in n :: n[s] > 0.0
    ensures IsFactor(n, maximum, capped, f)
  {
    OpenIsNonempty(n, capped);
    SumPositive(n, n.Keys - capped);
    f := Quotient(1.0 - Times(|capped|, maximum), Sum(n, n.Keys - capped));
    ScaledSum(n, f, n.Keys - capped);
  }

  lemma {:induction false} Quotient(a: real, t: real) returns (q: real)
    requires t > 0.0
    ensures q * t == a
  {
    q := a / t;
  }

  // ---------------------------------------------------------------------- the loop

  /** The state between two rounds. */
  ghost predicate Round(n: Weights, maximum: real, capped: set<Symbol>, f: real, remaining: real, final: Weights) {
    && OverCap(n, maximum, capped, f)
    && BelowLevels(n, maximum, capped)
    && remaining == 1.0 - Times(|capped|, maximum)
    && Tentative(n, maximum, capped, final)
  }

  ghost predicate BelowLevels(n: Weights, maximum: real, capped: set<Symbol>) {
    forall level, g | WaterLevel(n, maximum, level, g) :: capped <= level
  }

  ghost predicate Tentative(n: Weights, maximum: real, capped: set<Symbol>, final: Weights) {
    final.Keys == n.Keys && forall s | s in n :: final[s] == if s in capped then maximum else 0.0
  }

  /** One pass over the open symbols. A symbol over the cap is capped at once, and the remaining
      weight the next symbol sees is already smaller. */
  method CapRound(n: Weights, maximum: real, ghost capped: set<Symbol>, ghost f: real, open: set<Symbol>, total: real,
                  before: real, start: Weights)
    returns (remaining: real, final: Weights, newly: set<Symbol>)
    requires (forall s | s in n :: n[s] > 0.0) && open == n.Keys - capped && total > 0.0 && f * total == before
    requires Tentative(n, maximum, capped, start) && maximum > 0.0
    ensures newly <= open && Tentative(n, maximum, capped + newly, final)
    ensures remaining == before - Times(|newly|, maximum)
    ensures forall s | s in newly :: Scaled(n, f)[s] > maximum + TOLERANCE
    ensures newly == {} ==> forall s | s in open :: Scaled(n, f)[s] <= maximum + TOLERANCE
  {
    remaining, final, newly := before, start, {};
    var rest := open;
    while rest != {}
      invariant rest <= open && newly <= open - rest
      invariant remaining == before - Times(|newly|, maximum) && remaining <= before
      invariant forall s | s in newly :: Scaled(n, f)[s] > maximum + TOLERANCE
      invariant newly == {} ==> forall s | s in open - rest :: Scaled(n, f)[s] <= maximum + TOLERANCE
      invariant Tentative(n, maximum, capped + newly, final)
      decreases |rest|
    {
      var s :| s in rest;
      var proposed := Propose(remaining, n, s, total, f, before);
      rest := rest - {s};
      if proposed > maximum + TOLERANCE {
        CapOne(n, maximum, capped, newly, final, s);
        final := final[s := maximum];
        remaining := remaining - maximum;
        newly := newly + {s};
      }
    }
  }

  lemma {:induction false} CapOne(n: Weights, maximum: real, capped: set<Symbol>, newly: set<Symbol>, final: Weights,
      s: Symbol)
    requires Tentative(n, maximum, capped + newly, final) && s in n && s !in newly
    ensures Tentative(n, maximum, capped + (newly + {s}), final[s := maximum])
    ensures |newly + {s}| == |newly| + 1
    ensures Times(|newly + {s}|, maximum) == Times(|newly|, maximum) + maximum
  {
  }

  /** The proposed weight: mid-round, at most the factor of the round's start times the weight. */
  method Propose(remaining: real, n: Weights, s: Symbol, total: real, ghost f: real, ghost before: real)
      returns (proposed: real)
    requires s in n && total > 0.0 && n[s] > 0.0 && f * total == before && remaining <= before
    ensures proposed <= Scaled(n, f)[s] && (remaining == before ==> proposed == Scaled(n, f)[s])
  {
    var weight := n[s];
    proposed := remaining * weight / total;
    assert proposed * total == remaining * weight;
    Scale(remaining, before, weight);
    assert f * weight * total == before * weight;
    Cancel(proposed, f * weight, total);
    if remaining == before { Cancel(f * weight, proposed, total); }
  }

  lemma {:induction false} AfterRound(n: Weights, maximum: real, capped: set<Symbol>, f: real, newly: set<Symbol>)
      returns (g: real)
    requires OverCap(n, maximum, capped, f) && newly <= n.Keys - capped && capped + newly < n.Keys
      && BelowLevels(n, maximum, capped)
    requires forall s | s in newly :: Scaled(n, f)[s] > maximum + TOLERANCE
    ensures OverCap(n, maximum, capped + newly, g) && BelowLevels(n, maximum, capped + newly)
  {
    g := FactorExists(n, maximum, capped + newly);
    FactorGrows(n, maximum, capped, f, newly, g);
    forall s | s in capped + newly
      ensures Scaled(n, g)[s] > maximum + TOLERANCE
    {
      ScaledGrows(n, f, g, s);
    }
    forall level, h | WaterLevel(n, maximum, level, h)
      ensures capped + newly <= level
    {
      FactorBelow(n, maximum, capped, f, level, h);
      forall s | s in newly
        ensures s in level
      {
        ScaledGrows(n, f, h, s);
      }
    }
  }

  /** So few weights under so low a cap cannot sum to one. */
  predicate Uncappable(maximum: real, n: nat) { maximum * n as real < 1.0 - TOLERANCE }

  /** `_cap_and_redistribute_weights`. The result is the water level with the least set of capped
      symbols, whatever order the symbols are visited in; it takes at most as many rounds as there
      are symbols. It is refused exactly for an invalid cap, no positive weight, or a cap too low. */
  method CapAndRedistribute(weights: Weights, maximum: real)
    returns (r: Result<Weights, WeightError>, ghost n: Weights, ghost capped: set<Symbol>, ghost f: real,
        ghost rounds: nat)
    ensures r == Err(InvalidMaximum) <==> !(0.0 < maximum <= 1.0)
    ensures r == Err(NoValidWeight) <==> 0.0 < maximum <= 1.0 && Positive(weights) == {}
    ensures r == Err(Infeasible) <==>
      0.0 < maximum <= 1.0 && Positive(weights) != {} && Uncappable(maximum, |Positive(weights)|)
    ensures r.Ok? ==>
      NormalizedOf(weights, n) && LeastLevel(n, maximum, capped, f) && r.value == Filled(n, maximum, capped, f)
        && rounds <= |n|
  {
    n, capped, f, rounds := map[], {}, 1.0, 0;
    if !(0.0 < maximum <= 1.0) { return Err(InvalidMaximum), n, capped, f, rounds; }
    var normalized := NormalizeWeights(weights);
    if normalized.Err? { return Err(normalized.error), n, capped, f, rounds; }
    n := normalized.value;
    assert |n| == |n.Keys| == |Positive(weights)|;
    TimesIs(|n|, maximum);
    if Uncappable(maximum, |normalized.value|) { return Err(Infeasible), n, capped, f, rounds; }
    NormalizedSum(weights, n);
    var final;
    final, capped, f, rounds := FillLevel(normalized.value, maximum);
    return Ok(final), n, capped, f, rounds;
  }

  /** The outer loop on feasible normalized weights. */
  method FillLevel(n: Weights, maximum: real)
      returns (final: Weights, ghost capped: set<Symbol>, ghost f: real, ghost rounds: nat)
    requires n != map[] && (forall s | s in n :: n[s] > 0.0) && Sum(n, n.Keys) == 1.0
    requires maximum > 0.0 && Times(|n|, maximum) >= 1.0 - TOLERANCE
    ensures LeastLevel(n, maximum, capped, f) && final == Filled(n, maximum, capped, f) && rounds <= |n|
  {
    var open, remaining := n.Keys, 1.0;
    final := map s | s in n :: 0.0;
    capped, f, rounds := {}, 1.0, 0;
    StartRound(n, maximum, final);
    while open != {}
      invariant open == n.Keys - capped && Round(n, maximum, capped, f, remaining, final)
      invariant rounds + |open| <= |n|
      decreases |open|
    {
      rounds := rounds + 1;
      var done, newly;
      ghost var g;
      done, remaining, final, newly, g := OneRound(n, maximum, capped, f, open, remaining, final);
      if done { return; }
      capped, f := capped + newly, g;
      open := open - newly;
    }
    OpenIsNonempty(n, capped);
    assert false;
  }

  method OpenTotal(n: Weights, open: set<Symbol>, ghost f: real) returns (total: real)
    requires open <= n.Keys && open != {} && forall s | s in n :: n[s] > 0.0
    ensures total > 0.0 && f * total == Sum(Scaled(n, f), open)
  {
    total := TotalOf(n, open);
    SumPositive(n, open);
    ScaledSum(n, f, open);
  }

  lemma {:induction false} Finished(n: Weights, maximum: real, capped: set<Symbol>, f: real)
    requires OverCap(n, maximum, capped, f) && BelowLevels(n, maximum, capped)
    requires forall s | s in n.Keys - capped :: Scaled(n, f)[s] <= maximum + TOLERANCE
    ensures LeastLevel(n, maximum, capped, f)
  {
  }

  /** One round: cap the symbols that exceed the cap, or give every open symbol its share and stop. */
  method OneRound(n: Weights, maximum: real, ghost capped: set<Symbol>, ghost f: real, open: set<Symbol>,
      before: real, start: Weights)
    returns (done: bool, remaining: real, final: Weights, newly: set<Symbol>, ghost g: real)
    requires maximum > 0.0 && Times(|n|, maximum) >= 1.0 - TOLERANCE
    requires open == n.Keys - capped && open != {} && Round(n, maximum, capped, f, before, start)
    ensures done ==> LeastLevel(n, maximum, capped, f) && final == Filled(n, maximum, capped, f)
    ensures !done ==>
      && Round(n, maximum, capped + newly, g, remaining, final)
      && |open - newly| + 1 <= |open| && open - newly == n.Keys - (capped + newly)
  {
    var total := OpenTotal(n, open, f);
    g := f;
    if total <= 0.0 { assert false; }
    remaining, final, newly := CapRound(n, maximum, capped, f, open, total, before, start);
    done := newly == {};
    if done {
      Finished(n, maximum, capped, f);
      assert capped + {} == capped;
      final := FillOpen(n, maximum, capped, f, open, total, before, final);
    } else {
      g := NextRound(n, maximum, capped, f, open, before, newly, remaining, final);
    }
  }

  lemma {:induction false} NextRound(n: Weights, maximum: real, capped: set<Symbol>, f: real, open: set<Symbol>,
      before: real,
                  newly: set<Symbol>, remaining: real, final: Weights) returns (g: real)
    requires Times(|n|, maximum) >= 1.0 - TOLERANCE && open == n.Keys - capped && newly <= open && newly != {}
    requires OverCap(n, maximum, capped, f) && BelowLevels(n, maximum, capped)
      && before == 1.0 - Times(|capped|, maximum)
    requires remaining == before - Times(|newly|, maximum) && Tentative(n, maximum, capped + newly, final)
    requires forall s | s in newly :: Scaled(n, f)[s] > maximum + TOLERANCE
    ensures Round(n, maximum, capped + newly, g, remaining, final)
    ensures |open - newly| + 1 <= |open| && open - newly == n.Keys - (capped + newly)
  {
    SomeStayOpen(n, maximum, capped, f, newly);
    g := AfterRound(n, maximum, capped, f, newly);
    RoundCounts(capped, open, newly, maximum);
  }

  lemma {:induction false} StartRound(n: Weights, maximum: real, final: Weights)
    requires n != map[] && (forall s | s in n :: n[s] > 0.0) && Sum(n, n.Keys) == 1.0
    requires final == map s | s in n :: 0.0
    ensures Round(n, maximum, {}, 1.0, 1.0, final)
  {
    var s :| s in n;
    assert {} < n.Keys;
    assert n.Keys - {} == n.Keys;
    ScaledSum(n, 1.0, n.Keys);
  }

  lemma {:induction false} RoundCounts(capped: set<Symbol>, open: set<Symbol>, newly: set<Symbol>, maximum: real)
    requires newly <= open && newly != {} && capped !! open
    ensures |open - newly| + 1 <= |open|
    ensures Times(|capped|, maximum) + Times(|newly|, maximum) == Times(|capped + newly|, maximum)
  {
    assert open == (open - newly) + newly;
    assert |capped + newly| == |capped| + |newly|;
    TimesAdds(|capped|, |newly|, maximum);
  }

  /** The last round: every open symbol gets its share of what is left. */
  method FillOpen(n: Weights, maximum: real, ghost capped: set<Symbol>, ghost f: real, open: set<Symbol>, total: real,
                  remaining: real, start: Weights)
    returns (final: Weights)
    requires (forall s | s in n :: n[s] > 0.0) && Tentative(n, maximum, capped, start) && open == n.Keys - capped
    requires total > 0.0 && f * total == remaining
    ensures final == Filled(n, maximum, capped, f)
  {
    final := start;
    var rest := open;
    while rest != {}
      invariant rest <= open && final.Keys == n.Keys
      invariant forall s | s in n && s !in open :: final[s] == maximum
      invariant forall s | s in open - rest :: final[s] == Scaled(n, f)[s]
      decreases |rest|
    {
      var s :| s in rest;
      var share := Propose(remaining, n, s, total, f, remaining);
      final := final[s := share];
      rest := rest - {s};
    }
  }

  // -------------------------------------------------------------------- properties

  /** The result does not depend on the iteration order: any two results for the same input agree. */
  lemma {:induction false} OrderIndependent(weights: Weights, maximum: real, m: Weights, a: set<Symbol>, f: real,
      n: Weights, b: set<Symbol>, g: real)
    requires NormalizedOf(weights, m) && LeastLevel(m, maximum, a, f)
    requires NormalizedOf(weights, n) && LeastLevel(n, maximum, b, g)
    ensures m == n && a == b && f == g && Filled(m, maximum, a, f) == Filled(n, maximum, b, g)
  {
    NormalizedUnique(weights, m, n);
    assert a <= b && b <= a;
    FactorBelow(n, maximum, a, f, b, g);
    FactorBelow(n, maximum, b, g, a, f);
  }

  lemma {:induction false} FilledSum(n: Weights, maximum: real, capped: set<Symbol>, f: real)
    requires IsFactor(n, maximum, capped, f)
    ensures var w := Filled(n, maximum, capped, f); Sum(w, w.Keys) == 1.0
  {
    var w, open := Filled(n, maximum, capped, f), n.Keys - capped;
    assert w.Keys == n.Keys;
    SumSplit(w, w.Keys, capped);
    SumConstant(w, capped, maximum);
    SumCongruent(w, Scaled(n, f), open);
  }

  /** The weights sum to exactly one, are positive, none exceeds the cap by more than the tolerance,
      and one factor separates the capped from the uncapped symbols. */
  lemma {:induction false} FilledMeans(n: Weights, maximum: real, capped: set<Symbol>, f: real)
    requires 0.0 < maximum <= 1.0 && Sum(n, n.Keys) == 1.0 && WaterLevel(n, maximum, capped, f)
    ensures var w := Filled(n, maximum, capped, f);
      && Sum(w, w.Keys) == 1.0
      && (forall s | s in w :: 0.0 < w[s] <= maximum + TOLERANCE)
      && (forall s | s in n :: s in capped <==> f * n[s] > maximum + TOLERANCE)
      && (forall s | s in n.Keys - capped :: w[s] == f * n[s])
    ensures f >= 1.0
  {
    FilledSum(n, maximum, capped, f);
    StartRound(n, maximum, map s | s in n :: 0.0);
    FactorBelow(n, maximum, {}, 1.0, capped, f);
    var w := Filled(n, maximum, capped, f);
    forall s | s in n
      ensures s in capped <==> f * n[s] > maximum + TOLERANCE
      ensures s !in capped ==> w[s] == f * n[s]
      ensures 0.0 < w[s] <= maximum + TOLERANCE
    {
      assert Scaled(n, f)[s] == f * n[s];
      Scale(1.0, f, n[s]);
    }
  }
}
