/** Turning weights into whole-share positions without spending more than the investable capital. */
module Allocation {
  import opened MarketTypes
  import opened Multiples
  import opened WaterFilling

  datatype CandidateData = CandidateData(symbol: Symbol, entryPrice: real, stopPrice: Option<real>, atr: Option<real>)

  /** A candidate cannot be built without a symbol and a positive entry price. */
  type AllocationCandidate = c: CandidateData | c.symbol != "" && c.entryPrice > 0.0
    witness CandidateData("A", 1.0, None, None)

  /** Distance from entry down to a usable stop, in percent of the entry. */
  function StopDistancePct(c: AllocationCandidate): Option<real> {
    if c.stopPrice.Some? && 0.0 < c.stopPrice.value < c.entryPrice
    then Some((c.entryPrice - c.stopPrice.value) / c.entryPrice * 100.0) else None
  }

  datatype AllocationResult = AllocationResult(symbol: Symbol, rawWeight: real, normalizedWeight: real,
      allocationValue: real, quantity: nat)

  datatype AllocationError = InvalidInputs | InvalidParameter | NoUsableCandidate | BadWeights(error: WeightError)

  predicate Distinct(candidates: seq<AllocationCandidate>) {
    forall i, j | 0 <= i < j < |candidates| :: candidates[i].symbol != candidates[j].symbol
  }

  /** `_validate_common_inputs`. */
  predicate ValidInputs(candidates: seq<AllocationCandidate>, equity: real, investablePct: real) {
    candidates != [] && equity > 0.0 && 0.0 < investablePct <= 100.0 && Distinct(candidates)
  }

  function Max(a: real, b: real): real { if a >= b then a else b }
  function Min(a: real, b: real): real { if a <= b then a else b }

  /** `q` is the number of whole shares `value` buys at `price`. */
  ghost predicate IsShares(q: nat, value: real, price: real) { Times(q, price) <= value < Times(q, price) + price }

  lemma {:induction false} ScaleStrictly(f: real, g: real, w: real)
    requires f < g && w > 0.0
    ensures f * w < g * w
  {
    ProductPositive(g - f, w);
    assert (g - f) * w == g * w - f * w;
  }

  lemma {:induction false} FloorIsShares(value: real, price: real, x: real, q: nat)
    requires value >= 0.0 && price > 0.0 && x * price == value && q as real <= x < q as real + 1.0
    ensures IsShares(q, value, price)
  {
    Scale(q as real, x, price);
    ScaleStrictly(x, q as real + 1.0, price);
    TimesIs(q, price);
    assert (q as real + 1.0) * price == q as real * price + price;
  }

  lemma {:induction false} TimesGrows(q: nat, r: nat, price: real)
    requires price > 0.0 && q <= r
    ensures Times(q, price) <= Times(r, price)
  {
    if q < r { TimesGrows(q, r - 1, price); }
  }

  lemma {:induction false} SharesUnique(q: nat, r: nat, value: real, price: real)
    requires price > 0.0 && IsShares(q, value, price) && IsShares(r, value, price)
    ensures q == r
  {
    if q < r { TimesGrows(q + 1, r, price); }
    if r < q { TimesGrows(r + 1, q, price); }
  }

  /** `int(value // price)`. */
  method Shares(value: real, price: real) returns (q: nat)
    requires value >= 0.0 && price > 0.0
    ensures IsShares(q, value, price)
  {
    var x := value / price;
    assert x >= 0.0 by { if x < 0.0 { ProductPositive(-x, price); } }
    q := x.Floor;
    FloorIsShares(value, price, x, q);
  }

  lemma {:induction false} SharesExist(value: real, price: real)
    requires value >= 0.0 && price > 0.0
    ensures exists q: nat :: IsShares(q, value, price)
  {
    var x := Quotient(value, price);
    assert x >= 0.0 by { if x < 0.0 { ProductPositive(-x, price); } }
    FloorIsShares(value, price, x, x.Floor);
  }

  ghost function ShareCount(value: real, price: real): (q: nat)
    requires value >= 0.0 && price > 0.0
    ensures IsShares(q, value, price)
  {
    SharesExist(value, price);
    var q: nat :| IsShares(q, value, price);
    q
  }

  /** Total value of the positions. */
  function Spending(results: seq<AllocationResult>): real {
    if results == [] then 0.0 else Spending(results[..|results| - 1]) + results[|results| - 1].allocationValue
  }

  /** Weights of the symbols the first candidates carry. */
  ghost function SymbolsOf(candidates: seq<AllocationCandidate>): set<Symbol> { set c | c in candidates :: c.symbol }

  /** The position one weighted candidate gets, if it affords a share. */
  ghost function PositionFor(c: AllocationCandidate, raw: Weights, w: Weights,
      capital: real): Option<AllocationResult> {
    if c.symbol !in w || c.symbol !in raw || Scaled(w, capital)[c.symbol] < 0.0 then None
    else
      var q := ShareCount(Scaled(w, capital)[c.symbol], c.entryPrice);
      if q < 1 then None else Some(AllocationResult(c.symbol, raw[c.symbol], w[c.symbol], Times(q, c.entryPrice), q))
  }

  /** The positions in candidate order. */
  ghost function Positions(candidates: seq<AllocationCandidate>, raw: Weights, w: Weights,
      capital: real): seq<AllocationResult> {
    if candidates == [] then []
    else
      Positions(candidates[..|candidates| - 1], raw, w, capital)
      + match PositionFor(candidates[|candidates| - 1], raw, w, capital) case None => [] case Some(x) => [x]
  }

  method OnePosition(c: AllocationCandidate, raw: Weights, w: Weights, capital: real)
      returns (x: Option<AllocationResult>)
    requires capital > 0.0 && w.Keys <= raw.Keys && forall s | s in w :: w[s] > 0.0
    ensures x == PositionFor(c, raw, w, capital)
  {
    if c.symbol !in w { return None; }
    ProductPositive(capital, w[c.symbol]);
    var value := capital * w[c.symbol];
    assert value == Scaled(w, capital)[c.symbol];
    var quantity := Shares(value, c.entryPrice);
    SharesUnique(quantity, ShareCount(value, c.entryPrice), value, c.entryPrice);
    if quantity < 1 { return None; }
    TimesIs(quantity, c.entryPrice);
    var cost := c.entryPrice * quantity as real;
    assert cost == Times(quantity, c.entryPrice);
    assert w[c.symbol] > 0.0 && c.symbol in raw;
    return Some(AllocationResult(c.symbol, raw[c.symbol], w[c.symbol], cost, quantity));
  }

  lemma {:induction false} PositionsStep(candidates: seq<AllocationCandidate>, i: nat, raw: Weights, w: Weights,
      capital: real)
    requires i < |candidates|
    ensures Positions(candidates[..i + 1], raw, w, capital) ==
      match PositionFor(candidates[i], raw, w, capital)
      case None => Positions(candidates[..i], raw, w, capital)
      case Some(x) => Positions(candidates[..i], raw, w, capital) + [x]
  {
    var shorter, longer := candidates[..i], candidates[..i + 1];
    assert longer[..|longer| - 1] == shorter && longer[|longer| - 1] == candidates[i];
  }

  method InvestableCapital(equity: real, investablePct: real) returns (capital: real)
    requires equity > 0.0 && investablePct > 0.0
    ensures capital == equity * investablePct / 100.0 > 0.0
  {
    CapitalPositive(equity, investablePct);
    capital := equity * investablePct / 100.0;
  }

  /** `_build_results`: in candidate order, one position per weighted candidate that affords a share. */
  method BuildResults(candidates: seq<AllocationCandidate>, rawWeights: Weights, capital: real)
    returns (r: Result<seq<AllocationResult>, WeightError>, ghost n: Weights)
    requires capital > 0.0
    ensures r.Ok? <==> Positive(rawWeights) != {}
    ensures r.Ok? ==> NormalizedOf(rawWeights, n) && r.value == Positions(candidates, rawWeights, n, capital)
    ensures r.Err? ==> r.error == NoValidWeight
  {
    n := map[];
    var normalized := NormalizeWeights(rawWeights);
    if normalized.Err? { return Err(normalized.error), n; }
    n := normalized.value;
    var w := normalized.value;
    var results: seq<AllocationResult> := [];
    for i := 0 to |candidates|
      invariant results == Positions(candidates[..i], rawWeights, w, capital)
    {
      PositionsStep(candidates, i, rawWeights, w, capital);
      var x := OnePosition(candidates[i], rawWeights, w, capital);
      if x.None? { continue; }
      results := results + [x.value];
    }
    assert candidates[..|candidates|] == candidates;
    return Ok(results), n;
  }

  lemma {:induction false} CapitalPositive(equity: real, investablePct: real)
    requires equity > 0.0 && investablePct > 0.0
    ensures equity * investablePct / 100.0 > 0.0
  {
    ProductPositive(equity, investablePct);
  }

  // -------------------------------------------------------------------- properties

  lemma {:induction false} TakeOne(candidates: seq<AllocationCandidate>, w: Weights)
    requires candidates != [] && Distinct(candidates)
    ensures var last := |candidates| - 1;
      var y, seen := candidates[last].symbol, SymbolsOf(candidates[..last]) * w.Keys;
      Sum(w, SymbolsOf(candidates) * w.Keys) == if y in w then w[y] + Sum(w, seen) else Sum(w, seen)
  {
    var last := |candidates| - 1;
    var y, seen := candidates[last].symbol, SymbolsOf(candidates[..last]) * w.Keys;
    assert candidates == candidates[..last] + [candidates[last]];
    if y in w {
      assert SymbolsOf(candidates) * w.Keys == seen + {y};
      SumRemove(w, seen + {y}, y);
      assert seen + {y} - {y} == seen;
    } else {
      assert SymbolsOf(candidates) * w.Keys == seen;
    }
  }

  lemma {:induction false} PositionWithin(c: AllocationCandidate, raw: Weights, w: Weights, capital: real)
    requires PositionFor(c, raw, w, capital).Some?
    ensures var x := PositionFor(c, raw, w, capital).value;
      c.symbol in w && x.allocationValue <= Scaled(w, capital)[c.symbol]
  {
  }

  lemma {:induction false} SpendingAdds(prior: seq<AllocationResult>, x: AllocationResult)
    ensures Spending(prior + [x]) == Spending(prior) + x.allocationValue
  {
    assert (prior + [x])[..|prior|] == prior;
  }

  /** Positions spend at most what the weights of their candidates are worth. */
  lemma {:induction false} SpendingWithin(candidates: seq<AllocationCandidate>, raw: Weights, w: Weights, capital: real)
    requires Distinct(candidates)
    requires forall s | s in w :: Scaled(w, capital)[s] > 0.0
    ensures Spending(Positions(candidates, raw, w, capital)) <= Sum(Scaled(w, capital), SymbolsOf(candidates) * w.Keys)
  {
    if candidates == [] {
      assert SymbolsOf(candidates) * w.Keys == {};
    } else {
      var last := |candidates| - 1;
      var c: AllocationCandidate := candidates[last];
      SpendingWithin(candidates[..last], raw, w, capital);
      assert Scaled(w, capital).Keys == w.Keys;
      TakeOne(candidates, Scaled(w, capital));
      var x := PositionFor(c, raw, w, capital);
      assert candidates[..last + 1] == candidates;
      PositionsStep(candidates, last, raw, w, capital);
      if x.Some? {
        PositionWithin(c, raw, w, capital);
        SpendingAdds(Positions(candidates[..last], raw, w, capital), x.value);
      }
    }
  }

  /** Whatever the weights, whole-share positions never cost more than the investable capital. */
  lemma {:induction false} SpendingBounded(candidates: seq<AllocationCandidate>, raw: Weights, n: Weights,
      capital: real)
    requires Distinct(candidates) && capital > 0.0
    requires (forall s | s in n :: n[s] > 0.0) && Sum(n, n.Keys) == 1.0
    ensures Spending(Positions(candidates, raw, n, capital)) <= capital
  {
    var part := SymbolsOf(candidates) * n.Keys;
    forall s | s in n ensures Scaled(n, capital)[s] > 0.0 { ProductPositive(capital, n[s]); }
    SpendingWithin(candidates, raw, n, capital);
    SumSplit(Scaled(n, capital), n.Keys, part);
    SumPositive(Scaled(n, capital), n.Keys - part);
    ScaledSum(n, capital, n.Keys);
  }

  /** The position holds the most whole shares of the candidate that `value` pays for, at least one. */
  ghost predicate Affords(x: AllocationResult, c: AllocationCandidate, value: real) {
    c.symbol == x.symbol && x.quantity >= 1 && x.allocationValue == Times(x.quantity, c.entryPrice)
      && IsShares(x.quantity, value, c.entryPrice)
  }

  /** A position is the most whole shares its weight pays for, and holds at least one. */
  lemma {:induction false} PositionsMean(candidates: seq<AllocationCandidate>, raw: Weights, w: Weights,
      capital: real, k: nat)
    requires k < |Positions(candidates, raw, w, capital)|
    ensures var x := Positions(candidates, raw, w, capital)[k];
      && x.symbol in w && x.symbol in raw
      && exists c: AllocationCandidate :: c in candidates && Affords(x, c, Scaled(w, capital)[x.symbol])
  {
    var last := |candidates| - 1;
    var c: AllocationCandidate, prior := candidates[last], Positions(candidates[..last], raw, w, capital);
    if k < |prior| {
      PositionsMean(candidates[..last], raw, w, capital, k);
    } else {
      assert c in candidates;
    }
  }

  // ------------------------------------------------------------------- allocators

  /** Each symbol with a usable stop weighs the inverse of its distance, of the minimum at least. */
  ghost predicate InverseOf(candidates: seq<AllocationCandidate>, minimum: real, raw: Weights)
    requires minimum > 0.0
  {
    && (forall s :: s in raw <==> exists c: AllocationCandidate ::
      c in candidates && c.symbol == s && StopDistancePct(c).Some?)
    && forall c: AllocationCandidate | c in candidates && StopDistancePct(c).Some? ::
      raw[c.symbol] == Inverse(StopDistancePct(c).value, minimum)
  }

  function Inverse(distance: real, minimum: real): real
    requires minimum > 0.0
  {
    1.0 / Max(distance, minimum)
  }

  /** The stop-risk allocator: inverse stop distances, capped and redistributed, in whole shares. */
  method AllocateStopRisk(candidates: seq<AllocationCandidate>, equity: real, investablePct: real,
                          minimumStopDistancePct: real, maximumPositionPct: real)
    returns (r: Result<seq<AllocationResult>, AllocationError>, ghost raw: Weights, ghost n: Weights,
        ghost capped: set<Symbol>, ghost f: real)
    ensures r == Err(InvalidInputs) <==> !ValidInputs(candidates, equity, investablePct)
    ensures r == Err(InvalidParameter) <==>
      ValidInputs(candidates, equity, investablePct)
        && !(minimumStopDistancePct > 0.0 && 0.0 < maximumPositionPct <= 100.0)
    ensures r.Ok? || r.error.NoUsableCandidate? || r.error.BadWeights? <==>
      ValidInputs(candidates, equity, investablePct) && minimumStopDistancePct > 0.0
        && 0.0 < maximumPositionPct <= 100.0
    ensures r.Ok? || r.error.NoUsableCandidate? || r.error.BadWeights? ==>
      && InverseOf(candidates, minimumStopDistancePct, raw)
      && (r == Err(NoUsableCandidate) <==> raw == map[])
      && (r.Err? && r.error.BadWeights? <==> raw != map[] && Uncappable(maximumPositionPct / 100.0, |raw|))
    ensures r.Ok? ==>
      && NormalizedOf(raw, n) && LeastLevel(n, maximumPositionPct / 100.0, capped, f)
      && var w := Filled(n, maximumPositionPct / 100.0, capped, f);
         r.value == Positions(candidates, w, w, equity * investablePct / 100.0)
    ensures r.Ok? ==> WithinCap(r.value, equity * investablePct / 100.0, maximumPositionPct / 100.0)
  {
    hide NormalizedOf, LeastLevel, Filled, Positions, WithinCap, InverseOf, Uncappable;
    raw, n, capped, f := map[], map[], {}, 1.0;
    if !ValidInputs(candidates, equity, investablePct) { return Err(InvalidInputs), raw, n, capped, f; }
    if minimumStopDistancePct <= 0.0 || !(0.0 < maximumPositionPct <= 100.0) {
      return Err(InvalidParameter), raw, n, capped, f;
    }
    var weights := InverseDistances(candidates, minimumStopDistancePct);
    raw := weights;
    if weights == map[] { return Err(NoUsableCandidate), raw, n, capped, f; }
    assert Positive(weights) == weights.Keys;
    var capital := InvestableCapital(equity, investablePct);
    var built;
    built, n, capped, f := AllocateCapped(candidates, weights, capital, maximumPositionPct / 100.0);
    if built.Err? { return Err(BadWeights(built.error)), raw, n, capped, f; }
    return Ok(built.value), raw, n, capped, f;
  }

  /** Positions built from capped weights: affordable together, and none above the cap. */
  ghost predicate WithinCap(results: seq<AllocationResult>, capital: real, maximum: real) {
    && Spending(results) <= capital
    && forall k | 0 <= k < |results| ::
      results[k].quantity >= 1 && results[k].allocationValue <= capital * (maximum + TOLERANCE)
  }

  /** Cap and redistribute the raw weights, then build the positions: the tail the capped allocators share. */
  method AllocateCapped(candidates: seq<AllocationCandidate>, raw: Weights, capital: real, maximum: real)
    returns (r: Result<seq<AllocationResult>, WeightError>, ghost n: Weights, ghost capped: set<Symbol>, ghost f: real)
    requires Distinct(candidates) && capital > 0.0 && 0.0 < maximum <= 1.0 && Positive(raw) == raw.Keys != {}
    ensures r.Err? <==> Uncappable(maximum, |raw|)
    ensures r.Ok? ==>
      && NormalizedOf(raw, n) && LeastLevel(n, maximum, capped, f)
      && r.value == Positions(candidates, Filled(n, maximum, capped, f), Filled(n, maximum, capped, f), capital)
      && WithinCap(r.value, capital, maximum)
  {
    hide Uncappable;
    var weights;
    ghost var rounds;
    weights, n, capped, f, rounds := CapAndRedistribute(raw, maximum);
    assert |Positive(raw)| == |raw.Keys| == |raw|;
    if weights.Err? {
      assert weights == Err(weights.error);
      assert weights.error.Infeasible?;
      return Err(weights.error), n, capped, f;
    }
    NormalizedSum(raw, n);
    FilledMeans(n, maximum, capped, f);
    assert Positive(weights.value) == weights.value.Keys;
    FilledNotEmpty(weights.value);
    var built, m := BuildResults(candidates, weights.value, capital);
    CappedWithin(candidates, weights.value, m, capital, maximum);
    return Ok(built.value), n, capped, f;
  }

  lemma {:induction false} FilledNotEmpty(w: Weights)
    requires Sum(w, w.Keys) == 1.0
    ensures w.Keys != {}
  {
  }

  method InverseDistances(candidates: seq<AllocationCandidate>, minimum: real) returns (raw: Weights)
    requires minimum > 0.0 && Distinct(candidates)
    ensures InverseOf(candidates, minimum, raw) && forall s | s in raw :: raw[s] > 0.0
  {
    raw := map[];
    for i := 0 to |candidates|
      invariant InverseOf(candidates[..i], minimum, raw) && forall s | s in raw :: raw[s] > 0.0
    {
      var distance := StopDistancePct(candidates[i]);
      InverseStep(candidates, i, minimum, raw);
      if distance.None? { continue; }
      InversePositive(distance.value, minimum);
      raw := raw[candidates[i].symbol := 1.0 / Max(distance.value, minimum)];
    }
    assert candidates[..|candidates|] == candidates;
  }

  lemma {:induction false} InverseStep(candidates: seq<AllocationCandidate>, i: nat, minimum: real, raw: Weights)
    requires i < |candidates| && minimum > 0.0 && Distinct(candidates) && InverseOf(candidates[..i], minimum, raw)
    ensures InverseOf(candidates[..i + 1], minimum,
              match StopDistancePct(candidates[i]) case None => raw case Some(d) =>
                raw[candidates[i].symbol := Inverse(d, minimum)])
  {
    hide Inverse;
    var c: AllocationCandidate := candidates[i];
    assert candidates[..i + 1] == candidates[..i] + [c];
    forall b: AllocationCandidate ensures b in candidates[..i + 1] <==> b in candidates[..i] || b == c {}
    forall b: AllocationCandidate | b in candidates[..i] ensures b.symbol != c.symbol {
      var j :| 0 <= j < i && candidates[..i][j] == b;
      assert candidates[j] == b;
    }
  }

  lemma {:induction false} InversePositive(distance: real, minimum: real)
    requires minimum > 0.0
    ensures Inverse(distance, minimum) > 0.0
  {
    DividePositive(1.0, Max(distance, minimum));
  }

  lemma {:induction false} CappedWithin(candidates: seq<AllocationCandidate>, filled: Weights, m: Weights,
      capital: real, maximum: real)
    requires Distinct(candidates)
    requires capital > 0.0 && NormalizedOf(filled, m)
    requires Sum(filled, filled.Keys) == 1.0 && forall s | s in filled :: 0.0 < filled[s] <= maximum + TOLERANCE
    ensures m == filled && WithinCap(Positions(candidates, filled, m, capital), capital, maximum)
  {
    NormalizedSum(filled, m);
    SpendingBounded(candidates, filled, m, capital);
    assert Positive(filled) == filled.Keys;
    forall s | s in m ensures m[s] == filled[s] { assert m[s] * 1.0 == filled[s]; }
    CappedPositions(candidates, filled, m, capital, maximum);
  }

  lemma {:induction false} CappedPositions(candidates: seq<AllocationCandidate>, raw: Weights, m: Weights,
      capital: real, maximum: real)
    requires m.Keys == raw.Keys && (forall s | s in m :: 0.0 < m[s] <= maximum + TOLERANCE) && capital > 0.0
    ensures var results := Positions(candidates, raw, m, capital);
      forall k | 0 <= k < |results| ::
        results[k].quantity >= 1 && results[k].allocationValue <= capital * (maximum + TOLERANCE)
  {
    var results, most := Positions(candidates, raw, m, capital), capital * (maximum + TOLERANCE);
    forall k | 0 <= k < |results| ensures results[k].quantity >= 1 && results[k].allocationValue <= most {
      CappedPosition(candidates, raw, m, capital, maximum + TOLERANCE, k);
    }
  }

  lemma {:induction false} CappedPosition(candidates: seq<AllocationCandidate>, raw: Weights, m: Weights,
      capital: real, bound: real, k: nat)
    requires m.Keys == raw.Keys && (forall s | s in m :: 0.0 < m[s] <= bound) && capital > 0.0
      && k < |Positions(candidates, raw, m, capital)|
    ensures var x := Positions(candidates, raw, m, capital)[k]; x.quantity >= 1 && x.allocationValue <= capital * bound
  {
    hide Positions, ShareCount;
    PositionsMean(candidates, raw, m, capital, k);
    ScaledBound(m, capital, Positions(candidates, raw, m, capital)[k].symbol, bound);
  }

  lemma {:induction false} ScaledBound(m: Weights, capital: real, s: Symbol, bound: real)
    requires s in m && capital > 0.0 && m[s] <= bound
    ensures Scaled(m, capital)[s] <= capital * bound
  {
    Scale(m[s], bound, capital);
  }

  // ------------------------------------------------------------------- risk budget

  datatype RiskParameters = RiskParameters(targetRiskPct: real, maximumPct: real, minimumPct: real,
      minimumStopPct: real)
  {
    predicate Valid() {
      && targetRiskPct > 0.0 && 0.0 < maximumPct <= 100.0 && 0.0 <= minimumPct <= 100.0
      && minimumPct <= maximumPct && minimumStopPct > 0.0
    }
  }

  /** The value a candidate's risk target asks for, within the position limits. */
  function Desired(c: AllocationCandidate, p: RiskParameters, equity: real): Option<real>
    requires p.Valid()
  {
    match StopDistancePct(c)
    case None => None
    case Some(d) =>
      var wanted := equity * p.targetRiskPct / 100.0 / (Max(d, p.minimumStopPct) / 100.0);
      Some(Min(Max(wanted, equity * p.minimumPct / 100.0), equity * p.maximumPct / 100.0))
  }

  /** A usable candidate and the value it asks for. */
  datatype Ask = Ask(c: AllocationCandidate, value: real)

  function TotalAsked(asks: seq<Ask>): real {
    if asks == [] then 0.0 else TotalAsked(asks[..|asks| - 1]) + asks[|asks| - 1].value
  }

  /** The asks in candidate order. */
  function Asks(candidates: seq<AllocationCandidate>, p: RiskParameters, equity: real): seq<Ask>
    requires p.Valid()
  {
    if candidates == [] then []
    else
      var n := |candidates| - 1;
      var c: AllocationCandidate := candidates[n];
      Asks(candidates[..n], p, equity)
      + match Desired(c, p, equity) case None => [] case Some(value) => [Ask(c, value)]
  }

  /** Every candidate with a usable stop asks, once and for its desired value, and nobody else does. */
  lemma {:induction false} AsksMean(candidates: seq<AllocationCandidate>, p: RiskParameters, equity: real)
    requires p.Valid() && equity > 0.0 && Distinct(candidates)
    ensures var asks := Asks(candidates, p, equity);
      && (forall a: Ask | a in asks ::
        a.c in candidates && Desired(a.c, p, equity) == Some(a.value) && 0.0 < a.value <= equity * p.maximumPct / 100.0)
      && (forall c: AllocationCandidate | c in candidates && StopDistancePct(c).Some? :: exists a: Ask ::
        a in asks && a.c == c)
      && forall i, j | 0 <= i < j < |asks| :: asks[i].c != asks[j].c
  {
    if candidates != [] {
      var n := |candidates| - 1;
      var c: AllocationCandidate, prior := candidates[n], Asks(candidates[..n], p, equity);
      AsksMean(candidates[..n], p, equity);
      assert candidates == candidates[..n] + [c];
      LastDiffers(candidates);
      if StopDistancePct(c).Some? {
        DesiredPositive(c, p, equity);
        AskAdded(prior, Ask(c, Desired(c, p, equity).value));
      }
    }
  }

  lemma {:induction false} LastDiffers(candidates: seq<AllocationCandidate>)
    requires candidates != [] && Distinct(candidates)
    ensures candidates[|candidates| - 1] !in candidates[..|candidates| - 1]
  {
  }

  lemma {:induction false} AskAdded(prior: seq<Ask>, one: Ask)
    requires forall a: Ask | a in prior :: a.c != one.c
    requires forall i, j | 0 <= i < j < |prior| :: prior[i].c != prior[j].c
    ensures var asks := prior + [one];
      && (forall a: Ask :: a in asks <==> a in prior || a == one)
      && forall i, j | 0 <= i < j < |asks| :: asks[i].c != asks[j].c
  {
    var asks := prior + [one];
    forall i, j | 0 <= i < j < |asks| ensures asks[i].c != asks[j].c { assert asks[i] in prior; }
  }

  /** What an ask is worth when every ask is scaled by the same factor. */
  function Part(a: Ask, factor: real): real { a.value * factor }

  /** The position a scaled ask gets, if it affords a share. */
  ghost function ServedFor(a: Ask, factor: real, capital: real): Option<AllocationResult>
    requires capital > 0.0
  {
    if Part(a, factor) < 0.0 || ShareCount(Part(a, factor), a.c.entryPrice) < 1 then None
    else
      var q := ShareCount(Part(a, factor), a.c.entryPrice);
      var cost := Times(q, a.c.entryPrice);
      Some(AllocationResult(a.c.symbol, a.value, cost / capital, cost, q))
  }

  ghost function ServedAll(asks: seq<Ask>, factor: real, capital: real): seq<AllocationResult>
    requires capital > 0.0
  {
    if asks == [] then []
    else
      ServedAll(asks[..|asks| - 1], factor, capital)
      + match ServedFor(asks[|asks| - 1], factor, capital) case None => [] case Some(x) => [x]
  }

  lemma {:induction false} PartBounds(a: Ask, factor: real)
    requires a.value > 0.0 && factor > 0.0
    ensures Part(a, factor) > 0.0 && (factor <= 1.0 ==> Part(a, factor) <= a.value)
  {
    ProductPositive(a.value, factor);
    if factor <= 1.0 { Scale(factor, 1.0, a.value); }
  }

  /** The position is the most whole shares the scaled ask pays for. */
  lemma {:induction false} ServedOne(a: Ask, factor: real, capital: real)
    requires capital > 0.0 && Part(a, factor) >= 0.0
    ensures ServedFor(a, factor, capital).Some? <==> Part(a, factor) >= a.c.entryPrice
    ensures ServedFor(a, factor, capital).Some? ==>
      var x := ServedFor(a, factor, capital).value;
      Affords(x, a.c, Part(a, factor)) && x.rawWeight == a.value && x.allocationValue <= Part(a, factor)
  {
    hide Part;
    AffordsOne(Part(a, factor), a.c.entryPrice);
  }

  ghost predicate Serves(x: AllocationResult, a: Ask, factor: real) {
    Affords(x, a.c, Part(a, factor)) && x.rawWeight == a.value
  }

  /** The positions: every ask worth a share is served, nothing else is bought, and each position is the
      most whole shares of its scaled ask. */
  lemma {:induction false} ServedMeans(asks: seq<Ask>, factor: real, capital: real)
    requires capital > 0.0 && factor > 0.0 && forall a: Ask | a in asks :: a.value > 0.0
    ensures forall x | x in ServedAll(asks, factor, capital) :: exists a: Ask :: a in asks && Serves(x, a, factor)
    ensures forall a: Ask | a in asks && Part(a, factor) >= a.c.entryPrice ::
      exists x :: x in ServedAll(asks, factor, capital) && Serves(x, a, factor)
  {
    hide Part, ServedFor, Affords;
    if asks != [] {
      var n := |asks| - 1;
      var last, prior := asks[n], ServedAll(asks[..n], factor, capital);
      ServedMeans(asks[..n], factor, capital);
      assert asks == asks[..n] + [last];
      PartBounds(last, factor);
      ServedOne(last, factor, capital);
      if ServedFor(last, factor, capital).Some? {
        var x := ServedFor(last, factor, capital).value;
        assert Serves(x, last, factor);
        forall y ensures y in ServedAll(asks, factor, capital) <==> y in prior || y == x {}
      }
    }
  }

  lemma {:induction false} AffordsOne(value: real, price: real)
    requires value >= 0.0 && price > 0.0
    ensures ShareCount(value, price) >= 1 <==> value >= price
  {
    var q := ShareCount(value, price);
    if q >= 1 { TimesGrows(1, q, price); }
    assert Times(1, price) == Times(0, price) + price;
  }

  function TotalParts(asks: seq<Ask>, factor: real): real {
    if asks == [] then 0.0 else TotalParts(asks[..|asks| - 1], factor) + Part(asks[|asks| - 1], factor)
  }

  lemma {:induction false} PartsTotal(asks: seq<Ask>, factor: real)
    ensures TotalParts(asks, factor) == factor * TotalAsked(asks)
  {
    if asks != [] {
      PartsTotal(asks[..|asks| - 1], factor);
      BudgetSums(factor, TotalAsked(asks[..|asks| - 1]), asks[|asks| - 1].value);
    }
  }

  /** Scaled positions never cost more than the scaled asks together. */
  lemma {:induction false} ServedSpending(asks: seq<Ask>, factor: real, capital: real, bound: real)
    requires capital > 0.0 && 0.0 < factor <= 1.0 && forall a: Ask | a in asks :: 0.0 < a.value <= bound
    ensures Spending(ServedAll(asks, factor, capital)) <= TotalParts(asks, factor)
    ensures forall x | x in ServedAll(asks, factor, capital) :: x.quantity >= 1 && x.allocationValue <= bound
  {
    hide Part, ServedFor;
    if asks != [] {
      var n := |asks| - 1;
      var last, prior := asks[n], ServedAll(asks[..n], factor, capital);
      assert last in asks;
      ServedSpending(asks[..n], factor, capital, bound);
      PartBounds(last, factor);
      ServedOne(last, factor, capital);
      if ServedFor(last, factor, capital).Some? {
        SpendingAdds(prior, ServedFor(last, factor, capital).value);
      } else {
        assert ServedAll(asks, factor, capital) == prior;
      }
    }
  }

  /** `RiskBudgetAllocator.allocate`: each position aims at the same risk to its stop, all of them are
      scaled down together exactly as far as the investable capital demands, and only whole shares are bought. */
  method AllocateRiskBudget(candidates: seq<AllocationCandidate>, equity: real, investablePct: real, p: RiskParameters)
    returns (r: Result<seq<AllocationResult>, AllocationError>)
    ensures r == Err(InvalidInputs) <==> !ValidInputs(candidates, equity, investablePct)
    ensures r == Err(InvalidParameter) <==> ValidInputs(candidates, equity, investablePct) && !p.Valid()
    ensures r == Err(NoUsableCandidate) <==>
      && ValidInputs(candidates, equity, investablePct) && p.Valid()
      && forall c: AllocationCandidate | c in candidates :: StopDistancePct(c).None?
    ensures r.Err? ==> !r.error.BadWeights?
    ensures r.Ok? ==>
      var asks, capital := Asks(candidates, p, equity), equity * investablePct / 100.0;
      && capital > 0.0 && TotalAsked(asks) > 0.0
      && r.value == ServedAll(asks, Min(1.0, capital / TotalAsked(asks)), capital)
      && Spending(r.value) <= capital
      && forall x | x in r.value :: x.quantity >= 1 && x.allocationValue <= equity * p.maximumPct / 100.0
  {
    if !ValidInputs(candidates, equity, investablePct) { return Err(InvalidInputs); }
    if !p.Valid() { return Err(InvalidParameter); }
    var desired := CollectAsks(candidates, p, equity);
    AsksMean(candidates, p, equity);
    if desired == [] { return Err(NoUsableCandidate); }
    assert desired[0] in desired;
    var capital := InvestableCapital(equity, investablePct);
    var factor := CommonScale(desired, capital);
    var results := ServeAsks(desired, factor, capital);
    ServedSpending(desired, factor, capital, equity * p.maximumPct / 100.0);
    PartsTotal(desired, factor);
    return Ok(results);
  }

  /** The first loop: the usable candidates and the values they ask for. */
  method CollectAsks(candidates: seq<AllocationCandidate>, p: RiskParameters, equity: real) returns (asks: seq<Ask>)
    requires p.Valid()
    ensures asks == Asks(candidates, p, equity)
  {
    asks := [];
    for i := 0 to |candidates|
      invariant asks == Asks(candidates[..i], p, equity)
    {
      assert candidates[..i + 1][..i] == candidates[..i];
      var desired := Desired(candidates[i], p, equity);
      if desired.None? { continue; }
      asks := asks + [Ask(candidates[i], desired.value)];
    }
    assert candidates[..|candidates|] == candidates;
  }

  /** The common scale: one, unless all asks together exceed the capital. */
  method CommonScale(asks: seq<Ask>, capital: real) returns (factor: real)
    requires asks != [] && capital > 0.0 && forall a: Ask | a in asks :: 0.0 < a.value
    ensures TotalAsked(asks) > 0.0 && factor == Min(1.0, capital / TotalAsked(asks))
    ensures 0.0 < factor <= 1.0 && factor * TotalAsked(asks) <= capital
  {
    var total := 0.0;
    for i := 0 to |asks|
      invariant total == TotalAsked(asks[..i])
    {
      assert asks[..i + 1][..i] == asks[..i];
      total := total + asks[i].value;
    }
    assert asks[..|asks|] == asks;
    TotalPositive(asks);
    factor := Min(1.0, capital / total);
    ScaleWithin(capital, total, factor);
  }

  /** The second loop: whole shares of the scaled values. */
  method ServeAsks(asks: seq<Ask>, factor: real, capital: real) returns (results: seq<AllocationResult>)
    requires capital > 0.0 && factor > 0.0 && forall a: Ask | a in asks :: 0.0 < a.value
    ensures results == ServedAll(asks, factor, capital)
  {
    results := [];
    for i := 0 to |asks|
      invariant results == ServedAll(asks[..i], factor, capital)
    {
      var a: Ask := asks[i];
      assert a in asks && asks[..i + 1][..i] == asks[..i];
      var one := BuyShares(a, factor, capital);
      if one.None? { continue; }
      results := results + [one.value];
    }
    assert asks[..|asks|] == asks;
  }

  method BuyShares(a: Ask, factor: real, capital: real) returns (x: Option<AllocationResult>)
    requires a.value > 0.0 && factor > 0.0 && capital > 0.0
    ensures x == ServedFor(a, factor, capital)
  {
    PartBounds(a, factor);
    var scaled := Part(a, factor);
    hide Part;
    var quantity := Shares(scaled, a.c.entryPrice);
    SharesUnique(quantity, ShareCount(scaled, a.c.entryPrice), scaled, a.c.entryPrice);
    if quantity < 1 { return None; }
    TimesIs(quantity, a.c.entryPrice);
    var cost := quantity as real * a.c.entryPrice;
    assert cost == Times(quantity, a.c.entryPrice);
    return Some(AllocationResult(a.c.symbol, a.value, cost / capital, cost, quantity));
  }

  lemma {:induction false} BudgetSums(factor: real, total: real, desired: real)
    ensures factor * (total + desired) == factor * total + desired * factor
  {
  }

  lemma {:induction false} ScaleWithin(capital: real, total: real, factor: real)
    requires capital > 0.0 && total > 0.0 && factor == Min(1.0, capital / total)
    ensures 0.0 < factor <= 1.0 && factor * total <= capital
    ensures total <= capital ==> factor == 1.0
  {
    var q := capital / total;
    DivideBack(capital, total, q);
    Scale(factor, q, total);
    if q < 1.0 { BelowOne(q, total); }
  }

  lemma {:induction false} DivideBack(a: real, t: real, q: real)
    requires a > 0.0 && t > 0.0 && q == a / t
    ensures q > 0.0 && q * t == a
  {
  }

  lemma {:induction false} BelowOne(q: real, t: real)
    requires t > 0.0 && q < 1.0
    ensures q * t < t
  {
    assert (1.0 - q) * t > 0.0;
  }

  lemma {:induction false} DesiredPositive(c: AllocationCandidate, p: RiskParameters, equity: real)
    requires p.Valid() && equity > 0.0 && Desired(c, p, equity).Some?
    ensures 0.0 < Desired(c, p, equity).value <= equity * p.maximumPct / 100.0
  {
    CapitalPositive(equity, p.maximumPct);
    CapitalPositive(equity, p.targetRiskPct);
    var d := StopDistancePct(c).value;
    DividePositive(equity * p.targetRiskPct / 100.0, Max(d, p.minimumStopPct) / 100.0);
  }

  lemma {:induction false} TotalPositive(asks: seq<Ask>)
    requires forall a: Ask | a in asks :: a.value > 0.0
    ensures TotalAsked(asks) >= 0.0 && (asks != [] ==> TotalAsked(asks) > 0.0)
  {
    if asks != [] {
      assert asks[|asks| - 1] in asks;
      TotalPositive(asks[..|asks| - 1]);
    }
  }
}
