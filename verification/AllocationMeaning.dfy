/** What the allocators' quantities assert in prices, percentages and risk. */
module AllocationMeaning {
  import opened MarketTypes
  import opened Multiples
  import opened WaterFilling
  import opened Allocation

  // ------------------------------------------------------------------- distances and risk

  /** A stop is usable between zero and the entry price, and its distance is the share of the entry price below it. */
  lemma {:induction false} StopDistanceExactly(c: AllocationCandidate)
    ensures StopDistancePct(c).Some? <==>
      c.stopPrice.Some? && c.stopPrice.value > 0.0 && c.stopPrice.value < c.entryPrice
    ensures StopDistancePct(c).Some? ==>
      var d := StopDistancePct(c).value;
      0.0 < d < 100.0 && c.entryPrice - c.entryPrice * d / 100.0 == c.stopPrice.value
  {
    if StopDistancePct(c).Some? { StopShare(c.entryPrice, c.stopPrice.value); }
  }

  lemma {:induction false} StopShare(entry: real, stop: real)
    requires 0.0 < stop < entry
    ensures var d := (entry - stop) / entry * 100.0; 0.0 < d < 100.0 && entry - entry * d / 100.0 == stop
  {
    var share := (entry - stop) / entry;
    DivideBack(entry - stop, entry, share);
    ShareOfWhole(share, entry, entry - stop);
    BelowEntry(entry, stop, share, share * 100.0);
  }

  lemma {:induction false} BelowEntry(entry: real, stop: real, share: real, d: real)
    requires share * entry == entry - stop && d == share * 100.0
    ensures entry - entry * d / 100.0 == stop
  {
    assert entry * d == entry * share * 100.0;
  }

  lemma {:induction false} ShareOfWhole(share: real, whole: real, part: real)
    requires share > 0.0 && part < whole && share * whole == part
    ensures share < 1.0 || whole <= 0.0
  {
    if whole > 0.0 { assert share >= 1.0 ==> (share - 1.0) * whole >= 0.0; }
  }

  /** With inverse-distance weights all candidates carry the same risk: weight times distance is one, whichever
      candidate it is, and the distance counts as the minimum where it is smaller. */
  lemma {:induction false} RiskParity(candidates: seq<AllocationCandidate>, minimum: real, raw: Weights,
      c: AllocationCandidate)
    requires minimum > 0.0 && InverseOf(candidates, minimum, raw) && c in candidates && StopDistancePct(c).Some?
    ensures var d := StopDistancePct(c).value;
      c.symbol in raw && raw[c.symbol] * (if d < minimum then minimum else d) == 1.0
  {
    hide StopDistancePct, Inverse;
    InverseOne(StopDistancePct(c).value, minimum);
  }

  lemma {:induction false} InverseOne(distance: real, minimum: real)
    requires minimum > 0.0
    ensures Inverse(distance, minimum) * (if distance < minimum then minimum else distance) == 1.0
  {
    var m := Max(distance, minimum);
    assert 1.0 / m * m == 1.0;
  }

  /** What is lost if the position falls to its stop, by the distance that counts. */
  ghost function Loss(value: real, distance: real, minimum: real): real {
    value * (if distance < minimum then minimum else distance) / 100.0
  }

  ghost function PartOf(equity: real, pct: real): real { equity * pct / 100.0 }

  /** What a candidate asks for stays between the position limits and risks the target: less only at the upper limit,
      more only at the lower one. */
  lemma {:induction false} DesiredExactly(c: AllocationCandidate, p: RiskParameters, equity: real)
    requires p.Valid() && equity > 0.0
    ensures Desired(c, p, equity).Some? <==> StopDistancePct(c).Some?
    ensures Desired(c, p, equity).Some? ==>
      var v, low, high := Desired(c, p, equity).value, PartOf(equity, p.minimumPct), PartOf(equity, p.maximumPct);
      var loss := Loss(v, StopDistancePct(c).value, p.minimumStopPct);
      && low <= v <= high && (loss < PartOf(equity, p.targetRiskPct) ==> v == high)
      && (loss > PartOf(equity, p.targetRiskPct) ==> v == low)
  {
    hide StopDistancePct, Loss, PartOf, Desired;
    DesiredIs(c, p, equity);
    if StopDistancePct(c).Some? {
      PartGrows(equity, p.minimumPct, p.maximumPct);
      ClampedLoss(PartOf(equity, p.minimumPct), PartOf(equity, p.maximumPct), PartOf(equity, p.targetRiskPct),
                  StopDistancePct(c).value, p.minimumStopPct);
    }
  }

  lemma {:induction false} DesiredIs(c: AllocationCandidate, p: RiskParameters, equity: real)
    requires p.Valid()
    ensures Desired(c, p, equity) == match StopDistancePct(c)
      case None => None
      case Some(d) =>
        Some(Clamped(PartOf(equity, p.targetRiskPct) / (Max(d, p.minimumStopPct) / 100.0),
                     PartOf(equity, p.minimumPct), PartOf(equity, p.maximumPct)))
  {
    hide StopDistancePct;
    if StopDistancePct(c).Some? {
      var target, low, high := PartOf(equity, p.targetRiskPct), PartOf(equity, p.minimumPct),
        PartOf(equity, p.maximumPct);
      assert target == equity * p.targetRiskPct / 100.0;
      assert low == equity * p.minimumPct / 100.0 && high == equity * p.maximumPct / 100.0;
      var r := Max(StopDistancePct(c).value, p.minimumStopPct) / 100.0;
      var wanted := equity * p.targetRiskPct / 100.0 / r;
      assert wanted == target / r;
      var v := Desired(c, p, equity).value;
      assert v == Min(Max(wanted, equity * p.minimumPct / 100.0), equity * p.maximumPct / 100.0);
      assert v == Min(Max(wanted, low), high);
      assert v == Clamped(target / r, low, high);
    }
  }

  function Clamped(wanted: real, low: real, high: real): real { Min(Max(wanted, low), high) }

  lemma {:induction false} ClampedLoss(low: real, high: real, target: real, d: real, minimum: real)
    requires low <= high && minimum > 0.0
    ensures var v := Clamped(target / (Max(d, minimum) / 100.0), low, high);
      low <= v <= high && (Loss(v, d, minimum) < target ==> v == high) && (Loss(v, d, minimum) > target ==> v == low)
  {
    var m := Max(d, minimum);
    LossOrder(target / (m / 100.0), Clamped(target / (m / 100.0), low, high), m, target);
  }

  lemma {:induction false} PartGrows(equity: real, a: real, b: real)
    requires equity > 0.0 && a <= b
    ensures PartOf(equity, a) <= PartOf(equity, b)
  {
    ShareGrows(equity, a, b);
  }

  lemma {:induction false} ShareGrows(equity: real, a: real, b: real)
    requires equity > 0.0 && a <= b
    ensures equity * a / 100.0 <= equity * b / 100.0
  {
    assert equity * (b - a) >= 0.0;
  }

  lemma {:induction false} LossOrder(wanted: real, v: real, m: real, target: real)
    requires m > 0.0 && wanted == target / (m / 100.0)
    ensures v < wanted <==> v * m / 100.0 < target
    ensures v > wanted <==> v * m / 100.0 > target
  {
    var r := m / 100.0;
    assert r > 0.0 && wanted * r == target;
    assert v * m / 100.0 == v * r;
    if v < wanted { assert (wanted - v) * r > 0.0; }
    else if v > wanted { assert (v - wanted) * r > 0.0; }
  }

  /** Inputs the allocators accept: candidates, each symbol once, positive equity, and a share of it that is more than
      nothing and at most all. */
  lemma {:induction false} InputsExactly(candidates: seq<AllocationCandidate>, equity: real, investablePct: real)
    ensures ValidInputs(candidates, equity, investablePct) <==>
      && |candidates| > 0 && equity > 0.0 && investablePct > 0.0 && equity * investablePct / 100.0 <= equity
      && forall i, j | 0 <= i < |candidates| && 0 <= j < |candidates| && i != j ::
           candidates[i].symbol != candidates[j].symbol
  {
    if equity > 0.0 {
      if investablePct <= 100.0 { ShareGrows(equity, investablePct, 100.0); }
      else { assert equity * (investablePct - 100.0) > 0.0; }
    }
  }

  /** A cap is infeasible exactly when even capping everything leaves more than the tolerance. */
  lemma {:induction false} CapExactly(maximum: real, n: nat)
    ensures Uncappable(maximum, n) <==> 1.0 - Times(n, maximum) > 0.000000000001
  {
    TimesIs(n, maximum);
  }

  // ---------------------------------------------------------------------------- positions

  /** A candidate's position, if there is one. */
  ghost predicate HasPosition(results: seq<AllocationResult>, c: AllocationCandidate) {
    exists k :: 0 <= k < |results| && results[k].symbol == c.symbol
  }

  /** A weighted candidate has a position exactly when its weight pays for one share, and then it is the most whole
      shares, under its own raw and normalized weight. */
  lemma {:induction false} PositionsExactly(candidates: seq<AllocationCandidate>, raw: Weights, w: Weights,
      capital: real,
      c: AllocationCandidate)
    requires Distinct(candidates) && c in candidates
    ensures var results := Positions(candidates, raw, w, capital);
      && (HasPosition(results, c) <==> c.symbol in w && c.symbol in raw && capital * w[c.symbol] >= c.entryPrice)
      && forall x | x in results && x.symbol == c.symbol ::
           && x.rawWeight == raw[c.symbol] && x.normalizedWeight == w[c.symbol] && x.quantity >= 1
           && Times(x.quantity, c.entryPrice) == x.allocationValue <= capital * w[c.symbol]
           && capital * w[c.symbol] < x.allocationValue + c.entryPrice
  {
    var n := |candidates| - 1;
    var last: AllocationCandidate, prior := candidates[n], Positions(candidates[..n], raw, w, capital);
    assert candidates == candidates[..n] + [last];
    OnePositionExactly(last, raw, w, capital);
    hide PositionFor;
    var results := Positions(candidates, raw, w, capital);
    if c == last {
      NoneBefore(candidates[..n], raw, w, capital, c);
      if PositionFor(last, raw, w, capital).Some? { assert results[|prior|].symbol == c.symbol; }
    } else {
      assert c.symbol != last.symbol by { var i :| 0 <= i < n && candidates[i] == c; }
      PositionsExactly(candidates[..n], raw, w, capital, c);
      if HasPosition(prior, c) {
        var k :| 0 <= k < |prior| && prior[k].symbol == c.symbol;
        assert results[k].symbol == c.symbol;
      }
    }
  }

  lemma {:induction false} OnePositionExactly(c: AllocationCandidate, raw: Weights, w: Weights, capital: real)
    ensures var x := PositionFor(c, raw, w, capital);
      && (x.Some? <==> c.symbol in w && c.symbol in raw && capital * w[c.symbol] >= c.entryPrice)
      && (x.Some? ==>
            && x.value.symbol == c.symbol && x.value.rawWeight == raw[c.symbol]
            && x.value.normalizedWeight == w[c.symbol] && x.value.quantity >= 1
            && Times(x.value.quantity, c.entryPrice) == x.value.allocationValue <= capital * w[c.symbol]
            && capital * w[c.symbol] < x.value.allocationValue + c.entryPrice)
  {
    if c.symbol in w && Scaled(w, capital)[c.symbol] >= 0.0 { AffordsOne(Scaled(w, capital)[c.symbol], c.entryPrice); }
  }

  lemma {:induction false} NoneBefore(candidates: seq<AllocationCandidate>, raw: Weights, w: Weights, capital: real,
      c: AllocationCandidate)
    requires forall b: AllocationCandidate | b in candidates :: b.symbol != c.symbol
    ensures forall x | x in Positions(candidates, raw, w, capital) :: x.symbol != c.symbol
  {
    if candidates != [] { NoneBefore(candidates[..|candidates| - 1], raw, w, capital, c); }
  }

  /** The positions come in the order of their candidates. */
  lemma {:induction false} PositionsInOrder(candidates: seq<AllocationCandidate>, raw: Weights, w: Weights,
      capital: real)
      returns (places: seq<nat>)
    ensures |places| == |Positions(candidates, raw, w, capital)|
    ensures forall k | 0 <= k < |places| ::
      places[k] < |candidates| && candidates[places[k]].symbol == Positions(candidates, raw, w, capital)[k].symbol
    ensures forall k, l | 0 <= k < l < |places| :: places[k] < places[l]
  {
    if candidates == [] {
      places := [];
    } else {
      var n := |candidates| - 1;
      var last: AllocationCandidate := candidates[n];
      places := PositionsInOrder(candidates[..n], raw, w, capital);
      OnePositionExactly(last, raw, w, capital);
      if PositionFor(last, raw, w, capital).Some? { places := places + [n]; }
    }
  }
}
