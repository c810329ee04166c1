/** What the simulator's decisions assert in amounts of money: sums over the open trades, prices and percentages. */
module SimulationMeaning {
  import opened MarketTypes
  import opened Multiples
  import opened Ranking
  import opened Portfolio
  import opened DecisionEngine
  import opened SimulationHistory
  import opened SimulationRules
  import opened StableSort
  import WaterFilling
  import CandidatePriority

  /** What the open trades were bought for. */
  ghost function EntryValue(trades: seq<Trade>): real {
    if trades == [] then 0.0
    else
      var t := trades[|trades| - 1];
      EntryValue(trades[..|trades| - 1]) + t.quantity as real * t.entryPrice
  }

  lemma {:induction false} EntryValueFirst(trades: seq<Trade>)
    requires trades != []
    ensures EntryValue(trades) == trades[0].quantity as real * trades[0].entryPrice + EntryValue(trades[1..])
  {
    var n := |trades| - 1;
    if n > 0 {
      EntryValueFirst(trades[..n]);
      assert trades[..n][1..] == trades[1..][..n - 1];
    }
  }

  lemma {:induction false} CostIs(t: Trade)
    ensures t.Cost() == t.quantity as real * t.entryPrice
  {
    TimesIs(t.quantity, t.entryPrice);
  }

  /** The exposure, and the equity without later prices, count every open trade at its entry value. */
  lemma {:induction false} ExposureIs(trades: seq<Trade>)
    ensures Exposure(trades) == EntryValue(trades) == MarketValue(trades, map[])
  {
    if trades != [] {
      ExposureIs(trades[1..]);
      EntryValueFirst(trades);
      CostIs(trades[0]);
    }
  }

  /** What the open trades are worth at the given prices, or at entry where there is none. */
  ghost function MarkedValue(trades: seq<Trade>, prices: map<Symbol, real>): real {
    if trades == [] then 0.0
    else
      var t := trades[|trades| - 1];
      MarkedValue(trades[..|trades| - 1], prices)
      + t.quantity as real * (if t.symbol in prices then prices[t.symbol] else t.entryPrice)
  }

  lemma {:induction false} MarkedFirst(trades: seq<Trade>, prices: map<Symbol, real>)
    requires trades != []
    ensures var t := trades[0];
      MarkedValue(trades, prices) ==
        t.quantity as real * (if t.symbol in prices then prices[t.symbol] else t.entryPrice)
        + MarkedValue(trades[1..], prices)
  {
    var n := |trades| - 1;
    if n > 0 {
      MarkedFirst(trades[..n], prices);
      assert trades[..n][1..] == trades[1..][..n - 1];
    }
  }

  lemma {:induction false} MarketValueIs(trades: seq<Trade>, prices: map<Symbol, real>)
    ensures MarketValue(trades, prices) == MarkedValue(trades, prices)
  {
    if trades != [] {
      MarketValueIs(trades[1..], prices);
      MarkedFirst(trades, prices);
      var t := trades[0];
      TimesIs(t.quantity, if t.symbol in prices then prices[t.symbol] else t.entryPrice);
    }
  }

  lemma {:induction false} EquityIs(v: View)
    ensures v.Equity() == v.cash + EntryValue(v.positions)
  {
    ExposureIs(v.positions);
  }

  /** What a purchase takes: the slipped price of every share, and the commission on it. */
  lemma {:induction false} PurchaseCostIs(price: real, quantity: nat, config: TransactionCostConfig)
    ensures PurchaseCost(price, quantity, config) ==
      quantity as real * price * (1.0 + config.buySlippagePct / 100.0) * (1.0 + config.buyCommissionPct / 100.0)
  {
    TimesIs(quantity, BuyPrice(price, config));
  }

  /** What a sale brings: the slipped price of every share, less commission and tax on it. */
  lemma {:induction false} ProceedsIs(price: real, quantity: nat, config: TransactionCostConfig)
    ensures Proceeds(price, quantity, config) ==
      quantity as real * price * (1.0 - config.sellSlippagePct / 100.0)
        * (1.0 - (config.sellCommissionPct + config.sellTaxPct) / 100.0)
  {
    TimesIs(quantity, SellPrice(price, config));
  }

  // ------------------------------------------------------------------- one decision

  /** Every position has a known quality, and the candidate's is at least the threshold above some of them. */
  ghost predicate Outranks(quality: Value, positions: seq<Trade>, threshold: real) {
    && quality.Number? && (forall t | t in positions :: t.quality.Number?)
    && exists t :: t in positions && t.quality.x + threshold <= quality.x
  }

  /** What the decision about a candidate asserts, replacement and each reason for a rejection. */
  ghost predicate DecisionTold(symbol: Symbol, quality: Value, positions: seq<Trade>, maximum: nat,
      ranking: RankingMethod, threshold: real, duplicates: bool, d: Decision)
  {
    var held := !duplicates && exists t :: t in positions && t.symbol == symbol;
    var full := !held && |positions| >= maximum;
    var known := quality.Number? && forall t | t in positions :: t.quality.Number?;
    match d
    case Open => !held && !full
    case WouldReplace(w) =>
      && full && ranking.ByAttribute? && Outranks(quality, positions, threshold) && w in positions
      && forall t | t in positions ::
           && t.quality.Number? && w.quality.Number? && w.quality.x <= t.quality.x
           && (t.quality == w.quality ==> CandidatePriority.Alphabetical(w.symbol, t.symbol))
    case Reject(reason) =>
      || (held && reason == "duplicate_symbol")
      || (full && ranking.FirstCome? && reason == "portfolio_full_no_quality_method")
      || (full && ranking.ByAttribute? && !known && reason == "missing_quality_data")
      || (full && ranking.ByAttribute? && known && !Outranks(quality, positions, threshold)
          && reason == "candidate_quality_below_threshold")
  }

  lemma {:induction false} WeakestQuality(positions: seq<Trade>)
    requires positions != []
    ensures var w := Weakest(positions, ByAttribute);
      && w in positions && (w.quality.Missing? <==> exists t :: t in positions && t.quality.Missing?)
      && (w.quality.Number? ==> forall t | t in positions :: t.quality.Number? && w.quality.x <= t.quality.x)
      && forall t | t in positions && t.quality == w.quality :: CandidatePriority.Alphabetical(w.symbol, t.symbol)
  {
    var w := Weakest(positions, ByAttribute);
    forall t | t in positions
      ensures AtMost(w.quality, t.quality)
      ensures t.quality == w.quality ==> CandidatePriority.Alphabetical(w.symbol, t.symbol)
    {
      assert WeakerOrEqual(w, t, ByAttribute);
      CandidatePriority.SymbolExactly(w.symbol, t.symbol);
    }
  }

  lemma {:induction false} DecisionExactly(symbol: Symbol, quality: Value, positions: seq<Trade>, maximum: nat,
      ranking: RankingMethod, threshold: real, duplicates: bool)
    requires maximum >= 1 && threshold >= 0.0
    ensures DecisionTold(symbol, quality, positions, maximum, ranking, threshold, duplicates,
                         Decide(symbol, quality, positions, maximum, ranking, threshold, duplicates))
  {
    if |positions| >= maximum && ranking.ByAttribute? { WeakestQuality(positions); }
    hide WeakerOrEqual, Weakest;
  }

  // ----------------------------------------------------------------- one purchase

  /** The regime lets new positions in, the symbol is new, and there is room for it. */
  ghost predicate Enterable(s: Setup, v: View, c: Candidate) {
    && (c.regime.Some? ==> !c.regime.value.unknown && c.regime.value.allowNew)
    && (forall t | t in v.positions :: t.symbol != c.symbol) && Room(s, v, c)
  }

  ghost predicate Room(s: Setup, v: View, c: Candidate) {
    |v.positions| < s.limits.maxPositions && (c.regime.Some? ==> |v.positions| < c.regime.value.maxPositions)
  }

  /** With the purchase the entry values would exceed the gross limit. */
  ghost predicate OverExposed(s: Setup, v: View, c: Candidate, q: int) {
    var equity := v.cash + EntryValue(v.positions);
    && s.limits.maxGrossExposurePct.Some? && equity > 0.0
    && EntryValue(v.positions) + q as real * c.entryPrice > s.limits.maxGrossExposurePct.value / 100.0 * equity
  }

  /** By the estimate, the purchase would leave less than the buffer. */
  ghost predicate BreaksBuffer(s: Setup, v: View, c: Candidate, q: int) {
    v.cash - q as real * c.entryPrice * (1.0 + (s.config.buyCommissionPct + s.config.buySlippagePct) / 100.0)
      < s.limits.bufferPct / 100.0 * (v.cash + EntryValue(v.positions))
  }

  ghost predicate Overheats(s: Setup, v: View, c: Candidate, q: int) {
    q >= 0 && !s.policies.heatAllows(c, q, v.cash + EntryValue(v.positions), v.positions)
  }

  /** The purchase itself, with slippage and commission, costs more than there is. */
  ghost predicate Unaffordable(s: Setup, v: View, c: Candidate, q: int) {
    q as real * c.entryPrice * (1.0 + s.config.buySlippagePct / 100.0) * (1.0 + s.config.buyCommissionPct / 100.0)
      > v.cash
  }

  /** A purchase that may be made. */
  ghost predicate Purchasable(s: Setup, v: View, c: Candidate, q: int) {
    && Enterable(s, v, c) && q > 0 && !OverExposed(s, v, c, q) && !BreaksBuffer(s, v, c, q)
    && !Overheats(s, v, c, q) && !Unaffordable(s, v, c, q)
  }

  /** What each reason for refusing a candidate asserts. */
  ghost predicate RefusalTold(s: Setup, v: View, c: Candidate, q: int, reason: Refusal) {
    var admitted := c.regime.Some? ==> !c.regime.value.unknown && c.regime.value.allowNew;
    var held := exists t :: t in v.positions && t.symbol == c.symbol;
    match reason
    case UnknownRegime => c.regime.Some? && c.regime.value.unknown
    case EntriesDisabled => c.regime.Some? && !c.regime.value.unknown && !c.regime.value.allowNew
    case WouldReplace =>
      admitted && !held && !Room(s, v, c) && s.ranking.ByAttribute? && Outranks(c.quality, v.positions, 0.0)
    case NotChosen(why) =>
      && admitted && (held || (!Room(s, v, c) && !(s.ranking.ByAttribute? && Outranks(c.quality, v.positions, 0.0))))
      && why == if held then "duplicate_symbol"
        else if s.ranking.FirstCome? then "portfolio_full_no_quality_method"
        else if c.quality.Missing? || exists t :: t in v.positions && t.quality.Missing? then "missing_quality_data"
        else "candidate_quality_below_threshold"
    case InsufficientCash =>
      && Enterable(s, v, c)
      && (q <= 0 || (!OverExposed(s, v, c, q) && !BreaksBuffer(s, v, c, q) && !Overheats(s, v, c, q)
                     && Unaffordable(s, v, c, q)))
    case GrossExposure => Enterable(s, v, c) && q > 0 && OverExposed(s, v, c, q)
    case CashBuffer => Enterable(s, v, c) && q > 0 && !OverExposed(s, v, c, q) && BreaksBuffer(s, v, c, q)
    case Heat =>
      Enterable(s, v, c) && q > 0 && !OverExposed(s, v, c, q) && !BreaksBuffer(s, v, c, q) && Overheats(s, v, c, q)
    case DailyMaximum => false
  }

  /** The gross limit on the sum of the entry values. */
  lemma {:induction false} ExposureExactly(s: Setup, v: View, c: Candidate, q: nat)
    ensures WithinExposure(s, v, c, q) <==> !OverExposed(s, v, c, q)
  {
    ExposureIs(v.positions);
    TimesIs(q, c.entryPrice);
    if s.limits.maxGrossExposurePct.Some? && v.Equity() > 0.0 {
      ShareAtMost(Exposure(v.positions) + Gross(c.entryPrice, q), v.Equity(), s.limits.maxGrossExposurePct.value);
    }
  }

  lemma {:induction false} ShareAtMost(value: real, equity: real, pct: real)
    requires equity > 0.0
    ensures value / equity * 100.0 <= pct <==> value <= pct / 100.0 * equity
  {
    var share := value / equity;
    assert share * equity == value;
    if share * 100.0 <= pct {
      assert (pct / 100.0 - share) * equity >= 0.0;
    } else {
      assert (share - pct / 100.0) * equity > 0.0;
    }
  }

  lemma {:induction false} BufferExactly(s: Setup, v: View, c: Candidate, q: nat)
    ensures v.cash - EstimatedCost(s, c, q) < Buffer(s, v) <==> BreaksBuffer(s, v, c, q)
  {
    ExposureIs(v.positions);
    TimesIs(q, c.entryPrice);
  }

  lemma {:induction false} RoomExactly(s: Setup, v: View, c: Candidate)
    requires s.Valid() && c.Usable()
    ensures |v.positions| < MaximumFor(s, c) <==> Room(s, v, c)
  {
  }

  lemma {:induction false} CostExactly(s: Setup, v: View, c: Candidate, q: nat)
    ensures PurchaseCost(c.entryPrice, q, s.config) > v.cash <==> Unaffordable(s, v, c, q)
    ensures s.policies.heatAllows(c, q, v.Equity(), v.positions) <==> !Overheats(s, v, c, q)
  {
    PurchaseCostIs(c.entryPrice, q, s.config);
    EquityIs(v);
  }

  /** The refusals before the quantity is looked at. */
  lemma {:induction false} NotEnterable(s: Setup, v: View, c: Candidate, q: int)
    requires s.Valid() && c.Usable() && !Enterable(s, v, c)
    ensures Verdict(s, v, c, q).Some? && RefusalTold(s, v, c, q, Verdict(s, v, c, q).value)
  {
    if !(c.regime.Some? && (c.regime.value.unknown || !c.regime.value.allowNew)) {
      DecisionExactly(c.symbol, c.quality, v.positions, MaximumFor(s, c), s.ranking, 0.0, false);
      RoomExactly(s, v, c);
    }
    hide WithinExposure, OverExposed, BreaksBuffer, MaximumFor, Room, EstimatedCost, Buffer, PurchaseCost, View.Equity,
      Decide, Outranks, Overheats, Unaffordable;
  }

  /** The checks of the purchase itself. */
  lemma {:induction false} EnterableVerdict(s: Setup, v: View, c: Candidate, q: int)
    requires s.Valid() && c.Usable() && Enterable(s, v, c)
    ensures Verdict(s, v, c, q).None? <==> Purchasable(s, v, c, q)
    ensures Verdict(s, v, c, q).Some? ==> RefusalTold(s, v, c, q, Verdict(s, v, c, q).value)
  {
    RoomExactly(s, v, c);
    if q > 0 {
      ExposureExactly(s, v, c, q);
      BufferExactly(s, v, c, q);
      CostExactly(s, v, c, q);
    }
    hide WithinExposure, OverExposed, BreaksBuffer, MaximumFor, Room, EstimatedCost, Buffer, PurchaseCost, View.Equity,
      Outranks, Decide, Overheats, Unaffordable;
  }

  /** A candidate is opened exactly when its purchase may be made, and refused only for a reason that holds; no two
      different reasons hold together. */
  lemma {:induction false} VerdictExactly(s: Setup, v: View, c: Candidate, q: int, reason: Refusal)
    requires s.Valid() && c.Usable()
    ensures Verdict(s, v, c, q).None? <==> Purchasable(s, v, c, q)
    ensures Verdict(s, v, c, q) == Some(reason) <==> RefusalTold(s, v, c, q, reason)
  {
    if Enterable(s, v, c) { EnterableVerdict(s, v, c, q); } else { NotEnterable(s, v, c, q); }
    if RefusalTold(s, v, c, q, reason) {
      OneReason(s, v, c, q, if Verdict(s, v, c, q).Some? then Verdict(s, v, c, q).value else reason, reason);
    }
    hide Verdict, OverExposed, BreaksBuffer, Room, Outranks, Overheats, Unaffordable;
  }

  lemma {:induction false} OneReason(s: Setup, v: View, c: Candidate, q: int, a: Refusal, b: Refusal)
    requires RefusalTold(s, v, c, q, a) && RefusalTold(s, v, c, q, b)
    ensures a == b && !Purchasable(s, v, c, q)
  {
    hide OverExposed, BreaksBuffer, Room, Outranks, Overheats, Unaffordable;
  }

  /** Seventy percent of the equity is more than the sixty allowed: 500 in cash, a position bought for 500, and two
      shares at 100. */
  lemma {:induction false} SeventyPercent(s: Setup, t: Trade, c: Candidate)
    requires s.Valid() && s.limits == Limits(2, None, Some(60.0), 0.0, 1, 100.0)
    requires s.config == TransactionCostConfig(0.0, 0.0, 0.0, 0.0, 0.0)
    requires t.quantity == 5 && t.entryPrice == 100.0 && t.symbol != c.symbol
    requires c.Usable() && c.entryPrice == 100.0 && c.regime == None
    ensures Verdict(s, View(500.0, [t]), c, 2) == Some(GrossExposure)
  {
    var v := View(500.0, [t]);
    assert [t][..0] == [];
    assert EntryValue([t]) == EntryValue([t][..0]) + 500.0;
    assert RefusalTold(s, v, c, 2, GrossExposure);
    VerdictExactly(s, v, c, 2, GrossExposure);
  }

  /** In every justified history an opened candidate was, in the portfolio of its moment, a purchase that may be
      made, and a refused one was refused for a reason that held then. */
  lemma {:induction false} HistoryTold(s: Setup, cs: seq<Candidate>, h: seq<Event>, c: Candidate) returns (n: nat)
    requires s.Valid() && Distinct(cs) && Orderly(h) && Justified(s, cs, h) && c in Settled(h)
    ensures n < |h| && h[n].c == c && !h[n].Closed? && (c in Openings(h) <==> h[n].Opened?)
    ensures h[n].Opened? ==> Purchasable(s, After(s, h[..n]), c, h[n].t.quantity)
    ensures h[n].Refused? && !h[n].reason.DailyMaximum? ==>
      exists q :: RefusalTold(s, After(s, h[..n]), c, q, h[n].reason)
  {
    hide Verdict, Purchasable, RefusalTold, After, DailyPlan, DayOf, PlanningView, Justified, InTime, QuantityFor,
      Openings, Settled;
    n := Explained(s, cs, h, c);
    var day := DayOf(s, cs, c.entryDate);
    if c !in day[Cut(s, |day|)..] {
      var v := After(s, h[..n]);
      var q := QuantityFor(s, v, c, PlannedFor(DailyPlan(s, PlanningView(s, h[..n], c.entryDate), day), c));
      VerdictExactly(s, v, c, q, if h[n].Refused? then h[n].reason else DailyMaximum);
    }
  }

  /** Over every justified history: with a gross limit and positive equity, no purchase took the entry values of
      the open trades over the limit. */
  lemma {:induction false} HistoryWithinExposure(s: Setup, cs: seq<Candidate>, h: seq<Event>, c: Candidate)
      returns (n: nat)
    requires s.Valid() && Distinct(cs) && Orderly(h) && Justified(s, cs, h) && c in Openings(h)
    requires s.limits.maxGrossExposurePct.Some?
    ensures n < |h| && h[n].Opened? && h[n].c == c
    ensures var v := After(s, h[..n]); var equity := v.cash + EntryValue(v.positions);
      equity > 0.0 ==>
        EntryValue(v.positions) + h[n].t.quantity as real * c.entryPrice
          <= s.limits.maxGrossExposurePct.value / 100.0 * equity
  {
    hide After, Justified, Enterable, BreaksBuffer, Overheats, Unaffordable, Openings, Settled, EntryValue;
    OpenedSettled(h);
    n := HistoryTold(s, cs, h, c);
  }

  // ---------------------------------------------------------------------- one day

  /** The share an allocation may use is the least of the whole equity, the position sizes of all candidates and the
      cash; there is none without cash or equity. */
  lemma {:induction false} InvestableExactly(s: Setup, v: View, n: nat)
    requires s.Valid()
    ensures var pct, equity := InvestablePct(s, v, n), v.cash + EntryValue(v.positions);
      && pct <= 100.0 && pct <= s.limits.positionSizePct * n as real
      && (equity > 0.0 ==> pct / 100.0 * equity <= v.cash)
      && (pct == 100.0 || pct == s.limits.positionSizePct * n as real
          || (equity > 0.0 && pct / 100.0 * equity == v.cash) || (equity <= 0.0 && pct == 0.0))
      && (pct > 0.0 <==> n > 0 && v.cash > 0.0 && equity > 0.0)
  {
    EquityIs(v);
    var equity, sizes := v.Equity(), s.limits.positionSizePct * n as real;
    if n > 0 { WaterFilling.ProductPositive(s.limits.positionSizePct, n as real); }
    if equity > 0.0 {
      var share := v.cash / equity;
      assert share * equity == v.cash;
      ShareExactly(InvestablePct(s, v, n), share, equity, v.cash);
    }
  }

  lemma {:induction false} ShareExactly(pct: real, share: real, equity: real, cash: real)
    requires equity > 0.0 && share * equity == cash && pct <= share * 100.0
    ensures pct / 100.0 * equity <= cash && (pct == share * 100.0 ==> pct / 100.0 * equity == cash)
    ensures share > 0.0 <==> cash > 0.0
  {
    assert (share - pct / 100.0) * equity >= 0.0;
    if share > 0.0 { assert share * equity > 0.0; } else { assert -share * equity >= 0.0; }
  }

  /** Candidates in priority order: the earlier final ordinal first. */
  ghost predicate InOrdinalOrder(cs: seq<Candidate>, priority: map<Candidate, int>) {
    forall i, j | 0 <= i < j < |cs| && cs[i] in priority && cs[j] in priority :: priority[cs[i]] <= priority[cs[j]]
  }

  /** Candidates by quality: the higher first, unknown ones last. */
  ghost predicate InQualityOrder(cs: seq<Candidate>) {
    forall i, j | 0 <= i < j < |cs| && cs[j].quality.Number? ::
      cs[i].quality.Number? && cs[i].quality.x >= cs[j].quality.x
  }

  lemma {:induction false} RankedExactly(s: Setup, cs: seq<Candidate>)
    ensures var ranked := RankEntry(s, cs);
      && multiset(ranked) == multiset(cs)
      && match s.policies.priority
         case Some(priority) => InOrdinalOrder(ranked, priority)
         case None => if s.ranking.FirstCome? then ranked == cs else InQualityOrder(ranked)
  {
    RankEntryMeans(s, cs, Missing);
    var ranked := RankEntry(s, cs);
    if s.policies.priority.Some? {
      forall i, j | 0 <= i < j < |ranked| ensures ByOrdinal(s.policies.priority.value)(ranked[i], ranked[j]) {}
    } else if s.ranking.ByAttribute? {
      forall i, j | 0 <= i < j < |ranked| ensures ByQuality()(ranked[i], ranked[j]) {}
    }
  }

  /** A planned quantity is the most whole lots of the plan. */
  lemma {:induction false} LotsExactly(s: Setup, v: View, c: Candidate, planned: int)
    requires s.Valid()
    ensures var q, lot := QuantityFor(s, v, c, Some(planned)), s.limits.lotSize;
      && (planned <= 0 ==> q == 0) && (planned > 0 ==> q <= planned < q + lot)
      && exists lots: nat :: q == lots * lot
  {
    var q, lot := QuantityFor(s, v, c, Some(planned)), s.limits.lotSize;
    var lots: nat := if planned <= 0 then 0 else planned / lot;
    assert q == lots * lot;
  }

  /** The eligible candidates are a greedy choice: going through the day's candidates in order, each one is taken
      exactly when its regime admits it, its symbol is new, and it still fits its own maximum and the free slots
      behind those taken before it. */
  ghost predicate Greedy(s: Setup, v: View, cs: seq<Candidate>, taken: seq<nat>) {
    && (forall k | 0 <= k < |taken| :: taken[k] < |cs|)
    && (forall k, m | 0 <= k < m < |taken| :: taken[k] < taken[m])
    && forall j: nat, k: nat | j < |cs| && Between(taken, j, k) ::
         (k < |taken| && taken[k] == j) <==>
           && RegimeAdmits(cs[j]) && (forall t | t in v.positions :: t.symbol != cs[j].symbol)
           && |v.positions| + k < s.limits.maxPositions
           && (cs[j].regime.Some? ==> |v.positions| + k < cs[j].regime.value.maxPositions)
  }

  /** Exactly `k` of the taken indices are below `j`. */
  ghost predicate Between(taken: seq<nat>, j: nat, k: nat) {
    && k <= |taken| && (forall m | 0 <= m < k :: taken[m] < j) && forall m | k <= m < |taken| :: taken[m] >= j
  }

  lemma {:induction false} EligibleGreedy(s: Setup, v: View, cs: seq<Candidate>) returns (taken: seq<nat>)
    ensures |taken| == |Eligible(s, v, cs)| && Greedy(s, v, cs, taken)
    ensures forall k | 0 <= k < |taken| :: Eligible(s, v, cs)[k] == cs[taken[k]]
  {
    if cs == [] {
      taken := [];
    } else {
      var n := |cs| - 1;
      var prior := EligibleGreedy(s, v, cs[..n]);
      taken := if |Eligible(s, v, cs)| == |prior| then prior else prior + [n];
      GreedyNext(s, v, cs, prior, taken);
    }
  }

  lemma {:induction false} GreedyNext(s: Setup, v: View, cs: seq<Candidate>, prior: seq<nat>, taken: seq<nat>)
    requires cs != [] && Greedy(s, v, cs[..|cs| - 1], prior)
    requires taken == prior || taken == prior + [|cs| - 1]
    requires var c := cs[|cs| - 1];
      taken != prior <==>
        && RegimeAdmits(c) && (forall t | t in v.positions :: t.symbol != c.symbol)
        && |v.positions| + |prior| < s.limits.maxPositions
        && (c.regime.Some? ==> |v.positions| + |prior| < c.regime.value.maxPositions)
    ensures Greedy(s, v, cs, taken)
  {
    var n := |cs| - 1;
    forall j: nat, k: nat | j < |cs| && Between(taken, j, k)
      ensures (k < |taken| && taken[k] == j) <==>
        && RegimeAdmits(cs[j]) && (forall t | t in v.positions :: t.symbol != cs[j].symbol)
        && |v.positions| + k < s.limits.maxPositions
        && (cs[j].regime.Some? ==> |v.positions| + k < cs[j].regime.value.maxPositions)
    {
      assert |taken| > |prior| ==> taken[|prior|] == n;
      if j < n {
        assert forall m | 0 <= m < |prior| :: taken[m] == prior[m];
        assert k <= |prior|;
        assert Between(prior, j, k);
        assert cs[..n][j] == cs[j];
      } else {
        assert forall m | 0 <= m < |prior| :: taken[m] == prior[m] < n;
        assert k < |taken| ==> taken[k] >= n;
        assert k == |prior|;
      }
    }
  }

  /** The day's plan is the allocator's answer about the eligible candidates, and empty without one, without cash and
      without equity. */
  lemma {:induction false} DailyPlanExactly(s: Setup, v: View, cs: seq<Candidate>, c: Candidate, n: int)
    requires s.Valid()
    ensures var eligible, equity := Eligible(s, v, cs), v.cash + EntryValue(v.positions);
      c in DailyPlan(s, v, cs) && DailyPlan(s, v, cs)[c] == n <==>
        && s.policies.allocator.Some? && c in eligible && v.cash > 0.0 && equity > 0.0
        && var answer := s.policies.allocator.value(eligible, equity, InvestablePct(s, v, |eligible|));
        answer.Some? && c in answer.value && answer.value[c] == n
  {
    EquityIs(v);
    InvestableExactly(s, v, |Eligible(s, v, cs)|);
    hide Eligible, InvestablePct, View.Equity;
  }
}
