/** What the simulator decides about a candidate, as a function of the history so far: the checks
    before a purchase, the entry order and quantities of a day, and histories in which every decision
    follows from them. */
module SimulationRules {
  import opened MarketTypes
  import opened Multiples
  import opened StableSort
  import opened Ranking
  import opened Portfolio
  import opened DecisionEngine
  import Allocation
  import opened WaterFilling
  import opened SimulationHistory

  datatype Limits = Limits(
    maxPositions: nat, maxNewPerDay: Option<nat>, maxGrossExposurePct: Option<real>, bufferPct: real, lotSize: nat,
    positionSizePct: real)
  {
    predicate Valid() {
      && maxPositions >= 1 && lotSize >= 1 && 0.0 <= bufferPct < 100.0 && 0.0 < positionSizePct <= 100.0
      && (maxNewPerDay.Some? ==> maxNewPerDay.value >= 1)
    }
  }

  /** Policies the simulator is given: position sizes, the heat limit, the daily allocator, and the
      final ordinals of volume-priority evidence. */
  datatype Policies = Policies(
    sizer: (Candidate, real, real) -> int,
    heatAllows: (Candidate, nat, real, seq<Trade>) -> bool,
    allocator: Option<(seq<Candidate>, real, real) -> Option<map<Candidate, int>>>,
    priority: Option<map<Candidate, int>>)

  /** What a run is configured with. */
  datatype Setup = Setup(initialCash: real, config: TransactionCostConfig, limits: Limits, ranking: RankingMethod,
      policies: Policies)
  {
    predicate Valid() { initialCash > 0.0 && config.Sellable() && limits.Valid() }
  }

  /** What a decision sees of the portfolio. */
  datatype View = View(cash: real, positions: seq<Trade>)
  {
    function Equity(): real { cash + MarketValue(positions, map[]) }

    predicate Holds(symbol: Symbol) { exists t | t in positions :: t.symbol == symbol }
  }

  // ------------------------------------------------------------------ one candidate

  predicate RegimeAdmits(c: Candidate) { c.regime.Some? ==> !c.regime.value.unknown && c.regime.value.allowNew }

  function MaximumFor(s: Setup, c: Candidate): nat {
    if c.regime.Some? && c.regime.value.maxPositions < s.limits.maxPositions then c.regime.value.maxPositions
      else s.limits.maxPositions
  }

  function WholeLots(n: nat, lot: nat): (q: nat)
    requires lot >= 1
    ensures q <= n < q + lot
  {
    assert n == lot * (n / lot) + n % lot;
    n / lot * lot
  }

  /** A planned quantity is floored to whole lots; without a plan the position sizer decides. */
  function QuantityFor(s: Setup, v: View, c: Candidate, planned: Option<int>): (q: int)
    requires s.Valid()
    ensures planned.Some? && planned.value > 0 ==> 0 <= q <= planned.value < q + s.limits.lotSize
    ensures planned.Some? && planned.value <= 0 ==> q == 0
  {
    match planned
    case Some(n) => if n <= 0 then 0 else WholeLots(n, s.limits.lotSize)
    case None => s.policies.sizer(c, v.cash, v.Equity())
  }

  predicate WithinExposure(s: Setup, v: View, c: Candidate, q: nat) {
    s.limits.maxGrossExposurePct.Some? && v.Equity() > 0.0 ==>
      (Exposure(v.positions) + Gross(c.entryPrice, q)) / v.Equity() * 100.0 <= s.limits.maxGrossExposurePct.value
  }

  /** The cash a purchase must leave. */
  function Buffer(s: Setup, v: View): real { v.Equity() * s.limits.bufferPct / 100.0 }

  /** What the simulator thinks a purchase costs. */
  function EstimatedCost(s: Setup, c: Candidate, q: nat): real {
    Gross(c.entryPrice, q) * (1.0 + (s.config.buyCommissionPct + s.config.buySlippagePct) / 100.0)
  }

  /** What the estimate leaves out: commission on the slippage. */
  function CrossTerm(s: Setup, c: Candidate, q: nat): real {
    Gross(c.entryPrice, q) * s.config.buySlippagePct * s.config.buyCommissionPct / 10000.0
  }

  /** The checks before a purchase, in order; the first that fails is the reason. */
  function Objection(s: Setup, v: View, c: Candidate, q: int): Option<Refusal>
    requires s.Valid() && c.Usable()
  {
    if c.regime.Some? && c.regime.value.unknown then Some(UnknownRegime)
    else if c.regime.Some? && !c.regime.value.allowNew then Some(EntriesDisabled)
    else
      match Decide(c.symbol, c.quality, v.positions, MaximumFor(s, c), s.ranking, 0.0, false)
      case WouldReplace(_) => Some(Refusal.WouldReplace)
      case Reject(reason) => Some(NotChosen(reason))
      case Open =>
        if q <= 0 then Some(Refusal.InsufficientCash)
        else if !WithinExposure(s, v, c, q) then Some(GrossExposure)
        else if v.cash - EstimatedCost(s, c, q) < Buffer(s, v) then Some(CashBuffer)
        else if !s.policies.heatAllows(c, q, v.Equity(), v.positions) then Some(Heat)
        else None
  }

  /** All checks together. */
  predicate Cleared(s: Setup, v: View, c: Candidate, q: int)
    requires s.Valid() && c.Usable()
  {
    && RegimeAdmits(c)
    && Decide(c.symbol, c.quality, v.positions, MaximumFor(s, c), s.ranking, 0.0, false).Open?
    && q > 0 && WithinExposure(s, v, c, q) && v.cash - EstimatedCost(s, c, q) >= Buffer(s, v)
    && s.policies.heatAllows(c, q, v.Equity(), v.positions)
  }

  /** No objection means every check passes. A duplicate symbol and a full portfolio are always an
      objection, whatever the quantity; a purchase whose estimate breaks into the buffer never passes. */
  lemma {:induction false} ObjectionMeans(s: Setup, v: View, c: Candidate, q: int)
    requires s.Valid() && c.Usable()
    ensures Objection(s, v, c, q).None? <==> Cleared(s, v, c, q)
    ensures RegimeAdmits(c) && v.Holds(c.symbol) ==> Objection(s, v, c, q) == Some(NotChosen("duplicate_symbol"))
    ensures |v.positions| >= MaximumFor(s, c) ==> Objection(s, v, c, q).Some?
    ensures q > 0 && v.cash - EstimatedCost(s, c, q) < Buffer(s, v) ==> Objection(s, v, c, q).Some?
  {
  }

  /** The first failing check, or cash that does not cover the purchase itself. */
  function Verdict(s: Setup, v: View, c: Candidate, q: int): Option<Refusal>
    requires s.Valid() && c.Usable()
  {
    if Objection(s, v, c, q).Some? then Objection(s, v, c, q)
    else if q > 0 && PurchaseCost(c.entryPrice, q, s.config) > v.cash then Some(Refusal.InsufficientCash)
    else None
  }

  /** The trade is this candidate's, in this quantity, at the slipped price. */
  predicate Takes(s: Setup, c: Candidate, q: int, t: Trade) {
    && t.symbol == c.symbol && t.entryDate == c.entryDate && t.quality == c.quality
    && t.quantity == q && t.entryPrice == BuyPrice(c.entryPrice, s.config)
  }

  /** The event that the verdict demands. */
  ghost predicate Decided(s: Setup, v: View, c: Candidate, planned: Option<int>, e: Event)
    requires s.Valid() && c.Usable()
  {
    var q := QuantityFor(s, v, c, planned);
    match Verdict(s, v, c, q)
    case Some(reason) => e == Refused(c, reason)
    case None => e.Opened? && e.c == c && Takes(s, c, q, e.t)
  }

  /** The portfolio after a purchase. */
  function Bought(s: Setup, v: View, c: Candidate, t: Trade): View {
    View(v.cash - PurchaseCost(c.entryPrice, t.quantity, s.config), v.positions + [t])
  }

  /** An opened position respects the limit, the symbol is new, the cash stays non-negative; and the
      buffer is kept exactly when the estimate with the omitted cross term keeps it. */
  lemma {:induction false} OpeningMeans(s: Setup, v: View, c: Candidate, planned: Option<int>, e: Event)
    requires s.Valid() && c.Usable() && Decided(s, v, c, planned, e) && e.Opened?
    ensures var q, after := e.t.quantity, Bought(s, v, c, e.t);
      && q == QuantityFor(s, v, c, planned) && Cleared(s, v, c, q) && !v.Holds(c.symbol)
      && |after.positions| <= MaximumFor(s, c) <= s.limits.maxPositions
      && after.cash >= 0.0 && after.cash >= Buffer(s, v) - CrossTerm(s, c, q)
      && (after.cash >= Buffer(s, v) <==> v.cash - EstimatedCost(s, c, q) - CrossTerm(s, c, q) >= Buffer(s, v))
  {
    ObjectionMeans(s, v, c, e.t.quantity);
    EstimateMissesCrossTerm(c.entryPrice, e.t.quantity, s.config);
  }

  /** The buffer promise fails: with ten percent commission, slippage and buffer, 1000 in cash clears
      ten shares at 75, and 92.5 are left of the 100 that should stay. */
  lemma {:induction false} BufferBroken(s: Setup, c: Candidate)
    requires s.config == TransactionCostConfig(10.0, 0.0, 0.0, 10.0, 0.0)
    requires s.initialCash == 1000.0 && s.limits == Limits(1, None, None, 10.0, 1, 100.0)
    requires c.Usable() && c.entryPrice == 75.0 && c.regime == None
    requires s.policies.heatAllows(c, 10, 1000.0, [])
    ensures var v := View(1000.0, []);
      Verdict(s, v, c, 10) == None && v.cash - PurchaseCost(c.entryPrice, 10, s.config) == 92.5 && Buffer(s, v) == 100.0
  {
    TimesIs(10, 75.0);
    TimesIs(10, BuyPrice(75.0, s.config));
  }

  // -------------------------------------------------------------------- one day

  /** The entry order: final priority ordinals if there are any, else the ranking method. */
  function ByOrdinal(priority: map<Candidate, int>): (Candidate, Candidate) -> bool {
    (a: Candidate, b: Candidate) =>
      (if a in priority then priority[a] else 0) <= (if b in priority then priority[b] else 0)
  }

  function ByQuality(): (Candidate, Candidate) -> bool { (a: Candidate, b: Candidate) => AtMost(b.quality, a.quality) }

  /** `_rank_entry_candidates`. */
  function RankEntry(s: Setup, cs: seq<Candidate>): seq<Candidate> {
    match s.policies.priority
    case Some(priority) => Sorted(cs, ByOrdinal(priority))
    case None => if s.ranking.FirstCome? then cs else Sorted(cs, ByQuality())
  }

  /** The day's candidates, all of them, in entry order; equal qualities keep the given order. */
  lemma {:induction false} RankEntryMeans(s: Setup, cs: seq<Candidate>, x: Value)
    ensures multiset(RankEntry(s, cs)) == multiset(cs)
    ensures s.policies.priority.Some? ==> Ordered(RankEntry(s, cs), ByOrdinal(s.policies.priority.value))
    ensures s.policies.priority.None? && s.ranking.ByAttribute? ==> Ordered(RankEntry(s, cs), ByQuality())
    ensures s.policies.priority.None? ==> Filter(RankEntry(s, cs), HasQuality(x)) == Filter(cs, HasQuality(x))
  {
    if s.policies.priority.Some? {
      SortedOrdered(cs, ByOrdinal(s.policies.priority.value));
      SortedPermutes(cs, ByOrdinal(s.policies.priority.value));
    } else if s.ranking.ByAttribute? {
      SortedOrdered(cs, ByQuality());
      SortedPermutes(cs, ByQuality());
      SortedStable(cs, ByQuality(), HasQuality(x));
    }
  }

  function HasQuality(x: Value): Candidate -> bool { (c: Candidate) => c.quality == x }

  /** The share of the equity a day's allocation may use: the position size per candidate, at most
      all of the equity and at most the cash. */
  function InvestablePct(s: Setup, v: View, n: nat): real {
    var target := Allocation.Min(100.0, s.limits.positionSizePct * n as real);
    Allocation.Min(target, if v.Equity() > 0.0 then v.cash / v.Equity() * 100.0 else 0.0)
  }

  function FreeSlots(s: Setup, v: View): nat {
    if s.limits.maxPositions > |v.positions| then s.limits.maxPositions - |v.positions| else 0
  }

  /** The candidates the allocator is asked about: those that could still enter if every one before
      them did. */
  function Eligible(s: Setup, v: View, cs: seq<Candidate>): (r: seq<Candidate>)
    ensures |r| <= FreeSlots(s, v)
  {
    if cs == [] then []
    else
      var prior, c := Eligible(s, v, cs[..|cs| - 1]), cs[|cs| - 1];
      if |prior| < FreeSlots(s, v) && RegimeAdmits(c) && !v.Holds(c.symbol)
        && |v.positions| + |prior| < MaximumFor(s, c)
      then prior + [c] else prior
  }

  /** An eligible candidate is admitted by its regime, new to the portfolio, and fits its own maximum
      even after all eligible candidates before it; every other candidate was passed over because it
      would not fit behind some of the eligible ones. */
  lemma {:induction false} EligibleMeans(s: Setup, v: View, cs: seq<Candidate>)
    ensures var r := Eligible(s, v, cs);
      && (forall k | 0 <= k < |r| ::
        r[k] in cs && RegimeAdmits(r[k]) && !v.Holds(r[k].symbol) && |v.positions| + k < MaximumFor(s, r[k]))
      && forall c | c in cs && c !in r ::
        !RegimeAdmits(c) || v.Holds(c.symbol) || |v.positions| + |r| >= MaximumFor(s, c)
  {
    if cs != [] {
      var n := |cs| - 1;
      EligibleMeans(s, v, cs[..n]);
      assert cs == cs[..n] + [cs[n]];
    }
  }

  lemma {:induction false} EligibleFull(s: Setup, v: View, cs: seq<Candidate>, i: nat)
    requires i <= |cs| && |Eligible(s, v, cs[..i])| >= FreeSlots(s, v)
    ensures Eligible(s, v, cs) == Eligible(s, v, cs[..i])
    decreases |cs|
  {
    if i < |cs| {
      assert cs[..|cs| - 1][..i] == cs[..i];
      EligibleFull(s, v, cs[..|cs| - 1], i);
    } else {
      assert cs[..i] == cs;
    }
  }

  /** The planned quantities of the day: what the allocator grants the eligible candidates. */
  function DailyPlan(s: Setup, v: View, cs: seq<Candidate>): map<Candidate, int> {
    var eligible, pct := Eligible(s, v, cs), InvestablePct(s, v, |Eligible(s, v, cs)|);
    if s.policies.allocator.None? || eligible == [] || pct <= 0.0 then map[]
    else
      match s.policies.allocator.value(eligible, v.Equity(), pct)
      case None => map[]
      case Some(quantities) => map c | c in eligible && c in quantities :: quantities[c]
  }

  /** What the planned quantities cost at the entry prices. */
  function PlannedValue(cs: seq<Candidate>, plan: map<Candidate, int>): real {
    if cs == [] then 0.0
    else
      var c := cs[|cs| - 1];
      PlannedValue(cs[..|cs| - 1], plan) + if c in plan && plan[c] > 0 then Gross(c.entryPrice, plan[c]) else 0.0
  }

  /** An allocator that spends at most the share of the equity it is given, as the weighted and the
      risk-budget allocators do. */
  ghost predicate KeepsBudget(allocate: (seq<Candidate>, real, real) -> Option<map<Candidate, int>>) {
    forall cs: seq<Candidate>, equity: real, pct: real | equity > 0.0 && pct > 0.0 && allocate(cs, equity, pct).Some? ::
      PlannedValue(cs, allocate(cs, equity, pct).value) <= equity * pct / 100.0
  }

  lemma {:induction false} PlannedSame(cs: seq<Candidate>, a: map<Candidate, int>, b: map<Candidate, int>)
    requires forall c | c in cs :: PlannedFor(a, c) == PlannedFor(b, c)
    ensures PlannedValue(cs, a) == PlannedValue(cs, b)
  {
    if cs != [] {
      var n := |cs| - 1;
      assert PlannedFor(a, cs[n]) == PlannedFor(b, cs[n]);
      PlannedSame(cs[..n], a, b);
    }
  }

  lemma {:induction false} ShareOfCash(cash: real, equity: real, pct: real)
    requires equity > 0.0 && pct <= cash / equity * 100.0
    ensures equity * pct / 100.0 <= cash
  {
    var q := cash / equity;
    assert q * equity == cash;
    assert equity * (q * 100.0 - pct) >= 0.0;
  }

  lemma {:induction false} ShareWithinCash(s: Setup, v: View, n: nat)
    ensures InvestablePct(s, v, n) > 0.0 ==> v.Equity() > 0.0 && v.Equity() * InvestablePct(s, v, n) / 100.0 <= v.cash
  {
    if v.Equity() > 0.0 { ShareOfCash(v.cash, v.Equity(), InvestablePct(s, v, n)); }
  }

  /** With an allocator that keeps its budget, a day's plan never costs more than the cash. */
  lemma {:induction false} PlanWithinCash(s: Setup, v: View, cs: seq<Candidate>)
    requires s.policies.allocator.Some? && KeepsBudget(s.policies.allocator.value) && v.cash >= 0.0
    ensures PlannedValue(Eligible(s, v, cs), DailyPlan(s, v, cs)) <= v.cash
  {
    hide Eligible, InvestablePct, PlannedValue, View.Equity;
    var eligible, plan := Eligible(s, v, cs), DailyPlan(s, v, cs);
    var pct := InvestablePct(s, v, |eligible|);
    if plan == map[] {
      NothingPlanned(eligible);
    } else {
      var quantities := s.policies.allocator.value(eligible, v.Equity(), pct).value;
      PlannedSame(eligible, plan, quantities);
      ShareWithinCash(s, v, |eligible|);
    }
  }

  /** A candidate as the allocator is shown it. */
  function Shown(c: Candidate, stop: Candidate -> Option<real>): Allocation.AllocationCandidate
    requires c.Usable()
  {
    Allocation.CandidateData(c.symbol, c.entryPrice, stop(c), None)
  }

  function ShownAll(cs: seq<Candidate>, stop: Candidate -> Option<real>): (r: seq<Allocation.AllocationCandidate>)
    requires forall c | c in cs :: c.Usable()
    ensures |r| == |cs|
  {
    if cs == [] then [] else ShownAll(cs[..|cs| - 1], stop) + [Shown(cs[|cs| - 1], stop)]
  }

  /** The plan grants each candidate the shares of its position, and nothing to the others. */
  ghost predicate Grants(plan: map<Candidate, int>, cs: seq<Candidate>, stop: Candidate -> Option<real>, w: Weights,
      capital: real)
    requires forall c | c in cs :: c.Usable()
  {
    forall c | c in cs ::
      PlannedFor(plan, c) == match Allocation.PositionFor(Shown(c, stop), w, w, capital) case None =>
        None case Some(x) => Some(x.quantity)
  }

  lemma {:induction false} GrantedValue(plan: map<Candidate, int>, cs: seq<Candidate>,
      stop: Candidate -> Option<real>, w: Weights, capital: real)
    requires (forall c | c in cs :: c.Usable()) && Grants(plan, cs, stop, w, capital)
    ensures PlannedValue(cs, plan) == Allocation.Spending(Allocation.Positions(ShownAll(cs, stop), w, w, capital))
  {
    if cs != [] {
      var n := |cs| - 1;
      var c, shown := cs[n], ShownAll(cs, stop);
      assert shown[..n] == ShownAll(cs[..n], stop) && shown[n] == Shown(c, stop);
      GrantedValue(plan, cs[..n], stop, w, capital);
      assert PlannedFor(plan, c) == match Allocation.PositionFor(Shown(c, stop), w, w, capital) case None =>
        None case Some(x) => Some(x.quantity);
      assert shown[..n + 1] == shown;
      Allocation.PositionsStep(shown, n, w, w, capital);
      if Allocation.PositionFor(shown[n], w, w, capital).Some? {
        var x := Allocation.PositionFor(shown[n], w, w, capital).value;
        Allocation.SpendingAdds(Allocation.Positions(shown[..n], w, w, capital), x);
      }
    }
  }

  /** What a capped allocator grants keeps the budget it was given. */
  lemma {:induction false} CappedKeepsBudget(plan: map<Candidate, int>, cs: seq<Candidate>,
      stop: Candidate -> Option<real>, w: Weights, capital: real, maximum: real)
    requires (forall c | c in cs :: c.Usable()) && Grants(plan, cs, stop, w, capital)
    requires Allocation.WithinCap(Allocation.Positions(ShownAll(cs, stop), w, w, capital), capital, maximum)
    ensures PlannedValue(cs, plan) <= capital
  {
    GrantedValue(plan, cs, stop, w, capital);
  }

  lemma {:induction false} NothingPlanned(cs: seq<Candidate>)
    ensures PlannedValue(cs, map[]) == 0.0
  {
    if cs != [] { NothingPlanned(cs[..|cs| - 1]); }
  }

  function PlannedFor(plan: map<Candidate, int>, c: Candidate): Option<int> {
    if c in plan then Some(plan[c]) else None
  }

  /** How many of the day's candidates are tried. */
  function Cut(s: Setup, n: nat): (k: nat)
    ensures k <= n && (s.limits.maxNewPerDay.Some? ==> k <= s.limits.maxNewPerDay.value)
    ensures k < n ==> s.limits.maxNewPerDay == Some(k)
  {
    if s.limits.maxNewPerDay.Some? && s.limits.maxNewPerDay.value < n then s.limits.maxNewPerDay.value else n
  }

  /** Exits of earlier entries, entries, and exits of entries of the same day. */
  function LeavesOn(d: Date): Candidate -> bool {
    (c: Candidate) => c.exit.Some? && c.exit.value.date == d && c.entryDate != d
  }

  function EntersOn(d: Date): Candidate -> bool { (c: Candidate) => c.entryDate == d }

  function PassesOn(d: Date): Candidate -> bool {
    (c: Candidate) => c.exit.Some? && c.exit.value.date == d && c.entryDate == d
  }

  /** The candidates of a day in entry order. */
  function DayOf(s: Setup, cs: seq<Candidate>, d: Date): seq<Candidate> { RankEntry(s, Filter(cs, EntersOn(d))) }

  lemma {:induction false} DayMembers(s: Setup, cs: seq<Candidate>, d: Date)
    requires Distinct(cs)
    ensures Distinct(DayOf(s, cs, d)) && forall c :: c in DayOf(s, cs, d) <==> c in cs && c.entryDate == d
  {
    var day, entries := DayOf(s, cs, d), Filter(cs, EntersOn(d));
    FilterDistinct(cs, EntersOn(d));
    RankEntryMeans(s, entries, Missing);
    DistinctCount(entries);
    DistinctCount(day);
    forall c ensures c in day <==> c in entries { assert c in multiset(day) <==> c in multiset(entries); }
  }

  // ------------------------------------------------------------------- histories

  /** The portfolio that a history leaves. */
  ghost function After(s: Setup, h: seq<Event>): View
    decreases |h|
  {
    if h == [] then View(s.initialCash, [])
    else
      var v := After(s, Prior(h));
      match Last(h)
      case Refused(_, _) => v
      case Opened(c, t) => Bought(s, v, c, t)
      case Closed(c) =>
        if c in Active(Prior(h)) && c.exit.Some?
        then View(v.cash + Proceeds(c.exit.value.price, Active(Prior(h))[c].quantity, s.config),
          Without(v.positions, Active(Prior(h))[c]))
        else v
  }

  /** The portfolio before the first entry of a date was decided. */
  ghost function PlanningView(s: Setup, h: seq<Event>, d: Date): View
    decreases |h|
  {
    if h == [] || forall c | c in Settled(h) :: c.entryDate != d then After(s, h) else PlanningView(s, Prior(h), d)
  }

  /** Whether a position opened for the candidate is still held when entries of the date are decided. */
  ghost predicate StillIn(c: Candidate, d: Date) {
    c.entryDate == d || c.exit.None? || c.exit.value.date > d || c.EndsEarly()
  }

  /** Every earlier exit has happened, and no later one. */
  ghost predicate InTime(h: seq<Event>, d: Date) { forall c | c in Openings(h) :: c in Active(h) <==> StillIn(c, d) }

  /** The first `i` of the day's first `k` candidates were tried, and the surplus beyond `k` refused. */
  ghost predicate Turn(day: seq<Candidate>, k: nat, i: nat, settled: set<Candidate>) {
    && (forall j | 0 <= j < |day| && j < k :: day[j] in settled <==> j < i)
    && forall j | k <= j < |day| :: day[j] in settled
  }

  /** The decision about a candidate follows from the history: beyond the daily maximum it is refused;
      else it is tried in its turn, in the portfolio of that moment, with the quantity planned for it
      before the day's first entry. */
  ghost predicate Entered(s: Setup, cs: seq<Candidate>, p: seq<Event>, e: Event)
    requires s.Valid() && e.c.Usable()
  {
    var c, d := e.c, e.c.entryDate;
    var day := DayOf(s, cs, d);
    var k := Cut(s, |day|);
    && InTime(p, d) && c in day
    && if c in day[k..] then e == Refused(c, DailyMaximum)
       else
         && (exists i | 0 <= i < k :: day[i] == c && Turn(day, k, i, Settled(p)))
         && Decided(s, After(s, p), c, PlannedFor(DailyPlan(s, PlanningView(s, p, d), day), c), e)
  }

  /** Every decision of the history follows from what was before it. */
  ghost predicate Justified(s: Setup, cs: seq<Candidate>, h: seq<Event>)
    requires s.Valid()
    decreases |h|
  {
    h == [] || (Justified(s, cs, Prior(h)) && (Last(h).Closed?
      || (Last(h).c.Usable() && Entered(s, cs, Prior(h), Last(h)))))
  }

  lemma {:induction false} AfterStep(s: Setup, h: seq<Event>, e: Event)
    ensures e.Refused? ==> After(s, h + [e]) == After(s, h)
    ensures e.Opened? ==> After(s, h + [e]) == Bought(s, After(s, h), e.c, e.t)
    ensures e.Closed? && e.c in Active(h) && e.c.exit.Some? ==>
      var v, t := After(s, h), Active(h)[e.c];
      After(s, h + [e]) == View(v.cash + Proceeds(e.c.exit.value.price, t.quantity, s.config), Without(v.positions, t))
  {
    Extended(h, e);
  }

  /** Entries of a date do not move the portfolio its quantities were planned in. */
  lemma {:induction false} PlanningKept(s: Setup, h: seq<Event>, e: Event)
    requires !e.Closed?
    ensures PlanningView(s, h + [e], e.c.entryDate) == PlanningView(s, h, e.c.entryDate)
  {
    Extended(h, e);
    assert e.c in Settled(h + [e]);
  }

  lemma {:induction false} JustifiedStep(s: Setup, cs: seq<Candidate>, h: seq<Event>, e: Event)
    requires s.Valid() && Justified(s, cs, h) && (e.Closed? || (e.c.Usable() && Entered(s, cs, h, e)))
    ensures Justified(s, cs, h + [e])
  {
    Extended(h, e);
  }

  /** The history stands in the entries of a date: the surplus was refused and `i` candidates tried. */
  ghost predicate Standing(s: Setup, cs: seq<Candidate>, d: Date, h: seq<Event>, i: nat)
    requires s.Valid()
  {
    var day := DayOf(s, cs, d);
    && Justified(s, cs, h) && InTime(h, d) && i <= Cut(s, |day|) && Turn(day, Cut(s, |day|), i, Settled(h))
  }

  lemma {:induction false} InTimeKept(h: seq<Event>, e: Event)
    requires Orderly(h + [e]) && !e.Closed? && InTime(h, e.c.entryDate)
    ensures InTime(h + [e], e.c.entryDate)
  {
    Extended(h, e);
    ActiveOpened(h);
  }

  lemma {:induction false} TurnNext(day: seq<Candidate>, k: nat, i: nat, settled: set<Candidate>)
    requires Turn(day, k, i, settled) && Distinct(day) && i < k <= |day|
    ensures day[i] !in settled && Turn(day, k, i + 1, settled + {day[i]})
    ensures day[i] !in day[k..]
  {
  }

  /** Trying the next candidate of the day keeps the history justified. */
  lemma {:induction false} StandingNext(s: Setup, cs: seq<Candidate>, d: Date, h: seq<Event>, i: nat, e: Event)
    requires s.Valid() && Distinct(cs) && Standing(s, cs, d, h, i) && i < Cut(s, |DayOf(s, cs, d)|)
    requires e.c == DayOf(s, cs, d)[i] && e.c.Usable() && !e.Closed? && Orderly(h + [e])
    requires Decided(s, After(s, h), e.c, PlannedFor(DailyPlan(s, PlanningView(s, h, d), DayOf(s, cs, d)), e.c), e)
    ensures Standing(s, cs, d, h + [e], i + 1) && PlanningView(s, h + [e], d) == PlanningView(s, h, d)
  {
    hide Decided, DailyPlan, DayOf, Turn, InTime, Justified, Distinct;
    var day := DayOf(s, cs, d);
    DayMembers(s, cs, d);
    assert day[i] in day;
    TurnNext(day, Cut(s, |day|), i, Settled(h));
    assert Entered(s, cs, h, e);
    JustifiedStep(s, cs, h, e);
    EventSettles(h, e);
    InTimeKept(h, e);
    PlanningKept(s, h, e);
  }

  /** Refusing a surplus candidate keeps the history justified. */
  lemma {:induction false} SurplusRefused(s: Setup, cs: seq<Candidate>, d: Date, h: seq<Event>, c: Candidate)
    requires s.Valid() && Distinct(cs) && Justified(s, cs, h) && InTime(h, d) && c.Usable()
    requires c in DayOf(s, cs, d)[Cut(s, |DayOf(s, cs, d)|)..] && Orderly(h + [Refused(c, DailyMaximum)])
    ensures Justified(s, cs, h + [Refused(c, DailyMaximum)]) && InTime(h + [Refused(c, DailyMaximum)], d)
    ensures PlanningView(s, h + [Refused(c, DailyMaximum)], d) == PlanningView(s, h, d)
  {
    hide DayOf, Turn, InTime, Justified, Distinct, Decided, DailyPlan;
    var e, day := Refused(c, DailyMaximum), DayOf(s, cs, d);
    DayMembers(s, cs, d);
    assert c in day;
    assert Entered(s, cs, h, e);
    JustifiedStep(s, cs, h, e);
    InTimeKept(h, e);
    PlanningKept(s, h, e);
  }

  // --------------------------------------------------- what a justified history means

  lemma {:induction false} SettledOffered(s: Setup, cs: seq<Candidate>, h: seq<Event>)
    requires s.Valid() && Distinct(cs) && Justified(s, cs, h)
    ensures forall c | c in Settled(h) :: c in cs
    decreases |h|
  {
    if h != [] {
      SettledOffered(s, cs, Prior(h));
      DayMembers(s, cs, Last(h).c.entryDate);
    }
  }

  /** The daily maximum refuses exactly the candidates ranked beyond it. */
  lemma {:induction false} DailyMaximumExact(s: Setup, cs: seq<Candidate>, h: seq<Event>, c: Candidate)
    requires s.Valid() && Distinct(cs) && Orderly(h) && Justified(s, cs, h) && c in Settled(h)
    ensures var day := DayOf(s, cs, c.entryDate);
      Rejection(c, DailyMaximum) in Rejections(h) <==> c in day[Cut(s, |day|)..]
    decreases |h|
  {
    hide Turn, InTime, DayOf, DailyPlan, PlanningView, After, Active;
    var p, e := Prior(h), Last(h);
    if c in Settled(p) {
      DailyMaximumExact(s, cs, p, c);
    } else {
      NotRejectedBefore(p, c);
      NeverDailyMaximum(s, After(s, p), c, e);
    }
  }

  lemma {:induction false} NotRejectedBefore(h: seq<Event>, c: Candidate)
    requires c !in Settled(h)
    ensures forall r | r in Rejections(h) :: r.candidate != c
    decreases |h|
  {
    if h != [] { NotRejectedBefore(Prior(h), c); }
  }

  /** No check of a single candidate gives the daily maximum as its reason. */
  lemma {:induction false} NeverDailyMaximum(s: Setup, v: View, c: Candidate, e: Event)
    requires s.Valid() && c.Usable()
    ensures forall planned: Option<int> :: Decided(s, v, c, planned, e) ==> e != Refused(c, DailyMaximum)
  {
  }

  /** Every rejection and every opening is explained by the portfolio of its moment. */
  lemma {:induction false} Explained(s: Setup, cs: seq<Candidate>, h: seq<Event>, c: Candidate) returns (n: nat)
    requires s.Valid() && Distinct(cs) && Orderly(h) && Justified(s, cs, h) && c in Settled(h)
    ensures n < |h| && h[n].c == c && c.Usable() && c !in Settled(h[..n]) && InTime(h[..n], c.entryDate)
    ensures c in Openings(h) <==> h[n].Opened?
    ensures c !in Openings(h) ==> h[n].Refused? && Rejection(c, h[n].reason) in Rejections(h)
    ensures var day := DayOf(s, cs, c.entryDate);
      if c in day[Cut(s, |day|)..] then h[n] == Refused(c, DailyMaximum)
      else Decided(s, After(s, h[..n]), c, PlannedFor(DailyPlan(s, PlanningView(s, h[..n], c.entryDate), day), c), h[n])
    decreases |h|
  {
    hide Turn, InTime, DayOf, DailyPlan, PlanningView, After, Active, Decided;
    var p, e := Prior(h), Last(h);
    if c in Settled(p) {
      n := Explained(s, cs, p, c);
      assert p[..n] == h[..n];
    } else {
      n := |h| - 1;
      OpenedSettled(p);
    }
  }

  lemma {:induction false} OpenedSettled(h: seq<Event>)
    ensures Openings(h).Keys <= Settled(h)
    decreases |h|
  {
    if h != [] { OpenedSettled(Prior(h)); }
  }

  lemma {:induction false} NothingYet(h: seq<Event>)
    requires Orderly(h) && Settled(h) == {}
    ensures h == []
  {
    if h != [] { ActiveOpened(Prior(h)); }
  }

  /** A single candidate that clears the checks of an empty portfolio is opened. */
  lemma {:induction false} AloneOpens(s: Setup, c: Candidate, h: seq<Event>)
    requires s.Valid() && c.Usable() && Orderly(h) && Justified(s, [c], h) && c in Settled(h)
    requires var v := View(s.initialCash, []);
      Verdict(s, v, c, QuantityFor(s, v, c, PlannedFor(DailyPlan(s, v, [c]), c))) == None
    ensures c in Openings(h)
    decreases |h|
  {
    hide DailyPlan, Verdict, QuantityFor, Turn, InTime;
    var p := Prior(h);
    if c in Settled(p) {
      AloneOpens(s, c, p);
    } else {
      SettledOffered(s, [c], p);
      assert Settled(p) == {};
      NothingYet(p);
      AloneDay(s, c);
    }
  }

  lemma {:induction false} AloneDay(s: Setup, c: Candidate)
    ensures DayOf(s, [c], c.entryDate) == [c] && Cut(s, 1) <= 1 && (s.Valid() ==> Cut(s, 1) == 1)
  {
    var day := DayOf(s, [c], c.entryDate);
    assert [c][..0] == [];
    assert Filter([c], EntersOn(c.entryDate)) == [c];
    RankEntryMeans(s, [c], Missing);
    assert |multiset(day)| == |day| == 1 && day[0] in multiset(day);
  }
}
