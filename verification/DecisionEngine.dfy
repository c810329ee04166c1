/** Whether a candidate opens, is rejected, or would replace the weakest open position. */
module DecisionEngine {
  import opened MarketTypes
  import opened Ranking
  import opened CandidatePriority
  import opened Portfolio

  datatype RankingMethod = FirstCome | ByAttribute

  datatype Decision = Open | Reject(reason: string) | WouldReplace(weakest: Trade)

  function QualityOf(v: Value, ranking: RankingMethod): Value { if ranking.FirstCome? then Missing else v }

  predicate WeakerOrEqual(a: Trade, b: Trade, ranking: RankingMethod) {
    var x, y := QualityOf(a.quality, ranking), QualityOf(b.quality, ranking);
    if x == y then SymbolAtMost(a.symbol, b.symbol) else AtMost(x, y)
  }

  /** `find_weakest_trade`: least quality, then least symbol. */
  function Weakest(positions: seq<Trade>, ranking: RankingMethod): (t: Trade)
    requires positions != []
    ensures t in positions
    ensures forall u | u in positions :: WeakerOrEqual(t, u, ranking)
  {
    if |positions| == 1 then
      SymbolOrder(positions[0].symbol, positions[0].symbol, positions[0].symbol);
      positions[0]
    else
      var best, last := Weakest(positions[..|positions| - 1], ranking), positions[|positions| - 1];
      WeakestStep(positions, ranking, best, last);
      if WeakerOrEqual(best, last, ranking) then best else last
  }

  lemma {:induction false} WeakestStep(positions: seq<Trade>, ranking: RankingMethod, best: Trade, last: Trade)
    requires |positions| > 1 && last == positions[|positions| - 1]
    requires forall u | u in positions[..|positions| - 1] :: WeakerOrEqual(best, u, ranking)
    ensures WeakerOrEqual(best, last, ranking) || WeakerOrEqual(last, best, ranking)
    ensures !WeakerOrEqual(best, last, ranking) ==> forall u | u in positions :: WeakerOrEqual(last, u, ranking)
    ensures forall u | u in positions :: u == last || u in positions[..|positions| - 1]
  {
    assert positions == positions[..|positions| - 1] + [last];
    WeakerOrder(best, last, best, ranking);
    if !WeakerOrEqual(best, last, ranking) {
      forall u | u in positions
        ensures WeakerOrEqual(last, u, ranking)
      {
        WeakerOrder(last, best, u, ranking);
        WeakerOrder(last, last, last, ranking);
      }
    }
  }

  lemma {:induction false} WeakerOrder(a: Trade, b: Trade, c: Trade, ranking: RankingMethod)
    ensures WeakerOrEqual(a, b, ranking) || WeakerOrEqual(b, a, ranking)
    ensures WeakerOrEqual(a, b, ranking) && WeakerOrEqual(b, c, ranking) ==> WeakerOrEqual(a, c, ranking)
  {
    SymbolOrder(a.symbol, b.symbol, c.symbol);
    SymbolOrder(b.symbol, a.symbol, c.symbol);
  }

  /** `decide_candidate`. */
  function Decide(symbol: Symbol, quality: Value, positions: seq<Trade>, maximum: nat, ranking: RankingMethod,
      threshold: real, duplicates: bool): (d: Decision)
    requires maximum >= 1 && threshold >= 0.0
    ensures d.Open? <==> |positions| < maximum && (duplicates || forall t | t in positions :: t.symbol != symbol)
    ensures d.WouldReplace? ==>
      && d.weakest in positions && |positions| >= maximum && quality.Number? && d.weakest.quality.Number?
      && d.weakest.quality.x + threshold <= quality.x
  {
    if !duplicates && exists t | t in positions :: t.symbol == symbol then Reject("duplicate_symbol")
    else if |positions| < maximum then Open
    else if ranking.FirstCome? then Reject("portfolio_full_no_quality_method")
    else
      var weakest := Weakest(positions, ranking);
      if quality.Missing? || weakest.quality.Missing? then Reject("missing_quality_data")
      else if quality.x - weakest.quality.x >= threshold then WouldReplace(weakest)
      else Reject("candidate_quality_below_threshold")
  }

  /** A full portfolio replaces only over the weakest position, exactly when the candidate's quality
      is known, known for that position, and higher by at least the threshold. */
  lemma {:induction false} ReplacementExact(symbol: Symbol, quality: Value, positions: seq<Trade>, maximum: nat,
      ranking: RankingMethod, threshold: real, duplicates: bool)
    requires 1 <= maximum <= |positions| && threshold >= 0.0
    ensures Decide(symbol, quality, positions, maximum, ranking, threshold, duplicates).WouldReplace? <==>
      && ranking.ByAttribute? && (duplicates || forall t | t in positions :: t.symbol != symbol)
      && quality.Number? && forall t | t in positions && WeakerOrEqual(t, Weakest(positions, ranking), ranking) ::
        t.quality.Number? && t.quality.x + threshold <= quality.x
  {
    if ranking.ByAttribute? {
      var w := Weakest(positions, ranking);
      SymbolOrder(w.symbol, w.symbol, w.symbol);
      assert WeakerOrEqual(w, w, ranking);
      forall t | t in positions && WeakerOrEqual(t, w, ranking)
        ensures t.quality == w.quality
      {
        assert WeakerOrEqual(w, t, ranking);
      }
    }
  }
}
