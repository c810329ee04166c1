/** Exit models and the bar-by-bar exit of one trade. */
module ExitSimulation {
  import opened MarketTypes

  /** A daily bar; `atrs` are its ATR columns in lookup order, absent ones as None. */
  datatype Bar = Bar(open: real, high: real, low: real, close: real, atrs: seq<Option<real>>)

  datatype ExitModel =
    | FixedExit(stopLossPct: real, takeProfitPct: real)
    | AtrExit(stopMultiplier: real, targetMultiplier: real)
    | BreakEvenExit(stopLossPct: real, takeProfitPct: real, triggerPct: real)
    | TrailingAtrExit(stopMultiplier: real, targetMultiplier: real, trailingMultiplier: real)
  {
    /** The constructors refuse anything else. */
    predicate Valid() {
      && (AtrExit? || TrailingAtrExit? ==> stopMultiplier > 0.0 && targetMultiplier > 0.0)
      && (TrailingAtrExit? ==> trailingMultiplier > 0.0) && (BreakEvenExit? ==> triggerPct > 0.0)
    }
  }

  datatype Levels = Levels(stop: real, target: real)

  datatype ExitError = MissingAtr | InitialStop | InitialTarget | StopNotPositive | TargetNotAboveStop

  datatype Reason = StopLoss | TakeProfit | TimeExit

  datatype Execution = Normal | StopGap | TargetGap | SameDayStopFirst

  datatype ExitResult = ExitResult(index: nat, price: real, stop: real, target: real, reason: Reason,
      execution: Execution)

  function Max(a: real, b: real): real { if a >= b then a else b }

  function Min(a: nat, b: nat): nat { if a <= b then a else b }

  /** The first column with a positive value. */
  function FirstPositive(atrs: seq<Option<real>>): (r: Option<real>)
    ensures r.Some? ==>
      exists k :: 0 <= k < |atrs| && atrs[k] == r && r.value > 0.0
                  && forall i | 0 <= i < k :: atrs[i].None? || atrs[i].value <= 0.0
    ensures r.None? <==> forall i | 0 <= i < |atrs| :: atrs[i].None? || atrs[i].value <= 0.0
  {
    if atrs == [] then None
    else if atrs[0].Some? && atrs[0].value > 0.0 then atrs[0]
    else
      var r := FirstPositive(atrs[1..]);
      assert forall i | 0 < i < |atrs| :: atrs[i] == atrs[1..][i - 1];
      assert r.Some? ==>
          exists k :: 0 <= k < |atrs| && atrs[k] == r && forall i | 0 <= i < k :: atrs[i].None? || atrs[i].value <= 0.0
        by {
          if r.Some? {
            var k :| 0 <= k < |atrs[1..]| && atrs[1..][k] == r
              && forall i | 0 <= i < k :: atrs[1..][i].None? || atrs[1..][i].value <= 0.0;
            assert atrs[k + 1] == r;
          }
        }
      r
  }

  /** `calculate_levels`. */
  function InitialLevels(model: ExitModel, entryPrice: real, level: Bar): Result<Levels, ExitError> {
    match model
    case FixedExit(s, t) => Ok(Levels(entryPrice * (1.0 - s / 100.0), entryPrice * (1.0 + t / 100.0)))
    case BreakEvenExit(s, t, _) => Ok(Levels(entryPrice * (1.0 - s / 100.0), entryPrice * (1.0 + t / 100.0)))
    case AtrExit(s, t) => AtrLevels(s, t, entryPrice, level)
    case TrailingAtrExit(s, t, _) => AtrLevels(s, t, entryPrice, level)
  }

  function AtrLevels(s: real, t: real, entryPrice: real, level: Bar): Result<Levels, ExitError> {
    var atr := FirstPositive(level.atrs);
    if atr.None? then Err(MissingAtr)
    else if entryPrice - s * atr.value <= 0.0 then Err(InitialStop)
    else Ok(Levels(entryPrice - s * atr.value, entryPrice + t * atr.value))
  }

  /** A multiple of the ATR. */
  ghost function Distance(multiplier: real, atr: real): real { multiplier * atr }

  /** The ATR a model works with: the first positive one of the bar. */
  ghost predicate HasAtr(bar: Bar, atr: real) {
    exists k :: 0 <= k < |bar.atrs| && bar.atrs[k] == Some(atr) && atr > 0.0
                && forall i | 0 <= i < k :: bar.atrs[i].None? || bar.atrs[i].value <= 0.0
  }

  lemma {:induction false} AtrOnce(bar: Bar, a: real, b: real)
    requires HasAtr(bar, a) && HasAtr(bar, b)
    ensures a == b
  {
    var j :| 0 <= j < |bar.atrs| && bar.atrs[j] == Some(a)
      && forall i | 0 <= i < j :: bar.atrs[i].None? || bar.atrs[i].value <= 0.0;
    var k :| 0 <= k < |bar.atrs| && bar.atrs[k] == Some(b)
      && forall i | 0 <= i < k :: bar.atrs[i].None? || bar.atrs[i].value <= 0.0;
  }

  lemma {:induction false} AtrIs(bar: Bar)
    ensures FirstPositive(bar.atrs).Some? ==> HasAtr(bar, FirstPositive(bar.atrs).value)
    ensures FirstPositive(bar.atrs).None? ==> forall atr :: !HasAtr(bar, atr)
    ensures forall atr :: HasAtr(bar, atr) ==> FirstPositive(bar.atrs) == Some(atr)
  {
    forall atr | HasAtr(bar, atr) ensures FirstPositive(bar.atrs) == Some(atr) {
      if FirstPositive(bar.atrs).Some? { AtrOnce(bar, atr, FirstPositive(bar.atrs).value); }
    }
  }

  /** The initial levels: percentages of the entry price below and above it, or multiples of the ATR. */
  lemma {:induction false} InitialExactly(model: ExitModel, entryPrice: real, level: Bar, atr: real)
    ensures model.FixedExit? || model.BreakEvenExit? ==>
      InitialLevels(model, entryPrice, level) ==
        Ok(Levels(entryPrice - entryPrice * model.stopLossPct / 100.0,
                  entryPrice + entryPrice * model.takeProfitPct / 100.0))
    ensures (model.AtrExit? || model.TrailingAtrExit?) && HasAtr(level, atr) ==>
      InitialLevels(model, entryPrice, level) ==
        if entryPrice <= Distance(model.stopMultiplier, atr) then Err(InitialStop)
        else Ok(Levels(entryPrice - Distance(model.stopMultiplier, atr),
                       entryPrice + Distance(model.targetMultiplier, atr)))
    ensures (model.AtrExit? || model.TrailingAtrExit?) && (forall a :: !HasAtr(level, a)) ==>
      InitialLevels(model, entryPrice, level) == Err(MissingAtr)
  {
    AtrIs(level);
    hide FirstPositive, HasAtr;
    if model.FixedExit? || model.BreakEvenExit? {
      PercentOf(entryPrice, model.stopLossPct);
      PercentOf(entryPrice, model.takeProfitPct);
    } else {
      AtrExactly(model.stopMultiplier, model.targetMultiplier, entryPrice, level, atr);
    }
  }

  lemma {:induction false} AtrExactly(s: real, t: real, entryPrice: real, level: Bar, atr: real)
    ensures HasAtr(level, atr) ==>
      AtrLevels(s, t, entryPrice, level) ==
        if entryPrice <= Distance(s, atr) then Err(InitialStop)
        else Ok(Levels(entryPrice - Distance(s, atr), entryPrice + Distance(t, atr)))
    ensures (forall a :: !HasAtr(level, a)) ==> AtrLevels(s, t, entryPrice, level) == Err(MissingAtr)
  {
    hide FirstPositive, HasAtr, Distance, AtrLevels;
    AtrIs(level);
    AtrLevelsAre(s, t, entryPrice, level);
  }

  lemma {:induction false} AtrLevelsAre(s: real, t: real, entryPrice: real, level: Bar)
    ensures var found := FirstPositive(level.atrs);
      AtrLevels(s, t, entryPrice, level) ==
        if found.None? then Err(MissingAtr)
        else if entryPrice <= Distance(s, found.value) then Err(InitialStop)
        else Ok(Levels(entryPrice - Distance(s, found.value), entryPrice + Distance(t, found.value)))
  {
    hide FirstPositive;
    var found := FirstPositive(level.atrs);
    if found.Some? {
      var down, up := Distance(s, found.value), Distance(t, found.value);
      assert down == s * found.value && up == t * found.value;
      if entryPrice <= down {
        assert AtrLevels(s, t, entryPrice, level) == Err(InitialStop);
      } else {
        assert AtrLevels(s, t, entryPrice, level).Ok?;
        assert AtrLevels(s, t, entryPrice, level).value.stop == entryPrice - down;
        assert AtrLevels(s, t, entryPrice, level).value.target == entryPrice + up;
      }
    }
  }

  lemma {:induction false} PercentOf(price: real, pct: real)
    ensures price * (1.0 - pct / 100.0) == price - price * pct / 100.0
    ensures price * (1.0 + pct / 100.0) == price + price * pct / 100.0
  {
    var r := pct / 100.0;
    assert price * (1.0 - r) == price - price * r && price * (1.0 + r) == price + price * r;
    assert price * r == price * pct / 100.0;
  }

  /** `update_levels`: only the stop ever moves. */
  function Updated(model: ExitModel, entryPrice: real, bar: Bar, stop: real, highest: real): Result<real, ExitError> {
    match model
    case FixedExit(_, _) => Ok(stop)
    case AtrExit(_, _) => Ok(stop)
    case BreakEvenExit(_, _, trigger) =>
      Ok(if highest >= entryPrice * (1.0 + trigger / 100.0) then Max(stop, entryPrice) else stop)
    case TrailingAtrExit(_, _, m) =>
      var atr := FirstPositive(bar.atrs);
      if atr.None? then Err(MissingAtr) else Ok(Max(stop, highest - m * atr.value))
  }

  /** Raising the stop after a day on which nothing was touched keeps it below the target. */
  lemma {:induction false} UpdateKeepsLevels(model: ExitModel, entryPrice: real, bar: Bar, stop: real, target: real,
      highest: real)
    requires model.Valid() && 0.0 < stop < target && entryPrice < target && highest < target
    ensures var u := Updated(model, entryPrice, bar, stop, highest);
      u.Ok? ==> stop <= u.value < target
    ensures Updated(model, entryPrice, bar, stop, highest).Err? <==>
      model.TrailingAtrExit? && FirstPositive(bar.atrs).None?
  {
    if model.TrailingAtrExit? && FirstPositive(bar.atrs).Some? {
      assert model.trailingMultiplier * FirstPositive(bar.atrs).value > 0.0;
    }
  }

  /** The price at which a break-even stop moves. */
  ghost function Trigger(entryPrice: real, pct: real): real { entryPrice + entryPrice * pct / 100.0 }

  lemma {:induction false} FixedUpdate(model: ExitModel, entryPrice: real, bar: Bar, stop: real, highest: real)
    requires model.FixedExit? || model.AtrExit?
    ensures Updated(model, entryPrice, bar, stop, highest) == Ok(stop)
  {
  }

  /** A break-even stop is raised to the entry price once the highest price reached the trigger, and stays before. */
  lemma {:induction false} BreakEvenUpdate(model: ExitModel, entryPrice: real, bar: Bar, stop: real, highest: real)
    requires model.BreakEvenExit?
    ensures var u := Updated(model, entryPrice, bar, stop, highest);
      u.Ok? && stop <= u.value
        && if highest >= Trigger(entryPrice, model.triggerPct)
           then entryPrice <= u.value && (u.value == stop || u.value == entryPrice) else u.value == stop
  {
    PercentOf(entryPrice, model.triggerPct);
  }

  /** A trailing stop is raised to the highest price less its distance, and fails without an ATR. */
  lemma {:induction false} TrailingUpdate(model: ExitModel, entryPrice: real, bar: Bar, stop: real, highest: real)
    requires model.TrailingAtrExit?
    ensures var u := Updated(model, entryPrice, bar, stop, highest);
      && (u.Err? <==> forall atr :: !HasAtr(bar, atr)) && (u.Err? ==> u == Err(MissingAtr))
      && forall atr | HasAtr(bar, atr) ::
           var trail := highest - Distance(model.trailingMultiplier, atr);
           u.Ok? && stop <= u.value && trail <= u.value && (u.value == stop || u.value == trail)
  {
    AtrIs(bar);
    hide FirstPositive, HasAtr;
    var found := FirstPositive(bar.atrs);
    if found.Some? {
      assert Updated(model, entryPrice, bar, stop, highest) ==
        Ok(Max(stop, highest - Distance(model.trailingMultiplier, found.value)));
    }
  }

  // ----------------------------------------------------------------- the exit of a day

  predicate Touched(bar: Bar, l: Levels) {
    bar.open <= l.stop || bar.open >= l.target || bar.low <= l.stop || bar.high >= l.target
  }

  /** What a touched level does on its day: gaps first, then the stop before the target. */
  function ExitOn(i: nat, bar: Bar, l: Levels): (r: ExitResult)
    requires Touched(bar, l)
    ensures r.index == i && r.stop == l.stop && r.target == l.target && !r.reason.TimeExit?
  {
    if bar.open <= l.stop then ExitResult(i, bar.open, l.stop, l.target, StopLoss, StopGap)
    else if bar.open >= l.target then ExitResult(i, bar.open, l.stop, l.target, TakeProfit, TargetGap)
    else if bar.low <= l.stop && bar.high >= l.target
      then ExitResult(i, l.stop, l.stop, l.target, StopLoss, SameDayStopFirst)
    else if bar.low <= l.stop then ExitResult(i, l.stop, l.stop, l.target, StopLoss, Normal)
    else ExitResult(i, l.target, l.stop, l.target, TakeProfit, Normal)
  }

  /** A target exit means the stop was not touched at the open or, unless the open gapped over the
      target, all day. Stops never fill above their level, targets never below. */
  lemma {:induction false} StopBeforeTarget(i: nat, bar: Bar, l: Levels)
    requires Touched(bar, l) && l.stop < l.target
    ensures var r := ExitOn(i, bar, l);
      && (r.reason.TakeProfit? <==> bar.open >= l.target || (bar.open > l.stop && bar.low > l.stop))
      && (r.reason.StopLoss? ==> r.price <= l.stop) && (r.reason.TakeProfit? ==> r.price >= l.target)
      && (r.execution.StopGap? || r.execution.TargetGap? <==>
        r.price == bar.open && (bar.open <= l.stop || bar.open >= l.target))
      && (r.execution.SameDayStopFirst? <==>
            l.stop < bar.open < l.target && bar.low <= l.stop && bar.high >= l.target && r.price == l.stop)
      && (r.execution.StopGap? ==> r.reason.StopLoss?) && (r.execution.TargetGap? ==> r.reason.TakeProfit?)
      && (l.stop < bar.open < l.target ==> r.price == if r.reason.StopLoss? then l.stop else l.target)
  {
  }

  /** A day leaves the trade open exactly when all its prices stay strictly between the levels. */
  lemma {:induction false} Survived(bar: Bar, l: Levels)
    ensures !Touched(bar, l) <==> l.stop < bar.open < l.target && l.stop < bar.low && bar.high < l.target
  {
  }

  // ------------------------------------------------------- the levels in force, day by day

  /** Highest price seen from the entry up to and excluding bar `i`. */
  function Highest(bars: seq<Bar>, entry: nat, i: nat): (h: real)
    requires entry <= i <= |bars| && entry < |bars|
    ensures h >= bars[entry].open && forall k | entry <= k < i :: bars[k].high <= h
    ensures h == bars[entry].open || exists k :: entry <= k < i && h == bars[k].high
    decreases i
  {
    if i == entry then bars[entry].open else Max(Highest(bars, entry, i - 1), bars[i - 1].high)
  }

  /** The stop in force on bar `i`: the initial stop, moved after each day held. */
  function StopOn(bars: seq<Bar>, entry: nat, model: ExitModel, initial: real, i: nat): Result<real, ExitError>
    requires entry <= i <= |bars| && entry < |bars|
    decreases i
  {
    if i == entry then Ok(initial)
    else match StopOn(bars, entry, model, initial, i - 1)
      case Err(e) => Err(e)
      case Ok(stop) => Updated(model, bars[entry].open, bars[i - 1], stop, Highest(bars, entry, i))
  }

  /** Held through all bars before `i`: none of them touched the level in force on it. */
  ghost predicate HeldUntil(bars: seq<Bar>, entry: nat, model: ExitModel, l: Levels, i: nat)
    requires entry <= i <= |bars| && entry < |bars|
    decreases i
  {
    i > entry ==>
      && HeldUntil(bars, entry, model, l, i - 1)
      && StopOn(bars, entry, model, l.stop, i - 1).Ok?
      && !Touched(bars[i - 1], Levels(StopOn(bars, entry, model, l.stop, i - 1).value, l.target))
  }

  lemma {:induction false} HeldAt(bars: seq<Bar>, entry: nat, model: ExitModel, l: Levels, i: nat, k: nat)
    requires entry <= k < i <= |bars| && HeldUntil(bars, entry, model, l, i)
    ensures HeldUntil(bars, entry, model, l, k) && StopOn(bars, entry, model, l.stop, k).Ok?
    ensures !Touched(bars[k], Levels(StopOn(bars, entry, model, l.stop, k).value, l.target))
    decreases i
  {
    hide Updated;
    if k < i - 1 { HeldAt(bars, entry, model, l, i - 1, k); }
  }

  /** While a trade is held its stop never decreases and stays positive and below the target; only a
      trailing model that finds no ATR has none. */
  lemma {:induction false} StopRises(bars: seq<Bar>, entry: nat, model: ExitModel, l: Levels, i: nat)
    requires entry <= i <= |bars| && entry < |bars| && model.Valid() && 0.0 < l.stop < l.target
    requires HeldUntil(bars, entry, model, l, i)
    ensures var s := StopOn(bars, entry, model, l.stop, i);
      && (s.Ok? ==> l.stop <= s.value < l.target)
      && (s.Ok? && i > entry ==>
        StopOn(bars, entry, model, l.stop, i - 1).Ok? && StopOn(bars, entry, model, l.stop, i - 1).value <= s.value)
      && (s.Err? <==> i > entry && model.TrailingAtrExit? && FirstPositive(bars[i - 1].atrs).None?)
    ensures i > entry ==> Highest(bars, entry, i) < l.target && bars[entry].open < l.target
    decreases i
  {
    hide Updated;
    if i > entry {
      StopRises(bars, entry, model, l, i - 1);
      var stop := StopOn(bars, entry, model, l.stop, i - 1).value;
      assert bars[entry].open < l.target;
      UpdateKeepsLevels(model, bars[entry].open, bars[i - 1], stop, l.target, Highest(bars, entry, i));
    }
  }

  /** Once a day reached the trigger, a break-even stop is at or above the entry price for good; until then it is the
      initial one. */
  lemma {:induction false} BreakEvenHolds(bars: seq<Bar>, entry: nat, model: ExitModel, initial: real, i: nat)
    requires entry < i <= |bars| && model.BreakEvenExit?
    ensures var s, e := StopOn(bars, entry, model, initial, i), bars[entry].open;
      var reached := e >= Trigger(e, model.triggerPct)
                     || exists k :: entry <= k < i && bars[k].high >= Trigger(e, model.triggerPct);
      s.Ok? && initial <= s.value && if reached then e <= s.value else s.value == initial
    decreases i
  {
    hide Updated, Trigger;
    var e := bars[entry].open;
    BreakEvenUpdate(model, e, bars[i - 1], if i == entry + 1 then initial else
      (BreakEvenHolds(bars, entry, model, initial, i - 1); StopOn(bars, entry, model, initial, i - 1).value),
                    Highest(bars, entry, i));
  }

  /** A trailing stop stays within its distance, by the ATR of any past day, of every price up to that day. */
  lemma {:induction false} TrailingFollows(bars: seq<Bar>, entry: nat, model: ExitModel, initial: real, i: nat, k: nat,
      atr: real)
    requires entry <= k < i <= |bars| && model.TrailingAtrExit? && HasAtr(bars[k], atr)
    requires StopOn(bars, entry, model, initial, i).Ok?
    ensures var s, distance := StopOn(bars, entry, model, initial, i).value, Distance(model.trailingMultiplier, atr);
      && s >= bars[entry].open - distance && forall d | entry <= d <= k :: s >= bars[d].high - distance
    decreases i
  {
    hide Updated, Distance, HasAtr;
    var before := StopOn(bars, entry, model, initial, i - 1);
    TrailingUpdate(model, bars[entry].open, bars[i - 1], before.value, Highest(bars, entry, i));
    if k < i - 1 {
      TrailingFollows(bars, entry, model, initial, i - 1, k, atr);
      TrailingNeverFalls(model, bars[entry].open, bars[i - 1], before.value, Highest(bars, entry, i));
    }
  }

  lemma {:induction false} TrailingNeverFalls(model: ExitModel, entryPrice: real, bar: Bar, stop: real, highest: real)
    requires model.TrailingAtrExit? && Updated(model, entryPrice, bar, stop, highest).Ok?
    ensures stop <= Updated(model, entryPrice, bar, stop, highest).value
  {
  }

  // ------------------------------------------------------------------------ the walk

  /** What an exit means: some first touched bar within the holding period, or the last bar's close. */
  ghost predicate Means(bars: seq<Bar>, entry: nat, final: nat, model: ExitModel, l: Levels,
      r: Result<ExitResult, ExitError>)
    requires entry <= final < |bars|
  {
    match r
    case Ok(x) =>
      && entry <= x.index <= final && HeldUntil(bars, entry, model, l, x.index)
      && StopOn(bars, entry, model, l.stop, x.index).Ok?
      && var stop := StopOn(bars, entry, model, l.stop, x.index).value;
        if Touched(bars[x.index], Levels(stop, l.target))
          then x == ExitOn(x.index, bars[x.index], Levels(stop, l.target))
        else
          && x.index == final && StopOn(bars, entry, model, l.stop, final + 1).Ok?
          && x == ExitResult(final, bars[final].close, StopOn(bars, entry, model, l.stop, final + 1).value, l.target,
            TimeExit, Normal)
    case Err(e) =>
      e.MissingAtr? && model.TrailingAtrExit?
      && exists i ::
        entry < i <= final + 1 && HeldUntil(bars, entry, model, l, i) && FirstPositive(bars[i - 1].atrs).None?
  }

  /** `_simulate_exit`. The errors inside the loop are unreachable: after valid initial levels the only
      failure is a trailing model without ATR on a bar it survived. */
  method SimulateExit(bars: seq<Bar>, entry: nat, maxHolding: nat, model: ExitModel, level: Option<Bar>)
      returns (r: Result<ExitResult, ExitError>)
    requires entry < |bars| && model.Valid()
    ensures var levels := InitialLevels(model, bars[entry].open, if level.Some? then level.value else bars[entry]);
      match levels
      case Err(e) => r == Err(e)
      case Ok(l) =>
        if l.stop <= 0.0 then r == Err(InitialStop)
        else if l.target <= l.stop then r == Err(InitialTarget)
        else Means(bars, entry, Min(entry + maxHolding, |bars| - 1), model, l, r)
  {
    hide InitialLevels;
    var levels := InitialLevels(model, bars[entry].open, if level.Some? then level.value else bars[entry]);
    if levels.Err? { return Err(levels.error); }
    if levels.value.stop <= 0.0 { return Err(InitialStop); }
    if levels.value.target <= levels.value.stop { return Err(InitialTarget); }
    r := Walk(bars, entry, Min(entry + maxHolding, |bars| - 1), model, levels.value);
  }

  method Walk(bars: seq<Bar>, entry: nat, final: nat, model: ExitModel, l: Levels)
      returns (r: Result<ExitResult, ExitError>)
    requires entry <= final < |bars| && model.Valid() && 0.0 < l.stop < l.target
    ensures Means(bars, entry, final, model, l, r)
  {
    hide Updated;
    var stop, target, highest := l.stop, l.target, bars[entry].open;
    for i := entry to final + 1
      invariant HeldUntil(bars, entry, model, l, i)
      invariant StopOn(bars, entry, model, l.stop, i) == Ok(stop) && target == l.target
      invariant highest == Highest(bars, entry, i)
    {
      var day := ExitDuring(i, bars[i], Levels(stop, target));
      if day.Some? { return Ok(day.value); }
      highest := Max(highest, bars[i].high);
      StopRises(bars, entry, model, l, i);
      StopRises(bars, entry, model, l, i + 1);
      var updated := Updated(model, bars[entry].open, bars[i], stop, highest);
      if updated.Err? { return Err(MissingAtr); }
      stop := updated.value;
      if stop <= 0.0 { return Err(StopNotPositive); }
      if target <= stop { return Err(TargetNotAboveStop); }
    }
    return Ok(ExitResult(final, bars[final].close, stop, target, TimeExit, Normal));
  }

  method ExitDuring(i: nat, bar: Bar, l: Levels) returns (r: Option<ExitResult>)
    ensures r == if Touched(bar, l) then Some(ExitOn(i, bar, l)) else None
  {
    if bar.open <= l.stop { return Some(ExitResult(i, bar.open, l.stop, l.target, StopLoss, StopGap)); }
    if bar.open >= l.target { return Some(ExitResult(i, bar.open, l.stop, l.target, TakeProfit, TargetGap)); }
    var hitStop, hitTarget := bar.low <= l.stop, bar.high >= l.target;
    if hitStop && hitTarget { return Some(ExitResult(i, l.stop, l.stop, l.target, StopLoss, SameDayStopFirst)); }
    if hitStop { return Some(ExitResult(i, l.stop, l.stop, l.target, StopLoss, Normal)); }
    if hitTarget { return Some(ExitResult(i, l.target, l.stop, l.target, TakeProfit, Normal)); }
    return None;
  }

  /** What a caller can rely on: the final stop is never below the initial one and stays below the
      target, fills never beat their level, and no earlier bar reached either initial level. */
  lemma {:induction false} ExitSound(bars: seq<Bar>, entry: nat, final: nat, model: ExitModel, l: Levels, r: ExitResult)
    requires entry <= final < |bars| && model.Valid() && 0.0 < l.stop < l.target
    requires Means(bars, entry, final, model, l, Ok(r))
    ensures l.stop <= r.stop < r.target == l.target
    ensures (r.reason.StopLoss? ==> r.price <= r.stop) && (r.reason.TakeProfit? ==> r.price >= r.target)
    ensures r.reason.TimeExit? ==> r.index == final && bars[final].low > l.stop && bars[final].high < l.target
    ensures forall k | entry <= k < r.index :: bars[k].low > l.stop && bars[k].high < l.target
  {
    hide Updated;
    StopRises(bars, entry, model, l, r.index);
    if r.reason.TimeExit? {
      assert HeldUntil(bars, entry, model, l, final + 1);
      StopRises(bars, entry, model, l, final + 1);
    }
    forall k | entry <= k < r.index
      ensures bars[k].low > l.stop && bars[k].high < l.target
    {
      HeldAt(bars, entry, model, l, r.index, k);
      StopRises(bars, entry, model, l, k);
    }
  }

  // ----------------------------------------------------------------------- causality

  lemma {:induction false} SamePast(bars: seq<Bar>, other: seq<Bar>, entry: nat, model: ExitModel, l: Levels, n: nat,
      i: nat)
    requires entry <= i <= n <= |bars| && n <= |other| && entry < n && bars[..n] == other[..n]
    ensures Highest(bars, entry, i) == Highest(other, entry, i)
    ensures StopOn(bars, entry, model, l.stop, i) == StopOn(other, entry, model, l.stop, i)
    ensures HeldUntil(bars, entry, model, l, i) == HeldUntil(other, entry, model, l, i)
    decreases i
  {
    hide Updated;
    assert bars[entry] == bars[..n][entry] == other[..n][entry] == other[entry];
    if i > entry {
      assert bars[i - 1] == bars[..n][i - 1] == other[..n][i - 1] == other[i - 1];
      SamePast(bars, other, entry, model, l, n, i - 1);
    }
  }

  /** A bar that touched its level, or had none, was not survived. */
  lemma {:induction false} NotSurvived(bars: seq<Bar>, entry: nat, model: ExitModel, l: Levels, i: nat, j: nat)
    requires entry <= i <= |bars| && entry <= j <= |bars| && entry < |bars| && HeldUntil(bars, entry, model, l, j)
    requires var s := StopOn(bars, entry, model, l.stop, i);
      s.Err? || (i < |bars| && Touched(bars[i], Levels(s.value, l.target)))
    ensures j <= i
  {
    hide Updated;
    if i < j { HeldAt(bars, entry, model, l, j, i); }
  }

  /** The meaning fixes the result. */
  lemma {:induction false} MeansOnce(bars: seq<Bar>, entry: nat, final: nat, model: ExitModel, l: Levels,
      r: Result<ExitResult, ExitError>, s: Result<ExitResult, ExitError>)
    requires entry <= final < |bars| && model.Valid() && 0.0 < l.stop < l.target
    requires Means(bars, entry, final, model, l, r) && Means(bars, entry, final, model, l, s)
    ensures r == s
  {
    hide Updated, Touched, ExitOn;
    if r.Ok? && s.Ok? {
      var i, j := r.value.index, s.value.index;
      var a, b := StopOn(bars, entry, model, l.stop, i), StopOn(bars, entry, model, l.stop, j);
      if Touched(bars[i], Levels(a.value, l.target)) { NotSurvived(bars, entry, model, l, i, j); }
      if Touched(bars[j], Levels(b.value, l.target)) { NotSurvived(bars, entry, model, l, j, i); }
    } else if s.Ok? {
      var i := ErrorAt(bars, entry, final, model, l, r);
      NoExitAfterError(bars, entry, final, model, l, i, s.value);
    } else if r.Ok? {
      var i := ErrorAt(bars, entry, final, model, l, s);
      NoExitAfterError(bars, entry, final, model, l, i, r.value);
    }
  }

  /** A walk that ran into a missing stop has no exit. */
  lemma {:induction false} NoExitAfterError(bars: seq<Bar>, entry: nat, final: nat, model: ExitModel, l: Levels,
      i: nat, x: ExitResult)
    requires entry <= i <= final + 1 <= |bars| && entry <= final
    requires HeldUntil(bars, entry, model, l, i) && StopOn(bars, entry, model, l.stop, i).Err?
    ensures !Means(bars, entry, final, model, l, Ok(x))
  {
    hide Updated, Touched, ExitOn;
    if entry <= x.index <= final && HeldUntil(bars, entry, model, l, x.index) {
      NotSurvived(bars, entry, model, l, i, x.index);
      var s := StopOn(bars, entry, model, l.stop, x.index);
      if s.Ok? && Touched(bars[x.index], Levels(s.value, l.target)) { NotSurvived(bars, entry, model, l, x.index, i); }
    }
  }

  lemma {:induction false} ErrorAt(bars: seq<Bar>, entry: nat, final: nat, model: ExitModel, l: Levels,
      e: Result<ExitResult, ExitError>) returns (i: nat)
    requires entry <= final < |bars| && model.Valid() && 0.0 < l.stop < l.target && e.Err?
    requires Means(bars, entry, final, model, l, e)
    ensures entry < i <= final + 1 && HeldUntil(bars, entry, model, l, i) && StopOn(bars, entry, model, l.stop, i).Err?
  {
    hide Updated;
    i :| entry < i <= final + 1 && HeldUntil(bars, entry, model, l, i) && FirstPositive(bars[i - 1].atrs).None?;
    StopRises(bars, entry, model, l, i);
  }

  /** Later bars change nothing: an exit at a level, or at the end of the full holding period, is the
      exit of every price history that agrees up to the exit bar. */
  lemma {:induction false} ExitIsCausal(bars: seq<Bar>, other: seq<Bar>, entry: nat, maxHolding: nat,
      model: ExitModel, l: Levels,
      r: ExitResult, s: Result<ExitResult, ExitError>)
    requires entry < |bars| && model.Valid() && 0.0 < l.stop < l.target
    requires Means(bars, entry, Min(entry + maxHolding, |bars| - 1), model, l, Ok(r))
    requires !r.reason.TimeExit? || r.index == entry + maxHolding
    requires r.index < |other| && bars[..r.index + 1] == other[..r.index + 1]
    requires Means(other, entry, Min(entry + maxHolding, |other| - 1), model, l, s)
    ensures s == Ok(r)
  {
    hide Updated, Touched, ExitOn;
    var n, final := r.index + 1, Min(entry + maxHolding, |other| - 1);
    SamePast(bars, other, entry, model, l, n, n);
    SamePast(bars, other, entry, model, l, n, r.index);
    assert bars[r.index] == bars[..n][r.index] == other[..n][r.index] == other[r.index];
    assert Means(other, entry, final, model, l, Ok(r));
    MeansOnce(other, entry, final, model, l, Ok(r), s);
  }
}
