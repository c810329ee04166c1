/** Causal breadth: per-symbol exponential averages, and the share of symbols above theirs each day. */
module HistoricalBreadth {
  import opened MarketTypes
  import opened StableSort
  import opened DatabaseCoverage
  import Ranking

  const EMA_SPAN := 50.0
  const MIN_HISTORY_SESSIONS: nat := 50
  const CHANGE_ROWS: nat := 10

  /** One deduplicated closing price. */
  datatype Close = Close(symbol: Symbol, date: Session, price: real)

  /** A close with the symbol's history count and average including it. */
  datatype Point = Point(symbol: Symbol, price: real, history: nat, ema: real)

  /** Rows come by symbol, each symbol in date order, one row a date. */
  ghost predicate InOrder(rows: seq<Close>) {
    forall i, j | 0 <= i < j < |rows| && rows[i].symbol == rows[j].symbol :: rows[i].date < rows[j].date
  }

  function Blend(price: real, previous: real): real {
    2.0 / (EMA_SPAN + 1.0) * price + (1.0 - 2.0 / (EMA_SPAN + 1.0)) * previous
  }

  ghost function EmaOf(rows: seq<Close>, y: Symbol): (e: Option<real>)
    ensures rows != [] && rows[|rows| - 1].symbol == y ==> e.Some?
  {
    if rows == [] then None
    else
      var before, last := EmaOf(rows[..|rows| - 1], y), rows[|rows| - 1];
      if last.symbol != y then before else Some(if before.None? then last.price else Blend(last.price, before.value))
  }

  ghost function HistoryOf(rows: seq<Close>, y: Symbol): nat {
    if rows == [] then 0 else HistoryOf(rows[..|rows| - 1], y) + if rows[|rows| - 1].symbol == y then 1 else 0
  }

  ghost function PointsOn(rows: seq<Close>, d: Session): seq<Point> {
    if rows == [] then []
    else
      var n, last := |rows| - 1, rows[|rows| - 1];
      PointsOn(rows[..n], d) + if last.date == d
        then [Point(last.symbol, last.price, HistoryOf(rows, last.symbol), EmaOf(rows, last.symbol).value)] else []
  }

  /** An average lies between any bounds on the symbol's closes so far, so between the least and the greatest. */
  lemma {:induction false} EmaBetween(rows: seq<Close>, y: Symbol, low: real, high: real)
    requires forall i | 0 <= i < |rows| && rows[i].symbol == y :: low <= rows[i].price <= high
    ensures EmaOf(rows, y).Some? ==> low <= EmaOf(rows, y).value <= high
  {
    if rows != [] { EmaBetween(rows[..|rows| - 1], y, low, high); }
  }

  // ------------------------------------------------------------------ the first loop

  /** The running averages and counts, and the points filed by date. */
  method AnnotateRows(rows: seq<Close>) returns (byDate: map<Session, seq<Point>>)
    ensures forall d :: (d in byDate <==> PointsOn(rows, d) != []) && (d in byDate ==> byDate[d] == PointsOn(rows, d))
  {
    byDate := map[];
    var previous: map<Symbol, real>, history: map<Symbol, nat> := map[], map[];
    for i := 0 to |rows|
      invariant forall y ::
        (y in previous <==> EmaOf(rows[..i], y).Some?) && (y in previous ==> EmaOf(rows[..i], y) == Some(previous[y]))
      invariant forall y :: HistoryOf(rows[..i], y) == if y in history then history[y] else 0
      invariant forall d ::
        (d in byDate <==> PointsOn(rows[..i], d) != []) && (d in byDate ==> byDate[d] == PointsOn(rows[..i], d))
    {
      RowStep(rows, i);
      var row := rows[i];
      var ema := if row.symbol in previous then Blend(row.price, previous[row.symbol]) else row.price;
      previous := previous[row.symbol := ema];
      history := history[row.symbol := (if row.symbol in history then history[row.symbol] else 0) + 1];
      byDate := byDate[row.date := (if row.date in byDate then byDate[row.date]
        else []) + [Point(row.symbol, row.price, history[row.symbol], ema)]];
    }
    assert rows[..|rows|] == rows;
  }

  lemma {:induction false} RowStep(rows: seq<Close>, i: nat)
    requires i < |rows|
    ensures var row, before, now := rows[i], rows[..i], rows[..i + 1];
      && (forall y :: EmaOf(now, y) == if y != row.symbol then EmaOf(before, y)
            else Some(if EmaOf(before, y).None? then row.price else Blend(row.price, EmaOf(before, y).value)))
      && (forall y :: HistoryOf(now, y) == HistoryOf(before, y) + if y == row.symbol then 1 else 0)
      && forall d :: PointsOn(now, d) == PointsOn(before, d)
           + if row.date == d then [Point(row.symbol, row.price, HistoryOf(now, row.symbol),
             EmaOf(now, row.symbol).value)] else []
  {
    assert rows[..i + 1][..i] == rows[..i] && rows[..i + 1][i] == rows[i];
  }

  // ----------------------------------------------------------------- the second loop

  datatype Breadth = Breadth(date: Session, pct: real, universe: nat)

  /** `change` is missing (NaN) for the first rows; a snapshot is valid if it has one. */
  datatype Snapshot = Snapshot(date: Session, pct: real, change: Option<real>, universe: nat)
  {
    predicate Valid() { change.Some? }
  }

  predicate Counted(p: Point, members: set<Symbol>) { p.symbol in members && p.history >= MIN_HISTORY_SESSIONS }

  function Universe(points: seq<Point>, members: set<Symbol>): (n: nat) {
    if points == [] then 0 else Universe(points[..|points| - 1], members) + if Counted(points[|points| - 1], members)
      then 1 else 0
  }

  function Above(points: seq<Point>, members: set<Symbol>): (n: nat)
    ensures n <= Universe(points, members)
  {
    if points == [] then 0
    else
      var p := points[|points| - 1];
      Above(points[..|points| - 1], members) + if Counted(p, members) && p.price > p.ema then 1 else 0
  }

  function Percentage(above: nat, universe: nat): (pct: real)
    requires 0 < universe && above <= universe
    ensures 0.0 <= pct <= 100.0
  {
    Ranking.QuotientBounds(above as real, universe as real);
    above as real / universe as real * 100.0
  }

  /** The breadth rows of ascending dates: dates without a counted symbol produce none. */
  ghost function Produced(rows: seq<Close>, dates: seq<Session>, members: Session -> set<Symbol>): seq<Breadth> {
    if dates == [] then []
    else
      var d := dates[|dates| - 1];
      Produced(rows, dates[..|dates| - 1], members) + BreadthOn(PointsOn(rows, d), d, members(d))
  }

  function BreadthOn(points: seq<Point>, d: Session, members: set<Symbol>): (r: seq<Breadth>)
    ensures |r| <= 1 && forall k | 0 <= k < |r| :: r[k].date == d && 0.0 <= r[k].pct <= 100.0
  {
    var n := Universe(points, members);
    if n == 0 then [] else [Breadth(d, Percentage(Above(points, members), n), n)]
  }

  /** The average moves two parts in fifty-one towards each new close. */
  lemma {:induction false} BlendExactly(price: real, previous: real)
    ensures 51.0 * Blend(price, previous) == 2.0 * price + 49.0 * previous
  {
  }

  /** The points that count: members with at least fifty closes. */
  ghost function CountedPlaces(points: seq<Point>, members: set<Symbol>): set<nat> {
    set k: nat | k < |points| && points[k].symbol in members && points[k].history >= 50
  }

  /** Those that closed above their average. */
  ghost function HighPlaces(points: seq<Point>, members: set<Symbol>): set<nat> {
    set k: nat | k < |points| && points[k].symbol in members && points[k].history >= 50
      && points[k].price > points[k].ema
  }

  lemma {:induction false} PlacesStep(points: seq<Point>, members: set<Symbol>)
    requires points != []
    ensures var n := |points| - 1; var counted, high := CountedPlaces(points[..n], members),
        HighPlaces(points[..n], members);
      && n !in counted && n !in high
      && CountedPlaces(points, members) == (if Counted(points[n], members) then counted + {n} else counted)
      && HighPlaces(points, members) ==
           if Counted(points[n], members) && points[n].price > points[n].ema then high + {n} else high
  {
    var n := |points| - 1;
    assert forall k | 0 <= k < n :: points[..n][k] == points[k];
    assert forall k: nat :: k in CountedPlaces(points, members) <==>
      k in CountedPlaces(points[..n], members) || (k == n && Counted(points[n], members));
    assert forall k: nat :: k in HighPlaces(points, members) <==>
      k in HighPlaces(points[..n], members)
      || (k == n && Counted(points[n], members) && points[n].price > points[n].ema);
  }

  lemma {:induction false} CountsExactly(points: seq<Point>, members: set<Symbol>)
    ensures Universe(points, members) == |CountedPlaces(points, members)|
    ensures Above(points, members) == |HighPlaces(points, members)|
  {
    if points != [] {
      PlacesStep(points, members);
      CountsExactly(points[..|points| - 1], members);
      hide CountedPlaces, HighPlaces, Counted;
    }
  }

  /** The breadth of a day: none without a counted symbol, else the percentage of the counted symbols that closed
      above their average. */
  lemma {:induction false} BreadthExactly(points: seq<Point>, d: Session, members: set<Symbol>)
    ensures var counted, r := CountedPlaces(points, members), BreadthOn(points, d, members);
      && (r == [] <==> counted == {})
      && (counted != {} ==>
            && |r| == 1 && r[0].date == d && r[0].universe == |counted|
            && r[0].pct * |counted| as real == 100.0 * |HighPlaces(points, members)| as real)
  {
    CountsExactly(points, members);
    hide CountedPlaces, HighPlaces, Above, Universe;
    if Universe(points, members) > 0 { PercentageIs(Above(points, members), Universe(points, members)); }
  }

  lemma {:induction false} PercentageIs(above: nat, universe: nat)
    requires 0 < universe && above <= universe
    ensures Percentage(above, universe) * universe as real == 100.0 * above as real
  {
    var share := above as real / universe as real;
    assert share * universe as real == above as real;
    assert share * 100.0 * universe as real == 100.0 * (share * universe as real);
  }

  function Change(now: real, earlier: Option<real>): Option<real> {
    if earlier.None? then None else Some(now - earlier.value)
  }

  /** The share ten produced rows before row `k`. */
  function Earlier(produced: seq<Breadth>, k: nat): Option<real>
    requires k <= |produced|
  {
    if k >= CHANGE_ROWS then Some(produced[k - CHANGE_ROWS].pct) else None
  }

  function SnapshotOf(produced: seq<Breadth>, k: nat): Snapshot
    requires k < |produced|
  {
    var b := produced[k];
    Snapshot(b.date, b.pct, Change(b.pct, Earlier(produced, k)), b.universe)
  }

  /** The change of a row is the difference to the tenth produced row before it, and missing without one. */
  lemma {:induction false} ChangeExactly(produced: seq<Breadth>, k: nat)
    requires k < |produced|
    ensures SnapshotOf(produced, k) ==
      Snapshot(produced[k].date, produced[k].pct, if k < 10 then None else Some(produced[k].pct - produced[k - 10].pct),
        produced[k].universe)
  {
  }

  ghost predicate Before(produced: seq<Breadth>, d: Session) { forall k | 0 <= k < |produced| :: produced[k].date < d }

  ghost predicate HasDate(produced: seq<Breadth>, s: Session) {
    exists k :: 0 <= k < |produced| && produced[k].date == s
  }

  /** The snapshots of the produced rows inside the requested range, and no others. */
  ghost predicate SnapshotsOf(snapshots: map<Session, Snapshot>, produced: seq<Breadth>, start: Session, end: Session) {
    && (forall s :: s in snapshots <==> start <= s <= end && HasDate(produced, s))
    && forall k | 0 <= k < |produced| && start <= produced[k].date <= end ::
      snapshots[produced[k].date] == SnapshotOf(produced, k)
  }

  lemma {:induction false} ProducedStep(rows: seq<Close>, dates: seq<Session>, i: nat, members: Session -> set<Symbol>)
    requires i < |dates|
    ensures Produced(rows, dates[..i + 1], members) == Produced(rows, dates[..i],
      members) + BreadthOn(PointsOn(rows, dates[i]), dates[i], members(dates[i]))
  {
    assert dates[..i + 1][..i] == dates[..i] && dates[..i + 1][i] == dates[i];
  }

  /** Rows in date order, with dates among the given ones and shares in bounds. */
  ghost predicate Sound(p: seq<Breadth>, dates: seq<Session>) {
    && (forall k | 0 <= k < |p| :: p[k].date in dates && 0.0 <= p[k].pct <= 100.0)
    && forall j, k | 0 <= j < k < |p| :: p[j].date < p[k].date
  }

  lemma {:induction false} ProducedDates(rows: seq<Close>, dates: seq<Session>, members: Session -> set<Symbol>)
    requires Ascending(dates)
    ensures Sound(Produced(rows, dates, members), dates)
  {
    if dates != [] {
      var n := |dates| - 1;
      ProducedDates(rows, dates[..n], members);
      SoundOneMore(Produced(rows, dates[..n], members), dates,
        BreadthOn(PointsOn(rows, dates[n]), dates[n], members(dates[n])));
    }
  }

  lemma {:induction false} SoundOneMore(p: seq<Breadth>, dates: seq<Session>, more: seq<Breadth>)
    requires Ascending(dates) && dates != [] && Sound(p, dates[..|dates| - 1])
    requires |more| <= 1 && forall k | 0 <= k < |more| ::
      more[k].date == dates[|dates| - 1] && 0.0 <= more[k].pct <= 100.0
    ensures Sound(p + more, dates)
  {
    var n := |dates| - 1;
    forall s | s in dates[..n] ensures s < dates[n] && s in dates { var i :| 0 <= i < n && dates[..n][i] == s; }
    forall k | 0 <= k < |p| ensures (p + more)[k].date in dates && (p + more)[k].date < dates[n] {
      assert p[k].date in dates[..n];
    }
  }

  /** Breadth is in [0, 100] and its ten-row change in [-100, 100]. */
  lemma {:induction false} BreadthBounds(rows: seq<Close>, dates: seq<Session>, members: Session -> set<Symbol>,
      snapshots: map<Session, Snapshot>, start: Session, end: Session, s: Session)
    requires Ascending(dates) && SnapshotsOf(snapshots, Produced(rows, dates, members), start, end) && s in snapshots
    ensures 0.0 <= snapshots[s].pct <= 100.0
    ensures snapshots[s].Valid() ==> -100.0 <= snapshots[s].change.value <= 100.0
  {
    ProducedDates(rows, dates, members);
    var p := Produced(rows, dates, members);
    var k :| 0 <= k < |p| && p[k].date == s;
    assert snapshots[p[k].date] == SnapshotOf(p, k);
    assert 0.0 <= p[k].pct <= 100.0;
    if k >= CHANGE_ROWS { assert 0.0 <= p[k - CHANGE_ROWS].pct <= 100.0; }
  }

  /** The dates that carry rows, ascending. */
  ghost predicate DatesOfRows(dates: seq<Session>, rows: seq<Close>) {
    Ascending(dates) && forall d :: d in dates <==> PointsOn(rows, d) != []
  }

  /** `build_historical_breadth_index`, given the close rows and the membership of each date. */
  method BuildSnapshots(rows: seq<Close>, members: Session -> set<Symbol>, start: Session, end: Session)
    returns (snapshots: map<Session, Snapshot>, ghost dates: seq<Session>)
    ensures DatesOfRows(dates, rows) && SnapshotsOf(snapshots, Produced(rows, dates, members), start, end)
  {
    hide SnapshotsOf, SnapshotOf, Before, Shares, TenBack, Change, Percentage, Above, Universe;
    var byDate := AnnotateRows(rows);
    var order := SortDates(byDate.Keys);
    dates := order;
    var prior: seq<real> := [];
    ghost var produced: seq<Breadth> := [];
    snapshots := map[];
    NoSnapshots(start, end);
    assert Shares([]) == [];
    for i := 0 to |order|
      invariant produced == Produced(rows, order[..i], members)
      invariant prior == Shares(produced)
      invariant SnapshotsOf(snapshots, produced, start, end)
    {
      var d := order[i];
      ProducedStep(rows, order, i, members);
      assert d in order && byDate[d] == PointsOn(rows, d);
      var universe := Universe(byDate[d], members(d));
      if universe > 0 {
        var pct := Percentage(Above(byDate[d], members(d)), universe);
        var b := Breadth(d, pct, universe);
        var s := Snapshot(d, pct, Change(pct, TenBack(prior)), universe);
        LaterDate(rows, order, i, members);
        NewSnapshot(produced, b);
        SnapshotOneMore(snapshots, produced, b, s, start, end);
        prior, produced := prior + [pct], produced + [b];
        if start <= d <= end { snapshots := snapshots[d := s]; }
      }
    }
    assert order[..|order|] == order;
  }

  function TenBack(prior: seq<real>): Option<real> {
    if |prior| >= CHANGE_ROWS then Some(prior[|prior| - CHANGE_ROWS]) else None
  }

  function Shares(produced: seq<Breadth>): (r: seq<real>)
    ensures |r| == |produced|
  {
    if produced == [] then [] else Shares(produced[..|produced| - 1]) + [produced[|produced| - 1].pct]
  }

  lemma {:induction false} ShareAt(produced: seq<Breadth>, k: nat)
    requires k < |produced|
    ensures Shares(produced)[k] == produced[k].pct
  {
    if k < |produced| - 1 { ShareAt(produced[..|produced| - 1], k); }
  }

  lemma {:induction false} NewSnapshot(produced: seq<Breadth>, b: Breadth)
    ensures Shares(produced + [b]) == Shares(produced) + [b.pct]
    ensures SnapshotOf(produced + [b], |produced|) == Snapshot(b.date, b.pct,
      Change(b.pct, TenBack(Shares(produced))), b.universe)
  {
    hide Change;
    assert (produced + [b])[..|produced|] == produced;
    if |produced| >= CHANGE_ROWS { ShareAt(produced, |produced| - CHANGE_ROWS); }
  }

  lemma {:induction false} NoSnapshots(start: Session, end: Session)
    ensures SnapshotsOf(map[], [], start, end)
  {
  }

  lemma {:induction false} LaterDate(rows: seq<Close>, dates: seq<Session>, i: nat, members: Session -> set<Symbol>)
    requires Ascending(dates) && i < |dates|
    ensures Before(Produced(rows, dates[..i], members), dates[i])
  {
    ProducedDates(rows, dates[..i], members);
    var p := Produced(rows, dates[..i], members);
    forall k | 0 <= k < |p| ensures p[k].date in dates[..i] {}
    forall s | s in dates[..i] ensures s < dates[i] { var j :| 0 <= j < i && dates[..i][j] == s; }
  }

  lemma {:induction false} SnapshotOneMore(snapshots: map<Session, Snapshot>, produced: seq<Breadth>, b: Breadth,
      x: Snapshot, start: Session, end: Session)
    requires x == SnapshotOf(produced + [b], |produced|)
    requires SnapshotsOf(snapshots, produced, start, end) && Before(produced, b.date)
    ensures var now := produced + [b];
      SnapshotsOf(if start <= b.date <= end then snapshots[b.date := x] else snapshots, now, start, end)
  {
    var now, n := produced + [b], |produced|;
    var after := if start <= b.date <= end then snapshots[b.date := x] else snapshots;
    forall s
      ensures s in after <==> start <= s <= end && HasDate(now, s)
    {
      if s in snapshots {
        var k :| 0 <= k < n && produced[k].date == s;
        assert now[k].date == s;
      }
      if s in after && s !in snapshots { assert now[n].date == s; }
    }
    forall k | 0 <= k < |now| && start <= now[k].date <= end
      ensures after[now[k].date] == SnapshotOf(now, k)
    {
      if k < n { assert produced[k].date == now[k].date && SnapshotOf(produced, k) == SnapshotOf(now, k); }
    }
  }

  method SortDates(ds: set<Session>) returns (dates: seq<Session>)
    ensures Ascending(dates) && forall d :: d in dates <==> d in ds
  {
    dates := [];
    var rest := ds;
    while rest != {}
      invariant rest <= ds && Ascending(dates) && forall d :: d in dates <==> d in ds && d !in rest
      invariant forall d, e | d in dates && e in rest :: d < e
      decreases |rest|
    {
      var d := Least(rest);
      assert forall i | 0 <= i < |dates| :: dates[i] in dates;
      dates, rest := dates + [d], rest - {d};
    }
  }

  method Least(ds: set<Session>) returns (d: Session)
    requires ds != {}
    ensures d in ds && forall e | e in ds :: d <= e
  {
    ghost var x := PickOne(ds);
    d :| d in ds;
    var rest := ds - {d};
    while rest != {}
      invariant rest <= ds && d in ds && forall e | e in ds && e !in rest :: d <= e
      decreases |rest|
    {
      ghost var y := PickOne(rest);
      var e :| e in rest;
      if e < d { d := e; }
      rest := rest - {e};
    }
  }

  // ------------------------------------------------------------------------ causality

  function UpTo(d: Session): Close -> bool { (r: Close) => r.date <= d }

  lemma {:induction false} Appended(rows: seq<Close>, last: Close, y: Symbol)
    ensures EmaOf(rows + [last], y) == (if last.symbol != y then EmaOf(rows, y)
      else Some(if EmaOf(rows, y).None? then last.price else Blend(last.price, EmaOf(rows, y).value)))
    ensures HistoryOf(rows + [last], y) == HistoryOf(rows, y) + if last.symbol == y then 1 else 0
  {
    assert (rows + [last])[..|rows|] == rows;
  }

  /** Dropping the rows after a date leaves a symbol alone that has none. */
  lemma {:induction false} EmaKept(rows: seq<Close>, y: Symbol, d: Session)
    requires forall i | 0 <= i < |rows| && rows[i].symbol == y :: rows[i].date <= d
    ensures EmaOf(Filter(rows, UpTo(d)), y) == EmaOf(rows, y)
      && HistoryOf(Filter(rows, UpTo(d)), y) == HistoryOf(rows, y)
  {
    hide EmaOf, HistoryOf, Blend;
    if rows != [] {
      var n := |rows| - 1;
      var kept := Filter(rows[..n], UpTo(d));
      EmaKept(rows[..n], y, d);
      assert rows == rows[..n] + [rows[n]];
      Appended(rows[..n], rows[n], y);
      Appended(kept, rows[n], y);
      assert Filter(rows, UpTo(d)) == if rows[n].date <= d then kept + [rows[n]] else kept;
    }
  }

  lemma {:induction false} PointAppended(rows: seq<Close>, last: Close, d: Session)
    ensures PointsOn(rows + [last], d) == PointsOn(rows, d)
      + if last.date == d then [Point(last.symbol, last.price, HistoryOf(rows + [last], last.symbol),
        EmaOf(rows + [last], last.symbol).value)] else []
  {
    assert (rows + [last])[..|rows|] == rows;
  }

  /** The points of a day are those of the rows up to any later day. */
  lemma {:induction false} PointsKept(rows: seq<Close>, s: Session, d: Session)
    requires InOrder(rows) && s <= d
    ensures PointsOn(Filter(rows, UpTo(d)), s) == PointsOn(rows, s)
  {
    hide EmaOf, HistoryOf, Blend;
    if rows != [] {
      var n, last := |rows| - 1, rows[|rows| - 1];
      var kept := Filter(rows[..n], UpTo(d));
      PointsKept(rows[..n], s, d);
      assert rows == rows[..n] + [last];
      assert Filter(rows, UpTo(d)) == if last.date <= d then kept + [last] else kept;
      PointAppended(rows[..n], last, s);
      PointAppended(kept, last, s);
      if last.date <= d { EmaKept(rows, last.symbol, d); }
    }
  }

  lemma {:induction false} BelowTop(a: seq<int>, m: nat)
    requires Ascending(a) && |a| == m + 1
    ensures Ascending(a[..m]) && forall x :: x in a[..m] <==> x in a && x < a[m]
  {
    assert a == a[..m] + [a[m]];
    forall x | x in a[..m] ensures x < a[m] { var i :| 0 <= i < m && a[..m][i] == x; }
  }

  lemma {:induction false} TopIsGreatest(a: seq<int>, x: int)
    requires Ascending(a) && x in a
    ensures x <= a[|a| - 1]
  {
    var i :| 0 <= i < |a| && a[i] == x;
  }

  lemma {:induction false} SameSize(a: seq<int>, b: seq<int>)
    requires Ascending(a) && Ascending(b) && forall x :: x in a <==> x in b
    ensures |a| == |b|
  {
    assert (set x | x in a) == (set x | x in b);
    AscendingSize(a);
    AscendingSize(b);
  }

  lemma {:induction false} AscendingUnique(a: seq<int>, b: seq<int>)
    requires Ascending(a) && Ascending(b) && forall x :: x in a <==> x in b
    ensures a == b
    decreases |a|
  {
    hide Ascending;
    SameSize(a, b);
    if a != [] {
      var n := |a| - 1;
      TopIsGreatest(a, b[n]);
      TopIsGreatest(b, a[n]);
      BelowTop(a, n);
      BelowTop(b, n);
      AscendingUnique(a[..n], b[..n]);
      assert a == a[..n] + [a[n]] && b == b[..n] + [b[n]];
    }
  }

  lemma {:induction false} ProducedSame(rows: seq<Close>, other: seq<Close>, dates: seq<Session>,
      members: Session -> set<Symbol>, others: Session -> set<Symbol>)
    requires forall s | s in dates :: PointsOn(rows, s) == PointsOn(other, s) && members(s) == others(s)
    ensures Produced(rows, dates, members) == Produced(other, dates, others)
  {
    if dates != [] {
      var n := |dates| - 1;
      assert dates[n] in dates && forall s | s in dates[..n] :: s in dates;
      ProducedSame(rows, other, dates[..n], members, others);
    }
  }

  lemma {:induction false} PrefixGrows(p: seq<Breadth>, q: seq<Breadth>, more: seq<Breadth>, tail: seq<Session>,
      d: Session)
    requires |q| <= |p| && p[..|q|] == q && forall k | |q| <= k < |p| :: p[k].date in tail
    requires forall k | 0 <= k < |more| :: more[k].date == d
    ensures (p + more)[..|q|] == q && forall k | |q| <= k < |p + more| :: (p + more)[k].date in tail + [d]
  {
    forall k | |q| <= k < |p + more| ensures (p + more)[k].date in tail + [d] {
      assert k >= |p| ==> (p + more)[k] == more[k - |p|];
    }
  }

  /** The rows produced for the first dates come first. */
  lemma {:induction false} ProducedPrefix(rows: seq<Close>, dates: seq<Session>, n: nat,
      members: Session -> set<Symbol>)
    requires n <= |dates|
    ensures var p, q := Produced(rows, dates, members), Produced(rows, dates[..n], members);
      |q| <= |p| && p[..|q|] == q && forall k | |q| <= k < |p| :: p[k].date in dates[n..]
  {
    hide Produced, BreadthOn;
    if n == |dates| {
      assert dates[..n] == dates;
    } else {
      var m := |dates| - 1;
      ProducedStep(rows, dates, m, members);
      assert dates[..m + 1] == dates;
      var q, p := Produced(rows, dates[..n], members), Produced(rows, dates[..m], members);
      assert dates[..m][..n] == dates[..n] && dates[n..] == dates[..m][n..] + [dates[m]];
      ProducedPrefix(rows, dates[..m], n, members);
      PrefixGrows(p, q, BreadthOn(PointsOn(rows, dates[m]), dates[m], members(dates[m])), dates[..m][n..], dates[m]);
    }
  }

  /** Rows dated after a day change no snapshot up to that day. */
  lemma {:induction false} BreadthIsCausal(rows: seq<Close>, other: seq<Close>, dates: seq<Session>,
      otherDates: seq<Session>,
      members: Session -> set<Symbol>, others: Session -> set<Symbol>, d: Session, start: Session, end: Session,
      snapshots: map<Session, Snapshot>, otherSnapshots: map<Session, Snapshot>, s: Session)
    requires InOrder(rows) && InOrder(other) && Filter(rows, UpTo(d)) == Filter(other, UpTo(d))
    requires DatesOfRows(dates, rows) && DatesOfRows(otherDates, other)
    requires forall t | t <= d :: members(t) == others(t)
    requires SnapshotsOf(snapshots, Produced(rows, dates, members), start, end)
    requires SnapshotsOf(otherSnapshots, Produced(other, otherDates, others), start, end)
    requires s <= d
    ensures s in snapshots <==> s in otherSnapshots
    ensures s in snapshots ==> snapshots[s] == otherSnapshots[s]
  {
    var m, n := BisectRight(dates, d), BisectRight(otherDates, d);
    SameDates(rows, other, dates, otherDates, d);
    forall t | t in dates[..m] ensures PointsOn(rows, t) == PointsOn(other, t) && members(t) == others(t) {
      EarlyDates(dates, d, t);
      PointsKept(rows, t, d);
      PointsKept(other, t, d);
    }
    ProducedSame(rows, other, dates[..m], members, others);
    var p := Produced(rows, dates[..m], members);
    EarlySnapshot(rows, dates, members, d, start, end, snapshots, s);
    EarlySnapshot(other, otherDates, others, d, start, end, otherSnapshots, s);
  }

  lemma {:induction false} EarlyDates(dates: seq<Session>, d: Session, t: Session)
    requires Ascending(dates)
    ensures t in dates[..BisectRight(dates, d)] <==> t in dates && t <= d
  {
    if t in dates {
      var i :| 0 <= i < |dates| && dates[i] == t;
      assert i < BisectRight(dates, d) ==> dates[..BisectRight(dates, d)][i] == t;
    }
    if t in dates[..BisectRight(dates, d)] {
      var i :| 0 <= i < BisectRight(dates, d) && dates[i] == t;
    }
  }

  lemma {:induction false} SameDates(rows: seq<Close>, other: seq<Close>, dates: seq<Session>,
      otherDates: seq<Session>, d: Session)
    requires InOrder(rows) && InOrder(other) && Filter(rows, UpTo(d)) == Filter(other, UpTo(d))
    requires DatesOfRows(dates, rows) && DatesOfRows(otherDates, other)
    ensures dates[..BisectRight(dates, d)] == otherDates[..BisectRight(otherDates, d)]
  {
    forall t | t <= d ensures t in dates <==> t in otherDates {
      PointsKept(rows, t, d);
      PointsKept(other, t, d);
    }
    EarlyShared(dates, otherDates, d);
  }

  /** Snapshots up to a date come from the rows produced up to it. */
  lemma {:induction false} PrefixSnapshot(p: seq<Breadth>, q: seq<Breadth>, d: Session, start: Session, end: Session,
      snapshots: map<Session, Snapshot>, s: Session)
    requires SnapshotsOf(snapshots, p, start, end) && s <= d
    requires |q| <= |p| && p[..|q|] == q && forall k | |q| <= k < |p| :: p[k].date > d
    ensures s in snapshots <==> start <= s <= end && HasDate(q, s)
    ensures forall k | 0 <= k < |q| && q[k].date == s && s in snapshots :: snapshots[s] == SnapshotOf(q, k)
  {
    forall k | 0 <= k < |q| ensures p[k] == q[k] && SnapshotOf(p, k) == SnapshotOf(q, k) {
      assert forall i | 0 <= i < |q| :: p[i] == p[..|q|][i];
    }
    if s in snapshots {
      var k :| 0 <= k < |p| && p[k].date == s;
      assert q[k].date == s;
    }
    if k :| 0 <= k < |q| && q[k].date == s && start <= s <= end {
      assert p[k].date == s;
    }
  }

  lemma {:induction false} EarlySnapshot(rows: seq<Close>, dates: seq<Session>, members: Session -> set<Symbol>,
      d: Session, start: Session, end: Session,
      snapshots: map<Session, Snapshot>, s: Session)
    requires Ascending(dates) && SnapshotsOf(snapshots, Produced(rows, dates, members), start, end) && s <= d
    ensures var q := Produced(rows, dates[..BisectRight(dates, d)], members);
      && (s in snapshots <==> start <= s <= end && HasDate(q, s))
      && (forall k | 0 <= k < |q| && q[k].date == s && s in snapshots :: snapshots[s] == SnapshotOf(q, k))
  {
    hide SnapshotsOf, BreadthOn;
    var m := BisectRight(dates, d);
    var p, q := Produced(rows, dates, members), Produced(rows, dates[..m], members);
    ProducedPrefix(rows, dates, m, members);
    forall k | |q| <= k < |p| ensures p[k].date > d {
      assert p[k].date in dates[m..];
      var i :| 0 <= i < |dates| - m && dates[m..][i] == p[k].date;
      assert dates[m + i] > d;
    }
    PrefixSnapshot(p, q, d, start, end, snapshots, s);
  }

  // --------------------------------------------------------------------- the look-up

  datatype BreadthIndex = BreadthIndex(end: Session, sessionDates: seq<Session>, snapshots: map<Session, Snapshot>)
  {
    ghost predicate Valid() { Ascending(sessionDates) && forall s :: s in sessionDates <==> s in snapshots }
  }

  /** `snapshot_as_of`: the last snapshot up to a date; none (an invalid one) before the first. */
  function SnapshotAsOf(index: BreadthIndex, d: Session): Result<Option<Snapshot>, CoverageError> {
    if d > index.end then Err(AfterEnd)
    else
      var k := BisectRight(index.sessionDates, d);
      if k > 0 && index.sessionDates[k - 1] in index.snapshots
        then Ok(Some(index.snapshots[index.sessionDates[k - 1]])) else Ok(None)
  }

  /** Indexes that agree up to a date answer alike at that date. */
  lemma {:induction false} AsOfIsCausal(a: BreadthIndex, b: BreadthIndex, d: Session)
    requires a.Valid() && b.Valid() && d <= a.end && d <= b.end
    requires forall s | s <= d ::
      (s in a.snapshots <==> s in b.snapshots) && (s in a.snapshots ==> a.snapshots[s] == b.snapshots[s])
    ensures SnapshotAsOf(a, d) == SnapshotAsOf(b, d)
  {
    EarlyShared(a.sessionDates, b.sessionDates, d);
    hide Ascending, BisectRight;
    var m, n := BisectRight(a.sessionDates, d), BisectRight(b.sessionDates, d);
    assert |a.sessionDates[..m]| == m && |b.sessionDates[..n]| == n;
    if m > 0 {
      var last := a.sessionDates[..m][m - 1];
      assert last == a.sessionDates[m - 1] == b.sessionDates[n - 1];
      EarlyDates(a.sessionDates, d, last);
    }
  }

  lemma {:induction false} EarlyShared(x: seq<Session>, y: seq<Session>, d: Session)
    requires Ascending(x) && Ascending(y) && forall s | s <= d :: s in x <==> s in y
    ensures x[..BisectRight(x, d)] == y[..BisectRight(y, d)]
  {
    forall t ensures t in x[..BisectRight(x, d)] <==> t in y[..BisectRight(y, d)] {
      EarlyDates(x, d, t);
      EarlyDates(y, d, t);
    }
    AscendingUnique(x[..BisectRight(x, d)], y[..BisectRight(y, d)]);
  }
}
