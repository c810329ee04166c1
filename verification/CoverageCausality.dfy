/** Breadth over database coverage is causal as a whole: the memberships and the symbols whose rows are
    loaded both come from an index that sees later rows, and still nothing later than a day changes the
    snapshots up to it. */
module CoverageCausality {
  import opened MarketTypes
  import opened StableSort
  import opened DatabaseCoverage
  import opened HistoricalBreadth

  // ----------------------------------------------------------- symbols that never count

  function OfSymbols(ys: set<Symbol>): Close -> bool { (r: Close) => r.symbol in ys }

  /** Dropping other symbols' rows leaves a symbol's average and history alone. */
  lemma {:induction false} SymbolKept(rows: seq<Close>, ys: set<Symbol>, y: Symbol)
    requires y in ys
    ensures EmaOf(Filter(rows, OfSymbols(ys)), y) == EmaOf(rows, y)
      && HistoryOf(Filter(rows, OfSymbols(ys)), y) == HistoryOf(rows, y)
  {
    hide EmaOf, HistoryOf, Blend;
    if rows != [] {
      var n := |rows| - 1;
      var kept := Filter(rows[..n], OfSymbols(ys));
      SymbolKept(rows[..n], ys, y);
      assert rows == rows[..n] + [rows[n]];
      Appended(rows[..n], rows[n], y);
      Appended(kept, rows[n], y);
      assert Filter(rows, OfSymbols(ys)) == if rows[n].symbol in ys then kept + [rows[n]] else kept;
    }
  }

  lemma {:induction false} CountOneMore(points: seq<Point>, p: Point, members: set<Symbol>)
    ensures Universe(points + [p], members) == Universe(points, members) + if Counted(p, members) then 1 else 0
    ensures Above(points + [p], members) == Above(points, members) + if Counted(p, members) && p.price > p.ema then 1
      else 0
  {
    assert (points + [p])[..|points|] == points;
  }

  /** Rows of symbols that are no members do not count. */
  lemma {:induction false} NonMembersUncounted(rows: seq<Close>, ys: set<Symbol>, d: Session, members: set<Symbol>)
    requires members <= ys
    ensures var kept := PointsOn(Filter(rows, OfSymbols(ys)), d);
      && Universe(kept, members) == Universe(PointsOn(rows, d), members)
        && Above(kept, members) == Above(PointsOn(rows, d), members)
      && (PointsOn(rows, d) == [] ==> kept == [])
  {
    hide EmaOf, HistoryOf, PointsOn, Universe, Above;
    if rows == [] {
      assert Filter(rows, OfSymbols(ys)) == rows;
    } else {
      var n, last := |rows| - 1, rows[|rows| - 1];
      var kept := Filter(rows[..n], OfSymbols(ys));
      NonMembersUncounted(rows[..n], ys, d, members);
      assert rows == rows[..n] + [last];
      PointAppended(rows[..n], last, d);
      PointAppended(kept, last, d);
      var p := Point(last.symbol, last.price, HistoryOf(rows, last.symbol), EmaOf(rows, last.symbol).value);
      CountOneMore(PointsOn(rows[..n], d), p, members);
      CountOneMore(PointsOn(kept, d), p, members);
      assert Filter(rows, OfSymbols(ys)) == if last.symbol in ys then kept + [last] else kept;
      if last.symbol in ys { SymbolKept(rows, ys, last.symbol); }
      if last.date != d {
        assert PointsOn(rows, d) == PointsOn(rows[..n], d) && PointsOn(kept + [last], d) == PointsOn(kept, d);
      } else {
        assert PointsOn(rows, d) == PointsOn(rows[..n], d) + [p];
        assert last.symbol in ys ==> PointsOn(kept + [last], d) == PointsOn(kept, d) + [p];
      }
    }
  }

  lemma {:induction false} ProducedCounts(rows: seq<Close>, other: seq<Close>, dates: seq<Session>,
      members: Session -> set<Symbol>)
    requires forall s | s in dates ::
      BreadthOn(PointsOn(rows, s), s, members(s)) == BreadthOn(PointsOn(other, s), s, members(s))
    ensures Produced(rows, dates, members) == Produced(other, dates, members)
  {
    if dates != [] {
      var n := |dates| - 1;
      assert dates[n] in dates && forall s | s in dates[..n] :: s in dates;
      ProducedCounts(rows, other, dates[..n], members);
    }
  }

  /** Dates without rows produce nothing. */
  lemma {:induction false} EmptyDates(rows: seq<Close>, dates: seq<Session>, all: seq<Session>,
      members: Session -> set<Symbol>)
    requires Ascending(dates) && Ascending(all) && forall s :: s in dates <==> s in all && PointsOn(rows, s) != []
    ensures Produced(rows, dates, members) == Produced(rows, all, members)
    decreases |all|
  {
    hide Ascending, PointsOn;
    if all != [] {
      var m := |all| - 1;
      BelowTop(all, m);
      assert all[..m] + [all[m]] == all;
      if all[m] in dates {
        var n := |dates| - 1;
        BelowTop(dates, n);
        TopIsGreatest(dates, all[m]);
        TopIsGreatest(all, dates[n]);
        EmptyDates(rows, dates[..n], all[..m], members);
      } else {
        assert all[m] in all;
        forall s | s in dates ensures s in all[..m] { assert s in all && s != all[m]; }
        EmptyDates(rows, dates, all[..m], members);
      }
    } else {
      SameSize(dates, all);
    }
  }

  /** Loading only the rows of symbols that can be members produces the same breadth as loading all. */
  lemma {:induction false} CandidatesSuffice(rows: seq<Close>, ys: set<Symbol>, dates: seq<Session>,
      all: seq<Session>, members: Session -> set<Symbol>)
    requires DatesOfRows(all, rows) && DatesOfRows(dates, Filter(rows, OfSymbols(ys))) && forall s :: members(s) <= ys
    ensures Produced(Filter(rows, OfSymbols(ys)), dates, members) == Produced(rows, all, members)
  {
    hide PointsOn, Universe, Above, Produced, Ascending;
    var kept := Filter(rows, OfSymbols(ys));
    forall s
      ensures BreadthOn(PointsOn(kept, s), s, members(s)) == BreadthOn(PointsOn(rows, s), s, members(s))
      ensures PointsOn(rows, s) == [] ==> PointsOn(kept, s) == []
    {
      NonMembersUncounted(rows, ys, s, members(s));
    }
    ProducedCounts(kept, rows, all, members);
    EmptyDates(kept, dates, all, members);
  }

  // ----------------------------------------------------------- memberships up to a day

  /** The symbols that are members in some indexed session. */
  function Candidates(index: CoverageIndex): set<Symbol> { set s, y | s in index.members && y in index.members[s] :: y }

  function MembersFrom(index: CoverageIndex): Session -> set<Symbol> {
    (d: Session) => match MembersAsOf(index, d) case Ok(members) => members case Err(_) => {}
  }

  /** Two databases hold the same observations and market sessions up to a day. */
  ghost predicate SameUpTo(stored: set<Observation>, other: set<Observation>, sessions: seq<Session>,
      others: seq<Session>, d: Session) {
    && (forall o: Observation | o.date <= d :: o in stored <==> o in other)
    && forall s | s <= d :: s in sessions <==> s in others
  }

  ghost function CoveredSymbols(stored: set<Observation>, sessions: seq<Session>, t: Thresholds): set<Symbol> {
    if sessions == [] then {}
    else set o | o in stored && Covered(stored, sessions, |sessions| - 1, o.symbol, t) :: o.symbol
  }

  lemma {:induction false} CoveredSymbolsAre(stored: set<Observation>, other: set<Observation>,
      sessions: seq<Session>, t: Thresholds)
    requires forall o: Observation | sessions != [] && o.date <= sessions[|sessions| - 1] :: o in stored <==> o in other
    ensures Recount(CoveredSymbols(stored, sessions, t), stored, sessions, t)
    ensures Recount(CoveredSymbols(stored, sessions, t), other, sessions, t)
  {
    if sessions != [] {
      var k := |sessions| - 1;
      forall y ensures Covered(stored, sessions, k, y, t) <==> Covered(other, sessions, k, y, t) {
        assert StoredDates(stored, y, sessions[k]) == StoredDates(other, y, sessions[k]);
      }
    }
  }

  lemma {:induction false} StartedBy(index: CoverageIndex, stored: set<Observation>, sessions: seq<Session>,
      t: Thresholds, d: Session)
    requires Ascending(sessions) && Indexes(index, stored, sessions, t)
    ensures index.sessionDates != [] && index.sessionDates[0] <= d <==>
      exists s :: s in sessions && index.start <= s <= d
  {
    hide Covered;
    var first := BisectRight(sessions, index.start - 1);
    if first < |sessions| {
      assert index.sessionDates[0] == sessions[first];
      if s :| s in sessions && index.start <= s <= d {
        var i :| 0 <= i < |sessions| && sessions[i] == s;
        assert i >= first && sessions[first] <= sessions[i];
      }
      if index.sessionDates[0] <= d { assert sessions[first] in sessions && index.start <= sessions[first] <= d; }
    }
  }

  /** Neither later observations nor later market sessions change a membership. */
  lemma {:induction false} MembersAreCausal(index: CoverageIndex, otherIndex: CoverageIndex,
      stored: set<Observation>, other: set<Observation>,
      sessions: seq<Session>, others: seq<Session>, t: Thresholds, d: Session)
    requires Ascending(sessions) && Ascending(others) && index.start == otherIndex.start && d <= index.end
      && d <= otherIndex.end
    requires Indexes(index, stored, sessions, t) && Indexes(otherIndex, other, others, t)
      && SameUpTo(stored, other, sessions, others, d)
    ensures MembersAsOf(index, d) == MembersAsOf(otherIndex, d)
  {
    hide Covered, BisectRight, Ascending, Indexes;
    var n, m := BisectRight(sessions, d), BisectRight(others, d);
    EarlyShared(sessions, others, d);
    var early := sessions[..n];
    if early != [] { assert early[|early| - 1] in early; EarlyDates(sessions, d, early[|early| - 1]); }
    CoveredSymbolsAre(stored, other, early, t);
    var eligible := CoveredSymbols(stored, early, t);
    IndexEqualsRecount(index, stored, sessions, t, d, eligible);
    IndexEqualsRecount(otherIndex, other, others, t, d, eligible);
    StartedBy(index, stored, sessions, t, d);
    StartedBy(otherIndex, other, others, t, d);
  }

  lemma {:induction false} MembersAreCandidates(index: CoverageIndex, d: Session)
    ensures MembersFrom(index)(d) <= Candidates(index)
  {
    forall y | y in MembersFrom(index)(d)
      ensures y in Candidates(index)
    {
      var s := index.sessionDates[BisectRight(index.sessionDates, d) - 1];
      assert s in index.members && y in index.members[s];
    }
  }

  // ------------------------------------------------------------------- the composition

  /** The index of one database, the rows loaded for its candidates, and the snapshots built from them. */
  ghost predicate BuiltFrom(index: CoverageIndex, stored: set<Observation>, sessions: seq<Session>, t: Thresholds,
      database: seq<Close>,
      start: Session, end: Session, snapshots: map<Session, Snapshot>)
  {
    && Ascending(sessions) && Indexes(index, stored, sessions, t) && InOrder(database)
    && exists dates ::
         && DatesOfRows(dates, Filter(database, OfSymbols(Candidates(index))))
         && SnapshotsOf(snapshots, Produced(Filter(database, OfSymbols(Candidates(index))), dates,
           MembersFrom(index)), start, end)
  }

  lemma {:induction false} BuiltFromAll(index: CoverageIndex, stored: set<Observation>, sessions: seq<Session>,
      t: Thresholds, database: seq<Close>,
      start: Session, end: Session, snapshots: map<Session, Snapshot>, all: seq<Session>)
    requires BuiltFrom(index, stored, sessions, t, database, start, end, snapshots) && DatesOfRows(all, database)
    ensures SnapshotsOf(snapshots, Produced(database, all, MembersFrom(index)), start, end)
  {
    hide Produced, DatesOfRows, SnapshotsOf, Indexes, InOrder, MembersFrom;
    var kept := Filter(database, OfSymbols(Candidates(index)));
    var dates :| DatesOfRows(dates, kept)
      && SnapshotsOf(snapshots, Produced(kept, dates, MembersFrom(index)), start, end);
    forall s ensures MembersFrom(index)(s) <= Candidates(index) { MembersAreCandidates(index, s); }
    CandidatesSuffice(database, Candidates(index), dates, all, MembersFrom(index));
  }

  /** Coverage breadth up to a day depends on nothing later: two databases that agree up to the day give
      the same snapshots up to it, although the later rows decide which symbols are loaded at all. */
  lemma {:induction false} CoverageBreadthIsCausal(index: CoverageIndex, otherIndex: CoverageIndex,
      stored: set<Observation>, other: set<Observation>,
      sessions: seq<Session>, others: seq<Session>, t: Thresholds, database: seq<Close>, otherDatabase: seq<Close>,
        start: Session,
      end: Session, snapshots: map<Session, Snapshot>, otherSnapshots: map<Session, Snapshot>, d: Session, s: Session)
    requires BuiltFrom(index, stored, sessions, t, database, start, end, snapshots)
    requires BuiltFrom(otherIndex, other, others, t, otherDatabase, start, end, otherSnapshots)
    requires index.start == otherIndex.start && s <= d <= index.end && d <= otherIndex.end
    requires SameUpTo(stored, other, sessions, others, d) && Filter(database, UpTo(d)) == Filter(otherDatabase, UpTo(d))
    ensures s in snapshots <==> s in otherSnapshots
    ensures s in snapshots ==> snapshots[s] == otherSnapshots[s]
  {
    hide Produced, SnapshotsOf, Indexes, Covered, DatesOfRows, PointsOn;
    var all := DatesExist(database);
    var otherAll := DatesExist(otherDatabase);
    BuiltFromAll(index, stored, sessions, t, database, start, end, snapshots, all);
    BuiltFromAll(otherIndex, other, others, t, otherDatabase, start, end, otherSnapshots, otherAll);
    forall x | x <= d ensures MembersFrom(index)(x) == MembersFrom(otherIndex)(x) {
      MembersAreCausal(index, otherIndex, stored, other, sessions, others, t, x);
    }
    BreadthIsCausal(database, otherDatabase, all, otherAll, MembersFrom(index), MembersFrom(otherIndex), d, start,
      end, snapshots, otherSnapshots, s);
  }

  lemma {:induction false} DatesExist(rows: seq<Close>) returns (dates: seq<Session>)
    ensures DatesOfRows(dates, rows)
  {
    if rows == [] {
      dates := [];
    } else {
      var n := |rows| - 1;
      var prior := DatesExist(rows[..n]);
      assert rows == rows[..n] + [rows[n]];
      forall d ensures PointsOn(rows, d) != [] <==> PointsOn(rows[..n], d) != [] || d == rows[n].date {}
      dates := InsertDate(prior, rows[n].date);
    }
  }

  lemma {:induction false} InsertDate(dates: seq<Session>, d: Session) returns (r: seq<Session>)
    requires Ascending(dates)
    ensures Ascending(r) && forall s :: s in r <==> s in dates || s == d
    decreases |dates|
  {
    if dates == [] {
      r := [d];
    } else {
      var n := |dates| - 1;
      BelowTop(dates, n);
      assert dates == dates[..n] + [dates[n]];
      if dates[n] < d {
        r := dates + [d];
      } else if dates[n] == d {
        r := dates;
      } else {
        var front := InsertDate(dates[..n], d);
        forall i | 0 <= i < |front| ensures front[i] < dates[n] { assert front[i] in front; }
        r := front + [dates[n]];
      }
    }
  }
}
