/** Point-in-time database coverage: the one-pass index, the direct recount, and their common meaning. */
module DatabaseCoverage {
  import opened MarketTypes
  import opened StableSort

  /** One stored session of a normalized symbol other than the market index. */
  datatype Observation = Observation(symbol: Symbol, date: Session)

  ghost predicate Ascending(xs: seq<int>) { forall i, j | 0 <= i < j < |xs| :: xs[i] < xs[j] }

  /** How many of the ascending values are at most `x`. */
  function BisectRight(xs: seq<int>, x: int): (n: nat)
    ensures n <= |xs|
    ensures Ascending(xs) ==> forall i | 0 <= i < |xs| :: xs[i] <= x <==> i < n
  {
    if xs == [] then 0
    else
      var last := |xs| - 1;
      assert forall i | 0 <= i < last :: xs[i] == xs[..last][i];
      if xs[last] <= x then |xs| else BisectRight(xs[..last], x)
  }

  /** What a query returned: the stored observations up to a date, once each. */
  ghost predicate Loaded(obs: seq<Observation>, stored: set<Observation>, end: Session) {
    Distinct(obs) && forall o :: o in obs <==> o in stored && o.date <= end
  }

  ghost predicate ByDate(obs: seq<Observation>) { forall i, j | 0 <= i < j < |obs| :: obs[i].date <= obs[j].date }

  /** The order of the direct query, as far as it matters: within a symbol, by date. */
  ghost predicate ByDateWithinSymbol(obs: seq<Observation>) {
    forall i, j | 0 <= i < j < |obs| && obs[i].symbol == obs[j].symbol :: obs[i].date < obs[j].date
  }

  ghost function StoredDates(stored: set<Observation>, y: Symbol, d: Session): set<Session> {
    set o | o in stored && o.symbol == y && o.date <= d :: o.date
  }

  datatype Thresholds = Thresholds(minimum: nat, staleness: nat)

  /** Coverage at session `k`: enough stored sessions up to it, one of them no older than the
      tolerated number of market sessions before it. */
  ghost predicate Covered(stored: set<Observation>, sessions: seq<Session>, k: nat, y: Symbol, t: Thresholds)
    requires k < |sessions|
  {
    && |StoredDates(stored, y, sessions[k])| >= t.minimum
    && exists o ::
      o in stored && o.symbol == y && sessions[if k >= t.staleness then k - t.staleness else 0] <= o.date <= sessions[k]
  }

  // --------------------------------------------------------------- dates of one symbol

  /** The dates of one symbol, in the order of the observations. */
  ghost function DatesOf(obs: seq<Observation>, y: Symbol): seq<Session> {
    if obs == [] then []
    else DatesOf(obs[..|obs| - 1], y) + if obs[|obs| - 1].symbol == y then [obs[|obs| - 1].date] else []
  }

  lemma {:induction false} DatesOfMembers(obs: seq<Observation>, y: Symbol)
    ensures forall s :: s in DatesOf(obs, y) <==> Observation(y, s) in obs
  {
    if obs != [] {
      var n := |obs| - 1;
      DatesOfMembers(obs[..n], y);
      assert obs == obs[..n] + [obs[n]];
    }
  }

  lemma {:induction false} DatesOfAscend(obs: seq<Observation>, y: Symbol)
    requires ByDateWithinSymbol(obs)
    ensures Ascending(DatesOf(obs, y))
  {
    if obs != [] {
      var n := |obs| - 1;
      var before := DatesOf(obs[..n], y);
      DatesOfAscend(obs[..n], y);
      DatesOfMembers(obs[..n], y);
      forall i | 0 <= i < |before| && obs[n].symbol == y
        ensures before[i] < obs[n].date
      {
        assert before[i] in before;
        var k :| 0 <= k < n && obs[..n][k] == Observation(y, before[i]);
        assert obs[k] == Observation(y, before[i]);
      }
    }
  }

  lemma {:induction false} AscendingSize(xs: seq<int>)
    requires Ascending(xs)
    ensures |set x | x in xs| == |xs|
  {
    if xs != [] {
      var n := |xs| - 1;
      var prior := set x | x in xs[..n];
      AscendingSize(xs[..n]);
      LastIsNew(xs);
      assert (set x | x in xs) == prior + {xs[n]};
    }
  }

  lemma {:induction false} LastIsNew(xs: seq<int>)
    requires Ascending(xs) && xs != []
    ensures xs[|xs| - 1] !in xs[..|xs| - 1] && forall x :: x in xs <==> x in xs[..|xs| - 1] || x == xs[|xs| - 1]
  {
    assert xs == xs[..|xs| - 1] + [xs[|xs| - 1]];
  }

  /** Recent enough by session rank is recent enough by date. */
  lemma {:induction false} RecentByRank(sessions: seq<Session>, k: nat, date: Session, staleness: nat)
    requires Ascending(sessions) && k < |sessions| && date <= sessions[k]
    ensures var rank := BisectRight(sessions, date) - 1;
      rank >= 0 && k - rank <= staleness <==> sessions[if k >= staleness then k - staleness else 0] <= date
  {
  }

  /** The test both algorithms make: enough dates, the last of them recent by session rank. */
  predicate Passes(count: nat, latest: Session, sessions: seq<Session>, k: nat, t: Thresholds) {
    count >= t.minimum && var rank := BisectRight(sessions, latest) - 1; rank >= 0 && k - rank <= t.staleness
  }

  /** On the observations up to a session the test is coverage. */
  lemma {:induction false} TestIsCoverage(obs: seq<Observation>, stored: set<Observation>, sessions: seq<Session>,
      k: nat, y: Symbol, t: Thresholds)
    requires Ascending(sessions) && k < |sessions| && ByDateWithinSymbol(obs) && Loaded(obs, stored, sessions[k])
    ensures var own := DatesOf(obs, y);
      own != [] && Passes(|own|, own[|own| - 1], sessions, k, t) <==> Covered(stored, sessions, k, y, t)
  {
    var own := DatesOf(obs, y);
    DatesOfMembers(obs, y);
    DatesOfAscend(obs, y);
    AscendingSize(own);
    StoredAre(obs, stored, y, sessions[k]);
    if own != [] {
      var latest := own[|own| - 1];
      assert latest in own && Observation(y, latest) in stored;
      RecentByRank(sessions, k, latest, t.staleness);
      forall o | o in stored && o.symbol == y && o.date <= sessions[k] ensures o.date <= latest {
        assert o == Observation(y, o.date) && o.date in own;
        var i :| 0 <= i < |own| && own[i] == o.date;
      }
    } else {
      forall o | o in stored && o.symbol == y ensures o.date > sessions[k] {
        assert o == Observation(y, o.date);
      }
    }
  }

  lemma {:induction false} StoredAre(obs: seq<Observation>, stored: set<Observation>, y: Symbol, d: Session)
    requires Loaded(obs, stored, d) && forall s :: s in DatesOf(obs, y) <==> Observation(y, s) in obs
    ensures (set s | s in DatesOf(obs, y)) == StoredDates(stored, y, d)
  {
    forall s ensures s in DatesOf(obs, y) <==> s in StoredDates(stored, y, d) {
      if s in DatesOf(obs, y) { assert Observation(y, s) in stored; }
      if s in StoredDates(stored, y, d) {
        var o :| o in stored && o.symbol == y && o.date <= d && o.date == s;
        assert o == Observation(y, s) && o in obs;
      }
    }
  }

  // ------------------------------------------------------------------ the one-pass index

  /** Count and latest rank of a symbol among the observations seen so far. */
  ghost predicate TalliedFor(seen: seq<Observation>, sessions: seq<Session>, counts: map<Symbol, nat>,
      ranks: map<Symbol, int>, y: Symbol)
    requires counts.Keys == ranks.Keys
  {
    var own := DatesOf(seen, y);
    (y in counts <==> own != []) && (y in counts ==>
      counts[y] == |own| && ranks[y] == BisectRight(sessions, own[|own| - 1]) - 1)
  }

  ghost predicate Tallied(seen: seq<Observation>, sessions: seq<Session>, counts: map<Symbol, nat>,
      ranks: map<Symbol, int>) {
    counts.Keys == ranks.Keys && forall y :: TalliedFor(seen, sessions, counts, ranks, y)
  }

  datatype CoverageIndex = CoverageIndex(start: Session, end: Session, sessionDates: seq<Session>,
      members: map<Session, set<Symbol>>)

  /** What the index holds for each market session from its start on. */
  ghost predicate Indexes(index: CoverageIndex, stored: set<Observation>, sessions: seq<Session>, t: Thresholds) {
    && index.sessionDates == sessions[BisectRight(sessions, index.start - 1)..]
    && index.members.Keys == (set s | s in index.sessionDates)
    && forall k, y | BisectRight(sessions, index.start - 1) <= k < |sessions| ::
         y in index.members[sessions[k]] <==> Covered(stored, sessions, k, y, t)
  }

  /** The memberships of the sessions `first..k`. */
  ghost predicate IndexedUpTo(members: map<Session, set<Symbol>>, stored: set<Observation>, sessions: seq<Session>,
      first: nat, k: nat, t: Thresholds)
    requires k <= |sessions|
  {
    && (forall s :: s in members <==> exists i :: first <= i < k && sessions[i] == s)
    && forall i, y | first <= i < k :: y in members[sessions[i]] <==> Covered(stored, sessions, i, y, t)
  }

  lemma {:induction false} IndexedOneMore(members: map<Session, set<Symbol>>, now: set<Symbol>,
      stored: set<Observation>, sessions: seq<Session>, first: nat, k: nat, t: Thresholds)
    requires k < |sessions| && Ascending(sessions) && IndexedUpTo(members, stored, sessions, first, k, t) && first <= k
    requires forall y :: y in now <==> Covered(stored, sessions, k, y, t)
    ensures IndexedUpTo(members[sessions[k] := now], stored, sessions, first, k + 1, t)
  {
    forall i, y | first <= i < k + 1
      ensures y in members[sessions[k] := now][sessions[i]] <==> Covered(stored, sessions, i, y, t)
    {
      assert i < k ==> sessions[i] < sessions[k] && sessions[i] in members;
    }
  }

  lemma {:induction false} IndexedAll(members: map<Session, set<Symbol>>, stored: set<Observation>,
      sessions: seq<Session>, start: Session, end: Session, t: Thresholds)
    requires IndexedUpTo(members, stored, sessions, BisectRight(sessions, start - 1), |sessions|, t)
    ensures Indexes(CoverageIndex(start, end, sessions[BisectRight(sessions, start - 1)..], members), stored,
      sessions, t)
  {
    var first := BisectRight(sessions, start - 1);
    var dates := sessions[first..];
    forall s ensures s in members <==> s in dates {
      if s in dates {
        var i :| 0 <= i < |dates| && dates[i] == s;
        assert sessions[first + i] == s;
      }
      if s in members {
        var i :| first <= i < |sessions| && sessions[i] == s;
        assert dates[i - first] == s;
      }
    }
  }

  /** `build_database_coverage_index`: one sweep over the observations, in step with the sessions. */
  method BuildCoverageIndex(sessions: seq<Session>, obs: seq<Observation>, start: Session, end: Session,
      t: Thresholds, ghost stored: set<Observation>)
    returns (index: CoverageIndex)
    requires Ascending(sessions) && (forall s | s in sessions :: s <= end)
    requires ByDate(obs) && Loaded(obs, stored, end)
    ensures index.start == start && index.end == end && Indexes(index, stored, sessions, t)
  {
    hide IndexedUpTo, Covered, Indexes;
    var first := BisectRight(sessions, start - 1);
    var members: map<Session, set<Symbol>> := map[];
    var counts: map<Symbol, nat>, ranks: map<Symbol, int>, next: nat := map[], map[], 0;
    NothingIndexed(stored, sessions, first, t);
    for k := 0 to |sessions|
      invariant next <= |obs| && Tallied(obs[..next], sessions, counts, ranks)
      invariant forall i | 0 <= i < next :: k > 0 && obs[i].date <= sessions[k - 1]
      invariant IndexedUpTo(members, stored, sessions, first, if k < first then first else k, t)
    {
      counts, ranks, next := Sweep(obs, next, sessions, sessions[k], counts, ranks);
      if sessions[k] >= start {
        var now := Members(counts, ranks, k, t);
        assert sessions[k] in sessions;
        SeenLoaded(obs, next, stored, end, sessions[k]);
        MembersAreCovered(obs[..next], stored, sessions, k, counts, ranks, now, t);
        IndexedOneMore(members, now, stored, sessions, first, k, t);
        members := members[sessions[k] := now];
      }
    }
    index := CoverageIndex(start, end, sessions[first..], members);
    IndexedAll(members, stored, sessions, start, end, t);
  }

  lemma {:induction false} NothingIndexed(stored: set<Observation>, sessions: seq<Session>, first: nat, t: Thresholds)
    requires first <= |sessions|
    ensures IndexedUpTo(map[], stored, sessions, first, first, t)
  {
  }

  function Members(counts: map<Symbol, nat>, ranks: map<Symbol, int>, k: nat, t: Thresholds): set<Symbol>
    requires counts.Keys == ranks.Keys
  {
    set y | y in counts && counts[y] >= t.minimum && ranks[y] >= 0 && k - ranks[y] <= t.staleness
  }

  lemma {:induction false} MembersAreCovered(seen: seq<Observation>, stored: set<Observation>,
      sessions: seq<Session>, k: nat,
      counts: map<Symbol, nat>, ranks: map<Symbol, int>, now: set<Symbol>, t: Thresholds)
    requires Ascending(sessions) && k < |sessions| && ByDateWithinSymbol(seen) && Loaded(seen, stored, sessions[k])
    requires Tallied(seen, sessions, counts, ranks) && now == Members(counts, ranks, k, t)
    ensures forall y :: y in now <==> Covered(stored, sessions, k, y, t)
  {
    hide Covered;
    forall y ensures y in now <==> Covered(stored, sessions, k, y, t) {
      assert TalliedFor(seen, sessions, counts, ranks, y);
      TestIsCoverage(seen, stored, sessions, k, y, t);
    }
  }

  /** The sweep stands right behind the last observation up to the date. */
  ghost predicate SeenThrough(obs: seq<Observation>, next: nat, date: Session)
    requires next <= |obs|
  {
    (forall i | 0 <= i < next :: obs[i].date <= date) && (next < |obs| ==> obs[next].date > date)
  }

  lemma {:induction false} SeenLoaded(obs: seq<Observation>, next: nat, stored: set<Observation>, end: Session,
      date: Session)
    requires next <= |obs| && ByDate(obs) && Loaded(obs, stored, end) && date <= end && SeenThrough(obs, next, date)
    ensures ByDateWithinSymbol(obs[..next]) && Loaded(obs[..next], stored, date)
  {
    forall i, j | 0 <= i < j < next && obs[i].symbol == obs[j].symbol ensures obs[i].date < obs[j].date {
      assert obs[i] != obs[j];
    }
    forall o ensures o in obs[..next] <==> o in stored && o.date <= date {
      if o in stored && o.date <= date {
        assert o in obs;
        var i :| 0 <= i < |obs| && obs[i] == o;
        assert i < next;
      }
    }
  }

  /** The inner loop: takes in the observations up to the session. */
  method Sweep(obs: seq<Observation>, from: nat, sessions: seq<Session>, session: Session, counts0: map<Symbol, nat>,
      ranks0: map<Symbol, int>)
    returns (counts: map<Symbol, nat>, ranks: map<Symbol, int>, next: nat)
    requires from <= |obs| && Tallied(obs[..from], sessions, counts0, ranks0)
    requires forall i | 0 <= i < from :: obs[i].date <= session
    ensures next <= |obs| && Tallied(obs[..next], sessions, counts, ranks) && SeenThrough(obs, next, session)
  {
    hide Tallied;
    counts, ranks, next := counts0, ranks0, from;
    while next < |obs| && obs[next].date <= session
      invariant next <= |obs| && Tallied(obs[..next], sessions, counts, ranks)
      invariant forall i | 0 <= i < next :: obs[i].date <= session
    {
      TallyOne(obs, next, sessions, counts, ranks);
      var o := obs[next];
      counts := counts[o.symbol := (if o.symbol in counts then counts[o.symbol] else 0) + 1];
      ranks := ranks[o.symbol := BisectRight(sessions, o.date) - 1];
      next := next + 1;
    }
  }

  lemma {:induction false} TallyOne(obs: seq<Observation>, i: nat, sessions: seq<Session>, counts: map<Symbol, nat>,
      ranks: map<Symbol, int>)
    requires i < |obs| && Tallied(obs[..i], sessions, counts, ranks)
    ensures var o := obs[i];
      Tallied(obs[..i + 1], sessions, counts[o.symbol := (if o.symbol in counts then counts[o.symbol] else 0) + 1],
        ranks[o.symbol := BisectRight(sessions, o.date) - 1])
  {
    hide BisectRight;
    var o, seen := obs[i], obs[..i + 1];
    var counts1 := counts[o.symbol := (if o.symbol in counts then counts[o.symbol] else 0) + 1];
    var ranks1 := ranks[o.symbol := BisectRight(sessions, o.date) - 1];
    assert counts1.Keys == ranks1.Keys;
    forall y
      ensures TalliedFor(seen, sessions, counts1, ranks1, y)
    {
      assert TalliedFor(obs[..i], sessions, counts, ranks, y);
      DatesStep(obs, i, y);
    }
  }

  lemma {:induction false} DatesStep(obs: seq<Observation>, i: nat, y: Symbol)
    requires i < |obs|
    ensures DatesOf(obs[..i + 1], y) == DatesOf(obs[..i], y) + if obs[i].symbol == y then [obs[i].date] else []
  {
    assert obs[..i + 1][..i] == obs[..i] && obs[..i + 1][i] == obs[i];
  }

  datatype CoverageError = AfterEnd

  /** `members_as_of`: the membership of the last indexed session up to the date. */
  function MembersAsOf(index: CoverageIndex, d: Session): Result<set<Symbol>, CoverageError> {
    if d > index.end then Err(AfterEnd)
    else
      var k := BisectRight(index.sessionDates, d);
      if k == 0 then Ok({})
      else if index.sessionDates[k - 1] in index.members then Ok(index.members[index.sessionDates[k - 1]]) else Ok({})
  }

  // ------------------------------------------------------------------ the direct recount

  /** `eligible_symbols_as_of`, given the market sessions up to the requested date and the stored
      observations up to the last of them. */
  method EligibleSymbols(sessions: seq<Session>, obs: seq<Observation>, t: Thresholds,
      ghost stored: set<Observation>) returns (eligible: set<Symbol>)
    requires Ascending(sessions)
    requires sessions != [] ==> ByDateWithinSymbol(obs) && Loaded(obs, stored, sessions[|sessions| - 1])
    ensures Recount(eligible, stored, sessions, t)
  {
    if sessions == [] { return {}; }
    var dates := GroupDates(obs);
    eligible := Recounted(dates, sessions, t);
    RecountedAre(obs, dates, eligible, stored, sessions, t);
  }

  lemma {:induction false} RecountedAre(obs: seq<Observation>, dates: map<Symbol, seq<Session>>,
      eligible: set<Symbol>, stored: set<Observation>, sessions: seq<Session>, t: Thresholds)
    requires Ascending(sessions) && sessions != [] && ByDateWithinSymbol(obs)
      && Loaded(obs, stored, sessions[|sessions| - 1])
    requires forall y :: (y in dates <==> DatesOf(obs, y) != []) && (y in dates ==> dates[y] == DatesOf(obs, y))
    requires forall y ::
      y in eligible <==> y in dates && Passes(|dates[y]|, dates[y][|dates[y]| - 1], sessions, |sessions| - 1, t)
    ensures Recount(eligible, stored, sessions, t)
  {
    hide Covered, Passes, Ascending, Loaded, ByDateWithinSymbol, DatesOf;
    forall y ensures y in eligible <==> Covered(stored, sessions, |sessions| - 1, y, t) {
      TestIsCoverage(obs, stored, sessions, |sessions| - 1, y, t);
    }
  }

  /** The symbols covered at the last of the sessions. */
  ghost predicate Recount(eligible: set<Symbol>, stored: set<Observation>, sessions: seq<Session>, t: Thresholds) {
    if sessions == [] then eligible == {} else forall y ::
      y in eligible <==> Covered(stored, sessions, |sessions| - 1, y, t)
  }

  method Recounted(dates: map<Symbol, seq<Session>>, sessions: seq<Session>, t: Thresholds)
      returns (eligible: set<Symbol>)
    requires sessions != [] && forall y | y in dates :: dates[y] != []
    ensures forall y ::
      y in eligible <==> y in dates && Passes(|dates[y]|, dates[y][|dates[y]| - 1], sessions, |sessions| - 1, t)
  {
    eligible := {};
    var rest := dates.Keys;
    while rest != {}
      invariant rest <= dates.Keys
      invariant forall y ::
        y in eligible <==>
        y in dates && y !in rest && Passes(|dates[y]|, dates[y][|dates[y]| - 1], sessions, |sessions| - 1, t)
      decreases |rest|
    {
      ghost var x := PickOne(rest);
      var y :| y in rest;
      rest := rest - {y};
      if |dates[y]| >= t.minimum {
        var rank := BisectRight(sessions, dates[y][|dates[y]| - 1]) - 1;
        if rank >= 0 && |sessions| - 1 - rank <= t.staleness { eligible := eligible + {y}; }
      }
    }
  }

  method GroupDates(obs: seq<Observation>) returns (dates: map<Symbol, seq<Session>>)
    ensures forall y :: (y in dates <==> DatesOf(obs, y) != []) && (y in dates ==> dates[y] == DatesOf(obs, y))
  {
    dates := map[];
    for i := 0 to |obs|
      invariant forall y ::
        (y in dates <==> DatesOf(obs[..i], y) != []) && (y in dates ==> dates[y] == DatesOf(obs[..i], y))
    {
      forall y ensures DatesOf(obs[..i + 1], y) == DatesOf(obs[..i], y) + if obs[i].symbol == y then [obs[i].date]
        else [] {
        DatesStep(obs, i, y);
      }
      var o := obs[i];
      dates := dates[o.symbol := (if o.symbol in dates then dates[o.symbol] else []) + [o.date]];
    }
    assert obs[..|obs|] == obs;
  }

  // -------------------------------------------------------------------- the agreement

  /** Later sessions do not change earlier coverage. */
  lemma {:induction false} CoveredPrefix(stored: set<Observation>, sessions: seq<Session>, n: nat, k: nat, y: Symbol,
      t: Thresholds)
    requires k < n <= |sessions|
    ensures Covered(stored, sessions[..n], k, y, t) <==> Covered(stored, sessions, k, y, t)
  {
  }

  lemma {:induction false} BisectIs(xs: seq<int>, x: int, n: nat)
    requires Ascending(xs) && n <= |xs| && (n > 0 ==> xs[n - 1] <= x) && (n < |xs| ==> xs[n] > x)
    ensures BisectRight(xs, x) == n
  {
    hide BisectRight;
    var m := BisectRight(xs, x);
    assert n > 0 ==> n - 1 < m;
    assert n < |xs| ==> !(n < m);
  }

  lemma {:induction false} BisectAt(xs: seq<int>, x: int)
    requires Ascending(xs)
    ensures var n := BisectRight(xs, x); (n > 0 ==> xs[n - 1] <= x) && (n < |xs| ==> xs[n] > x)
  {
    hide BisectRight;
  }

  lemma {:induction false} AscendingFrom(xs: seq<int>, k: nat)
    requires Ascending(xs) && k <= |xs|
    ensures Ascending(xs[k..]) && forall i | 0 <= i < |xs| - k :: xs[k..][i] == xs[k + i]
  {
  }

  /** The last indexed session up to a date is the last market session up to it. */
  lemma {:induction false} SameSession(sessions: seq<Session>, start: Session, d: Session)
    requires Ascending(sessions)
    ensures var first, n := BisectRight(sessions, start - 1), BisectRight(sessions, d); var dates := sessions[first..];
      && BisectRight(dates, d) == (if n > first then n - first else 0)
      && (BisectRight(dates, d) > 0 <==> dates != [] && dates[0] <= d)
  {
    hide BisectRight, Ascending;
    var first, n := BisectRight(sessions, start - 1), BisectRight(sessions, d);
    AscendingFrom(sessions, first);
    BisectAt(sessions, d);
    LaterToo(sessions, d, first);
    BisectIs(sessions[first..], d, if n > first then n - first else 0);
    BisectAt(sessions[first..], d);
    LaterToo(sessions[first..], d, 0);
  }

  lemma {:induction false} LaterToo(xs: seq<int>, x: int, k: nat)
    requires Ascending(xs)
    ensures k < |xs| ==> (xs[k] <= x <==> k < BisectRight(xs, x))
  {
    hide BisectRight;
  }

  lemma {:induction false} IndexedAt(index: CoverageIndex, stored: set<Observation>, sessions: seq<Session>,
      t: Thresholds, k: nat)
    requires Ascending(sessions) && Indexes(index, stored, sessions, t)
      && BisectRight(sessions, index.start - 1) <= k < |sessions|
    ensures sessions[k] in index.members && forall y ::
      y in index.members[sessions[k]] <==> Covered(stored, sessions, k, y, t)
    ensures index.sessionDates[k - BisectRight(sessions, index.start - 1)] == sessions[k]
  {
    hide Covered, Ascending, BisectRight;
    assert index.sessionDates[k - BisectRight(sessions, index.start - 1)] == sessions[k];
    assert sessions[k] in index.sessionDates;
  }

  lemma {:induction false} IndexDates(index: CoverageIndex, stored: set<Observation>, sessions: seq<Session>,
      t: Thresholds)
    requires Indexes(index, stored, sessions, t)
    ensures index.sessionDates == sessions[BisectRight(sessions, index.start - 1)..]
  {
    hide Covered;
  }

  /** Index equals definition: from the first indexed session to the end date the index answers with
      the recount at that date; before that session it is empty, and past the end date it refuses. */
  lemma {:induction false} IndexEqualsRecount(index: CoverageIndex, stored: set<Observation>, sessions: seq<Session>,
      t: Thresholds, d: Session, eligible: set<Symbol>)
    requires Ascending(sessions) && Indexes(index, stored, sessions, t)
    requires Recount(eligible, stored, sessions[..BisectRight(sessions, d)], t)
    ensures MembersAsOf(index, d) ==
      if d > index.end then Err(AfterEnd)
      else Ok(if index.sessionDates != [] && index.sessionDates[0] <= d then eligible else {})
  {
    hide Covered, Ascending, BisectRight, Indexes;
    var n := BisectRight(sessions, d);
    IndexDates(index, stored, sessions, t);
    SameSession(sessions, index.start, d);
    if BisectRight(index.sessionDates, d) > 0 {
      IndexedAt(index, stored, sessions, t, n - 1);
      forall y ensures y in index.members[sessions[n - 1]] <==> y in eligible {
        CoveredPrefix(stored, sessions, n, n - 1, y, t);
      }
      assert index.members[sessions[n - 1]] == eligible;
    }
  }
}
