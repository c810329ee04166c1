/** The event-driven portfolio simulator: dates in order; on each date old positions close, ranked
    candidates open, and same-day positions close again. */
module Simulator {
  import opened MarketTypes
  import opened Multiples
  import opened StableSort
  import opened Ranking
  import opened Portfolio
  import opened DecisionEngine
  import opened SimulationHistory
  import opened SimulationRules

  /** The open positions are those of the active candidates. */
  ghost predicate HoldsActive(active: map<Candidate, Trade>, positions: seq<Trade>) {
    |positions| == |active| && forall c | c in active ::
      active[c] in positions && active[c].symbol == c.symbol && c.Usable()
  }

  lemma {:induction false} HoldsClosed(h: seq<Event>, positions: seq<Trade>, after: seq<Trade>, c: Candidate)
    requires Orderly(h) && HoldsActive(Active(h), positions) && c in Active(h)
    requires |after| == |positions| - 1 && forall t :: t in after <==> t in positions && t != Active(h)[c]
    ensures HoldsActive(Active(h) - {c}, after)
  {
    var active, rest := Active(h), Active(h) - {c};
    assert rest.Keys == active.Keys - {c};
    assert |rest.Keys| == |active.Keys| - 1;
    forall b | b in rest
      ensures rest[b] in after
    {
      ActiveOpened(h);
      if active[b] == active[c] { OpeningsInjective(h, b, c); }
    }
  }

  lemma {:induction false} HoldsOpened(active: map<Candidate, Trade>, positions: seq<Trade>, c: Candidate, t: Trade)
    requires HoldsActive(active, positions) && c !in active && t.symbol == c.symbol && c.Usable()
    ensures HoldsActive(active[c := t], positions + [t]) && active[c := t].Keys == active.Keys + {c}
  {
    assert active[c := t].Keys == active.Keys + {c};
    assert |active[c := t].Keys| == |active.Keys| + 1;
  }

  ghost function Members(cs: seq<Candidate>): set<Candidate> { set c | c in cs }

  lemma {:induction false} NotYet(cs: seq<Candidate>, i: nat)
    requires Distinct(cs) && i < |cs|
    ensures cs[i] !in Members(cs[..i])
  {
  }

  lemma {:induction false} AtMostAll(cs: seq<Candidate>, some: set<Candidate>)
    requires forall c | c in some :: c in cs
    ensures |some| <= |cs|
    decreases |cs|
  {
    if some != {} {
      var n := |cs| - 1;
      forall c | c in some - {cs[n]} ensures c in cs[..n] { assert c in cs && c != cs[n]; }
      AtMostAll(cs[..n], some - {cs[n]});
    }
  }

  lemma {:induction false} MembersStep(cs: seq<Candidate>, i: nat, all: set<Candidate>)
    requires i < |cs|
    ensures all - Members(cs[..i]) - {cs[i]} == all - Members(cs[..i + 1])
    ensures all + Members(cs[..i]) + {cs[i]} == all + Members(cs[..i + 1])
    ensures cs[i] in cs && Members(cs[..i + 1]) == Members(cs[..i]) + {cs[i]}
    ensures Members(cs[..i]) <= Members(cs)
  {
    assert cs[..i + 1] == cs[..i] + [cs[i]];
  }

  /** The collections a run fills: open positions by candidate, executed trades, rejections. */
  datatype Accounts = Accounts(active: map<Candidate, Trade>, executed: seq<Trade>, rejected: seq<Rejection>)
  {
    /** They say exactly what the history says. */
    ghost predicate Tell(h: seq<Event>) {
      Orderly(h) && active == Active(h) && executed == Executed(h) && rejected == Rejections(h)
    }
  }

  /** Nobody was settled and nobody opened. */
  ghost predicate SameAccounts(h: seq<Event>, g: seq<Event>) {
    Settled(g) == Settled(h) && Openings(g).Keys == Openings(h).Keys && forall d :: OpenedOn(g, d) == OpenedOn(h, d)
  }

  lemma {:induction false} TellsClosed(a: Accounts, h: seq<Event>, c: Candidate)
    requires a.Tell(h) && c in a.active
    ensures a.(active := a.active - {c}, executed := a.executed + [a.active[c]]).Tell(h + [Closed(c)])
  {
    Extended(h, Closed(c));
  }

  lemma {:induction false} TellsOpened(a: Accounts, h: seq<Event>, c: Candidate, t: Trade)
    requires a.Tell(h) && c !in Settled(h) && t !in Taken(h) && t.symbol == c.symbol
    ensures a.(active := a.active[c := t]).Tell(h + [Opened(c, t)])
    ensures c !in a.active && c !in Openings(h)
  {
    Extended(h, Opened(c, t));
    ActiveOpened(h);
  }

  lemma {:induction false} TellsRefused(a: Accounts, h: seq<Event>, c: Candidate, reason: Refusal)
    requires a.Tell(h) && c !in Settled(h)
    ensures a.(rejected := a.rejected + [Rejection(c, reason)]).Tell(h + [Refused(c, reason)])
  {
    Extended(h, Refused(c, reason));
  }

  /** The collections tell the history, and the portfolio is the one that history leaves. */
  ghost predicate Books(s: Setup, a: Accounts, h: seq<Event>, v: View, closed: seq<Trade>) {
    && s.Valid() && (s.config.Profitable() ==> v.cash >= 0.0) && |v.positions| <= s.limits.maxPositions
    && a.executed == closed && HoldsActive(a.active, v.positions) && a.Tell(h) && After(s, h) == v
  }

  lemma {:induction false} BooksRefused(s: Setup, a: Accounts, h: seq<Event>, v: View, closed: seq<Trade>,
      c: Candidate, reason: Refusal)
    requires Books(s, a, h, v, closed) && c !in Settled(h)
    ensures Books(s, a.(rejected := a.rejected + [Rejection(c, reason)]), h + [Refused(c, reason)], v, closed)
  {
    hide HoldsActive;
    TellsRefused(a, h, c, reason);
    AfterStep(s, h, Refused(c, reason));
  }

  lemma {:induction false} BooksOpened(s: Setup, a: Accounts, h: seq<Event>, v: View, closed: seq<Trade>,
      c: Candidate, t: Trade)
    requires Books(s, a, h, v, closed) && c !in Settled(h) && t !in v.positions && t !in closed
      && t.symbol == c.symbol && c.Usable()
    requires |v.positions| < s.limits.maxPositions && Bought(s, v, c, t).cash >= 0.0
    ensures Books(s, a.(active := a.active[c := t]), h + [Opened(c, t)], Bought(s, v, c, t), closed)
  {
    TakenWhere(h);
    hide After;
    TellsOpened(a, h, c, t);
    HoldsOpened(a.active, v.positions, c, t);
    AfterStep(s, h, Opened(c, t));
  }

  lemma {:induction false} BooksClosed(s: Setup, a: Accounts, h: seq<Event>, v: View, closed: seq<Trade>,
      c: Candidate, w: View)
    requires Books(s, a, h, v, closed) && c in a.active && c.exit.Some? && OneEach(v.positions)
    requires w == View(v.cash + Proceeds(c.exit.value.price, a.active[c].quantity, s.config),
      Without(v.positions, a.active[c]))
    requires s.config.Profitable() ==> w.cash >= 0.0
    ensures Books(s, a.(active := a.active - {c}, executed := a.executed + [a.active[c]]), h + [Closed(c)], w,
      closed + [a.active[c]])
  {
    hide After, OneEach;
    WithoutMembers(v.positions, a.active[c]);
    WithoutOne(v.positions, a.active[c]);
    HoldsClosed(h, v.positions, w.positions, c);
    TellsClosed(a, h, c);
    AfterStep(s, h, Closed(c));
  }

  /** What a stretch of the history did on one date: whom it settled, whom of them it bought, and at
      most how many. */
  ghost predicate Moved(h: seq<Event>, g: seq<Event>, settled: set<Candidate>, bought: set<Candidate>, date: Date,
      most: nat) {
    && Settled(g) == Settled(h) + settled && Openings(g).Keys == Openings(h).Keys + bought && bought <= settled
    && OpenedOn(g, date) <= OpenedOn(h, date) + most
    && forall d | d != date :: OpenedOn(g, d) == OpenedOn(h, d)
  }

  lemma {:induction false} MovedOne(h: seq<Event>, g: seq<Event>, e: Event, cs: seq<Candidate>, i: nat,
      bought: set<Candidate>, date: Date, active: set<Candidate>)
    returns (now: set<Candidate>)
    requires i < |cs| && Moved(h, g, Members(cs[..i]), bought, date, i)
    requires e.c == cs[i] && !e.Closed? && cs[i].entryDate == date
    ensures Moved(h, g + [e], Members(cs[..i + 1]), now, date, i + 1)
    ensures (if e.Opened? then active + bought + {e.c} else active + bought) == active + now
  {
    EventCounts(g, e);
    EventSettles(g, e);
    MembersStep(cs, i, {});
    now := if e.Opened? then bought + {e.c} else bought;
    assert Settled(h) + Members(cs[..i + 1]) == Settled(g) + {e.c};
  }

  lemma {:induction false} MovedNothing(h: seq<Event>, cs: seq<Candidate>, date: Date)
    ensures Moved(h, h, Members(cs[..0]), {}, date, 0)
  {
  }

  /** The candidates within the daily maximum. */
  ghost predicate CutAt(s: Setup, day: seq<Candidate>, allowed: seq<Candidate>) { allowed == day[..Cut(s, |day|)] }

  lemma {:induction false} SplitDay(s: Setup, all: seq<Candidate>, date: Date, allowed: seq<Candidate>,
      surplus: seq<Candidate>)
    requires Distinct(all) && allowed + surplus == DayOf(s, all, date) && |allowed| == Cut(s, |allowed + surplus|)
    ensures CutAt(s, DayOf(s, all, date), allowed) && surplus == DayOf(s, all, date)[Cut(s, |DayOf(s, all, date)|)..]
    ensures Distinct(allowed) && Distinct(surplus)
    ensures Members(Filter(all, EntersOn(date))) == Members(surplus) + Members(allowed)
      && Members(surplus) !! Members(allowed)
    ensures |allowed| == Cut(s, |Filter(all, EntersOn(date))|)
    ensures forall c | c in allowed || c in surplus :: c in Filter(all, EntersOn(date))
  {
    hide RankEntry, DayOf;
    var day, entries := DayOf(s, all, date), Filter(all, EntersOn(date));
    DayMembers(s, all, date);
    DaySize(s, all, date);
    SplitDistinct(allowed, surplus);
    assert Members(entries) == Members(allowed + surplus);
    hide Distinct, Filter;
  }

  lemma {:induction false} DaySize(s: Setup, all: seq<Candidate>, date: Date)
    ensures |DayOf(s, all, date)| == |Filter(all, EntersOn(date))|
  {
    var day, entries := DayOf(s, all, date), Filter(all, EntersOn(date));
    RankEntryMeans(s, entries, Missing);
    assert |multiset(day)| == |multiset(entries)|;
  }

  lemma {:induction false} SplitDistinct(a: seq<Candidate>, b: seq<Candidate>)
    requires Distinct(a + b)
    ensures Distinct(a) && Distinct(b) && Members(b) !! Members(a) && Members(a + b) == Members(b) + Members(a)
  {
    var all := a + b;
    forall i, j | 0 <= i < j < |a| ensures a[i] != a[j] { assert all[i] == a[i] && all[j] == a[j]; }
    forall i, j | 0 <= i < j < |b| ensures b[i] != b[j] { assert all[|a| + i] == b[i] && all[|a| + j] == b[j]; }
    forall i, j | 0 <= i < |a| && 0 <= j < |b| ensures a[i] != b[j] { assert all[i] == a[i] && all[|a| + j] == b[j]; }
  }

  lemma {:induction false} StandingStarts(s: Setup, all: seq<Candidate>, date: Date, h: seq<Event>, f: seq<Event>,
      allowed: seq<Candidate>,
      surplus: seq<Candidate>)
    requires s.Valid() && Justified(s, all, f) && InTime(f, date)
    requires allowed + surplus == DayOf(s, all, date) && |allowed| == Cut(s, |allowed + surplus|)
    requires Members(surplus) !! Members(allowed) && Moved(h, f, Members(surplus), {}, date, 0)
    requires forall c | c in Settled(h) :: c.entryDate != date
    requires forall c | c in allowed || c in surplus :: c.entryDate == date
    ensures Standing(s, all, date, f, 0)
  {
    hide Justified, InTime, DayOf;
    var day, k := DayOf(s, all, date), |allowed|;
    forall j | 0 <= j < k ensures day[j] !in Settled(f) {
      assert day[j] == allowed[j] && allowed[j] in Members(allowed);
    }
    forall j | k <= j < |day| ensures day[j] in Settled(f) {
      assert day[j] == surplus[j - k] && surplus[j - k] in Members(surplus);
    }
  }

  lemma {:induction false} StandingMeans(s: Setup, all: seq<Candidate>, date: Date, h: seq<Event>, i: nat)
    requires s.Valid() && Standing(s, all, date, h, i)
    ensures Justified(s, all, h) && InTime(h, date)
  {
  }

  lemma {:induction false} NextInTurn(s: Setup, all: seq<Candidate>, date: Date, h: seq<Event>, i: nat,
      allowed: seq<Candidate>)
    requires s.Valid() && Standing(s, all, date, h, i) && CutAt(s, DayOf(s, all, date), allowed) && i < |allowed|
    ensures allowed[i] == DayOf(s, all, date)[i] && i < Cut(s, |DayOf(s, all, date)|) && allowed[i] !in Settled(h)
  {
    hide Justified, InTime, DayOf;
  }

  lemma {:induction false} MovedJoin(h: seq<Event>, f: seq<Event>, g: seq<Event>, s: set<Candidate>,
      t: set<Candidate>, bought: set<Candidate>, date: Date,
      most: nat, all: set<Candidate>)
    requires Moved(h, f, s, {}, date, 0) && Moved(f, g, t, bought, date, most) && all == s + t
    ensures Moved(h, g, all, bought, date, most)
  {
  }

  lemma {:induction false} MovedAround(h: seq<Event>, f: seq<Event>, e: seq<Event>, g: seq<Event>, s: set<Candidate>,
      bought: set<Candidate>, date: Date, most: nat)
    requires SameAccounts(h, f) && Moved(f, e, s, bought, date, most) && SameAccounts(e, g)
    ensures Moved(h, g, s, bought, date, most)
  {
  }

  // --------------------------------------------------------------------- whole runs

  function IsClosed(): Candidate -> bool { (c: Candidate) => c.exit.Some? }

  function BySymbol(): (Candidate, Candidate) -> bool {
    (a: Candidate, b: Candidate) => CandidatePriority.SymbolAtMost(a.symbol, b.symbol)
  }

  function EventDates(cs: seq<Candidate>): set<Date> {
    (set c | c in cs && c.exit.Some? :: c.entryDate) + (set c | c in cs && c.exit.Some? :: c.exit.value.date)
  }

  /** Between two dates: entries before now are settled, those to come are not; a position is still
      open exactly if its exit date is to come, or came before its entry. */
  ghost predicate Progress(cs: seq<Candidate>, remaining: set<Date>, h: seq<Event>, active: set<Candidate>) {
    && (forall c | c in cs :: c in Settled(h) <==> c.entryDate !in remaining)
    && (forall c | c in Settled(h) :: c in cs)
    && (forall c | c in Openings(h) ::
      c in Settled(h) && (c in active <==> c.exit.Some? && (c.exit.value.date in remaining || c.EndsEarly())))
    && active <= Openings(h).Keys
  }

  /** The dates already processed come before those that remain. */
  ghost predicate DoneFirst(all: set<Date>, remaining: set<Date>) {
    remaining <= all && forall e, f | e in all && e !in remaining && f in remaining :: e < f
  }

  lemma {:induction false} DoneNext(all: set<Date>, remaining: set<Date>, d: Date)
    requires DoneFirst(all, remaining) && d in remaining && forall e | e in remaining :: d <= e
    ensures DoneFirst(all, remaining - {d}) && forall e | e in all && e !in remaining :: e < d
  {
  }

  lemma {:induction false} NothingDone(s: Setup, cs: seq<Candidate>)
    requires s.Valid() && forall c | c in cs :: c.exit.Some?
    ensures DoneFirst(EventDates(cs), EventDates(cs)) && Progress(cs, EventDates(cs), [], {}) && Justified(s, cs, [])
  {
  }

  lemma {:induction false} NotYetSettled(cs: seq<Candidate>, remaining: set<Date>, h: seq<Event>,
      active: set<Candidate>, d: Date)
    requires Progress(cs, remaining, h, active) && d in remaining
    ensures forall c | c in Settled(h) :: c.entryDate != d
  {
  }

  /** Once the exits of a date are closed, exactly the exits up to that date have happened. */
  lemma {:induction false} InTimeAfterExits(cs: seq<Candidate>, remaining: set<Date>, d: Date, h: seq<Event>,
      f: seq<Event>, active: set<Candidate>)
    requires Progress(cs, remaining, h, active) && DoneFirst(EventDates(cs), remaining)
    requires d in remaining && forall e | e in remaining :: d <= e
    requires SameAccounts(h, f) && Active(f).Keys == active - Members(Filter(cs, LeavesOn(d)))
    requires forall c | c in cs :: c.exit.Some?
    ensures InTime(f, d)
  {
    forall c | c in Openings(f)
      ensures c in Active(f) <==> StillIn(c, d)
    {
      assert c in Openings(h) && c in Settled(h) && c in cs;
      assert c.entryDate in EventDates(cs) && c.exit.value.date in EventDates(cs);
      assert c in Filter(cs, LeavesOn(d)) <==> c.exit.value.date == d && c.entryDate != d;
    }
  }

  lemma {:induction false} NextDate(cs: seq<Candidate>, remaining: set<Date>, d: Date, h: seq<Event>, g: seq<Event>,
      active: set<Candidate>, bought: set<Candidate>, most: nat)
    requires Progress(cs, remaining, h, active) && d in remaining
    requires (forall e | e in remaining :: d <= e) && forall e | e in EventDates(cs) && e !in remaining :: e < d
    requires forall c | c in cs :: c.exit.Some?
    requires Moved(h, g, Members(Filter(cs, EntersOn(d))), bought, d, most)
    ensures Progress(cs, remaining - {d}, g, active - Members(Filter(cs, LeavesOn(d))) + bought - Members(Filter(cs,
      PassesOn(d))))
  {
    var after := active - Members(Filter(cs, LeavesOn(d))) + bought - Members(Filter(cs, PassesOn(d)));
    forall c | c in Openings(g)
      ensures c in Settled(g) && c in cs && (c in after <==> c.exit.value.date in remaining - {d} || c.EndsEarly())
    {
      assert c in Filter(cs, EntersOn(d)) <==> c in cs && c.entryDate == d;
      assert c in Openings(h) ==> c in Settled(h);
      assert c in cs && c.entryDate in EventDates(cs) && c.exit.value.date in EventDates(cs);
    }
  }

  /** The earliest of some dates. */
  method Earliest(dates: set<Date>) returns (d: Date)
    requires dates != {}
    ensures d in dates && forall e | e in dates :: d <= e
  {
    ghost var x := PickOne(dates);
    d :| d in dates;
    var rest := dates - {d};
    while rest != {}
      invariant rest <= dates && d in dates && forall e | e in dates && e !in rest :: d <= e
      decreases |rest|
    {
      ghost var y := PickOne(rest);
      var e :| e in rest;
      if e < d { d := e; }
      rest := rest - {e};
    }
  }

  class PortfolioSimulator {
    const setup: Setup
    const ledger: Ledger

    /** The portfolio now. */
    function Now(): View
      reads ledger
    {
      View(ledger.cash, ledger.openPositions)
    }

    /** The books, the collections and the history agree. */
    ghost predicate Valid(a: Accounts, h: seq<Event>)
      reads ledger, ledger.openPositions, ledger.closedPositions
    {
      && ledger.Valid() && ledger.config == setup.config && ledger.initialCash == setup.initialCash
      && Books(setup, a, h, Now(), ledger.closedPositions)
    }

    constructor (setup: Setup)
      requires setup.Valid()
      ensures this.setup == setup && Valid(Accounts(map[], [], []), []) && fresh(ledger) && ledger.openPositions == []
    {
      this.setup := setup;
      ledger := new Ledger(setup.initialCash, setup.config);
    }

    // --------------------------------------------------------------------- closing

    /** `_close_candidate`: closes the candidate's position if it has one. */
    method CloseCandidate(a: Accounts, ghost h: seq<Event>, c: Candidate) returns (b: Accounts, ghost g: seq<Event>)
      requires Valid(a, h) && c.Usable()
      modifies ledger, ledger.Open()
      ensures Valid(b, g) && ledger.Open() <= old(ledger.Open())
      ensures g == if c in a.active then h + [Closed(c)] else h
      ensures SameAccounts(h, g)
      ensures b.active == a.active - {c}
    {
      hide Ledger.Valid, Books, Proceeds, OneEach, Without, Settled, Openings, OpenedOn;
      if c !in a.active { return a, h; }
      var trade := a.active[c];
      ActiveHeld(a, h, c);
      ghost var before, closed := Now(), ledger.closedPositions;
      var r := ledger.ClosePosition(trade.symbol, c.exit.value.date, c.exit.value.price, c.exit.value.reason);
      OneEachTrade(before.positions, r.value, trade);
      BooksClosed(setup, a, h, before, closed, c, Now());
      WithoutMembers(before.positions, trade);
      EventCounts(h, Closed(c));
      EventSettles(h, Closed(c));
      b, g := a.(active := a.active - {c}, executed := a.executed + [r.value]), h + [Closed(c)];
    }

    lemma {:induction false} ActiveHeld(a: Accounts, h: seq<Event>, c: Candidate)
      requires Valid(a, h) && c in a.active
      ensures a.active[c] in ledger.openPositions && OneEach(ledger.openPositions) && setup.Valid()
      ensures setup.config.Profitable() ==> ledger.cash >= 0.0
    {
    }

    method CloseAll(a: Accounts, ghost h: seq<Event>, cs: seq<Candidate>, ghost all: seq<Candidate>)
      returns (b: Accounts, ghost g: seq<Event>)
      requires Valid(a, h) && Justified(setup, all, h) && forall c | c in cs :: c.Usable()
      modifies ledger, ledger.Open()
      ensures Valid(b, g) && Justified(setup, all, g)
        && (forall t | t in ledger.openPositions :: t in old(ledger.openPositions))
      ensures SameAccounts(h, g)
      ensures b.active.Keys == a.active.Keys - Members(cs)
    {
      hide Valid, Justified, Settled, Openings, OpenedOn;
      HistoryOf(a, h);
      b, g := a, h;
      for i := 0 to |cs|
        invariant Valid(b, g) && Justified(setup, all, g) && ledger.Open() <= old(ledger.Open())
        invariant SameAccounts(h, g)
        invariant b.active.Keys == a.active.Keys - Members(cs[..i])
      {
        MembersStep(cs, i, a.active.Keys);
        JustifiedStep(setup, all, g, Closed(cs[i]));
        b, g := CloseCandidate(b, g, cs[i]);
      }
      assert cs[..|cs|] == cs;
      assert forall t | t in ledger.openPositions :: t in ledger.Open();
    }

    // --------------------------------------------------------------------- opening

    /** `_open_candidate`: the candidate is bought exactly when it passes the checks and the cash
        covers the purchase, and refused otherwise without touching the ledger. */
    method OpenCandidate(a: Accounts, ghost h: seq<Event>, c: Candidate, planned: Option<int>)
        returns (b: Accounts, ghost e: Event)
      requires Valid(a, h) && c.Usable() && c !in Settled(h)
      modifies ledger
      ensures Valid(b, h + [e]) && e.c == c && !e.Closed?
      ensures Decided(setup, old(Now()), c, planned, e)
      ensures if e.Refused?
        then Now() == old(Now()) && b == a.(rejected := a.rejected + [Rejection(c, e.reason)])
        else fresh(e.t) && Now() == Bought(setup, old(Now()), c, e.t) && b == a.(active := a.active[c := e.t])
    {
      hide Ledger.Valid;
      var q := QuantityFor(setup, Now(), c, planned);
      var reason := Objection(setup, Now(), c, q);
      ObjectionMeans(setup, Now(), c, q);
      if reason.None? {
        b, e := Purchase(a, h, c, q);
      } else {
        BooksRefused(setup, a, h, Now(), ledger.closedPositions, c, reason.value);
        b, e := a.(rejected := a.rejected + [Rejection(c, reason.value)]), Refused(c, reason.value);
      }
    }

    method Purchase(a: Accounts, ghost h: seq<Event>, c: Candidate, q: nat) returns (b: Accounts, ghost e: Event)
      requires Valid(a, h) && c.Usable() && c !in Settled(h) && Cleared(setup, Now(), c, q)
      modifies ledger
      ensures Valid(b, h + [e]) && e.c == c && !e.Closed?
      ensures e.Opened? <==> old(PurchaseCost(c.entryPrice, q, setup.config) <= ledger.cash)
      ensures if e.Refused?
        then
          && e.reason == Refusal.InsufficientCash && Now() == old(Now())
          && b == a.(rejected := a.rejected + [Rejection(c, Refusal.InsufficientCash)])
        else
          && fresh(e.t) && Takes(setup, c, q, e.t)
          && Now() == Bought(setup, old(Now()), c, e.t) && b == a.(active := a.active[c := e.t])
    {
      ObjectionMeans(setup, Now(), c, q);
      ghost var v := Now();
      var r := ledger.OpenPosition(c.symbol, c.entryDate, c.entryPrice, q, c.quality);
      hide Ledger.Valid, Books, PurchaseCost;
      if r.Ok? {
        BooksOpened(setup, a, h, v, ledger.closedPositions, c, r.value);
        b, e := a.(active := a.active[c := r.value]), Opened(c, r.value);
      } else {
        BooksRefused(setup, a, h, v, ledger.closedPositions, c, Refusal.InsufficientCash);
        b, e := a.(rejected := a.rejected + [Rejection(c, Refusal.InsufficientCash)]),
          Refused(c, Refusal.InsufficientCash);
      }
    }

    /** The candidates within the daily maximum, in their turns. */
    method OpenAll(a: Accounts, ghost h: seq<Event>, allowed: seq<Candidate>, plan: map<Candidate, int>,
        ghost all: seq<Candidate>, ghost date: Date)
      returns (b: Accounts, ghost g: seq<Event>, ghost bought: set<Candidate>)
      requires Valid(a, h) && Distinct(all) && Standing(setup, all, date, h, 0)
        && CutAt(setup, DayOf(setup, all, date), allowed)
      requires plan == DailyPlan(setup, PlanningView(setup, h, date), DayOf(setup, all, date))
      requires Distinct(allowed) && forall c | c in allowed :: c.Usable() && c.entryDate == date
      modifies ledger
      ensures Valid(b, g) && (forall t | t in ledger.openPositions :: t in old(ledger.openPositions) || fresh(t))
      ensures Justified(setup, all, g) && InTime(g, date)
      ensures Moved(h, g, Members(allowed), bought, date, |allowed|) && b.active.Keys == a.active.Keys + bought
    {
      hide Valid, Moved, Members, Distinct, Decided, DailyPlan, DayOf, Turn, Standing, Ledger.Valid, After,
        Justified, InTime, PlanningView, Settled, Openings, OpenedOn, Cut, Orderly, Active, QuantityFor;
      HistoryOf(a, h);
      b, g, bought := a, h, {};
      MovedNothing(h, allowed, date);
      for i := 0 to |allowed|
        invariant Valid(b, g) && (forall t | t in ledger.openPositions :: t in old(ledger.openPositions) || fresh(t))
        invariant Standing(setup, all, date, g, i)
          && plan == DailyPlan(setup, PlanningView(setup, g, date), DayOf(setup, all, date))
        invariant Moved(h, g, Members(allowed[..i]), bought, date, i) && b.active.Keys == a.active.Keys + bought
      {
        ghost var e;
        ghost var before := g;
        assert allowed[i] in allowed;
        NextInTurn(setup, all, date, g, i, allowed);
        HistoryOf(b, g);
        b, e := OpenCandidate(b, g, allowed[i], PlannedFor(plan, allowed[i]));
        HistoryOf(b, g + [e]);
        StandingNext(setup, all, date, before, i, e);
        bought := MovedOne(h, before, e, allowed, i, bought, date, a.active.Keys);
        g := g + [e];
      }
      assert allowed[..|allowed|] == allowed;
      StandingMeans(setup, all, date, g, |allowed|);
    }

    /** What validity says about the history. */
    lemma {:induction false} HistoryOf(a: Accounts, h: seq<Event>)
      requires Valid(a, h)
      ensures Orderly(h) && After(setup, h) == Now() && setup.Valid() && a.active == Active(h)
    {
    }

    /** The candidates beyond the daily maximum. */
    method RejectAll(a: Accounts, ghost h: seq<Event>, surplus: seq<Candidate>, ghost all: seq<Candidate>,
        ghost date: Date)
      returns (b: Accounts, ghost g: seq<Event>)
      requires Valid(a, h) && Distinct(all) && Justified(setup, all, h) && InTime(h, date)
      requires surplus == DayOf(setup, all, date)[Cut(setup, |DayOf(setup, all, date)|)..] && Distinct(surplus)
      requires forall c | c in surplus :: c.Usable() && c !in Settled(h) && c.entryDate == date
      ensures Valid(b, g) && b.active == a.active && Moved(h, g, Members(surplus), {}, date, 0)
      ensures Justified(setup, all, g) && InTime(g, date)
        && PlanningView(setup, g, date) == PlanningView(setup, h, date)
    {
      hide Ledger.Valid, Justified, InTime, After, PlanningView, DayOf, Settled, Openings, OpenedOn, Books;
      HistoryOf(a, h);
      b, g := a, h;
      for i := 0 to |surplus|
        invariant Valid(b, g) && Settled(g) == Settled(h) + Members(surplus[..i])
          && Openings(g).Keys == Openings(h).Keys && b.active == a.active
        invariant Justified(setup, all, g) && InTime(g, date)
          && PlanningView(setup, g, date) == PlanningView(setup, h, date)
        invariant forall d :: OpenedOn(g, d) == OpenedOn(h, d)
      {
        NotYet(surplus, i);
        MembersStep(surplus, i, Settled(h));
        BooksRefused(setup, b, g, Now(), ledger.closedPositions, surplus[i], DailyMaximum);
        HistoryOf(b.(rejected := b.rejected + [Rejection(surplus[i], DailyMaximum)]),
          g + [Refused(surplus[i], DailyMaximum)]);
        SurplusRefused(setup, all, date, g, surplus[i]);
        EventCounts(g, Refused(surplus[i], DailyMaximum));
        EventSettles(g, Refused(surplus[i], DailyMaximum));
        b, g := b.(rejected := b.rejected + [Rejection(surplus[i], DailyMaximum)]),
          g + [Refused(surplus[i], DailyMaximum)];
      }
      assert surplus[..|surplus|] == surplus;
    }

    // ------------------------------------------------------------------- one date

    /** `_allocate_daily_candidates`: quantities are planned for the eligible candidates. */
    method AllocateDaily(cs: seq<Candidate>) returns (plan: map<Candidate, int>)
      ensures plan == DailyPlan(setup, Now(), cs)
    {
      hide InvestablePct, View.Equity, View.Holds;
      if setup.policies.allocator.None? || setup.limits.maxPositions <= |ledger.openPositions| { return map[]; }
      var eligible := CollectEligible(cs);
      var pct := InvestablePct(setup, Now(), |eligible|);
      if eligible == [] || pct <= 0.0 { return map[]; }
      var allocations := setup.policies.allocator.value(eligible, Now().Equity(), pct);
      if allocations.None? { return map[]; }
      plan := map c | c in eligible && c in allocations.value :: allocations.value[c];
    }

    /** Its loop: the eligible candidates, until the free slots are used up. */
    method CollectEligible(cs: seq<Candidate>) returns (eligible: seq<Candidate>)
      requires setup.limits.maxPositions > |ledger.openPositions|
      ensures eligible == Eligible(setup, Now(), cs)
    {
      hide RegimeAdmits, MaximumFor, View.Holds;
      ghost var v := Now();
      var held := |ledger.openPositions|;
      eligible := [];
      for i := 0 to |cs|
        invariant eligible == Eligible(setup, v, cs[..i]) && |eligible| < FreeSlots(setup, v)
      {
        assert cs[..i + 1][..i] == cs[..i];
        if RegimeAdmits(cs[i]) && !Now().Holds(cs[i].symbol) && held + |eligible| < MaximumFor(setup, cs[i]) {
          eligible := eligible + [cs[i]];
          if |eligible| >= setup.limits.maxPositions - held {
            EligibleFull(setup, v, cs, i + 1);
            return;
          }
        }
      }
      assert cs[..|cs|] == cs;
    }

    /** The day's candidates in entry order, with planned quantities, and cut at the daily maximum. */
    method PlanDay(entries: seq<Candidate>)
        returns (allowed: seq<Candidate>, surplus: seq<Candidate>, plan: map<Candidate, int>)
      ensures allowed + surplus == RankEntry(setup, entries) && plan == DailyPlan(setup, Now(), allowed + surplus)
      ensures |allowed| == Cut(setup, |allowed + surplus|)
      ensures surplus != [] ==> setup.limits.maxNewPerDay == Some(|allowed|)
    {
      var ranked := RankEntry(setup, entries);
      plan := AllocateDaily(ranked);
      allowed, surplus := ranked, [];
      if setup.limits.maxNewPerDay.Some? && setup.limits.maxNewPerDay.value < |ranked| {
        surplus := ranked[setup.limits.maxNewPerDay.value..];
        allowed := ranked[..setup.limits.maxNewPerDay.value];
      }
      assert allowed + surplus == ranked;
    }

    method EnterAll(a: Accounts, ghost h: seq<Event>, entries: seq<Candidate>, ghost all: seq<Candidate>,
        ghost date: Date)
      returns (b: Accounts, ghost g: seq<Event>, ghost bought: set<Candidate>)
      requires Valid(a, h) && Distinct(all) && Justified(setup, all, h) && InTime(h, date)
        && entries == Filter(all, EntersOn(date))
      requires (forall c | c in entries :: c.Usable()) && forall c | c in Settled(h) :: c.entryDate != date
      modifies ledger
      ensures Valid(b, g) && (forall t | t in ledger.openPositions :: t in old(ledger.openPositions) || fresh(t))
      ensures Justified(setup, all, g) && b.active.Keys == a.active.Keys + bought
      ensures Moved(h, g, Members(entries), bought, date, Cut(setup, |entries|))
    {
      hide Valid, Moved, Justified, InTime, DailyPlan, Turn;
      HistoryOf(a, h);
      var allowed, surplus, plan := PlanDay(entries);
      ghost var f;
      SplitDay(setup, all, date, allowed, surplus);
      b, f := RejectAll(a, h, surplus, all, date);
      StandingStarts(setup, all, date, h, f, allowed, surplus);
      b, g, bought := OpenAll(b, f, allowed, plan, all, date);
      MovedJoin(h, f, g, Members(surplus), Members(allowed), bought, date, |allowed|, Members(entries));
    }

    /** One event date: earlier positions close first, then entries open, then same-day exits close. */
    method ProcessDate(a: Accounts, ghost h: seq<Event>, cs: seq<Candidate>, date: Date, ghost remaining: set<Date>)
      returns (b: Accounts, ghost g: seq<Event>, ghost bought: set<Candidate>)
      requires Valid(a, h) && Distinct(cs) && Justified(setup, cs, h) && forall c | c in cs :: c.Usable()
      requires Progress(cs, remaining, h, a.active.Keys) && DoneFirst(EventDates(cs), remaining)
      requires date in remaining && forall e | e in remaining :: date <= e
      modifies ledger, ledger.Open()
      ensures Valid(b, g) && (forall t | t in ledger.openPositions :: t in old(ledger.openPositions) || fresh(t))
      ensures Justified(setup, cs, g)
      ensures b.active.Keys == (a.active.Keys - Members(Filter(cs, LeavesOn(date)))) + bought - Members(Filter(cs,
        PassesOn(date)))
      ensures Moved(h, g, Members(Filter(cs, EntersOn(date))), bought, date, Cut(setup, |Filter(cs, EntersOn(date))|))
    {
      hide Ledger.Valid, Justified, InTime, DailyPlan, Progress, EventDates, DoneFirst, Moved, After;
      ghost var f, e;
      HistoryOf(a, h);
      NotYetSettled(cs, remaining, h, a.active.Keys, date);
      b, f := CloseAll(a, h, Filter(cs, LeavesOn(date)), cs);
      InTimeAfterExits(cs, remaining, date, h, f, a.active.Keys);
      b, e, bought := EnterAll(b, f, Filter(cs, EntersOn(date)), cs, date);
      b, g := CloseAll(b, e, Filter(cs, PassesOn(date)), cs);
      MovedAround(h, f, e, g, Members(Filter(cs, EntersOn(date))), bought, date,
        Cut(setup, |Filter(cs, EntersOn(date))|));
    }

    // --------------------------------------------------------------------- the run

    ghost predicate WithinDaily(h: seq<Event>) {
      setup.limits.maxNewPerDay.Some? ==> forall d :: OpenedOn(h, d) <= setup.limits.maxNewPerDay.value
    }

    lemma {:induction false} KeepsDaily(h: seq<Event>, g: seq<Event>, settled: set<Candidate>,
        bought: set<Candidate>, d: Date, n: nat)
      requires WithinDaily(h) && OpenedOn(h, d) == 0 && Moved(h, g, settled, bought, d, Cut(setup, n))
      ensures WithinDaily(g) && forall e | e != d :: OpenedOn(g, e) == OpenedOn(h, e)
    {
      forall e ensures setup.limits.maxNewPerDay.Some? ==> OpenedOn(g, e) <= setup.limits.maxNewPerDay.value {
        if e != d { assert OpenedOn(g, e) == OpenedOn(h, e); }
      }
    }

    /** `simulate` up to its last check: every event date in order. */
    method ProcessDates(cs: seq<Candidate>) returns (a: Accounts, ghost h: seq<Event>)
      requires Valid(Accounts(map[], [], []), []) && Distinct(cs) && forall c | c in cs :: c.Usable()
      modifies ledger, ledger.Open()
      ensures Valid(a, h) && Justified(setup, cs, h) && WithinDaily(h) && Progress(cs, {}, h, a.active.Keys)
    {
      hide Ledger.Valid, Distinct, Moved, Members, DoneFirst, Progress, EventDates, Justified, After, InTime, Filter,
        EntersOn, Cut, Settled, Openings, Orderly, Taken;
      a, h := Accounts(map[], [], []), [];
      var remaining := EventDates(cs);
      NothingDone(setup, cs);
      while remaining != {}
        invariant Valid(a, h) && DoneFirst(EventDates(cs), remaining) && Progress(cs, remaining, h, a.active.Keys)
        invariant Justified(setup, cs, h) && WithinDaily(h) && forall d | d in remaining :: OpenedOn(h, d) == 0
        invariant forall t | t in ledger.openPositions :: t in old(ledger.openPositions) || fresh(t)
        decreases |remaining|
      {
        var d := Earliest(remaining);
        ghost var before, was, bought := h, a.active.Keys, {};
        a, h, bought := ProcessDate(a, h, cs, d, remaining);
        DoneNext(EventDates(cs), remaining, d);
        NextDate(cs, remaining, d, before, h, was, bought, Cut(setup, |Filter(cs, EntersOn(d))|));
        KeepsDaily(before, h, Members(Filter(cs, EntersOn(d))), bought, d, |Filter(cs, EntersOn(d))|);
        remaining := remaining - {d};
      }
    }

    /** `simulate`: every closed candidate is settled once, as its history justifies. The run fails
        exactly when some candidate that was opened had its exit before its entry; otherwise no position
        stays open and the final cash is the initial cash plus the realized profit. */
    method Simulate(candidates: seq<Candidate>) returns (a: Accounts, stillOpen: nat, ghost h: seq<Event>)
      requires Valid(Accounts(map[], [], []), []) && Distinct(candidates)
      requires forall c | c in candidates && c.exit.Some? :: c.Usable()
      modifies ledger, ledger.Open()
      ensures Valid(a, h) && WithinDaily(h) && Justified(setup, InOrder(candidates), h)
      ensures forall c :: c in Settled(h) <==> c in candidates && c.exit.Some?
      ensures stillOpen > 0 <==> exists c :: c in Openings(h) && c.EndsEarly()
      ensures (forall c | c in candidates :: !c.EndsEarly()) ==> stillOpen == 0
      ensures stillOpen == |ledger.openPositions| == |a.active|
      ensures stillOpen == 0 ==>
        && ledger.cash == setup.initialCash + Realized(a.executed)
        && (forall c | c in candidates && c.exit.Some? && c in Openings(h) ::
              multiset(a.executed)[Openings(h)[c]] == 1 && RejectionsOf(a.rejected, c) == 0)
        && forall c | c in candidates && c.exit.Some? && c !in Openings(h) :: RejectionsOf(a.rejected, c) == 1
    {
      hide Justified, After;
      var closed := InOrder(candidates);
      InOrderMembers(candidates);
      a, h := ProcessDates(closed);
      stillOpen := |a.active|;
      AllSettled(closed, a, h, ledger.openPositions);
      OpenedSettled(h);
      if stillOpen == 0 { ClosedLedger(ledger); }
    }
  }

  /** The closed candidates in the order of their symbols. */
  function InOrder(candidates: seq<Candidate>): seq<Candidate> { Sorted(Filter(candidates, IsClosed()), BySymbol()) }

  /** Exactly the closed candidates, in alphabetical order of their symbols. */
  lemma {:induction false} InOrderExactly(candidates: seq<Candidate>, i: nat, j: nat)
    requires Distinct(candidates) && i < j < |InOrder(candidates)|
    ensures var cs := InOrder(candidates);
      cs[i] in candidates && cs[i].exit.Some? && CandidatePriority.Alphabetical(cs[i].symbol, cs[j].symbol)
  {
    var closed, cs := Filter(candidates, IsClosed()), InOrder(candidates);
    forall a: Candidate, b: Candidate, c: Candidate
      ensures BySymbol()(a, b) || BySymbol()(b, a)
      ensures BySymbol()(a, b) && BySymbol()(b, c) ==> BySymbol()(a, c)
    {
      CandidatePriority.SymbolOrder(a.symbol, b.symbol, c.symbol);
    }
    SortedOrdered(closed, BySymbol());
    assert BySymbol()(cs[i], cs[j]);
    CandidatePriority.SymbolExactly(cs[i].symbol, cs[j].symbol);
    InOrderMembers(candidates);
    assert cs[i] in cs;
  }

  lemma {:induction false} InOrderMembers(candidates: seq<Candidate>)
    requires Distinct(candidates)
    ensures Distinct(InOrder(candidates)) && forall c :: c in InOrder(candidates) <==> c in candidates && c.exit.Some?
  {
    FilterDistinct(candidates, IsClosed());
    SortedDistinct(Filter(candidates, IsClosed()), BySymbol());
    SortedMembers(Filter(candidates, IsClosed()), BySymbol());
  }

  lemma {:induction false} AllSettled(cs: seq<Candidate>, a: Accounts, h: seq<Event>, positions: seq<Trade>)
    requires a.Tell(h) && HoldsActive(a.active, positions) && Progress(cs, {}, h, a.active.Keys)
    ensures |a.active| > 0 <==> exists c :: c in Openings(h) && c.EndsEarly()
    ensures forall c :: c in Settled(h) <==> c in cs
    ensures |a.active| == 0 ==>
      && positions == []
      && (forall c | c in cs && c in Openings(h) ::
        multiset(a.executed)[Openings(h)[c]] == 1 && RejectionsOf(a.rejected, c) == 0)
      && forall c | c in cs && c !in Openings(h) :: RejectionsOf(a.rejected, c) == 1
  {
    if |a.active| == 0 {
      assert a.active == map[];
      forall c | c in cs
        ensures c in Openings(h) ==> multiset(a.executed)[Openings(h)[c]] == 1 && RejectionsOf(a.rejected, c) == 0
        ensures c !in Openings(h) ==> RejectionsOf(a.rejected, c) == 1
      {
        SettledOnce(h, c);
      }
    } else {
      var c := PickOne(a.active.Keys);
      assert c in Openings(h) && c.EndsEarly();
    }
  }

  function EarlyExit(): Candidate { Candidate(0, "A", 5, 10.0, Some(Exit(3, 12.0, TimeExit)), Missing, None) }

  /** No costs, no limits but one position, and always one share. */
  function OneShareSetup(): Setup {
    Setup(1000.0, TransactionCostConfig(0.0, 0.0, 0.0, 0.0, 0.0), Limits(1, None, None, 0.0, 1, 100.0), FirstCome,
      Policies((c, cash, equity) => 1, (c, q, equity, positions) => true, None, None))
  }

  lemma {:induction false} EarlyExitAlone()
    ensures InOrder([EarlyExit()]) == [EarlyExit()]
  {
    assert [EarlyExit()][..0] == [];
  }

  lemma {:induction false} EarlyExitCleared()
    ensures var s, c, v := OneShareSetup(), EarlyExit(), View(OneShareSetup().initialCash, []);
      && s.Valid() && c.Usable()
      && Verdict(s, v, c, QuantityFor(s, v, c, PlannedFor(DailyPlan(s, v, [c]), c))) == None
  {
    var s, c, v := OneShareSetup(), EarlyExit(), View(OneShareSetup().initialCash, []);
    assert PlannedFor(DailyPlan(s, v, [c]), c) == None && QuantityFor(s, v, c, None) == 1;
    EmptyPortfolioClears(s, c);
  }

  lemma {:induction false} EmptyPortfolioClears(s: Setup, c: Candidate)
    requires s == OneShareSetup() && c == EarlyExit()
    ensures Verdict(s, View(s.initialCash, []), c, 1) == None
  {
    hide Decide, WithinExposure, Buffer, EstimatedCost, PurchaseCost, MaximumFor, OneShareSetup, Objection;
    var v := View(s.initialCash, []);
    OneShareChecks(s, c, v);
    OneShareCosts(s, c, v);
    ObjectionMeans(s, v, c, 1);
  }

  lemma {:induction false} OneShareChecks(s: Setup, c: Candidate, v: View)
    requires s == OneShareSetup() && c == EarlyExit() && v == View(s.initialCash, [])
    ensures s.Valid() && c.Usable() && RegimeAdmits(c) && WithinExposure(s, v, c, 1)
    ensures Decide(c.symbol, c.quality, v.positions, MaximumFor(s, c), s.ranking, 0.0, false).Open?
    ensures s.policies.heatAllows(c, 1, v.Equity(), v.positions)
  {
    hide Gross, Exposure;
  }

  lemma {:induction false} OneShareCosts(s: Setup, c: Candidate, v: View)
    requires s == OneShareSetup() && c == EarlyExit() && v == View(s.initialCash, [])
    ensures v.cash == 1000.0 && Buffer(s, v) == 0.0 && EstimatedCost(s, c, 1) == 10.0
    ensures PurchaseCost(c.entryPrice, 1, s.config) == 10.0
  {
    OneShareEstimate(s, c);
    hide Gross, EstimatedCost;
    GrossOne(10.0);
    assert BuyPrice(10.0, s.config) == 10.0;
  }

  lemma {:induction false} OneShareEstimate(s: Setup, c: Candidate)
    requires s == OneShareSetup() && c == EarlyExit()
    ensures EstimatedCost(s, c, 1) == 10.0
  {
    var rate := 1.0 + (s.config.buyCommissionPct + s.config.buySlippagePct) / 100.0;
    hide Gross, OneShareSetup;
    GrossOne(c.entryPrice);
    assert EstimatedCost(s, c, 1) == c.entryPrice * rate;
  }

  lemma {:induction false} GrossOne(price: real)
    ensures Gross(price, 1) == price
  {
    TimesIs(1, price);
  }

  /** A position that cannot close: the exit comes two days before the entry. */
  method EarlyExitStaysOpen() returns (stillOpen: nat)
    ensures stillOpen == 1
  {
    hide OneShareSetup, EarlyExit, Verdict, QuantityFor, DailyPlan, Justified, Books, Ledger.Valid, InOrder;
    EarlyExitCleared();
    EarlyExitAlone();
    var c, setup := EarlyExit(), OneShareSetup();
    var simulator := new PortfolioSimulator(setup);
    var a;
    ghost var h;
    a, stillOpen, h := simulator.Simulate([c]);
    simulator.HistoryOf(a, h);
    AloneOpens(setup, c, h);
    ActiveOpened(h);
    OneAtMost(a.active.Keys, c);
    EarlyExitEnds();
  }

  lemma {:induction false} EarlyExitEnds()
    ensures EarlyExit().EndsEarly()
  {
  }

  lemma {:induction false} OneAtMost(cs: set<Candidate>, c: Candidate)
    requires cs <= {c}
    ensures |cs| <= 1
  {
    if cs != {} { assert cs == {c}; }
  }
}
