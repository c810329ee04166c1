/** Candidates and the history of what a simulation decided about them: the accounts every run keeps. */
module SimulationHistory {
  import opened MarketTypes
  import opened Ranking
  import opened Portfolio

  /** What the regime policy resolved for a candidate. */
  datatype Regime = Regime(unknown: bool, allowNew: bool, maxPositions: nat)

  /** A historical trade offered to the portfolio; the source tells candidates apart by object identity. */
  datatype Candidate = Candidate(
    identity: nat, symbol: Symbol, entryDate: Date, entryPrice: real, exit: Option<Exit>, quality: Value,
      regime: Option<Regime>)
  {
    /** Normalized symbol and usable prices; a regime that admits entries admits at least one. */
    predicate Usable() {
      && exit.Some? && symbol != "" && entryPrice > 0.0 && exit.value.price > 0.0
      && (regime.Some? && regime.value.allowNew ==> regime.value.maxPositions >= 1)
    }

    predicate EndsEarly() { exit.Some? && exit.value.date < entryDate }
  }

  /** Why a candidate was rejected. */
  datatype Refusal =
    | UnknownRegime | EntriesDisabled | WouldReplace | NotChosen(reason: string)
    | InsufficientCash | GrossExposure | CashBuffer | Heat | DailyMaximum

  datatype Event = Opened(c: Candidate, t: Trade) | Closed(c: Candidate) | Refused(c: Candidate, reason: Refusal)

  datatype Rejection = Rejection(candidate: Candidate, reason: Refusal)

  ghost function Last(h: seq<Event>): Event
    requires h != []
  {
    h[|h| - 1]
  }

  ghost function Prior(h: seq<Event>): (p: seq<Event>)
    requires h != []
    ensures |p| < |h|
  {
    h[..|h| - 1]
  }

  /** Candidates with an open position, and the position. */
  ghost function Active(h: seq<Event>): map<Candidate, Trade>
    decreases |h|
  {
    if h == [] then map[]
    else match Last(h)
      case Opened(c, t) => Active(Prior(h))[c := t]
      case Closed(c) => Active(Prior(h)) - {c}
      case Refused(_, _) => Active(Prior(h))
  }

  ghost function Openings(h: seq<Event>): map<Candidate, Trade>
    decreases |h|
  {
    if h == [] then map[] else if Last(h).Opened? then Openings(Prior(h))[Last(h).c := Last(h).t]
      else Openings(Prior(h))
  }

  ghost function Executed(h: seq<Event>): seq<Trade>
    decreases |h|
  {
    if h == [] then []
    else if Last(h).Closed? && Last(h).c in Active(Prior(h)) then Executed(Prior(h)) + [Active(Prior(h))[Last(h).c]]
    else Executed(Prior(h))
  }

  ghost function Rejections(h: seq<Event>): seq<Rejection>
    decreases |h|
  {
    if h == [] then [] else if Last(h).Refused? then Rejections(Prior(h)) + [Rejection(Last(h).c, Last(h).reason)]
      else Rejections(Prior(h))
  }

  ghost function RejectionsOf(rs: seq<Rejection>, c: Candidate): nat {
    if rs == [] then 0 else RejectionsOf(rs[..|rs| - 1], c) + if rs[|rs| - 1].candidate == c then 1 else 0
  }

  /** Candidates that were opened or refused. */
  ghost function Settled(h: seq<Event>): set<Candidate>
    decreases |h|
  {
    if h == [] then {} else if Last(h).Closed? then Settled(Prior(h)) else Settled(Prior(h)) + {Last(h).c}
  }

  /** Positions ever taken. */
  ghost function Taken(h: seq<Event>): set<Trade>
    decreases |h|
  {
    if h == [] then {} else if Last(h).Opened? then Taken(Prior(h)) + {Last(h).t} else Taken(Prior(h))
  }

  /** How many positions were opened with this entry date. */
  ghost function OpenedOn(h: seq<Event>, d: Date): nat
    decreases |h|
  {
    if h == [] then 0 else OpenedOn(Prior(h), d) + if Last(h).Opened? && Last(h).c.entryDate == d then 1 else 0
  }

  /** Each step is allowed: nobody is opened or refused twice, every opening takes a new position,
      and only open positions close. */
  ghost predicate Orderly(h: seq<Event>)
    decreases |h|
  {
    h == [] || (Orderly(Prior(h)) && match Last(h)
      case Opened(c, t) => c !in Settled(Prior(h)) && t !in Taken(Prior(h)) && t.symbol == c.symbol
      case Closed(c) => c in Active(Prior(h))
      case Refused(c, _) => c !in Settled(Prior(h)))
  }

  lemma {:induction false} Extended(h: seq<Event>, e: Event)
    ensures Prior(h + [e]) == h && Last(h + [e]) == e
  {
  }

  /** What one more event changes. */
  lemma {:induction false} EventCounts(h: seq<Event>, e: Event)
    ensures forall d :: OpenedOn(h + [e], d) == OpenedOn(h, d) + if e.Opened? && e.c.entryDate == d then 1 else 0
  {
    Extended(h, e);
  }

  lemma {:induction false} EventSettles(h: seq<Event>, e: Event)
    ensures Settled(h + [e]) == Settled(h) + if e.Closed? then {} else {e.c}
    ensures Openings(h + [e]).Keys == Openings(h).Keys + if e.Opened? then {e.c} else {}
  {
    Extended(h, e);
  }

  lemma {:induction false} ActiveOpened(h: seq<Event>)
    requires Orderly(h)
    ensures Active(h).Keys <= Openings(h).Keys <= Settled(h)
    ensures forall c | c in Active(h) :: Openings(h)[c] == Active(h)[c]
    ensures forall c | c in Openings(h) :: Openings(h)[c] in Taken(h) && Openings(h)[c].symbol == c.symbol
    decreases |h|
  {
    if h != [] { ActiveOpened(Prior(h)); }
  }

  /** No two candidates share a position. */
  lemma {:induction false} OpeningsInjective(h: seq<Event>, b: Candidate, c: Candidate)
    requires Orderly(h) && b in Openings(h) && c in Openings(h) && Openings(h)[b] == Openings(h)[c]
    ensures b == c
    decreases |h|
  {
    ActiveOpened(Prior(h));
    if b in Openings(Prior(h)) && c in Openings(Prior(h)) { OpeningsInjective(Prior(h), b, c); }
  }

  /** A position was executed exactly once if it is no longer active, and not yet if it is. */
  lemma {:induction false} ExecutedOnce(h: seq<Event>, c: Candidate)
    requires Orderly(h) && c in Openings(h)
    ensures multiset(Executed(h))[Openings(h)[c]] == if c in Active(h) then 0 else 1
    decreases |h|
  {
    var p, e := Prior(h), Last(h);
    ActiveOpened(p);
    ExecutedTaken(p);
    if c in Openings(p) {
      ExecutedOnce(p, c);
      if e.Closed? && Active(p)[e.c] == Openings(p)[c] { OpeningsInjective(p, e.c, c); }
    } else {
      assert Openings(h)[c] !in Executed(p);
    }
  }

  lemma {:induction false} ExecutedTaken(h: seq<Event>)
    requires Orderly(h)
    ensures forall t | t in Executed(h) :: t in Taken(h)
    decreases |h|
  {
    if h != [] {
      ExecutedTaken(Prior(h));
      ActiveOpened(Prior(h));
    }
  }

  /** Every position taken is still active or was executed. */
  lemma {:induction false} TakenWhere(h: seq<Event>)
    requires Orderly(h)
    ensures forall t | t in Taken(h) :: t in Executed(h) || t in Active(h).Values
    decreases |h|
  {
    if h != [] {
      var p, e := Prior(h), Last(h);
      TakenWhere(p);
      ActiveOpened(p);
      forall t | t in Taken(h)
        ensures t in Executed(h) || t in Active(h).Values
      {
        if t in Taken(p) {
          if t !in Executed(p) {
            var c :| c in Active(p) && Active(p)[c] == t;
            assert e.Closed? && e.c == c ==> t in Executed(h);
            assert !(e.Closed? && e.c == c) ==> c in Active(h) && Active(h)[c] == t;
          }
        } else {
          assert e.c in Active(h) && Active(h)[e.c] == t;
        }
      }
    }
  }

  /** Every execution is the position of a candidate that was opened. */
  lemma {:induction false} ExecutedOpened(h: seq<Event>, t: Trade) returns (c: Candidate)
    requires Orderly(h) && t in Executed(h)
    ensures c in Openings(h) && c !in Active(h) && Openings(h)[c] == t
    decreases |h|
  {
    var p, e := Prior(h), Last(h);
    ActiveOpened(p);
    if t in Executed(p) { c := ExecutedOpened(p, t); } else { c := e.c; }
  }

  lemma {:induction false} RejectedOnce(h: seq<Event>, c: Candidate)
    requires Orderly(h)
    ensures RejectionsOf(Rejections(h), c) == if c in Settled(h) && c !in Openings(h) then 1 else 0
    decreases |h|
  {
    if h != [] {
      var p, e := Prior(h), Last(h);
      RejectedOnce(p, c);
      ActiveOpened(p);
      if e.Refused? {
        assert Rejections(h)[..|Rejections(p)|] == Rejections(p);
      }
    }
  }

  /** A settled candidate without an open position ended in exactly one of the two lists, once. */
  lemma {:induction false} SettledOnce(h: seq<Event>, c: Candidate)
    requires Orderly(h) && c in Settled(h) && c !in Active(h)
    ensures c in Openings(h) ==> multiset(Executed(h))[Openings(h)[c]] == 1 && RejectionsOf(Rejections(h), c) == 0
    ensures c !in Openings(h) ==> RejectionsOf(Rejections(h), c) == 1 && forall t | t in Executed(h) :: exists b ::
      b in Openings(h) && b != c && Openings(h)[b] == t
  {
    RejectedOnce(h, c);
    if c in Openings(h) {
      ExecutedOnce(h, c);
    } else {
      forall t | t in Executed(h)
        ensures exists b :: b in Openings(h) && b != c && Openings(h)[b] == t
      {
        var b := ExecutedOpened(h, t);
      }
    }
  }
}
