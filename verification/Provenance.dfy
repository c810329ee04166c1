/** Where a stored session came from: the single-session query, the bulk window query, the
    consumer gate, and the invariant that makes an attribution true of the stored value. */
module Provenance {
  import opened MarketTypes
  import opened LogModel
  import opened Protocol

  datatype Origin =
    | PendingApplication | Removed | Unattributed | Absent | BaselineLegacy | RebasedHistory | Observation

  datatype Attribution = Attribution(origin: Origin, obs: Option<ObsId>, version: Option<VersionRef>)

  /** The latest rebase that replaced the session, or -1. */
  function LatestRebase(rs: seq<RebaseRecord>, y: Symbol, t: Session): (r: int)
    ensures -1 <= r < |rs|
    ensures r >= 0 ==> rs[r].Symbol() == y && t in rs[r].sessions
    ensures forall k | r < k < |rs| && rs[k].Symbol() == y :: t !in rs[k].sessions
  {
    if rs == [] then -1
    else
      var n := |rs| - 1;
      if rs[n].Symbol() == y && t in rs[n].sessions then n else LatestRebase(rs[..n], y, t)
  }

  predicate Claims(es: seq<Event>, i: int, y: Symbol, t: Session, rebaseOnly: bool) {
    Open(es, i) && es[i].Symbol() == y && t in es[i].Claimed() && (rebaseOnly ==> es[i].RebaseIntent?)
  }

  /** The first open intent from `from` on that claims the session, or -1. */
  function FirstClaim(es: seq<Event>, y: Symbol, t: Session, rebaseOnly: bool, from: nat := 0): (r: int)
    ensures r == -1 || (from <= r && Claims(es, r, y, t, rebaseOnly))
    ensures r == -1 ==> forall i | from <= i < |es| :: !Claims(es, i, y, t, rebaseOnly)
    decreases |es| - from
  {
    if from >= |es| then -1
    else if Claims(es, from, y, t, rebaseOnly) then from
    else FirstClaim(es, y, t, rebaseOnly, from + 1)
  }

  predicate Claimed(es: seq<Event>, y: Symbol, t: Session) { FirstClaim(es, y, t, false) >= 0 }

  /** The single-session classification, from what its queries returned in order: presence in the
      market, open intents, rebases, applied sessions, open intents again, and the baseline. */
  function SessionRead(present: bool, first: seq<Event>, rebases: seq<RebaseRecord>,
      owned: map<(Symbol, Session), Owner>,
                       second: seq<Event>, base: Rows, y: Symbol, t: Session): Attribution
  {
    var byRebase, rebase, pending := FirstClaim(first, y, t, true), LatestRebase(rebases, y, t),
      FirstClaim(second, y, t, false);
    if byRebase >= 0 then Attribution(PendingApplication, Some(first[byRebase].obs), None)
    else if rebase >= 0 then
      Attribution(if present then RebasedHistory else Removed, Some(rebases[rebase].obs), Some(rebases[rebase].version))
    else if (y, t) in owned then
      Attribution(if present then Observation else Removed, Some(owned[(y, t)].obs), Some(owned[(y, t)].version))
    else if pending >= 0 then Attribution(PendingApplication, Some(second[pending].obs), None)
    else if !present then Attribution(Absent, None, None)
    else if exists k | k in base :: t <= k then Attribution(BaselineLegacy, None, Some(Baseline))
    else Attribution(Unattributed, None, None)
  }

  function SessionProvenance(s: System, y: Symbol, t: Session): Attribution {
    SessionRead(t in s.Stored(y), s.log.events, s.log.rebases, s.log.owned, s.log.events, s.Base(y), y, t)
  }

  // -------------------------------------------------------------------- window

  /** One `(session, origin, observation)` triple of a window summary. */
  datatype Triple = Triple(session: Session, origin: Origin, obs: Option<ObsId>)

  /** A window summary; the digest over the ordered triples is injective, so it is the triples. */
  datatype Summary = Summary(counts: map<Origin, nat>, triples: set<Triple>)

  function Bump(counts: map<Origin, nat>, o: Origin): map<Origin, nat> {
    counts[o := (if o in counts then counts[o] else 0) + 1]
  }

  /** The counts are the histogram of the triples' origins. */
  ghost predicate Histogram(counts: map<Origin, nat>, triples: set<Triple>) {
    && (forall x | x in triples :: x.origin in counts)
    && forall o | o in counts :: counts[o] == |Having(triples, o)| && counts[o] > 0
  }

  function Having(triples: set<Triple>, o: Origin): set<Triple> { set x | x in triples && x.origin == o }

  lemma {:induction false} HistogramAdd(counts: map<Origin, nat>, triples: set<Triple>, x: Triple)
    requires Histogram(counts, triples) && x !in triples
    ensures Histogram(Bump(counts, x.origin), triples + {x})
  {
    var grown := triples + {x};
    forall o
      ensures Having(grown, o) == if o == x.origin then Having(triples, o) + {x} else Having(triples, o)
    {
    }
    if x.origin !in counts { assert Having(triples, x.origin) == {}; }
  }

  /** What the queries of a window summary return. */
  datatype WindowQueries = WindowQueries(
    present: set<Session>, applied: map<Session, ObsId>, rebased: set<Session>,
    pending: set<Session>, rebasePending: set<Session>, base: Rows)
  {
    predicate Sound() { rebased <= applied.Keys && rebasePending <= pending }

    function Origin(t: Session): Origin {
      if t in present then
        if t in rebasePending then PendingApplication
        else if t in rebased then RebasedHistory
        else if t in applied then Observation
        else if t in pending then PendingApplication
        else if exists k | k in base :: t <= k then BaselineLegacy
        else Unattributed
      else if t in applied then Removed
      else PendingApplication
    }

    function Row(t: Session): Triple {
      var o := Origin(t);
      Triple(t, o, if t in applied && !o.PendingApplication? then Some(applied[t]) else None)
    }

    function Covered(): set<Session> { present + applied.Keys + pending }

    function Triples(): set<Triple> { set t | t in Covered() :: Row(t) }
  }

  function WindowRebased(rs: seq<RebaseRecord>, y: Symbol, start: Session, end: Session): (ts: set<Session>)
    ensures forall t :: t in ts <==> start <= t <= end && LatestRebase(rs, y, t) >= 0
  {
    var ts := set r, t | r in rs && t in r.sessions && r.Symbol() == y && start <= t <= end :: t;
    assert forall t | start <= t <= end && LatestRebase(rs, y, t) >= 0 :: rs[LatestRebase(rs, y, t)] in rs;
    ts
  }

  function WindowOwned(owned: map<(Symbol, Session), Owner>, y: Symbol, start: Session,
      end: Session): (m: map<Session, ObsId>)
    ensures forall t :: t in m <==> start <= t <= end && (y, t) in owned
    ensures forall t | t in m :: m[t] == owned[(y, t)].obs
  {
    var ts := set k | k in owned && k.0 == y && start <= k.1 <= end :: k.1;
    assert forall t | start <= t <= end && (y, t) in owned :: (y, t).1 in ts;
    map t | t in ts :: owned[(y, t)].obs
  }

  function WindowClaims(es: seq<Event>, intents: set<nat>, start: Session, end: Session): (ts: set<Session>)
    requires forall i | i in intents :: i < |es|
    ensures forall t | t in ts :: start <= t <= end
  {
    set i, t | i in intents && t in es[i].Claimed() && start <= t <= end :: t
  }

  /** The queries of one window summary, each answered by the state it happened to read. */
  function AssembleWindow(present: Rows, owned: map<(Symbol, Session), Owner>, rs: seq<RebaseRecord>, es: seq<Event>,
                          base: Rows, y: Symbol, start: Session, end: Session): (q: WindowQueries)
    ensures q.Sound()
    ensures forall t | t in q.Covered() :: start <= t <= end
  {
    var rebased := WindowRebased(rs, y, start, end);
    var latest := map t | t in rebased :: rs[LatestRebase(rs, y, t)].obs;
    assert OpenRebases(es, y) <= OpenIntents(es, y);
    WindowQueries((set t | t in present && start <= t <= end), WindowOwned(owned, y, start, end) + latest, rebased,
                  WindowClaims(es, OpenIntents(es, y), start, end), WindowClaims(es, OpenRebases(es, y), start, end),
                    base)
  }

  function ReadWindow(s: System, y: Symbol, start: Session, end: Session): WindowQueries {
    AssembleWindow(s.Stored(y), s.log.owned, s.log.rebases, s.log.events, s.Base(y), y, start, end)
  }

  /** The summary so far covers `known` and what is left of `part` is `rest`. */
  ghost predicate Tallied(q: WindowQueries, known: set<Session>, part: set<Session>, rest: set<Session>, r: Summary) {
    rest <= part && r.triples == (set t | t in known + (part - rest) :: q.Row(t)) && Histogram(r.counts, r.triples)
  }

  function Counted(r: Summary, x: Triple): Summary { Summary(Bump(r.counts, x.origin), r.triples + {x}) }

  lemma {:induction false} TallyOne(q: WindowQueries, known: set<Session>, part: set<Session>, rest: set<Session>,
      r: Summary, x: Triple)
    requires Tallied(q, known, part, rest, r) && x.session in rest && known !! part && x == q.Row(x.session)
    ensures Tallied(q, known, part, rest - {x.session}, Counted(r, x))
  {
    var t := x.session;
    assert known + (part - (rest - {t})) == known + (part - rest) + {t};
    assert x !in r.triples by {
      forall u | u in known + (part - rest) ensures q.Row(u) != x { assert q.Row(u).session == u; }
    }
    HistogramAdd(r.counts, r.triples, x);
  }

  lemma {:induction false} TallyNext(q: WindowQueries, known: set<Session>, part: set<Session>, r: Summary,
      next: set<Session>)
    requires Tallied(q, known, part, {}, r)
    ensures Tallied(q, known + part, next, next, r)
  {
    assert known + (part - {}) == (known + part) + (next - next);
  }

  lemma {:induction false} TallyStart(q: WindowQueries)
    ensures Tallied(q, {}, q.present, q.present, Summary(map[], {}))
  {
    assert {} + (q.present - q.present) == {};
  }

  lemma {:induction false} TallyEnd(q: WindowQueries, known: set<Session>, part: set<Session>, r: Summary)
    requires Tallied(q, known, part, {}, r) && known + part == q.Covered()
    ensures r.triples == q.Triples() && Histogram(r.counts, r.triples)
  {
    assert known + (part - {}) == q.Covered();
  }

  /** `window_provenance`: one pass over the stored sessions, one over attributed sessions that are
      gone, one over sessions only an open intent knows. */
  method SummarizeWindow(q: WindowQueries) returns (r: Summary)
    requires q.Sound()
    ensures r.triples == q.Triples() && Histogram(r.counts, r.triples)
  {
    TallyStart(q);
    r := SummarizePresent(q);
    var removed := q.applied.Keys - q.present;
    TallyNext(q, {}, q.present, r, removed);
    assert {} + q.present == q.present;
    r := SummarizeRemoved(q, removed, r);
    var waiting := q.pending - q.present - q.applied.Keys;
    TallyNext(q, q.present, removed, r, waiting);
    r := SummarizeWaiting(q, q.present + removed, waiting, r);
    TallyEnd(q, q.present + removed, waiting, r);
  }

  method SummarizePresent(q: WindowQueries) returns (r: Summary)
    requires q.Sound()
    ensures Tallied(q, {}, q.present, {}, r)
  {
    TallyStart(q);
    r := Summary(map[], {});
    var rest := q.present;
    while rest != {}
      invariant Tallied(q, {}, q.present, rest, r)
      decreases |rest|
    {
      var t := PickSession(rest);
      var x :=
        if t in q.rebasePending then Triple(t, PendingApplication, None)
        else if t in q.rebased then Triple(t, RebasedHistory, Some(q.applied[t]))
        else if t in q.applied then Triple(t, Observation, Some(q.applied[t]))
        else if t in q.pending then Triple(t, PendingApplication, None)
        else if exists k | k in q.base :: t <= k then Triple(t, BaselineLegacy, None)
        else Triple(t, Unattributed, None);
      TallyOne(q, {}, q.present, rest, r, x);
      r, rest := Counted(r, x), rest - {t};
    }
  }

  method SummarizeRemoved(q: WindowQueries, removed: set<Session>, before: Summary) returns (r: Summary)
    requires q.Sound() && removed == q.applied.Keys - q.present
    requires Tallied(q, q.present, removed, removed, before)
    ensures Tallied(q, q.present, removed, {}, r)
  {
    r := before;
    var rest := removed;
    while rest != {}
      invariant Tallied(q, q.present, removed, rest, r)
      decreases |rest|
    {
      var t := PickSession(rest);
      var x := Triple(t, Removed, Some(q.applied[t]));
      TallyOne(q, q.present, removed, rest, r, x);
      r, rest := Counted(r, x), rest - {t};
    }
  }

  method SummarizeWaiting(q: WindowQueries, known: set<Session>, waiting: set<Session>, before: Summary)
      returns (r: Summary)
    requires q.Sound() && waiting == q.pending - q.present - q.applied.Keys && known !! waiting
    requires Tallied(q, known, waiting, waiting, before)
    ensures Tallied(q, known, waiting, {}, r)
  {
    r := before;
    var rest := waiting;
    while rest != {}
      invariant Tallied(q, known, waiting, rest, r)
      decreases |rest|
    {
      var t := PickSession(rest);
      var x := Triple(t, PendingApplication, None);
      TallyOne(q, known, waiting, rest, r, x);
      r, rest := Counted(r, x), rest - {t};
    }
  }

  method PickSession(ts: set<Session>) returns (t: Session)
    requires ts != {}
    ensures t in ts
  {
    PickExists(ts);
    t :| t in ts;
  }

  lemma {:induction false} PickExists(ts: set<Session>)
    requires ts != {}
    ensures exists t :: t in ts
  {
    var t := PickOne(ts);
  }

  /** The bulk query's triple against the single-session classification, in ANY state: they agree on
      the origin unless the session is absent from the market, was attributed before, and is claimed
      by an open rebase. */
  lemma {:induction false} BulkAgreesExactly(s: System, y: Symbol, start: Session, end: Session, t: Session)
    requires start <= t <= end && t in ReadWindow(s, y, start, end).Covered()
    ensures var row, one := ReadWindow(s, y, start, end).Row(t), SessionProvenance(s, y, t);
      && (row.origin == one.origin <==>
            !(t !in s.Stored(y) && t in ReadWindow(s, y, start, end).applied
              && FirstClaim(s.log.events, y, t, true) >= 0))
      && (row.origin == one.origin ==> row.obs == if one.origin.PendingApplication? then None else one.obs)
  {
    hide Open, Latest;
    var es, q := s.log.events, ReadWindow(s, y, start, end);
    ClaimsInWindow(s, y, start, end, t);
  }

  lemma {:induction false} ClaimsInWindow(s: System, y: Symbol, start: Session, end: Session, t: Session)
    requires start <= t <= end
    ensures t in ReadWindow(s, y, start, end).pending <==> FirstClaim(s.log.events, y, t, false) >= 0
    ensures t in ReadWindow(s, y, start, end).rebasePending <==> FirstClaim(s.log.events, y, t, true) >= 0
  {
    var es := s.log.events;
    var i, j := FirstClaim(es, y, t, false), FirstClaim(es, y, t, true);
    if i >= 0 { assert i in OpenIntents(es, y); }
    if j >= 0 { assert j in OpenRebases(es, y); }
    forall k: nat | k in OpenIntents(es, y) && t in es[k].Claimed() ensures i >= 0 {
      assert Claims(es, k, y, t, false);
    }
    forall k: nat | k in OpenRebases(es, y) && t in es[k].Claimed() ensures j >= 0 { assert Claims(es, k, y, t, true); }
  }

  // ---------------------------------------------------------------------- gate

  datatype GateResult = GateResult(blocked: set<Symbol>, pending: set<Symbol>, mismatched: set<Symbol>)
  {
    predicate Passes() { blocked == {} && pending == {} && mismatched == {} }
  }

  /** `check_market_provenance` over the wanted symbols; all symbols when None. */
  function CheckMarketProvenance(s: System, wanted: Option<set<Symbol>>, verifyContent: bool): GateResult {
    var log := s.log;
    var blocks := set b: nat | b < |log.events| && Unresolved(log, b) :: log.events[b].Symbol();
    var intents := set i: nat | i < |log.events| && Open(log.events, i) :: log.events[i].Symbol();
    var versioned := set v | v in log.versions :: v.symbol;
    var targets := if wanted.Some? then wanted.value else s.market.Keys + s.baseline.Keys + versioned;
    GateResult(
      if wanted.Some? then blocks * wanted.value else blocks,
      if wanted.Some? then intents * wanted.value else intents,
      if verifyContent then set y | y in targets && !Verified(log, s.Base(y), y, s.Stored(y)) else {})
  }

  // ------------------------------------------------------------- what the answers assert

  /** Open intent `i` claims the session. */
  ghost predicate ClaimedBy(es: seq<Event>, i: int, y: Symbol, t: Session) {
    0 <= i < |es| && Open(es, i) && es[i].obs.Symbol() == y && t in es[i].Claimed()
  }

  ghost predicate RebasePending(es: seq<Event>, y: Symbol, t: Session) {
    exists i :: ClaimedBy(es, i, y, t) && es[i].RebaseIntent?
  }

  ghost predicate Replaced(rs: seq<RebaseRecord>, y: Symbol, t: Session) {
    exists k :: 0 <= k < |rs| && rs[k].obs.Symbol() == y && t in rs[k].sessions
  }

  /** The single-session answer of any state, its origin and what it names: an open rebase first, then the latest
      rebase, the owner, any other open intent, and the baseline. */
  ghost predicate AnswerTold(s: System, y: Symbol, t: Session, a: Attribution) {
    var es, rs, owned, present := s.log.events, s.log.rebases, (y, t) in s.log.owned, t in s.Stored(y);
    var rebasing, replaced := RebasePending(es, y, t), Replaced(rs, y, t);
    var unknown := !replaced && !owned && forall i :: !ClaimedBy(es, i, y, t);
    match a.origin
    case PendingApplication =>
      && (rebasing || (!replaced && !owned)) && a.version.None?
      && exists i :: ClaimedBy(es, i, y, t) && (rebasing ==> es[i].RebaseIntent?) && a.obs == Some(es[i].obs)
                     && forall j | 0 <= j < i && (rebasing ==> es[j].RebaseIntent?) :: !ClaimedBy(es, j, y, t)
    case Removed => !rebasing && !present && (replaced || owned) && NamesSource(s, y, t, a)
    case RebasedHistory => !rebasing && present && replaced && NamesSource(s, y, t, a)
    case Observation => !rebasing && present && !replaced && owned && NamesSource(s, y, t, a)
    case Absent => unknown && !present && a.obs.None? && a.version.None?
    case BaselineLegacy =>
      unknown && present && (exists k :: k in s.Base(y) && t <= k) && a.obs.None? && a.version == Some(Baseline)
    case Unattributed =>
      unknown && present && (forall k | k in s.Base(y) :: k < t) && a.obs.None? && a.version.None?
  }

  /** The attribution names the latest rebase that replaced the session, or else its owner. */
  ghost predicate NamesSource(s: System, y: Symbol, t: Session, a: Attribution) {
    var rs := s.log.rebases;
    if Replaced(rs, y, t) then
      exists k :: 0 <= k < |rs| && rs[k].obs.Symbol() == y && t in rs[k].sessions
                  && (forall j | k < j < |rs| && rs[j].obs.Symbol() == y :: t !in rs[j].sessions)
                  && a.obs == Some(rs[k].obs) && a.version == Some(rs[k].version)
    else
      (y, t) in s.log.owned && a.obs == Some(s.log.owned[(y, t)].obs) && a.version == Some(s.log.owned[(y, t)].version)
  }

  lemma {:induction false} FirstClaimExactly(es: seq<Event>, y: Symbol, t: Session, rebaseOnly: bool)
    ensures var i := FirstClaim(es, y, t, rebaseOnly);
      && (i >= 0 <==> exists j :: ClaimedBy(es, j, y, t) && (rebaseOnly ==> es[j].RebaseIntent?))
      && (i >= 0 ==> ClaimedBy(es, i, y, t) && (rebaseOnly ==> es[i].RebaseIntent?)
                     && forall j | 0 <= j < i && (rebaseOnly ==> es[j].RebaseIntent?) :: !ClaimedBy(es, j, y, t))
  {
    FirstIsFirst(es, y, t, rebaseOnly, 0);
    forall j | 0 <= j < |es|
      ensures Claims(es, j, y, t, rebaseOnly) <==> ClaimedBy(es, j, y, t) && (rebaseOnly ==> es[j].RebaseIntent?) {}
  }

  lemma {:induction false} FirstIsFirst(es: seq<Event>, y: Symbol, t: Session, rebaseOnly: bool, from: nat)
    ensures var i := FirstClaim(es, y, t, rebaseOnly, from);
      i >= 0 ==> forall j | from <= j < i :: !Claims(es, j, y, t, rebaseOnly)
    decreases |es| - from
  {
    if from < |es| && !Claims(es, from, y, t, rebaseOnly) { FirstIsFirst(es, y, t, rebaseOnly, from + 1); }
  }

  lemma {:induction false} SessionExactly(s: System, y: Symbol, t: Session)
    ensures AnswerTold(s, y, t, SessionProvenance(s, y, t))
  {
    var es, rs := s.log.events, s.log.rebases;
    FirstClaimExactly(es, y, t, true);
    FirstClaimExactly(es, y, t, false);
    var k := LatestRebase(rs, y, t);
    assert k >= 0 <==> Replaced(rs, y, t) by {
      if k >= 0 { assert rs[k].obs.Symbol() == y && t in rs[k].sessions; }
    }
    hide FirstClaim, LatestRebase, ClaimedBy;
  }

  /** What the gate reports in any state: the wanted symbols with an unresolved block, those with an open intent, and,
      if contents are to be verified, those whose stored history does not verify. */
  lemma {:induction false} GateResultExactly(s: System, wanted: Option<set<Symbol>>, verifyContent: bool, y: Symbol)
    ensures var r := CheckMarketProvenance(s, wanted, verifyContent);
      && (y in r.blocked <==>
            && (wanted.None? || y in wanted.value)
            && exists b :: 0 <= b < |s.log.events| && s.log.events[b].Blocked? && b !in s.log.resolutions
                           && s.log.events[b].obs.Symbol() == y)
      && (y in r.pending <==>
            && (wanted.None? || y in wanted.value)
            && exists i :: 0 <= i < |s.log.events| && Open(s.log.events, i) && s.log.events[i].obs.Symbol() == y)
      && (y in r.mismatched <==>
            && verifyContent && !Verified(s.log, s.Base(y), y, s.Stored(y))
            && if wanted.Some? then y in wanted.value
               else y in s.market || y in s.baseline || exists v :: v in s.log.versions && v.symbol == y)
      && (r.Passes() <==> r.blocked + r.pending + r.mismatched == {})
  {
    hide Verified, Open;
    var r := CheckMarketProvenance(s, wanted, verifyContent);
    if r.Passes() { assert r.blocked + r.pending + r.mismatched == {}; }
    if r.blocked + r.pending + r.mismatched == {} {
      assert r.blocked <= r.blocked + r.pending + r.mismatched && r.pending <= r.blocked + r.pending + r.mismatched;
    }
  }
}
