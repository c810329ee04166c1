/** The overlap comparison, the settlement of open intents, and the reviewed rebase plan. */
module Admission {
  import opened MarketTypes
  import opened LogModel

  datatype Comparison = Comparison(
    verdict: Verdict,
    changed: set<Session>,      // stored in the window with another value
    missing: set<Session>,      // stored in the window, absent from the candidate
    unstored: set<Session>,     // offered inside the stored history, never stored
    newer: set<Session>,        // offered after the latest stored session
    confirmed: set<Session>)    // stored in the window with the offered value
  {
    predicate Admits() { verdict.InitialLoad? || verdict.AppendSessions? || verdict.NoNewSessions? }
  }

  function Classify(stored: Rows, candidate: Rows, start: Session, end: Session): Comparison {
    var window := InWindow(stored, start, end);
    var changed := set t | t in window && t in candidate && window[t] != candidate[t];
    var missing := set t | t in window && t !in candidate;
    var unstored := set t | t in candidate && t !in stored && exists k | k in stored :: t <= k;
    var newer := set t | t in candidate && forall k | k in stored :: k < t;
    var confirmed := set t | t in window && t in candidate && window[t] == candidate[t];
    var verdict :=
      if stored == map[] then InitialLoad
      else if window == map[] then OverlapIncomplete
      else if changed != {} then RevisionChanged
      else if missing != {} then OverlapIncomplete
      else if unstored != {} then HistoryExtension
      else if newer != {} then AppendSessions
      else NoNewSessions;
    Comparison(verdict, changed, missing, unstored, newer, confirmed)
  }

  function Affected(c: Comparison, stored: Rows): set<Session> {
    var direct := c.changed + c.missing + c.unstored;
    if c.Admits() then {}
    else if direct == {} && stored != map[] then {LatestOf(stored.Keys)}
    else direct
  }

  function BlockFor(c: Comparison, stored: Rows, o: ObsId): Block {
    Block(c.verdict, Affected(c, stored), true, InWindow(stored, o.Start(), o.End()))
  }

  /** An unresolved block of the same observation and verdict: the retry only adds a receipt. */
  predicate AlreadyBlocked(log: Log, o: ObsId, v: Verdict) {
    exists b | 0 <= b < |log.events| :: Unresolved(log, b) && log.events[b].obs == o && log.events[b].block.verdict == v
  }

  /** May an applied receipt be reused against the stored rows? */
  predicate ReceiptMatches(rows: Rows, stored: Rows) {
    forall t | t in rows :: t in stored && stored[t] == rows[t]
  }

  // ------------------------------------------------------------------ recovery

  datatype Settlement = Finalized(log: Log) | Dropped(log: Log) | Ambiguous | Refused(error: LogError)

  /** Settle one open intent from the rows the market holds. */
  function Settle(log: Log, i: nat, stored: Rows): Settlement
    requires i < |log.events| && log.events[i].IsIntent()
  {
    var e := log.events[i];
    match e
    case RebaseIntent(o, plan) =>
      if stored == plan.post then
        (match RecordRebase(log, i) case Ok(l) => Finalized(l) case Err(x) => Refused(x))
      else if plan.sessions <= stored.Keys && stored == plan.pre then Dropped(AppendEvent(log, Abandoned(o)))
      else Ambiguous
    case _ =>
      var rows, sessions := e.obs.Rows(), e.Claimed();
      if sessions != {} && forall t | t in sessions :: t in rows && t in stored && stored[t] == rows[t] then
        (match RecordApplication(log, e.obs, sessions, stored, None) case Ok(l) => Finalized(l) case Err(x) =>
          Refused(x))
      else if forall t | t in sessions :: t !in stored then Dropped(AppendEvent(log, Abandoned(e.obs)))
      else Ambiguous
  }

  // -------------------------------------------------------------------- rebase

  datatype Refusal =
    | NoSuchBlockRefusal | BlockObservationMismatch | BlockNotUnresolved | RequiresRevisionBlock | BlockNotLatest
    | PendingApplication | BasisDrift | BasisChanged | IncompleteCoverage | RequiresPureValueRevision
    | SessionsDifferFromBlock | NoncontiguousChange | OpenExposure

  /** Is an older proposal completely compatible with the resulting basis? */
  predicate CompatibleProposal(rows: Rows, start: Session, end: Session, post: Rows) {
    && post != map[]
    && (forall t | t in rows && exists k | k in post :: t <= k :: t in post && post[t] == rows[t])
    && forall t | t in post && start <= t <= end :: t in rows
  }

  function Supersedable(log: Log, y: Symbol, b: nat, post: Rows): set<nat> {
    set c: nat | c < |log.events| && c < b && Unresolved(log, c) && log.events[c].Symbol() == y
                 && log.events[c].block.verdict.RevisionChanged? && log.events[c].block.auto
                 && log.events[c].block.affected != {}
                 && CompatibleProposal(log.events[c].obs.Rows(), log.events[c].obs.Start(), log.events[c].obs.End(),
                   post)
  }

  function PlanRebase(log: Log, base: Rows, stored: Rows, o: ObsId, b: nat, exposed: bool): Result<Plan, Refusal> {
    var y := o.Symbol();
    if !(b < |log.events| && log.events[b].Blocked?) then Err(NoSuchBlockRefusal)
    else if log.events[b].obs != o then Err(BlockObservationMismatch)
    else if b in log.resolutions then Err(BlockNotUnresolved)
    else if !log.events[b].block.verdict.RevisionChanged? || !log.events[b].block.auto then Err(RequiresRevisionBlock)
    else if exists c | c in UnresolvedBlocks(log, y) :: b < c then Err(BlockNotLatest)
    else if OpenIntents(log.events, y) != {} then Err(PendingApplication)
    else if !Verified(log, base, y, stored) then Err(BasisDrift)
    else if InWindow(stored, o.Start(), o.End()) != log.events[b].block.window then Err(BasisChanged)
    else if stored == map[] || (exists t | t in stored :: t < o.Start() || o.End() < t) then Err(IncompleteCoverage)
    else
      var c := Classify(stored, o.Rows(), o.Start(), o.End());
      if !c.verdict.RevisionChanged? || c.missing != {} || c.unstored != {} then Err(RequiresPureValueRevision)
      else if c.changed != log.events[b].block.affected then Err(SessionsDifferFromBlock)
      else if exists t, k | t in c.changed && k in stored.Keys - c.changed :: k < t then Err(NoncontiguousChange)
      else if exposed then Err(OpenExposure)
      else
        var post := Overlay(stored, o.Rows(), c.changed);
        Ok(Plan(b, c.changed, stored, post, Head(log.versions, y), Supersedable(log, y, b, post)))
  }
}
