/** The append-only observation log as a value: its tables, the queries over them, and one
    function per log transaction. Event ids are positions in `events`. */
module LogModel {
  import opened MarketTypes

  datatype Verdict =
    | InitialLoad | AppendSessions | NoNewSessions
    | RevisionChanged | OverlapIncomplete | HistoryExtension | DatasetMismatch

  /** What a blocked decision recorded: the sessions whose agreement must be re-established,
      and the stored rows of the request window it compared. */
  datatype Block = Block(verdict: Verdict, affected: set<Session>, auto: bool, window: Rows)

  /** The durable detail of a reviewed-rebase intent. */
  datatype Plan = Plan(block: nat, sessions: set<Session>, pre: Rows, post: Rows,
                       preVersion: VersionRef, supersedes: set<nat>)

  datatype Event =
    | Observed(obs: ObsId)
    | Admitted(obs: ObsId, verdict: Verdict)
    | Blocked(obs: ObsId, block: Block)
    | Intent(obs: ObsId, appended: set<Session>)
    | RebaseIntent(obs: ObsId, plan: Plan)
    | Abandoned(obs: ObsId)
    | Applied(obs: ObsId, version: VersionRef)
    | Superseded(obs: ObsId)
    | Note(obs: ObsId)
  {
    /** Receipts and annotations never move an observation between states. */
    predicate IsState() { !Note? }
    predicate IsIntent() { Intent? || RebaseIntent? }
    function Claimed(): set<Session> {
      match this case Intent(_, t) => t case RebaseIntent(_, p) => p.sessions case _ => {}
    }
    function Symbol(): Symbol { obs.Symbol() }
  }

  datatype Resolution =
    | Reviewed
    | Accepted(resolver: ObsId, decision: nat)
    | RebasedByReview(resolver: ObsId)
    | SupersededByRebase(resolver: ObsId, reviewedBlock: nat)

  datatype SymbolVersion = SymbolVersion(symbol: Symbol, ref: VersionRef)

  datatype RebaseRecord = RebaseRecord(block: nat, obs: ObsId, sessions: set<Session>, version: VersionRef)
  {
    function Symbol(): Symbol { obs.Symbol() }
  }

  datatype Owner = Owner(obs: ObsId, version: VersionRef)

  datatype Log = Log(
    observations: map<ObsId, seq<Session>>,      // identity -> sessions excluded after the cutoff
    events: seq<Event>,
    resolutions: map<nat, Resolution>,
    versions: seq<SymbolVersion>,
    owned: map<(Symbol, Session), Owner>,
    rebases: seq<RebaseRecord>)

  datatype LogError =
    | ImmutableMismatch | NoDecision | NotAdmitted | NotClaimed | VersionAdvanced | OwnershipConflict
    | NoSuchBlock | AlreadyResolved | BlockOwnedByPendingRebase | OpenApplication
    | NoRebaseIntent | IntentNotOpen | AlreadyApplied

  // ------------------------------------------------------------------ queries

  /** The last state-moving event of one observation, or -1. */
  function Latest(es: seq<Event>, o: ObsId): (r: int)
    ensures -1 <= r < |es|
    ensures r >= 0 ==> es[r].IsState() && es[r].obs == o
    ensures forall j | r < j < |es| && es[j].IsState() :: es[j].obs != o
  {
    if es == [] then -1
    else
      var n := |es| - 1;
      if es[n].IsState() && es[n].obs == o then n else Latest(es[..n], o)
  }

  lemma {:induction false} LatestIs(es: seq<Event>, o: ObsId, r: int)
    requires -1 <= r < |es|
    requires r >= 0 ==> es[r].IsState() && es[r].obs == o
    requires forall j | r < j < |es| && es[j].IsState() :: es[j].obs != o
    ensures Latest(es, o) == r
  {
  }

  lemma {:induction false} LatestAppend(es: seq<Event>, e: Event)
    ensures forall o :: Latest(es + [e], o) == if e.IsState() && e.obs == o then |es| else Latest(es, o)
  {
    forall o {
      LatestIs(es + [e], o, if e.IsState() && e.obs == o then |es| else Latest(es, o));
    }
  }

  predicate IsApplied(es: seq<Event>, o: ObsId) {
    exists k | 0 <= k < |es| :: es[k].Applied? && es[k].obs == o
  }

  /** An intent that is still the last state of its observation. */
  predicate Open(es: seq<Event>, i: int) {
    0 <= i < |es| && es[i].IsIntent() && Latest(es, es[i].obs) == i
  }

  function OpenIntents(es: seq<Event>, y: Symbol): set<nat> {
    set i: nat | i < |es| && Open(es, i) && es[i].Symbol() == y
  }

  function OpenRebases(es: seq<Event>, y: Symbol): set<nat> {
    set i: nat | i < |es| && Open(es, i) && es[i].Symbol() == y && es[i].RebaseIntent?
  }

  predicate OwnedByRebase(es: seq<Event>, b: nat) {
    exists i | 0 <= i < |es| :: Open(es, i) && es[i].RebaseIntent? && es[i].plan.block == b
  }

  predicate Unresolved(log: Log, b: nat) {
    b < |log.events| && log.events[b].Blocked? && b !in log.resolutions
  }

  function UnresolvedBlocks(log: Log, y: Symbol): set<nat> {
    set b: nat | b < |log.events| && Unresolved(log, b) && log.events[b].Symbol() == y
  }

  /** The latest version of one symbol. */
  function Head(vs: seq<SymbolVersion>, y: Symbol): VersionRef {
    if vs == [] then Baseline
    else
      var n := |vs| - 1;
      if vs[n].symbol == y then vs[n].ref else Head(vs[..n], y)
  }

  lemma {:induction false} HeadAppend(vs: seq<SymbolVersion>, v: SymbolVersion)
    ensures forall y :: Head(vs + [v], y) == if v.symbol == y then v.ref else Head(vs, y)
  {
    assert (vs + [v])[..|vs|] == vs;
  }

  predicate HasRebase(rs: seq<RebaseRecord>, y: Symbol) {
    exists k | 0 <= k < |rs| :: rs[k].Symbol() == y
  }

  predicate Rebased(rs: seq<RebaseRecord>, b: nat) {
    exists k | 0 <= k < |rs| :: rs[k].block == b
  }

  /** The dataset version: the latest version of every symbol that has one. */
  function DatasetVersion(vs: seq<SymbolVersion>): map<Symbol, VersionRef> {
    map v | v in vs :: v.symbol := Head(vs, v.symbol)
  }

  /** Observations neither applied nor blocked nor superseded, failed ones included. */
  predicate Pending(es: seq<Event>, o: ObsId) {
    var k := Latest(es, o);
    && k >= 0
    && (es[k].Observed? || es[k].Admitted? || es[k].IsIntent() || es[k].Abandoned?)
    && !IsApplied(es, o)
  }

  function PendingOn(log: Log, y: Symbol): set<ObsId> {
    set o | o in log.observations && o.Symbol() == y && Pending(log.events, o)
  }

  // ------------------------------------------------------------- transactions

  function AppendEvent(log: Log, e: Event): Log {
    log.(events := log.events + [e])
  }

  function PersistObservation(log: Log, o: ObsId, excluded: seq<Session>): Result<Log, LogError> {
    if o in log.observations then
      if log.observations[o] == excluded then Ok(log) else Err(ImmutableMismatch)
    else
      Ok(AppendEvent(log.(observations := log.observations[o := excluded]), Observed(o)))
  }

  /** Persisting is idempotent and immutable: what is stored stays as first stored, a repeat adds nothing,
      a repeat with other exclusions is refused, and no other observation changes its state. */
  lemma {:induction false} PersistOnce(log: Log, o: ObsId, excluded: seq<Session>, other: seq<Session>)
    ensures var r := PersistObservation(log, o, excluded);
      && (r.Err? <==> o in log.observations && log.observations[o] != excluded)
      && (r.Ok? ==>
            && r.value.observations == log.observations[o := excluded]
            && (forall x | x in log.observations :: r.value.observations[x] == log.observations[x])
            && PersistObservation(r.value, o, excluded) == r
            && (other != excluded ==> PersistObservation(r.value, o, other) == Err(ImmutableMismatch))
            && (forall x | x != o || x in log.observations :: Latest(r.value.events, x) == Latest(log.events, x))
            && (o !in log.observations ==>
              r.value.events[Latest(r.value.events, o)] == Observed(o) && |log.events| == Latest(r.value.events, o)))
  {
    if o !in log.observations { LatestAppend(log.events, Observed(o)); }
  }

  /** May the accepting decision `d` of the symbol lift block `b`? */
  predicate Liftable(es: seq<Event>, resolutions: map<nat, Resolution>, y: Symbol, b: nat, d: nat,
                     confirmed: set<Session>)
  {
    && b < |es| && b < d
    && es[b].Blocked? && es[b].Symbol() == y
    && b !in resolutions
    && !OwnedByRebase(es, b)
    && es[b].block.auto
    && es[b].block.affected != {}
    && es[b].block.affected <= confirmed
    && forall j | d < j < |es| && es[j].Blocked? && es[j].Symbol() == y :: es[b].block.affected !! es[j].block.affected
  }

  function LiftedBy(es: seq<Event>, resolutions: map<nat, Resolution>, y: Symbol, o: ObsId, d: nat,
                    confirmed: set<Session>): map<nat, Resolution>
  {
    map b: nat | b < |es| && Liftable(es, resolutions, y, b, d, confirmed) :: Accepted(o, d)
  }

  /** What a finalization may rely on from its decision: the decision event, the version bound
      at it, and the sessions it compared and found identical. */
  datatype Binding = Binding(decision: nat, bound: VersionRef, confirmed: set<Session>)

  function RecordApplication(log: Log, o: ObsId, sessions: set<Session>, content: Rows,
                             binding: Option<Binding>): Result<Log, LogError>
  {
    var y := o.Symbol();
    var k := Latest(log.events, o);
    var head := Head(log.versions, y);
    if IsApplied(log.events, o) then Ok(log)
    else if sessions == {} && binding.None? then Err(NoDecision)
    else if sessions == {} && !(k >= 0 && log.events[k].Admitted? && k == binding.value.decision) then Err(NotAdmitted)
    else if sessions != {} && !(k >= 0 && log.events[k].IsIntent() && log.events[k].Claimed() == sessions)
      then Err(NotClaimed)
    else if sessions != {} && binding.Some? && binding.value.bound != head then Err(VersionAdvanced)
    else if exists t | t in sessions :: (y, t) in log.owned then Err(OwnershipConflict)
    else
      var ref := if sessions == {} then binding.value.bound else Version(head, o, sessions, content, Append);
      var events := log.events + [Applied(o, ref)];
      var grown := log.(
        events := events,
        versions := if sessions == {} then log.versions else log.versions + [SymbolVersion(y, ref)],
        owned := log.owned + map t | t in sessions :: (y, t) := Owner(o, ref));
      Ok(if binding.None? then grown
         else grown.(resolutions := log.resolutions +
                LiftedBy(events, log.resolutions, y, o, binding.value.decision, binding.value.confirmed)))
  }

  function ResolveBlock(log: Log, b: nat): Result<Log, LogError> {
    if !(b < |log.events| && log.events[b].Blocked?) then Err(NoSuchBlock)
    else if b in log.resolutions then Err(AlreadyResolved)
    else if OwnedByRebase(log.events, b) then Err(BlockOwnedByPendingRebase)
    else Ok(log.(resolutions := log.resolutions[b := Reviewed]))
  }

  function RecordRebaseIntent(log: Log, o: ObsId, plan: Plan): Result<Log, LogError> {
    if !(plan.block < |log.events| && log.events[plan.block].Blocked? && log.events[plan.block].obs == o)
      then Err(NoSuchBlock)
    else if plan.block in log.resolutions then Err(AlreadyResolved)
    else if OpenIntents(log.events, o.Symbol()) != {} then Err(OpenApplication)
    else Ok(AppendEvent(log, RebaseIntent(o, plan)))
  }

  function RecordRebase(log: Log, i: nat): Result<Log, LogError> {
    if !(i < |log.events| && log.events[i].RebaseIntent?) then Err(NoRebaseIntent)
    else
      var o, plan := log.events[i].obs, log.events[i].plan;
      var y := o.Symbol();
      var head := Head(log.versions, y);
      if Rebased(log.rebases, plan.block) then Ok(log)
      else if Latest(log.events, o) != i then Err(IntentNotOpen)
      else if plan.block in log.resolutions || plan.block in plan.supersedes then Err(AlreadyResolved)
      else if head != plan.preVersion then Err(VersionAdvanced)
      else if IsApplied(log.events, o) then Err(AlreadyApplied)
      else
        var ref := Version(head, o, plan.sessions, plan.post, Rebase(plan.block));
        Ok(log.(
          events := log.events + [Applied(o, ref)],
          versions := log.versions + [SymbolVersion(y, ref)],
          rebases := log.rebases + [RebaseRecord(plan.block, o, plan.sessions, ref)],
          resolutions := (map b | b in plan.supersedes :: SupersededByRebase(o, plan.block))
                         + log.resolutions + map[plan.block := RebasedByReview(o)]))
  }

  // ------------------------------------------------------------- verification

  /** Does the stored history match the baseline slice and the latest version? */
  predicate Verified(log: Log, base: Rows, y: Symbol, stored: Rows) {
    && (base != map[] && !HasRebase(log.rebases, y) ==>
          base == map t | t in stored && (exists k | k in base :: t <= k) :: stored[t])
    && match Head(log.versions, y)
       case Version(_, _, _, content, _) => stored == content
       case Baseline => forall t | t in stored :: exists k | k in base :: t <= k
  }
}
