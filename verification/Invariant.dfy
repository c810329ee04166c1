/** The inductive invariant of the write protocol. */
module Invariant {
  import opened MarketTypes
  import opened LogModel
  import opened Admission
  import opened Protocol

  // ------------------------------------------------------------------ log only

  ghost predicate Known(log: Log) {
    && (forall o | o in log.observations :: o.Valid())
    && forall k | 0 <= k < |log.events| :: log.events[k].obs in log.observations
  }

  /** An application result is the last word on its observation. */
  ghost predicate Absorbing(es: seq<Event>) {
    forall k | 0 <= k < |es| && es[k].Applied? :: Latest(es, es[k].obs) == k
  }

  ghost predicate OneOpen(es: seq<Event>) {
    forall i, j | Open(es, i) && Open(es, j) && es[i].Symbol() == es[j].Symbol() :: i == j
  }

  ghost predicate NoOpen(es: seq<Event>, y: Symbol) {
    forall i | Open(es, i) :: es[i].Symbol() != y
  }

  ghost predicate Chained(vs: seq<SymbolVersion>) {
    forall k | 0 <= k < |vs| ::
      vs[k].ref.Version? && vs[k].ref.parent == Head(vs[..k], vs[k].symbol) && vs[k].ref.obs.Symbol() == vs[k].symbol
  }

  ghost predicate RebasesResolved(log: Log) {
    forall k | 0 <= k < |log.rebases| :: log.rebases[k].block in log.resolutions
  }

  ghost predicate ResolvedBlocks(log: Log) {
    forall b | b in log.resolutions :: b < |log.events| && log.events[b].Blocked?
  }

  ghost predicate IsRevision(es: seq<Event>, b: int) {
    0 <= b < |es| && es[b].Blocked? && es[b].block.verdict.RevisionChanged?
  }

  /** At most one unresolved revision block per observation. */
  ghost predicate OneRevision(log: Log) {
    forall b, c | IsRevision(log.events, b) && IsRevision(log.events, c)
                  && b !in log.resolutions && c !in log.resolutions && log.events[b].obs == log.events[c].obs :: b == c
  }

  // ------------------------------------------------------- log against market

  ghost predicate Before(rows: Rows, t: Session) { forall k | k in rows :: k < t }

  ghost predicate Inside(rows: Rows, t: Session) { exists k | k in rows :: t < k }

  /** A rebase plan against the current stored content of its symbol. */
  ghost predicate PlanSound(s: System, o: ObsId, plan: Plan) {
    var content, rows := s.Content(o.Symbol()), o.Rows();
    && plan.pre == content && plan.preVersion == Head(s.log.versions, o.Symbol())
    && plan.post == Overlay(content, rows, plan.sessions)
    && plan.sessions != {} && plan.sessions <= content.Keys && plan.sessions <= rows.Keys
    && (forall t | t in content :: t in rows && (rows[t] == content[t] <==> t !in plan.sessions))
    && (forall t | t in rows && t !in content :: Before(content, t))
    && IsRevision(s.log.events, plan.block) && s.log.events[plan.block].obs == o
    && forall c | c in plan.supersedes ::
         c < plan.block && s.log.events[c].Blocked? && s.log.events[c].Symbol() == o.Symbol()
  }

  ghost predicate IntentSound(s: System, i: nat)
    requires i < |s.log.events| && s.log.events[i].IsIntent()
  {
    var e := s.log.events[i];
    var y, rows := e.Symbol(), e.obs.Rows();
    var content := s.Content(y);
    && e.Claimed() != {} && e.Claimed() <= rows.Keys
    && (e.Intent? ==> forall t | t in e.Claimed() :: Before(content, t))
    && (e.RebaseIntent? ==> PlanSound(s, e.obs, e.plan) && e.plan.block !in s.log.resolutions)
    && s.Stored(y) == if i in s.committed then Overlay(content, rows, e.Claimed()) else content
  }

  ghost predicate OpenSound(s: System) {
    forall i: nat | Open(s.log.events, i) :: IntentSound(s, i)
  }

  ghost predicate CommittedIntents(s: System) {
    forall i | i in s.committed :: i < |s.log.events| && s.log.events[i].IsIntent()
  }

  ghost predicate LandedOn(s: System, y: Symbol) {
    exists i | i in s.committed :: Open(s.log.events, i) && s.log.events[i].Symbol() == y
  }

  /** A symbol with no committed open intent stores exactly its replay. */
  ghost predicate Quiet(s: System) {
    forall y :: s.Stored(y) == s.Content(y) || LandedOn(s, y)
  }

  ghost predicate Lineages(s: System) {
    forall y :: Lineage(s.Base(y), Head(s.log.versions, y))
  }

  /** Every session added to the baseline is later than all of it; without a rebase the
      baseline rows are unchanged; the sessions beyond the baseline are the owned ones. */
  ghost predicate Grown(s: System, y: Symbol) {
    var base, content := s.Base(y), s.Content(y);
    && base.Keys <= content.Keys
    && (forall t | t in content && t !in base :: Before(base, t))
    && (!HasRebase(s.log.rebases, y) ==> forall t | t in base :: content[t] == base[t])
    && forall t :: (y, t) in s.log.owned <==> t in content && t !in base
  }

  ghost predicate AllGrown(s: System) { forall y :: Grown(s, y) }

  /** What a revision block still says about the stored content. */
  ghost predicate RevisionSound(s: System, b: nat)
    requires IsRevision(s.log.events, b)
  {
    var o, block := s.log.events[b].obs, s.log.events[b].block;
    var content := s.Content(o.Symbol());
    && block.auto && block.affected != {}
    && (forall t | t in block.window :: t in content && o.Start() <= t <= o.End())
    && (forall t | t in block.affected :: t in block.window || (t in o.Rows() && t !in content && Inside(content, t)))
    && (b !in s.log.resolutions && IsApplied(s.log.events, o) ==>
          exists t | t in content && t !in block.window :: o.Start() <= t <= o.End())
  }

  ghost predicate RevisionsSound(s: System) {
    forall b: nat | IsRevision(s.log.events, b) :: RevisionSound(s, b)
  }

  ghost predicate LogInv(log: Log) {
    && Known(log) && Absorbing(log.events) && OneOpen(log.events)
    && Chained(log.versions) && RebasesResolved(log) && ResolvedBlocks(log) && OneRevision(log)
  }

  ghost predicate Core(s: System) {
    && LogInv(s.log)
    && OpenSound(s) && CommittedIntents(s) && Quiet(s) && Lineages(s) && AllGrown(s) && RevisionsSound(s)
  }

  // ----------------------------------------------------------------- processes

  /** A queued intent that its own process finalized meanwhile. */
  ghost predicate Landed(s: System, i: nat)
    requires i < |s.log.events| && s.log.events[i].IsIntent()
  {
    var e := s.log.events[i];
    var stored := s.Stored(e.Symbol());
    && IsApplied(s.log.events, e.obs)
    && (e.Intent? ==> e.Claimed() != {} && forall t | t in e.Claimed() ::
      t in e.obs.Rows() && t in stored && stored[t] == e.obs.Rows()[t])
    && (e.RebaseIntent? ==> stored == e.plan.post && Rebased(s.log.rebases, e.plan.block))
  }

  ghost predicate QueueSound(s: System, y: Symbol, queue: set<nat>) {
    forall i | i in queue ::
      && i < |s.log.events| && s.log.events[i].IsIntent() && s.log.events[i].Symbol() == y
      && (Open(s.log.events, i) || Landed(s, i))
  }

  ghost predicate Fresh(s: System, o: ObsId) {
    o in s.log.observations && !IsApplied(s.log.events, o)
  }

  ghost predicate NoBlockAfter(es: seq<Event>, y: Symbol, d: nat) {
    forall j | d < j < |es| && es[j].Blocked? :: es[j].Symbol() != y
  }

  /** A decision still speaks about the current content of its symbol. */
  ghost predicate DecisionSound(s: System, o: ObsId, binding: Binding) {
    var content := s.Content(o.Symbol());
    && binding.decision < |s.log.events| && s.log.events[binding.decision].Admitted?
    && s.log.events[binding.decision].obs == o
    && binding.bound == Head(s.log.versions, o.Symbol())
    && (forall t | t in binding.confirmed :: t in content && t in o.Rows() && content[t] == o.Rows()[t])
    && NoBlockAfter(s.log.events, o.Symbol(), binding.decision)
  }

  ghost predicate HolderSound(s: System, pc: Held) {
    match pc
    case Settling(purpose, y, queue) =>
      && QueueSound(s, y, queue)
      && (purpose.ForAdmission? ==> purpose.obs in s.log.observations && purpose.obs.Symbol() == y
                                    && OpenIntents(s.log.events, y) <= queue)
      && (purpose.ForRebase? ==> purpose.obs.Symbol() == y)
    case Superseding(o, stale) =>
      && Fresh(s, o) && NoOpen(s.log.events, o.Symbol())
      && forall x | x in stale :: Fresh(s, x) && x.Symbol() == o.Symbol() && x != o
    case Verifying(o) => Fresh(s, o) && NoOpen(s.log.events, o.Symbol())
    case Blocking(o, block, again) =>
      && Fresh(s, o) && NoOpen(s.log.events, o.Symbol())
      && (!again ==> !AlreadyBlocked(s.log, o, block.verdict))
      && var c := Classify(s.Content(o.Symbol()), o.Rows(), o.Start(), o.End());
      !c.Admits() && block == BlockFor(c, s.Content(o.Symbol()), o)
    case Annotating(o) => o in s.log.observations
    case Decided(o, binding, newer) =>
      && Fresh(s, o) && NoOpen(s.log.events, o.Symbol())
      && DecisionSound(s, o, binding)
      && Latest(s.log.events, o) == binding.decision
      && var c := Classify(s.Content(o.Symbol()), o.Rows(), o.Start(), o.End());
      c.Admits() && binding.confirmed == c.confirmed && newer == c.newer
    case Intended(o, i, binding) =>
      && Open(s.log.events, i) && s.log.events[i].Intent? && s.log.events[i].obs == o
      && i !in s.committed && binding.decision < i
      && DecisionSound(s, o, binding)
    case Planned(o, plan) =>
      && PlanSound(s, o, plan) && NoOpen(s.log.events, o.Symbol())
      && InWindow(s.Content(o.Symbol()), o.Start(), o.End()) == s.log.events[plan.block].block.window
    case RebaseIntended(i) =>
      Open(s.log.events, i) && s.log.events[i].RebaseIntent? && i !in s.committed
    case Releasing => true
  }

  ghost predicate FinisherSound(s: System, f: Finisher) {
    match f
    case AppendFinisher(o, i, binding, content) =>
      && i < |s.log.events| && s.log.events[i].Intent? && s.log.events[i].obs == o
      && (IsApplied(s.log.events, o) ||
            (Open(s.log.events, i) && i in s.committed && binding.decision < i
             && DecisionSound(s, o, binding)
             && content == Overlay(s.Content(o.Symbol()), o.Rows(), s.log.events[i].Claimed())))
    case RebaseFinisher(i) =>
      && i < |s.log.events| && s.log.events[i].RebaseIntent?
      && (Rebased(s.log.rebases, s.log.events[i].plan.block) || (Open(s.log.events, i) && i in s.committed))
  }

  ghost predicate Inv(s: System) {
    && Core(s)
    && (s.lock.HeldBy? ==> HolderSound(s, s.lock.pc))
    && forall f | f in s.finishers :: FinisherSound(s, f)
  }
}
