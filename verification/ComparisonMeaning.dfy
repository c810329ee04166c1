/** What the overlap comparison, the block it records and the reviewed rebase plan say about the stored and the
    offered rows, in terms of single sessions. */
module ComparisonMeaning {
  import opened MarketTypes
  import opened LogModel
  import opened Admission

  // ---------------------------------------------------------------- single sessions

  predicate Agrees(stored: Rows, rows: Rows, t: Session) { t in stored && t in rows && stored[t] == rows[t] }

  /** Every offered row is stored, with its value. */
  predicate AllStored(stored: Rows, rows: Rows) { forall t | t in rows :: Agrees(stored, rows, t) }

  lemma {:induction false} MatchesExactly(stored: Rows, rows: Rows)
    ensures ReceiptMatches(rows, stored) <==> AllStored(stored, rows)
  {
  }

  /** Stored inside the request window and offered with another value. */
  predicate Revised(stored: Rows, rows: Rows, start: Session, end: Session, t: Session) {
    start <= t <= end && t in stored && t in rows && stored[t] != rows[t]
  }

  /** Stored inside the request window and not offered. */
  predicate Omitted(stored: Rows, rows: Rows, start: Session, end: Session, t: Session) {
    start <= t <= end && t in stored && t !in rows
  }

  /** Offered, never stored, and not later than everything stored. */
  predicate Inserted(stored: Rows, rows: Rows, t: Session) {
    t in rows && t !in stored && exists k :: k in stored && t < k
  }

  /** Offered and later than everything stored. */
  predicate Later(stored: Rows, rows: Rows, t: Session) { t in rows && forall k | k in stored :: k < t }

  predicate Overlaps(stored: Rows, start: Session, end: Session) { exists t :: t in stored && start <= t <= end }

  lemma {:induction false} SessionsExactly(stored: Rows, rows: Rows, start: Session, end: Session)
    ensures var c := Classify(stored, rows, start, end);
      && (forall t :: t in c.changed <==> Revised(stored, rows, start, end, t))
      && (forall t :: t in c.missing <==> Omitted(stored, rows, start, end, t))
      && (forall t :: t in c.unstored <==> Inserted(stored, rows, t))
      && (forall t :: t in c.newer <==> Later(stored, rows, t))
      && forall t :: t in c.confirmed <==> start <= t <= end && Agrees(stored, rows, t)
  {
    var c := Classify(stored, rows, start, end);
    forall t ensures t in c.unstored <==> Inserted(stored, rows, t) {
      if t in rows && t !in stored && exists k :: k in stored && t <= k {
        var k :| k in stored && t <= k;
        assert t < k;
      }
    }
  }

  // ---------------------------------------------------------------------- verdicts

  /** What each verdict asserts about stored and offered rows. */
  ghost predicate VerdictTold(stored: Rows, rows: Rows, start: Session, end: Session, v: Verdict) {
    var revised := exists t :: Revised(stored, rows, start, end, t);
    var omitted := exists t :: Omitted(stored, rows, start, end, t);
    var inserted := exists t :: Inserted(stored, rows, t);
    var later := exists t :: Later(stored, rows, t);
    match v
    case InitialLoad => stored == map[]
    case RevisionChanged => revised
    case OverlapIncomplete => stored != map[] && (!Overlaps(stored, start, end) || (!revised && omitted))
    case HistoryExtension => Overlaps(stored, start, end) && !revised && !omitted && inserted
    case AppendSessions => Overlaps(stored, start, end) && !revised && !omitted && !inserted && later
    case NoNewSessions => Overlaps(stored, start, end) && !revised && !omitted && !inserted && !later
    case DatasetMismatch => false
  }

  /** The comparison gives a verdict exactly when what the verdict asserts is the case. */
  lemma {:induction false} VerdictExactly(stored: Rows, rows: Rows, start: Session, end: Session, v: Verdict)
    ensures Classify(stored, rows, start, end).verdict == v <==> VerdictTold(stored, rows, start, end, v)
    ensures Classify(stored, rows, start, end).Admits() <==>
      stored == map[]
      || (Overlaps(stored, start, end) && forall t ::
            !Revised(stored, rows, start, end, t) && !Omitted(stored, rows, start, end, t)
              && !Inserted(stored, rows, t))
  {
    var c := Classify(stored, rows, start, end);
    SessionsExactly(stored, rows, start, end);
    Inhabited(c.changed);
    Inhabited(c.missing);
    Inhabited(c.unstored);
    Inhabited(c.newer);
    WindowInhabited(stored, start, end);
    assert forall t :: Revised(stored, rows, start, end, t) ==> Overlaps(stored, start, end);
    assert forall t :: Omitted(stored, rows, start, end, t) ==> Overlaps(stored, start, end);
    assert Overlaps(stored, start, end) ==> stored != map[];
    hide Classify, Revised, Omitted, Inserted, Later, Overlaps;
    VerdictFrom(stored, rows, start, end);
  }

  /** The verdict from the sets of the comparison alone. */
  lemma {:induction false} VerdictFrom(stored: Rows, rows: Rows, start: Session, end: Session)
    ensures var c := Classify(stored, rows, start, end);
      c.verdict ==
        if stored == map[] then InitialLoad
        else if InWindow(stored, start, end) == map[] then OverlapIncomplete
        else if c.changed != {} then RevisionChanged
        else if c.missing != {} then OverlapIncomplete
        else if c.unstored != {} then HistoryExtension
        else if c.newer != {} then AppendSessions
        else NoNewSessions
  {
  }

  lemma {:induction false} WindowInhabited(stored: Rows, start: Session, end: Session)
    ensures InWindow(stored, start, end) != map[] <==> Overlaps(stored, start, end)
  {
    var window := InWindow(stored, start, end);
    if window != map[] {
      var t := PickOne(window.Keys);
      assert t in stored && start <= t <= end;
    }
    if t :| t in stored && start <= t <= end { assert t in window; }
  }

  lemma {:induction false} Inhabited(ts: set<Session>)
    ensures ts != {} <==> exists t :: t in ts
  {
    if ts != {} { var t := PickOne(ts); }
  }

  // ------------------------------------------------------------------------ blocks

  /** A session a block of this comparison must have re-established: stored in the window and not offered with
      the stored value, or offered inside the stored history without being stored. */
  predicate Faulty(stored: Rows, rows: Rows, start: Session, end: Session, t: Session) {
    || (start <= t <= end && t in stored && !(t in rows && rows[t] == stored[t]))
    || (t in rows && t !in stored && exists k :: k in stored && t < k)
  }

  /** The block of observation `o` tells exactly how its rows disagreed with the stored ones: the verdict, the
      faulty sessions or else the latest stored session alone, and the stored rows of the window. */
  ghost predicate BlockTold(stored: Rows, o: ObsId, block: Block) {
    var rows, start, end := o.Rows(), o.Start(), o.End();
    && block.auto && VerdictTold(stored, rows, start, end, block.verdict)
    && (forall t :: t in block.window <==> t in stored && start <= t <= end)
    && (forall t | t in block.window :: block.window[t] == stored[t])
    && forall t :: t in block.affected <==>
      if exists u :: Faulty(stored, rows, start, end, u) then Faulty(stored, rows, start, end, t)
      else t in stored && forall k | k in stored :: k <= t
  }

  /** The block that a refused comparison records. */
  lemma {:induction false} BlockExactly(stored: Rows, o: ObsId)
    requires !Classify(stored, o.Rows(), o.Start(), o.End()).Admits()
    ensures BlockTold(stored, o, BlockFor(Classify(stored, o.Rows(), o.Start(), o.End()), stored, o))
  {
    var rows, start, end := o.Rows(), o.Start(), o.End();
    var c := Classify(stored, rows, start, end);
    var block := BlockFor(c, stored, o);
    VerdictExactly(stored, rows, start, end, c.verdict);
    AffectedExactly(stored, rows, start, end);
  }

  lemma {:induction false} AffectedExactly(stored: Rows, rows: Rows, start: Session, end: Session)
    requires !Classify(stored, rows, start, end).Admits()
    ensures forall t :: t in Affected(Classify(stored, rows, start, end), stored) <==>
      if exists u :: Faulty(stored, rows, start, end, u) then Faulty(stored, rows, start, end, t)
      else t in stored && forall k | k in stored :: k <= t
  {
    var c := Classify(stored, rows, start, end);
    var direct := c.changed + c.missing + c.unstored;
    SessionsExactly(stored, rows, start, end);
    assert stored != map[];
    forall t ensures t in direct <==> Faulty(stored, rows, start, end, t) {
      if t in stored && start <= t <= end && t in rows && rows[t] != stored[t] {
        assert Revised(stored, rows, start, end, t);
      }
    }
    hide Classify, Faulty;
    Inhabited(direct);
    if direct == {} {
      var m := LatestOf(stored.Keys);
      assert m in stored && forall k | k in stored :: k <= m;
    }
  }

  // ----------------------------------------------------------------- reviewed rebases

  /** When a reviewed rebase may rewrite the stored history of a symbol: nobody holds a position in it, the block
      is the unresolved latest one of the symbol and a revision its reviewer saw, no application is open, the
      observation covers the whole stored history and only changes values, in exactly the sessions of the block,
      all of them before every unchanged one. */
  ghost predicate Plannable(log: Log, stored: Rows, o: ObsId, b: nat, exposed: bool) {
    var es, rows := log.events, o.Rows();
    && !exposed
    && b < |es| && es[b].Blocked? && es[b].obs == o && b !in log.resolutions
    && es[b].block.verdict.RevisionChanged? && es[b].block.auto
    && (forall c | b < c < |es| && es[c].Blocked? && es[c].obs.Symbol() == o.Symbol() :: c in log.resolutions)
    && (forall i | Open(es, i) :: es[i].obs.Symbol() != o.Symbol())
    && (forall t | t in stored :: o.Start() <= t <= o.End() && t in rows) && es[b].block.window == stored
    && (forall t, k | t in rows && t !in stored && k in stored :: k < t)
    && (exists t :: t in stored && rows[t] != stored[t])
    && (forall t :: t in es[b].block.affected <==> t in stored && rows[t] != stored[t])
    && forall t, k | t in stored && rows[t] != stored[t] && k in stored && rows[k] == stored[k] :: t < k
  }

  /** An older proposal of the symbol that the rewritten rows already satisfy. */
  ghost predicate Outdated(log: Log, y: Symbol, b: nat, post: Rows, c: nat) {
    && c < b && c < |log.events| && log.events[c].Blocked? && c !in log.resolutions && log.events[c].obs.Symbol() == y
    && log.events[c].block.verdict.RevisionChanged? && log.events[c].block.auto && log.events[c].block.affected != {}
    && var rows, start, end := log.events[c].obs.Rows(), log.events[c].obs.Start(), log.events[c].obs.End();
    && (forall t | t in rows && (exists k :: k in post && t <= k) :: t in post && post[t] == rows[t])
    && forall t | t in post && start <= t <= end :: t in rows
  }

  /** What the plan rewrites and what it supersedes. */
  ghost predicate PlanTold(log: Log, stored: Rows, o: ObsId, b: nat, plan: Plan) {
    var rows := o.Rows();
    && plan.block == b && plan.pre == stored && plan.preVersion == Head(log.versions, o.Symbol())
    && (forall t :: t in plan.sessions <==> t in stored && t in rows && rows[t] != stored[t])
    && plan.post.Keys == stored.Keys && (forall t | t in plan.post :: t in rows && plan.post[t] == rows[t])
    && forall c: nat :: c in plan.supersedes <==> Outdated(log, o.Symbol(), b, plan.post, c)
  }

  /** The comparison over a request that covers the whole stored history. */
  lemma {:induction false} WholeHistory(stored: Rows, rows: Rows, start: Session, end: Session)
    requires stored != map[] && forall t | t in stored :: start <= t <= end
    ensures InWindow(stored, start, end) == stored
    ensures var c := Classify(stored, rows, start, end);
      && (forall t :: t in c.changed <==> t in stored && t in rows && rows[t] != stored[t])
      && (c.verdict.RevisionChanged? && c.missing == {} && c.unstored == {} <==>
            && (forall t | t in stored :: t in rows)
            && (forall t, k | t in rows && t !in stored && k in stored :: k < t)
            && exists t :: t in stored && t in rows && rows[t] != stored[t])
  {
    var c := Classify(stored, rows, start, end);
    SessionsExactly(stored, rows, start, end);
    assert InWindow(stored, start, end) == stored;
    VerdictFrom(stored, rows, start, end);
    hide Classify, InWindow;
    Inhabited(c.changed);
    Inhabited(c.missing);
    Inhabited(c.unstored);
    assert c.missing == {} <==> forall t | t in stored :: t in rows by {
      assert forall t :: Omitted(stored, rows, start, end, t) <==> t in stored && t !in rows;
    }
    assert c.unstored == {} <==> forall t, k | t in rows && t !in stored && k in stored :: k < t by {
      NoneInserted(stored, rows);
    }
    assert forall t :: t in c.changed <==> t in stored && t in rows && rows[t] != stored[t];
    assert c.changed != {} <==> exists t :: t in stored && t in rows && rows[t] != stored[t] by {
      if t :| t in stored && t in rows && rows[t] != stored[t] { assert t in c.changed; }
    }
  }

  lemma {:induction false} SameSessions(a: set<Session>, b: set<Session>)
    ensures a == b <==> forall t :: t in a <==> t in b
  {
    if forall t :: t in a <==> t in b {
      assert a <= b by { forall t | t in a ensures t in b {} }
      assert b <= a by { forall t | t in b ensures t in a {} }
    }
  }

  lemma {:induction false} NoneInserted(stored: Rows, rows: Rows)
    ensures (forall t :: !Inserted(stored, rows, t)) <==>
      forall t, k | t in rows && t !in stored && k in stored :: k < t
  {
    if forall t :: !Inserted(stored, rows, t) {
      forall t, k | t in rows && t !in stored && k in stored ensures k < t { assert !Inserted(stored, rows, t); }
    }
  }

  lemma {:induction false} SupersedableExactly(log: Log, y: Symbol, b: nat, post: Rows)
    requires post != map[]
    ensures forall c: nat :: c in Supersedable(log, y, b, post) <==> Outdated(log, y, b, post, c)
  {
  }

  /** The conditions of a plan on the rows alone. */
  ghost predicate PureRevisionOf(stored: Rows, o: ObsId, block: Block) {
    var rows := o.Rows();
    && (forall t | t in stored :: o.Start() <= t <= o.End() && t in rows) && block.window == stored
    && (forall t, k | t in rows && t !in stored && k in stored :: k < t)
    && (exists t :: t in stored && rows[t] != stored[t])
    && (forall t :: t in block.affected <==> t in stored && rows[t] != stored[t])
    && forall t, k | t in stored && rows[t] != stored[t] && k in stored && rows[k] == stored[k] :: t < k
  }

  lemma {:induction false} RowsExactly(stored: Rows, o: ObsId, block: Block)
    ensures var c := Classify(stored, o.Rows(), o.Start(), o.End());
      PureRevisionOf(stored, o, block) <==>
        && InWindow(stored, o.Start(), o.End()) == block.window
        && !(stored == map[] || (exists t | t in stored :: t < o.Start() || o.End() < t))
        && c.verdict.RevisionChanged? && c.missing == {} && c.unstored == {} && c.changed == block.affected
        && !exists t, k | t in c.changed && k in stored.Keys - c.changed :: k < t
  {
    if stored != map[] && forall t | t in stored :: o.Start() <= t <= o.End() {
      var c := Classify(stored, o.Rows(), o.Start(), o.End());
      WholeHistory(stored, o.Rows(), o.Start(), o.End());
      hide Classify, InWindow;
      if forall t | t in stored :: t in o.Rows() {
        assert forall k | k in stored :: k in stored.Keys - c.changed <==> o.Rows()[k] == stored[k];
        SameSessions(c.changed, block.affected);
      }
    }
  }

  /** A rebase is planned exactly when it may be, and the plan is the one the rows determine. */
  lemma {:induction false} PlanExactly(log: Log, base: Rows, stored: Rows, o: ObsId, b: nat, exposed: bool)
    ensures PlanRebase(log, base, stored, o, b, exposed).Ok? <==>
      Plannable(log, stored, o, b, exposed) && Verified(log, base, o.Symbol(), stored)
    ensures PlanRebase(log, base, stored, o, b, exposed).Ok? ==>
      PlanTold(log, stored, o, b, PlanRebase(log, base, stored, o, b, exposed).value)
  {
    hide Classify, Verified, OpenIntents, UnresolvedBlocks, Supersedable, PureRevisionOf, InWindow, PlanTold, Open;
    NobodyOpen(log.events, o.Symbol());
    LatestBlock(log, o.Symbol(), b);
    if b < |log.events| && log.events[b].Blocked? {
      RowsExactly(stored, o, log.events[b].block);
      PlannableMeans(log, stored, o, b, exposed);
    }
    if PlanRebase(log, base, stored, o, b, exposed).Ok? { PlanRewrites(log, base, stored, o, b, exposed); }
  }

  /** What each refusal asserts. Only the last one depends on the portfolio: everything else allows the plan. */
  ghost predicate RefusalTold(log: Log, base: Rows, stored: Rows, o: ObsId, b: nat, exposed: bool, refusal: Refusal) {
    var es, rows, y := log.events, o.Rows(), o.Symbol();
    var known := b < |es| && es[b].Blocked?;
    match refusal
    case NoSuchBlockRefusal => !known
    case BlockObservationMismatch => known && es[b].obs != o
    case BlockNotUnresolved => known && b in log.resolutions
    case RequiresRevisionBlock => known && !(es[b].block.verdict.RevisionChanged? && es[b].block.auto)
    case BlockNotLatest =>
      exists c :: b < c < |es| && es[c].Blocked? && es[c].obs.Symbol() == y && c !in log.resolutions
    case PendingApplication => exists i :: Open(es, i) && es[i].obs.Symbol() == y
    case BasisDrift => !Verified(log, base, y, stored)
    case BasisChanged =>
      known && !(es[b].block.window == map t | t in stored && o.Start() <= t <= o.End() :: stored[t])
    case IncompleteCoverage => stored == map[] || exists t :: t in stored && !(o.Start() <= t <= o.End())
    case RequiresPureValueRevision =>
      || (exists t :: t in stored && t !in rows) || (exists t, k :: t in rows && t !in stored && k in stored && t < k)
      || forall t | t in stored && t in rows :: stored[t] == rows[t]
    case SessionsDifferFromBlock =>
      known && exists t :: !(t in es[b].block.affected <==> t in stored && t in rows && rows[t] != stored[t])
    case NoncontiguousChange =>
      exists t, k ::
        t in stored && t in rows && rows[t] != stored[t] && k in stored && k in rows && rows[k] == stored[k] && k < t
    case OpenExposure => exposed && Plannable(log, stored, o, b, false)
  }

  /** A refused rebase is refused for a reason that holds. */
  lemma {:induction false} RefusedExactly(log: Log, base: Rows, stored: Rows, o: ObsId, b: nat, exposed: bool)
    requires PlanRebase(log, base, stored, o, b, exposed).Err?
    ensures RefusalTold(log, base, stored, o, b, exposed, PlanRebase(log, base, stored, o, b, exposed).error)
  {
    var refusal := PlanRebase(log, base, stored, o, b, exposed).error;
    if refusal.OpenExposure? {
      ExposureRefused(log, base, stored, o, b, exposed);
    } else if AboutRows(refusal) {
      RowsRefused(log, base, stored, o, b, exposed);
    } else {
      BlockRefused(log, base, stored, o, b, exposed);
    }
  }

  predicate AboutRows(refusal: Refusal) {
    || refusal.BasisChanged? || refusal.IncompleteCoverage? || refusal.RequiresPureValueRevision?
    || refusal.SessionsDifferFromBlock? || refusal.NoncontiguousChange?
  }

  lemma {:induction false} ExposureRefused(log: Log, base: Rows, stored: Rows, o: ObsId, b: nat, exposed: bool)
    requires PlanRebase(log, base, stored, o, b, exposed) == Err(OpenExposure)
    ensures RefusalTold(log, base, stored, o, b, exposed, OpenExposure)
  {
    hide Verified, OpenIntents, UnresolvedBlocks, Supersedable, Plannable, Open, Classify, InWindow, Overlay;
    assert PlanRebase(log, base, stored, o, b, false).Ok?;
    PlanExactly(log, base, stored, o, b, false);
  }

  lemma {:induction false} BlockRefused(log: Log, base: Rows, stored: Rows, o: ObsId, b: nat, exposed: bool)
    requires PlanRebase(log, base, stored, o, b, exposed).Err?
    requires var r := PlanRebase(log, base, stored, o, b, exposed).error; !r.OpenExposure? && !AboutRows(r)
    ensures RefusalTold(log, base, stored, o, b, exposed, PlanRebase(log, base, stored, o, b, exposed).error)
  {
    hide Verified, OpenIntents, UnresolvedBlocks, Supersedable, Plannable, Open, Classify, InWindow, Overlay;
    LatestBlock(log, o.Symbol(), b);
    NobodyOpen(log.events, o.Symbol());
  }

  lemma {:induction false} RowsRefused(log: Log, base: Rows, stored: Rows, o: ObsId, b: nat, exposed: bool)
    requires PlanRebase(log, base, stored, o, b, exposed).Err?
    requires AboutRows(PlanRebase(log, base, stored, o, b, exposed).error)
    ensures RefusalTold(log, base, stored, o, b, exposed, PlanRebase(log, base, stored, o, b, exposed).error)
  {
    hide Verified, OpenIntents, UnresolvedBlocks, Supersedable, Plannable, Open, Classify;
    match PlanRebase(log, base, stored, o, b, exposed).error
    case RequiresPureValueRevision => PureRefused(stored, o);
    case SessionsDifferFromBlock => DifferRefused(stored, o, log.events[b].block.affected);
    case NoncontiguousChange => SplitRefused(stored, o);
    case _ =>
  }

  lemma {:induction false} PureRefused(stored: Rows, o: ObsId)
    requires stored != map[] && forall t | t in stored :: o.Start() <= t <= o.End()
    requires var c := Classify(stored, o.Rows(), o.Start(), o.End());
      !c.verdict.RevisionChanged? || c.missing != {} || c.unstored != {}
    ensures var rows := o.Rows();
      || (exists t :: t in stored && t !in rows) || (exists t, k :: t in rows && t !in stored && k in stored && t < k)
      || forall t | t in stored && t in rows :: stored[t] == rows[t]
  {
    hide Classify;
    WholeHistory(stored, o.Rows(), o.Start(), o.End());
    if t, k :| t in o.Rows() && t !in stored && k in stored && !(k < t) { assert t < k; }
  }

  lemma {:induction false} DifferRefused(stored: Rows, o: ObsId, affected: set<Session>)
    requires stored != map[] && forall t | t in stored :: o.Start() <= t <= o.End()
    requires Classify(stored, o.Rows(), o.Start(), o.End()).changed != affected
    ensures exists t :: !(t in affected <==> t in stored && t in o.Rows() && o.Rows()[t] != stored[t])
  {
    hide Classify;
    WholeHistory(stored, o.Rows(), o.Start(), o.End());
    SameSessions(Classify(stored, o.Rows(), o.Start(), o.End()).changed, affected);
  }

  lemma {:induction false} SplitRefused(stored: Rows, o: ObsId)
    requires stored != map[] && forall t | t in stored :: o.Start() <= t <= o.End()
    requires var c := Classify(stored, o.Rows(), o.Start(), o.End());
      && c.verdict.RevisionChanged? && c.missing == {} && c.unstored == {}
      && exists t, k | t in c.changed && k in stored.Keys - c.changed :: k < t
    ensures exists t, k ::
              t in stored && t in o.Rows() && o.Rows()[t] != stored[t]
              && k in stored && k in o.Rows() && o.Rows()[k] == stored[k] && k < t
  {
    hide Classify;
    WholeHistory(stored, o.Rows(), o.Start(), o.End());
    var c := Classify(stored, o.Rows(), o.Start(), o.End());
    var t, k :| t in c.changed && k in stored.Keys - c.changed && k < t;
    assert t in stored && t in o.Rows() && o.Rows()[t] != stored[t];
    assert k in stored && k in o.Rows() && o.Rows()[k] == stored[k];
  }

  lemma {:induction false} PlannableMeans(log: Log, stored: Rows, o: ObsId, b: nat, exposed: bool)
    requires b < |log.events| && log.events[b].Blocked?
    ensures Plannable(log, stored, o, b, exposed) <==>
      && !exposed && log.events[b].obs == o && b !in log.resolutions
      && log.events[b].block.verdict.RevisionChanged? && log.events[b].block.auto
      && !(exists c :: b < c < |log.events| && log.events[c].Blocked? && log.events[c].obs.Symbol() == o.Symbol()
                       && c !in log.resolutions)
      && (forall i | Open(log.events, i) :: log.events[i].obs.Symbol() != o.Symbol())
      && PureRevisionOf(stored, o, log.events[b].block)
  {
  }

  lemma {:induction false} PlanRewrites(log: Log, base: Rows, stored: Rows, o: ObsId, b: nat, exposed: bool)
    requires PlanRebase(log, base, stored, o, b, exposed).Ok?
    ensures PlanTold(log, stored, o, b, PlanRebase(log, base, stored, o, b, exposed).value)
  {
    var plan, rows := PlanRebase(log, base, stored, o, b, exposed).value, o.Rows();
    var c := Classify(stored, rows, o.Start(), o.End());
    assert stored != map[] && c.verdict.RevisionChanged? && c.missing == {} && c.unstored == {};
    assert plan == Plan(b, c.changed, stored, Overlay(stored, rows, c.changed), Head(log.versions, o.Symbol()),
                        Supersedable(log, o.Symbol(), b, plan.post));
    assert forall t | t in stored :: o.Start() <= t <= o.End();
    hide Classify, Verified, OpenIntents, UnresolvedBlocks, Supersedable, PlanRebase, Outdated;
    WholeHistory(stored, rows, o.Start(), o.End());
    assert plan.post.Keys == stored.Keys;
    SupersedableExactly(log, o.Symbol(), b, plan.post);
  }

  lemma {:induction false} NobodyOpen(es: seq<Event>, y: Symbol)
    ensures OpenIntents(es, y) == {} <==> forall i | Open(es, i) :: es[i].obs.Symbol() != y
  {
    if OpenIntents(es, y) == {} {
      forall i | Open(es, i) ensures es[i].obs.Symbol() != y { assert i !in OpenIntents(es, y); }
    } else {
      var i := PickOne(OpenIntents(es, y));
      assert Open(es, i) && es[i].obs.Symbol() == y;
    }
  }

  lemma {:induction false} LatestBlock(log: Log, y: Symbol, b: nat)
    ensures (exists c | c in UnresolvedBlocks(log, y) :: b < c) <==>
      exists c ::
        b < c < |log.events| && log.events[c].Blocked? && log.events[c].obs.Symbol() == y && c !in log.resolutions
  {
    if c :| b < c < |log.events| && log.events[c].Blocked? && log.events[c].obs.Symbol() == y && c !in log.resolutions {
      assert c in UnresolvedBlocks(log, y);
    }
  }
}
