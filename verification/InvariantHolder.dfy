/** The lock holder's actions keep the invariant. */
module InvariantHolder {
  import opened MarketTypes
  import opened LogModel
  import opened Admission
  import opened Protocol
  import opened Invariant
  import opened InvariantEvents
  import opened InvariantFinalize
  import opened InvariantProcesses
  import opened Finalization
  import opened InvariantSteps

  /** The holder appends one event. */
  lemma {:induction false} HeldAppend(s: System, s': System, e: Event)
    requires Inv(s) && Appends(s, s', e) && Appendable(s, s', e)
    requires e.Blocked? ==> NoOpen(s.log.events, e.Symbol())
    requires s'.finishers == s.finishers
    requires s'.lock.HeldBy? ==> HolderSound(s', s'.lock.pc)
    ensures Inv(s')
  {
    AppendCore(s, s', e);
    forall f | f in s.finishers ensures FinisherSound(s', f) { FinisherAppend(s, s', e, f); }
  }

  lemma {:induction false} AppendKnown(log: Log, log': Log, e: Event)
    requires Known(log) && log' == log.(events := log.events + [e]) && e.obs in log.observations
    ensures Known(log')
  {
    forall k | 0 <= k < |log'.events| ensures log'.events[k].obs in log'.observations {}
  }

  /** Without an open intent a symbol stores exactly what its version chain says. */
  lemma {:induction false} QuietSymbol(s: System, y: Symbol)
    requires Quiet(s) && NoOpen(s.log.events, y)
    ensures s.Stored(y) == s.Content(y)
  {
    assert !LandedOn(s, y);
  }

  // ---------------------------------------------------------------- settlement

  lemma {:induction false} SettleLandedStep(s: System, s': System, i: nat)
    requires Inv(s) && Next(s, SettleOne(i), s') && !Open(s.log.events, i)
    ensures Inv(s')
  {
    var pc := s.lock.pc;
    SettleLanded(s, i);
    LockStep(s, s');
  }

  /** Settling a committed intent writes exactly its finalization. */
  lemma {:induction false} SettleFinalizes(s: System, i: nat)
    requires Core(s) && Open(s.log.events, i) && i in s.committed
    ensures var e := s.log.events[i];
      Settle(s.log, i, s.Stored(e.Symbol())) == Finalized(
        if e.RebaseIntent? then RebaseApplied(s.log, e) else AppendApplied(s.log, e, s.Stored(e.Symbol()), None))
  {
    var e := s.log.events[i];
    SettleOpen(s, i);
    if e.RebaseIntent? { FinalizeRebase(s, i); } else { FinalizeAppend(s, i, s.Stored(e.Symbol()), None); }
  }

  /** A settled intent leaves the queue. */
  lemma {:induction false} QueueShrinks(s: System, purpose: Purpose, y: Symbol, queue: set<nat>, i: nat)
    requires HolderSound(s, Settling(purpose, y, queue)) && !Open(s.log.events, i)
    ensures HolderSound(s, Settling(purpose, y, queue - {i}))
  {
  }

  lemma {:induction false} SettleFinalizeStep(s: System, s': System, i: nat)
    requires Inv(s) && Next(s, SettleOne(i), s') && Open(s.log.events, i) && i in s.committed
    ensures Inv(s')
  {
    var pc, e := s.lock.pc, s.log.events[i];
    SettleFinalizes(s, i);
    var mid := s'.(lock := s.lock);
    FinalizeStep(s, mid, i, None);
    OpenAppend(s.log.events, mid.log.events[|s.log.events|]);
    QueueShrinks(mid, pc.purpose, pc.symbol, pc.queue, i);
    LockStep(mid, s');
  }

  /** What settling an uncommitted intent leaves. */
  lemma {:induction false} DropShape(s: System, s': System, i: nat)
    requires Inv(s) && Next(s, SettleOne(i), s') && Open(s.log.events, i) && i !in s.committed
    ensures var pc := s.lock.pc;
      s' == s.(log := AppendEvent(s.log, Abandoned(s.log.events[i].obs)), lock := HeldBy(pc.(queue := pc.queue - {i})))
    ensures !IsApplied(s.log.events, s.log.events[i].obs)
  {
    SettleOpen(s, i);
    NotYetApplied(s.log, i);
    hide LogInv, OpenSound, Quiet, Lineages, AllGrown, RevisionsSound;
  }

  lemma {:induction false} DropQueue(s: System, s': System, i: nat, y: Symbol, queue: set<nat>)
    requires Open(s.log.events, i) && QueueSound(s, y, queue) && i in queue
    requires s'.log == AppendEvent(s.log, Abandoned(s.log.events[i].obs)) && s'.market == s.market
      && s'.baseline == s.baseline
    requires OneOpen(s.log.events) && !IsApplied(s.log.events, s.log.events[i].obs)
    ensures QueueSound(s', y, queue - {i})
  {
    var es, es' := s.log.events, s'.log.events;
    OpenAppend(es, Abandoned(es[i].obs));
    forall j | j in queue - {i}
      ensures j < |es'| && es'[j].IsIntent() && es'[j].Symbol() == y && (Open(es', j) || Landed(s', j))
    {
      assert es'[j] == es[j];
      LandedStays(s, s', j);
    }
  }

  lemma {:induction false} SettleDropStep(s: System, s': System, i: nat)
    requires Inv(s) && Next(s, SettleOne(i), s') && Open(s.log.events, i) && i !in s.committed
    ensures Inv(s')
  {
    hide Chained, RebasesResolved, ResolvedBlocks, OneRevision, Lineages, Quiet, AllGrown, RevisionsSound, Classify,
      DecisionSound, PlanSound, OpenSound, QueueSound;
    var pc, drop := s.lock.pc, Abandoned(s.log.events[i].obs);
    DropShape(s, s', i);
    AppendKnown(s.log, s'.log, drop);
    OpenAppend(s.log.events, drop);
    DropQueue(s, s', i, pc.symbol, pc.queue);
    HeldAppend(s, s', drop);
  }

  lemma {:induction false} SettleStep(s: System, s': System, i: nat)
    requires Inv(s) && Next(s, SettleOne(i), s')
    ensures Inv(s')
  {
    if !Open(s.log.events, i) { SettleLandedStep(s, s', i); }
    else if i in s.committed { SettleFinalizeStep(s, s', i); }
    else { SettleDropStep(s, s', i); }
  }

  /** A candidate the rebase accepts covers the whole stored history and revises only values. */
  lemma {:induction false} PureRevision(stored: Rows, rows: Rows, start: Session, end: Session)
    requires stored != map[] && forall t | t in stored :: start <= t <= end
    requires var c := Classify(stored, rows, start, end);
      c.verdict.RevisionChanged? && c.missing == {} && c.unstored == {}
    ensures var changed := Classify(stored, rows, start, end).changed;
      && changed != {} && changed <= stored.Keys && changed <= rows.Keys
      && (forall t | t in stored :: t in rows && (rows[t] == stored[t] <==> t !in changed))
      && forall t | t in rows && t !in stored :: Before(stored, t)
  {
    var c := Classify(stored, rows, start, end);
    var window := InWindow(stored, start, end);
    assert window == stored;
    forall t | t in stored ensures t in rows { assert t !in c.missing; }
    forall t | t in rows && t !in stored ensures Before(stored, t) { assert t !in c.unstored; }
  }

  lemma {:induction false} PlanFacts(s: System, y: Symbol, o: ObsId, b: nat, exposed: bool)
    requires y == o.Symbol()
    requires PlanRebase(s.log, s.Base(y), s.Stored(y), o, b, exposed).Ok?
    ensures var stored := s.Stored(y);
      var c := Classify(stored, o.Rows(), o.Start(), o.End());
      && NoOpen(s.log.events, y)
      && IsRevision(s.log.events, b) && s.log.events[b].obs == o
      && InWindow(stored, o.Start(), o.End()) == s.log.events[b].block.window
      && stored != map[] && (forall t | t in stored :: o.Start() <= t <= o.End())
      && c.verdict.RevisionChanged? && c.missing == {} && c.unstored == {}
  {
    forall i | Open(s.log.events, i)
      ensures s.log.events[i].Symbol() != y
    {
      assert i !in OpenIntents(s.log.events, y);
    }
  }

  /** An accepted plan is a pure value revision of the whole stored history. */
  lemma {:induction false} PlanAccepted(s: System, o: ObsId, b: nat, exposed: bool)
    requires Quiet(s)
    requires PlanRebase(s.log, s.Base(o.Symbol()), s.Stored(o.Symbol()), o, b, exposed).Ok?
    ensures HolderSound(s, Planned(o, PlanRebase(s.log, s.Base(o.Symbol()), s.Stored(o.Symbol()), o, b, exposed).value))
  {
    PlanFacts(s, o.Symbol(), o, b, exposed);
    QuietSymbol(s, o.Symbol());
    PureRevision(s.Stored(o.Symbol()), o.Rows(), o.Start(), o.End());
  }

  lemma {:induction false} SettleDoneStep(s: System, s': System, exposed: bool)
    requires Inv(s) && Next(s, SettleDone(exposed), s')
    ensures Inv(s')
  {
    var pc := s.lock.pc;
    match pc.purpose
    case ForAdmission(o) =>
      forall i | Open(s.log.events, i)
        ensures s.log.events[i].Symbol() != pc.symbol
      {
        assert i !in OpenIntents(s.log.events, pc.symbol);
      }
      LockStep(s, s');
    case ForRecovery => LockStep(s, s');
    case ForRebase(b, o) =>
      if s'.lock.pc.Planned? { PlanAccepted(s, o, b, exposed); }
      LockStep(s, s');
  }

  // ------------------------------------------------------------------ admission

  lemma {:induction false} SupersedeStep(s: System, s': System, o: ObsId)
    requires Inv(s) && Next(s, SupersedeOne(o), s')
    ensures Inv(s')
  {
    var e := Superseded(o);
    AppendKnown(s.log, s'.log, e);
    OpenAppend(s.log.events, e);
    var last := Latest(s.log.events, o);
    assert !Open(s.log.events, last);
    assert Appends(s, s', e) && Appendable(s, s', e);
    HeldAppend(s, s', e);
  }

  lemma {:induction false} VerifiedContent(s: System, y: Symbol)
    requires Grown(s, y) && Lineage(s.Base(y), Head(s.log.versions, y))
    ensures Verified(s.log, s.Base(y), y, s.Content(y))
  {
    var base, content := s.Base(y), s.Content(y);
    var slice := map t | t in content && (exists k | k in base :: t <= k) :: content[t];
    forall t
      ensures t in slice <==> t in base
    {
      assert t in base ==> t <= t;
    }
  }

  /** Lineage verification never fails on a symbol with no open intent. */
  lemma {:induction false} VerifiedQuiet(s: System, y: Symbol)
    requires Core(s) && NoOpen(s.log.events, y)
    ensures Verified(s.log, s.Base(y), y, s.Stored(y))
  {
    QuietSymbol(s, y);
    VerifiedContent(s, y);
  }

  lemma {:induction false} NewRevisionSound(s: System, s': System, o: ObsId)
    requires Core(s) && Fresh(s, o) && NoOpen(s.log.events, o.Symbol())
    requires var stored := s.Stored(o.Symbol());
      var c := Classify(stored, o.Rows(), o.Start(), o.End());
      c.verdict.RevisionChanged? && Appends(s, s', Blocked(o, BlockFor(c, stored, o)))
    ensures RevisionSound(s', |s.log.events|)
  {
    var stored := s.Stored(o.Symbol());
    var c := Classify(stored, o.Rows(), o.Start(), o.End());
    var block := BlockFor(c, stored, o);
    var b := |s.log.events|;
    QuietSymbol(s, o.Symbol());
    OpenAppend(s.log.events, Blocked(o, block));
    assert s'.log.events[b] == Blocked(o, block);
    assert s'.Content(o.Symbol()) == stored;
    forall t | t in block.affected
      ensures t in block.window || (t in o.Rows() && t !in stored && Inside(stored, t))
    {
      if t !in block.window {
        assert t in c.unstored;
        var k :| k in stored && t <= k;
        assert t < k;
      }
    }
  }

  lemma {:induction false} BlockAppendable(s: System, s': System, o: ObsId, block: Block)
    requires Core(s) && HolderSound(s, Blocking(o, block, false)) && Appends(s, s', Blocked(o, block))
    ensures Appendable(s, s', Blocked(o, block))
  {
    hide Lineages, AllGrown, RevisionsSound, OpenSound, LogInv, CommittedIntents, Classify;
    assert !Open(s.log.events, Latest(s.log.events, o));
    if block.verdict.RevisionChanged? {
      QuietSymbol(s, o.Symbol());
      NewRevisionSound(s, s', o);
      forall b | IsRevision(s.log.events, b) && b !in s.log.resolutions
        ensures s.log.events[b].obs != o
      {
        assert Unresolved(s.log, b);
      }
    }
  }

  /** Recording a block keeps at most one unresolved revision block per observation, although a review
      may resolve an equal block after the search for it. */
  lemma {:induction false} BlockStep(s: System, s': System)
    requires Inv(s) && Next(s, BlockDecision, s')
    ensures Inv(s')
  {
    hide Lineages, AllGrown, RevisionsSound, OpenSound, Quiet, CommittedIntents, FinisherSound, Classify, Absorbing,
      OneOpen, Chained, RebasesResolved, ResolvedBlocks, OneRevision, RevisionSound;
    var o, block := s.lock.pc.obs, s.lock.pc.block;
    if s.lock.pc.again {
      AppendKnown(s.log, s'.log, Note(o));
      HeldAppend(s, s', Note(o));
    } else {
      AppendKnown(s.log, s'.log, Blocked(o, block));
      BlockAppendable(s, s', o, block);
      HeldAppend(s, s', Blocked(o, block));
    }
  }

  lemma {:induction false} AdmitStep(s: System, s': System, o: ObsId)
    requires Inv(s) && Fresh(s, o) && NoOpen(s.log.events, o.Symbol())
    requires var stored := s.Stored(o.Symbol());
      var c := Classify(stored, o.Rows(), o.Start(), o.End());
      && c.Admits()
      && s' == s.(log := AppendEvent(s.log, Admitted(o, c.verdict)),
                  lock := HeldBy(Decided(o, Binding(|s.log.events|, Head(s.log.versions, o.Symbol()), c.confirmed),
                    c.newer)))
    ensures Inv(s')
  {
    QuietSymbol(s, o.Symbol());
    var c := Classify(s.Stored(o.Symbol()), o.Rows(), o.Start(), o.End());
    var e := Admitted(o, c.verdict);
    AppendKnown(s.log, s'.log, e);
    LatestAppend(s.log.events, e);
    OpenAppend(s.log.events, e);
    var last := Latest(s.log.events, o);
    assert !Open(s.log.events, last);
    assert s'.log.events[|s.log.events|] == e;
    HeldAppend(s, s', e);
  }

  lemma {:induction false} CompareStep(s: System, s': System)
    requires Inv(s) && Next(s, Compare, s')
    ensures Inv(s')
  {
    var o := s.lock.pc.obs;
    VerifiedQuiet(s, o.Symbol());
    var c := Classify(s.Stored(o.Symbol()), o.Rows(), o.Start(), o.End());
    if c.Admits() {
      AdmitStep(s, s', o);
    } else {
      QuietSymbol(s, o.Symbol());
      LockStep(s, s');
    }
  }

  lemma {:induction false} AnnotateStep(s: System, s': System)
    requires Inv(s) && Next(s, Annotate, s')
    ensures Inv(s')
  {
    AppendKnown(s.log, s'.log, Note(s.lock.pc.obs));
    HeldAppend(s, s', Note(s.lock.pc.obs));
  }

  lemma {:induction false} NoOpHolder(s: System, s': System)
    requires Inv(s) && Next(s, NoOp, s')
    ensures Inv(s')
  {
    var pc := s.lock.pc;
    var o, binding := pc.obs, pc.binding;
    EmptyApplication(s.log, o, s.Stored(o.Symbol()), binding);
    NoOpCore(s, o, binding, s');
    forall f | f in s.finishers ensures FinisherSound(s', f) { FinisherNoOp(s, s', o, binding, f); }
  }

  lemma {:induction false} FinisherNoOp(s: System, s': System, o: ObsId, binding: Binding, f: Finisher)
    requires NoOpStep(s, o, binding, s') && NoOpen(s.log.events, o.Symbol()) && FinisherSound(s, f)
    ensures FinisherSound(s', f)
  {
    hide LogInv, Quiet, Lineages, AllGrown, RevisionsSound, CommittedIntents, OpenSound;
    var es, es' := s.log.events, s'.log.events;
    OpenAppend(es, Applied(o, binding.bound));
    assert forall k | 0 <= k < |es| :: es'[k] == es[k];
    match f
    case AppendFinisher(x, i, bound, content) => assert s'.Content(x.Symbol()) == s.Content(x.Symbol());
    case RebaseFinisher(i) =>
  }

  lemma {:induction false} IntentDeclared(s: System, s': System, e: Event, binding: Binding)
    requires Inv(s) && s.lock == HeldBy(Decided(e.obs, binding, e.Claimed())) && e.Intent?
    requires Appends(s, s', e) && Appendable(s, s', e) && s'.finishers == s.finishers
    requires s'.lock == HeldBy(Intended(e.obs, |s.log.events|, binding)) && |s.log.events| !in s.committed
    ensures Inv(s')
  {
    hide Core, FinisherSound, Appendable, Classify;
    OpenAppend(s.log.events, e);
    DecisionAppend(s, s', e, e.obs, binding);
    HeldAppend(s, s', e);
  }

  lemma {:induction false} DeclareIntentStep(s: System, s': System)
    requires Inv(s) && Next(s, DeclareIntent, s')
    ensures Inv(s')
  {
    hide Chained, ResolvedBlocks, OneRevision, Lineages, AllGrown, OpenSound, Quiet, RebasesResolved, Absorbing,
      RevisionsSound, FinisherSound;
    var pc := s.lock.pc;
    var o := pc.obs;
    var e := Intent(o, pc.newer);
    QuietSymbol(s, o.Symbol());
    AppendKnown(s.log, s'.log, e);
    LatestAppend(s.log.events, e);
    assert s'.log.events[|s.log.events|] == e;
    assert s'.Content(o.Symbol()) == s.Content(o.Symbol());
    IntentDeclared(s, s', e, pc.binding);
  }

  // -------------------------------------------------------- commits and aborts

  lemma {:induction false} CommitStep(s: System, s': System)
    requires Inv(s) && Next(s, Commit, s')
    ensures Inv(s')
  {
    var pc := s.lock.pc;
    CommittedMarket(s, pc.intent);
    CommitCore(s, s', pc.intent);
    CommitFrame(s, s', pc.intent);
    forall f | f in s'.finishers
      ensures FinisherSound(s', f)
    {
      if f in s.finishers { FinisherCommit(s, s', pc.intent, f); }
    }
  }

  lemma {:induction false} CommitRebaseStep(s: System, s': System)
    requires Inv(s) && Next(s, CommitRebase, s')
    ensures Inv(s')
  {
    hide LogInv, Chained, Quiet, AllGrown, RevisionsSound, OneOpen, CommittedIntents, OpenSound;
    var pc := s.lock.pc;
    CommitCore(s, s', pc.intent);
    forall f | f in s'.finishers
      ensures FinisherSound(s', f)
    {
      if f in s.finishers { FinisherCommit(s, s', pc.intent, f); }
    }
  }

  /** Rolling back an uncommitted intent and abandoning it. */
  lemma {:induction false} AbortStep(s: System, s': System, i: nat)
    requires Inv(s) && Open(s.log.events, i) && i !in s.committed
    requires s' == s.(log := AppendEvent(s.log, Abandoned(s.log.events[i].obs)), lock := Free)
    ensures Inv(s')
  {
    var e := Abandoned(s.log.events[i].obs);
    NotYetApplied(s.log, i);
    AppendKnown(s.log, s'.log, e);
    HeldAppend(s, s', e);
  }

  /** A planned rebase is never on an observation that has been applied meanwhile: the window its
      block reviewed would have grown. */
  lemma {:induction false} PlannedNotApplied(s: System, o: ObsId, plan: Plan)
    requires Core(s) && HolderSound(s, Planned(o, plan)) && plan.block !in s.log.resolutions
    ensures !IsApplied(s.log.events, o)
  {
    var block, content := s.log.events[plan.block].block, s.Content(o.Symbol());
    assert RevisionSound(s, plan.block);
    assert forall t | t in content && o.Start() <= t <= o.End() :: t in InWindow(content, o.Start(), o.End());
  }

  lemma {:induction false} DeclareRebaseAppendable(s: System, s': System, o: ObsId, plan: Plan)
    requires Core(s) && HolderSound(s, Planned(o, plan)) && plan.block !in s.log.resolutions
    requires Appends(s, s', RebaseIntent(o, plan))
    ensures Appendable(s, s', RebaseIntent(o, plan))
  {
    hide Lineages, AllGrown, RevisionsSound, Chained, Quiet, Known, Absorbing, OneOpen, RebasesResolved,
      ResolvedBlocks, OneRevision, OpenSound, Classify, DecisionSound;
    var e := RebaseIntent(o, plan);
    PlannedNotApplied(s, o, plan);
    QuietSymbol(s, o.Symbol());
    assert s'.log.events[|s.log.events|] == e;
    assert s'.Content(o.Symbol()) == s.Content(o.Symbol());
    assert |s.log.events| !in s.committed;
    PlanFrame(s, s', o, plan);
    assert !Open(s.log.events, Latest(s.log.events, o));
  }

  lemma {:induction false} RebaseDeclared(s: System, s': System, o: ObsId, plan: Plan)
    requires Inv(s) && s.lock == HeldBy(Planned(o, plan)) && plan.block !in s.log.resolutions
    requires Appends(s, s', RebaseIntent(o, plan)) && Appendable(s, s', RebaseIntent(o, plan))
    requires s'.finishers == s.finishers && s'.lock == HeldBy(RebaseIntended(|s.log.events|))
    requires s'.committed == s.committed && forall i | i in s.committed :: i < |s.log.events|
    ensures Inv(s')
  {
    hide Core, FinisherSound, Appendable;
    OpenAppend(s.log.events, RebaseIntent(o, plan));
    HeldAppend(s, s', RebaseIntent(o, plan));
  }

  lemma {:induction false} DeclareRebaseStep(s: System, s': System)
    requires Inv(s) && Next(s, DeclareRebase, s')
    ensures Inv(s')
  {
    hide Chained, ResolvedBlocks, OneRevision, Lineages, AllGrown, OpenSound, Quiet, RevisionsSound, RebasesResolved,
      FinisherSound, Classify, DecisionSound, PlanSound;
    var o, plan := s.lock.pc.obs, s.lock.pc.plan;
    if RecordRebaseIntent(s.log, o, plan).Ok? {
      AppendKnown(s.log, s'.log, RebaseIntent(o, plan));
      DeclareRebaseAppendable(s, s', o, plan);
      RebaseDeclared(s, s', o, plan);
    } else {
      LockStep(s, s');
    }
  }

  // ---------------------------------------------------------------- all actions

  lemma {:induction false} CrashStep(s: System, a: Action, s': System)
    requires Inv(s) && Next(s, a, s') && (a.Crash? || a.CrashFinisher?)
    ensures Inv(s')
  {
    hide Core;
    LockStep(s, s');
  }

  lemma {:induction false} FreeStepInv(s: System, a: Action, s': System)
    requires Inv(s) && Next(s, a, s')
    requires a.Persist? || a.Receipt? || a.Review? || a.Crash? || a.CrashFinisher? || a.Finish?
    ensures Inv(s')
  {
    hide Inv, Next;
    match a
    case Persist(o, excluded) => PersistStep(s, s', o, excluded);
    case Receipt(o) => ReceiptStep(s, s', o);
    case Review(b) => ReviewStep(s, s', b);
    case Crash => CrashStep(s, a, s');
    case CrashFinisher(f) => CrashStep(s, a, s');
    case Finish(f) => FinishStep(s, s', f);
  }

  lemma {:induction false} LockStepInv(s: System, a: Action, s': System)
    requires Inv(s) && Next(s, a, s')
    requires a.Acquire? || a.AcquireRecovery? || a.AcquireRebase? || a.SupersedeDone? || a.Release?
    ensures Inv(s')
  {
    LockStep(s, s');
  }

  lemma {:induction false} SettlementStepInv(s: System, a: Action, s': System)
    requires Inv(s) && Next(s, a, s') && (a.SettleOne? || a.SettleDone? || a.SupersedeOne?)
    ensures Inv(s')
  {
    hide Inv, Next;
    match a
    case SettleOne(i) => SettleStep(s, s', i);
    case SettleDone(exposed) => SettleDoneStep(s, s', exposed);
    case SupersedeOne(o) => SupersedeStep(s, s', o);
  }

  lemma {:induction false} AdmissionStepInv(s: System, a: Action, s': System)
    requires Inv(s) && Next(s, a, s')
    requires a.SettleOne? || a.SettleDone? || a.SupersedeOne? || a.Compare? || a.BlockDecision?
      || a.Annotate? || a.NoOp? || a.DeclareIntent?
    ensures Inv(s')
  {
    hide Inv, Next;
    match a
    case Compare => CompareStep(s, s');
    case BlockDecision => BlockStep(s, s');
    case Annotate => AnnotateStep(s, s');
    case NoOp => NoOpHolder(s, s');
    case DeclareIntent => DeclareIntentStep(s, s');
    case _ => SettlementStepInv(s, a, s');
  }

  lemma {:induction false} CommitStepInv(s: System, a: Action, s': System)
    requires Inv(s) && Next(s, a, s')
    requires a.Commit? || a.Abort? || a.DeclareRebase? || a.CommitRebase? || a.AbortRebase?
    ensures Inv(s')
  {
    match a
    case Commit => CommitStep(s, s');
    case Abort => AbortStep(s, s', s.lock.pc.intent);
    case DeclareRebase => DeclareRebaseStep(s, s');
    case CommitRebase => CommitRebaseStep(s, s');
    case AbortRebase => AbortStep(s, s', s.lock.pc.intent);
  }

  /** Every action keeps the invariant. */
  lemma {:induction false} StepInv(s: System, a: Action, s': System)
    requires Inv(s) && Next(s, a, s')
    ensures Inv(s')
  {
    hide Inv, Next;
    if a.Persist? || a.Receipt? || a.Review? || a.Crash? || a.CrashFinisher? || a.Finish? { FreeStepInv(s, a, s'); }
    else if a.Acquire? || a.AcquireRecovery? || a.AcquireRebase? || a.SupersedeDone? || a.Release? {
      LockStepInv(s, a, s');
    }
    else if a.Commit? || a.Abort? || a.DeclareRebase? || a.CommitRebase? || a.AbortRebase? { CommitStepInv(s, a, s'); }
    else { AdmissionStepInv(s, a, s'); }
  }

  /** Every state of every run satisfies the invariant. */
  lemma {:induction false} RunInv(ss: seq<System>, acts: seq<Action>, k: nat)
    requires Run(ss, acts) && k < |ss|
    ensures Inv(ss[k])
  {
    if k == 0 {
      InitInv(ss[0]);
    } else {
      RunInv(ss, acts, k - 1);
      assert Step(ss, acts, k - 1);
      StepInv(ss[k - 1], acts[k - 1], ss[k]);
    }
  }
}
