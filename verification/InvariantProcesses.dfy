/** What other processes do keeps what the lock holder and the finishers rely on. */
module InvariantProcesses {
  import opened MarketTypes
  import opened LogModel
  import opened Admission
  import opened Protocol
  import opened Invariant
  import opened InvariantEvents
  import opened InvariantFinalize

  // -------------------------------------------------------------- market commit

  /** The market transaction of the open intent `i` commits. */
  ghost predicate Commits(s: System, s': System, i: nat) {
    && Open(s.log.events, i) && i !in s.committed
    && var e := s.log.events[i];
    && s'.baseline == s.baseline && s'.log == s.log
    && s'.committed == s.committed + {i}
    && s'.market == s.market[e.Symbol() := Overlay(s.Stored(e.Symbol()), e.obs.Rows(), e.Claimed())]
  }

  lemma {:induction false} CommitFrame(s: System, s': System, i: nat)
    requires Commits(s, s', i)
    ensures forall y :: s'.Content(y) == s.Content(y) && s'.Base(y) == s.Base(y)
    ensures forall y | y != s.log.events[i].Symbol() :: s'.Stored(y) == s.Stored(y)
    ensures s'.Stored(s.log.events[i].Symbol()) ==
      Overlay(s.Stored(s.log.events[i].Symbol()), s.log.events[i].obs.Rows(), s.log.events[i].Claimed())
  {
  }

  lemma {:induction false} CommitOpenSound(s: System, s': System, i: nat)
    requires OneOpen(s.log.events) && OpenSound(s) && Commits(s, s', i)
    ensures OpenSound(s')
  {
    var es := s.log.events;
    CommitFrame(s, s', i);
    forall j: nat | Open(es, j)
      ensures IntentSound(s', j)
    {
      assert IntentSound(s, j);
      if j == i {
        if es[i].RebaseIntent? { PlanFrame(s, s', es[i].obs, es[i].plan); }
      } else {
        IntentFrame(s, s', j);
      }
    }
  }

  lemma {:induction false} CommitQuiet(s: System, s': System, i: nat)
    requires Quiet(s) && Commits(s, s', i)
    ensures Quiet(s')
  {
    var es := s.log.events;
    CommitFrame(s, s', i);
    forall x
      ensures s'.Stored(x) == s'.Content(x) || LandedOn(s', x)
    {
      if x == es[i].Symbol() {
        assert i in s'.committed;
      } else if s.Stored(x) != s.Content(x) {
        var j :| j in s.committed && Open(es, j) && es[j].Symbol() == x;
        assert j in s'.committed;
      }
    }
  }

  lemma {:induction false} CommitCore(s: System, s': System, i: nat)
    requires Core(s) && Commits(s, s', i)
    ensures Core(s')
  {
    CommitOpenSound(s, s', i);
    CommitQuiet(s, s', i);
    CommitFrame(s, s', i);
    forall x ensures Grown(s', x) { assert Grown(s, x); }
    forall b: nat | IsRevision(s.log.events, b) ensures RevisionSound(s', b) { assert RevisionSound(s, b); }
  }

  lemma {:induction false} FinisherCommit(s: System, s': System, i: nat, f: Finisher)
    requires Commits(s, s', i) && FinisherSound(s, f)
    ensures FinisherSound(s', f)
  {
  }

  // -------------------------------------------------------------- one more event

  /** A note, or the first event of a new observation. */
  ghost predicate Inert(s: System, e: Event) {
    e.Note? || (e.Observed? && Latest(s.log.events, e.obs) == -1)
  }

  lemma {:induction false} InertAppendable(s: System, s': System, e: Event)
    requires Core(s) && Appends(s, s', e) && Inert(s, e)
    ensures Appendable(s, s', e)
  {
  }

  lemma {:induction false} DecisionAppend(s: System, s': System, e: Event, o: ObsId, binding: Binding)
    requires Appends(s, s', e) && DecisionSound(s, o, binding)
    requires e.Blocked? ==> e.Symbol() != o.Symbol()
    ensures DecisionSound(s', o, binding)
  {
    var es, es' := s.log.events, s'.log.events;
    assert es'[binding.decision] == es[binding.decision];
    assert s'.Content(o.Symbol()) == s.Content(o.Symbol());
    assert forall k | 0 <= k < |es| :: es'[k] == es[k];
  }

  lemma {:induction false} QueueAppend(s: System, s': System, e: Event, y: Symbol, queue: set<nat>)
    requires Appends(s, s', e) && Inert(s, e) && QueueSound(s, y, queue)
    ensures QueueSound(s', y, queue)
  {
    hide Known;
    var es, es' := s.log.events, s'.log.events;
    OpenAppend(es, e);
    forall i | i in queue
      ensures i < |es'| && es'[i].IsIntent() && es'[i].Symbol() == y && (Open(es', i) || Landed(s', i))
    {
      assert es'[i] == es[i];
      if Open(es, i) { assert Latest(es, es[i].obs) == i; }
    }
  }

  lemma {:induction false} InertFrame(s: System, s': System, e: Event)
    requires Appends(s, s', e) && Inert(s, e)
    ensures forall o :: IsApplied(s'.log.events, o) <==> IsApplied(s.log.events, o)
    ensures forall o :: Fresh(s, o) ==> Fresh(s', o)
    ensures forall y :: NoOpen(s.log.events, y) ==> NoOpen(s'.log.events, y)
    ensures forall y :: OpenIntents(s'.log.events, y) == OpenIntents(s.log.events, y)
    ensures forall i | Open(s.log.events, i) :: Open(s'.log.events, i) && s'.log.events[i] == s.log.events[i]
    ensures forall o | Latest(s.log.events, o) >= 0 :: Latest(s'.log.events, o) == Latest(s.log.events, o)
    ensures forall y :: s'.Content(y) == s.Content(y)
  {
    LatestAppend(s.log.events, e);
    OpenAppend(s.log.events, e);
    assert forall k | 0 <= k < |s.log.events| :: s'.log.events[k] == s.log.events[k];
  }

  /** An event that is no block leaves no equal block behind. */
  lemma {:induction false} BlockingAppend(s: System, s': System, e: Event, o: ObsId, v: Verdict)
    requires s'.log.events == s.log.events + [e] && !e.Blocked? && s.log.resolutions.Keys <= s'.log.resolutions.Keys
    ensures AlreadyBlocked(s'.log, o, v) ==> AlreadyBlocked(s.log, o, v)
  {
    if AlreadyBlocked(s'.log, o, v) {
      var b :| 0 <= b < |s'.log.events| && Unresolved(s'.log, b) && s'.log.events[b].obs == o
        && s'.log.events[b].block.verdict == v;
      assert b < |s.log.events| && Unresolved(s.log, b);
    }
  }

  lemma {:induction false} HolderAppend(s: System, s': System, e: Event, pc: Held)
    requires Appends(s, s', e) && Inert(s, e) && HolderSound(s, pc)
    ensures HolderSound(s', pc)
  {
    InertFrame(s, s', e);
    match pc
    case Settling(purpose, y, queue) => QueueAppend(s, s', e, y, queue);
    case Decided(o, binding, newer) => DecisionAppend(s, s', e, o, binding);
    case Intended(o, i, binding) => DecisionAppend(s, s', e, o, binding);
    case Planned(o, plan) =>
      PlanFrame(s, s', o, plan);
      assert s'.log.events[plan.block] == s.log.events[plan.block];
    case Blocking(o, block, again) => BlockingAppend(s, s', e, o, block.verdict);
    case _ =>
  }

  lemma {:induction false} AppendingKept(s: System, s': System, e: Event, f: Finisher)
    requires Appends(s, s', e) && Appendable(s, s', e) && FinisherSound(s, f) && f.AppendFinisher?
    requires e.Blocked? ==> NoOpen(s.log.events, e.Symbol())
    ensures FinisherSound(s', f)
  {
    hide DecisionSound, IntentSound, RevisionSound;
    OpenAppend(s.log.events, e);
    if !IsApplied(s.log.events, f.obs) {
      assert s'.log.events[f.intent] == s.log.events[f.intent] && Open(s'.log.events, f.intent);
      DecisionAppend(s, s', e, f.obs, f.binding);
      assert s'.Content(f.obs.Symbol()) == s.Content(f.obs.Symbol());
    }
  }

  lemma {:induction false} FinisherAppend(s: System, s': System, e: Event, f: Finisher)
    requires Core(s) && Appends(s, s', e) && Appendable(s, s', e) && FinisherSound(s, f)
    requires e.Blocked? ==> NoOpen(s.log.events, e.Symbol())
    ensures FinisherSound(s', f)
  {
    hide Core, DecisionSound, IntentSound, RevisionSound;
    if f.AppendFinisher? {
      AppendingKept(s, s', e, f);
    } else {
      OpenAppend(s.log.events, e);
      assert s'.log.events[f.intent] == s.log.events[f.intent];
    }
  }

  // -------------------------------------------------------------- a finalization

  lemma {:induction false} MoveLanded(s: System, s': System, i: nat, ref: VersionRef)
    requires Core(s) && Moves(s, s', i, ref) && Open(s.log.events, i) && i in s.committed
    ensures Landed(s', i)
  {
    var e := s.log.events[i];
    assert IntentSound(s, i);
    assert s'.log.events[i] == e;
    OpenAppend(s.log.events, Applied(e.obs, ref));
    if e.RebaseIntent? { assert s'.log.rebases[|s.log.rebases|].block == e.plan.block; }
  }

  lemma {:induction false} LandedStays(s: System, s': System, j: nat)
    requires j < |s.log.events| && s.log.events[j].IsIntent() && Landed(s, j)
    requires s.log.events <= s'.log.events && s.log.rebases <= s'.log.rebases
    requires s'.market == s.market
    ensures Landed(s', j)
  {
    var es, es' := s.log.events, s'.log.events;
    var k :| 0 <= k < |es| && es[k].Applied? && es[k].obs == es[j].obs;
    assert es'[k] == es[k] && es'[j] == es[j];
    assert s'.Stored(es[j].Symbol()) == s.Stored(es[j].Symbol());
    if es[j].RebaseIntent? {
      var r :| 0 <= r < |s.log.rebases| && s.log.rebases[r].block == es[j].plan.block;
      assert s'.log.rebases[r] == s.log.rebases[r];
    }
  }

  lemma {:induction false} QueueMove(s: System, s': System, i: nat, ref: VersionRef, y: Symbol, queue: set<nat>)
    requires Core(s) && Moves(s, s', i, ref) && Open(s.log.events, i) && i in s.committed
    requires QueueSound(s, y, queue)
    ensures QueueSound(s', y, queue)
  {
    var es, es' := s.log.events, s'.log.events;
    OpenAppend(es, es'[|es|]);
    forall j | j in queue
      ensures j < |es'| && es'[j].IsIntent() && es'[j].Symbol() == y && (Open(es', j) || Landed(s', j))
    {
      assert es'[j] == es[j];
      if Open(es, j) {
        if j == i { MoveLanded(s, s', i, ref); } else { assert es[j].obs != es[i].obs; }
      } else {
        LandedStays(s, s', j);
      }
    }
  }

  /** Facts about one symbol other than the finalized one survive. */
  lemma {:induction false} DecisionMove(s: System, s': System, i: nat, ref: VersionRef, o: ObsId, binding: Binding)
    requires Moves(s, s', i, ref) && o.Symbol() != s.log.events[i].Symbol() && DecisionSound(s, o, binding)
    ensures DecisionSound(s', o, binding)
  {
    MoveContent(s, s', i, ref);
    assert s'.log.events[binding.decision] == s.log.events[binding.decision];
    assert forall k | 0 <= k < |s.log.events| :: s'.log.events[k] == s.log.events[k];
  }

  lemma {:induction false} DecidedMove(s: System, s': System, i: nat, ref: VersionRef, o: ObsId, binding: Binding,
      newer: set<Session>)
    requires Core(s) && Moves(s, s', i, ref) && Open(s.log.events, i) && i in s.committed
    requires HolderSound(s, Decided(o, binding, newer))
    ensures HolderSound(s', Decided(o, binding, newer))
  {
    hide LogInv, Lineages, Quiet, AllGrown, RevisionsSound, CommittedIntents, OpenSound, DecisionSound, Classify;
    var es, e := s.log.events, s'.log.events[|s.log.events|];
    LatestAppend(es, e);
    OpenAppend(es, e);
    MoveContent(s, s', i, ref);
    assert o.Symbol() != es[i].Symbol();
    DecisionMove(s, s', i, ref, o, binding);
  }

  lemma {:induction false} IntendedMove(s: System, s': System, i: nat, ref: VersionRef, o: ObsId, j: nat,
      binding: Binding)
    requires Core(s) && Moves(s, s', i, ref) && Open(s.log.events, i) && i in s.committed
    requires HolderSound(s, Intended(o, j, binding))
    ensures HolderSound(s', Intended(o, j, binding))
  {
    hide Known, Absorbing, Chained, RebasesResolved, ResolvedBlocks, OneRevision, Lineages, Quiet, AllGrown,
      RevisionsSound, CommittedIntents, OpenSound, DecisionSound;
    OpenAppend(s.log.events, s'.log.events[|s.log.events|]);
    assert s.log.events[j].Symbol() != s.log.events[i].Symbol();
    DecisionMove(s, s', i, ref, o, binding);
  }

  lemma {:induction false} PlannedMove(s: System, s': System, i: nat, ref: VersionRef, o: ObsId, plan: Plan)
    requires Core(s) && Moves(s, s', i, ref) && Open(s.log.events, i) && i in s.committed
    requires HolderSound(s, Planned(o, plan))
    ensures HolderSound(s', Planned(o, plan))
  {
    hide LogInv, Lineages, Quiet, AllGrown, RevisionsSound, CommittedIntents, OpenSound, InWindow;
    var es, e := s.log.events, s'.log.events[|s.log.events|];
    OpenAppend(es, e);
    MoveContent(s, s', i, ref);
    assert forall k | 0 <= k < |es| :: s'.log.events[k] == es[k];
    assert o.Symbol() != es[i].Symbol();
    PlanFrame(s, s', o, plan);
  }

  lemma {:induction false} HolderMove(s: System, s': System, i: nat, ref: VersionRef, pc: Held)
    requires Core(s) && Moves(s, s', i, ref) && Open(s.log.events, i) && i in s.committed
    requires HolderSound(s, pc)
    ensures HolderSound(s', pc)
  {
    hide LogInv, Lineages, Quiet, AllGrown, RevisionsSound, CommittedIntents, OpenSound, QueueSound, DecisionSound,
      PlanSound, Classify, InWindow, BlockFor, Affected, Replay, Overlay, PendingOn, Pending;
    var es, es' := s.log.events, s'.log.events;
    LatestAppend(es, es'[|es|]);
    OpenAppend(es, es'[|es|]);
    MoveContent(s, s', i, ref);
    assert forall k | 0 <= k < |es| :: es'[k] == es[k];
    assert forall y :: NoOpen(es, y) ==> NoOpen(es', y) && y != es[i].Symbol();
    match pc
    case Settling(purpose, y, queue) => QueueMove(s, s', i, ref, y, queue);
    case Decided(o, binding, newer) => DecidedMove(s, s', i, ref, o, binding, newer);
    case Intended(o, j, binding) => IntendedMove(s, s', i, ref, o, j, binding);
    case Planned(o, plan) => PlannedMove(s, s', i, ref, o, plan);
    case Blocking(o, block, again) => BlockingAppend(s, s', es'[|es|], o, block.verdict);
    case _ =>
  }

  lemma {:induction false} FinisherMove(s: System, s': System, i: nat, ref: VersionRef, f: Finisher)
    requires Core(s) && Moves(s, s', i, ref) && Open(s.log.events, i) && i in s.committed
    requires FinisherSound(s, f)
    ensures FinisherSound(s', f)
  {
    hide Known, Chained, RebasesResolved, Lineages, Quiet, AllGrown, RevisionsSound, CommittedIntents, OpenSound;
    var es, es' := s.log.events, s'.log.events;
    OpenAppend(es, es'[|es|]);
    MoveContent(s, s', i, ref);
    assert forall k | 0 <= k < |es| :: es'[k] == es[k];
    match f
    case AppendFinisher(o, j, binding, content) =>
      if !IsApplied(es', o) {
        assert es[j].Symbol() != es[i].Symbol();
        DecisionMove(s, s', i, ref, o, binding);
      }
    case RebaseFinisher(j) =>
      var block := es[j].plan.block;
      if Rebased(s.log.rebases, block) {
        var r :| 0 <= r < |s.log.rebases| && s.log.rebases[r].block == block;
        assert s'.log.rebases[r] == s.log.rebases[r];
      } else if j == i {
        assert s'.log.rebases[|s.log.rebases|].block == block;
      } else {
        assert es[j].obs != es[i].obs;
      }
  }
}
