/** Every action keeps the invariant, so it holds in every state of every run. */
module InvariantSteps {
  import opened MarketTypes
  import opened LogModel
  import opened Admission
  import opened Protocol
  import opened Invariant
  import opened InvariantEvents
  import opened InvariantProcesses
  import opened Finalization

  lemma {:induction false} InitInv(s: System)
    requires Init(s)
    ensures Inv(s)
  {
    assert forall y :: s.Content(y) == s.Base(y) && s.Stored(y) == s.Base(y);
    forall y ensures Grown(s, y) {}
  }

  // ------------------------------------------------------------ without the lock

  /** An inert event outside the lock. */
  lemma {:induction false} InertStep(s: System, s': System, e: Event)
    requires Inv(s) && Appends(s, s', e) && Inert(s, e)
    requires s'.lock == s.lock && s'.finishers == s.finishers
    ensures Inv(s')
  {
    InertAppendable(s, s', e);
    AppendCore(s, s', e);
    if s.lock.HeldBy? { HolderAppend(s, s', e, s.lock.pc); }
    forall f | f in s.finishers ensures FinisherSound(s', f) { FinisherAppend(s, s', e, f); }
  }

  lemma {:induction false} PersistStep(s: System, s': System, o: ObsId, excluded: seq<Session>)
    requires Inv(s) && Next(s, Persist(o, excluded), s')
    ensures Inv(s')
  {
    if o !in s.log.observations {
      forall k | 0 <= k < |s'.log.events| ensures s'.log.events[k].obs in s'.log.observations {}
      assert Latest(s.log.events, o) == -1;
      InertStep(s, s', Observed(o));
    }
  }

  lemma {:induction false} ReceiptStep(s: System, s': System, o: ObsId)
    requires Inv(s) && Next(s, Receipt(o), s')
    ensures Inv(s')
  {
    forall k | 0 <= k < |s'.log.events| ensures s'.log.events[k].obs in s'.log.observations {}
    InertStep(s, s', Note(o));
  }

  lemma {:induction false} HolderResolve(s: System, s': System, pc: Held)
    requires Resolves(s, s') && HolderSound(s, pc)
    ensures HolderSound(s', pc)
  {
    assert forall y :: s'.Content(y) == s.Content(y) && s'.Stored(y) == s.Stored(y);
    match pc
    case Settling(purpose, y, queue) =>
      forall i | i in queue
        ensures i < |s.log.events| && s.log.events[i].IsIntent() && s.log.events[i].Symbol() == y
                && (Open(s.log.events, i) || Landed(s', i))
      {
      }
    case Blocking(o, block, again) =>
      assert AlreadyBlocked(s'.log, o, block.verdict) ==> AlreadyBlocked(s.log, o, block.verdict) by {
        assert forall b: nat :: Unresolved(s'.log, b) ==> Unresolved(s.log, b);
      }
    case _ =>
  }

  lemma {:induction false} ReviewStep(s: System, s': System, b: nat)
    requires Inv(s) && Next(s, Review(b), s')
    ensures Inv(s')
  {
    assert Resolves(s, s');
    ResolveCore(s, s');
    if s.lock.HeldBy? { HolderResolve(s, s', s.lock.pc); }
    forall f | f in s.finishers ensures FinisherSound(s', f) { assert FinisherSound(s, f); }
  }

  /** Only the lock or the finishers change. */
  ghost predicate SameStore(s: System, s': System) {
    s'.baseline == s.baseline && s'.market == s.market && s'.committed == s.committed && s'.log == s.log
  }

  lemma {:induction false} LockStep(s: System, s': System)
    requires Inv(s) && SameStore(s, s') && s'.finishers <= s.finishers
    requires s'.lock.HeldBy? ==> HolderSound(s, s'.lock.pc)
    ensures Inv(s')
  {
    SameCore(s, s');
    assert forall y :: s'.Content(y) == s.Content(y) && s'.Stored(y) == s.Stored(y);
    forall f | f in s'.finishers ensures FinisherSound(s', f) { assert FinisherSound(s, f); }
    if s'.lock.HeldBy? {
      assert Resolves(s, s');
      HolderResolve(s, s', s'.lock.pc);
    }
  }

  /** The committed open intent `i` is finalized; the holder and the other finishers follow. */
  lemma {:induction false} FinalizeStep(s: System, s': System, i: nat, binding: Option<Binding>)
    requires Inv(s) && Open(s.log.events, i) && i in s.committed
    requires s'.baseline == s.baseline && s'.market == s.market && s'.committed == s.committed
    requires var e := s.log.events[i];
      s'.log == if e.RebaseIntent? then RebaseApplied(s.log, e)
        else AppendApplied(s.log, e, s.Stored(e.Symbol()), binding)
    requires s'.finishers <= s.finishers
    requires s'.lock.HeldBy? ==> HolderSound(s, s'.lock.pc) || HolderSound(s', s'.lock.pc)
    ensures Inv(s')
  {
    var e := s.log.events[i];
    FinalizeCore(s, i, binding, s');
    var ref := if e.RebaseIntent? then RebaseVersion(s.log, e) else AppendVersion(s.log, e, s.Stored(e.Symbol()));
    if e.RebaseIntent? {
      assert IntentSound(s, i);
      RebaseMoves(s, i, s');
    } else {
      AppendMoves(s, i, s.Stored(e.Symbol()), binding, s');
    }
    if s'.lock.HeldBy? && HolderSound(s, s'.lock.pc) { HolderMove(s, s', i, ref, s'.lock.pc); }
    forall f | f in s'.finishers ensures FinisherSound(s', f) { FinisherMove(s, s', i, ref, f); }
  }

  /** A finisher whose intent is still open finds every check of its finalization satisfied. */
  lemma {:induction false} FinisherSucceeds(s: System, f: Finisher)
    requires Inv(s) && f in s.finishers
    ensures match f
      case AppendFinisher(o, i, binding, content) =>
        && i < |s.log.events|
        && var r := RecordApplication(s.log, o, s.log.events[i].Claimed(), content, Some(binding));
           r == Ok(if IsApplied(s.log.events, o) then s.log
             else AppendApplied(s.log, s.log.events[i], content, Some(binding)))
           && (!IsApplied(s.log.events, o) ==>
             Open(s.log.events, i) && i in s.committed && content == s.Stored(o.Symbol()))
      case RebaseFinisher(i) =>
        && i < |s.log.events| && s.log.events[i].RebaseIntent?
        && var done := Rebased(s.log.rebases, s.log.events[i].plan.block);
           RecordRebase(s.log, i) == Ok(if done then s.log else RebaseApplied(s.log, s.log.events[i]))
           && (!done ==> Open(s.log.events, i) && i in s.committed)
  {
    assert FinisherSound(s, f);
    match f
    case AppendFinisher(o, i, binding, content) =>
      if !IsApplied(s.log.events, o) {
        CommittedMarket(s, i);
        FinalizeAppend(s, i, content, Some(binding));
      }
    case RebaseFinisher(i) =>
      if !Rebased(s.log.rebases, s.log.events[i].plan.block) { FinalizeRebase(s, i); }
  }

  lemma {:induction false} FinishStep(s: System, s': System, f: Finisher)
    requires Inv(s) && Next(s, Finish(f), s')
    ensures Inv(s')
  {
    FinisherSucceeds(s, f);
    match f
    case AppendFinisher(o, i, binding, content) =>
      if IsApplied(s.log.events, o) { LockStep(s, s'); } else { FinalizeStep(s, s', i, Some(binding)); }
    case RebaseFinisher(i) =>
      if Rebased(s.log.rebases, s.log.events[i].plan.block) { LockStep(s, s'); } else { FinalizeStep(s, s', i, None); }
  }
}
