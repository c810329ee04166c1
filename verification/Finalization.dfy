/** The log transactions that finalize or settle: which of them succeed, and what they keep. */
module Finalization {
  import opened MarketTypes
  import opened LogModel
  import opened Admission
  import opened Protocol
  import opened Invariant
  import opened InvariantEvents
  import opened InvariantFinalize

  lemma {:induction false} CommittedMarket(s: System, i: nat)
    requires Core(s) && Open(s.log.events, i)
    ensures IntentSound(s, i)
    ensures var e := s.log.events[i];
      s.Stored(e.Symbol()) == if i in s.committed then Overlay(s.Content(e.Symbol()), e.obs.Rows(), e.Claimed())
        else s.Content(e.Symbol())
  {
  }

  lemma {:induction false} LiftedAreFree(es: seq<Event>, e: Event, resolutions: map<nat, Resolution>, y: Symbol,
      o: ObsId, d: nat, confirmed: set<Session>)
    requires e.Applied? && e.obs == o && o.Symbol() == y
    ensures forall b | b in LiftedBy(es + [e], resolutions, y, o, d, confirmed) ::
              b < |es| && es[b].Blocked? && b !in resolutions
              && (!OwnedByRebase(es, b) || es[b].Symbol() == y)
  {
    forall b | b in LiftedBy(es + [e], resolutions, y, o, d, confirmed)
      ensures b < |es| && es[b].Blocked? && b !in resolutions && (!OwnedByRebase(es, b) || es[b].Symbol() == y)
    {
      assert Liftable(es + [e], resolutions, y, b, d, confirmed);
      assert (es + [e])[b].Blocked?;
    }
  }

  function AppendVersion(log: Log, e: Event, content: Rows): VersionRef {
    Version(Head(log.versions, e.Symbol()), e.obs, e.Claimed(), content, Append)
  }

  /** The log after an append finalization. */
  function AppendApplied(log: Log, e: Event, content: Rows, binding: Option<Binding>): Log {
    var ref := AppendVersion(log, e, content);
    var events := log.events + [Applied(e.obs, ref)];
    log.(events := events,
         versions := log.versions + [SymbolVersion(e.Symbol(), ref)],
         owned := log.owned + map t | t in e.Claimed() :: (e.Symbol(), t) := Owner(e.obs, ref),
         resolutions := log.resolutions +
           if binding.None? then map[]
           else LiftedBy(events, log.resolutions, e.Symbol(), e.obs, binding.value.decision, binding.value.confirmed))
  }

  /** An append finalization after its commit is never refused, whoever performs it. */
  lemma {:induction false} FinalizeAppend(s: System, i: nat, content: Rows, binding: Option<Binding>)
    requires Core(s) && Open(s.log.events, i) && s.log.events[i].Intent?
    requires binding.Some? ==> binding.value.bound == Head(s.log.versions, s.log.events[i].Symbol())
    ensures RecordApplication(s.log, s.log.events[i].obs, s.log.events[i].Claimed(), content, binding)
         == Ok(AppendApplied(s.log, s.log.events[i], content, binding))
  {
    var e := s.log.events[i];
    assert IntentSound(s, i);
    NotYetApplied(s.log, i);
    assert Grown(s, e.Symbol());
    assert forall t | t in e.Claimed() :: t !in s.Content(e.Symbol());
    var resolutions := s.log.resolutions;
    assert resolutions + map[] == resolutions;
  }

  lemma {:induction false} AppendResolvesFree(s: System, i: nat, content: Rows, binding: Option<Binding>, s': System)
    requires i < |s.log.events| && s.log.events[i].Intent? && ResolvedBlocks(s.log)
    requires s'.log == AppendApplied(s.log, s.log.events[i], content, binding)
    ensures MoveResolves(s, s', i) && s.log.resolutions.Keys <= s'.log.resolutions.Keys
  {
    hide LiftedBy, OwnedByRebase;
    var e, ref := s.log.events[i], AppendVersion(s.log, s.log.events[i], content);
    assert forall k | 0 <= k < |s.log.events| :: s'.log.events[k] == s.log.events[k];
    if binding.Some? {
      LiftedAreFree(s.log.events, Applied(e.obs, ref), s.log.resolutions, e.Symbol(), e.obs, binding.value.decision,
        binding.value.confirmed);
    }
  }

  lemma {:induction false} AppendMoves(s: System, i: nat, content: Rows, binding: Option<Binding>, s': System)
    requires Core(s) && Open(s.log.events, i) && s.log.events[i].Intent? && i in s.committed
    requires content == s.Stored(s.log.events[i].Symbol())
    requires s'.baseline == s.baseline && s'.market == s.market && s'.committed == s.committed
    requires s'.log == AppendApplied(s.log, s.log.events[i], content, binding)
    ensures Moves(s, s', i, AppendVersion(s.log, s.log.events[i], content)) && MoveResolves(s, s', i)
  {
    AppendResolvesFree(s, i, content, binding, s');
    hide Core, MoveResolves, LiftedBy, IntentSound;
    CommittedMarket(s, i);
  }

  function RebaseVersion(log: Log, e: Event): VersionRef
    requires e.RebaseIntent?
  {
    Version(Head(log.versions, e.Symbol()), e.obs, e.plan.sessions, e.plan.post, Rebase(e.plan.block))
  }

  /** The log after a rebase finalization. */
  function RebaseApplied(log: Log, e: Event): Log
    requires e.RebaseIntent?
  {
    var ref := RebaseVersion(log, e);
    log.(events := log.events + [Applied(e.obs, ref)],
         versions := log.versions + [SymbolVersion(e.Symbol(), ref)],
         rebases := log.rebases + [RebaseRecord(e.plan.block, e.obs, e.plan.sessions, ref)],
         resolutions := (map b | b in e.plan.supersedes :: SupersededByRebase(e.obs, e.plan.block))
                        + log.resolutions + map[e.plan.block := RebasedByReview(e.obs)])
  }

  /** A rebase finalization after its commit is never refused, whoever performs it. */
  lemma {:induction false} FinalizeRebase(s: System, i: nat)
    requires Core(s) && Open(s.log.events, i) && s.log.events[i].RebaseIntent?
    ensures !Rebased(s.log.rebases, s.log.events[i].plan.block)
    ensures RecordRebase(s.log, i) == Ok(RebaseApplied(s.log, s.log.events[i]))
  {
    assert IntentSound(s, i);
    NotYetApplied(s.log, i);
  }

  lemma {:induction false} RebaseMoves(s: System, i: nat, s': System)
    requires i < |s.log.events| && s.log.events[i].RebaseIntent?
    requires PlanSound(s, s.log.events[i].obs, s.log.events[i].plan) && ResolvedBlocks(s.log)
    requires s'.baseline == s.baseline && s'.market == s.market && s'.committed == s.committed
    requires s'.log == RebaseApplied(s.log, s.log.events[i])
    ensures Moves(s, s', i, RebaseVersion(s.log, s.log.events[i])) && MoveResolves(s, s', i)
  {
    hide Replay, Before, HasRebase, Rebased, Overlay;
    var es, plan := s.log.events, s.log.events[i].plan;
    forall b | b in s'.log.resolutions
      ensures b in s.log.resolutions || (b < |es| && es[b].Blocked? && es[b].Symbol() == es[i].Symbol())
    {
      assert b in s.log.resolutions || b == plan.block || b in plan.supersedes;
    }
    assert forall k | 0 <= k < |es| :: s'.log.events[k] == es[k];
  }

  lemma {:induction false} FinalizeCore(s: System, i: nat, binding: Option<Binding>, s': System)
    requires Core(s) && Open(s.log.events, i) && i in s.committed
    requires s'.baseline == s.baseline && s'.market == s.market && s'.committed == s.committed
    requires var e := s.log.events[i];
      s'.log == if e.RebaseIntent? then RebaseApplied(s.log, e)
        else AppendApplied(s.log, e, s.Stored(e.Symbol()), binding)
    ensures Core(s')
  {
    var e := s.log.events[i];
    if e.RebaseIntent? {
      assert IntentSound(s, i);
      RebaseMoves(s, i, s');
      MoveCore(s, s', i, RebaseVersion(s.log, e));
    } else {
      AppendMoves(s, i, s.Stored(e.Symbol()), binding, s');
      MoveCore(s, s', i, AppendVersion(s.log, e, s.Stored(e.Symbol())));
    }
  }

  // ------------------------------------------------------------------ recovery

  /** Recovery reads the truth from the market: an open intent is finalized exactly when its
      market transaction committed, dropped exactly when it did not, and never ambiguous. */
  lemma {:induction false} SettleOpen(s: System, i: nat)
    requires Core(s) && Open(s.log.events, i)
    ensures var r := Settle(s.log, i, s.Stored(s.log.events[i].Symbol()));
      && (r.Finalized? <==> i in s.committed)
      && (r.Dropped? <==> i !in s.committed)
  {
    var e := s.log.events[i];
    var stored := s.Stored(e.Symbol());
    CommittedMarket(s, i);
    var t := PickOne(e.Claimed());
    if e.RebaseIntent? {
      assert e.plan.post[t] != e.plan.pre[t];
      if i in s.committed { FinalizeRebase(s, i); }
    } else {
      assert t !in s.Content(e.Symbol());
      if i in s.committed { FinalizeAppend(s, i, stored, None); }
    }
  }

  /** A queued intent that was finalized meanwhile is settled without writing anything. */
  lemma {:induction false} SettleLanded(s: System, i: nat)
    requires i < |s.log.events| && s.log.events[i].IsIntent() && Landed(s, i)
    ensures Settle(s.log, i, s.Stored(s.log.events[i].Symbol())) == Finalized(s.log)
  {
  }

  // ------------------------------------------------------------------- no-op

  /** Whatever a revision block contests was compared and confirmed, if nothing new was offered. */
  lemma {:induction false} NoOpConfirms(s: System, o: ObsId, binding: Binding, b: nat)
    requires Core(s) && HolderSound(s, Decided(o, binding, {}))
    requires IsRevision(s.log.events, b) && s.log.events[b].obs == o
    ensures s.log.events[b].block.affected <= binding.confirmed
  {
    hide LogInv, Quiet, Lineages, AllGrown, CommittedIntents, OpenSound;
    var block, content := s.log.events[b].block, s.Content(o.Symbol());
    assert RevisionSound(s, b);
    var c := Classify(content, o.Rows(), o.Start(), o.End());
    assert forall t | t in block.affected && t !in block.window :: t in c.unstored;
    forall t | t in block.affected
      ensures t in binding.confirmed
    {
      assert t in block.window;
      assert t in InWindow(content, o.Start(), o.End());
      assert t !in c.missing && t !in c.changed;
    }
  }

  /** No open rebase claims a block of an observation that is deciding. */
  lemma {:induction false} NoOpUnclaimed(s: System, o: ObsId, binding: Binding, b: nat)
    requires Core(s) && HolderSound(s, Decided(o, binding, {}))
    requires IsRevision(s.log.events, b) && s.log.events[b].obs == o
    ensures !OwnedByRebase(s.log.events + [Applied(o, binding.bound)], b)
  {
    hide LogInv, Quiet, Lineages, AllGrown, CommittedIntents, RevisionsSound, Classify;
    var es := s.log.events;
    var es' := es + [Applied(o, binding.bound)];
    OpenAppend(es, Applied(o, binding.bound));
    forall i | 0 <= i < |es'| && Open(es', i) && es'[i].RebaseIntent?
      ensures es'[i].plan.block != b
    {
      assert Open(es, i) && es'[i] == es[i];
      assert IntentSound(s, i);
    }
  }

  /** A decision without new sessions lifts every revision block of its own observation. */
  lemma {:induction false} NoOpLifts(s: System, o: ObsId, binding: Binding, b: nat)
    requires Core(s) && HolderSound(s, Decided(o, binding, {}))
    requires IsRevision(s.log.events, b) && s.log.events[b].obs == o && b !in s.log.resolutions
    ensures Liftable(s.log.events + [Applied(o, binding.bound)], s.log.resolutions, o.Symbol(), b, binding.decision,
      binding.confirmed)
  {
    hide LogInv, Quiet, Lineages, AllGrown, CommittedIntents, OpenSound, Classify, OwnedByRebase;
    NoOpConfirms(s, o, binding, b);
    NoOpUnclaimed(s, o, binding, b);
    assert RevisionSound(s, b);
    assert (s.log.events + [Applied(o, binding.bound)])[b] == s.log.events[b];
  }

  /** The log after a finalization without sessions. */
  function EmptyApplied(log: Log, o: ObsId, binding: Binding): Log {
    var events := log.events + [Applied(o, binding.bound)];
    log.(events := events,
         resolutions := log.resolutions + LiftedBy(events, log.resolutions, o.Symbol(), o, binding.decision,
           binding.confirmed))
  }

  lemma {:induction false} EmptyApplication(log: Log, o: ObsId, content: Rows, binding: Binding)
    requires !IsApplied(log.events, o)
    requires Latest(log.events, o) == binding.decision && log.events[binding.decision].Admitted?
    ensures RecordApplication(log, o, {}, content, Some(binding)) == Ok(EmptyApplied(log, o, binding))
  {
    forall m: map<(Symbol, Session), Owner> | m.Keys == {}
      ensures log.owned + m == log.owned
    {
    }
  }

  ghost predicate NoOpStep(s: System, o: ObsId, binding: Binding, s': System) {
    && s'.baseline == s.baseline && s'.market == s.market && s'.committed == s.committed
    && s'.log == EmptyApplied(s.log, o, binding)
  }

  lemma {:induction false} NoOpOpenSound(s: System, o: ObsId, binding: Binding, s': System)
    requires NoOpStep(s, o, binding, s') && OpenSound(s) && CommittedIntents(s)
    requires NoOpen(s.log.events, o.Symbol())
    ensures OpenSound(s') && CommittedIntents(s')
  {
    var es, es' := s.log.events, s'.log.events;
    OpenAppend(es, Applied(o, binding.bound));
    forall i: nat | Open(es', i)
      ensures IntentSound(s', i)
    {
      assert es'[i] == es[i] && Open(es, i);
      if es[i].RebaseIntent? {
        assert IntentSound(s, i);
        assert OwnedByRebase(es', es[i].plan.block);
      }
      IntentFrame(s, s', i);
    }
    assert forall i | i in s.committed :: es'[i] == es[i];
  }

  lemma {:induction false} NoOpQuiet(s: System, o: ObsId, binding: Binding, s': System)
    requires NoOpStep(s, o, binding, s') && Quiet(s)
    requires NoOpen(s.log.events, o.Symbol())
    ensures Quiet(s')
  {
    var es, es' := s.log.events, s'.log.events;
    OpenAppend(es, Applied(o, binding.bound));
    forall y
      ensures s'.Stored(y) == s'.Content(y) || LandedOn(s', y)
    {
      if s.Stored(y) != s.Content(y) {
        var i :| i in s.committed && Open(es, i) && es[i].Symbol() == y;
        assert es'[i] == es[i] && Open(es', i);
      }
    }
  }

  lemma {:induction false} NoOpRevisions(s: System, o: ObsId, binding: Binding, s': System)
    requires NoOpStep(s, o, binding, s') && Core(s) && HolderSound(s, Decided(o, binding, {}))
    ensures RevisionsSound(s')
  {
    hide LogInv, Quiet, Lineages, AllGrown, CommittedIntents, OpenSound, Classify, Liftable, DecisionSound;
    var es, es' := s.log.events, s'.log.events;
    OpenAppend(es, Applied(o, binding.bound));
    forall b: nat | IsRevision(es', b)
      ensures RevisionSound(s', b)
    {
      assert es'[b] == es[b] && IsRevision(es, b);
      assert RevisionSound(s, b);
      assert s'.Content(es[b].Symbol()) == s.Content(es[b].Symbol());
      if es[b].obs == o && b !in s.log.resolutions { NoOpLifts(s, o, binding, b); }
    }
  }

  lemma {:induction false} NoOpLogInv(s: System, o: ObsId, binding: Binding, s': System)
    requires NoOpStep(s, o, binding, s') && LogInv(s.log) && Fresh(s, o)
    ensures LogInv(s'.log)
  {
    var es, es' := s.log.events, s'.log.events;
    AppliedEvents(es, o, binding.bound);
    LiftedAreFree(es, Applied(o, binding.bound), s.log.resolutions, o.Symbol(), o, binding.decision, binding.confirmed);
    assert forall k | 0 <= k < |es| :: es'[k] == es[k];
    forall b, c | IsRevision(es', b) && IsRevision(es', c)
                  && b !in s'.log.resolutions && c !in s'.log.resolutions && es'[b].obs == es'[c].obs
      ensures b == c
    {
      assert IsRevision(es, b) && IsRevision(es, c);
    }
  }

  lemma {:induction false} NoOpCore(s: System, o: ObsId, binding: Binding, s': System)
    requires NoOpStep(s, o, binding, s') && Core(s) && HolderSound(s, Decided(o, binding, {}))
    ensures Core(s')
  {
    NoOpLogInv(s, o, binding, s');
    NoOpOpenSound(s, o, binding, s');
    NoOpQuiet(s, o, binding, s');
    NoOpRevisions(s, o, binding, s');
    forall y ensures Grown(s', y) { assert Grown(s, y); }
  }
}
