/** Every action of a reachable state has one of six effects on the two files. */
module Effects {
  import opened MarketTypes
  import opened LogModel
  import opened Admission
  import opened Protocol
  import opened Invariant
  import opened InvariantProcesses
  import opened Finalization
  import opened InvariantSteps
  import opened InvariantHolder

  datatype Effect =
    | Silent
    | CommitsMarket(intent: nat)
    | Writes(event: Event)
    | Lands(intent: nat, bound: Option<Binding>)
    | Confirms(obs: ObsId, binding: Binding)
    | Reviews(block: nat)

  /** The log after the open intent `i` was finalized. */
  function Finalized(s: System, i: nat, binding: Option<Binding>): Log
    requires i < |s.log.events|
  {
    var e := s.log.events[i];
    if e.RebaseIntent? then RebaseApplied(s.log, e) else AppendApplied(s.log, e, s.Stored(e.Symbol()), binding)
  }

  /** An event other than an application result closes at most an uncommitted intent, by abandoning it. */
  ghost predicate Harmless(s: System, e: Event) {
    var last := Latest(s.log.events, e.obs);
    && !e.Applied?
    && (e.IsState() && last >= 0 && s.log.events[last].IsIntent() ==> e.Abandoned? && last !in s.committed)
  }

  ghost predicate SameMarket(s: System, s': System) {
    s'.baseline == s.baseline && s'.market == s.market && s'.committed == s.committed
  }

  ghost predicate Has(s: System, s': System, effect: Effect) {
    match effect
    case Silent => SameMarket(s, s') && s'.log == s.log
    case CommitsMarket(i) => Commits(s, s', i)
    case Writes(e) =>
      && SameMarket(s, s') && Harmless(s, e)
      && s'.log == s.log.(events := s.log.events + [e], observations := s'.log.observations)
    case Lands(i, binding) =>
      && SameMarket(s, s') && Open(s.log.events, i) && i in s.committed
      && s'.log == Finalized(s, i, binding)
      && (binding.Some? ==> s.log.events[i].Intent? && DecisionSound(s, s.log.events[i].obs, binding.value))
    case Confirms(o, binding) => NoOpStep(s, o, binding, s') && HolderSound(s, Decided(o, binding, {}))
    case Reviews(b) =>
      && SameMarket(s, s')
      && b < |s.log.events| && s.log.events[b].Blocked? && b !in s.log.resolutions && !OwnedByRebase(s.log.events, b)
      && s'.log == s.log.(resolutions := s.log.resolutions[b := Reviewed])
  }

  /** Which actions may have which effect. */
  ghost predicate Explains(s: System, a: Action, effect: Effect) {
    && (a.Commit? || a.CommitRebase? <==> effect.CommitsMarket?)
    && (effect.CommitsMarket? ==>
          s.lock.HeldBy? && (s.lock.pc.Intended? || s.lock.pc.RebaseIntended?) && s.lock.pc.intent == effect.intent)
    && (effect.Lands? ==> a.Finish? || a.SettleOne?)
    && (effect.Confirms? <==> a.NoOp?)
    && (effect.Reviews? ==> a == Review(effect.block))
    && (effect.Writes? && effect.event.Blocked? ==> a.BlockDecision?)
  }

  lemma {:induction false} FreeEffect(s: System, a: Action, s': System) returns (effect: Effect)
    requires Inv(s) && Next(s, a, s')
    requires a.Persist? || a.Receipt? || a.Review? || a.Crash? || a.CrashFinisher? || a.Finish?
    ensures Has(s, s', effect) && Explains(s, a, effect)
  {
    match a
    case Persist(o, excluded) =>
      effect := if o in s.log.observations then Silent else Writes(Observed(o));
    case Receipt(o) => effect := Writes(Note(o));
    case Review(b) => effect := Reviews(b);
    case Crash => effect := Silent;
    case CrashFinisher(f) => effect := Silent;
    case Finish(f) => effect := FinishEffect(s, f, s');
  }

  lemma {:induction false} FinishEffect(s: System, f: Finisher, s': System) returns (effect: Effect)
    requires Inv(s) && Next(s, Finish(f), s')
    ensures Has(s, s', effect) && Explains(s, Finish(f), effect)
  {
    hide Has, Core, HolderSound;
    FinisherSucceeds(s, f);
    assert FinisherSound(s, f);
    match f
    case AppendFinisher(o, i, binding, content) =>
      if IsApplied(s.log.events, o) {
        effect := Silent;
        SilentEffect(s, s');
      } else {
        effect := Lands(i, Some(binding));
        LandEffect(s, i, Some(binding), s');
      }
    case RebaseFinisher(i) =>
      if Rebased(s.log.rebases, s.log.events[i].plan.block) {
        effect := Silent;
        SilentEffect(s, s');
      } else {
        effect := Lands(i, None);
        LandEffect(s, i, None, s');
      }
  }

  /** What a settlement step works on and leaves. */
  lemma {:induction false} SettleFacts(s: System, i: nat, s': System)
    requires Inv(s) && Next(s, SettleOne(i), s')
    ensures i < |s.log.events| && s.log.events[i].IsIntent() && (Open(s.log.events, i) || Landed(s, i))
    ensures SameMarket(s, s')
    ensures var r := Settle(s.log, i, s.Stored(s.log.events[i].Symbol()));
      r.Finalized? || r.Dropped? ==> s'.log == r.log
  {
    hide Core, Settle, Landed;
  }

  lemma {:induction false} AbandonEffect(s: System, i: nat, s': System)
    requires Open(s.log.events, i) && i !in s.committed && SameMarket(s, s')
    requires s'.log == AppendEvent(s.log, Abandoned(s.log.events[i].obs))
    ensures Has(s, s', Writes(Abandoned(s.log.events[i].obs)))
  {
  }

  lemma {:induction false} SilentEffect(s: System, s': System)
    requires SameMarket(s, s') && s'.log == s.log
    ensures Has(s, s', Silent)
  {
  }

  lemma {:induction false} LandEffect(s: System, i: nat, binding: Option<Binding>, s': System)
    requires Open(s.log.events, i) && i in s.committed && SameMarket(s, s') && s'.log == Finalized(s, i, binding)
    requires binding.Some? ==> s.log.events[i].Intent? && DecisionSound(s, s.log.events[i].obs, binding.value)
    ensures Has(s, s', Lands(i, binding))
  {
  }

  lemma {:induction false} CommittingEffect(s: System, i: nat, s': System)
    requires Commits(s, s', i)
    ensures Has(s, s', CommitsMarket(i))
  {
  }

  lemma {:induction false} SettleEffect(s: System, i: nat, s': System) returns (effect: Effect)
    requires Inv(s) && Next(s, SettleOne(i), s')
    ensures Has(s, s', effect) && Explains(s, SettleOne(i), effect)
  {
    hide Next, HolderSound, FinisherSound, Core, Landed, Settle, Open, Has;
    SettleFacts(s, i, s');
    if !Open(s.log.events, i) {
      SettleLanded(s, i);
      effect := Silent;
      SilentEffect(s, s');
    } else if i in s.committed {
      SettleFinalizes(s, i);
      effect := Lands(i, None);
      LandEffect(s, i, None, s');
    } else {
      SettleDrops(s, i);
      effect := Writes(Abandoned(s.log.events[i].obs));
      AbandonEffect(s, i, s');
    }
  }

  lemma {:induction false} SettleDrops(s: System, i: nat)
    requires Core(s) && Open(s.log.events, i) && i !in s.committed
    ensures Settle(s.log, i, s.Stored(s.log.events[i].Symbol())) == Dropped(AppendEvent(s.log,
      Abandoned(s.log.events[i].obs)))
  {
    SettleOpen(s, i);
    hide Core;
  }

  lemma {:induction false} BlockEffect(s: System, s': System) returns (effect: Effect)
    requires Inv(s) && Next(s, BlockDecision, s')
    ensures Has(s, s', effect) && Explains(s, BlockDecision, effect)
  {
    hide Core, FinisherSound, Classify;
    var pc := s.lock.pc;
    assert !Open(s.log.events, Latest(s.log.events, pc.obs));
    effect := Writes(if pc.again then Note(pc.obs) else Blocked(pc.obs, pc.block));
  }

  lemma {:induction false} CompareEffect(s: System, s': System) returns (effect: Effect)
    requires Inv(s) && Next(s, Compare, s')
    ensures Has(s, s', effect) && Explains(s, Compare, effect)
  {
    var o := s.lock.pc.obs;
    VerifiedQuiet(s, o.Symbol());
    var c := Classify(s.Stored(o.Symbol()), o.Rows(), o.Start(), o.End());
    if c.Admits() {
      assert !Open(s.log.events, Latest(s.log.events, o));
      effect := Writes(Admitted(o, c.verdict));
    } else {
      effect := Silent;
    }
  }

  lemma {:induction false} SupersedeEffect(s: System, o: ObsId, s': System) returns (effect: Effect)
    requires Inv(s) && Next(s, SupersedeOne(o), s')
    ensures Has(s, s', effect) && Explains(s, SupersedeOne(o), effect)
  {
    hide Core, FinisherSound;
    assert !Open(s.log.events, Latest(s.log.events, o));
    effect := Writes(Superseded(o));
  }

  lemma {:induction false} NoOpEffect(s: System, s': System) returns (effect: Effect)
    requires Inv(s) && Next(s, NoOp, s')
    ensures Has(s, s', effect) && Explains(s, NoOp, effect)
  {
    var o, binding := s.lock.pc.obs, s.lock.pc.binding;
    EmptyApplication(s.log, o, s.Stored(o.Symbol()), binding);
    effect := Confirms(o, binding);
  }

  lemma {:induction false} DeclareIntentEffect(s: System, s': System) returns (effect: Effect)
    requires Inv(s) && Next(s, DeclareIntent, s')
    ensures Has(s, s', effect) && Explains(s, DeclareIntent, effect)
  {
    hide Core, FinisherSound, Classify, DecisionSound;
    var e := Intent(s.lock.pc.obs, s.lock.pc.newer);
    IntentHarmless(s, e);
    effect := Writes(e);
  }

  lemma {:induction false} AnnotateEffect(s: System, a: Action, s': System) returns (effect: Effect)
    requires Next(s, a, s') && (a.Annotate? || a.SettleDone?)
    ensures Has(s, s', effect) && Explains(s, a, effect)
  {
    hide PlanRebase;
    effect := if a.Annotate? then Writes(Note(s.lock.pc.obs)) else Silent;
  }

  lemma {:induction false} AdmissionEffect(s: System, a: Action, s': System) returns (effect: Effect)
    requires Inv(s) && Next(s, a, s')
    requires a.SettleOne? || a.SettleDone? || a.SupersedeOne? || a.Compare? || a.BlockDecision?
      || a.Annotate? || a.NoOp? || a.DeclareIntent?
    ensures Has(s, s', effect) && Explains(s, a, effect)
  {
    hide Inv, Next, Has, Explains;
    match a
    case SettleOne(i) => effect := SettleEffect(s, i, s');
    case SupersedeOne(o) => effect := SupersedeEffect(s, o, s');
    case Compare => effect := CompareEffect(s, s');
    case BlockDecision => effect := BlockEffect(s, s');
    case NoOp => effect := NoOpEffect(s, s');
    case DeclareIntent => effect := DeclareIntentEffect(s, s');
    case _ => effect := AnnotateEffect(s, a, s');
  }

  lemma {:induction false} IntentHarmless(s: System, e: Event)
    requires NoOpen(s.log.events, e.Symbol()) && !e.Applied?
    ensures Harmless(s, e)
  {
    assert !Open(s.log.events, Latest(s.log.events, e.obs));
  }

  lemma {:induction false} DeclareRebaseEffect(s: System, s': System) returns (effect: Effect)
    requires Inv(s) && Next(s, DeclareRebase, s')
    ensures Has(s, s', effect) && Explains(s, DeclareRebase, effect)
  {
    hide Core, FinisherSound, PlanSound, InWindow;
    var pc := s.lock.pc;
    var e := RebaseIntent(pc.obs, pc.plan);
    effect := if RecordRebaseIntent(s.log, pc.obs, pc.plan).Ok? then Writes(e) else Silent;
    IntentHarmless(s, e);
  }

  lemma {:induction false} CommitEffect(s: System, a: Action, s': System) returns (effect: Effect)
    requires Inv(s) && Next(s, a, s')
    requires a.Commit? || a.Abort? || a.CommitRebase? || a.AbortRebase?
    ensures Has(s, s', effect) && Explains(s, a, effect)
  {
    hide Has, Core, FinisherSound, DecisionSound;
    var i := s.lock.pc.intent;
    if a.Commit? || a.CommitRebase? {
      effect := CommitsMarket(i);
      CommittingEffect(s, i, s');
    } else {
      AbandonEffect(s, i, s');
      effect := Writes(Abandoned(s.log.events[i].obs));
    }
  }

  lemma {:induction false} LockEffect(s: System, a: Action, s': System)
    requires Next(s, a, s')
    requires a.Acquire? || a.AcquireRecovery? || a.AcquireRebase? || a.SupersedeDone? || a.Release?
    ensures Has(s, s', Silent) && Explains(s, a, Silent)
  {
  }

  lemma {:induction false} StepEffect(s: System, a: Action, s': System) returns (effect: Effect)
    requires Inv(s) && Next(s, a, s')
    ensures Has(s, s', effect) && Explains(s, a, effect)
  {
    hide Inv, Next, Has, Explains;
    if a.Persist? || a.Receipt? || a.Review? || a.Crash? || a.CrashFinisher? || a.Finish? {
      effect := FreeEffect(s, a, s');
    } else if a.Acquire? || a.AcquireRecovery? || a.AcquireRebase? || a.SupersedeDone? || a.Release? {
      LockEffect(s, a, s');
      effect := Silent;
    } else if a.DeclareRebase? {
      effect := DeclareRebaseEffect(s, s');
    } else if a.Commit? || a.Abort? || a.CommitRebase? || a.AbortRebase? {
      effect := CommitEffect(s, a, s');
    } else {
      effect := AdmissionEffect(s, a, s');
    }
  }

  /** The effect of one step of a run. */
  lemma {:induction false} RunEffect(ss: seq<System>, acts: seq<Action>, k: nat) returns (effect: Effect)
    requires Run(ss, acts) && k < |acts|
    ensures Inv(ss[k]) && Has(ss[k], ss[k + 1], effect) && Explains(ss[k], acts[k], effect)
  {
    RunInv(ss, acts, k);
    assert Step(ss, acts, k);
    effect := StepEffect(ss[k], acts[k], ss[k + 1]);
  }

  function FinalizedVersion(s: System, i: nat): VersionRef
    requires i < |s.log.events|
  {
    var e := s.log.events[i];
    if e.RebaseIntent? then RebaseVersion(s.log, e) else AppendVersion(s.log, e, s.Stored(e.Symbol()))
  }

  lemma {:induction false} FinalizedTables(s: System, i: nat, binding: Option<Binding>)
    requires i < |s.log.events| && s.log.events[i].IsIntent()
    ensures var e, ref, log := s.log.events[i], FinalizedVersion(s, i), Finalized(s, i, binding);
      && log.events == s.log.events + [Applied(e.obs, ref)]
      && log.versions == s.log.versions + [SymbolVersion(e.Symbol(), ref)]
      && ref.Version? && ref.obs == e.obs && ref.sessions == e.Claimed()
        && ref.parent == Head(s.log.versions, e.Symbol())
  {
  }

  /** What a finalization adds to the owner table; no entry is ever changed. */
  lemma {:induction false} FinalizedOwners(s: System, i: nat, binding: Option<Binding>)
    requires Core(s) && Open(s.log.events, i)
    ensures var e, log := s.log.events[i], Finalized(s, i, binding);
      && (forall key | key in s.log.owned :: key in log.owned && log.owned[key] == s.log.owned[key])
      && (forall y, t ::
        (y, t) in log.owned && (y, t) !in s.log.owned <==> e.Intent? && y == e.Symbol() && t in e.Claimed())
      && forall key | key in log.owned && key !in s.log.owned :: log.owned[key] == Owner(e.obs, FinalizedVersion(s, i))
  {
    if s.log.events[i].Intent? { NothingOwned(s, i); }
    hide Core, LiftedBy;
  }

  /** The resolutions are kept, and new ones are of blocks of the symbol that were unresolved. */
  ghost predicate Resolves(log: Log, log': Log, y: Symbol) {
    && (forall b | b in log.resolutions :: b in log'.resolutions && log'.resolutions[b] == log.resolutions[b])
    && forall b | b in log'.resolutions && b !in log.resolutions :: Unresolved(log, b) && log.events[b].Symbol() == y
  }

  /** What it adds to the resolutions and the rebases: for a rebase the reviewed and the superseded
      blocks, and one record of that rebase. */
  lemma {:induction false} FinalizedResolutions(s: System, i: nat, binding: Option<Binding>)
    requires Core(s) && Open(s.log.events, i)
    ensures var e, log, ref := s.log.events[i], Finalized(s, i, binding), FinalizedVersion(s, i);
      && log.observations == s.log.observations && Resolves(s.log, log, e.Symbol())
      && log.rebases == (if e.RebaseIntent? then s.log.rebases + [RebaseRecord(e.plan.block, e.obs, e.plan.sessions,
        ref)] else s.log.rebases)
      && (e.RebaseIntent? ==> log.resolutions.Keys == s.log.resolutions.Keys + e.plan.supersedes + {e.plan.block})
  {
    assert IntentSound(s, i);
    var e := s.log.events[i];
    if e.RebaseIntent? {
      RebaseResolves(s.log, e);
    } else {
      AppendResolves(s.log, e, FinalizedVersion(s, i), s.Stored(e.Symbol()), binding);
    }
    hide Core, IntentSound, Resolves, LiftedBy;
  }

  lemma {:induction false} RebaseResolves(log: Log, e: Event)
    requires e.RebaseIntent? && Unresolved(log, e.plan.block) && log.events[e.plan.block].Symbol() == e.Symbol()
    requires forall c | c in e.plan.supersedes ::
      c < |log.events| && log.events[c].Blocked? && log.events[c].Symbol() == e.Symbol()
    ensures Resolves(log, RebaseApplied(log, e), e.Symbol())
    ensures RebaseApplied(log, e).resolutions.Keys == log.resolutions.Keys + e.plan.supersedes + {e.plan.block}
  {
  }

  lemma {:induction false} AppendResolves(log: Log, e: Event, ref: VersionRef, content: Rows, binding: Option<Binding>)
    requires ref == AppendVersion(log, e, content)
    ensures Resolves(log, AppendApplied(log, e, content, binding), e.Symbol())
  {
    if binding.Some? { LiftedHere(log, e, ref, binding.value); }
    hide LiftedBy;
  }

  lemma {:induction false} NothingOwned(s: System, i: nat)
    requires Core(s) && Open(s.log.events, i) && s.log.events[i].Intent?
    ensures forall t | t in s.log.events[i].Claimed() :: (s.log.events[i].Symbol(), t) !in s.log.owned
  {
    assert IntentSound(s, i) && Grown(s, s.log.events[i].Symbol());
  }

  lemma {:induction false} LiftedHere(log: Log, e: Event, ref: VersionRef, binding: Binding)
    ensures forall b | b in LiftedBy(log.events + [Applied(e.obs, ref)], log.resolutions, e.Symbol(), e.obs,
      binding.decision, binding.confirmed) ::
      Unresolved(log, b) && log.events[b].Symbol() == e.Symbol()
  {
    var es := log.events + [Applied(e.obs, ref)];
    forall b | b in LiftedBy(es, log.resolutions, e.Symbol(), e.obs, binding.decision, binding.confirmed)
      ensures Unresolved(log, b) && log.events[b].Symbol() == e.Symbol()
    {
      assert Liftable(es, log.resolutions, e.Symbol(), b, binding.decision, binding.confirmed);
      assert es[b].Blocked?;
    }
  }
}
