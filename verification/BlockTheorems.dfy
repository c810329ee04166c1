/** Blocks are lifted soundly: once, for the recorded reason, and never under an open rebase. */
module BlockTheorems {
  import opened MarketTypes
  import opened LogModel
  import opened Lifting
  import opened Admission
  import opened ComparisonMeaning
  import opened Protocol
  import opened Invariant
  import opened Finalization
  import opened InvariantHolder
  import opened Effects

  /** What a resolution written by the step from `s` to `s'` guarantees about block `b`. */
  ghost predicate Justified(s: System, s': System, a: Action, b: nat)
    requires b < |s.log.events| && s.log.events[b].Blocked? && b in s'.log.resolutions
  {
    var es, y, block := s.log.events, s.log.events[b].Symbol(), s.log.events[b].block;
    match s'.log.resolutions[b]
    case Reviewed => a == Review(b) && !OwnedByRebase(es, b)
    case Accepted(o, d) =>
      && b < d < |es| && es[d].Admitted? && es[d].obs == o && o.Symbol() == y
      && block.auto && block.affected != {}
      && (forall t | t in block.affected :: t in o.Rows() && t in s'.Stored(y) && s'.Stored(y)[t] == o.Rows()[t])
      && (forall j | d < j < |es| && es[j].Blocked? :: es[j].Symbol() != y)
    case RebasedByReview(o) =>
      exists i :: Open(es, i) && es[i].RebaseIntent? && i in s.committed && es[i].obs == o && es[i].plan.block == b
    case SupersededByRebase(o, reviewed) =>
      exists i :: Open(es, i) && es[i].RebaseIntent? && i in s.committed && es[i].obs == o
                  && es[i].plan.block == reviewed && b in es[i].plan.supersedes && b < reviewed
  }

  ghost predicate Kept(s: System, s': System) {
    forall b | b in s.log.resolutions :: b in s'.log.resolutions && s'.log.resolutions[b] == s.log.resolutions[b]
  }

  lemma {:induction false} LiftedAccepted(s: System, s': System, o: ObsId, binding: Binding, e: Event, b: nat)
    requires DecisionSound(s, o, binding) && e.Applied? && e.obs == o
    requires b in LiftedBy(s.log.events + [e], s.log.resolutions, o.Symbol(), o, binding.decision, binding.confirmed)
    requires forall t | t in binding.confirmed :: t in s'.Stored(o.Symbol()) && s'.Stored(o.Symbol())[t] == o.Rows()[t]
    requires b in s'.log.resolutions && s'.log.resolutions[b] == Accepted(o, binding.decision)
    ensures b < |s.log.events| && s.log.events[b].Blocked?
    ensures forall a :: Justified(s, s', a, b)
  {
    assert Liftable(s.log.events + [e], s.log.resolutions, o.Symbol(), b, binding.decision, binding.confirmed);
    assert (s.log.events + [e])[b] == s.log.events[b];
  }

  /** Confirmed values are still the stored values when a finalization writes the resolution. */
  lemma {:induction false} ConfirmedStored(s: System, o: ObsId, binding: Binding)
    requires Core(s) && DecisionSound(s, o, binding)
    ensures forall t | t in binding.confirmed :: t in s.Stored(o.Symbol())
    ensures (forall i | Open(s.log.events, i) && s.log.events[i].Symbol() == o.Symbol() :: s.log.events[i].obs == o) ==>
      forall t | t in binding.confirmed :: s.Stored(o.Symbol())[t] == o.Rows()[t]
  {
    var y := o.Symbol();
    if s.Stored(y) != s.Content(y) {
      assert LandedOn(s, y);
      var i :| i in s.committed && Open(s.log.events, i) && s.log.events[i].Symbol() == y;
      assert IntentSound(s, i);
    }
  }

  lemma {:induction false} RebaseResolves(log: Log, e: Event, b: nat)
    requires e.RebaseIntent? && b in RebaseApplied(log, e).resolutions && b !in log.resolutions
    ensures b == e.plan.block || b in e.plan.supersedes
    ensures RebaseApplied(log, e).resolutions[b] ==
      if b == e.plan.block then RebasedByReview(e.obs) else SupersededByRebase(e.obs, e.plan.block)
  {
  }

  lemma {:induction false} PlannedBlocks(s: System, i: nat)
    requires Core(s) && Open(s.log.events, i) && s.log.events[i].RebaseIntent?
    ensures var es, plan := s.log.events, s.log.events[i].plan;
      plan.block < |es| && es[plan.block].Blocked?
        && forall c | c in plan.supersedes :: c < plan.block && es[c].Blocked?
  {
    assert IntentSound(s, i);
  }

  lemma {:induction false} JustifiedRebase(s: System, s': System, a: Action, i: nat, b: nat)
    requires Core(s) && Has(s, s', Lands(i, None)) && s.log.events[i].RebaseIntent?
    requires b in s'.log.resolutions && b !in s.log.resolutions
    ensures b < |s.log.events| && s.log.events[b].Blocked? && Justified(s, s', a, b)
  {
    hide Core, RebaseApplied, AppendApplied;
    RebaseResolves(s.log, s.log.events[i], b);
    PlannedBlocks(s, i);
  }

  lemma {:induction false} JustifiedAppend(s: System, s': System, a: Action, i: nat, binding: Option<Binding>, b: nat)
    requires Core(s) && Has(s, s', Lands(i, binding)) && s.log.events[i].Intent?
    requires b in s'.log.resolutions && b !in s.log.resolutions
    ensures b < |s.log.events| && s.log.events[b].Blocked? && Justified(s, s', a, b)
  {
    hide LogInv, Quiet, Lineages, AllGrown, RevisionsSound, CommittedIntents, Overlay;
    var e := s.log.events[i];
    assert binding.Some?;
    ConfirmedStored(s, e.obs, binding.value);
    assert s'.Stored(e.Symbol()) == s.Stored(e.Symbol());
    LiftedAccepted(s, s', e.obs, binding.value, Applied(e.obs, FinalizedVersion(s, i)), b);
  }

  lemma {:induction false} JustifiedConfirm(s: System, s': System, a: Action, o: ObsId, binding: Binding, b: nat)
    requires Core(s) && Has(s, s', Confirms(o, binding))
    requires b in s'.log.resolutions && b !in s.log.resolutions
    ensures b < |s.log.events| && s.log.events[b].Blocked? && Justified(s, s', a, b)
  {
    hide LogInv, OpenSound, Quiet, Lineages, AllGrown, RevisionsSound, CommittedIntents;
    ConfirmedStored(s, o, binding);
    assert s'.Stored(o.Symbol()) == s.Stored(o.Symbol());
    LiftedAccepted(s, s', o, binding, Applied(o, binding.bound), b);
  }

  lemma {:induction false} JustifiedEffect(s: System, s': System, a: Action, effect: Effect, b: nat)
    requires Core(s) && Has(s, s', effect) && Explains(s, a, effect)
    requires b in s'.log.resolutions && b !in s.log.resolutions
    ensures b < |s.log.events| && s.log.events[b].Blocked? && Justified(s, s', a, b)
  {
    hide LogInv, OpenSound, Quiet, Lineages, AllGrown, RevisionsSound, CommittedIntents;
    match effect
    case Silent =>
    case Writes(_) =>
    case CommitsMarket(_) =>
    case Reviews(x) =>
    case Lands(i, binding) =>
      if s.log.events[i].RebaseIntent? {
        JustifiedRebase(s, s', a, i, b);
      } else {
        JustifiedAppend(s, s', a, i, binding, b);
      }
    case Confirms(o, binding) => JustifiedConfirm(s, s', a, o, binding, b);
  }

  lemma {:induction false} KeptEffect(s: System, s': System, effect: Effect)
    requires Core(s) && Has(s, s', effect)
    ensures Kept(s, s')
  {
    hide LogInv, Quiet, Lineages, AllGrown, RevisionsSound, CommittedIntents;
    match effect
    case Lands(i, binding) =>
      var e := s.log.events[i];
      if e.RebaseIntent? {
        assert IntentSound(s, i);
      } else if binding.Some? {
        LiftedAreFree(s.log.events, Applied(e.obs, FinalizedVersion(s, i)), s.log.resolutions,
                      e.Symbol(), e.obs, binding.value.decision, binding.value.confirmed);
      }
    case Confirms(o, binding) =>
      LiftedAreFree(s.log.events, Applied(o, binding.bound), s.log.resolutions, o.Symbol(), o, binding.decision,
        binding.confirmed);
    case _ =>
  }

  /** Every resolution a run writes is justified when it is written. An automatic one needs a later
      accepting decision of the same symbol whose offered values equal the stored values on every
      affected session, still at the moment the resolution is written, with no block recorded since. */
  lemma {:induction false} ResolutionsJustified(ss: seq<System>, acts: seq<Action>, k: nat, b: nat)
    requires Run(ss, acts) && k < |acts|
    requires b in ss[k + 1].log.resolutions && b !in ss[k].log.resolutions
    ensures b < |ss[k].log.events| && ss[k].log.events[b].Blocked? && Justified(ss[k], ss[k + 1], acts[k], b)
  {
    var effect := RunEffect(ss, acts, k);
    JustifiedEffect(ss[k], ss[k + 1], acts[k], effect, b);
  }

  /** Automatic lifting is complete as well: the finalization of a decision made with its binding resolves
      exactly the blocks the decision answers and no open rebase claims. */
  lemma {:induction false} LiftingComplete(ss: seq<System>, acts: seq<Action>, k: nat, o: ObsId, binding: Binding)
    requires Run(ss, acts) && k < |acts|
    requires (acts[k].NoOp? && ss[k].lock == HeldBy(Decided(o, binding, {})))
      || (acts[k].Finish? && acts[k].finisher.AppendFinisher? && acts[k].finisher.obs == o
          && acts[k].finisher.binding == binding && !IsApplied(ss[k].log.events, o))
    ensures LiftsExactly(ss[k].log, ss[k + 1].log, o, binding.decision, binding.confirmed)
  {
    hide LiftsExactly, Core, RecordApplication;
    RunInv(ss, acts, k);
    assert Step(ss, acts, k);
    var s := ss[k];
    if acts[k].NoOp? {
      ApplicationLifts(s.log, o, {}, s.Stored(o.Symbol()), binding);
    } else {
      var f := acts[k].finisher;
      ApplicationLifts(s.log, o, s.log.events[f.intent].Claimed(), f.content, binding);
    }
  }

  /** A block is resolved at most once: its resolution never changes afterwards. */
  lemma {:induction false} ResolvedOnce(ss: seq<System>, acts: seq<Action>, j: nat, k: nat, b: nat)
    requires Run(ss, acts) && j <= k < |ss| && b in ss[j].log.resolutions
    ensures b in ss[k].log.resolutions && ss[k].log.resolutions[b] == ss[j].log.resolutions[b]
  {
    hide Core, Has;
    if j < k {
      ResolvedOnce(ss, acts, j, k - 1, b);
      var effect := RunEffect(ss, acts, k - 1);
      KeptEffect(ss[k - 1], ss[k], effect);
    }
  }

  /** A block claimed by an open rebase stays unresolved, and a review of it is refused: only the
      claiming rebase can resolve it, so a committed rebase is never stranded. */
  lemma {:induction false} ClaimedBlockIsHeld(ss: seq<System>, acts: seq<Action>, k: nat, i: nat)
    requires Run(ss, acts) && k < |ss|
    requires Open(ss[k].log.events, i) && ss[k].log.events[i].RebaseIntent?
    ensures var log := ss[k].log; var b := log.events[i].plan.block;
      && Unresolved(log, b)
      && ResolveBlock(log, b) == Err(BlockOwnedByPendingRebase)
      && RecordRebase(log, i).Ok?
      && b in RecordRebase(log, i).value.resolutions
      && RecordRebase(log, i).value.resolutions[b] == RebasedByReview(log.events[i].obs)
  {
    RunInv(ss, acts, k);
    var s := ss[k];
    assert IntentSound(s, i);
    FinalizeRebase(s, i);
    assert OwnedByRebase(s.log.events, s.log.events[i].plan.block);
  }

  // ------------------------------------------------------------- what a block records

  lemma {:induction false} BlockWritten(s: System, s': System)
    requires Inv(s) && Next(s, BlockDecision, s') && !s.lock.pc.again
    ensures var o, block := s.lock.pc.obs, s.lock.pc.block;
      s'.log.events == s.log.events + [Blocked(o, block)] && BlockTold(s.Stored(o.Symbol()), o, block)
  {
    hide BlockTold, Classify, Core;
    var o := s.lock.pc.obs;
    StoredIsContent(s, o.Symbol());
    BlockExactly(s.Stored(o.Symbol()), o);
  }

  lemma {:induction false} StoredIsContent(s: System, y: Symbol)
    requires Core(s) && NoOpen(s.log.events, y)
    ensures s.Stored(y) == s.Content(y)
  {
    hide LogInv, OpenSound, Lineages, AllGrown, RevisionsSound, CommittedIntents;
    QuietSymbol(s, y);
  }

  /** The event a step appends, if it is a block. */
  lemma {:induction false} BlockAppended(s: System, a: Action, s': System, effect: Effect)
    requires Has(s, s', effect) && Explains(s, a, effect)
    ensures s.log.events <= s'.log.events
    ensures |s.log.events| < |s'.log.events| && s'.log.events[|s.log.events|].Blocked? ==>
      a.BlockDecision? && s'.log.events == s.log.events + [s'.log.events[|s.log.events|]]
    ensures |s'.log.events| <= |s.log.events| + 1
  {
    hide DecisionSound, Harmless, HolderSound;
    if effect.Lands? { FinalizedTables(s, effect.intent, effect.bound); }
  }

  /** Every block of a run tells exactly how the offered rows disagreed with the rows stored when it was
      recorded: no block is recorded for less, and none with other sessions. */
  lemma {:induction false} BlocksTold(ss: seq<System>, acts: seq<Action>, k: nat, b: nat) returns (j: nat)
    requires Run(ss, acts) && k < |ss| && b < |ss[k].log.events| && ss[k].log.events[b].Blocked?
    ensures j < k && |ss[j].log.events| == b && acts[j].BlockDecision?
    ensures var e := ss[k].log.events[b]; BlockTold(ss[j].Stored(e.obs.Symbol()), e.obs, e.block)
  {
    hide BlockTold, Has, Explains, Inv;
    if k == 0 {
      assert false;
    } else {
      var effect := RunEffect(ss, acts, k - 1);
      BlockAppended(ss[k - 1], acts[k - 1], ss[k], effect);
      if b < |ss[k - 1].log.events| {
        j := BlocksTold(ss, acts, k - 1, b);
      } else {
        j := k - 1;
        assert Step(ss, acts, j);
        NewBlockWritten(ss[j], ss[k]);
      }
    }
  }

  lemma {:induction false} NewBlockWritten(s: System, s': System)
    requires Inv(s) && Next(s, BlockDecision, s') && |s'.log.events| > |s.log.events|
    requires s'.log.events[|s.log.events|].Blocked?
    ensures var e := s'.log.events[|s.log.events|]; BlockTold(s.Stored(e.obs.Symbol()), e.obs, e.block)
  {
    hide BlockTold, Inv;
    if !s.lock.pc.again { BlockWritten(s, s'); }
  }
}
