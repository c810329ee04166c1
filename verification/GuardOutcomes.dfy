/** What a whole admission and a whole reviewed rebase report, as functions of the state they find, and
    the facts about states of a run that the guard's methods rely on. */
module GuardOutcomes {
  import opened MarketTypes
  import opened LogModel
  import opened Admission
  import opened Protocol
  import opened Invariant
  import opened ComparisonMeaning
  import InvariantEvents
  import InvariantHolder
  import InvariantSteps
  import Finalization
  import ProtocolTheorems

  /** An ambiguous intent and a refused recovery are no outcomes: no run reaches them. */
  datatype AdmissionOutcome =
    | RejectedEmpty | IntegrityError | ReceiptReused | InvalidatedConcurrently | FailedApplication
    | Appended(sessions: set<Session>) | NothingNew
    | BlockedBatch(verdict: Verdict)

  datatype RebaseOutcome =
    | Rebased(sessions: set<Session>)
    | AlreadyRebased | RecoveredRebase | RefusedRebase(refusal: Refusal) | RebaseFailed

  // ------------------------------------------------------- what a call will report

  /** The observation is applied, or its own committed intent only waits for its finalization. */
  ghost predicate AppliedOnceSettled(s: System, o: ObsId) {
    IsApplied(s.log.events, o) || exists i :: i in s.committed && Open(s.log.events, i) && s.log.events[i].obs == o
  }

  /** The log only grew, and not by a block. */
  predicate NoNewBlock(es: seq<Event>, es': seq<Event>) {
    es <= es' && forall b | |es| <= b < |es'| :: !es'[b].Blocked?
  }

  /** The same observations are applied or will be once settled, on the same versions, with the same blocks. */
  ghost predicate SameStanding(s: System, s': System) {
    && s'.log.versions == s.log.versions && NoNewBlock(s.log.events, s'.log.events)
    && (forall o :: IsApplied(s'.log.events, o) <==> IsApplied(s.log.events, o))
    && forall o :: AppliedOnceSettled(s', o) <==> AppliedOnceSettled(s, o)
  }

  predicate IsSuperseded(es: seq<Event>, o: ObsId) {
    var k := Latest(es, o);
    k >= 0 && es[k].Superseded?
  }

  lemma {:induction false} StandingKept(s: System, f: System, g: System)
    requires SameStanding(f, g) && (s == f || SameStanding(s, f)) && g.market == s.market
    ensures SameStanding(s, g) && g.log.versions == s.log.versions && NoNewBlock(s.log.events, g.log.events)
    ensures forall o :: IsApplied(g.log.events, o) <==> IsApplied(s.log.events, o)
    ensures forall o, insertFails :: LockedOutcome(g, o, insertFails) == LockedOutcome(s, o, insertFails)
  {
    hide AppliedOnceSettled;
  }

  /** What the comparison with the stored rows leads to. */
  function Judged(stored: Rows, o: ObsId, insertFails: bool): AdmissionOutcome {
    var c := Classify(stored, o.Rows(), o.Start(), o.End());
    if !c.Admits() then BlockedBatch(c.verdict)
    else if c.newer == {} then NothingNew
    else if insertFails then FailedApplication
    else Appended(c.newer)
  }

  ghost function LockedOutcome(s: System, o: ObsId, insertFails: bool): AdmissionOutcome {
    var stored := s.Stored(o.Symbol());
    if !AppliedOnceSettled(s, o) then Judged(stored, o, insertFails)
    else if ReceiptMatches(o.Rows(), stored) then ReceiptReused
    else InvalidatedConcurrently
  }

  /** Is the identity free, or stored with the same exclusions? */
  predicate Persistable(log: Log, o: ObsId, excluded: seq<Session>) {
    o in log.observations ==> log.observations[o] == excluded
  }

  /** The outcome for content that is applied already, and the identity it was made under. */
  ghost function AgainOutcome(s: System, first: ObsId, excluded: seq<Session>, insertFails: bool)
      : (AdmissionOutcome, ObsId) {
    var again := Readmitted(first, Head(s.log.versions, first.Symbol()));
    if ReceiptMatches(first.Rows(), s.Stored(first.Symbol())) then (ReceiptReused, first)
    else if !Persistable(s.log, again, excluded) then (IntegrityError, again)
    else (LockedOutcome(s, again, insertFails), again)
  }

  /** The outcome of a whole admission from the state it found. */
  ghost function BatchOutcome(s: System, first: ObsId, excluded: seq<Session>, insertFails: bool)
      : (AdmissionOutcome, ObsId) {
    if first.Rows() == map[] && s.Stored(first.Symbol()) == map[] then (RejectedEmpty, first)
    else if !Persistable(s.log, first, excluded) then (IntegrityError, first)
    else if IsApplied(s.log.events, first) then AgainOutcome(s, first, excluded, insertFails)
    else (LockedOutcome(s, first, insertFails), first)
  }

  /** The log once the one open intent, if any, is settled. */
  ghost function SettledLog(log: Log, stored: Rows, intents: set<nat>): Log {
    if intents == {} then log
    else
      var i := AnyOf(intents);
      if i < |log.events| && log.events[i].IsIntent() then
        match Settle(log, i, stored)
        case Finalized(l) => l
        case Dropped(l) => l
        case _ => log
      else log
  }

  /** The outcome of a whole reviewed rebase, from the state it found. */
  ghost function ReviewedOutcome(s: System, b: nat, o: ObsId, exposed: bool, updateFails: bool): RebaseOutcome {
    var y := o.Symbol();
    var settled := SettledLog(s.log, s.Stored(y), OpenRebases(s.log.events, y));
    if LogModel.Rebased(s.log.rebases, b) then AlreadyRebased
    else if LogModel.Rebased(settled.rebases, b) then RecoveredRebase
    else
      match PlanRebase(settled, s.Base(y), s.Stored(y), o, b, exposed)
      case Err(refusal) => RefusedRebase(refusal)
      case Ok(plan) => if updateFails then RebaseFailed else RebaseOutcome.Rebased(plan.sessions)
  }

  ghost predicate AtMostOne(intents: set<nat>) { forall i, j | i in intents && j in intents :: i == j }

  lemma {:induction false} OneOpenIntent(ss: seq<System>, acts: seq<Action>, y: Symbol)
    requires Run(ss, acts)
    ensures AtMostOne(OpenIntents(ss[|acts|].log.events, y)) && AtMostOne(OpenRebases(ss[|acts|].log.events, y))
  {
    InvariantHolder.RunInv(ss, acts, |acts|);
  }

  /** Settling a queued intent finalizes it exactly when it is open and committed. */
  lemma {:induction false} SettledOne(ss: seq<System>, acts: seq<Action>, i: nat)
    requires Run(ss, acts)
    requires ss[|acts|].lock.HeldBy? && ss[|acts|].lock.pc.Settling? && i in ss[|acts|].lock.pc.queue
    ensures var s := ss[|acts|];
      i < |s.log.events| && s.log.events[i].IsIntent() && s.log.events[i].Symbol() == s.lock.pc.symbol
    ensures var s := ss[|acts|]; var r := Settle(s.log, i, s.Stored(s.lock.pc.symbol));
      && (r.Finalized? || r.Dropped?)
      && (Open(s.log.events, i) ==> (r.Finalized? <==> i in s.committed))
      && (!Open(s.log.events, i) ==> r == Finalized(s.log))
  {
    InvariantHolder.RunInv(ss, acts, |acts|);
    var s := ss[|acts|];
    if Open(s.log.events, i) { Finalization.SettleOpen(s, i); } else { Finalization.SettleLanded(s, i); }
  }

  /** Settling the open intent appends one event: its application if it was committed. */
  lemma {:induction false} SettledEvents(s: System, i: nat)
    requires Core(s) && Open(s.log.events, i)
    ensures var e, r := s.log.events[i], Settle(s.log, i, s.Stored(s.log.events[i].Symbol()));
      if i in s.committed
      then r.Finalized? && exists ref :: r.log.events == s.log.events + [Applied(e.obs, ref)]
                                         && r.log.rebases == if e.RebaseIntent?
                                                             then s.log.rebases + [RebaseRecord(e.plan.block, e.obs,
                                                               e.plan.sessions, ref)]
                                                             else s.log.rebases
      else r == Dropped(AppendEvent(s.log, Abandoned(e.obs)))
  {
    hide Core;
    var e := s.log.events[i];
    Finalization.SettleOpen(s, i);
    if i in s.committed {
      if e.RebaseIntent? {
        Finalization.FinalizeRebase(s, i);
        var ref := Finalization.RebaseVersion(s.log, e);
        assert Finalization.RebaseApplied(s.log, e).events == s.log.events + [Applied(e.obs, ref)];
      } else {
        Finalization.FinalizeAppend(s, i, s.Stored(e.Symbol()), None);
        var ref := Finalization.AppendVersion(s.log, e, s.Stored(e.Symbol()));
        assert Finalization.AppendApplied(s.log, e, s.Stored(e.Symbol()),
          None).events == s.log.events + [Applied(e.obs, ref)];
      }
    }
  }

  /** Settling the open intent records no block. */
  lemma {:induction false} SettledBlocks(s: System, y: Symbol, intents: set<nat>)
    requires Core(s) && intents <= OpenIntents(s.log.events, y)
    ensures NoNewBlock(s.log.events, SettledLog(s.log, s.Stored(y), intents).events)
  {
    hide Core, Settle;
    if intents != {} {
      var i := AnyOf(intents);
      assert i in OpenIntents(s.log.events, y);
      SettledEvents(s, i);
    }
  }

  /** Settling the open intent of a symbol applies exactly the committed one. */
  lemma {:induction false} SettledApplied(s: System, y: Symbol, o: ObsId)
    requires Core(s) && AtMostOne(OpenIntents(s.log.events, y)) && o.Symbol() == y
    ensures IsApplied(SettledLog(s.log, s.Stored(y), OpenIntents(s.log.events, y)).events, o) <==>
      AppliedOnceSettled(s, o)
  {
    hide Core, IsApplied, Settle;
    var es, intents := s.log.events, OpenIntents(s.log.events, y);
    assert forall j: nat | Open(es, j) && es[j].obs == o :: j in intents;
    if intents != {} {
      var i := AnyOf(intents);
      SettledEvents(s, i);
      var events := SettledLog(s.log, s.Stored(y), intents).events;
      InvariantEvents.OpenAppend(es, events[|es|]);
      assert events == es + [events[|es|]];
    }
  }

  /** A reviewed rebase finds its block rebased after settlement exactly when it was, or when its own
      committed intent only waited for the finalization. */
  lemma {:induction false} RecoveredExactly(s: System, y: Symbol, b: nat)
    requires Core(s) && AtMostOne(OpenRebases(s.log.events, y))
    ensures LogModel.Rebased(SettledLog(s.log, s.Stored(y), OpenRebases(s.log.events, y)).rebases, b) <==>
      || LogModel.Rebased(s.log.rebases, b)
      || exists i :: i in OpenRebases(s.log.events, y) && i in s.committed && s.log.events[i].plan.block == b
  {
    hide Core, Settle;
    var es, intents := s.log.events, OpenRebases(s.log.events, y);
    if intents != {} {
      var i := AnyOf(intents);
      SettledEvents(s, i);
      var settled := SettledLog(s.log, s.Stored(y), intents).rebases;
      assert settled == s.log.rebases || settled == s.log.rebases + [settled[|s.log.rebases|]];
      if LogModel.Rebased(s.log.rebases, b) {
        var k :| 0 <= k < |s.log.rebases| && s.log.rebases[k].block == b;
        assert settled[k].block == b;
      }
      if i in s.committed && es[i].plan.block == b { assert settled[|s.log.rebases|].block == b; }
    }
  }

  lemma {:induction false} RunExtend(ss: seq<System>, acts: seq<Action>, a: Action, s': System)
    requires Run(ss, acts) && Next(ss[|acts|], a, s')
    ensures Run(ss + [s'], acts + [a])
  {
    hide Next;
    var ss', acts' := ss + [s'], acts + [a];
    forall k | 0 <= k < |acts'|
      ensures Step(ss', acts', k)
    {
      if k < |acts| { assert Step(ss, acts, k); }
    }
  }

  /** Before the lock is taken: what the observation will be once the open intent is settled. */
  lemma {:induction false} AppliedAfterSettling(ss: seq<System>, acts: seq<Action>, o: ObsId)
    requires Run(ss, acts)
    ensures var s := ss[|acts|]; var y := o.Symbol();
      IsApplied(SettledLog(s.log, s.Stored(y), OpenIntents(s.log.events, y)).events, o) <==> AppliedOnceSettled(s, o)
  {
    OneOpenIntent(ss, acts, o.Symbol());
    InvariantHolder.RunInv(ss, acts, |acts|);
    SettledApplied(ss[|acts|], o.Symbol(), o);
  }

  lemma {:induction false} SettledWithoutBlock(ss: seq<System>, acts: seq<Action>, y: Symbol)
    requires Run(ss, acts)
    ensures var s := ss[|acts|];
      NoNewBlock(s.log.events, SettledLog(s.log, s.Stored(y), OpenIntents(s.log.events, y)).events)
  {
    hide Core, SettledLog, NoNewBlock, HolderSound;
    InvariantHolder.RunInv(ss, acts, |acts|);
    SettledBlocks(ss[|acts|], y, OpenIntents(ss[|acts|].log.events, y));
  }

  /** Persisting an observation settles nothing and reopens nothing. */
  lemma {:induction false} PersistStands(ss: seq<System>, acts: seq<Action>, s': System, o: ObsId,
      excluded: seq<Session>)
    requires Run(ss, acts)
    requires s'.log == match PersistObservation(ss[|acts|].log, o, excluded) case Ok(l) => l case Err(_) =>
      ss[|acts|].log
    requires s'.committed == ss[|acts|].committed
    ensures SameStanding(ss[|acts|], s')
  {
    InvariantHolder.RunInv(ss, acts, |acts|);
    var s := ss[|acts|];
    if o !in s.log.observations {
      InvariantEvents.OpenAppend(s.log.events, Observed(o));
      assert forall k | 0 <= k < |s.log.events| :: s.log.events[k].obs != o;
    }
  }

  /** A symbol without open intents passes lineage verification. */
  lemma {:induction false} VerifiedUnderLock(ss: seq<System>, acts: seq<Action>, o: ObsId)
    requires Run(ss, acts) && ss[|acts|].lock == HeldBy(Verifying(o))
    ensures var s := ss[|acts|]; Verified(s.log, s.Base(o.Symbol()), o.Symbol(), s.Stored(o.Symbol()))
  {
    InvariantHolder.RunInv(ss, acts, |acts|);
    var s := ss[|acts|];
    assert OpenIntents(s.log.events, o.Symbol()) == {};
    ProtocolTheorems.ReplayRefinement(ss, acts, |acts|, o.Symbol());
  }

  /** In a run the log and the rows alone decide whether a reviewed rebase is planned: lineage verification
      never stands in its way. */
  lemma {:induction false} PlannedInRun(ss: seq<System>, acts: seq<Action>, o: ObsId, b: nat, exposed: bool)
    requires Run(ss, acts)
    ensures var s := ss[|acts|]; var y := o.Symbol();
      && (PlanRebase(s.log, s.Base(y), s.Stored(y), o, b, exposed).Ok? <==>
            Plannable(s.log, s.Stored(y), o, b, exposed))
      && (PlanRebase(s.log, s.Base(y), s.Stored(y), o, b, exposed).Ok? ==> !exposed)
      && PlanRebase(s.log, s.Base(y), s.Stored(y), o, b, exposed) != Err(BasisDrift)
  {
    hide PlanRebase, Inv, Verified;
    var s, y := ss[|acts|], o.Symbol();
    PlanExactly(s.log, s.Base(y), s.Stored(y), o, b, exposed);
    NobodyOpen(s.log.events, y);
    ProtocolTheorems.ReplayRefinement(ss, acts, |acts|, y);
    if PlanRebase(s.log, s.Base(y), s.Stored(y), o, b, exposed) == Err(BasisDrift) {
      DriftComesLater(s.log, s.Base(y), s.Stored(y), o, b, exposed);
    }
  }

  /** An open application is refused before the lineage is looked at, a drift only after. */
  lemma {:induction false} DriftComesLater(log: Log, base: Rows, stored: Rows, o: ObsId, b: nat, exposed: bool)
    requires PlanRebase(log, base, stored, o, b, exposed) == Err(BasisDrift)
    ensures OpenIntents(log.events, o.Symbol()) == {} && !Verified(log, base, o.Symbol(), stored)
  {
    hide Verified, OpenIntents, Classify;
  }

  /** The update of a reviewed rebase produces the planned rows. */
  lemma {:induction false} UpdateIsPlanned(ss: seq<System>, acts: seq<Action>, o: ObsId, intent: nat, plan: Plan)
    requires Run(ss, acts) && ss[|acts|].lock == HeldBy(RebaseIntended(intent))
    requires intent < |ss[|acts|].log.events| && ss[|acts|].log.events[intent] == RebaseIntent(o, plan)
    ensures Overlay(ss[|acts|].Stored(o.Symbol()), o.Rows(), plan.sessions) == plan.post
  {
    hide Next, Step;
    ProtocolTheorems.HolderNeverRefused(ss, acts, |acts|);
  }

  lemma {:induction false} ResolvedAreRecorded(ss: seq<System>, acts: seq<Action>)
    requires Run(ss, acts)
    ensures forall b | b in ss[|acts|].log.resolutions :: b < |ss[|acts|].log.events|
  {
    InvariantHolder.RunInv(ss, acts, |acts|);
  }

  lemma {:induction false} NothingNewSucceeds(ss: seq<System>, acts: seq<Action>, o: ObsId, binding: Binding)
    requires Run(ss, acts) && ss[|acts|].lock == HeldBy(Decided(o, binding, {}))
    ensures var s := ss[|acts|];
      && LogModel.RecordApplication(s.log, o, {}, s.Stored(o.Symbol()), Some(binding)).Ok?
      && var log' := LogModel.RecordApplication(s.log, o, {}, s.Stored(o.Symbol()), Some(binding)).value;
      log'.versions == s.log.versions && IsApplied(log'.events, o)
  {
    InvariantHolder.RunInv(ss, acts, |acts|);
    var s := ss[|acts|];
    Finalization.EmptyApplication(s.log, o, s.Stored(o.Symbol()), binding);
    assert Finalization.EmptyApplied(s.log, o, binding).events[|s.log.events|] == Applied(o, binding.bound);
  }

  lemma {:induction false} DecidedIsFresh(ss: seq<System>, acts: seq<Action>, o: ObsId, binding: Binding,
      newer: set<Session>)
    requires Run(ss, acts) && ss[|acts|].lock == HeldBy(Decided(o, binding, newer))
    ensures !IsApplied(ss[|acts|].log.events, o)
  {
    InvariantHolder.RunInv(ss, acts, |acts|);
  }

  lemma {:induction false} RebaseSucceeds(ss: seq<System>, acts: seq<Action>, i: nat)
    requires Run(ss, acts) && RebaseFinisher(i) in ss[|acts|].finishers
    requires i < |ss[|acts|].log.events| && ss[|acts|].log.events[i].RebaseIntent?
    ensures var s := ss[|acts|]; var r := LogModel.RecordRebase(s.log, i);
      r.Ok? && LogModel.Rebased(r.value.rebases, s.log.events[i].plan.block)
  {
    InvariantHolder.RunInv(ss, acts, |acts|);
    var s := ss[|acts|];
    InvariantSteps.FinisherSucceeds(s, RebaseFinisher(i));
    var log' := Finalization.RebaseApplied(s.log, s.log.events[i]);
    assert log'.rebases[|s.log.rebases|].block == s.log.events[i].plan.block;
  }

  /** Right after its commit an append finds its finalization accepted. */
  lemma {:induction false} AppendSucceeds(ss: seq<System>, acts: seq<Action>, o: ObsId, i: nat, binding: Binding,
      content: Rows)
    requires Run(ss, acts) && AppendFinisher(o, i, binding, content) in ss[|acts|].finishers
    requires i < |ss[|acts|].log.events| && ss[|acts|].log.events[i] == Intent(o, ss[|acts|].log.events[i].Claimed())
    requires !IsApplied(ss[|acts|].log.events, o)
    ensures var s := ss[|acts|];
      var r := LogModel.RecordApplication(s.log, o, s.log.events[i].Claimed(), content, Some(binding));
      && r.Ok? && IsApplied(r.value.events, o)
      && Head(r.value.versions, o.Symbol()) ==
           Version(Head(s.log.versions, o.Symbol()), o, s.log.events[i].Claimed(), content, Append)
  {
    hide HolderSound, LogInv, Quiet, Lineages, AllGrown, RevisionsSound, LiftedBy, Next;
    InvariantHolder.RunInv(ss, acts, |acts|);
    var s := ss[|acts|];
    InvariantSteps.FinisherSucceeds(s, AppendFinisher(o, i, binding, content));
    var log' := Finalization.AppendApplied(s.log, s.log.events[i], content, Some(binding));
    assert log'.events[|s.log.events|].Applied? && log'.events[|s.log.events|].obs == o;
  }

  /** What an accepted plan does to the stored rows. */
  lemma {:induction false} PlannedRows(s: System, o: ObsId, b: nat, exposed: bool)
    requires PlanRebase(s.log, s.Base(o.Symbol()), s.Stored(o.Symbol()), o, b, exposed).Ok?
    ensures var plan := PlanRebase(s.log, s.Base(o.Symbol()), s.Stored(o.Symbol()), o, b, exposed).value;
      var before := s.Stored(o.Symbol());
      && plan.block == b && plan.sessions != {} && plan.sessions <= o.Rows().Keys && plan.sessions <= before.Keys
      && plan.post.Keys == before.Keys
      && (forall t | t in plan.post :: t in o.Rows() && plan.post[t] == o.Rows()[t])
      && (forall t | t in plan.post :: t in plan.sessions <==> plan.post[t] != before[t])
  {
    var y := o.Symbol();
    InvariantHolder.PlanFacts(s, y, o, b, exposed);
    InvariantHolder.PureRevision(s.Stored(y), o.Rows(), o.Start(), o.End());
    var plan := PlanRebase(s.log, s.Base(y), s.Stored(y), o, b, exposed).value;
    assert plan.post == Overlay(s.Stored(y), o.Rows(), plan.sessions);
    assert plan.post.Keys == s.Stored(y).Keys;
  }

  /** An admitted candidate is stored in full once its newer sessions are. */
  lemma {:induction false} AdmittedIsStored(stored: Rows, o: ObsId)
    requires o.Valid() && Classify(stored, o.Rows(), o.Start(), o.End()).Admits()
    ensures var newer := Classify(stored, o.Rows(), o.Start(), o.End()).newer;
      newer == o.Rows().Keys - stored.Keys && ReceiptMatches(o.Rows(), Overlay(stored, o.Rows(), newer))
  {
    var rows, c := o.Rows(), Classify(stored, o.Rows(), o.Start(), o.End());
    forall t | t in rows
      ensures t in c.newer <==> t !in stored
      ensures t in stored ==> stored[t] == rows[t]
    {
      if t in stored {
        assert t in InWindow(stored, o.Start(), o.End());
        assert t !in c.changed;
      } else {
        assert t !in c.unstored;
      }
    }
  }
}
