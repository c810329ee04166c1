/** `admit_price_batch` and `rebase_symbol` as the sequential programs one process runs: every
    statement that touches a file is one action of the protocol, so whatever such a program finds,
    after any earlier crashes, and whatever it leaves is a state of a run. */
module MarketGuard {
  import opened MarketTypes
  import opened LogModel
  import opened Admission
  import opened Protocol
  import opened GuardOutcomes
  import opened ComparisonMeaning
  import opened TransactionMeaning
  import ObservationLog

  class Guard {
    const log: ObservationLog.Store
    const baseline: map<Symbol, Rows>
    var market: map<Symbol, Rows>
    ghost var lock: Lock
    ghost var finishers: set<Finisher>
    ghost var committed: set<nat>
    ghost var states: seq<System>
    ghost var acts: seq<Action>

    ghost function View(): System
      reads this, log
    {
      System(baseline, market, log.Value(), lock, finishers, committed)
    }

    /** The recorded history is a run of the protocol that ends in the present state. */
    ghost predicate Valid()
      reads this, log
    {
      Run(states, acts) && states[|acts|] == View()
    }

    ghost predicate Holding(pc: Held)
      reads this, log
    {
      Valid() && lock == HeldBy(pc)
    }

    function Stored(y: Symbol): Rows
      reads this
    {
      if y in market then market[y] else map[]
    }

    constructor (found: map<Symbol, Rows>)
      ensures Valid() && lock == Free && market == found && fresh(log)
    {
      log := new ObservationLog.Store();
      baseline, market := found, found;
      lock, finishers, committed := Free, {}, {};
      new;
      states, acts := [View()], [];
    }

    ghost method Record(a: Action)
      requires Run(states, acts) && Next(states[|acts|], a, View())
      modifies this`states, this`acts
      ensures Valid() && states == old(states) + [View()] && acts == old(acts) + [a]
    {
      RunExtend(states, acts, a, View());
      states, acts := states + [View()], acts + [a];
    }

    // ------------------------------------------------------------ before the lock

    method Persist(o: ObsId, excluded: seq<Session>) returns (ok: bool)
      requires Valid() && o.Valid() && (o.Rows() != map[] || Stored(o.Symbol()) != map[])
      requires o.Readmitted? ==> o.original in log.observations
      modifies this, log
      ensures Valid() && lock == old(lock) && market == old(market)
      ensures ok <==> old(Persistable(log.Value(), o, excluded))
      ensures ok ==> PersistObservation(old(log.Value()), o, excluded) == Ok(log.Value())
      ensures !ok ==> log.Value() == old(log.Value())
      ensures ok ==> o in log.observations && log.observations[o] == excluded && forall x | x != o ::
        (x in log.observations <==> x in old(log.observations))
          && (x in log.observations ==> log.observations[x] == old(log.observations)[x])
      ensures SameStanding(old(View()), View())
    {
      var out := log.PersistObservation(o, excluded);
      ok := out == ObservationLog.Done;
      ghost var before := states[|acts|];
      PersistStands(states, acts, View(), o, excluded);
      if ok { Record(Action.Persist(o, excluded)); }
    }

    method Receipt(o: ObsId)
      requires Valid() && o in log.observations
      modifies this, log
      ensures Valid() && lock == old(lock) && market == old(market)
      ensures log.Value() == AppendEvent(old(log.Value()), Note(o)) && log.observations == old(log.observations)
      ensures SameStanding(old(View()), View())
    {
      InvariantEvents.OpenAppend(log.events, Note(o));
      var id := log.AppendEvent(Note(o));
      Record(Action.Receipt(o));
    }

    // ------------------------------------------------------------- under the lock

    method Release(ghost pc: Held)
      requires Holding(pc) && pc == Releasing
      modifies this
      ensures Valid() && lock == Free && market == old(market)
    {
      lock := Free;
      Record(Action.Release);
    }

    /** Settle one open intent: its application is recorded if the market holds its rows, and it is
        abandoned if the market holds none of them. In a run the market never holds anything else. */
    method SettleIntent(ghost purpose: Purpose, y: Symbol, ghost queue: set<nat>, i: nat) returns (finalized: bool)
      requires Holding(Settling(purpose, y, queue)) && i in queue && i < |log.events| && log.events[i].IsIntent()
      modifies this, log
      ensures Holding(Settling(purpose, y, queue - {i})) && market == old(market) && committed == old(committed)
      ensures old(Settle(log.Value(), i, Stored(y))) ==
        if finalized then Finalized(log.Value()) else Dropped(log.Value())
    {
      hide Run, Next;
      SettledOne(states, acts, i);
      var e, stored := log.events[i], Stored(y);
      if e.RebaseIntent? {
        finalized := ReconcileRebaseIntent(stored, i);
      } else {
        var rows, sessions := e.obs.Rows(), e.Claimed();
        finalized := sessions != {} && forall t | t in sessions :: t in rows && t in stored && stored[t] == rows[t];
        if finalized {
          var out := log.RecordApplication(e.obs, sessions, stored, None);
        } else if forall t | t in sessions :: t !in stored {
          var id := log.AppendEvent(Abandoned(e.obs));
        } else {
          assert false;
        }
      }
      LeaveQueue(old(View()), purpose, y, queue, i, finalized);
    }

    /** `reconcile_rebase_intent`. */
    method ReconcileRebaseIntent(stored: Rows, i: nat) returns (finalized: bool)
      requires i < |log.events| && log.events[i].RebaseIntent?
      requires var r := Settle(log.Value(), i, stored); r.Finalized? || r.Dropped?
      modifies log
      ensures old(Settle(log.Value(), i, stored)) == if finalized then Finalized(log.Value()) else Dropped(log.Value())
    {
      var plan, o := log.events[i].plan, log.events[i].obs;
      finalized := stored == plan.post;
      if finalized {
        var out := log.RecordRebase(i);
      } else if plan.sessions <= stored.Keys && stored == plan.pre {
        var id := log.AppendEvent(Abandoned(o));
      } else {
        assert false;
      }
    }

    /** The settled intent leaves the queue. */
    ghost method LeaveQueue(before: System, purpose: Purpose, y: Symbol, queue: set<nat>, i: nat, finalized: bool)
      requires Run(states, acts) && states[|acts|] == before && before.lock == HeldBy(Settling(purpose, y, queue))
      requires i in queue && i < |before.log.events| && before.log.events[i].IsIntent()
      requires View() == before.(log := log.Value())
      requires Settle(before.log, i, before.Stored(y)) ==
        if finalized then Finalized(log.Value()) else Dropped(log.Value())
      modifies this`lock, this`states, this`acts
      ensures Holding(Settling(purpose, y, queue - {i}))
    {
      hide Run, Settle;
      lock := HeldBy(Settling(purpose, y, queue - {i}));
      Record(SettleOne(i));
    }

    /** `reconcile_open_intents`: settle what was open when the lock was taken, at most one intent. */
    method ReconcileOpenIntents(ghost purpose: Purpose, y: Symbol, intents: set<nat>)
      requires Holding(Settling(purpose, y, intents)) && AtMostOne(intents)
      modifies this, log
      ensures Holding(Settling(purpose, y, {})) && market == old(market) && committed == old(committed)
      ensures log.Value() == old(SettledLog(log.Value(), Stored(y), intents))
    {
      var queue := intents;
      while queue != {}
        invariant Holding(Settling(purpose, y, queue)) && market == old(market) && committed == old(committed)
        invariant if queue != {} then queue == intents && log.Value() == old(log.Value())
                  else log.Value() == old(SettledLog(log.Value(), Stored(y), intents))
        decreases |queue|
      {
        ghost var x := PickOne(queue);
        var i :| i in queue;
        SettledOne(states, acts, i);
        assert AnyOf(intents) == i && queue - {i} == {};
        var finalized := SettleIntent(purpose, y, queue, i);
        queue := queue - {i};
      }
    }

    /** `_supersede_stale_pending`: exactly the pending observations end superseded. */
    method SupersedeStalePending(o: ObsId, pending: set<ObsId>)
      requires Holding(Superseding(o, pending))
      modifies this, log
      ensures Holding(Verifying(o)) && market == old(market) && log.versions == old(log.versions)
      ensures NoNewBlock(old(log.events), log.events)
      ensures forall x | x in pending :: IsSuperseded(log.events, x)
      ensures forall x | x !in pending :: Latest(log.events, x) == old(Latest(log.events, x))
    {
      hide IsSuperseded, Run;
      var stale := pending;
      while stale != {}
        invariant stale <= pending && Holding(Superseding(o, stale)) && market == old(market)
          && log.versions == old(log.versions) && NoNewBlock(old(log.events), log.events)
        invariant forall x | x in pending - stale :: IsSuperseded(log.events, x)
        invariant forall x | x !in pending :: Latest(log.events, x) == old(Latest(log.events, x))
        decreases |stale|
      {
        ghost var p := PickOne(stale);
        var x :| x in stale;
        SupersedeOne(o, stale, x);
        stale := stale - {x};
      }
      lock := HeldBy(Verifying(o));
      Record(SupersedeDone);
    }

    method SupersedeOne(o: ObsId, ghost stale: set<ObsId>, x: ObsId)
      requires Holding(Superseding(o, stale)) && x in stale
      modifies this, log
      ensures Holding(Superseding(o, stale - {x})) && market == old(market) && log.versions == old(log.versions)
      ensures NoNewBlock(old(log.events), log.events)
      ensures IsSuperseded(log.events, x)
      ensures forall z | z != x ::
        Latest(log.events, z) == old(Latest(log.events, z))
        && (IsSuperseded(old(log.events), z) ==> IsSuperseded(log.events, z))
    {
      LatestAppend(log.events, Superseded(x));
      var id := log.AppendEvent(Superseded(x));
      lock := HeldBy(Superseding(o, stale - {x}));
      Record(Action.SupersedeOne(x));
    }

    /** Is an equal block of this observation still unresolved? */
    method MatchingBlock(o: ObsId, v: Verdict) returns (found: bool, ghost b: nat)
      ensures found <==> AlreadyBlocked(log.Value(), o, v)
      ensures found ==>
        b < |log.events| && Unresolved(log.Value(), b) && log.events[b].obs == o && log.events[b].block.verdict == v
    {
      found, b := false, 0;
      for c := 0 to |log.events|
        invariant !found
        invariant forall d | 0 <= d < c ::
          !(Unresolved(log.Value(), d) && log.events[d].obs == o && log.events[d].block.verdict == v)
      {
        if log.events[c].Blocked? && c !in log.resolutions && log.events[c].obs == o
          && log.events[c].block.verdict == v {
          assert Unresolved(log.Value(), c);
          return true, c;
        }
      }
    }

    /** The search of `_record_block`: nothing is written. */
    method FindBlock(ghost a: Action, o: ObsId, block: Block) returns (again: bool, ghost found: nat)
      requires Valid() && forall s' :: s' == Protocol.FindBlock(View(), o, block) ==> Next(View(), a, s')
      modifies this
      ensures Holding(Blocking(o, block, again)) && market == old(market)
      ensures again <==> AlreadyBlocked(log.Value(), o, block.verdict)
      ensures again ==> found < |log.events| && Unresolved(log.Value(), found)
                         && log.events[found].obs == o && log.events[found].block.verdict == block.verdict
    {
      ghost var before := View();
      again, found := MatchingBlock(o, block.verdict);
      lock := HeldBy(Blocking(o, block, again));
      assert View() == Protocol.FindBlock(before, o, block);
      Record(a);
    }

    /** Its event. */
    method DecideBlocked(o: ObsId, block: Block, again: bool, ghost found: nat) returns (ghost b: nat)
      requires Holding(Blocking(o, block, again))
      requires again ==> found < |log.events| && Unresolved(log.Value(), found)
                         && log.events[found].obs == o && log.events[found].block.verdict == block.verdict
      modifies this, log
      ensures Valid() && lock == HeldBy(if again then Releasing else Annotating(o))
      ensures market == old(market) && log.versions == old(log.versions)
      ensures b < |log.events| && Unresolved(log.Value(), b) && log.events[b].obs == o
        && log.events[b].block.verdict == block.verdict
      ensures if again then b < |old(log.events)| && log.events[b] == old(log.events[b])
        else log.events[b] == Blocked(o, block)
    {
      ResolvedAreRecorded(states, acts);
      var id := log.AppendEvent(if again then Note(o) else Blocked(o, block));
      lock := HeldBy(if again then Releasing else Annotating(o));
      Record(BlockDecision);
      b := if again then found else id;
    }

    method AnnotateRevision(o: ObsId)
      requires Holding(Annotating(o))
      modifies this, log
      ensures Holding(Releasing) && market == old(market) && log.versions == old(log.versions)
      ensures log.events == old(log.events) + [Note(o)] && log.resolutions == old(log.resolutions)
    {
      var note := log.AppendEvent(Note(o));
      lock := HeldBy(Releasing);
      Record(Annotate);
    }

    /** `_record_block`: a repeated retry of an unresolved block only adds a receipt note. */
    method RecordBlock(ghost a: Action, o: ObsId, block: Block) returns (ghost b: nat)
      requires Valid() && forall s' :: s' == Protocol.FindBlock(View(), o, block) ==> Next(View(), a, s')
      modifies this, log
      ensures Valid() && lock == Free && market == old(market) && log.versions == old(log.versions)
      ensures b < |log.events| && Unresolved(log.Value(), b) && log.events[b].obs == o
        && log.events[b].block.verdict == block.verdict
      ensures (b < |old(log.events)| && log.events[b] == old(log.events)[b]) || log.events[b] == Blocked(o, block)
    {
      var again, found := FindBlock(a, o, block);
      b := DecideBlocked(o, block, again, found);
      if !again { AnnotateRevision(o); }
      Release(Releasing);
    }

    // ------------------------------------------------------------ after the decision

    /** A decision without new sessions is finalized under the lock that made it. */
    method FinalizeNothingNew(o: ObsId, binding: Binding)
      requires Holding(Decided(o, binding, {}))
      modifies this, log
      ensures Valid() && lock == Free && market == old(market) && log.versions == old(log.versions)
      ensures IsApplied(log.events, o)
    {
      NothingNewSucceeds(states, acts, o, binding);
      var out := log.RecordApplication(o, {}, Stored(o.Symbol()), Some(binding));
      lock := HeldBy(Releasing);
      Record(NoOp);
      Release(Releasing);
    }

    /** `record_intent`: the sessions are claimed durably before the market changes. */
    method DeclareIntent(o: ObsId, binding: Binding, newer: set<Session>) returns (intent: nat)
      requires Holding(Decided(o, binding, newer)) && newer != {}
      modifies this, log
      ensures Holding(Intended(o, intent, binding)) && market == old(market) && log.versions == old(log.versions)
      ensures intent < |log.events| && log.events[intent] == Intent(o, newer) && !IsApplied(log.events, o)
    {
      DecidedIsFresh(states, acts, o, binding, newer);
      intent := log.AppendEvent(Intent(o, newer));
      assert !IsApplied(log.events, o) by {
        assert forall k | 0 <= k < |log.events| && log.events[k].Applied? :: k < intent;
      }
      lock := HeldBy(Intended(o, intent, binding));
      Record(Action.DeclareIntent);
    }

    method RollBack(o: ObsId, ghost intent: nat, ghost binding: Binding)
      requires Holding(Intended(o, intent, binding))
      modifies this, log
      ensures Valid() && lock == Free && market == old(market) && log.versions == old(log.versions)
    {
      var id := log.AppendEvent(Abandoned(o));
      lock := Free;
      Record(Abort);
    }

    /** The row statements of one market transaction, one session at a time. */
    method WriteRows(stored: Rows, rows: Rows, sessions: set<Session>) returns (after: Rows)
      requires sessions <= rows.Keys
      ensures after == Overlay(stored, rows, sessions)
    {
      after := stored;
      var rest := sessions;
      while rest != {}
        invariant rest <= sessions && after == Overlay(stored, rows, sessions - rest)
        decreases |rest|
      {
        ghost var x := PickOne(rest);
        var t :| t in rest;
        after := after[t := rows[t]];
        rest := rest - {t};
      }
      assert sessions - {} == sessions;
    }

    method CommitInsert(o: ObsId, intent: nat, ghost binding: Binding, newer: set<Session>) returns (after: Rows)
      requires Holding(Intended(o, intent, binding)) && intent < |log.events| && log.events[intent] == Intent(o, newer)
      requires newer <= o.Rows().Keys
      modifies this
      ensures Valid() && lock == Free && AppendFinisher(o, intent, binding, after) in finishers
      ensures market == old(market)[o.Symbol() := after] && after == Overlay(old(Stored(o.Symbol())), o.Rows(), newer)
    {
      after := WriteRows(Stored(o.Symbol()), o.Rows(), newer);
      market := market[o.Symbol() := after];
      lock, committed := Free, committed + {intent};
      finishers := finishers + {AppendFinisher(o, intent, binding, after)};
      Record(Commit);
    }

    method FinalizeAppend(o: ObsId, ghost intent: nat, binding: Binding, newer: set<Session>, after: Rows)
      requires Valid() && lock == Free && AppendFinisher(o, intent, binding, after) in finishers
      requires intent < |log.events| && log.events[intent] == Intent(o, newer) && !IsApplied(log.events, o)
      modifies this, log
      ensures Valid() && lock == Free && market == old(market)
      ensures IsApplied(log.events, o)
      ensures Head(log.versions, o.Symbol()) == Version(old(Head(log.versions, o.Symbol())), o, newer, after, Append)
    {
      ghost var f := AppendFinisher(o, intent, binding, after);
      AppendSucceeds(states, acts, o, intent, binding, after);
      var out := log.RecordApplication(o, newer, after, Some(binding));
      finishers := finishers - {f};
      Record(Finish(f));
    }

    /** The durable intent, the insert and its commit, and the finalization; an insert that fails is
        rolled back and abandoned. */
    method AppendSessions(o: ObsId, binding: Binding, newer: set<Session>, insertFails: bool) returns (done: bool)
      requires Holding(Decided(o, binding, newer)) && newer != {} && newer <= o.Rows().Keys
      modifies this, log
      ensures Valid() && lock == Free && done == !insertFails
      ensures done ==>
        && IsApplied(log.events, o)
        && Head(log.versions, o.Symbol()) == Version(old(Head(log.versions, o.Symbol())), o, newer,
          Stored(o.Symbol()), Append)
      ensures market == if done then old(market)[o.Symbol() := Overlay(old(Stored(o.Symbol())), o.Rows(), newer)]
        else old(market)
      ensures !done ==> log.versions == old(log.versions)
    {
      var intent := DeclareIntent(o, binding, newer);
      if insertFails {
        RollBack(o, intent, binding);
        return false;
      }
      var after := CommitInsert(o, intent, binding, newer);
      FinalizeAppend(o, intent, binding, newer, after);
      return true;
    }

    // ---------------------------------------------------------------- the whole batch

    /** The overlap comparison decides. Lineage verification before it never fails in a run. */
    method Decide(o: ObsId) returns (blocked: Option<Verdict>, binding: Binding, newer: set<Session>, ghost b: nat)
      requires Holding(Verifying(o))
      modifies this, log
      ensures market == old(market) && log.versions == old(log.versions)
      ensures var c := old(Classify(Stored(o.Symbol()), o.Rows(), o.Start(), o.End()));
        && (blocked.None? <==> c.Admits())
        && (blocked.None? ==> Holding(Decided(o, binding, newer)) && newer == c.newer)
        && (blocked.Some? ==>
              && blocked.value == c.verdict && Valid() && lock == Free
              && b < |log.events| && Unresolved(log.Value(), b) && log.events[b].obs == o
                && log.events[b].block.verdict == blocked.value)
      ensures blocked.Some? ==>
        || (b < |old(log.events)| && log.events[b] == old(log.events)[b])
        || BlockTold(old(Stored(o.Symbol())), o, log.events[b].block)
    {
      var y := o.Symbol();
      var stored, base := Stored(y), if y in baseline then baseline[y] else map[];
      binding, newer, b := Binding(0, Baseline, {}), {}, 0;
      VerifiedUnderLock(states, acts, o);
      if !Verified(log.Value(), base, y, stored) { assert false; }
      var c := Classify(stored, o.Rows(), o.Start(), o.End());
      if !c.Admits() {
        BlockExactly(stored, o);
        b := RecordBlock(Compare, o, BlockFor(c, stored, o));
        return Some(c.verdict), binding, newer, b;
      }
      var bound := Head(log.versions, y);
      var decision := log.AppendEvent(Admitted(o, c.verdict));
      binding, newer := Binding(decision, bound, c.confirmed), c.newer;
      lock := HeldBy(Decided(o, binding, newer));
      Record(Compare);
      return None, binding, newer, b;
    }

    method Acquire(o: ObsId) returns (intents: set<nat>)
      requires Valid() && lock == Free && o in log.observations
      modifies this
      ensures Holding(Settling(ForAdmission(o), o.Symbol(), intents)) && market == old(market)
        && committed == old(committed)
      ensures intents == OpenIntents(log.events, o.Symbol()) && AtMostOne(intents)
    {
      OneOpenIntent(states, acts, o.Symbol());
      intents := OpenIntents(log.events, o.Symbol());
      lock := HeldBy(Settling(ForAdmission(o), o.Symbol(), intents));
      Record(Action.Acquire(o));
    }

    /** Leave the settlement: either the observation is applied already, or stale ones are superseded. */
    method LeaveSettlement(o: ObsId) returns (applied: bool)
      requires Holding(Settling(ForAdmission(o), o.Symbol(), {}))
      modifies this, log
      ensures market == old(market) && (applied <==> old(IsApplied(log.events, o)))
      ensures applied ==> Valid() && lock == Free && log.Value() == old(log.Value())
      ensures !applied ==> Holding(Verifying(o)) && NoNewBlock(old(log.events), log.events)
      ensures !applied ==> forall x ::
        if x != o && old(Awaiting(log.Value(), o.Symbol(), x)) then IsSuperseded(log.events, x)
        else Latest(log.events, x) == old(Latest(log.events, x))
    {
      hide Awaiting, Pending, IsSuperseded, Run;
      forall x ensures x in PendingOn(log.Value(), o.Symbol()) <==> Awaiting(log.Value(), o.Symbol(), x) {
        PendingExactly(log.Value(), o.Symbol(), x);
      }
      applied := IsApplied(log.events, o);
      if applied {
        lock := HeldBy(Releasing);
        Record(SettleDone(false));
        Release(Releasing);
      } else {
        var pending := PendingOn(log.Value(), o.Symbol()) - {o};
        lock := HeldBy(Superseding(o, pending));
        Record(SettleDone(false));
        SupersedeStalePending(o, pending);
      }
    }

    /** The comparison and what follows from it, once every earlier intent is settled. */
    method AdmitVerified(o: ObsId, insertFails: bool) returns (out: AdmissionOutcome)
      requires Holding(Verifying(o)) && o.Valid()
      modifies this, log
      ensures Valid() && lock == Free && out == old(Judged(Stored(o.Symbol()), o, insertFails))
      ensures !out.RejectedEmpty? && !out.IntegrityError? && FailsOnly(out, insertFails)
      ensures Reported(out, o, old(Stored(o.Symbol())), old(log.events))
      ensures market == if out.Appended? then old(market)[o.Symbol() := Stored(o.Symbol())] else old(market)
    {
      hide Run, Classify, Holding, Head, IsApplied, VerdictTold, BlockTold;
      ghost var before := Stored(o.Symbol());
      VerdictExactly(before, o.Rows(), o.Start(), o.End(),
                     Classify(before, o.Rows(), o.Start(), o.End()).verdict);
      var blocked, binding, newer, b := Decide(o);
      if blocked.Some? { return BlockedBatch(blocked.value); }
      AdmittedIsStored(before, o);
      if newer == {} {
        FinalizeNothingNew(o, binding);
        return NothingNew;
      }
      var done := AppendSessions(o, binding, newer, insertFails);
      return if done then Appended(newer) else FailedApplication;
    }

    /** The serialized section. */
    method AdmitLocked(o: ObsId, insertFails: bool) returns (out: AdmissionOutcome)
      requires Valid() && lock == Free && o in log.observations && o.Valid()
      modifies this, log
      ensures Valid() && lock == Free && out == old(LockedOutcome(View(), o, insertFails))
      ensures !out.RejectedEmpty? && !out.IntegrityError? && FailsOnly(out, insertFails)
      ensures Reported(out, o, old(Stored(o.Symbol())), old(log.events))
      ensures market == if out.Appended? then old(market)[o.Symbol() := Stored(o.Symbol())] else old(market)
    {
      hide Run, ReceiptMatches, Reported, Judged, Head, AppliedOnceSettled, SettledLog, IsApplied;
      AppliedAfterSettling(states, acts, o);
      SettledWithoutBlock(states, acts, o.Symbol());
      var intents := Acquire(o);
      ReconcileOpenIntents(ForAdmission(o), o.Symbol(), intents);
      var applied := LeaveSettlement(o);
      ghost var settled := log.events;
      if applied {
        out := if ReceiptMatches(o.Rows(), Stored(o.Symbol())) then ReceiptReused else InvalidatedConcurrently;
        Untouched(out, o, Stored(o.Symbol()), old(log.events));
        return;
      }
      out := AdmitVerified(o, insertFails);
      ReportedSince(out, o, old(Stored(o.Symbol())), old(log.events), settled);
    }

    /** `admit_price_batch` for one normalized candidate: the outcome is decided by the state it finds. */
    method AdmitPriceBatch(first: ObsId, excluded: seq<Session>, insertFails: bool)
        returns (out: AdmissionOutcome, o: ObsId)
      requires Valid() && lock == Free && first.Fetched? && first.Valid()
      modifies this, log
      ensures Valid() && lock == Free
      ensures (out, o) == old(BatchOutcome(View(), first, excluded, insertFails))
      ensures out.RejectedEmpty? <==> first.Rows() == map[] && old(Stored(first.Symbol())) == map[]
      ensures out.IntegrityError? <==>
        !out.RejectedEmpty? && o in old(log.observations) && old(log.observations)[o] != excluded
      ensures AttemptedAs(o, first, old(log.Value()), old(Stored(first.Symbol())), out) && FailsOnly(out, insertFails)
      ensures Reported(out, o, old(Stored(first.Symbol())), old(log.events))
      ensures market == if out.Appended? then old(market)[first.Symbol() := Stored(first.Symbol())] else old(market)
    {
      hide LockedOutcome, SameStanding, Run, ReceiptMatches, Head, Reported, IsApplied, AppendEvent, NoNewBlock,
        AllStored, CurrentVersion, WasApplied;
      o := first;
      ghost var s := View();
      AppliedExactly(log.events, first);
      if o.Rows() == map[] && Stored(o.Symbol()) == map[] {
        Untouched(RejectedEmpty, o, s.Stored(o.Symbol()), old(log.events));
        return RejectedEmpty, o;
      }
      var ok := Persist(o, excluded);
      if !ok {
        Untouched(IntegrityError, o, s.Stored(o.Symbol()), old(log.events));
        return IntegrityError, o;
      }
      StandingKept(s, s, View());
      ghost var persisted := log.events;
      if IsApplied(log.events, o) {
        out, o := AdmitAgain(first, excluded, insertFails);
      } else {
        out := AdmitLocked(o, insertFails);
      }
      ReportedSince(out, o, s.Stored(o.Symbol()), s.log.events, persisted);
    }

    /** An applied observation: its receipt is reused while it matches, else its content is re-admitted. */
    method AdmitAgain(first: ObsId, excluded: seq<Session>, insertFails: bool)
        returns (out: AdmissionOutcome, o: ObsId)
      requires Valid() && lock == Free && first.Fetched? && first.Valid() && first in log.observations
      requires IsApplied(log.events, first) && (first.Rows() != map[] || Stored(first.Symbol()) != map[])
      requires log.observations[first] == excluded
      modifies this, log
      ensures Valid() && lock == Free
      ensures (out, o) == old(AgainOutcome(View(), first, excluded, insertFails))
      ensures !out.RejectedEmpty? && FailsOnly(out, insertFails)
      ensures out.IntegrityError? <==> o in old(log.observations) && old(log.observations)[o] != excluded
      ensures if AllStored(old(Stored(first.Symbol())), first.Rows()) then o == first
        else o.Readmitted? && o.original == first && CurrentVersion(old(log.versions), first.Symbol(), o.basis)
      ensures Reported(out, o, old(Stored(first.Symbol())), old(log.events))
      ensures market == if out.Appended? then old(market)[first.Symbol() := Stored(first.Symbol())] else old(market)
    {
      hide LockedOutcome, SameStanding, Run, ReceiptMatches, Head, Reported, IsApplied, AppendEvent, NoNewBlock,
        AllStored, CurrentVersion, WasApplied;
      ghost var s := View();
      MatchesExactly(s.Stored(first.Symbol()), first.Rows());
      HeadExactly(log.versions, first.Symbol(), Head(log.versions, first.Symbol()));
      o := first;
      Receipt(o);
      StandingKept(s, s, View());
      if ReceiptMatches(o.Rows(), Stored(o.Symbol())) {
        Untouched(ReceiptReused, o, s.Stored(o.Symbol()), old(log.events));
        return ReceiptReused, o;
      }
      ghost var noted := View();
      o := Readmitted(first, Head(log.versions, o.Symbol()));
      var ok := Persist(o, excluded);
      if !ok {
        Untouched(IntegrityError, o, s.Stored(o.Symbol()), old(log.events));
        return IntegrityError, o;
      }
      StandingKept(s, noted, View());
      ghost var persisted := log.events;
      out := AdmitLocked(o, insertFails);
      ReportedSince(out, o, s.Stored(o.Symbol()), s.log.events, persisted);
    }

    /** An insert that fails is the only way an admitted batch is not applied. */
    ghost predicate FailsOnly(out: AdmissionOutcome, insertFails: bool) {
      (out.FailedApplication? ==> insertFails) && (out.Appended? ==> !insertFails)
    }

    /** The identity an attempt runs under: the content's own, unless it was applied and the stored history lost it;
        then one bound to the current version. */
    ghost predicate AttemptedAs(o: ObsId, first: ObsId, log: Log, before: Rows, out: AdmissionOutcome) {
      if WasApplied(log.events, first) && !AllStored(before, first.Rows()) then
        || (o == first && (out.IntegrityError? || out.RejectedEmpty?))
        || (o.Readmitted? && o.original == first && CurrentVersion(log.versions, first.Symbol(), o.basis))
      else o == first
    }

    /** What an outcome means for the observation and the stored history of its symbol: a refused comparison has
        left a block, a new one that tells exactly how the offered rows disagreed, or an equal earlier one. */
    ghost predicate Reported(out: AdmissionOutcome, o: ObsId, before: Rows, earlier: seq<Event>)
      reads this, log
    {
      var y, stored := o.Symbol(), Stored(o.Symbol());
      match out
      case Appended(newer) =>
        && IsApplied(log.events, o) && AllStored(stored, o.Rows()) && stored == Overlay(before, o.Rows(), newer)
        && newer == o.Rows().Keys - before.Keys && newer != {}
        && Head(log.versions, y).Version? && Head(log.versions, y).obs == o && Head(log.versions, y).content == stored
      case NothingNew => IsApplied(log.events, o) && AllStored(stored, o.Rows()) && stored == before
      case ReceiptReused => IsApplied(log.events, o) && AllStored(stored, o.Rows()) && stored == before
      case InvalidatedConcurrently => IsApplied(log.events, o) && !AllStored(stored, o.Rows()) && stored == before
      case BlockedBatch(v) =>
        && stored == before && VerdictTold(before, o.Rows(), o.Start(), o.End(), v)
        && exists b: nat ::
          && b < |log.events| && Unresolved(log.Value(), b) && log.events[b].obs == o
            && log.events[b].block.verdict == v
          && ((b < |earlier| && log.events[b] == earlier[b]) || BlockTold(before, o, log.events[b].block))
      case _ => stored == before
    }

    lemma {:induction false} ReportedSince(out: AdmissionOutcome, o: ObsId, before: Rows, earlier: seq<Event>,
        later: seq<Event>)
      requires Reported(out, o, before, later) && NoNewBlock(earlier, later)
      ensures Reported(out, o, before, earlier)
    {
      hide BlockTold, VerdictTold, ReceiptMatches, IsApplied, Head;
      if out.BlockedBatch? {
        var b: nat :| b < |log.events| && Unresolved(log.Value(), b) && log.events[b].obs == o
          && log.events[b].block.verdict == out.verdict
          && ((b < |later| && log.events[b] == later[b]) || BlockTold(before, o, log.events[b].block));
      }
    }

    lemma {:induction false} Untouched(out: AdmissionOutcome, o: ObsId, before: Rows, earlier: seq<Event>)
      requires Stored(o.Symbol()) == before
      requires out.RejectedEmpty? || out.IntegrityError?
               || (out.ReceiptReused? && IsApplied(log.events, o) && ReceiptMatches(o.Rows(), before))
               || (out.InvalidatedConcurrently? && IsApplied(log.events, o) && !ReceiptMatches(o.Rows(), before))
      ensures Reported(out, o, before, earlier)
    {
    }

    // ------------------------------------------------------------------ reviewed rebase

    method AcquireRebase(b: nat, o: ObsId) returns (intents: set<nat>)
      requires Valid() && lock == Free && !LogModel.Rebased(log.rebases, b)
      modifies this
      ensures Holding(Settling(ForRebase(b, o), o.Symbol(), intents)) && market == old(market)
      ensures intents == OpenRebases(log.events, o.Symbol()) && AtMostOne(intents)
    {
      OneOpenIntent(states, acts, o.Symbol());
      intents := OpenRebases(log.events, o.Symbol());
      lock := HeldBy(Settling(ForRebase(b, o), o.Symbol(), intents));
      Record(Action.AcquireRebase(b, o));
    }

    /** Plan the rebase on what the settlement left, or leave the lock. */
    method LeaveRebaseSettlement(b: nat, o: ObsId, exposed: bool) returns (plan: Result<Plan, RebaseOutcome>)
      requires Holding(Settling(ForRebase(b, o), o.Symbol(), {}))
      modifies this
      ensures market == old(market)
      ensures plan.Ok? ==>
        Holding(Planned(o, plan.value)) && Plans(b, o, exposed) == Ok(plan.value) && !LogModel.Rebased(log.rebases, b)
      ensures plan.Err? ==> Valid() && lock == Free
      ensures plan.Err? ==>
        if LogModel.Rebased(log.rebases, b) then plan.error == RecoveredRebase
        else Plans(b, o, exposed).Err? && plan.error == RefusedRebase(Plans(b, o, exposed).error)
      ensures plan.Ok? <==>
        !LogModel.Rebased(log.rebases, b) && Plannable(log.Value(), Stored(o.Symbol()), o, b, exposed)
      ensures plan.Ok? ==> !exposed
      ensures plan.Err? && plan.error.RefusedRebase? ==>
        RefusalTold(log.Value(), View().Base(o.Symbol()), Stored(o.Symbol()), o, b, exposed, plan.error.refusal)
    {
      hide Run, Classify, Settles, Finishes, Compared, RecordApplication, PlanRebase, Plannable, RefusalTold;
      PlannedInRun(states, acts, o, b, exposed);
      if Plans(b, o, exposed).Err? {
        RefusedExactly(log.Value(), View().Base(o.Symbol()), Stored(o.Symbol()), o, b, exposed);
      }
      var y := o.Symbol();
      if LogModel.Rebased(log.rebases, b) {
        lock := HeldBy(Releasing);
        Record(SettleDone(exposed));
        Release(Releasing);
        return Err(RecoveredRebase);
      }
      var r := PlanRebase(log.Value(), if y in baseline then baseline[y] else map[], Stored(y), o, b, exposed);
      lock := HeldBy(if r.Ok? then Planned(o, r.value) else Releasing);
      Record(SettleDone(exposed));
      if r.Err? {
        Release(Releasing);
        return Err(RefusedRebase(r.error));
      }
      return Ok(r.value);
    }

    /** The plan of a reviewed rebase on the present log and market. */
    ghost function Plans(b: nat, o: ObsId, exposed: bool): Result<Plan, Refusal>
      reads this, log
    {
      PlanRebase(log.Value(), View().Base(o.Symbol()), Stored(o.Symbol()), o, b, exposed)
    }

    /** `record_rebase_intent`, right after the plan: nobody reviewed the block in between. */
    method DeclareRebase(ghost b: nat, o: ObsId, plan: Plan, ghost exposed: bool) returns (intent: nat)
      requires Holding(Planned(o, plan)) && Plans(b, o, exposed) == Ok(plan)
      modifies this, log
      ensures market == old(market)
      ensures Holding(RebaseIntended(intent)) && intent < |log.events| && log.events[intent] == RebaseIntent(o, plan)
    {
      hide Run, Classify, Settles, Finishes, LeavesSettlement, Compared, RecordApplication, Latest, Head, Verified;
      intent := |log.events|;
      var out := log.RecordRebaseIntent(o, plan);
      lock := HeldBy(RebaseIntended(intent));
      Record(Action.DeclareRebase);
    }

    /** `_update_rows`, the check of the result against the reviewed plan, and the commit. */
    method CommitRebase(o: ObsId, intent: nat, plan: Plan, updateFails: bool) returns (ok: bool)
      requires Holding(RebaseIntended(intent)) && intent < |log.events| && log.events[intent] == RebaseIntent(o, plan)
      requires plan.sessions <= o.Rows().Keys
      modifies this, log
      ensures Valid() && lock == Free && (ok <==> !updateFails)
      ensures market == if ok then old(market)[o.Symbol() := plan.post] else old(market)
      ensures ok ==> log.Value() == old(log.Value()) && RebaseFinisher(intent) in finishers
      ensures !ok ==> log.Value() == AppendEvent(old(log.Value()), Abandoned(o))
    {
      hide Run, Classify, Settles, Finishes, LeavesSettlement, Compared, PlanRebase, RecordApplication, Latest, Open,
        OpenIntents, OpenRebases, Verified, Head;
      UpdateIsPlanned(states, acts, o, intent, plan);
      var after := WriteRows(Stored(o.Symbol()), o.Rows(), plan.sessions);
      ok := !updateFails && after == plan.post;
      if ok {
        market := market[o.Symbol() := after];
        lock, committed, finishers := Free, committed + {intent}, finishers + {RebaseFinisher(intent)};
        Record(Action.CommitRebase);
      } else {
        AbandonRebase(o, intent, plan);
      }
    }

    method AbandonRebase(o: ObsId, ghost intent: nat, ghost plan: Plan)
      requires Holding(RebaseIntended(intent)) && intent < |log.events| && log.events[intent] == RebaseIntent(o, plan)
      modifies this, log
      ensures Valid() && lock == Free && market == old(market)
      ensures log.Value() == AppendEvent(old(log.Value()), Abandoned(o))
    {
      var id := log.AppendEvent(Abandoned(o));
      lock := Free;
      Record(AbortRebase);
    }

    method FinalizeRebase(b: nat, o: ObsId, intent: nat, plan: Plan)
      requires Valid() && lock == Free && RebaseFinisher(intent) in finishers
      requires intent < |log.events| && log.events[intent] == RebaseIntent(o, plan) && plan.block == b
      modifies this, log
      ensures Valid() && lock == Free && market == old(market) && LogModel.Rebased(log.rebases, b)
    {
      RebaseSucceeds(states, acts, intent);
      var out := log.RecordRebase(intent);
      finishers := finishers - {RebaseFinisher(intent)};
      Record(Finish(RebaseFinisher(intent)));
    }

    /** `rebase_symbol`: one reviewed rebase of the whole stored history of a symbol; the outcome is
        decided by the state it finds. When it is applied, no session appeared or vanished and every
        stored value is the reviewed one; in every other outcome the market is untouched. */
    method RebaseSymbol(b: nat, o: ObsId, exposed: bool, updateFails: bool) returns (out: RebaseOutcome)
      requires Valid() && lock == Free
      modifies this, log
      ensures Valid() && lock == Free && out == old(ReviewedOutcome(View(), b, o, exposed, updateFails))
      ensures market == if out.Rebased? then old(market)[o.Symbol() := Stored(o.Symbol())] else old(market)
      ensures out.Rebased? ==> !exposed && Revised(b, o, out.sessions, old(Stored(o.Symbol())))
      ensures (out.Rebased? ==> !updateFails) && (out.RebaseFailed? ==> updateFails)
      ensures out.AlreadyRebased? <==> old(LogModel.Rebased(log.rebases, b))
      ensures var settled := old(SettledLog(log.Value(), Stored(o.Symbol()), OpenRebases(log.events, o.Symbol())));
        && (out.Rebased? || out.RebaseFailed? <==>
              && !old(LogModel.Rebased(log.rebases, b)) && !LogModel.Rebased(settled.rebases, b)
              && Plannable(settled, old(Stored(o.Symbol())), o, b, exposed))
        && (out.RefusedRebase? ==> RefusalTold(settled, old(View().Base(o.Symbol())), old(Stored(o.Symbol())), o, b,
                                               exposed, out.refusal))
    {
      hide Run, PlanRebase, SettledLog, LogModel.Rebased, Revised, Plannable, RefusalTold;
      if LogModel.Rebased(log.rebases, b) { return AlreadyRebased; }
      var intents := AcquireRebase(b, o);
      ReconcileOpenIntents(ForRebase(b, o), o.Symbol(), intents);
      var planned := LeaveRebaseSettlement(b, o, exposed);
      if planned.Err? { return planned.error; }
      out := ApplyPlan(b, o, planned.value, exposed, updateFails);
    }

    /** The stored sessions are the old ones, each with its reviewed value, and `sessions` are those
        whose value changed. */
    ghost predicate Revised(b: nat, o: ObsId, sessions: set<Session>, before: Rows)
      reads this, log
    {
      var stored := Stored(o.Symbol());
      && stored.Keys == before.Keys && sessions <= stored.Keys && sessions != {}
      && (forall t | t in stored :: t in o.Rows() && stored[t] == o.Rows()[t])
      && (forall t | t in stored :: t in sessions <==> stored[t] != before[t])
      && LogModel.Rebased(log.rebases, b)
    }

    method ApplyPlan(b: nat, o: ObsId, plan: Plan, ghost exposed: bool, updateFails: bool) returns (out: RebaseOutcome)
      requires Holding(Planned(o, plan)) && Plans(b, o, exposed) == Ok(plan)
      modifies this, log
      ensures Valid() && lock == Free && out == if updateFails then RebaseFailed
        else RebaseOutcome.Rebased(plan.sessions)
      ensures market == if out.Rebased? then old(market)[o.Symbol() := Stored(o.Symbol())] else old(market)
      ensures out.Rebased? ==> Revised(b, o, out.sessions, old(Stored(o.Symbol())))
    {
      PlannedRows(View(), o, b, exposed);
      var intent := DeclareRebase(b, o, plan, exposed);
      var ok := CommitRebase(o, intent, plan, updateFails);
      if !ok { return RebaseFailed; }
      FinalizeRebase(b, o, intent, plan);
      return RebaseOutcome.Rebased(plan.sessions);
    }
  }
}
