/** The observation log as the mutable object the processes share: each method is one log
    transaction, proved against the transaction it implements on log values. */
module ObservationLog {
  import opened MarketTypes
  import opened LogModel
  import opened Lifting

  datatype Outcome = Done | Refused(error: LogError)

  /** The log a transaction leaves: its result, or the unchanged log when it is refused. */
  function After(log: Log, r: Result<Log, LogError>): Log { if r.Ok? then r.value else log }

  predicate Reports(out: Outcome, r: Result<Log, LogError>) {
    match r case Ok(_) => out == Done case Err(e) => out == Refused(e)
  }

  /** The tests the covering loop makes on one block, given the claimed blocks and the sessions
      that newer blocks of the symbol touch. */
  predicate Revalidated(es: seq<Event>, before: map<nat, Resolution>, y: Symbol, b: nat, decision: nat,
                        confirmed: set<Session>, claimed: set<nat>, newer: set<set<Session>>)
    requires b < |es|
  {
    && b < decision && es[b].Blocked? && es[b].Symbol() == y && b !in before
    && b !in claimed
    && es[b].block.auto
    && es[b].block.affected != {} && es[b].block.affected <= confirmed
    && forall later | later in newer :: es[b].block.affected * later == {}
  }

  ghost predicate NewerThan(es: seq<Event>, y: Symbol, decision: nat, newer: set<set<Session>>) {
    && (forall j | decision < j < |es| && es[j].Blocked? && es[j].Symbol() == y :: es[j].block.affected in newer)
    && forall ts | ts in newer ::
         exists j :: decision < j < |es| && es[j].Blocked? && es[j].Symbol() == y && es[j].block.affected == ts
  }

  lemma {:induction false} RevalidatedMeans(es: seq<Event>, before: map<nat, Resolution>, y: Symbol, b: nat,
      decision: nat,
                         confirmed: set<Session>, claimed: set<nat>, newer: set<set<Session>>)
    requires b < |es| && NewerThan(es, y, decision, newer)
    requires forall c :: c in claimed <==> OwnedByRebase(es, c)
    ensures Revalidated(es, before, y, b, decision, confirmed, claimed, newer) <==>
            Liftable(es, before, y, b, decision, confirmed)
  {
    if es[b].Blocked? { NewerMeans(es, y, decision, newer, es[b].block.affected); }
  }

  lemma {:induction false} NewerMeans(es: seq<Event>, y: Symbol, decision: nat, newer: set<set<Session>>,
      affected: set<Session>)
    requires NewerThan(es, y, decision, newer)
    ensures (forall later | later in newer :: affected * later == {}) <==>
            forall j | decision < j < |es| && es[j].Blocked? && es[j].Symbol() == y :: affected !! es[j].block.affected
  {
    if forall later | later in newer :: affected * later == {} {
      forall j | decision < j < |es| && es[j].Blocked? && es[j].Symbol() == y
        ensures affected !! es[j].block.affected
      {
        var later := es[j].block.affected;
        assert later in newer && affected * later == {};
        forall t ensures !(t in affected && t in later) { assert t !in affected * later; }
      }
    } else {
      var later :| later in newer && affected * later != {};
      var j :| decision < j < |es| && es[j].Blocked? && es[j].Symbol() == y && es[j].block.affected == later;
    }
  }

  function LiftedBelow(es: seq<Event>, before: map<nat, Resolution>, y: Symbol, o: ObsId, decision: nat,
                       confirmed: set<Session>, n: nat): map<nat, Resolution>
  {
    map b: nat | b < |es| && b < n && Liftable(es, before, y, b, decision, confirmed) :: Accepted(o, decision)
  }

  lemma {:induction false} LiftedEnds(es: seq<Event>, before: map<nat, Resolution>, y: Symbol, o: ObsId,
      decision: nat, confirmed: set<Session>)
    ensures LiftedBelow(es, before, y, o, decision, confirmed, 0) == map[]
    ensures LiftedBelow(es, before, y, o, decision, confirmed, |es|) == LiftedBy(es, before, y, o, decision, confirmed)
  {
  }

  lemma {:induction false} LiftedNext(es: seq<Event>, before: map<nat, Resolution>, y: Symbol, o: ObsId, decision: nat,
                   confirmed: set<Session>, n: nat)
    requires n < |es|
    ensures LiftedBelow(es, before, y, o, decision, confirmed, n + 1) ==
      if Liftable(es, before, y, n, decision, confirmed)
      then LiftedBelow(es, before, y, o, decision, confirmed, n)[n := Accepted(o, decision)]
      else LiftedBelow(es, before, y, o, decision, confirmed, n)
  {
  }

  function Owners(y: Symbol, o: ObsId, ref: VersionRef, ts: set<Session>): map<(Symbol, Session), Owner> {
    map t | t in ts :: (y, t) := Owner(o, ref)
  }

  lemma {:induction false} OwnersStart(owned: map<(Symbol, Session), Owner>, y: Symbol, o: ObsId, ref: VersionRef,
      sessions: set<Session>)
    ensures owned + Owners(y, o, ref, sessions - sessions) == owned
  {
  }

  lemma {:induction false} OwnersNext(owned: map<(Symbol, Session), Owner>, y: Symbol, o: ObsId, ref: VersionRef,
      sessions: set<Session>, rest: set<Session>, t: Session)
    requires t in rest && rest <= sessions
    ensures var grown := owned + Owners(y, o, ref, sessions - rest);
      && ((y, t) in grown <==> (y, t) in owned)
      && grown[(y, t) := Owner(o, ref)] == owned + Owners(y, o, ref, sessions - (rest - {t}))
  {
    var before, after := Owners(y, o, ref, sessions - rest), Owners(y, o, ref, sessions - (rest - {t}));
    assert sessions - (rest - {t}) == sessions - rest + {t};
    assert after == before[(y, t) := Owner(o, ref)];
  }

  class Store {
    var observations: map<ObsId, seq<Session>>
    var events: seq<Event>
    var resolutions: map<nat, Resolution>
    var versions: seq<SymbolVersion>
    var owned: map<(Symbol, Session), Owner>
    var rebases: seq<RebaseRecord>

    constructor ()
      ensures Value() == Log(map[], [], map[], [], map[], [])
    {
      observations, events, resolutions, versions, owned, rebases := map[], [], map[], [], map[], [];
    }

    function Value(): Log
      reads this
    {
      Log(observations, events, resolutions, versions, owned, rebases)
    }

    method PersistObservation(o: ObsId, excluded: seq<Session>) returns (out: Outcome)
      modifies this
      ensures Value() == After(old(Value()), LogModel.PersistObservation(old(Value()), o, excluded))
      ensures Reports(out, LogModel.PersistObservation(old(Value()), o, excluded))
    {
      if o in observations {
        return if observations[o] == excluded then Done else Refused(ImmutableMismatch);
      }
      observations := observations[o := excluded];
      events := events + [Observed(o)];
      return Done;
    }

    method AppendEvent(e: Event) returns (id: nat)
      modifies this`events
      ensures Value() == LogModel.AppendEvent(old(Value()), e) && id == old(|events|)
    {
      id := |events|;
      events := events + [e];
    }

    /** `_pending_rebase_owners`: the blocks claimed by open rebase intents. */
    method PendingRebaseOwners() returns (blocks: set<nat>)
      ensures forall b :: b in blocks <==> OwnedByRebase(events, b)
    {
      blocks := {};
      for i := 0 to |events|
        invariant forall b :: b in blocks <==>
          exists j | 0 <= j < i :: Open(events, j) && events[j].RebaseIntent? && events[j].plan.block == b
      {
        if Open(events, i) && events[i].RebaseIntent? { blocks := blocks + {events[i].plan.block}; }
      }
    }

    /** `_resolve_covered_blocks`: lift exactly the blocks the accepting decision revalidated. */
    method ResolveCoveredBlocks(o: ObsId, y: Symbol, decision: nat, confirmed: set<Session>)
      modifies this`resolutions
      ensures resolutions == old(resolutions) + LiftedBy(events, old(resolutions), y, o, decision, confirmed)
      ensures forall b: nat | b !in old(resolutions) ::
        if Answered(events, y, b, decision, confirmed) && !ClaimedByRebase(events, b)
        then b in resolutions && resolutions[b] == Accepted(o, decision)
        else b !in resolutions
    {
      hide LiftedBy, LiftedBelow, Revalidated, NewerThan, Answered, ClaimedByRebase;
      var before := resolutions;
      LiftedExactly(events, before, y, o, decision, confirmed);
      LiftedEnds(events, before, y, o, decision, confirmed);
      var newer := NewerBlocks(y, decision);
      var claimed := PendingRebaseOwners();
      for b := 0 to |events|
        invariant resolutions == before + LiftedBelow(events, before, y, o, decision, confirmed, b)
      {
        RevalidatedMeans(events, before, y, b, decision, confirmed, claimed, newer);
        LiftedNext(events, before, y, o, decision, confirmed, b);
        if Revalidated(events, before, y, b, decision, confirmed, claimed, newer) {
          resolutions := resolutions[b := Accepted(o, decision)];
        }
      }
    }

    method NewerBlocks(y: Symbol, decision: nat) returns (newer: set<set<Session>>)
      ensures NewerThan(events, y, decision, newer)
    {
      newer := {};
      for j := 0 to |events|
        invariant NewerThan(events[..j], y, decision, newer)
      {
        var shorter, longer := events[..j], events[..j + 1];
        if decision < j && events[j].Blocked? && events[j].Symbol() == y {
          newer := newer + {events[j].block.affected};
        }
        assert longer == shorter + [events[j]];
        assert longer[j] == events[j];
      }
      assert events[..|events|] == events;
    }

    /** The `applied_sessions` inserts: refused as a whole when one session already has an owner. */
    method OwnSessions(y: Symbol, o: ObsId, ref: VersionRef, sessions: set<Session>)
        returns (ok: bool, grown: map<(Symbol, Session), Owner>)
      ensures ok <==> forall t | t in sessions :: (y, t) !in owned
      ensures ok ==> grown == owned + Owners(y, o, ref, sessions)
    {
      hide Owners;
      grown := owned;
      var rest := sessions;
      OwnersStart(owned, y, o, ref, sessions);
      while rest != {}
        invariant rest <= sessions
        invariant forall t | t in sessions - rest :: (y, t) !in owned
        invariant grown == owned + Owners(y, o, ref, sessions - rest)
        decreases |rest|
      {
        ghost var x := PickOne(rest);
        var t :| t in rest;
        OwnersNext(owned, y, o, ref, sessions, rest, t);
        if (y, t) in grown { return false, grown; }
        grown := grown[(y, t) := Owner(o, ref)];
        rest := rest - {t};
      }
      assert sessions - {} == sessions;
      return true, grown;
    }

    /** `record_application`: the whole transaction, rolled back on an ownership conflict. */
    method RecordApplication(o: ObsId, sessions: set<Session>, content: Rows, binding: Option<Binding>)
        returns (out: Outcome)
      modifies this
      ensures Value() == After(old(Value()), LogModel.RecordApplication(old(Value()), o, sessions, content, binding))
      ensures Reports(out, LogModel.RecordApplication(old(Value()), o, sessions, content, binding))
      ensures out.Done? && !old(IsApplied(events, o)) && binding.Some? ==>
        LiftsExactly(old(Value()), Value(), o, binding.value.decision, binding.value.confirmed)
      ensures binding.None? ==> resolutions == old(resolutions)
    {
      hide LiftsExactly, Answered, ClaimedByRebase;
      if binding.Some? && !IsApplied(events, o)
        && LogModel.RecordApplication(Value(), o, sessions, content, binding).Ok? {
        ApplicationLifts(Value(), o, sessions, content, binding.value);
      }
      var y := o.Symbol();
      if IsApplied(events, o) { return Done; }
      var k := Latest(events, o);
      if sessions == {} {
        if binding.None? { return Refused(NoDecision); }
        if !(k >= 0 && events[k].Admitted? && k == binding.value.decision) { return Refused(NotAdmitted); }
      } else {
        if !(k >= 0 && events[k].IsIntent() && events[k].Claimed() == sessions) { return Refused(NotClaimed); }
      }
      var head := Head(versions, y);
      if sessions != {} && binding.Some? && binding.value.bound != head { return Refused(VersionAdvanced); }
      var ref := if sessions == {} then binding.value.bound else Version(head, o, sessions, content, Append);
      var ok, grown := OwnSessions(y, o, ref, sessions);
      if !ok { return Refused(OwnershipConflict); }
      if sessions != {} { versions := versions + [SymbolVersion(y, ref)]; }
      owned := grown;
      events := events + [Applied(o, ref)];
      if binding.Some? { ResolveCoveredBlocks(o, y, binding.value.decision, binding.value.confirmed); }
      return Done;
    }

    method ResolveBlock(b: nat) returns (out: Outcome)
      modifies this`resolutions
      ensures Value() == After(old(Value()), LogModel.ResolveBlock(old(Value()), b))
      ensures Reports(out, LogModel.ResolveBlock(old(Value()), b))
    {
      if !(b < |events| && events[b].Blocked?) { return Refused(NoSuchBlock); }
      if b in resolutions { return Refused(AlreadyResolved); }
      var claimed := PendingRebaseOwners();
      if b in claimed { return Refused(BlockOwnedByPendingRebase); }
      resolutions := resolutions[b := Reviewed];
      return Done;
    }

    method RecordRebaseIntent(o: ObsId, plan: Plan) returns (out: Outcome)
      modifies this`events
      ensures Value() == After(old(Value()), LogModel.RecordRebaseIntent(old(Value()), o, plan))
      ensures Reports(out, LogModel.RecordRebaseIntent(old(Value()), o, plan))
    {
      var b := plan.block;
      if !(b < |events| && events[b].Blocked? && events[b].obs == o) { return Refused(NoSuchBlock); }
      if b in resolutions { return Refused(AlreadyResolved); }
      for i := 0 to |events|
        invariant forall j: nat | j < i :: j !in OpenIntents(events, o.Symbol())
      {
        if Open(events, i) && events[i].Symbol() == o.Symbol() {
          assert i in OpenIntents(events, o.Symbol());
          return Refused(OpenApplication);
        }
      }
      assert OpenIntents(events, o.Symbol()) == {};
      events := events + [RebaseIntent(o, plan)];
      return Done;
    }

    /** `record_rebase`: the version, the rebase record, the application result and the resolutions. */
    method RecordRebase(i: nat) returns (out: Outcome)
      modifies this
      ensures Value() == After(old(Value()), LogModel.RecordRebase(old(Value()), i))
      ensures Reports(out, LogModel.RecordRebase(old(Value()), i))
    {
      hide Latest, IsApplied, Head, Rebased;
      if !(i < |events| && events[i].RebaseIntent?) { return Refused(NoRebaseIntent); }
      var o, plan := events[i].obs, events[i].plan;
      var y := o.Symbol();
      if Rebased(rebases, plan.block) { return Done; }
      if Latest(events, o) != i { return Refused(IntentNotOpen); }
      if plan.block in resolutions || plan.block in plan.supersedes { return Refused(AlreadyResolved); }
      var head := Head(versions, y);
      if head != plan.preVersion { return Refused(VersionAdvanced); }
      if IsApplied(events, o) { return Refused(AlreadyApplied); }
      var ref := Version(head, o, plan.sessions, plan.post, Rebase(plan.block));
      var before := resolutions;
      versions := versions + [SymbolVersion(y, ref)];
      rebases := rebases + [RebaseRecord(plan.block, o, plan.sessions, ref)];
      events := events + [Applied(o, ref)];
      resolutions := resolutions[plan.block := RebasedByReview(o)];
      ResolveSuperseded(plan.supersedes, SupersededByRebase(o, plan.block));
      assert resolutions == (map b | b in plan.supersedes :: SupersededByRebase(o, plan.block))
                            + old(resolutions) + map[plan.block := RebasedByReview(o)];
      return Done;
    }

    /** Resolve the older blocks that have no resolution yet. */
    method ResolveSuperseded(blocks: set<nat>, resolution: Resolution)
      modifies this`resolutions
      ensures resolutions == (map b | b in blocks :: resolution) + old(resolutions)
    {
      var before := resolutions;
      var older := blocks;
      while older != {}
        invariant older <= blocks
        invariant resolutions == (map b | b in blocks - older :: resolution) + before
        decreases |older|
      {
        ghost var x := PickOne(older);
        var b :| b in older;
        if b !in resolutions { resolutions := resolutions[b := resolution]; }
        older := older - {b};
      }
      assert blocks - {} == blocks;
    }
  }
}
