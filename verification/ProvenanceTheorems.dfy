/** In every reachable state an attribution is true of the stored value, and the consumer gate
    passes exactly when nothing is blocked or open. */
module ProvenanceTheorems {
  import opened MarketTypes
  import opened LogModel
  import opened Protocol
  import opened Invariant
  import opened InvariantFinalize
  import opened Finalization
  import opened InvariantHolder
  import opened Effects
  import opened Provenance

  // --------------------------------------------------- attribution invariant

  /** Did `o` supply the value `row` of the session through a version of the symbol? */
  ghost predicate Supplied(vs: seq<SymbolVersion>, y: Symbol, t: Session, row: Row, o: ObsId, version: VersionRef) {
    && SymbolVersion(y, version) in vs && version.Version? && version.obs == o && t in version.sessions
    && t in o.Rows() && o.Rows()[t] == row
  }

  ghost predicate AttributedAt(s: System, y: Symbol, t: Session) {
    var rs, content, k := s.log.rebases, s.Content(y), LatestRebase(s.log.rebases, y, t);
    && (k >= 0 ==> t in content && Supplied(s.log.versions, y, t, content[t], rs[k].obs, rs[k].version))
    && (k < 0 && (y, t) in s.log.owned ==>
          t in content && Supplied(s.log.versions, y, t, content[t], s.log.owned[(y, t)].obs,
            s.log.owned[(y, t)].version))
    && (k < 0 && (y, t) !in s.log.owned && t in content ==> t in s.Base(y) && content[t] == s.Base(y)[t])
  }

  ghost predicate Attributed(s: System) { forall y, t :: AttributedAt(s, y, t) }

  lemma {:induction false} LatestRebaseAppend(rs: seq<RebaseRecord>, r: RebaseRecord)
    ensures forall y, t :: LatestRebase(rs + [r], y, t) ==
              if r.Symbol() == y && t in r.sessions then |rs| else LatestRebase(rs, y, t)
  {
    assert (rs + [r])[..|rs|] == rs;
  }

  lemma {:induction false} SuppliedStays(vs: seq<SymbolVersion>, v: SymbolVersion)
    ensures forall y, t, row, o, version | Supplied(vs, y, t, row, o, version) ::
      Supplied(vs + [v], y, t, row, o, version)
  {
  }

  lemma {:induction false} LandsAppendAttributed(s: System, s': System, i: nat, binding: Option<Binding>, y: Symbol,
      t: Session)
    requires Core(s) && AttributedAt(s, y, t) && Has(s, s', Lands(i, binding)) && s.log.events[i].Intent?
    ensures AttributedAt(s', y, t)
  {
    hide Core, LiftedBy, DecisionSound, PlanSound, Explains;
    var e := s.log.events[i];
    var ref := AppendVersion(s.log, e, s.Stored(e.Symbol()));
    AppendMoves(s, i, s.Stored(e.Symbol()), binding, s');
    MoveContent(s, s', i, ref);
    SuppliedStays(s.log.versions, SymbolVersion(e.Symbol(), ref));
    SoundParts(s, i, y);
    if y == e.Symbol() && t in e.Claimed() {
      assert t !in s.Content(y);
      assert SymbolVersion(y, ref) in s'.log.versions;
    }
  }

  lemma {:induction false} LandsRebaseAttributed(s: System, s': System, i: nat, binding: Option<Binding>, y: Symbol,
      t: Session)
    requires Core(s) && AttributedAt(s, y, t) && Has(s, s', Lands(i, binding)) && s.log.events[i].RebaseIntent?
    ensures AttributedAt(s', y, t)
  {
    hide RebasesResolved, Known, Absorbing, OneOpen, Chained, OneRevision, Quiet, Lineages, AllGrown, RevisionsSound;
    var e := s.log.events[i];
    var ref := RebaseVersion(s.log, e);
    assert IntentSound(s, i);
    RebaseMoves(s, i, s');
    MoveContent(s, s', i, ref);
    SuppliedStays(s.log.versions, SymbolVersion(e.Symbol(), ref));
    LatestRebaseAppend(s.log.rebases, s'.log.rebases[|s.log.rebases|]);
    if y == e.Symbol() && t in e.plan.sessions {
      assert SymbolVersion(y, ref) in s'.log.versions;
    }
  }

  lemma {:induction false} EffectAttributed(s: System, s': System, effect: Effect)
    requires Core(s) && Attributed(s) && Has(s, s', effect)
    ensures Attributed(s')
  {
    hide Core;
    forall y, t
      ensures AttributedAt(s', y, t)
    {
      assert AttributedAt(s, y, t);
      if effect.Lands? {
        if s.log.events[effect.intent].RebaseIntent? {
          LandsRebaseAttributed(s, s', effect.intent, effect.bound, y, t);
        }
        else { LandsAppendAttributed(s, s', effect.intent, effect.bound, y, t); }
      } else {
        assert s'.Content(y) == s.Content(y) && s'.Base(y) == s.Base(y);
      }
    }
  }

  lemma {:induction false} RunAttributed(ss: seq<System>, acts: seq<Action>, k: nat)
    requires Run(ss, acts) && k < |ss|
    ensures Attributed(ss[k])
  {
    hide Core, Has;
    if k == 0 {
      assert Init(ss[0]);
      assert forall y :: ss[0].Content(y) == ss[0].Base(y);
      forall y, t ensures AttributedAt(ss[0], y, t) {}
    } else {
      RunAttributed(ss, acts, k - 1);
      var effect := RunEffect(ss, acts, k - 1);
      EffectAttributed(ss[k - 1], ss[k], effect);
    }
  }

  // -------------------------------------------------------------- the theorems

  /** What one classification promises about the market. */
  ghost predicate TruthfulAttribution(s: System, y: Symbol, t: Session) {
    var a, stored, es := SessionProvenance(s, y, t), s.Stored(y), s.log.events;
    match a.origin
    case BaselineLegacy => t in stored && t in s.Base(y) && stored[t] == s.Base(y)[t]
    case Observation =>
      t in stored && a.obs.Some? && a.version.Some?
        && Supplied(s.log.versions, y, t, stored[t], a.obs.value, a.version.value)
    case RebasedHistory =>
      t in stored && a.obs.Some? && a.version.Some?
        && Supplied(s.log.versions, y, t, stored[t], a.obs.value, a.version.value)
    case PendingApplication =>
      exists i :: Open(es, i) && es[i].Symbol() == y && t in es[i].Claimed() && a.obs == Some(es[i].obs)
                  && t in es[i].obs.Rows() && (i in s.committed ==> t in stored && stored[t] == es[i].obs.Rows()[t])
    case Absent => t !in stored
    case Removed => false
    case Unattributed => false
  }

  /** Provenance is total and true in every reachable state: a stored session is never removed,
      unattributed or absent, a named observation really supplied the stored value through a recorded
      version, and a baseline session still holds its baseline value. */
  lemma {:induction false} AttributionIsTrue(ss: seq<System>, acts: seq<Action>, k: nat, y: Symbol, t: Session)
    requires Run(ss, acts) && k < |ss|
    ensures TruthfulAttribution(ss[k], y, t)
    ensures t in ss[k].Stored(y) ==> !SessionProvenance(ss[k], y, t).origin.Absent?
  {
    RunInv(ss, acts, k);
    RunAttributed(ss, acts, k);
    StateAttribution(ss[k], y, t);
  }

  lemma {:induction false} StateAttribution(s: System, y: Symbol, t: Session)
    requires Core(s) && AttributedAt(s, y, t)
    ensures TruthfulAttribution(s, y, t)
    ensures t in s.Stored(y) ==> !SessionProvenance(s, y, t).origin.Absent?
  {
    var es, i, content := s.log.events, FirstClaim(s.log.events, y, t, false), s.Content(y);
    if i >= 0 {
      ClaimedAttribution(s, y, t, i);
    } else {
      UnclaimedValue(s, y, t);
      assert FirstClaim(es, y, t, true) < 0 by {
        var j := FirstClaim(es, y, t, true);
        if j >= 0 { assert Claims(es, j, y, t, false); }
      }
      assert t in s.Base(y) ==> t <= t;
    }
  }

  /** A session no open intent claims stores its replayed value. */
  lemma {:induction false} UnclaimedValue(s: System, y: Symbol, t: Session)
    requires Core(s) && FirstClaim(s.log.events, y, t, false) < 0
    ensures t in s.Stored(y) <==> t in s.Content(y)
    ensures t in s.Content(y) ==> s.Stored(y)[t] == s.Content(y)[t]
  {
    if s.Stored(y) != s.Content(y) {
      assert LandedOn(s, y);
      var i :| i in s.committed && Open(s.log.events, i) && s.log.events[i].Symbol() == y;
      assert IntentSound(s, i);
      assert !Claims(s.log.events, i, y, t, false);
    }
  }

  /** A claimed session is reported as pending, under the claiming observation. */
  lemma {:induction false} ClaimedAttribution(s: System, y: Symbol, t: Session, i: nat)
    requires Core(s) && AttributedAt(s, y, t) && i == FirstClaim(s.log.events, y, t, false)
    ensures SessionProvenance(s, y, t) == Attribution(Origin.PendingApplication, Some(s.log.events[i].obs), None)
    ensures i in s.committed ==> t in s.Stored(y) && s.Stored(y)[t] == s.log.events[i].obs.Rows()[t]
    ensures TruthfulAttribution(s, y, t)
  {
    var es, e := s.log.events, s.log.events[i];
    assert IntentSound(s, i);
    var j := FirstClaim(es, y, t, true);
    if e.RebaseIntent? {
      assert Claims(es, i, y, t, true);
      assert Open(es, j) && j == i;
    } else {
      assert t !in s.Content(y);
      assert j < 0;
      assert Grown(s, y);
    }
  }

  /** In every reachable state the bulk summary is the histogram of the single-session form: every
      covered session has the same origin and, unless pending, the same observation. */
  lemma {:induction false} BulkAgrees(ss: seq<System>, acts: seq<Action>, k: nat, y: Symbol, start: Session,
      end: Session, t: Session)
    requires Run(ss, acts) && k < |ss| && start <= t <= end
    ensures var q, one := ReadWindow(ss[k], y, start, end), SessionProvenance(ss[k], y, t);
      && (t in q.Covered() <==> !one.origin.Absent?)
      && (t in q.Covered() ==>
            q.Row(t) == Triple(t, one.origin, if one.origin.PendingApplication? then None else one.obs))
  {
    RunInv(ss, acts, k);
    BulkAgreesState(ss[k], y, start, end, t);
  }

  lemma {:induction false} CoveredExactly(s: System, y: Symbol, start: Session, end: Session, t: Session)
    requires start <= t <= end
    ensures t in ReadWindow(s, y, start, end).Covered() <==>
            t in s.Stored(y) || LatestRebase(s.log.rebases, y, t) >= 0 || (y, t) in s.log.owned
            || FirstClaim(s.log.events, y, t, false) >= 0
  {
    ClaimsInWindow(s, y, start, end, t);
  }

  lemma {:induction false} UncoveredIsAbsent(s: System, y: Symbol, t: Session)
    ensures SessionProvenance(s, y, t).origin.Absent? <==>
            !(t in s.Stored(y) || LatestRebase(s.log.rebases, y, t) >= 0 || (y, t) in s.log.owned
              || FirstClaim(s.log.events, y, t, false) >= 0)
  {
    var j := FirstClaim(s.log.events, y, t, true);
    assert j >= 0 ==> Claims(s.log.events, j, y, t, false);
  }

  lemma {:induction false} RebaseClaimsStored(s: System, y: Symbol, t: Session)
    requires Core(s) && FirstClaim(s.log.events, y, t, true) >= 0
    ensures t in s.Stored(y)
  {
    var j := FirstClaim(s.log.events, y, t, true);
    assert IntentSound(s, j);
  }

  lemma {:induction false} BulkAgreesState(s: System, y: Symbol, start: Session, end: Session, t: Session)
    requires Core(s) && start <= t <= end
    ensures var q, one := ReadWindow(s, y, start, end), SessionProvenance(s, y, t);
      && (t in q.Covered() <==> !one.origin.Absent?)
      && (t in q.Covered() ==>
            q.Row(t) == Triple(t, one.origin, if one.origin.PendingApplication? then None else one.obs))
  {
    CoveredExactly(s, y, start, end, t);
    UncoveredIsAbsent(s, y, t);
    if t in ReadWindow(s, y, start, end).Covered() {
      BulkAgreesExactly(s, y, start, end, t);
      if FirstClaim(s.log.events, y, t, true) >= 0 { RebaseClaimsStored(s, y, t); }
    }
  }

  lemma {:induction false} RowsCount(q: WindowQueries, ts: set<Session>)
    ensures |set t | t in ts :: q.Row(t)| == |ts|
  {
    var rows := set t | t in ts :: q.Row(t);
    if ts != {} {
      var x := PickOne(ts);
      RowsCount(q, ts - {x});
      var rest := set t | t in ts - {x} :: q.Row(t);
      assert q.Row(x) !in rest by {
        forall t | t in ts - {x} ensures q.Row(t) != q.Row(x) { assert q.Row(t).session == t; }
      }
      assert rows == rest + {q.Row(x)};
    }
  }

  /** Hence each count of a window summary is the number of sessions of the window that the
      single-session query puts in that class. */
  lemma {:induction false} WindowCounts(ss: seq<System>, acts: seq<Action>, k: nat, y: Symbol, start: Session,
      end: Session, r: Summary, o: Origin)
    requires Run(ss, acts) && k < |ss|
    requires var q := ReadWindow(ss[k], y, start, end); r.triples == q.Triples() && Histogram(r.counts, r.triples)
    ensures var covered := ReadWindow(ss[k], y, start, end).Covered();
      (if o in r.counts then r.counts[o] else 0) == |set t | t in covered && SessionProvenance(ss[k], y, t).origin == o|
    ensures forall t :: t in ReadWindow(ss[k], y, start, end).Covered() <==>
      start <= t <= end && !SessionProvenance(ss[k], y, t).origin.Absent?
  {
    var s, q := ss[k], ReadWindow(ss[k], y, start, end);
    forall t
      ensures t in q.Covered() <==> start <= t <= end && !SessionProvenance(s, y, t).origin.Absent?
      ensures t in q.Covered() ==> q.Row(t).origin == SessionProvenance(s, y, t).origin
    {
      if start <= t <= end { BulkAgrees(ss, acts, k, y, start, end, t); } else { CoveredInside(s, y, start, end, t); }
    }
    TriplesHaving(s, y, q, r, o);
  }

  lemma {:induction false} CoveredInside(s: System, y: Symbol, start: Session, end: Session, t: Session)
    ensures t in ReadWindow(s, y, start, end).Covered() ==> start <= t <= end
  {
  }

  lemma {:induction false} TriplesHaving(s: System, y: Symbol, q: WindowQueries, r: Summary, o: Origin)
    requires r.triples == q.Triples() && Histogram(r.counts, r.triples)
    requires forall t | t in q.Covered() :: q.Row(t).origin == SessionProvenance(s, y, t).origin
    ensures (if o in r.counts then r.counts[o] else 0) == |set t | t in q.Covered()
      && SessionProvenance(s, y, t).origin == o|
  {
    var mine := set t | t in q.Covered() && SessionProvenance(s, y, t).origin == o;
    var rows := set t | t in mine :: q.Row(t);
    RowsCount(q, mine);
    forall x
      ensures x in Having(r.triples, o) <==> x in rows
    {
      if x in r.triples {
        var t :| t in q.Covered() && q.Row(t) == x;
      }
    }
    assert Having(r.triples, o) == rows;
    if o !in r.counts {
      assert forall x | x in r.triples :: x.origin != o;
      assert Having(r.triples, o) == {};
    }
  }

  // ----------------------------------------------------------------- the gate

  predicate WantedSymbol(wanted: Option<set<Symbol>>, y: Symbol) { wanted.Some? ==> y in wanted.value }

  /** In every reachable state the gate passes exactly when no wanted symbol has an unresolved block
      or an open intent: content verification alone never fails it. */
  lemma {:induction false} GateExact(ss: seq<System>, acts: seq<Action>, k: nat, wanted: Option<set<Symbol>>,
      verifyContent: bool)
    requires Run(ss, acts) && k < |ss|
    ensures CheckMarketProvenance(ss[k], wanted, verifyContent).Passes() <==>
            forall y | WantedSymbol(wanted, y) ::
              UnresolvedBlocks(ss[k].log, y) == {} && OpenIntents(ss[k].log.events, y) == {}
  {
    RunInv(ss, acts, k);
    GateExactState(ss[k], wanted, verifyContent);
  }

  lemma {:induction false} GateExactState(s: System, wanted: Option<set<Symbol>>, verifyContent: bool)
    requires Core(s)
    ensures CheckMarketProvenance(s, wanted, verifyContent).Passes() <==>
            forall y | WantedSymbol(wanted, y) :: UnresolvedBlocks(s.log, y) == {} && OpenIntents(s.log.events, y) == {}
  {
    var r := CheckMarketProvenance(s, wanted, verifyContent);
    var es := s.log.events;
    if forall y | WantedSymbol(wanted, y) :: UnresolvedBlocks(s.log, y) == {} && OpenIntents(es, y) == {} {
      assert forall b: nat | b < |es| && Unresolved(s.log, b) :: b in UnresolvedBlocks(s.log, es[b].Symbol());
      assert forall i: nat | i < |es| && Open(es, i) :: i in OpenIntents(es, es[i].Symbol());
      forall y | WantedSymbol(wanted, y) ensures Verified(s.log, s.Base(y), y, s.Stored(y)) {
        forall i | Open(es, i) ensures es[i].Symbol() != y { assert i !in OpenIntents(es, y); }
        VerifiedQuiet(s, y);
      }
      assert r.blocked == {} && r.pending == {} && r.mismatched == {};
    }
    if r.Passes() {
      forall y | WantedSymbol(wanted, y)
        ensures UnresolvedBlocks(s.log, y) == {} && OpenIntents(es, y) == {}
      {
        GatePasses(s, wanted, verifyContent, y);
      }
    }
  }

  lemma {:induction false} GatePasses(s: System, wanted: Option<set<Symbol>>, verifyContent: bool, y: Symbol)
    requires CheckMarketProvenance(s, wanted, verifyContent).Passes() && WantedSymbol(wanted, y)
    ensures UnresolvedBlocks(s.log, y) == {} && OpenIntents(s.log.events, y) == {}
  {
    var es, r := s.log.events, CheckMarketProvenance(s, wanted, verifyContent);
    forall b | b in UnresolvedBlocks(s.log, y) ensures es[b].Symbol() in r.blocked {}
    forall i | i in OpenIntents(es, y) ensures es[i].Symbol() in r.pending {}
  }

  /** When the gate passes, every stored session of a wanted symbol is a baseline, observed or
      rebased one, and its attribution is true of its value. */
  lemma {:induction false} GateSound(ss: seq<System>, acts: seq<Action>, k: nat, wanted: Option<set<Symbol>>,
      verifyContent: bool, y: Symbol, t: Session)
    requires Run(ss, acts) && k < |ss|
    requires CheckMarketProvenance(ss[k], wanted, verifyContent).Passes() && WantedSymbol(wanted, y)
      && t in ss[k].Stored(y)
    ensures var o := SessionProvenance(ss[k], y, t).origin; o.BaselineLegacy? || o.Observation? || o.RebasedHistory?
    ensures TruthfulAttribution(ss[k], y, t)
  {
    AttributionIsTrue(ss, acts, k, y, t);
    GatePasses(ss[k], wanted, verifyContent, y);
    var es := ss[k].log.events;
    forall i | 0 <= i < |es| && Open(es, i) ensures es[i].Symbol() != y { assert i !in OpenIntents(es, y); }
  }
}
