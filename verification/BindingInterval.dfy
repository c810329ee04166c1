/** What cannot change between two reads of the same dataset version. */
module BindingInterval {
  import opened MarketTypes
  import opened LogModel
  import opened Protocol
  import opened Invariant
  import opened Effects
  import opened Provenance
  import opened ProvenanceTheorems
  import opened ProtocolTheorems
  import opened RebaseTheorems
  import opened InvariantHolder

  /** The provenance the log attributes to a session, whatever intents are open: it depends only on
      the version tables and the baseline. */
  function Settled(s: System, y: Symbol, t: Session): Attribution {
    SessionRead(t in s.Content(y), [], s.log.rebases, s.log.owned, [], s.Base(y), y, t)
  }

  function SettledWindow(s: System, y: Symbol, start: Session, end: Session): WindowQueries {
    AssembleWindow(s.Content(y), s.log.owned, s.log.rebases, [], s.Base(y), y, start, end)
  }

  /** The tables an application moves. */
  predicate SameTables(s: System, s': System) {
    && s'.log.versions == s.log.versions && s'.log.owned == s.log.owned && s'.log.rebases == s.log.rebases
    && s'.baseline == s.baseline
  }

  lemma {:induction false} EffectTables(s: System, s': System, effect: Effect)
    requires Has(s, s', effect)
    ensures effect.Lands? <==> s'.log.versions != s.log.versions
    ensures !effect.Lands? ==> SameTables(s, s')
  {
    if effect.Lands? { FinalizedTables(s, effect.intent, effect.bound); }
  }

  lemma {:induction false} TablesStay(ss: seq<System>, acts: seq<Action>, j: nat, k: nat)
    requires Run(ss, acts) && j <= k < |ss| && ss[j].log.versions == ss[k].log.versions
    ensures SameTables(ss[j], ss[k])
  {
    hide Has, Core;
    if j < k {
      VersionsGrow(ss, acts, j, k - 1);
      VersionsGrow(ss, acts, k - 1, k);
      TablesStay(ss, acts, j, k - 1);
      var effect := RunEffect(ss, acts, k - 1);
      EffectTables(ss[k - 1], ss[k], effect);
    }
  }

  /** Two reads of one dataset version: every state between them has the same tables. */
  lemma {:induction false} PinnedInterval(ss: seq<System>, acts: seq<Action>, j: nat, k: nat, m: nat)
    requires Run(ss, acts) && j <= m <= k < |ss|
    requires DatasetVersion(ss[j].log.versions) == DatasetVersion(ss[k].log.versions)
    ensures SameTables(ss[j], ss[m])
  {
    DatasetVersionNeverRepeats(ss, acts, j, k);
    VersionsGrow(ss, acts, j, m);
    VersionsGrow(ss, acts, m, k);
    TablesStay(ss, acts, j, m);
  }

  lemma {:induction false} SettledStays(s: System, s': System)
    requires SameTables(s, s')
    ensures forall y :: s'.Content(y) == s.Content(y) && s'.Base(y) == s.Base(y)
    ensures forall y, t :: Settled(s', y, t) == Settled(s, y, t)
    ensures forall y, start, end :: SettledWindow(s', y, start, end) == SettledWindow(s, y, start, end)
  {
    assert forall y :: s'.Content(y) == s.Content(y) && s'.Base(y) == s.Base(y);
  }

  /** A committed intent stays open as long as the version tables stay. */
  lemma {:induction false} CommittedStaysOpen(ss: seq<System>, acts: seq<Action>, j: nat, k: nat, i: nat)
    requires Run(ss, acts) && j <= k < |ss| && ss[j].log.versions == ss[k].log.versions
    requires i in ss[j].committed && Open(ss[j].log.events, i)
    ensures i in ss[k].committed && Open(ss[k].log.events, i) && ss[k].log.events[i] == ss[j].log.events[i]
  {
    hide Has, Core;
    if j < k {
      VersionsGrow(ss, acts, j, k - 1);
      VersionsGrow(ss, acts, k - 1, k);
      CommittedStaysOpen(ss, acts, j, k - 1, i);
      var effect := RunEffect(ss, acts, k - 1);
      EffectTables(ss[k - 1], ss[k], effect);
      if !Open(ss[k].log.events, i) { OnlyLandingCloses(ss[k - 1], ss[k], effect, i); }
      EventsStay(ss[k - 1], ss[k], effect, i);
      EffectCommitted(ss[k - 1], ss[k], effect);
    }
  }

  lemma {:induction false} EventsStay(s: System, s': System, effect: Effect, i: nat)
    requires Has(s, s', effect) && i < |s.log.events|
    ensures i < |s'.log.events| && s'.log.events[i] == s.log.events[i]
  {
    if effect.Lands? { FinalizedTables(s, effect.intent, effect.bound); }
  }

  /** In a state, presence in the market differs from the replay only on the sessions of a committed
      open append, and those have no attribution yet. */
  lemma {:induction false} PresenceInState(s: System, y: Symbol, t: Session) returns (i: nat)
    requires Core(s) && AttributedAt(s, y, t)
    ensures t in s.Content(y) ==> t in s.Stored(y)
    ensures t in s.Stored(y) && t !in s.Content(y) ==>
      && Claims(s.log.events, i, y, t, false) && i in s.committed
      && LatestRebase(s.log.rebases, y, t) < 0 && (y, t) !in s.log.owned
  {
    i := 0;
    if s.Stored(y) != s.Content(y) {
      assert LandedOn(s, y);
      i :| i in s.committed && Open(s.log.events, i) && s.log.events[i].Symbol() == y;
      assert IntentSound(s, i);
    }
  }

  /** A session present at one moment but not in the pinned content is still claimed, unattributed,
      at every later moment with the same tables. */
  lemma {:induction false} PresenceAcross(ss: seq<System>, acts: seq<Action>, j: nat, k: nat, y: Symbol, t: Session)
    requires Run(ss, acts) && j <= k < |ss| && SameTables(ss[j], ss[k])
    ensures t in ss[k].Content(y) ==> t in ss[j].Stored(y)
    ensures t in ss[j].Stored(y) && t !in ss[k].Content(y) ==>
      && FirstClaim(ss[k].log.events, y, t, false) >= 0
      && LatestRebase(ss[k].log.rebases, y, t) < 0 && (y, t) !in ss[k].log.owned
  {
    RunInv(ss, acts, j);
    RunAttributed(ss, acts, j);
    assert AttributedAt(ss[j], y, t);
    SettledStays(ss[j], ss[k]);
    var i := PresenceInState(ss[j], y, t);
    if t in ss[j].Stored(y) && t !in ss[k].Content(y) {
      CommittedStaysOpen(ss, acts, j, k, i);
      assert Claims(ss[k].log.events, i, y, t, false);
    }
  }

  // --------------------------------------------------- assembled from many moments

  /** The moments at which the queries of one read were answered. */
  datatype Moments = Moments(present: nat, first: nat, rebases: nat, owned: nat, second: nat)
  {
    predicate Within(lo: nat, hi: nat) {
      lo <= present <= first && first <= rebases <= second && first <= owned <= second && second <= hi
    }
  }

  function PointAt(ss: seq<System>, m: Moments, y: Symbol, t: Session): Attribution
    requires |ss| > 0 && m.Within(0, |ss| - 1)
  {
    SessionRead(t in ss[m.present].Stored(y), ss[m.first].log.events, ss[m.rebases].log.rebases,
                ss[m.owned].log.owned, ss[m.second].log.events, ss[m.second].Base(y), y, t)
  }

  lemma {:induction false} NoClaimIsSettled(s: System, y: Symbol, t: Session)
    requires Core(s) && AttributedAt(s, y, t) && FirstClaim(s.log.events, y, t, false) < 0
    ensures SessionProvenance(s, y, t) == Settled(s, y, t)
  {
    UnclaimedValue(s, y, t);
    var j := FirstClaim(s.log.events, y, t, true);
    assert j >= 0 ==> Claims(s.log.events, j, y, t, false);
    assert FirstClaim([], y, t, true) < 0 && FirstClaim([], y, t, false) < 0;
  }

  /** A point read that is not pending, made of queries answered at five different moments between
      two reads of one dataset version, is the settled attribution in EVERY state between them. */
  lemma {:induction false} PointCoherent(ss: seq<System>, acts: seq<Action>, lo: nat, hi: nat, m: Moments, y: Symbol,
      t: Session, k: nat)
    requires Run(ss, acts) && lo <= k <= hi < |ss| && m.Within(lo, hi)
    requires DatasetVersion(ss[lo].log.versions) == DatasetVersion(ss[hi].log.versions)
    requires !PointAt(ss, m, y, t).origin.PendingApplication?
    ensures PointAt(ss, m, y, t) == Settled(ss[k], y, t)
  {
    PinnedInterval(ss, acts, lo, hi, m.present);
    PinnedInterval(ss, acts, lo, hi, m.rebases);
    PinnedInterval(ss, acts, lo, hi, m.owned);
    PinnedInterval(ss, acts, lo, hi, m.second);
    PinnedInterval(ss, acts, lo, hi, k);
    PresenceAcross(ss, acts, m.present, m.second, y, t);
    SettledStays(ss[m.second], ss[k]);
    PointSettles(ss, m, y, t);
  }

  lemma {:induction false} PointSettles(ss: seq<System>, m: Moments, y: Symbol, t: Session)
    requires |ss| > 0 && m.Within(0, |ss| - 1)
    requires SameTables(ss[m.second], ss[m.rebases]) && SameTables(ss[m.second], ss[m.owned])
    requires var s := ss[m.second];
      && (t in s.Content(y) ==> t in ss[m.present].Stored(y))
      && (t in ss[m.present].Stored(y) && t !in s.Content(y) ==>
            FirstClaim(s.log.events, y, t, false) >= 0 && LatestRebase(s.log.rebases, y, t) < 0
              && (y, t) !in s.log.owned)
    requires !PointAt(ss, m, y, t).origin.PendingApplication?
    ensures PointAt(ss, m, y, t) == Settled(ss[m.second], y, t)
  {
    assert FirstClaim([], y, t, true) < 0 && FirstClaim([], y, t, false) < 0;
  }

  function WindowAt(ss: seq<System>, m: Moments, y: Symbol, start: Session, end: Session): WindowQueries
    requires |ss| > 0 && m.Within(0, |ss| - 1)
  {
    AssembleWindow(ss[m.present].Stored(y), ss[m.owned].log.owned, ss[m.rebases].log.rebases,
                   ss[m.second].log.events, ss[m.second].Base(y), y, start, end)
  }

  /** The same for a window read in which nothing is pending. */
  lemma {:induction false} WindowCoherent(ss: seq<System>, acts: seq<Action>, lo: nat, hi: nat, m: Moments,
      y: Symbol, start: Session, end: Session, k: nat)
    requires Run(ss, acts) && lo <= k <= hi < |ss| && m.Within(lo, hi)
    requires DatasetVersion(ss[lo].log.versions) == DatasetVersion(ss[hi].log.versions)
    requires forall x | x in WindowAt(ss, m, y, start, end).Triples() :: !x.origin.PendingApplication?
    ensures WindowAt(ss, m, y, start, end).Triples() == SettledWindow(ss[k], y, start, end).Triples()
  {
    PinnedInterval(ss, acts, lo, hi, m.present);
    PinnedInterval(ss, acts, lo, hi, m.rebases);
    PinnedInterval(ss, acts, lo, hi, m.owned);
    PinnedInterval(ss, acts, lo, hi, m.second);
    PinnedInterval(ss, acts, lo, hi, k);
    SettledStays(ss[m.second], ss[k]);
    forall t
      ensures t in ss[m.second].Content(y) ==> t in ss[m.present].Stored(y)
      ensures t in ss[m.present].Stored(y) && t !in ss[m.second].Content(y) ==>
        && FirstClaim(ss[m.second].log.events, y, t, false) >= 0
        && LatestRebase(ss[m.second].log.rebases, y, t) < 0 && (y, t) !in ss[m.second].log.owned
    {
      PresenceAcross(ss, acts, m.present, m.second, y, t);
    }
    var s := ss[m.second];
    WindowSettles(ss[m.present].Stored(y), s.Content(y), s.log.owned, s.log.rebases, s.log.events, s.Base(y), y,
      start, end);
  }

  lemma {:induction false} AssembledClaims(present: Rows, owned: map<(Symbol, Session), Owner>,
      rs: seq<RebaseRecord>, es: seq<Event>,
                        base: Rows, y: Symbol, start: Session, end: Session, t: Session)
    requires start <= t <= end
    ensures t in AssembleWindow(present, owned, rs, es, base, y, start, end).pending <==>
      FirstClaim(es, y, t, false) >= 0
  {
    var i := FirstClaim(es, y, t, false);
    if i >= 0 { assert i in OpenIntents(es, y); }
    forall k: nat | k in OpenIntents(es, y) && t in es[k].Claimed() ensures i >= 0 {
      assert Claims(es, k, y, t, false);
    }
  }

  lemma {:induction false} NothingPending(present: Rows, owned: map<(Symbol, Session), Owner>, rs: seq<RebaseRecord>,
                       base: Rows, y: Symbol, start: Session, end: Session)
    ensures var q := AssembleWindow(present, owned, rs, [], base, y, start, end);
      q.pending == {} && q.rebasePending == {}
  {
  }

  lemma {:induction false} SettledRow(q: WindowQueries, q': WindowQueries, t: Session)
    requires q.applied == q'.applied && q.rebased == q'.rebased && q.base == q'.base && q'.pending == {}
      && q'.rebasePending == {}
    requires t in q'.present ==> t in q.present
    requires t in q.present && t !in q'.present ==> t in q.pending && t !in q.rebased && t !in q.applied
    requires t in q.Covered() ==> !q.Row(t).origin.PendingApplication?
    ensures t in q.Covered() <==> t in q'.Covered()
    ensures t in q.Covered() ==> q.Row(t) == q'.Row(t)
  {
  }

  lemma {:induction false} RowSettles(present: Rows, content: Rows, owned: map<(Symbol, Session), Owner>,
      rs: seq<RebaseRecord>, es: seq<Event>,
                   base: Rows, y: Symbol, start: Session, end: Session, t: Session)
    requires start <= t <= end
    requires t in content ==> t in present
    requires t in present && t !in content ==>
      FirstClaim(es, y, t, false) >= 0 && LatestRebase(rs, y, t) < 0 && (y, t) !in owned
    requires var q := AssembleWindow(present, owned, rs, es, base, y, start, end);
      t in q.Covered() ==> !q.Row(t).origin.PendingApplication?
    ensures var q, q' := AssembleWindow(present, owned, rs, es, base, y, start, end),
      AssembleWindow(content, owned, rs, [], base, y, start, end);
      (t in q.Covered() <==> t in q'.Covered()) && (t in q.Covered() ==> q.Row(t) == q'.Row(t))
  {
    var q, q' := AssembleWindow(present, owned, rs, es, base, y, start, end),
      AssembleWindow(content, owned, rs, [], base, y, start, end);
    AssembledClaims(present, owned, rs, es, base, y, start, end, t);
    NothingPending(content, owned, rs, base, y, start, end);
    SettledRow(q, q', t);
  }

  lemma {:induction false} SameTriples(q: WindowQueries, q': WindowQueries)
    requires forall t :: (t in q.Covered() <==> t in q'.Covered()) && (t in q.Covered() ==> q.Row(t) == q'.Row(t))
    ensures q.Triples() == q'.Triples()
  {
    var covered, covered' := q.Covered(), q'.Covered();
    forall t ensures t in covered <==> t in covered' { assert t in q.Covered() <==> t in q'.Covered(); }
    assert covered == covered';
  }

  lemma {:induction false} WindowSettles(present: Rows, content: Rows, owned: map<(Symbol, Session), Owner>,
      rs: seq<RebaseRecord>, es: seq<Event>,
                      base: Rows, y: Symbol, start: Session, end: Session)
    requires forall t ::
      && (t in content ==> t in present)
      && (t in present && t !in content ==>
        FirstClaim(es, y, t, false) >= 0 && LatestRebase(rs, y, t) < 0 && (y, t) !in owned)
    requires forall x | x in AssembleWindow(present, owned, rs, es, base, y, start, end).Triples() ::
      !x.origin.PendingApplication?
    ensures AssembleWindow(present, owned, rs, es, base, y, start, end).Triples()
         == AssembleWindow(content, owned, rs, [], base, y, start, end).Triples()
  {
    var q, q' := AssembleWindow(present, owned, rs, es, base, y, start, end),
      AssembleWindow(content, owned, rs, [], base, y, start, end);
    forall t
      ensures (t in q.Covered() <==> t in q'.Covered()) && (t in q.Covered() ==> q.Row(t) == q'.Row(t))
    {
      if start <= t <= end {
        assert t in q.Covered() ==> q.Row(t) in q.Triples();
        RowSettles(present, content, owned, rs, es, base, y, start, end, t);
      }
    }
    SameTriples(q, q');
  }
}
