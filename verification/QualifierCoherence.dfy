/** Why the log's cheap signature is enough to keep a cache of provenance answers, although it does
    not look at the market file, and what qualified evidence then says about the market. */
module QualifierCoherence {
  import opened MarketTypes
  import opened LogModel
  import opened Protocol
  import opened Invariant
  import opened InvariantHolder
  import opened Effects
  import opened Provenance
  import opened ProvenanceTheorems
  import opened BlockTheorems
  import opened BindingInterval
  import opened EvidenceBinding
  import opened Qualification

  /** `state_signature`: last event, resolutions, applied sessions, versions. */
  datatype Signature = Signature(events: nat, resolutions: nat, owned: nat, versions: nat)

  function SignatureOf(log: Log): Signature {
    Signature(|log.events|, |log.resolutions|, |log.owned|, |log.versions|)
  }

  // ------------------------------------------------------- an unchanged signature

  lemma {:induction false} EffectGrows(s: System, s': System, effect: Effect)
    requires Core(s) && Has(s, s', effect)
    ensures s.log.events <= s'.log.events && s.log.versions <= s'.log.versions && Kept(s, s')
  {
    KeptEffect(s, s', effect);
    if effect.Lands? { FinalizedTables(s, effect.intent, effect.bound); }
  }

  lemma {:induction false} LogGrows(ss: seq<System>, acts: seq<Action>, j: nat, k: nat)
    requires Run(ss, acts) && j <= k < |ss|
    ensures ss[j].log.events <= ss[k].log.events && ss[j].log.versions <= ss[k].log.versions && Kept(ss[j], ss[k])
  {
    hide Has, Explains, Inv, Core;
    if j < k {
      LogGrows(ss, acts, j, k - 1);
      var effect := RunEffect(ss, acts, k - 1);
      EffectGrows(ss[k - 1], ss[k], effect);
    }
  }

  lemma {:induction false} SameSizeMaps<K, V>(m: map<K, V>, n: map<K, V>)
    requires |m| == |n| && forall k | k in m :: k in n && n[k] == m[k]
    ensures m == n
  {
    assert m.Keys <= n.Keys;
    SameSizeSets(m.Keys, n.Keys);
  }

  lemma {:induction false} SameSizeSets<T>(a: set<T>, b: set<T>)
    requires a <= b && |a| == |b|
    ensures a == b
  {
    if x :| x in b && x !in a {
      assert a <= b - {x};
      SmallerSet(a, b - {x});
    }
  }

  lemma {:induction false} SmallerSet<T>(a: set<T>, b: set<T>)
    requires a <= b
    ensures |a| <= |b|
  {
    if a != {} {
      var x :| x in a;
      SmallerSet(a - {x}, b - {x});
    }
  }

  /** Nothing but market commits happened between two states with the same signature. */
  lemma {:induction false} SameSignature(ss: seq<System>, acts: seq<Action>, j: nat, k: nat)
    requires Run(ss, acts) && j <= k < |ss| && SignatureOf(ss[j].log) == SignatureOf(ss[k].log)
    ensures ss[j].log.events == ss[k].log.events && ss[j].log.resolutions == ss[k].log.resolutions
    ensures SameTables(ss[j], ss[k])
  {
    LogGrows(ss, acts, j, k);
    SameSizeMaps(ss[j].log.resolutions, ss[k].log.resolutions);
    TablesStay(ss, acts, j, k);
  }

  /** The classification of a session does not see market commits: a committed append is pending
      before and after its commit, because its intent was durable first. */
  lemma {:induction false} ProvenanceFollowsLog(s: System, s': System, y: Symbol, t: Session)
    requires Core(s) && Core(s') && AttributedAt(s, y, t) && AttributedAt(s', y, t)
    requires s.log.events == s'.log.events && SameTables(s, s')
    ensures SessionProvenance(s, y, t) == SessionProvenance(s', y, t)
  {
    var i := FirstClaim(s.log.events, y, t, false);
    if i >= 0 {
      ClaimedAttribution(s, y, t, i);
      ClaimedAttribution(s', y, t, i);
    } else {
      SettledStays(s, s');
      NoClaimIsSettled(s, y, t);
      NoClaimIsSettled(s', y, t);
    }
  }

  lemma {:induction false} ProvenanceKept(ss: seq<System>, acts: seq<Action>, j: nat, k: nat, y: Symbol, t: Session)
    requires Run(ss, acts) && j <= k < |ss| && SignatureOf(ss[j].log) == SignatureOf(ss[k].log)
    ensures SessionProvenance(ss[j], y, t) == SessionProvenance(ss[k], y, t)
  {
    SameSignature(ss, acts, j, k);
    RunInv(ss, acts, j);
    RunInv(ss, acts, k);
    RunAttributed(ss, acts, j);
    RunAttributed(ss, acts, k);
    assert AttributedAt(ss[j], y, t) && AttributedAt(ss[k], y, t);
    ProvenanceFollowsLog(ss[j], ss[k], y, t);
  }

  lemma {:induction false} WindowKept(ss: seq<System>, acts: seq<Action>, j: nat, k: nat, y: Symbol, start: Session,
      end: Session)
    requires Run(ss, acts) && j <= k < |ss| && SignatureOf(ss[j].log) == SignatureOf(ss[k].log)
    ensures ReadWindow(ss[j], y, start, end).Triples() == ReadWindow(ss[k], y, start, end).Triples()
  {
    var q, q' := ReadWindow(ss[j], y, start, end), ReadWindow(ss[k], y, start, end);
    forall t
      ensures (t in q.Covered() <==> t in q'.Covered()) && (t in q.Covered() ==> q.Row(t) == q'.Row(t))
    {
      if start <= t <= end {
        BulkAgrees(ss, acts, j, y, start, end, t);
        BulkAgrees(ss, acts, k, y, start, end, t);
        ProvenanceKept(ss, acts, j, k, y, t);
      } else {
        CoveredInside(ss[j], y, start, end, t);
        CoveredInside(ss[k], y, start, end, t);
      }
    }
    SameTriples(q, q');
  }

  // ----------------------------------------------------- reads spread over many moments

  /** The signature is the same at both moments. */
  ghost predicate Steady(ss: seq<System>, lo: nat, hi: nat)
    requires lo < |ss| && hi < |ss|
  {
    SignatureOf(ss[lo].log) == SignatureOf(ss[hi].log)
  }

  /** It was then the same at every moment between. */
  lemma {:induction false} SteadyBetween(ss: seq<System>, acts: seq<Action>, lo: nat, mid: nat, hi: nat)
    requires Run(ss, acts) && lo <= mid <= hi < |ss| && Steady(ss, lo, hi)
    ensures Steady(ss, lo, mid) && Steady(ss, mid, hi)
  {
    SameSignature(ss, acts, lo, hi);
    LogGrows(ss, acts, lo, mid);
    LogGrows(ss, acts, mid, hi);
    KeptBetween(ss[lo], ss[mid], ss[hi]);
    assert ss[mid].log.events == ss[lo].log.events && ss[mid].log.versions == ss[lo].log.versions;
    TablesStay(ss, acts, lo, mid);
  }

  lemma {:induction false} KeptBetween(s: System, m: System, e: System)
    requires Kept(s, m) && Kept(m, e) && s.log.resolutions == e.log.resolutions
    ensures m.log.resolutions == s.log.resolutions
  {
    assert m.log.resolutions.Keys == s.log.resolutions.Keys;
  }

  /** Queries answered at several moments of a steady interval give what any of its states says. */
  lemma {:induction false} PointSteady(ss: seq<System>, acts: seq<Action>, lo: nat, hi: nat, m: Moments, y: Symbol,
      t: Session, k: nat)
    requires Run(ss, acts) && lo <= k <= hi < |ss| && m.Within(lo, hi) && Steady(ss, lo, hi)
    ensures PointAt(ss, m, y, t) == SessionProvenance(ss[k], y, t)
  {
    MomentsSteady(ss, acts, lo, hi, m);
    SteadyBetween(ss, acts, lo, k, hi);
    SteadyBetween(ss, acts, lo, m.present, hi);
    if k <= m.present {
      ProvenanceKept(ss, acts, k, m.present, y, t);
    } else {
      ProvenanceKept(ss, acts, m.present, k, y, t);
    }
  }

  lemma {:induction false} WindowSteady(ss: seq<System>, acts: seq<Action>, lo: nat, hi: nat, m: Moments, y: Symbol,
      start: Session, end: Session, k: nat)
    requires Run(ss, acts) && lo <= k <= hi < |ss| && m.Within(lo, hi) && Steady(ss, lo, hi)
    ensures WindowAt(ss, m, y, start, end).Triples() == ReadWindow(ss[k], y, start, end).Triples()
  {
    MomentsSteady(ss, acts, lo, hi, m);
    SteadyBetween(ss, acts, lo, k, hi);
    SteadyBetween(ss, acts, lo, m.present, hi);
    if k <= m.present {
      WindowKept(ss, acts, k, m.present, y, start, end);
    } else {
      WindowKept(ss, acts, m.present, k, y, start, end);
    }
  }

  lemma {:induction false} MomentSteady(ss: seq<System>, acts: seq<Action>, lo: nat, hi: nat, i: nat)
    requires Run(ss, acts) && lo <= i <= hi < |ss| && Steady(ss, lo, hi)
    ensures ss[i].log.events == ss[lo].log.events && ss[i].log.resolutions == ss[lo].log.resolutions
    ensures SameTables(ss[lo], ss[i])
  {
    SteadyBetween(ss, acts, lo, i, hi);
    SameSignature(ss, acts, lo, i);
  }

  lemma {:induction false} MomentsSteady(ss: seq<System>, acts: seq<Action>, lo: nat, hi: nat, m: Moments)
    requires Run(ss, acts) && lo <= hi < |ss| && m.Within(lo, hi) && Steady(ss, lo, hi)
    ensures forall y, t :: PointAt(ss, m, y, t) == SessionProvenance(ss[m.present], y, t)
    ensures forall y, start, end :: WindowAt(ss, m, y, start, end) == ReadWindow(ss[m.present], y, start, end)
  {
    hide Run;
    MomentSteady(ss, acts, lo, hi, m.present);
    MomentSteady(ss, acts, lo, hi, m.first);
    MomentSteady(ss, acts, lo, hi, m.rebases);
    MomentSteady(ss, acts, lo, hi, m.owned);
    MomentSteady(ss, acts, lo, hi, m.second);
  }

  /** The registered baseline never changes. */
  lemma {:induction false} BaselineStays(ss: seq<System>, acts: seq<Action>, j: nat, k: nat)
    requires Run(ss, acts) && j <= k < |ss|
    ensures ss[k].baseline == ss[j].baseline
  {
    if j < k {
      BaselineStays(ss, acts, j, k - 1);
      var effect := RunEffect(ss, acts, k - 1);
    }
  }

  lemma {:induction false} DriftSteady(ss: seq<System>, acts: seq<Action>, lo: nat, hi: nat, r: Record)
    requires Run(ss, acts) && lo <= hi < |ss| && Steady(ss, lo, hi)
    ensures Drifted(ss[lo], r) == Drifted(ss[hi], r)
  {
    hide Run;
    var y, t := r.dep.symbol, r.dep.session;
    if r.dep.coverage.Window? && r.dep.window.Some? { WindowKept(ss, acts, lo, hi, y, r.dep.window.value, t); }
    ProvenanceKept(ss, acts, lo, hi, y, t);
  }

  lemma {:induction false} EvaluateSame(s: System, s': System, p: Part)
    requires s'.baseline == s.baseline && Blocks(s'.log) == Blocks(s.log)
    requires forall r :: Drifted(s', r) == Drifted(s, r)
    ensures PartEvaluation(Some(s'), p) == PartEvaluation(Some(s), p)
  {
    hide Drifted, Blocks;
    if p.0.Some? {
      var b, relevant := p.0.value, Relevant(p.0.value, p.1);
      assert BaseStates(Some(s'), b, relevant) == BaseStates(Some(s), b, relevant);
      assert EvaluationReasons(Some(s'), b, relevant) == EvaluationReasons(Some(s), b, relevant);
    }
  }

  /** While the signature stands, every state of the log gives the same verdict. */
  lemma {:induction false} QualifySteady(ss: seq<System>, acts: seq<Action>, lo: nat, hi: nat, parts: seq<Part>,
      reviews: seq<Review>)
    requires Run(ss, acts) && lo <= hi < |ss| && Steady(ss, lo, hi)
    ensures Qualify(Some(ss[hi]), parts, reviews) == Qualify(Some(ss[lo]), parts, reviews)
  {
    var s, s' := ss[lo], ss[hi];
    SameSignature(ss, acts, lo, hi);
    forall r ensures Drifted(s', r) == Drifted(s, r) { DriftSteady(ss, acts, lo, hi, r); }
    assert Blocks(s'.log) == Blocks(s.log);
    hide Drifted, Blocks, Run;
    forall p ensures PartEvaluation(Some(s'), p) == PartEvaluation(Some(s), p) { EvaluateSame(s, s', p); }
    hide PartEvaluation;
    assert States(Some(s'), parts) == States(Some(s), parts) && BaseOf(Some(s'), parts) == BaseOf(Some(s), parts);
    assert Reasons(Some(s'), parts) == Reasons(Some(s), parts);
  }

  // ------------------------------------------- what qualified evidence says of the market

  /** A record that describes a state in which nothing claims its sessions has not drifted there: a
      binding just made qualifies unless something happened since. */
  lemma {:induction false} FreshRecordHolds(ss: seq<System>, acts: seq<Action>, k: nat, r: Record)
    requires Run(ss, acts) && k < |ss| && r.dep.Valid() && Describes(ss[k], r) && !ClaimedIn(ss[k], r.dep)
    requires !r.dep.coverage.Unproven?
    ensures !Drifted(ss[k], r)
  {
    var s, y, t := ss[k], r.dep.symbol, r.dep.session;
    RunInv(ss, acts, k);
    RunAttributed(ss, acts, k);
    if r.dep.coverage.Point? {
      assert AttributedAt(s, y, t);
      UnclaimedSession(s, r.dep, t);
      NoClaimIsSettled(s, y, t);
    } else {
      UnclaimedWindow(s, r.dep);
    }
  }

  lemma {:induction false} UnclaimedSession(s: System, d: Dependency, t: Session)
    requires !ClaimedIn(s, d) && d.Low() <= t <= d.session
    ensures FirstClaim(s.log.events, d.symbol, t, false) < 0
  {
    if FirstClaim(s.log.events, d.symbol, t, false) >= 0 { ClaimMeans(s, d, t, false); }
  }

  lemma {:induction false} UnclaimedWindow(s: System, d: Dependency)
    requires Core(s) && Attributed(s) && !ClaimedIn(s, d) && d.Valid() && d.coverage.Window?
    ensures ReadWindow(s, d.symbol, d.window.value, d.session).Triples() == SettledWindow(s, d.symbol,
      d.window.value, d.session).Triples()
  {
    var y, start, end, es := d.symbol, d.window.value, d.session, s.log.events;
    var q, q' := ReadWindow(s, y, start, end), SettledWindow(s, y, start, end);
    forall t
      ensures (t in q.Covered() <==> t in q'.Covered()) && (t in q.Covered() ==> q.Row(t) == q'.Row(t))
    {
      if start <= t <= end {
        UnclaimedSession(s, d, t);
        UnclaimedValue(s, y, t);
        UnclaimedRow(s.Stored(y), s.Content(y), s.log.owned, s.log.rebases, es, s.Base(y), y, start, end, t);
      }
    }
    SameTriples(q, q');
  }

  lemma {:induction false} UnclaimedRow(present: Rows, content: Rows, owned: map<(Symbol, Session), Owner>,
      rs: seq<RebaseRecord>, es: seq<Event>,
                     base: Rows, y: Symbol, start: Session, end: Session, t: Session)
    requires start <= t <= end && (t in present <==> t in content) && FirstClaim(es, y, t, false) < 0
    ensures var q, q' := AssembleWindow(present, owned, rs, es, base, y, start, end),
      AssembleWindow(content, owned, rs, [], base, y, start, end);
      (t in q.Covered() <==> t in q'.Covered()) && (t in q.Covered() ==> q.Row(t) == q'.Row(t))
  {
    AssembledClaims(present, owned, rs, es, base, y, start, end, t);
    NothingPending(content, owned, rs, base, y, start, end);
    assert AssembleWindow(present, owned, rs, es, base, y, start, end).Sound();
  }

  /** Qualified evidence is about the market as it is: each consulted point session is stored now,
      with the value the recorded observation supplied. */
  lemma {:induction false} QualifiedIsStored(ss: seq<System>, acts: seq<Action>, k: nat, parts: seq<Part>,
      reviews: seq<Review>, p: Part, r: Record)
    requires Run(ss, acts) && k < |ss|
    requires Qualify(Some(ss[k]), parts, reviews).state.Qualified()
    requires p in parts && p.0.Some? && r in Relevant(p.0.value, p.1) && r.dep.coverage.Point?
    ensures var y, t := r.dep.symbol, r.dep.session;
      && t in ss[k].Stored(y) && r.obs.Some? && r.version.Some?
      && Supplied(ss[k].log.versions, y, t, ss[k].Stored(y)[t], r.obs.value, r.version.value)
  {
    QualifiedExactly(Some(ss[k]), parts, reviews);
    assert Clean(ss[k], p);
    AttributionIsTrue(ss, acts, k, r.dep.symbol, r.dep.session);
  }

  /** A window lineage as every read records it. */
  ghost predicate Summed(r: Record) {
    && r.dep.coverage.Window? && r.dep.window.Some? && r.lineage.Some?
    && Histogram(r.lineage.value.counts, r.lineage.value.triples)
    && r.origin == Known(ReduceWindowOrigin(r.lineage.value.counts))
  }

  /** The recorded session is stored now, with the value its observation supplied. */
  ghost predicate StoredAsRecorded(s: System, y: Symbol, t: Session, triples: set<Triple>) {
    var a := SessionProvenance(s, y, t);
    && t in s.Stored(y) && a.obs.Some? && a.version.Some? && Triple(t, Observation, a.obs) in triples
    && Supplied(s.log.versions, y, t, s.Stored(y)[t], a.obs.value, a.version.value)
  }

  /** The same of each consulted window: its recorded sessions are exactly the stored ones, and each is
      stored now with the value the observation recorded for it supplied. */
  lemma {:induction false} QualifiedWindowIsStored(ss: seq<System>, acts: seq<Action>, k: nat, parts: seq<Part>,
      reviews: seq<Review>, p: Part, r: Record,
                                   t: Session)
    requires Run(ss, acts) && k < |ss|
    requires Qualify(Some(ss[k]), parts, reviews).state.Qualified()
    requires p in parts && p.0.Some? && r in Relevant(p.0.value, p.1) && Summed(r)
      && r.dep.window.value <= t <= r.dep.session
    ensures t in ss[k].Stored(r.dep.symbol) <==> exists x :: x in r.lineage.value.triples && x.session == t
    ensures t in ss[k].Stored(r.dep.symbol) ==> StoredAsRecorded(ss[k], r.dep.symbol, t, r.lineage.value.triples)
  {
    hide Qualify, Run, Relevant, Summed, Drifted, StoredAsRecorded;
    QualifiedExactly(Some(ss[k]), parts, reviews);
    assert Clean(ss[k], p);
    WindowIsStored(ss, acts, k, r, t);
  }

  lemma {:induction false} WindowIsStored(ss: seq<System>, acts: seq<Action>, k: nat, r: Record, t: Session)
    requires Run(ss, acts) && k < |ss| && r.origin == Known(Observation) && !Drifted(ss[k], r)
    requires Summed(r) && r.dep.window.value <= t <= r.dep.session
    ensures t in ss[k].Stored(r.dep.symbol) <==> exists x :: x in r.lineage.value.triples && x.session == t
    ensures t in ss[k].Stored(r.dep.symbol) ==> StoredAsRecorded(ss[k], r.dep.symbol, t, r.lineage.value.triples)
  {
    hide Run, ReadWindow, SessionProvenance, Supplied, Histogram, ReduceWindowOrigin;
    var y, triples := r.dep.symbol, r.lineage.value.triples;
    var q := ReadWindow(ss[k], y, r.dep.window.value, r.dep.session);
    WindowReducedToWorst(r.lineage.value.counts, triples);
    BulkAgrees(ss, acts, k, y, r.dep.window.value, r.dep.session, t);
    AttributionIsTrue(ss, acts, k, y, t);
    if t in q.Covered() { assert q.Row(t) in triples; }
  }
}
