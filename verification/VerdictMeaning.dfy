/** What each verdict on bound evidence asserts, in terms of the log tables, the recorded dependencies and the
    review history alone. */
module VerdictMeaning {
  import opened MarketTypes
  import opened LogModel
  import opened Protocol
  import opened Provenance
  import opened EvidenceBinding
  import opened Qualification

  // ---------------------------------------------------------------- single dependencies

  /** The binding is whole: written under a bound log, and hashing to the identity it carries. */
  predicate Whole(b: Bound) { b.logBound && (b.identity.Some? ==> b.identity.value == b.payload) }

  /** The part is a whole binding and consults this dependency. */
  predicate Consults(p: Part, r: Record) {
    p.0.Some? && Whole(p.0.value) && r in p.0.value.payload.dependencies && (p.1.None? || r.dep.symbol in p.1.value)
  }

  /** Nothing was stored for the dependency when it was bound, or nobody could tell. */
  predicate Gone(r: Record) {
    r.origin != Known(Observation) && r.origin != Known(BaselineLegacy) && r.origin != Known(RebasedHistory)
  }

  /** The log attributes the consumed session, or one of the window, to something else than was recorded. */
  ghost predicate Moved(s: System, r: Record) {
    var y, t := r.dep.symbol, r.dep.session;
    if r.dep.coverage.Window? && r.dep.window.Some? then
      || r.lineage.None?
      || exists x :: !(x in r.lineage.value.triples <==> x in ReadWindow(s, y, r.dep.window.value, t).Triples())
    else
      var now := SessionProvenance(s, y, t);
      !(r.origin == Known(now.origin) && r.obs == now.obs && r.version == now.version)
  }

  /** Block `b` of the log is unresolved and contests the dependency: it names no session, or the consumed one, or
      one from the start of the consumed window up to the consumed session. */
  ghost predicate ContestedBy(log: Log, r: Record, b: nat) {
    && b < |log.events| && log.events[b].Blocked? && b !in log.resolutions && log.events[b].obs.Symbol() == r.dep.symbol
    && var affected, window, consumed := log.events[b].block.affected, r.dep.window, r.dep.session;
    affected == {} || exists t :: t in affected && if window.None? then t == consumed else window.value <= t <= consumed
  }

  // ------------------------------------------------------------------------ the parts

  /** What puts a part in each class, worst first. */
  ghost predicate LacksProvenance(s: Option<System>, p: Part) {
    p.0.Some? && (!Whole(p.0.value) || s.None? || exists r :: Consults(p, r) && Gone(r))
  }

  ghost predicate OnOtherBasis(s: Option<System>, p: Part) {
    s.Some? && p.0.Some? && Whole(p.0.value)
    && (p.0.value.payload.baseline != s.value.baseline || exists r :: Consults(p, r) && !Gone(r) && Moved(s.value, r))
  }

  ghost predicate Contested(s: Option<System>, p: Part) {
    s.Some? && exists r, b :: Consults(p, r) && ContestedBy(s.value.log, r, b)
  }

  ghost predicate OnLegacy(p: Part) {
    exists r :: Consults(p, r) && (r.origin == Known(BaselineLegacy) || r.origin == Known(RebasedHistory))
  }

  /** The state of a part without its blocks. */
  ghost function BaseTold(s: Option<System>, p: Part): State {
    if p.0.None? then LegacyUnbound
    else if LacksProvenance(s, p) then MissingProvenance
    else if OnOtherBasis(s, p) then IncompatibleBasis
    else if OnLegacy(p) then BoundLegacyInput
    else ProvenanceVerified
  }

  ghost function StateTold(s: Option<System>, p: Part): State {
    var base := BaseTold(s, p);
    if p.0.None? || base.MissingProvenance? || base.IncompatibleBasis? || !Contested(s, p) then base
    else UnresolvedRevision
  }

  lemma {:induction false} BlockHits(log: Log, b: nat, r: Record)
    requires b < |log.events| && log.events[b].Blocked? && b !in log.resolutions
    ensures var block := BlockInfo(b, log.events[b].obs.Symbol(), log.events[b].block.affected);
      block in Blocks(log) && (Hits(block, r) <==> ContestedBy(log, r, b))
  {
    assert Unresolved(log, b);
  }

  lemma {:induction false} BlockFrom(log: Log, block: BlockInfo)
    requires block in Blocks(log)
    ensures block.id < |log.events| && log.events[block.id].Blocked? && block.id !in log.resolutions
    ensures block == BlockInfo(block.id, log.events[block.id].obs.Symbol(), log.events[block.id].block.affected)
  {
  }

  lemma {:induction false} HitsExactly(log: Log, r: Record)
    ensures (exists block | block in Blocks(log) :: Hits(block, r)) <==> exists b: nat :: ContestedBy(log, r, b)
  {
    hide Blocks, Hits;
    if block :| block in Blocks(log) && Hits(block, r) {
      BlockFrom(log, block);
      BlockHits(log, block.id, r);
    }
    if b: nat :| ContestedBy(log, r, b) { BlockHits(log, b, r); }
  }

  lemma {:induction false} DriftExactly(s: System, r: Record)
    ensures Drifted(s, r) <==> Moved(s, r)
  {
    hide SessionProvenance, ReadWindow;
    if r.dep.coverage.Window? && r.dep.window.Some? && r.lineage.Some? {
      SameTriples(r.lineage.value.triples, ReadWindow(s, r.dep.symbol, r.dep.window.value, r.dep.session).Triples());
    }
  }

  lemma {:induction false} SameTriples(a: set<Triple>, b: set<Triple>)
    ensures a == b <==> forall x :: x in a <==> x in b
  {
    if forall x :: x in a <==> x in b {
      assert a <= b by { forall x | x in a ensures x in b {} }
      assert b <= a by { forall x | x in b ensures x in a {} }
    }
  }

  lemma {:induction false} OriginsExactly(r: Record)
    ensures IsMissing(r.origin) <==> Gone(r)
    ensures IsLegacy(r.origin) <==> r.origin == Known(BaselineLegacy) || r.origin == Known(RebasedHistory)
  {
  }

  lemma {:induction false} RelevantExactly(p: Part, r: Record)
    requires p.0.Some? && Whole(p.0.value)
    ensures r in Relevant(p.0.value, p.1) <==> Consults(p, r)
  {
  }

  /** The base state of a whole binding. */
  lemma {:induction false} BaseExactly(s: Option<System>, p: Part)
    requires p.0.Some? && Whole(p.0.value)
    ensures var states := BaseStates(s, p.0.value, Relevant(p.0.value, p.1));
      && Worst(states) == BaseTold(s, p) && states != {}
      && forall x | x in states :: x.Severity() < 6 && BaseTold(s, p).Severity() <= x.Severity()
  {
    var relevant := Relevant(p.0.value, p.1);
    forall r
      ensures r in relevant <==> Consults(p, r)
      ensures IsMissing(r.origin) <==> Gone(r)
      ensures IsLegacy(r.origin) <==> r.origin == Known(BaselineLegacy) || r.origin == Known(RebasedHistory)
      ensures s.Some? ==> (Drifted(s.value, r) <==> Moved(s.value, r))
    {
      RelevantExactly(p, r);
      OriginsExactly(r);
      if s.Some? { DriftExactly(s.value, r); }
    }
    hide Relevant, Consults, IsMissing, Gone, IsLegacy, Drifted, Moved;
    WorstIsLeast(BaseStates(s, p.0.value, relevant));
  }

  lemma {:induction false} ContestedExactly(s: System, p: Part)
    requires p.0.Some? && Whole(p.0.value)
    ensures BlockedNow(Some(s), Relevant(p.0.value, p.1)) <==> Contested(Some(s), p)
  {
    var relevant := Relevant(p.0.value, p.1);
    forall r
      ensures r in relevant <==> Consults(p, r)
      ensures (exists block | block in Blocks(s.log) :: Hits(block, r)) <==> exists b: nat :: ContestedBy(s.log, r, b)
    {
      RelevantExactly(p, r);
      HitsExactly(s.log, r);
    }
    hide Relevant, Consults, Hits, ContestedBy, Blocks;
  }

  /** A block worsens a base state exactly when it is better than a revision quarantine. */
  lemma {:induction false} BlockWorsens(states: set<State>, blocked: bool)
    requires states != {} && forall x | x in states :: x.Severity() < 6
    ensures Worst(states + if blocked then {UnresolvedRevision} else {}) ==
      if blocked && Worst(states).Severity() > 2 then UnresolvedRevision else Worst(states)
  {
    WorstIsLeast(states);
    if blocked { WorstIsLeast(states + {UnresolvedRevision}); } else { assert states + {} == states; }
  }

  lemma {:induction false} BindingExactly(s: Option<System>, p: Part)
    requires p.0.Some? && Whole(p.0.value)
    ensures PartEvaluation(s, p).state == StateTold(s, p) && PartEvaluation(s, p).base == BaseTold(s, p)
  {
    var relevant := Relevant(p.0.value, p.1);
    var states := BaseStates(s, p.0.value, relevant);
    BaseExactly(s, p);
    if s.Some? { ContestedExactly(s.value, p); }
    BlockWorsens(states, BlockedNow(s, relevant));
    BaseRange(s, p);
    hide BaseTold, BaseStates, BlockedNow, Contested, Relevant, EvaluationReasons, Worst, WorstIn;
  }

  lemma {:induction false} BaseRange(s: Option<System>, p: Part)
    ensures var base := BaseTold(s, p);
      (base.MissingProvenance? || base.IncompatibleBasis? <==> base.Severity() <= 2) && base.Severity() < 6
    ensures s.None? && p.0.Some? ==> BaseTold(s, p).MissingProvenance?
  {
    hide OnOtherBasis, OnLegacy, Consults;
  }

  /** Every part is classed by what it lacks, and by nothing else. */
  lemma {:induction false} PartExactly(s: Option<System>, p: Part)
    ensures PartEvaluation(s, p).state == StateTold(s, p) && PartEvaluation(s, p).base == BaseTold(s, p)
  {
    if p.0.Some? && Whole(p.0.value) { BindingExactly(s, p); }
  }

  // ------------------------------------------------------------------------ the verdict

  /** The worst class any part is in. */
  ghost predicate WorstPart(s: Option<System>, parts: seq<Part>, state: State) {
    && (exists p :: p in parts && StateTold(s, p) == state)
    && forall p | p in parts :: state.Severity() <= StateTold(s, p).Severity()
  }

  lemma {:induction false} ComputedExactly(s: Option<System>, parts: seq<Part>)
    ensures if parts == [] then Computed(s, parts).LegacyUnbound? else WorstPart(s, parts, Computed(s, parts))
  {
    forall p ensures PartEvaluation(s, p).state == StateTold(s, p) { PartExactly(s, p); }
    hide PartEvaluation, StateTold;
    if parts == [] {
      assert States(s, parts) == {};
      WorstIsLeast({LegacyUnbound});
    } else {
      forall p | p in parts
        ensures Computed(s, parts).Severity() <= StateTold(s, p).Severity() && Computed(s, parts) in States(s, parts)
      {
        SomeState(s, parts, p);
      }
      SomeState(s, parts, parts[0]);
      var p :| p in parts && PartEvaluation(s, p).state == Computed(s, parts);
      assert p in parts && StateTold(s, p) == Computed(s, parts);
    }
  }

  ghost predicate SomePart(s: Option<System>, parts: seq<Part>, state: State) {
    exists p :: p in parts && StateTold(s, p) == state
  }

  /** The order of the classes, worst first. */
  lemma {:induction false} OrderExactly(s: Option<System>, parts: seq<Part>)
    ensures Computed(s, parts) ==
      if SomePart(s, parts, MissingProvenance) then MissingProvenance
      else if SomePart(s, parts, IncompatibleBasis) then IncompatibleBasis
      else if SomePart(s, parts, UnresolvedRevision) then UnresolvedRevision
      else if SomePart(s, parts, LegacyUnbound) || parts == [] then LegacyUnbound
      else if SomePart(s, parts, BoundLegacyInput) then BoundLegacyInput
      else ProvenanceVerified
  {
    ComputedExactly(s, parts);
    StateBelowBase(s, parts);
    hide StateTold, Computed, ComputedBase;
    forall state | SomePart(s, parts, state) ensures Computed(s, parts).Severity() <= state.Severity() {}
    assert parts != [] ==> SomePart(s, parts, Computed(s, parts));
  }

  /** No review stands: there is no rejection that was not superseded and no acceptance. */
  ghost predicate Unreviewed(reviews: seq<Review>) {
    && (forall i :: !RejectionStands(reviews, i)) && forall i | 0 <= i < |reviews| :: !reviews[i].Accept?
  }

  /** Without a standing review the verdict is the worst class of the parts. */
  lemma {:induction false} UnreviewedVerdict(s: Option<System>, parts: seq<Part>, reviews: seq<Review>)
    requires Unreviewed(reviews)
    ensures Fold(reviews) == Standing(false, None) && Qualify(s, parts, reviews).state == Computed(s, parts)
  {
    hide Computed, ComputedBase;
    FoldMeans(reviews);
  }

  /** A binding nothing but unresolved blocks can object to: whole, on the present baseline, with every consulted
      dependency observed and unmoved. */
  ghost predicate Spotless(s: System, p: Part) {
    && p.0.Some? && Whole(p.0.value) && p.0.value.payload.baseline == s.baseline
    && forall r | Consults(p, r) :: r.origin == Known(Observation) && !Moved(s, r)
  }

  ghost predicate Uncontested(s: System, p: Part) {
    forall r, b: nat | Consults(p, r) :: !ContestedBy(s.log, r, b)
  }

  lemma {:induction false} SpotlessState(s: Option<System>, p: Part)
    ensures StateTold(s, p).ProvenanceVerified? <==> s.Some? && Spotless(s.value, p) && Uncontested(s.value, p)
    ensures s.Some? && Spotless(s.value, p) && !Uncontested(s.value, p) ==> StateTold(s, p).UnresolvedRevision?
    ensures StateTold(s, p).Severity() < 6
  {
    hide Consults, Moved, ContestedBy;
  }

  /** Evidence is verified without a review exactly when there is some, the log can be read, every binding is
      spotless and no unresolved block of a consulted symbol names no session, the consumed one or one of the
      consumed window. */
  lemma {:induction false} VerifiedExactly(s: Option<System>, parts: seq<Part>, reviews: seq<Review>)
    ensures Qualify(s, parts, reviews).state.ProvenanceVerified? <==>
      && s.Some? && parts != [] && !Fold(reviews).rejected
      && forall p | p in parts :: Spotless(s.value, p) && Uncontested(s.value, p)
  {
    hide StateTold, Spotless, Uncontested, Computed, Fold;
    ComputedExactly(s, parts);
    forall p
      ensures StateTold(s, p).ProvenanceVerified? <==> s.Some? && Spotless(s.value, p) && Uncontested(s.value, p)
      ensures StateTold(s, p).Severity() < 6
    {
      SpotlessState(s, p);
    }
  }

  /** Spotless, unreviewed evidence that an unresolved block contests is in quarantine for that revision. */
  lemma {:induction false} ContestedIsQuarantined(s: System, parts: seq<Part>, reviews: seq<Review>)
    requires Unreviewed(reviews) && (forall p | p in parts :: Spotless(s, p))
    requires exists p :: p in parts && !Uncontested(s, p)
    ensures Qualify(Some(s), parts, reviews).state.UnresolvedRevision?
  {
    UnreviewedVerdict(Some(s), parts, reviews);
    ComputedExactly(Some(s), parts);
    hide StateTold, Spotless, Uncontested, Computed, Fold, Qualify, Unreviewed;
    var q :| q in parts && !Uncontested(s, q);
    var p :| p in parts && StateTold(Some(s), p) == Computed(Some(s), parts);
    SpotlessState(Some(s), q);
    SpotlessState(Some(s), p);
  }

  // ---------------------------------------------------------------- reasons and reviews

  /** What each reason asserts about the part it was found in. */
  ghost predicate ReasonTold(s: Option<System>, p: Part, x: Reason) {
    var whole := p.0.Some? && Whole(p.0.value);
    match x
    case NoBinding => p.0.None?
    case LogState => p.0.Some? && !p.0.value.logBound
    case IdentityMismatch =>
      p.0.Some? && p.0.value.logBound && p.0.value.identity.Some? && p.0.value.identity.value != p.0.value.payload
    case MissingOrigin(r) => Consults(p, r) && Gone(r)
    case LogUnavailable => whole && s.None?
    case BaselineChanged => whole && s.Some? && p.0.value.payload.baseline != s.value.baseline
    case Drift(r) =>
      s.Some? && Consults(p, r) && p.0.value.payload.baseline == s.value.baseline && !Gone(r) && Moved(s.value, r)
    case HitByBlock(b, r) => s.Some? && Consults(p, r) && ContestedBy(s.value.log, r, b)
    case LegacyDependency =>
      && whole && s.Some? && !LacksProvenance(s, p) && !OnOtherBasis(s, p)
      && exists r :: Consults(p, r) && (r.origin == Known(BaselineLegacy) || r.origin == Known(RebasedHistory))
  }

  lemma {:induction false} BindingReasons(s: Option<System>, p: Part, x: Reason)
    requires p.0.Some? && Whole(p.0.value)
    ensures x in EvaluationReasons(s, p.0.value, Relevant(p.0.value, p.1)) <==> ReasonTold(s, p, x)
  {
    BaseExactly(s, p);
    match x
    case MissingOrigin(r) =>
      RelevantExactly(p, r);
      OriginsExactly(r);
    case Drift(r) =>
      RelevantExactly(p, r);
      OriginsExactly(r);
      if s.Some? { DriftExactly(s.value, r); }
    case HitByBlock(b, r) =>
      RelevantExactly(p, r);
      if s.Some? { HitReason(s.value.log, b, r); }
    case _ =>
  }

  lemma {:induction false} HitReason(log: Log, b: nat, r: Record)
    ensures (exists block :: block in Blocks(log) && Hits(block, r) && block.id == b) <==> ContestedBy(log, r, b)
  {
    hide Blocks, Hits;
    if block :| block in Blocks(log) && Hits(block, r) && block.id == b {
      BlockFrom(log, block);
      BlockHits(log, b, r);
    }
    if ContestedBy(log, r, b) { BlockHits(log, b, r); }
  }

  lemma {:induction false} PartReasons(s: Option<System>, p: Part, x: Reason)
    ensures x in PartEvaluation(s, p).reasons <==> ReasonTold(s, p, x)
  {
    if p.0.Some? && Whole(p.0.value) { BindingReasons(s, p, x); }
    hide EvaluationReasons, Gone, Moved, ContestedBy, LacksProvenance, OnOtherBasis;
  }

  /** The worst class of the parts without their blocks. */
  lemma {:induction false} BaseComputedExactly(s: Option<System>, parts: seq<Part>)
    ensures if parts == [] then ComputedBase(s, parts).LegacyUnbound?
      else
        && (exists p :: p in parts && BaseTold(s, p) == ComputedBase(s, parts))
        && forall p | p in parts :: ComputedBase(s, parts).Severity() <= BaseTold(s, p).Severity()
  {
    forall p ensures PartEvaluation(s, p).base == BaseTold(s, p) { PartExactly(s, p); }
    hide PartEvaluation, BaseTold;
    if parts == [] {
      assert BaseOf(s, parts) == {};
      WorstIsLeast({LegacyUnbound});
    } else {
      forall p | p in parts ensures ComputedBase(s, parts).Severity() <= BaseTold(s, p).Severity() {
        SomeState(s, parts, p);
      }
      SomeState(s, parts, parts[0]);
      var p :| p in parts && PartEvaluation(s, p).base == ComputedBase(s, parts);
      assert p in parts && BaseTold(s, p) == ComputedBase(s, parts);
    }
  }

  /** Which identity a part contributes to the reviewed basis: its own, or that of the binding it was copied from. */
  predicate Names(p: Part, identity: Payload) {
    && p.0.Some?
    && if p.0.value.identity.Some? then p.0.value.identity == Some(identity) else p.0.value.source == Some(identity)
  }

  /** The acceptance in force: no rejection stood when it was made, none and no other acceptance came since. */
  ghost predicate InForce(reviews: seq<Review>, i: int) {
    && 0 <= i < |reviews| && reviews[i].Accept? && (forall j :: !RejectionStands(reviews[..i], j))
    && forall j | i < j < |reviews| :: !reviews[j].Reject? && !reviews[j].Accept?
  }

  /** The whole result: its reasons and the identities it names, part by part, its class before reviews with and
      without blocks, and what the reviews make of it. */
  lemma {:induction false} ResultExactly(s: Option<System>, parts: seq<Part>, reviews: seq<Review>)
    ensures var v := Qualify(s, parts, reviews);
      && (forall x :: x in v.reasons <==> exists p :: p in parts && ReasonTold(s, p, x))
      && (forall x :: x in v.basis.identities <==> exists p :: p in parts && Names(p, x))
      && v.basis.reasons == v.reasons && v.basis.state == Computed(s, parts) && v.base == ComputedBase(s, parts)
      && (v.state.ReviewedRejected? <==> exists i :: RejectionStands(reviews, i))
      && (v.state.ReviewedAccepted? <==>
            && (forall i :: !RejectionStands(reviews, i))
            && (exists i :: InForce(reviews, i) && reviews[i].basis == v.basis)
            && v.basis.state.UnresolvedRevision? && v.base.ProvenanceVerified?)
      && (!v.state.ReviewedRejected? && !v.state.ReviewedAccepted? ==> v.state == v.basis.state)
  {
    forall x ensures x in Reasons(s, parts) <==> exists p :: p in parts && ReasonTold(s, p, x) {
      ReasonsFound(s, parts, x);
    }
    forall x ensures x in Identities(parts) <==> exists p :: p in parts && Names(p, x) {
      IdentitiesFound(parts, x);
    }
    StateBelowBase(s, parts);
    hide Reasons, Identities, Computed, ComputedBase, Fold, ReasonTold, Names, InForce, RejectionStands;
    ReviewsInForce(reviews, BasisOf(s, parts));
  }

  lemma {:induction false} ReasonsFound(s: Option<System>, parts: seq<Part>, x: Reason)
    ensures x in Reasons(s, parts) <==> exists p :: p in parts && ReasonTold(s, p, x)
  {
    forall p ensures x in PartEvaluation(s, p).reasons <==> ReasonTold(s, p, x) { PartReasons(s, p, x); }
    hide PartEvaluation, ReasonTold;
  }

  lemma {:induction false} IdentitiesFound(parts: seq<Part>, x: Payload)
    ensures x in Identities(parts) <==> exists p :: p in parts && Names(p, x)
  {
    forall p ensures x in PartIdentities(p) <==> Names(p, x) {}
    hide PartIdentities, Names;
  }

  lemma {:induction false} ReviewsInForce(reviews: seq<Review>, basis: Basis)
    ensures Fold(reviews).rejected <==> exists i :: RejectionStands(reviews, i)
    ensures Fold(reviews).accepted == Some(basis) && !Fold(reviews).rejected <==>
      (forall i :: !RejectionStands(reviews, i)) && exists i :: InForce(reviews, i) && reviews[i].basis == basis
  {
    FoldMeans(reviews);
    forall i ensures InForce(reviews, i) <==> AcceptanceStands(reviews, i) {
      if 0 <= i < |reviews| { FoldMeans(reviews[..i]); }
    }
    hide RejectionStands, Fold;
  }

  // ----------------------------------------------------------------------------- series

  /** How many trades the observations of a series added. */
  ghost function Added(items: seq<Item>): nat {
    if items == [] then 0 else (if items[0].None? then 0 else |items[0].value.1.added|) + Added(items[1..])
  }

  lemma {:induction false} AddedLast(items: seq<Item>)
    requires items != []
    ensures var n := |items| - 1;
      Added(items) == Added(items[..n]) + if items[n].None? then 0 else |items[n].value.1.added|
  {
    var n := |items| - 1;
    if n > 0 {
      AddedLast(items[1..]);
      assert items[1..][..n - 1] == items[..n][1..];
    }
  }

  /** The trade entered the series by observation `i`. */
  ghost predicate Entered(items: seq<Item>, i: nat, t: Trade) {
    exists j :: 0 <= j <= i && j < |items| && items[j].Some? && t in items[j].value.1.added
  }

  lemma {:induction false} CumulativeExactly(items: seq<Item>, t: Trade)
    ensures |Cumulative(items)| == Added(items)
    ensures t in Cumulative(items) <==> exists j :: 0 <= j < |items| && items[j].Some? && t in items[j].value.1.added
  {
    if items != [] {
      var n := |items| - 1;
      AddedLast(items);
      CumulativeExactly(items[..n], t);
      if t in Cumulative(items[..n]) {
        var j :| 0 <= j < n && items[..n][j].Some? && t in items[..n][j].value.1.added;
        assert items[j] == items[..n][j];
      }
      if j :| 0 <= j < n && items[j].Some? && t in items[j].value.1.added { assert items[..n][j] == items[j]; }
    }
  }

  /** A leg is judged by its trade's symbol and the regime benchmark alone. */
  predicate Leg(p: Part, t: Trade, leg: Option<Bound>) { p == (leg, Some({t.symbol, "VNINDEX"})) }

  lemma {:induction false} TradePartsExactly(ts: seq<Trade>, p: Part)
    ensures p in TradeParts(ts) <==> exists t :: t in ts && (Leg(p, t, t.entry) || Leg(p, t, t.exit))
  {
    if ts != [] {
      var n := |ts| - 1;
      TradePartsExactly(ts[..n], p);
      assert forall t :: t in ts <==> t in ts[..n] || t == ts[n];
    }
  }

  /** What observation `i` of a series is judged by: its own binding, both legs of every trade added so far, the
      entries of its open positions, and what stands for trades nobody tracked or the caller left out. */
  lemma {:induction false} SeriesPartsExactly(items: seq<Item>, i: nat, p: Part)
    requires i < |items| && items[i].Some?
    ensures var own := items[i].value.1;
      p in SeriesParts(items, i) <==>
        || p == (Some(items[i].value.0), None)
        || (exists t :: Entered(items, i, t) && (Leg(p, t, t.entry) || Leg(p, t, t.exit)))
        || (exists t :: t in own.openEntries && Leg(p, t, t.entry))
        || (own.closed > own.tracked && p == (None, None))
        || (own.tracked > Added(items[..i + 1]) && p == (Some(INCOMPLETE_CHAIN), None))
    ensures !INCOMPLETE_CHAIN.logBound
  {
    var trades, own := Cumulative(items[..i + 1]), items[i].value.1;
    hide Leg, TradeParts, EntryParts, Cumulative, Added, Entered, BoundParts;
    BoundPartsExactly(items[i].value.0, own, trades, p);
    TradePartsExactly(trades, p);
    EntriesExactly(own.openEntries, p);
    TradesSoFar(items, i, p);
    CumulativeExactly(items[..i + 1], Trade("", None, None));
  }

  lemma {:induction false} BoundPartsExactly(b: Bound, own: Qualification.Lineage, trades: seq<Trade>, p: Part)
    ensures p in BoundParts(b, own, trades) <==>
      || p == (Some(b), None) || p in TradeParts(trades) || p in EntryParts(own.openEntries)
      || (own.closed > own.tracked && p == (None, None))
      || (own.tracked > |trades| && p == (Some(INCOMPLETE_CHAIN), None))
  {
    hide TradeParts, EntryParts;
  }

  lemma {:induction false} TradesSoFar(items: seq<Item>, i: nat, p: Part)
    requires i < |items|
    ensures (exists t :: t in Cumulative(items[..i + 1]) && (Leg(p, t, t.entry) || Leg(p, t, t.exit))) <==>
      exists t :: Entered(items, i, t) && (Leg(p, t, t.entry) || Leg(p, t, t.exit))
  {
    forall t ensures t in Cumulative(items[..i + 1]) <==> Entered(items, i, t) {
      CumulativeExactly(items[..i + 1], t);
    }
    hide Leg, Cumulative, Entered;
  }

  lemma {:induction false} EntriesExactly(ts: seq<Trade>, p: Part)
    ensures p in EntryParts(ts) <==> exists t :: t in ts && Leg(p, t, t.entry)
  {
    if p in EntryParts(ts) {
      var k :| 0 <= k < |ts| && EntryParts(ts)[k] == p;
      assert ts[k] in ts;
    }
    if t :| t in ts && Leg(p, t, t.entry) {
      var k :| 0 <= k < |ts| && ts[k] == t;
      assert EntryParts(ts)[k] == p;
    }
  }
}
