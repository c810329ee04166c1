/** The qualification of bound evidence against one state of the log: a worst-of verdict over the
    bindings, folded with the review history. */
module Qualification {
  import opened MarketTypes
  import opened LogModel
  import opened Protocol
  import opened Provenance
  import opened EvidenceBinding

  datatype State =
    | MissingProvenance | IncompatibleBasis | UnresolvedRevision | LegacyUnbound | BoundLegacyInput | ProvenanceVerified
    | ReviewedAccepted | ReviewedRejected
  {
    predicate Qualified() { ProvenanceVerified? || ReviewedAccepted? }
    /** Position in the worst-first precedence of computed states. */
    function Severity(): nat {
      match this
      case MissingProvenance => 0 case IncompatibleBasis => 1 case UnresolvedRevision => 2
      case LegacyUnbound => 3 case BoundLegacyInput => 4 case ProvenanceVerified => 5
      case _ => 6
    }
  }

  const PRECEDENCE: seq<State> :=
    [MissingProvenance, IncompatibleBasis, UnresolvedRevision, LegacyUnbound, BoundLegacyInput, ProvenanceVerified]

  function WorstIn(order: seq<State>, states: set<State>): State {
    if order == [] then LegacyUnbound else if order[0] in states then order[0] else WorstIn(order[1..], states)
  }

  function Worst(states: set<State>): State { WorstIn(PRECEDENCE, states) }

  /** The immutable content a binding identity hashes. */
  datatype Payload = Payload(subject: string, baseline: map<Symbol, Rows>, dependencies: seq<Record>)

  /** A stored binding: the identity it carries (a compact leg copy carries its source's), and its content. */
  datatype Bound = Bound(logBound: bool, identity: Option<Payload>, source: Option<Payload>, payload: Payload)
  {
    predicate Intact() { identity.Some? ==> identity.value == payload }
    function Identities(): set<Payload> {
      if identity.Some? then {identity.value} else if source.Some? then {source.value} else {}
    }
  }

  datatype Reason =
    | LogState | IdentityMismatch | MissingOrigin(r: Record) | LogUnavailable | BaselineChanged
    | Drift(r: Record) | HitByBlock(block: nat, r: Record) | LegacyDependency | NoBinding

  datatype Evaluation = Evaluation(state: State, reasons: set<Reason>, base: State)

  datatype Basis = Basis(state: State, reasons: set<Reason>, identities: set<Payload>)

  datatype QualificationResult = QualificationResult(state: State, reasons: set<Reason>, basis: Basis, base: State)

  datatype Review = Reject | SupersedeRejection | Accept(basis: Basis) | Acknowledge

  type Part = (Option<Bound>, Option<set<Symbol>>)

  predicate IsMissing(o: BoundOrigin) {
    match o
    case Known(x) => x.PendingApplication? || x.Unattributed? || x.Removed? || x.Absent?
    case _ => true
  }

  predicate IsLegacy(o: BoundOrigin) { o == Known(BaselineLegacy) || o == Known(RebasedHistory) }

  /** The dependencies of the wanted symbols. */
  function Relevant(b: Bound, symbols: Option<set<Symbol>>): set<Record> {
    set r | r in b.payload.dependencies && (symbols.Some? ==> r.dep.symbol in symbols.value)
  }

  /** Does the log now say something else about the dependency than the binding recorded? */
  predicate Drifted(s: System, r: Record) {
    var y, t := r.dep.symbol, r.dep.session;
    if r.dep.coverage.Window? && r.dep.window.Some? then
      r.lineage.None? || r.lineage.value.triples != ReadWindow(s, y, r.dep.window.value, t).Triples()
    else
      var a := SessionProvenance(s, y, t);
      r.origin != Known(a.origin) || r.obs != a.obs || r.version != a.version
  }

  /** An unresolved block, as the qualifier keeps it. */
  datatype BlockInfo = BlockInfo(id: nat, symbol: Symbol, affected: set<Session>)

  function Blocks(log: Log): set<BlockInfo> {
    set b: nat | b < |log.events| && Unresolved(log, b) ::
      BlockInfo(b, log.events[b].Symbol(), log.events[b].block.affected)
  }

  predicate Hits(block: BlockInfo, r: Record) {
    && block.symbol == r.dep.symbol
    && var start := if r.dep.window.Some? then r.dep.window.value else r.dep.session;
    block.affected == {} || exists t | t in block.affected :: start <= t <= r.dep.session
  }

  // ------------------------------------------------------------------ evaluation

  function BaseStates(s: Option<System>, b: Bound, relevant: set<Record>): set<State> {
    var missing := if exists r | r in relevant :: IsMissing(r.origin) then {MissingProvenance} else {};
    var current :=
      if s.None? then {MissingProvenance}
      else if b.payload.baseline != s.value.baseline then {IncompatibleBasis}
      else if exists r | r in relevant :: !IsMissing(r.origin) && Drifted(s.value, r) then {IncompatibleBasis}
      else {};
    if missing + current != {} then missing + current
    else if exists r | r in relevant :: IsLegacy(r.origin) then {BoundLegacyInput}
    else {ProvenanceVerified}
  }

  predicate BlockedNow(s: Option<System>, relevant: set<Record>) {
    s.Some? && exists block, r | block in Blocks(s.value.log) && r in relevant :: Hits(block, r)
  }

  function EvaluationReasons(s: Option<System>, b: Bound, relevant: set<Record>): set<Reason> {
    var missing := set r | r in relevant && IsMissing(r.origin) :: MissingOrigin(r);
    var current :=
      if s.None? then {LogUnavailable}
      else if b.payload.baseline != s.value.baseline then {BaselineChanged}
      else set r | r in relevant && !IsMissing(r.origin) && Drifted(s.value, r) :: Drift(r);
    var hit :=
      if s.None? then {}
      else set block, r | block in Blocks(s.value.log) && r in relevant && Hits(block, r) :: HitByBlock(block.id, r);
    var legacy := if Worst(BaseStates(s, b, relevant)).BoundLegacyInput? then {LegacyDependency} else {};
    missing + current + hit + legacy
  }

  function Evaluate(s: Option<System>, b: Bound, symbols: Option<set<Symbol>>): Evaluation {
    if !b.logBound then Evaluation(MissingProvenance, {LogState}, MissingProvenance)
    else if !b.Intact() then Evaluation(MissingProvenance, {IdentityMismatch}, MissingProvenance)
    else
      var relevant := Relevant(b, symbols);
      var states := BaseStates(s, b, relevant);
      Evaluation(Worst(states + if BlockedNow(s, relevant) then {UnresolvedRevision} else {}),
                 EvaluationReasons(s, b, relevant), Worst(states))
  }

  function PartEvaluation(s: Option<System>, p: Part): Evaluation {
    if p.0.None? then Evaluation(LegacyUnbound, {NoBinding}, LegacyUnbound) else Evaluate(s, p.0.value, p.1)
  }

  function PartIdentities(p: Part): set<Payload> { if p.0.None? then {} else p.0.value.Identities() }

  function States(s: Option<System>, parts: seq<Part>): set<State> { set p | p in parts :: PartEvaluation(s, p).state }
  function BaseOf(s: Option<System>, parts: seq<Part>): set<State> { set p | p in parts :: PartEvaluation(s, p).base }
  function Reasons(s: Option<System>, parts: seq<Part>): set<Reason> {
    set p, x | p in parts && x in PartEvaluation(s, p).reasons :: x
  }
  function Identities(parts: seq<Part>): set<Payload> { set p, x | p in parts && x in PartIdentities(p) :: x }

  function OrUnbound(states: set<State>): set<State> { if states == {} then {LegacyUnbound} else states }

  /** The verdict before reviews. */
  function Computed(s: Option<System>, parts: seq<Part>): State { Worst(OrUnbound(States(s, parts))) }
  function ComputedBase(s: Option<System>, parts: seq<Part>): State { Worst(OrUnbound(BaseOf(s, parts))) }
  function BasisOf(s: Option<System>, parts: seq<Part>): Basis {
    Basis(Computed(s, parts), Reasons(s, parts), Identities(parts))
  }

  // --------------------------------------------------------------------- reviews

  datatype Standing = Standing(rejected: bool, accepted: Option<Basis>)

  function Fold(reviews: seq<Review>): Standing {
    if reviews == [] then Standing(false, None)
    else
      var before, last := Fold(reviews[..|reviews| - 1]), reviews[|reviews| - 1];
      match last
      case Reject => Standing(true, None)
      case SupersedeRejection => before.(rejected := false)
      case Accept(basis) => if before.rejected then before else before.(accepted := Some(basis))
      case Acknowledge => before
  }

  /** The verdict after reviews: a standing rejection wins; a standing acceptance lifts only a
      revision quarantine of otherwise verified evidence, and only on exactly its basis. */
  function Judge(computed: State, base: State, basis: Basis, standing: Standing): QualificationResult {
    if standing.rejected then QualificationResult(ReviewedRejected, basis.reasons, basis, base)
    else if standing.accepted.Some? && computed.UnresolvedRevision? && base.ProvenanceVerified?
      && standing.accepted.value == basis
    then QualificationResult(ReviewedAccepted, basis.reasons, basis, base)
    else QualificationResult(computed, basis.reasons, basis, base)
  }

  function Qualify(s: Option<System>, parts: seq<Part>, reviews: seq<Review>): QualificationResult {
    Judge(Computed(s, parts), ComputedBase(s, parts), BasisOf(s, parts), Fold(reviews))
  }

  // -------------------------------------------------------------------- theorems

  lemma {:induction false} WorstInIs(order: seq<State>, states: set<State>)
    ensures var r := WorstIn(order, states);
      || (r.LegacyUnbound? && forall x | x in order :: x !in states)
      || exists k :: 0 <= k < |order| && order[k] == r && r in states && forall j | 0 <= j < k :: order[j] !in states
  {
    if order != [] && order[0] !in states {
      WorstInIs(order[1..], states);
      var r := WorstIn(order[1..], states);
      if exists x | x in order[1..] :: x in states {
        var k :| 0 <= k < |order[1..]| && order[1..][k] == r && r in states
          && forall j | 0 <= j < k :: order[1..][j] !in states;
        assert order[k + 1] == r;
        forall j | 0 <= j < k + 1 ensures order[j] !in states { if j > 0 { assert order[j] == order[1..][j - 1]; } }
      }
    }
  }

  /** The worst of a set of computed states is in it, and nothing in it is worse. */
  lemma {:induction false} WorstIsLeast(states: set<State>)
    requires states != {} && forall x | x in states :: x.Severity() < 6
    ensures Worst(states) in states && forall x | x in states :: Worst(states).Severity() <= x.Severity()
  {
    WorstInIs(PRECEDENCE, states);
    forall x: State | x.Severity() < 6 ensures PRECEDENCE[x.Severity()] == x {}
    var x := PickOne(states);
    assert PRECEDENCE[x.Severity()] in PRECEDENCE;
  }

  lemma {:induction false} EvaluationIsComputed(s: Option<System>, p: Part)
    ensures PartEvaluation(s, p).state.Severity() < 6 && PartEvaluation(s, p).base.Severity() < 6
    ensures PartEvaluation(s, p).state.Severity() <= PartEvaluation(s, p).base.Severity()
  {
    if p.0.Some? && p.0.value.logBound && p.0.value.Intact() {
      var states := BaseStates(s, p.0.value, Relevant(p.0.value, p.1));
      WorstIsLeast(states);
      WorstIsLeast(states + {UnresolvedRevision});
      assert states + {} == states;
    }
  }

  /** One binding against a readable log with nothing to object to. */
  ghost predicate Clean(s: System, p: Part) {
    && p.0.Some? && p.0.value.logBound && p.0.value.Intact() && p.0.value.payload.baseline == s.baseline
    && forall r | r in Relevant(p.0.value, p.1) :: r.origin == Known(Observation) && !Drifted(s, r)
  }

  ghost predicate Hit(s: System, p: Part) {
    p.0.Some? && exists block, r | block in Blocks(s.log) && r in Relevant(p.0.value, p.1) :: Hits(block, r)
  }

  /** A part's base state is verified exactly when it is clean; its state is then verified or blocked. */
  lemma {:induction false} PartVerified(s: Option<System>, p: Part)
    ensures PartEvaluation(s, p).base.ProvenanceVerified? <==> s.Some? && Clean(s.value, p)
    ensures s.Some? && Clean(s.value, p) ==>
      PartEvaluation(s, p).state == if Hit(s.value, p) then UnresolvedRevision else ProvenanceVerified
  {
    hide Drifted, Relevant;
    if p.0.Some? && p.0.value.logBound && p.0.value.Intact() {
      var relevant := Relevant(p.0.value, p.1);
      var states := BaseStates(s, p.0.value, relevant);
      WorstIsLeast(states);
      if BlockedNow(s, relevant) { WorstIsLeast(states + {UnresolvedRevision}); } else { assert states + {} == states; }
      forall r | r in relevant
        ensures !IsMissing(r.origin) && !IsLegacy(r.origin) <==> r.origin == Known(Observation)
      {
      }
    }
  }

  lemma {:induction false} SomeState(s: Option<System>, parts: seq<Part>, p: Part)
    requires p in parts
    ensures PartEvaluation(s, p).state in States(s, parts) && PartEvaluation(s, p).base in BaseOf(s, parts)
    ensures Computed(s, parts).Severity() <= PartEvaluation(s, p).state.Severity()
    ensures ComputedBase(s, parts).Severity() <= PartEvaluation(s, p).base.Severity()
    ensures Computed(s, parts) in States(s, parts) && ComputedBase(s, parts) in BaseOf(s, parts)
  {
    forall q | q in parts ensures PartEvaluation(s, q).state.Severity() < 6
      && PartEvaluation(s, q).base.Severity() < 6 {
      EvaluationIsComputed(s, q);
    }
    assert PartEvaluation(s, p).state in States(s, parts) && PartEvaluation(s, p).base in BaseOf(s, parts);
    WorstIsLeast(States(s, parts));
    WorstIsLeast(BaseOf(s, parts));
  }

  /** The base verdict is verified exactly when there is evidence and every part of it is clean. */
  lemma {:induction false} BaseVerified(s: Option<System>, parts: seq<Part>)
    ensures ComputedBase(s, parts).ProvenanceVerified? <==>
      s.Some? && parts != [] && forall p | p in parts :: Clean(s.value, p)
  {
    hide PartEvaluation, Clean;
    if parts != [] {
      SomeState(s, parts, parts[0]);
      forall p | p in parts
        ensures ComputedBase(s, parts).Severity() <= PartEvaluation(s, p).base.Severity() < 6
        ensures PartEvaluation(s, p).base.ProvenanceVerified? <==> s.Some? && Clean(s.value, p)
      {
        SomeState(s, parts, p);
        EvaluationIsComputed(s, p);
        PartVerified(s, p);
      }
      var q :| q in parts && PartEvaluation(s, q).base == ComputedBase(s, parts);
      PartVerified(s, q);
    } else {
      assert BaseOf(s, parts) == {};
      assert Worst({LegacyUnbound}) == LegacyUnbound by { WorstIsLeast({LegacyUnbound}); }
    }
  }

  lemma {:induction false} WorstOfTwo(states: set<State>)
    requires states != {} && forall x | x in states :: x.UnresolvedRevision? || x.ProvenanceVerified?
    ensures Worst(states) == if UnresolvedRevision in states then UnresolvedRevision else ProvenanceVerified
  {
    WorstIsLeast(states);
  }

  /** The states of clean parts: one per part, blocked or verified. */
  lemma {:induction false} CleanStates(s: System, parts: seq<Part>, states: set<State>)
    requires states == States(Some(s), parts) && forall p | p in parts :: Clean(s, p)
    ensures forall x | x in states :: x.UnresolvedRevision? || x.ProvenanceVerified?
    ensures UnresolvedRevision in states <==> exists p | p in parts :: Hit(s, p)
    ensures parts != [] ==> states != {}
  {
    forall p | p in parts
      ensures PartEvaluation(Some(s), p).state == if Hit(s, p) then UnresolvedRevision else ProvenanceVerified
    {
      PartVerified(Some(s), p);
    }
    if parts != [] { assert PartEvaluation(Some(s), parts[0]).state in states; }
  }

  lemma {:induction false} ComputedWhenClean(s: System, parts: seq<Part>)
    requires parts != [] && forall p | p in parts :: Clean(s, p)
    ensures Computed(Some(s), parts) == if exists p | p in parts ::
      Hit(s, p) then UnresolvedRevision else ProvenanceVerified
  {
    var states := States(Some(s), parts);
    CleanStates(s, parts, states);
    WorstOfTwo(states);
  }

  /** The final fold over reviews, on already computed states. */
  lemma {:induction false} JudgedExactly(computed: State, base: State, basis: Basis, standing: Standing)
    requires computed.Severity() <= base.Severity() < 6
    ensures var v := Judge(computed, base, basis, standing).state;
      && (v.Qualified() <==>
            && base.ProvenanceVerified? && !standing.rejected
            && (computed.ProvenanceVerified? || (computed.UnresolvedRevision? && standing.accepted == Some(basis))))
      && (v.ReviewedAccepted? ==> computed.UnresolvedRevision? && base.ProvenanceVerified?)
  {
  }

  /** Evidence nothing objects to, before blocks and reviews. */
  ghost predicate AllClean(s: Option<System>, parts: seq<Part>) {
    s.Some? && parts != [] && forall p | p in parts :: Clean(s.value, p)
  }

  /** Verdict soundness and completeness. Evidence is qualified exactly when there is some, the log is
      readable, every consulted binding is intact, on the current baseline, with all its dependencies
      observation-backed and unchanged, no rejection stands, and either no unresolved block hits it or
      the standing acceptance names exactly this basis. */
  lemma {:induction false} QualifiedExactly(s: Option<System>, parts: seq<Part>, reviews: seq<Review>)
    ensures Qualify(s, parts, reviews).state.Qualified() <==>
      && AllClean(s, parts) && !Fold(reviews).rejected
      && ((forall p | p in parts :: !Hit(s.value, p)) || Fold(reviews).accepted == Some(BasisOf(s, parts)))
    ensures Qualify(s, parts, reviews).state.ReviewedAccepted? ==>
      AllClean(s, parts) && exists p | p in parts :: Hit(s.value, p)
  {
    BaseVerified(s, parts);
    StateBelowBase(s, parts);
    JudgedExactly(Computed(s, parts), ComputedBase(s, parts), BasisOf(s, parts), Fold(reviews));
    if AllClean(s, parts) { ComputedWhenClean(s.value, parts); }
  }

  lemma {:induction false} StateBelowBase(s: Option<System>, parts: seq<Part>)
    ensures Computed(s, parts).Severity() <= ComputedBase(s, parts).Severity() < 6
  {
    if parts == [] {
      assert States(s, parts) == {} && BaseOf(s, parts) == {};
      WorstIsLeast({LegacyUnbound});
    } else {
      SomeState(s, parts, parts[0]);
      var q :| q in parts && PartEvaluation(s, q).base == ComputedBase(s, parts);
      SomeState(s, parts, q);
      EvaluationIsComputed(s, q);
    }
  }

  /** The verdict depends only on which parts are consulted, not on their order or repetition. */
  lemma {:induction false} OrderIndependent(s: Option<System>, parts: seq<Part>, parts': seq<Part>,
      reviews: seq<Review>)
    requires forall p :: p in parts <==> p in parts'
    ensures Qualify(s, parts, reviews) == Qualify(s, parts', reviews)
  {
    assert States(s, parts) == States(s, parts');
    assert BaseOf(s, parts) == BaseOf(s, parts');
    assert Reasons(s, parts) == Reasons(s, parts');
    assert Identities(parts) == Identities(parts');
  }

  /** Adding bindings to a non-empty set never improves the unreviewed verdict or its base. */
  lemma {:induction false} MoreNeverImproves(s: Option<System>, parts: seq<Part>, more: seq<Part>)
    requires parts != []
    ensures Computed(s, parts + more).Severity() <= Computed(s, parts).Severity()
    ensures ComputedBase(s, parts + more).Severity() <= ComputedBase(s, parts).Severity()
  {
    SomeState(s, parts, parts[0]);
    var p :| p in parts && PartEvaluation(s, p).state == Computed(s, parts);
    var q :| q in parts && PartEvaluation(s, q).base == ComputedBase(s, parts);
    SomeState(s, parts + more, p);
    SomeState(s, parts + more, q);
  }

  /** Review `i` rejects and no later review supersedes the rejection. */
  ghost predicate RejectionStands(reviews: seq<Review>, i: int) {
    0 <= i < |reviews| && reviews[i].Reject? && forall j | i < j < |reviews| :: !reviews[j].SupersedeRejection?
  }

  /** Review `i` accepts, no rejection was in force then, and none and no other effective acceptance came later. */
  ghost predicate AcceptanceStands(reviews: seq<Review>, i: int) {
    && 0 <= i < |reviews| && reviews[i].Accept? && !Fold(reviews[..i]).rejected
    && forall j | i < j < |reviews| :: !reviews[j].Reject? && !reviews[j].Accept?
  }

  /** The fold in closed form: a rejection is in force exactly when one is not superseded since, and
      the accepted basis is the last acceptance that met no rejection before it or since. */
  lemma {:induction false} FoldMeans(reviews: seq<Review>)
    ensures Fold(reviews).rejected <==> exists i :: RejectionStands(reviews, i)
    ensures Fold(reviews).rejected ==> Fold(reviews).accepted.None?
    ensures forall i | AcceptanceStands(reviews, i) :: Fold(reviews).accepted == Some(reviews[i].basis)
    ensures Fold(reviews).accepted.Some? ==> exists i :: AcceptanceStands(reviews, i)
  {
    if reviews != [] {
      var n := |reviews| - 1;
      var prior := reviews[..n];
      FoldMeans(prior);
      forall i | 0 <= i < n
        ensures RejectionStands(reviews, i) <==> RejectionStands(prior, i) && !reviews[n].SupersedeRejection?
        ensures AcceptanceStands(reviews, i) <==>
          AcceptanceStands(prior, i) && !reviews[n].Reject? && !reviews[n].Accept?
      {
        assert reviews[..i] == prior[..i];
      }
      assert RejectionStands(reviews, n) <==> reviews[n].Reject?;
      assert AcceptanceStands(reviews, n) <==> reviews[n].Accept? && !Fold(prior).rejected;
    }
  }

  // ---------------------------------------------------------------------- series

  const REGIME_BENCHMARK: Symbol := "VNINDEX"

  datatype Trade = Trade(symbol: Symbol, entry: Option<Bound>, exit: Option<Bound>)

  datatype Lineage = Lineage(added: seq<Trade>, openEntries: seq<Trade>, closed: nat, tracked: nat)

  /** One observation of a chronological series; None when it was captured without a binding. */
  type Item = Option<(Bound, Lineage)>

  function LegSymbols(t: Trade): Option<set<Symbol>> { Some({t.symbol, REGIME_BENCHMARK}) }

  function TradeParts(ts: seq<Trade>): seq<Part> {
    if ts == [] then []
    else TradeParts(ts[..|ts| - 1]) + [(ts[|ts| - 1].entry, LegSymbols(ts[|ts| - 1])),
      (ts[|ts| - 1].exit, LegSymbols(ts[|ts| - 1]))]
  }

  function EntryParts(ts: seq<Trade>): seq<Part> {
    seq(|ts|, i requires 0 <= i < |ts| => (ts[i].entry, LegSymbols(ts[i])))
  }

  /** Every trade the series has added so far. */
  function Cumulative(items: seq<Item>): seq<Trade> {
    if items == [] then []
    else
      var before, last := Cumulative(items[..|items| - 1]), items[|items| - 1];
      if last.None? then before else before + last.value.1.added
  }

  /** A pseudo binding that no log state can verify. */
  const INCOMPLETE_CHAIN: Bound := Bound(false, None, None, Payload("", map[], []))

  function BoundParts(b: Bound, lineage: Lineage, trades: seq<Trade>): seq<Part> {
    [(Some(b), None)] + TradeParts(trades) + EntryParts(lineage.openEntries)
    + (if lineage.closed > lineage.tracked then [(None, None)] else [])
    + (if lineage.tracked > |trades| then [(Some(INCOMPLETE_CHAIN), None)] else [])
  }

  /** What observation `i` of the series is judged by. */
  function SeriesParts(items: seq<Item>, i: nat): seq<Part>
    requires i < |items|
  {
    if items[i].None? then [(None, None)]
    else
      BoundParts(items[i].value.0, items[i].value.1, Cumulative(items[..i + 1]))
  }

  /** A filtered or truncated chain fails closed: the observation is never qualified. */
  lemma {:induction false} IncompleteChainFailsClosed(s: Option<System>, items: seq<Item>, i: nat, reviews: seq<Review>)
    requires i < |items| && items[i].Some? && items[i].value.1.tracked > |Cumulative(items[..i + 1])|
    ensures Computed(s, SeriesParts(items, i)).MissingProvenance?
    ensures !Qualify(s, SeriesParts(items, i), reviews).state.Qualified()
  {
    var parts := SeriesParts(items, i);
    var p: Part := (Some(INCOMPLETE_CHAIN), None);
    assert parts[|parts| - 1] == p;
    SomeState(s, parts, p);
    SomeState(s, parts, parts[0]);
    QualifiedExactly(s, parts, reviews);
    assert s.Some? ==> !Clean(s.value, p);
  }

  lemma {:induction false} TradePartsHave(ts: seq<Trade>, t: Trade)
    requires t in ts
    ensures (t.entry, LegSymbols(t)) in TradeParts(ts) && (t.exit, LegSymbols(t)) in TradeParts(ts)
  {
    var n := |ts| - 1;
    if t in ts[..n] { TradePartsHave(ts[..n], t); }
  }

  lemma {:induction false} CumulativeKeeps(items: seq<Item>, i: nat, j: nat, t: Trade)
    requires i <= j <= |items| && t in Cumulative(items[..i])
    ensures t in Cumulative(items[..j])
  {
    if i < j {
      CumulativeKeeps(items, i, j - 1, t);
      assert items[..j][..j - 1] == items[..j - 1];
    }
  }

  /** Realized profit is never laundered: once a trade entered the series, every later bound
      observation is judged at least as badly as that trade's legs are. */
  lemma {:induction false} TradeStaysWithSeries(s: Option<System>, items: seq<Item>, i: nat, j: nat, t: Trade)
    requires i <= j < |items| && items[i].Some? && items[j].Some? && t in items[i].value.1.added
    ensures var computed := Computed(s, SeriesParts(items, j));
      && computed.Severity() <= PartEvaluation(s, (t.entry, LegSymbols(t))).state.Severity()
      && computed.Severity() <= PartEvaluation(s, (t.exit, LegSymbols(t))).state.Severity()
  {
    assert items[..i + 1][..i] == items[..i];
    assert t in Cumulative(items[..i + 1]);
    CumulativeKeeps(items, i + 1, j + 1, t);
    TradePartsHave(Cumulative(items[..j + 1]), t);
    SomeState(s, SeriesParts(items, j), (t.entry, LegSymbols(t)));
    SomeState(s, SeriesParts(items, j), (t.exit, LegSymbols(t)));
  }
}
