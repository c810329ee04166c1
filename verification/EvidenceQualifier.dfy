/** The caching qualifier: kept alive across a whole run of other processes, it answers every call as
    a freshly built one would. */
module EvidenceQualifier {
  import opened MarketTypes
  import opened Protocol
  import opened Provenance
  import opened BindingInterval
  import opened LogReader
  import opened EvidenceBinding
  import opened Qualification
  import opened QualifierCoherence

  lemma {:induction false} RelevantNext(deps: seq<Record>, n: nat)
    requires n < |deps|
    ensures deps[..n + 1] == deps[..n] + [deps[n]]
  {
  }

  function Drifts(s: System, deps: seq<Record>): set<Reason> {
    set r | r in deps && !IsMissing(r.origin) && Drifted(s, r) :: Drift(r)
  }

  /** What the log says against a binding, and which of its blocks hit it. */
  function CurrentReasons(s: Option<System>, b: Bound, deps: seq<Record>): set<Reason> {
    if s.None? then {LogUnavailable}
    else if b.payload.baseline != s.value.baseline then {BaselineChanged}
    else Drifts(s.value, deps)
  }

  function HitReasons(s: Option<System>, deps: seq<Record>): set<Reason> {
    if s.None? then {}
    else set block, r | block in Blocks(s.value.log) && r in deps && Hits(block, r) :: HitByBlock(block.id, r)
  }

  /** When a call of a series began and ended, and whether the log could be read. */
  datatype Call = Call(start: nat, end: nat, readable: bool)

  class Qualifier {
    const reader: Reader
    ghost var loadedAt: nat
    ghost var blocksAt: nat
    ghost var originsAt: map<(Symbol, Session), Moments>
    ghost var windowsAt: map<(Symbol, Session, Session), Moments>
    var signature: Option<Signature>
    var baseline: map<Symbol, Rows>
    var blocks: set<BlockInfo>
    var origins: map<(Symbol, Session), Attribution>
    var windows: map<(Symbol, Session, Session), set<Triple>>

    /** Without a signature the log was unreadable; else everything cached was read since the signature. */
    ghost predicate Valid()
      reads this, reader
    {
      reader.Valid() && (signature.Some? ==> Loaded())
    }

    ghost predicate Loaded()
      reads this, reader
      requires reader.Valid()
    {
      && loadedAt <= blocksAt <= reader.now && signature == Some(SignatureOf(reader.history[loadedAt].log))
      && baseline == reader.history[loadedAt].baseline && blocks == Blocks(reader.history[blocksAt].log)
      && (forall x | x in origins ::
        x in originsAt && originsAt[x].Within(loadedAt, reader.now)
        && origins[x] == PointAt(reader.history, originsAt[x], x.0, x.1))
      && forall x | x in windows ::
        x in windowsAt && windowsAt[x].Within(loadedAt, reader.now)
        && windows[x] == WindowAt(reader.history, windowsAt[x], x.0, x.1, x.2).Triples()
    }

    /** The state the signature was read in. */
    ghost function Seen(): Option<System>
      reads this, reader
      requires Valid()
    {
      if signature.Some? then Some(reader.history[loadedAt]) else None
    }

    /** The log still has the signature the caches belong to, or there was none. */
    ghost predicate Trusted()
      reads this, reader
      requires Valid()
    {
      signature.Some? ==> Steady(reader.history, loadedAt, reader.now)
    }

    constructor (reader: Reader)
      requires reader.Valid()
      modifies reader`now
      ensures Valid() && this.reader == reader && old(reader.now) <= reader.now
    {
      this.reader := reader;
      signature, baseline, blocks, origins, windows := None, map[], {}, map[], map[];
      new;
      Refresh();
    }

    /** Drop every cache and load what the log says now, if it can be read. */
    method Refresh()
      requires reader.Valid()
      modifies this, reader`now
      ensures Valid() && old(reader.now) <= reader.now && origins == map[] && windows == map[]
      ensures signature.Some? ==> old(reader.now) <= loadedAt
    {
      origins, windows := map[], map[];
      signature, baseline, blocks := None, map[], {};
      var readable: bool := *;
      if !readable { return; }
      reader.Tick();
      ghost var first := reader.now;
      baseline := reader.history[reader.now].baseline;
      reader.Tick();
      loadedAt := reader.now;
      signature := Some(SignatureOf(reader.history[reader.now].log));
      BaselineStays(reader.history, reader.acts, first, loadedAt);
      reader.Tick();
      blocksAt := reader.now;
      blocks := Blocks(reader.history[reader.now].log);
    }

    /** `_revalidate`: reload when the log's signature moved; otherwise the caches are kept, for the
        signature is the one they belong to. */
    method Revalidate() returns (ghost start: nat)
      requires Valid()
      modifies this, reader`now
      ensures Valid() && old(reader.now) <= start <= reader.now
      ensures signature.Some? ==> loadedAt <= start && Steady(reader.history, loadedAt, start)
    {
      var readable: bool := *;
      reader.Tick();
      start := reader.now;
      if signature.None? || !readable || SignatureOf(reader.history[reader.now].log) != signature.value {
        Refresh();
        start := if signature.Some? then loadedAt else start;
      }
    }

    /** A trusted cache entry is what the log says, whenever it was read. */
    method SessionNow(y: Symbol, t: Session) returns (a: Attribution)
      requires Valid() && signature.Some?
      modifies this`origins, this`originsAt, reader`now
      ensures Valid() && old(reader.now) <= reader.now
      ensures Trusted() ==> a == SessionProvenance(reader.history[loadedAt], y, t)
    {
      hide Run, PointAt, WindowAt, Steady, SignatureOf, Blocks, ReadWindow;
      if (y, t) !in origins {
        var one, m := reader.SessionProvenance(y, t);
        origins, originsAt := origins[(y, t) := one], originsAt[(y, t) := m];
      }
      a := origins[(y, t)];
      if Trusted() { OriginTrusted(y, t); }
    }

    lemma {:induction false} OriginTrusted(y: Symbol, t: Session)
      requires Valid() && signature.Some? && Trusted() && (y, t) in origins
      ensures origins[(y, t)] == SessionProvenance(reader.history[loadedAt], y, t)
    {
      hide Run;
      PointSteady(reader.history, reader.acts, loadedAt, reader.now, originsAt[(y, t)], y, t, loadedAt);
    }

    lemma {:induction false} WindowTrusted(y: Symbol, start: Session, end: Session)
      requires Valid() && signature.Some? && Trusted() && (y, start, end) in windows
      ensures windows[(y, start, end)] == ReadWindow(reader.history[loadedAt], y, start, end).Triples()
    {
      hide Run;
      WindowSteady(reader.history, reader.acts, loadedAt, reader.now, windowsAt[(y, start, end)], y, start, end,
        loadedAt);
    }

    method WindowNow(y: Symbol, start: Session, end: Session) returns (triples: set<Triple>)
      requires Valid() && signature.Some?
      modifies this`windows, this`windowsAt, reader`now
      ensures Valid() && old(reader.now) <= reader.now
      ensures Trusted() ==> triples == ReadWindow(reader.history[loadedAt], y, start, end).Triples()
    {
      hide Run, PointAt, WindowAt, Steady, SignatureOf, Blocks, ReadWindow;
      if (y, start, end) !in windows {
        var summary, m := reader.WindowProvenance(y, start, end);
        windows, windowsAt := windows[(y, start, end) := summary.triples], windowsAt[(y, start, end) := m];
      }
      triples := windows[(y, start, end)];
      if Trusted() { WindowTrusted(y, start, end); }
    }

    method HasDrifted(r: Record) returns (drifted: bool)
      requires Valid() && signature.Some?
      modifies this`origins, this`originsAt, this`windows, this`windowsAt, reader`now
      ensures Valid() && old(reader.now) <= reader.now
      ensures Trusted() ==> drifted == Drifted(reader.history[loadedAt], r)
    {
      var y, t := r.dep.symbol, r.dep.session;
      if r.dep.coverage.Window? && r.dep.window.Some? {
        var triples := WindowNow(y, r.dep.window.value, t);
        drifted := r.lineage.None? || r.lineage.value.triples != triples;
      } else {
        var a := SessionNow(y, t);
        drifted := r.origin != Known(a.origin) || r.obs != a.obs || r.version != a.version;
      }
    }

    /** What is trusted now was trusted before. */
    lemma {:induction false} TrustedBefore(before: nat)
      requires Valid() && signature.Some? && Trusted() && loadedAt <= before <= reader.now
      ensures Steady(reader.history, loadedAt, before)
    {
      SteadyBetween(reader.history, reader.acts, loadedAt, before, reader.now);
    }

    /** The drift loop: one lookup, cached or not, per non-missing dependency. */
    method DriftReasons(deps: seq<Record>) returns (reasons: set<Reason>)
      requires Valid() && signature.Some?
      modifies this`origins, this`originsAt, this`windows, this`windowsAt, reader`now
      ensures Valid() && old(reader.now) <= reader.now
      ensures forall x | x in reasons :: x.Drift?
      ensures Trusted() ==> reasons == Drifts(reader.history[loadedAt], deps)
    {
      hide Loaded, Drifted, Steady;
      reasons := {};
      LoadedBefore();
      for n := 0 to |deps|
        invariant Valid() && old(reader.now) <= reader.now && loadedAt <= reader.now
        invariant forall x | x in reasons :: x.Drift?
        invariant Trusted() ==> reasons == Drifts(reader.history[loadedAt], deps[..n])
      {
        RelevantNext(deps, n);
        if IsMissing(deps[n].origin) { continue; }
        ghost var before := reader.now;
        var drifted := HasDrifted(deps[n]);
        if Trusted() { TrustedBefore(before); }
        if drifted { reasons := reasons + {Drift(deps[n])}; }
      }
      assert deps[..|deps|] == deps;
    }

    lemma {:induction false} LoadedBefore()
      requires Valid() && signature.Some?
      ensures loadedAt <= reader.now
    {
    }

    lemma {:induction false} BlocksTrusted()
      requires Valid() && signature.Some? && Trusted()
      ensures blocks == Blocks(reader.history[loadedAt].log)
    {
      MomentSteady(reader.history, reader.acts, loadedAt, reader.now, blocksAt);
    }

    method BlockReasons(deps: seq<Record>) returns (reasons: set<Reason>)
      ensures reasons == set block, r | block in blocks && r in deps && Hits(block, r) :: HitByBlock(block.id, r)
    {
      reasons := {};
      for n := 0 to |deps|
        invariant reasons == set block, r | block in blocks && r in deps[..n] && Hits(block, r) ::
          HitByBlock(block.id, r)
      {
        RelevantNext(deps, n);
        reasons := reasons + set block | block in blocks && Hits(block, deps[n]) :: HitByBlock(block.id, deps[n]);
      }
      assert deps[..|deps|] == deps;
    }

    /** `_evaluate_binding`: from the caches, as from scratch while the signature stands. */
    method EvaluateBinding(b: Bound, symbols: Option<set<Symbol>>) returns (e: Evaluation)
      requires Valid()
      modifies this`origins, this`originsAt, this`windows, this`windowsAt, reader`now
      ensures Valid() && old(reader.now) <= reader.now
      ensures Trusted() ==> e == Evaluate(Seen(), b, symbols)
    {
      hide Loaded, Drifted, Steady, EvaluationReasons, BaseStates, BlockedNow;
      if !b.logBound {
        IgnoresLog(Seen(), b, symbols);
        return Evaluation(MissingProvenance, {LogState}, MissingProvenance);
      }
      if !b.Intact() {
        IgnoresLog(Seen(), b, symbols);
        return Evaluation(MissingProvenance, {IdentityMismatch}, MissingProvenance);
      }
      var deps := ConsultedDependencies(b, symbols);
      var missing: set<Reason> := set r | r in deps && IsMissing(r.origin) :: MissingOrigin(r);
      var states: set<State> := if missing != {} then {MissingProvenance} else {};
      var current: set<Reason> := {};
      var hits: set<Reason> := {};
      if signature.None? {
        current := {LogUnavailable};
        states := states + {MissingProvenance};
      } else {
        if b.payload.baseline != baseline {
          current := {BaselineChanged};
          states := states + {IncompatibleBasis};
        } else {
          current := DriftReasons(deps);
          if current != {} { states := states + {IncompatibleBasis}; }
        }
        hits := BlockReasons(deps);
        BaselineSeen();
        if Trusted() { BlocksTrusted(); }
      }
      e := Conclude(Seen(), b, symbols, deps, states, missing, current, hits);
    }

    lemma {:induction false} BaselineSeen()
      requires Valid() && signature.Some?
      ensures baseline == reader.history[loadedAt].baseline
    {
    }

    method ConsultedDependencies(b: Bound, symbols: Option<set<Symbol>>) returns (deps: seq<Record>)
      ensures (set r | r in deps) == Relevant(b, symbols)
    {
      deps := [];
      var all := b.payload.dependencies;
      for n := 0 to |all|
        invariant forall r :: r in deps <==> r in all[..n] && (symbols.Some? ==> r.dep.symbol in symbols.value)
      {
        RelevantNext(all, n);
        if symbols.None? || all[n].dep.symbol in symbols.value { deps := deps + [all[n]]; }
      }
      assert all[..|all|] == all;
    }

    /** The last part of the evaluation: the base state, the legacy reason and the block state. */
    method Conclude(ghost s: Option<System>, b: Bound, symbols: Option<set<Symbol>>, deps: seq<Record>,
        found: set<State>,
                    missing: set<Reason>, current: set<Reason>, hits: set<Reason>) returns (e: Evaluation)
      requires b.logBound && b.Intact() && (set r | r in deps) == Relevant(b, symbols)
      requires missing == set r | r in deps && IsMissing(r.origin) :: MissingOrigin(r)
      requires found == (if missing != {} then {MissingProvenance} else {})
        + if current == {} then {} else if current == {LogUnavailable} then {MissingProvenance} else {IncompatibleBasis}
      ensures current == CurrentReasons(s, b, deps) && hits == HitReasons(s, deps) ==> e == Evaluate(s, b, symbols)
    {
      hide EvaluationReasons, BaseStates, BlockedNow, CurrentReasons, HitReasons;
      var states := found;
      if states == {} {
        states := if exists r | r in deps :: IsLegacy(r.origin) then {BoundLegacyInput} else {ProvenanceVerified};
      }
      var base := Worst(states);
      var reasons := missing + current + hits;
      if base.BoundLegacyInput? { reasons := reasons + {LegacyDependency}; }
      if current == CurrentReasons(s, b, deps) && hits == HitReasons(s, deps) {
        assert forall r :: r in deps <==> r in Relevant(b, symbols);
        FoundStates(s, b, deps, Relevant(b, symbols), missing, current, found);
        HitMeans(s, Relevant(b, symbols), deps, hits);
        ReasonsAre(s, b, deps, Relevant(b, symbols), missing, current, hits);
      }
      if hits != {} { states := states + {UnresolvedRevision}; } else { assert states + {} == states; }
      e := Evaluation(Worst(states), reasons, base);
    }

    static lemma {:induction false} FoundStates(s: Option<System>, b: Bound, deps: seq<Record>, relevant: set<Record>,
        missing: set<Reason>, current: set<Reason>, found: set<State>)
      requires forall r :: r in deps <==> r in relevant
      requires missing == set r | r in deps && IsMissing(r.origin) :: MissingOrigin(r)
      requires current == CurrentReasons(s, b, deps)
      requires found == (if missing != {} then {MissingProvenance} else {})
        + if current == {} then {} else if current == {LogUnavailable} then {MissingProvenance} else {IncompatibleBasis}
      ensures found != {} ==> found == BaseStates(s, b, relevant)
      ensures found == {} ==>
        BaseStates(s, b, relevant) ==
          if exists r | r in deps :: IsLegacy(r.origin) then {BoundLegacyInput} else {ProvenanceVerified}
    {
      if r :| r in relevant && IsMissing(r.origin) { assert MissingOrigin(r) in missing; }
      if s.Some? && b.payload.baseline == s.value.baseline {
        if r :| r in relevant && !IsMissing(r.origin) && Drifted(s.value, r) { assert Drift(r) in current; }
        assert LogUnavailable !in current;
      }
      assert LogUnavailable in {LogUnavailable} && BaselineChanged in {BaselineChanged};
      assert BaselineChanged !in {LogUnavailable};
    }

    static lemma {:induction false} ReasonsAre(s: Option<System>, b: Bound, deps: seq<Record>, relevant: set<Record>,
        missing: set<Reason>, current: set<Reason>, hits: set<Reason>)
      requires forall r :: r in deps <==> r in relevant
      requires missing == set r | r in deps && IsMissing(r.origin) :: MissingOrigin(r)
      requires current == CurrentReasons(s, b, deps) && hits == HitReasons(s, deps)
      ensures EvaluationReasons(s, b, relevant) == missing + current + hits
        + if Worst(BaseStates(s, b, relevant)).BoundLegacyInput? then {LegacyDependency} else {}
    {
      hide BaseStates, Drifted, Blocks, Hits, IsMissing;
      assert missing == set r | r in relevant && IsMissing(r.origin) :: MissingOrigin(r);
    }

    static lemma {:induction false} HitMeans(s: Option<System>, relevant: set<Record>, deps: seq<Record>,
      hits: set<Reason>)
      requires hits == HitReasons(s, deps) && forall r :: r in deps <==> r in relevant
      ensures hits != {} <==> BlockedNow(s, relevant)
    {
      if BlockedNow(s, relevant) {
        var block, r :| block in Blocks(s.value.log) && r in relevant && Hits(block, r);
        assert HitByBlock(block.id, r) in hits;
      }
    }

    /** The review loop of `qualify`. */
    static method FoldReviews(reviews: seq<Review>) returns (standing: Standing)
      ensures standing == Fold(reviews)
    {
      var rejected, accepted: Option<Basis> := false, None;
      for n := 0 to |reviews|
        invariant Standing(rejected, accepted) == Fold(reviews[..n])
      {
        assert reviews[..n + 1][..n] == reviews[..n];
        match reviews[n]
        case Reject => rejected, accepted := true, None;
        case SupersedeRejection => rejected := false;
        case Accept(basis) => if !rejected { accepted := Some(basis); }
        case Acknowledge =>
      }
      assert reviews[..|reviews|] == reviews;
      standing := Standing(rejected, accepted);
    }

    /** `qualify`: whatever was cached before and whatever other processes do during the call, while the
        signature stands the verdict is the one computed from scratch on every state of the call. */
    method Qualify(parts: seq<Part>, reviews: seq<Review>) returns (v: QualificationResult, ghost start: nat)
      requires Valid()
      modifies this, reader`now
      ensures Valid() && old(reader.now) <= start <= reader.now
      ensures signature.None? ==> v == Qualification.Qualify(None, parts, reviews)
      ensures signature.Some? && Steady(reader.history, start, reader.now) ==>
        forall k | start <= k <= reader.now :: v == Qualification.Qualify(Some(reader.history[k]), parts, reviews)
    {
      hide Loaded, PartEvaluation, Steady;
      start := Revalidate();
      var states: set<State>, bases: set<State>, reasons: set<Reason>, identities: set<Payload> := {}, {}, {}, {};
      ghost var seen := Seen();
      for n := 0 to |parts|
        invariant Valid() && start <= reader.now && Seen() == seen
        invariant signature.Some? ==> loadedAt <= start && Steady(reader.history, loadedAt, start)
        invariant identities == Identities(parts[..n])
        invariant Trusted() ==> states == States(seen, parts[..n]) && bases == BaseOf(seen, parts[..n])
        invariant Trusted() ==> reasons == Reasons(seen, parts[..n])
      {
        var p := parts[n];
        assert parts[..n + 1] == parts[..n] + [p];
        PartAdds(seen, parts[..n], p);
        ghost var before := reader.now;
        var e := EvaluatePart(p);
        if signature.Some? && Trusted() {
          LoadedBefore();
          TrustedBefore(before);
        }
        if p.0.Some? { identities := identities + p.0.value.Identities(); }
        states, bases, reasons := states + {e.state}, bases + {e.base}, reasons + e.reasons;
      }
      assert parts[..|parts|] == parts;
      var standing := FoldReviews(reviews);
      var computed := Worst(OrUnbound(states));
      v := Judge(computed, Worst(OrUnbound(bases)), Basis(computed, reasons, identities), standing);
      if signature.Some? && Steady(reader.history, start, reader.now) { VerdictStands(start, parts, reviews); }
    }

    method EvaluatePart(p: Part) returns (e: Evaluation)
      requires Valid()
      modifies this`origins, this`originsAt, this`windows, this`windowsAt, reader`now
      ensures Valid() && old(reader.now) <= reader.now
      ensures Trusted() ==> e == PartEvaluation(Seen(), p)
    {
      hide Loaded, Evaluate, Steady;
      if p.0.None? { return Evaluation(LegacyUnbound, {NoBinding}, LegacyUnbound); }
      e := EvaluateBinding(p.0.value, p.1);
    }

    /** The verdict on the state the signature was read in is the verdict on every state of the call. */
    lemma {:induction false} VerdictStands(start: nat, parts: seq<Part>, reviews: seq<Review>)
      requires Valid() && signature.Some? && loadedAt <= start <= reader.now
      requires Steady(reader.history, loadedAt, start) && Steady(reader.history, start, reader.now)
      ensures Trusted()
      ensures forall k | start <= k <= reader.now ::
        Qualification.Qualify(Some(reader.history[k]), parts, reviews) == Qualification.Qualify(Seen(), parts, reviews)
    {
      forall k | start <= k <= reader.now
        ensures Qualification.Qualify(Some(reader.history[k]), parts, reviews)
             == Qualification.Qualify(Some(reader.history[loadedAt]), parts, reviews)
      {
        SteadyBetween(reader.history, reader.acts, loadedAt, k, reader.now);
        QualifySteady(reader.history, reader.acts, loadedAt, k, parts, reviews);
      }
    }

    static lemma PartAdds(s: Option<System>, parts: seq<Part>, p: Part)
      ensures States(s, parts + [p]) == States(s, parts) + {PartEvaluation(s, p).state}
      ensures BaseOf(s, parts + [p]) == BaseOf(s, parts) + {PartEvaluation(s, p).base}
      ensures Reasons(s, parts + [p]) == Reasons(s, parts) + PartEvaluation(s, p).reasons
      ensures Identities(parts + [p]) == Identities(parts) + PartIdentities(p)
    {
    }

    static method CollectParts(b: Bound, lineage: Lineage, cumulative: seq<Trade>) returns (parts: seq<Part>)
      ensures parts == BoundParts(b, lineage, cumulative)
    {
      parts := [(Some(b), None)];
      for n := 0 to |cumulative|
        invariant parts == [(Some(b), None)] + TradeParts(cumulative[..n])
      {
        var t := cumulative[n];
        assert cumulative[..n + 1][..n] == cumulative[..n];
        parts := parts + [(t.entry, LegSymbols(t)), (t.exit, LegSymbols(t))];
      }
      assert cumulative[..|cumulative|] == cumulative;
      parts := parts + EntryParts(lineage.openEntries);
      if lineage.closed > lineage.tracked { parts := parts + [(None, None)]; }
      if lineage.tracked > |cumulative| { parts := parts + [(Some(INCOMPLETE_CHAIN), None)]; }
    }

    /** What one call of a series said, and when. */
    ghost predicate Answered(call: Call, v: QualificationResult, parts: seq<Part>, reviews: seq<Review>)
      reads reader
    {
      && reader.Valid() && call.start <= call.end <= reader.now
      && (!call.readable ==> v == Qualification.Qualify(None, parts, reviews))
      && (call.readable && Steady(reader.history, call.start, call.end) ==>
        forall k | call.start <= k <= call.end :: v == Qualification.Qualify(Some(reader.history[k]), parts, reviews))
    }

    /** `qualify_observation_series`: each observation is judged by its cumulative parts, in a call of its own
        that begins after the one before it has ended. */
    method QualifyObservationSeries(items: seq<Item>, reviews: seq<seq<Review>>)
      returns (results: seq<QualificationResult>, ghost calls: seq<Call>)
      requires Valid() && |reviews| == |items|
      modifies this, reader`now
      ensures Valid() && |results| == |calls| == |items|
      ensures forall i | 0 <= i < |items| :: Answered(calls[i], results[i], SeriesParts(items, i), reviews[i])
      ensures forall i | 0 < i < |items| :: calls[i - 1].end <= calls[i].start
    {
      hide Qualification.Qualify, Loaded, Steady, BoundParts;
      results, calls := [], [];
      var cumulative: seq<Trade> := [];
      for i := 0 to |items|
        invariant Valid() && |results| == |calls| == i && cumulative == Cumulative(items[..i])
        invariant forall j | 0 <= j < i :: Answered(calls[j], results[j], SeriesParts(items, j), reviews[j])
        invariant forall j | 0 < j < i :: calls[j - 1].end <= calls[j].start
      {
        assert items[..i + 1][..i] == items[..i];
        var parts: seq<Part> := [(None, None)];
        if items[i].Some? {
          cumulative := cumulative + items[i].value.1.added;
          parts := CollectParts(items[i].value.0, items[i].value.1, cumulative);
        }
        assert parts == SeriesParts(items, i);
        var v, start := Qualify(parts, reviews[i]);
        results, calls := results + [v], calls + [Call(start, reader.now, signature.Some?)];
      }
    }
  }

  lemma {:induction false} IgnoresLog(s: Option<System>, b: Bound, symbols: Option<set<Symbol>>)
    ensures !b.logBound ==> Evaluate(s, b, symbols) == Evaluation(MissingProvenance, {LogState}, MissingProvenance)
    ensures b.logBound && !b.Intact() ==>
      Evaluate(s, b, symbols) == Evaluation(MissingProvenance, {IdentityMismatch}, MissingProvenance)
  {
  }
}
