/** Binding evidence to one dataset version by an optimistic double read, while other processes
    admit, rebase, crash and recover between any two of its queries. */
module EvidenceBinding {
  import opened MarketTypes
  import opened LogModel
  import opened Protocol
  import opened Provenance
  import opened BindingInterval
  import opened LogReader

  datatype Coverage = Point | Window | Unproven

  /** `window` scopes a POINT dependency and is the first consumed session of a WINDOW one. */
  datatype Dependency = Dependency(role: string, symbol: Symbol, session: Session, window: Option<Session>,
      coverage: Coverage)
  {
    predicate Valid() {
      role != "" && symbol != "" && (window.Some? ==> window.value <= session) && (coverage.Window? ==> window.Some?)
    }
    /** The first session an open application must not claim. */
    function Low(): Session { if coverage.Window? && window.Some? then window.value else session }
  }

  datatype BoundOrigin = Known(origin: Origin) | UnprovenSource | NoLog

  datatype Record = Record(dep: Dependency, origin: BoundOrigin, obs: Option<ObsId>, version: Option<VersionRef>,
                           lineage: Option<Summary>)

  datatype BindError = InvalidDependency | StaleDatasetVersion | PendingClaim

  // ------------------------------------------------------------- window reduction

  const WORST_FIRST: seq<Origin> :=
    [PendingApplication, Removed, Unattributed, Absent, BaselineLegacy, RebasedHistory, Observation]

  function Rank(o: Origin): nat {
    match o
    case PendingApplication => 0 case Removed => 1 case Unattributed => 2 case Absent => 3
    case BaselineLegacy => 4 case RebasedHistory => 5 case Observation => 6
  }

  function FirstPresent(order: seq<Origin>, counts: map<Origin, nat>): Origin {
    if order == [] then Absent
    else if order[0] in counts && counts[order[0]] > 0 then order[0]
    else FirstPresent(order[1..], counts)
  }

  /** An empty window proves nothing was consumed: never an observation. */
  function ReduceWindowOrigin(counts: map<Origin, nat>): Origin { FirstPresent(WORST_FIRST, counts) }

  lemma {:induction false} FirstPresentIs(order: seq<Origin>, counts: map<Origin, nat>)
    ensures var r := FirstPresent(order, counts);
      || (r.Absent? && forall o | o in order :: o !in counts || counts[o] == 0)
      || exists k :: 0 <= k < |order| && order[k] == r && r in counts && counts[r] > 0
                     && forall j | 0 <= j < k :: order[j] !in counts || counts[order[j]] == 0
  {
    if order != [] && !(order[0] in counts && counts[order[0]] > 0) {
      FirstPresentIs(order[1..], counts);
      var r := FirstPresent(order[1..], counts);
      if !(r.Absent? && forall o | o in order[1..] :: o !in counts || counts[o] == 0) {
        var k :| 0 <= k < |order[1..]| && order[1..][k] == r && r in counts && counts[r] > 0
                 && forall j | 0 <= j < k :: order[1..][j] !in counts || counts[order[1..][j]] == 0;
        assert order[k + 1] == r;
        forall j | 0 <= j < k + 1 ensures order[j] !in counts || counts[order[j]] == 0 {
          if j > 0 { assert order[j] == order[1..][j - 1]; }
        }
      }
    }
  }

  /** A window is reduced to the worst origin that occurs in it, and to ABSENT when it is empty. */
  lemma {:induction false} WindowReducedToWorst(counts: map<Origin, nat>, triples: set<Triple>)
    requires Histogram(counts, triples)
    ensures var r := ReduceWindowOrigin(counts);
      && (triples == {} ==> r == Absent)
      && (triples != {} ==> (exists x :: x in triples && x.origin == r) && forall x | x in triples ::
        Rank(r) <= Rank(x.origin))
  {
    FirstPresentIs(WORST_FIRST, counts);
    var r := ReduceWindowOrigin(counts);
    forall o ensures WORST_FIRST[Rank(o)] == o {}
    if triples == {} {
      assert forall o :: Having(triples, o) == {};
    } else {
      var x := PickOne(triples);
      assert x.origin in counts && WORST_FIRST[Rank(x.origin)] in WORST_FIRST;
      assert r in counts;
      var y := PickOne(Having(triples, r));
      forall z | z in triples ensures Rank(r) <= Rank(z.origin) { assert z.origin in counts; }
    }
  }

  /** Some session of the window has this origin. */
  ghost predicate Occurs(triples: set<Triple>, o: Origin) { exists x :: x in triples && x.origin == o }

  /** The order of the reduction, worst first. */
  lemma {:induction false} WindowOriginExactly(counts: map<Origin, nat>, triples: set<Triple>)
    requires Histogram(counts, triples)
    ensures ReduceWindowOrigin(counts) ==
      if Occurs(triples, PendingApplication) then PendingApplication
      else if Occurs(triples, Removed) then Removed
      else if Occurs(triples, Unattributed) then Unattributed
      else if Occurs(triples, Absent) || triples == {} then Absent
      else if Occurs(triples, BaselineLegacy) then BaselineLegacy
      else if Occurs(triples, RebasedHistory) then RebasedHistory
      else Observation
  {
    WindowReducedToWorst(counts, triples);
    if triples != {} { var x :| x in triples && x.origin == ReduceWindowOrigin(counts); }
    hide ReduceWindowOrigin, Histogram;
    forall o | Occurs(triples, o) ensures Rank(ReduceWindowOrigin(counts)) <= Rank(o) {
      var x :| x in triples && x.origin == o;
    }
    var r := ReduceWindowOrigin(counts);
    assert triples != {} ==> Occurs(triples, r);
  }

  // --------------------------------------------------------------------- binding

  /** The record says what the log of state `s` attributes to the dependency. */
  ghost predicate Describes(s: System, r: Record) {
    var y, t := r.dep.symbol, r.dep.session;
    match r.dep.coverage
    case Unproven => r.origin == UnprovenSource && r.obs.None? && r.version.None? && r.lineage.None?
    case Point =>
      var a := Settled(s, y, t);
      && r.origin == Known(a.origin) && r.obs == a.obs && r.version == a.version && r.lineage.None?
      && !a.origin.PendingApplication?
    case Window =>
      && r.dep.window.Some? && r.lineage.Some? && r.obs.None? && r.version.None?
      && r.lineage.value.triples == SettledWindow(s, y, r.dep.window.value, t).Triples()
      && Histogram(r.lineage.value.counts, r.lineage.value.triples)
      && r.origin == Known(ReduceWindowOrigin(r.lineage.value.counts))
      && forall x | x in r.lineage.value.triples :: !x.origin.PendingApplication?
  }

  /** What one read recorded, from the moments its queries were answered at. */
  ghost predicate ReadAt(ss: seq<System>, m: Moments, r: Record)
    requires |ss| > 0 && m.Within(0, |ss| - 1)
  {
    var y, t := r.dep.symbol, r.dep.session;
    match r.dep.coverage
    case Unproven => r.origin == UnprovenSource && r.obs.None? && r.version.None? && r.lineage.None?
    case Point =>
      var a := PointAt(ss, m, y, t);
      r.origin == Known(a.origin) && r.obs == a.obs && r.version == a.version && r.lineage.None?
    case Window =>
      && r.dep.window.Some? && r.lineage.Some? && r.obs.None? && r.version.None?
      && r.lineage.value.triples == WindowAt(ss, m, y, r.dep.window.value, t).Triples()
      && Histogram(r.lineage.value.counts, r.lineage.value.triples)
      && r.origin == Known(ReduceWindowOrigin(r.lineage.value.counts))
  }

  /** A session of the dependency is claimed by an open application in state `s`. */
  ghost predicate ClaimedIn(s: System, d: Dependency) {
    exists i, t :: Open(s.log.events, i) && s.log.events[i].Symbol() == d.symbol && t in s.log.events[i].Claimed()
                   && d.Low() <= t <= d.session
  }

  /** What an open application must not claim: the consumed session, or any session of the consumed window. */
  lemma {:induction false} ClaimedExactly(s: System, d: Dependency)
    ensures ClaimedIn(s, d) <==>
      exists i, t ::
        Open(s.log.events, i) && s.log.events[i].obs.Symbol() == d.symbol && t in s.log.events[i].Claimed()
        && if d.coverage.Window? && d.window.Some? then d.window.value <= t <= d.session else t == d.session
  {
    if d.coverage.Window? && d.window.Some? {
      assert d.Low() == d.window.value;
    } else {
      assert d.Low() == d.session;
      assert forall i, t | Open(s.log.events, i) && t in s.log.events[i].Claimed() ::
        d.Low() <= t <= d.session <==> t == d.session;
    }
  }

  lemma {:induction false} ReadIsCoherent(ss: seq<System>, acts: seq<Action>, lo: nat, hi: nat, m: Moments,
      r: Record, k: nat)
    requires Run(ss, acts) && lo <= k <= hi < |ss| && m.Within(lo, hi)
    requires DatasetVersion(ss[lo].log.versions) == DatasetVersion(ss[hi].log.versions)
    requires ReadAt(ss, m, r) && r.origin != Known(PendingApplication)
    ensures Describes(ss[k], r)
  {
    var y, t := r.dep.symbol, r.dep.session;
    match r.dep.coverage
    case Unproven =>
    case Point => PointCoherent(ss, acts, lo, hi, m, y, t, k);
    case Window =>
      var counts, triples := r.lineage.value.counts, r.lineage.value.triples;
      WindowReducedToWorst(counts, triples);
      forall x | x in triples ensures !x.origin.PendingApplication? {
        assert Rank(x.origin) >= Rank(ReduceWindowOrigin(counts));
      }
      WindowCoherent(ss, acts, lo, hi, m, y, r.dep.window.value, t, k);
  }

  lemma {:induction false} ClaimMeans(s: System, d: Dependency, t: Session, rebaseOnly: bool)
    requires FirstClaim(s.log.events, d.symbol, t, rebaseOnly) >= 0 && d.Low() <= t <= d.session
    ensures ClaimedIn(s, d)
  {
    var i := FirstClaim(s.log.events, d.symbol, t, rebaseOnly);
    assert Claims(s.log.events, i, d.symbol, t, rebaseOnly);
  }

  lemma {:induction false} PendingWindowClaimed(es: seq<Event>, q: WindowQueries, r: Summary, y: Symbol,
      start: Session, end: Session) returns (u: Session)
    requires q.Sound() && r.triples == q.Triples() && Histogram(r.counts, r.triples)
    requires ReduceWindowOrigin(r.counts).PendingApplication?
    ensures u in q.pending
  {
    WindowReducedToWorst(r.counts, r.triples);
    var x :| x in r.triples && x.origin == PendingApplication;
    u :| u in q.Covered() && q.Row(u) == x;
    PendingRowClaimed(q, u);
  }

  /** A read is pending only because an open application claimed a session of the dependency. */
  lemma {:induction false} PendingIsClaimed(ss: seq<System>, m: Moments, r: Record)
    requires |ss| > 0 && m.Within(0, |ss| - 1) && ReadAt(ss, m, r) && r.origin == Known(PendingApplication)
      && r.dep.Valid()
    ensures ClaimedIn(ss[m.first], r.dep) || ClaimedIn(ss[m.second], r.dep)
  {
    var d, y, t := r.dep, r.dep.symbol, r.dep.session;
    if d.coverage.Point? {
      if FirstClaim(ss[m.first].log.events, y, t, true) >= 0 { ClaimMeans(ss[m.first], d, t, true); }
      else { ClaimMeans(ss[m.second], d, t, false); }
    } else {
      var start, es := d.window.value, ss[m.second].log.events;
      var q := WindowAt(ss, m, y, start, t);
      var u := PendingWindowClaimed(es, q, r.lineage.value, y, start, t);
      AssembledClaims(ss[m.present].Stored(y), ss[m.owned].log.owned, ss[m.rebases].log.rebases, es,
                      ss[m.second].Base(y), y, start, t, u);
      ClaimMeans(ss[m.second], d, u, false);
    }
  }

  lemma {:induction false} PendingRowClaimed(q: WindowQueries, u: Session)
    requires q.Sound() && u in q.Covered() && q.Row(u).origin.PendingApplication?
    ensures u in q.pending
  {
  }

  /** `MarketBindingSession`: pins the dataset version, then reads against the moving history. */
  class MarketBindingSession {
    const reader: Reader
    const pinned: map<Symbol, VersionRef>
    ghost const pinnedAt: nat

    ghost predicate Valid()
      reads reader
    {
      && reader.Valid() && pinnedAt <= reader.now
      && pinned == DatasetVersion(reader.history[pinnedAt].log.versions)
    }

    constructor (reader: Reader)
      requires reader.Valid()
      ensures Valid() && pinnedAt == reader.now && this.reader == reader
    {
      this.reader := reader;
      this.pinned := DatasetVersion(reader.history[reader.now].log.versions);
      this.pinnedAt := reader.now;
    }

    method AssertPinned() returns (ok: bool)
      requires Valid()
      modifies reader`now
      ensures Valid() && old(reader.now) <= reader.now
      ensures ok <==> DatasetVersion(reader.history[reader.now].log.versions) == pinned
    {
      reader.Tick();
      ok := DatasetVersion(reader.history[reader.now].log.versions) == pinned;
    }

    /** One dependency, read at its own moments. */
    method ReadDependency(d: Dependency) returns (r: Record, ghost m: Moments)
      requires Valid() && d.Valid()
      modifies reader`now
      ensures Valid() && m.Within(old(reader.now), reader.now) && r.dep == d && ReadAt(reader.history, m, r)
    {
      m := Moments(reader.now, reader.now, reader.now, reader.now, reader.now);
      if d.coverage.Unproven? { return Record(d, UnprovenSource, None, None, None), m; }
      if d.coverage.Window? {
        var summary;
        summary, m := reader.WindowProvenance(d.symbol, d.window.value, d.session);
        return Record(d, Known(ReduceWindowOrigin(summary.counts)), None, None, Some(summary)), m;
      }
      var a;
      a, m := reader.SessionProvenance(d.symbol, d.session);
      return Record(d, Known(a.origin), a.obs, a.version, None), m;
    }

    /** Does an open intent claim a session of the dependency reader.now? */
    method OpenlyClaimed(d: Dependency) returns (claimed: bool)
      requires Valid()
      modifies reader`now
      ensures Valid() && old(reader.now) <= reader.now
      ensures claimed <==> ClaimedIn(reader.history[reader.now], d)
    {
      reader.Tick();
      var es := reader.history[reader.now].log.events;
      claimed := exists i | 0 <= i < |es| ::
        Open(es, i) && es[i].Symbol() == d.symbol && exists t | t in es[i].Claimed() :: d.Low() <= t <= d.session;
    }

    /** Every read of the first loop: recorded, none pending. */
    ghost predicate ReadSoFar(records: seq<Record>, moments: seq<Moments>, deps: seq<Dependency>)
      reads reader
    {
      && Valid() && |records| == |moments| <= |deps|
      && forall i | 0 <= i < |records| ::
           && records[i].dep == deps[i] && moments[i].Within(pinnedAt, reader.now)
           && ReadAt(reader.history, moments[i], records[i]) && records[i].origin != Known(PendingApplication)
    }

    ghost predicate SomeClaimed(deps: seq<Dependency>, from: nat)
      reads reader
      requires Valid()
    {
      exists k, i | from <= k <= reader.now && 0 <= i < |deps| :: ClaimedIn(reader.history[k], deps[i])
    }

    /** The first loop of `bind`. */
    method ReadAll(deps: seq<Dependency>) returns (ok: bool, recorded: seq<Record>, ghost moments: seq<Moments>)
      requires Valid() && forall d | d in deps :: d.Valid()
      modifies reader`now
      ensures Valid() && old(reader.now) <= reader.now
      ensures ok ==> ReadSoFar(recorded, moments, deps) && |recorded| == |deps|
      ensures !ok ==> SomeClaimed(deps, pinnedAt)
    {
      hide Run, ClaimedIn, ReadAt;
      recorded, moments := [], [];
      while |recorded| < |deps|
        invariant ReadSoFar(recorded, moments, deps) && old(reader.now) <= reader.now
      {
        ghost var before := reader.now;
        assert deps[|recorded|] in deps;
        var one, m := ReadDependency(deps[|recorded|]);
        if one.origin == Known(PendingApplication) {
          PendingIsClaimed(reader.history, m, one);
          return false, recorded, moments;
        }
        recorded, moments := recorded + [one], moments + [m];
      }
      return true, recorded, moments;
    }

    /** The second loop: an application may have opened after the read. */
    method CheckClaims(deps: seq<Dependency>, ghost from: nat) returns (ok: bool)
      requires Valid() && from == reader.now
      modifies reader`now
      ensures Valid() && from <= reader.now
      ensures ok ==> forall i | 0 <= i < |deps| && !deps[i].coverage.Unproven? :: exists k | from <= k <= reader.now ::
        !ClaimedIn(reader.history[k], deps[i])
      ensures !ok ==> SomeClaimed(deps, from)
    {
      var n := 0;
      while n < |deps|
        invariant Valid() && n <= |deps| && from <= reader.now
        invariant forall i | 0 <= i < n && !deps[i].coverage.Unproven? :: exists k | from <= k <= reader.now ::
          !ClaimedIn(reader.history[k], deps[i])
      {
        if !deps[n].coverage.Unproven? {
          var claimed := OpenlyClaimed(deps[n]);
          if claimed { return false; }
        }
        n := n + 1;
      }
      return true;
    }

    lemma {:induction false} AllCoherent(recorded: seq<Record>, moments: seq<Moments>, deps: seq<Dependency>)
      requires ReadSoFar(recorded, moments, deps) && |recorded| == |deps|
      requires DatasetVersion(reader.history[reader.now].log.versions) == pinned
      ensures forall k, i | pinnedAt <= k <= reader.now && 0 <= i < |deps| ::
        recorded[i].dep == deps[i] && Describes(reader.history[k], recorded[i])
    {
      forall k, i | pinnedAt <= k <= reader.now && 0 <= i < |deps|
        ensures Describes(reader.history[k], recorded[i])
      {
        ReadIsCoherent(reader.history, reader.acts, pinnedAt, reader.now, moments[i], recorded[i], k);
      }
    }

    /** `bind`. A successful binding describes, dependency by dependency, what the log attributes in
        EVERY state from the decision to the closing version check: one coherent dataset state, the
        pinned one. A refusal is genuine: the version really moved, or a consumed session was claimed. */
    method Bind(deps: seq<Dependency>) returns (r: Result<seq<Record>, BindError>, ghost until: nat)
      requires Valid()
      modifies reader`now
      ensures Valid() && old(reader.now) <= reader.now
      ensures r.Ok? ==>
        && |r.value| == |deps| && pinnedAt <= until <= reader.now
        && DatasetVersion(reader.history[until].log.versions) == pinned
        && forall k, i | pinnedAt <= k <= until && 0 <= i < |deps| ::
          r.value[i].dep == deps[i] && Describes(reader.history[k], r.value[i])
      ensures r.Ok? ==> forall i | 0 <= i < |deps| && !deps[i].coverage.Unproven? ::
        exists k | until <= k <= reader.now :: !ClaimedIn(reader.history[k], deps[i])
      ensures r == Err(InvalidDependency) <==> exists d | d in deps :: !d.Valid()
      ensures r == Err(StaleDatasetVersion) ==> DatasetVersion(reader.history[reader.now].log.versions) != pinned
      ensures r == Err(PendingClaim) ==> SomeClaimed(deps, pinnedAt)
    {
      until := reader.now;
      if exists d | d in deps :: !d.Valid() { return Err(InvalidDependency), reader.now; }
      var ok := AssertPinned();
      if !ok { return Err(StaleDatasetVersion), reader.now; }
      var recorded;
      ghost var moments;
      ok, recorded, moments := ReadAll(deps);
      if !ok { return Err(PendingClaim), reader.now; }
      ok := AssertPinned();
      if !ok { return Err(StaleDatasetVersion), reader.now; }
      until := reader.now;
      AllCoherent(recorded, moments, deps);
      ok := CheckClaims(deps, until);
      return if ok then Ok(recorded) else Err(PendingClaim), until;
    }
  }
}
