/** A finalized reviewed rebase leaves no seam, and the same provider content is accepted again. */
module RebaseTheorems {
  import opened MarketTypes
  import opened LogModel
  import opened Admission
  import opened Protocol
  import opened Invariant
  import opened InvariantFinalize
  import opened Finalization
  import opened InvariantHolder
  import opened Effects

  /** The identity an attempt runs under: an applied receipt that no longer matches the stored rows
      is re-admitted as a new observation bound to the current basis. */
  function AttemptIdentity(log: Log, o: ObsId, stored: Rows): ObsId {
    if IsApplied(log.events, o) && !ReceiptMatches(o.Rows(), stored)
    then Readmitted(o, Head(log.versions, o.Symbol()))
    else o
  }

  /** Stored history that an observation confirms in full, with nothing missing inside it. */
  lemma {:induction false} ConfirmedHistory(stored: Rows, rows: Rows, start: Session, end: Session)
    requires stored != map[]
    requires forall t | t in stored :: t in rows && rows[t] == stored[t] && start <= t <= end
    requires forall t | t in rows && t !in stored :: Before(stored, t)
    ensures var c := Classify(stored, rows, start, end);
      && c.verdict == (if rows.Keys <= stored.Keys then NoNewSessions else AppendSessions)
      && c.confirmed == stored.Keys && c.newer == rows.Keys - stored.Keys
    ensures ReceiptMatches(rows, stored) <==> rows.Keys <= stored.Keys
  {
    var c := Classify(stored, rows, start, end);
    var window := InWindow(stored, start, end);
    assert window == stored;
    forall t | t in rows && t !in stored ensures t !in c.unstored { assert Before(stored, t); }
    assert c.unstored == {} && c.changed == {} && c.missing == {};
    assert c.newer == rows.Keys - stored.Keys;
    if c.newer == {} {
      forall t | t in rows.Keys ensures t in stored.Keys { assert t !in c.newer; }
    } else {
      var t := PickOne(c.newer);
      assert t in rows.Keys && t !in stored.Keys;
    }
  }

  lemma {:induction false} Reattempt(log: Log, o: ObsId, stored: Rows)
    requires stored != map[] && IsApplied(log.events, o)
    requires forall t | t in stored :: t in o.Rows() && stored[t] == o.Rows()[t] && o.Start() <= t <= o.End()
    requires forall t | t in o.Rows() && t !in stored :: Before(stored, t)
    ensures var c := Classify(stored, o.Rows(), o.Start(), o.End());
      && c.Admits() && c.confirmed == stored.Keys && c.newer == o.Rows().Keys - stored.Keys
      && AttemptIdentity(log, o, stored) == if c.newer == {} then o else Readmitted(o, Head(log.versions, o.Symbol()))
  {
    ConfirmedHistory(stored, o.Rows(), o.Start(), o.End());
  }

  lemma {:induction false} LandsApplies(s: System, s': System, i: nat, binding: Option<Binding>)
    requires Has(s, s', Lands(i, binding))
    ensures IsApplied(s'.log.events, s.log.events[i].obs)
  {
    FinalizedTables(s, i, binding);
    assert s'.log.events[|s.log.events|].Applied? && s'.log.events[|s.log.events|].obs == s.log.events[i].obs;
  }

  /** The step that finalizes a rebase: no session appears or disappears, every stored value is
      the reviewed observation's, and offering that observation's content again is accepted. The
      receipt is reused exactly when the rebase left no later session out; otherwise the content is
      re-admitted against the new basis and exactly those later sessions are appended. */
  lemma {:induction false} RebaseLeavesNoSeam(ss: seq<System>, acts: seq<Action>, k: nat, i: nat)
    requires Run(ss, acts) && k < |acts|
    requires Open(ss[k].log.events, i) && ss[k].log.events[i].RebaseIntent? && i in ss[k].committed
    requires !Open(ss[k + 1].log.events, i)
    ensures var s, s', o := ss[k], ss[k + 1], ss[k].log.events[i].obs; var y := o.Symbol();
      var stored := s'.Stored(y);
      && stored.Keys == Replay(s.Base(y), Head(s.log.versions, y)).Keys
      && stored == Replay(s'.Base(y), Head(s'.log.versions, y))
      && (forall t | t in stored :: t in o.Rows() && stored[t] == o.Rows()[t])
      && var c := Classify(stored, o.Rows(), o.Start(), o.End());
      && c.Admits() && c.confirmed == stored.Keys && c.newer == o.Rows().Keys - stored.Keys
      && AttemptIdentity(s'.log, o, stored) == if c.newer == {} then o else Readmitted(o, Head(s'.log.versions, y))
  {
    var effect := RunEffect(ss, acts, k);
    var s, s' := ss[k], ss[k + 1];
    OnlyLandingCloses(s, s', effect, i);
    RunInv(ss, acts, k + 1);
    LandedRebase(s, s', i, effect.bound);
  }

  lemma {:induction false} OnlyLandingCloses(s: System, s': System, effect: Effect, i: nat)
    requires Core(s) && Has(s, s', effect)
    requires Open(s.log.events, i) && i in s.committed && !Open(s'.log.events, i)
    ensures effect.Lands? && effect.intent == i
  {
    match effect
    case Writes(e) => InvariantEvents.OpenAppend(s.log.events, e);
    case Confirms(o, binding) => InvariantEvents.OpenAppend(s.log.events, Applied(o, binding.bound));
    case Lands(j, bound) =>
      FinalizedTables(s, j, bound);
      InvariantEvents.OpenAppend(s.log.events, s'.log.events[|s.log.events|]);
    case _ =>
  }

  /** What the finalized rebase stored: the observation's own values on unchanged sessions. */
  lemma {:induction false} LandedContent(s: System, s': System, i: nat, binding: Option<Binding>)
    requires Core(s) && Has(s, s', Lands(i, binding)) && s.log.events[i].RebaseIntent?
    ensures var o := s.log.events[i].obs; var stored := s'.Stored(o.Symbol());
      && stored == s'.Content(o.Symbol()) && stored.Keys == s.Content(o.Symbol()).Keys && stored != map[]
      && (forall t | t in stored :: t in o.Rows() && stored[t] == o.Rows()[t] && o.Start() <= t <= o.End())
      && (forall t | t in o.Rows() && t !in stored :: Before(stored, t))
  {
    var e := s.log.events[i];
    var o, y := e.obs, e.Symbol();
    assert IntentSound(s, i);
    RebaseMoves(s, i, s');
    MoveContent(s, s', i, RebaseVersion(s.log, e));
    var stored, content := s'.Stored(y), s.Content(y);
    assert stored == Overlay(content, o.Rows(), e.plan.sessions);
    assert stored.Keys == content.Keys;
    var t := PickOne(e.plan.sessions);
    assert t in stored;
    assert o in s.log.observations && o.Valid();
  }

  lemma {:induction false} LandedRebase(s: System, s': System, i: nat, binding: Option<Binding>)
    requires Core(s) && Has(s, s', Lands(i, binding)) && s.log.events[i].RebaseIntent?
    ensures var o := s.log.events[i].obs; var y := o.Symbol(); var stored := s'.Stored(y);
      && stored.Keys == s.Content(y).Keys
      && stored == s'.Content(y)
      && (forall t | t in stored :: t in o.Rows() && stored[t] == o.Rows()[t])
      && var c := Classify(stored, o.Rows(), o.Start(), o.End());
      && c.Admits() && c.confirmed == stored.Keys && c.newer == o.Rows().Keys - stored.Keys
      && AttemptIdentity(s'.log, o, stored) == if c.newer == {} then o else Readmitted(o, Head(s'.log.versions, y))
  {
    var o := s.log.events[i].obs;
    LandedContent(s, s', i, binding);
    LandsApplies(s, s', i, binding);
    Reattempt(s'.log, o, s'.Stored(o.Symbol()));
  }
}
