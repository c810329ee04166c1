/** What the write protocol guarantees about every run: any interleaving of admissions, reviewed
    rebases, recoveries, reviews and crashes. */
module ProtocolTheorems {
  import opened MarketTypes
  import opened LogModel
  import opened Admission
  import opened Protocol
  import opened Invariant
  import opened InvariantEvents
  import opened InvariantProcesses
  import opened Finalization
  import opened InvariantSteps
  import opened InvariantHolder
  import opened Effects

  // --------------------------------------------------------- replay refinement

  /** A symbol with no open intent stores exactly its replay, and lineage verification accepts it.
      A symbol with an open intent has exactly one; it stores the replay, plus that intent's rows
      once its market transaction committed. */
  lemma {:induction false} ReplayRefinement(ss: seq<System>, acts: seq<Action>, k: nat, y: Symbol)
    requires Run(ss, acts) && k < |ss|
    ensures var s := ss[k]; var es := s.log.events;
      && Lineage(s.Base(y), Head(s.log.versions, y))
      && (OpenIntents(es, y) == {} ==>
            s.Stored(y) == Replay(s.Base(y), Head(s.log.versions, y)) && Verified(s.log, s.Base(y), y, s.Stored(y)))
      && forall i | i in OpenIntents(es, y) ::
           && OpenIntents(es, y) == {i}
           && var replay := Replay(s.Base(y), Head(s.log.versions, y));
           s.Stored(y) == if i in s.committed then Overlay(replay, es[i].obs.Rows(), es[i].Claimed()) else replay
  {
    RunInv(ss, acts, k);
    var s := ss[k];
    if OpenIntents(s.log.events, y) == {} {
      forall i | Open(s.log.events, i)
        ensures s.log.events[i].Symbol() != y
      {
        assert i !in OpenIntents(s.log.events, y);
      }
      QuietSymbol(s, y);
      VerifiedQuiet(s, y);
    }
    forall i | i in OpenIntents(s.log.events, y)
      ensures OpenIntents(s.log.events, y) == {i} && IntentSound(s, i)
    {
    }
  }

  // ------------------------------------------------------------- recovery truth

  /** Every state event that closes an intent tells whether its market transaction committed. */
  ghost predicate Truthful(s: System) {
    forall i, j | 0 <= i < j < |s.log.events| && Closes(s.log.events, i, j) ::
      if i in s.committed then s.log.events[j].Applied? else s.log.events[j].Abandoned?
  }

  /** Event `j` is the first state event of intent `i`'s observation after it. */
  ghost predicate Closes(es: seq<Event>, i: int, j: int)
    requires 0 <= i < j < |es|
  {
    es[i].IsIntent() && es[j].IsState() && es[j].obs == es[i].obs && Latest(es[..j], es[i].obs) == i
  }

  lemma {:induction false} ClosesPrefix(es: seq<Event>, es': seq<Event>, i: int, j: int)
    requires 0 <= i < j < |es| && es <= es'
    ensures Closes(es', i, j) <==> Closes(es, i, j)
  {
    assert es'[..j] == es[..j];
    assert es'[i] == es[i] && es'[j] == es[j];
  }

  lemma {:induction false} TruthfulAppend(s: System, s': System, e: Event)
    requires Truthful(s) && s'.committed == s.committed && s'.log.events == s.log.events + [e]
    requires var last := Latest(s.log.events, e.obs);
      e.IsState() && last >= 0 && s.log.events[last].IsIntent() ==>
        if last in s.committed then e.Applied? else e.Abandoned?
    ensures Truthful(s')
  {
    var es, es' := s.log.events, s'.log.events;
    forall i, j | 0 <= i < j < |es'| && Closes(es', i, j)
      ensures if i in s.committed then es'[j].Applied? else es'[j].Abandoned?
    {
      if j < |es| { ClosesPrefix(es, es', i, j); assert es'[j] == es[j]; } else { assert es'[..j] == es; }
    }
  }

  lemma {:induction false} TruthfulCommit(s: System, s': System, i: nat)
    requires Truthful(s) && Commits(s, s', i)
    ensures Truthful(s')
  {
    var es := s.log.events;
    forall j | i < j < |es|
      ensures !Closes(es, i, j)
    {
    }
  }

  lemma {:induction false} TruthfulEffect(s: System, s': System, effect: Effect)
    requires Truthful(s) && Has(s, s', effect)
    ensures Truthful(s')
  {
    match effect
    case Silent =>
    case Reviews(_) =>
    case CommitsMarket(i) => TruthfulCommit(s, s', i);
    case Writes(e) => TruthfulAppend(s, s', e);
    case Lands(i, bound) =>
      FinalizedTables(s, i, bound);
      TruthfulAppend(s, s', s'.log.events[|s.log.events|]);
    case Confirms(o, binding) =>
      assert !Open(s.log.events, Latest(s.log.events, o));
      TruthfulAppend(s, s', Applied(o, binding.bound));
  }

  /** Whoever closes an intent, in whatever interleaving, records it as applied exactly when its
      market transaction had committed and abandons it otherwise. */
  lemma {:induction false} RecoveryTruth(ss: seq<System>, acts: seq<Action>, k: nat)
    requires Run(ss, acts) && k < |ss|
    ensures Truthful(ss[k])
  {
    hide Has, Explains, Inv;
    if k > 0 {
      RecoveryTruth(ss, acts, k - 1);
      var effect := RunEffect(ss, acts, k - 1);
      TruthfulEffect(ss[k - 1], ss[k], effect);
    }
  }

  /** The commit of intent `i` is step `j` of the run. */
  ghost predicate CommittedAt(ss: seq<System>, acts: seq<Action>, j: int, i: nat)
    requires Run(ss, acts) && 0 <= j < |acts|
  {
    (acts[j].Commit? || acts[j].CommitRebase?) && ss[j].lock.HeldBy?
    && (ss[j].lock.pc.Intended? || ss[j].lock.pc.RebaseIntended?) && ss[j].lock.pc.intent == i
  }

  lemma {:induction false} EffectCommitted(s: System, s': System, effect: Effect)
    requires Has(s, s', effect)
    ensures s'.committed == if effect.CommitsMarket? then s.committed + {effect.intent} else s.committed
    ensures effect.CommitsMarket? ==> effect.intent !in s.committed
  {
  }

  /** The history variable says what it is meant to: an intent is in `committed` exactly when the
      run contains its market commit. */
  lemma {:induction false} CommittedMeans(ss: seq<System>, acts: seq<Action>, k: nat, i: nat)
    requires Run(ss, acts) && k < |ss|
    ensures i in ss[k].committed <==> exists j | 0 <= j < k :: CommittedAt(ss, acts, j, i)
  {
    hide Core;
    if k == 0 {
      assert Init(ss[0]);
    } else {
      CommittedMeans(ss, acts, k - 1, i);
      var effect := RunEffect(ss, acts, k - 1);
      EffectCommitted(ss[k - 1], ss[k], effect);
      assert CommittedAt(ss, acts, k - 1, i) <==> effect == CommitsMarket(i);
    }
  }

  /** Settling an open intent in a reachable state finalizes it exactly when its commit happened,
      drops it exactly when it did not, and is never ambiguous or refused. */
  lemma {:induction false} SettlementDecides(ss: seq<System>, acts: seq<Action>, k: nat, i: nat)
    requires Run(ss, acts) && k < |ss| && Open(ss[k].log.events, i)
    ensures var r := Settle(ss[k].log, i, ss[k].Stored(ss[k].log.events[i].Symbol()));
      && (r.Finalized? <==> exists j | 0 <= j < k :: CommittedAt(ss, acts, j, i))
      && (r.Dropped? <==> !exists j | 0 <= j < k :: CommittedAt(ss, acts, j, i))
  {
    RunInv(ss, acts, k);
    SettleOpen(ss[k], i);
    CommittedMeans(ss, acts, k, i);
  }

  /** A settlement in progress never meets an ambiguous or refused intent, even when another live
      process finalizes queued intents meanwhile. */
  lemma {:induction false} QueueSettles(ss: seq<System>, acts: seq<Action>, k: nat, i: nat)
    requires Run(ss, acts) && k < |ss|
    requires ss[k].lock.HeldBy? && ss[k].lock.pc.Settling? && i in ss[k].lock.pc.queue
    ensures i < |ss[k].log.events| && ss[k].log.events[i].IsIntent()
    ensures var r := Settle(ss[k].log, i, ss[k].Stored(ss[k].lock.pc.symbol)); r.Finalized? || r.Dropped?
  {
    RunInv(ss, acts, k);
    if Open(ss[k].log.events, i) { SettleOpen(ss[k], i); } else { SettleLanded(ss[k], i); }
  }

  /** After a market commit the original process is never refused its finalization, no matter who
      recovered, reviewed or admitted in between. */
  lemma {:induction false} FinalizationNeverRefused(ss: seq<System>, acts: seq<Action>, k: nat, f: Finisher)
    requires Run(ss, acts) && k < |ss| && f in ss[k].finishers
    ensures match f
      case AppendFinisher(o, i, binding, content) =>
        i < |ss[k].log.events| && RecordApplication(ss[k].log, o, ss[k].log.events[i].Claimed(), content,
          Some(binding)).Ok?
      case RebaseFinisher(i) => RecordRebase(ss[k].log, i).Ok?
  {
    RunInv(ss, acts, k);
    FinisherSucceeds(ss[k], f);
  }

  /** The holder is never refused either: a declared rebase still produces its reviewed rows, and
      a decision without new sessions is finalized. */
  lemma {:induction false} HolderNeverRefused(ss: seq<System>, acts: seq<Action>, k: nat)
    requires Run(ss, acts) && k < |ss| && ss[k].lock.HeldBy?
    ensures match ss[k].lock.pc
      case RebaseIntended(i) =>
        && i < |ss[k].log.events| && ss[k].log.events[i].RebaseIntent?
        && var e := ss[k].log.events[i];
        Overlay(ss[k].Stored(e.Symbol()), e.obs.Rows(), e.plan.sessions) == e.plan.post
      case Decided(o, binding, newer) =>
        newer == {} ==> RecordApplication(ss[k].log, o, {}, ss[k].Stored(o.Symbol()), Some(binding)).Ok?
      case _ => true
  {
    RunInv(ss, acts, k);
    var s := ss[k];
    match s.lock.pc
    case RebaseIntended(i) => assert IntentSound(s, i);
    case Decided(o, binding, newer) => EmptyApplication(s.log, o, s.Stored(o.Symbol()), binding);
    case _ =>
  }

  // ----------------------------------------------------------- dataset versions

  /** The committed intents whose finalization has happened. */
  function Closed(s: System): set<nat> {
    set i | i in s.committed && !Open(s.log.events, i)
  }

  lemma {:induction false} ClosedAppend(s: System, s': System, e: Event)
    requires CommittedIntents(s) && s'.committed == s.committed && s'.log.events == s.log.events + [e]
    requires var last := Latest(s.log.events, e.obs);
      e.IsState() && last >= 0 && s.log.events[last].IsIntent() ==> last !in s.committed
    ensures Closed(s') == Closed(s)
  {
    var es := s.log.events;
    OpenAppend(es, e);
    forall i | i in s.committed
      ensures Open(s'.log.events, i) <==> Open(es, i)
    {
    }
  }

  lemma {:induction false} ClosedLands(s: System, s': System, i: nat, ref: VersionRef)
    requires CommittedIntents(s) && s'.committed == s.committed && Open(s.log.events, i) && i in s.committed
    requires s'.log.events == s.log.events + [Applied(s.log.events[i].obs, ref)]
    ensures Closed(s') == Closed(s) + {i} && i !in Closed(s)
  {
    var es, es' := s.log.events, s'.log.events;
    OpenAppend(es, es'[|es|]);
    forall j | j in s.committed
      ensures Open(es', j) <==> Open(es, j) && j != i
    {
    }
  }

  /** One step: a version appears exactly when a committed intent is finalized for the first time. */
  lemma {:induction false} VersionEffect(s: System, s': System, effect: Effect)
    requires CommittedIntents(s) && Has(s, s', effect)
    ensures !effect.Lands? ==> s'.log.versions == s.log.versions && Closed(s') == Closed(s)
    ensures effect.Lands? ==>
      && Closed(s') == Closed(s) + {effect.intent} && effect.intent !in Closed(s)
      && s'.log.versions ==
           s.log.versions + [SymbolVersion(s.log.events[effect.intent].Symbol(), FinalizedVersion(s, effect.intent))]
  {
    match effect
    case Silent =>
    case Reviews(_) =>
    case CommitsMarket(i) => assert Closed(s') == Closed(s);
    case Writes(e) => ClosedAppend(s, s', e);
    case Confirms(o, binding) =>
      assert !Open(s.log.events, Latest(s.log.events, o));
      ClosedAppend(s, s', Applied(o, binding.bound));
    case Lands(i, bound) =>
      FinalizedTables(s, i, bound);
      ClosedLands(s, s', i, FinalizedVersion(s, i));
  }

  /** Each committed append or rebase creates exactly one version; nothing else creates any. */
  lemma {:induction false} OneVersionPerCommit(ss: seq<System>, acts: seq<Action>, k: nat)
    requires Run(ss, acts) && k < |ss|
    ensures |ss[k].log.versions| == |Closed(ss[k])|
  {
    hide LogInv, OpenSound, Quiet, Lineages, AllGrown, RevisionsSound, Has;
    if k > 0 {
      OneVersionPerCommit(ss, acts, k - 1);
      var effect := RunEffect(ss, acts, k - 1);
      VersionEffect(ss[k - 1], ss[k], effect);
    } else {
      assert Init(ss[0]);
    }
  }

  /** Blocked, no-op and retried admissions, declarations, commits, crashes and reviews never move
      the versions; only a first finalization does, by its own process or by recovery. */
  lemma {:induction false} OnlyFinalizationMoves(ss: seq<System>, acts: seq<Action>, k: nat)
    requires Run(ss, acts) && k < |acts|
    ensures DatasetVersion(ss[k + 1].log.versions) != DatasetVersion(ss[k].log.versions) <==>
            exists i | i in Closed(ss[k + 1]) :: i !in Closed(ss[k])
    ensures DatasetVersion(ss[k + 1].log.versions) != DatasetVersion(ss[k].log.versions) ==>
            acts[k].Finish? || acts[k].SettleOne?
  {
    var effect := RunEffect(ss, acts, k);
    VersionEffect(ss[k], ss[k + 1], effect);
    if effect.Lands? {
      RunInv(ss, acts, k + 1);
      VersionsDistinct(ss[k].log.versions, ss[k + 1].log.versions);
    }
  }

  lemma {:induction false} HeadDepth(vs: seq<SymbolVersion>, k: nat, y: Symbol)
    requires Chained(vs) && k <= |vs|
    ensures Depth(Head(vs[..k], y)) <= Depth(Head(vs, y))
    decreases |vs|
  {
    if k < |vs| {
      var n := |vs| - 1;
      var prior := vs[..n];
      forall j | 0 <= j < |prior| ensures prior[..j] == vs[..j] {}
      assert prior[..k] == vs[..k];
      HeadDepth(prior, k, y);
    } else {
      assert vs[..k] == vs;
    }
  }

  lemma {:induction false} VersionsDistinct(vs: seq<SymbolVersion>, vs': seq<SymbolVersion>)
    requires Chained(vs') && vs < vs'
    ensures DatasetVersion(vs') != DatasetVersion(vs)
  {
    var n := |vs'| - 1;
    var y := vs'[n].symbol;
    var prior := vs'[..n];
    forall j | 0 <= j < |prior| ensures prior[..j] == vs'[..j] {}
    assert prior[..|vs|] == vs;
    HeadDepth(prior, |vs|, y);
    assert Depth(Head(vs', y)) == Depth(Head(prior, y)) + 1;
    assert vs'[n] in vs' && y in DatasetVersion(vs');
    if y in DatasetVersion(vs) { assert DatasetVersion(vs)[y] == Head(vs, y); }
  }

  lemma {:induction false} VersionsGrow(ss: seq<System>, acts: seq<Action>, j: nat, k: nat)
    requires Run(ss, acts) && j <= k < |ss|
    ensures ss[j].log.versions <= ss[k].log.versions
  {
    hide LogInv, OpenSound, Quiet, Lineages, AllGrown, RevisionsSound, CommittedIntents, Has;
    if j < k {
      VersionsGrow(ss, acts, j, k - 1);
      var effect := RunEffect(ss, acts, k - 1);
      VersionEffect(ss[k - 1], ss[k], effect);
    }
  }

  /** A dataset version never comes back: two states with the same dataset version have the same
      versions, whatever happened between them. */
  lemma {:induction false} DatasetVersionNeverRepeats(ss: seq<System>, acts: seq<Action>, j: nat, k: nat)
    requires Run(ss, acts) && j <= k < |ss|
    requires DatasetVersion(ss[j].log.versions) == DatasetVersion(ss[k].log.versions)
    ensures ss[j].log.versions == ss[k].log.versions
  {
    VersionsGrow(ss, acts, j, k);
    RunInv(ss, acts, k);
    if ss[j].log.versions != ss[k].log.versions { VersionsDistinct(ss[j].log.versions, ss[k].log.versions); }
  }
}
