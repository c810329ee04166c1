/** Finalizing a committed intent, or a decision without new sessions, keeps the core invariant. */
module InvariantFinalize {
  import opened MarketTypes
  import opened LogModel
  import opened Protocol
  import opened Invariant
  import opened InvariantEvents

  /** `s'` is `s` after one application result that creates version `ref` for the open intent `i`. */
  ghost predicate Moves(s: System, s': System, i: nat, ref: VersionRef) {
    && i < |s.log.events| && s.log.events[i].IsIntent()
    && var e := s.log.events[i];
    && s'.baseline == s.baseline && s'.market == s.market && s'.committed == s.committed
    && s'.log.observations == s.log.observations
    && s'.log.events == s.log.events + [Applied(e.obs, ref)]
    && s'.log.versions == s.log.versions + [SymbolVersion(e.Symbol(), ref)]
    && s.log.resolutions.Keys <= s'.log.resolutions.Keys
    && ref.Version? && ref.parent == Head(s.log.versions, e.Symbol()) && ref.obs == e.obs && ref.sessions == e.Claimed()
    && ref.content == Overlay(s.Content(e.Symbol()), e.obs.Rows(), e.Claimed())
    && (e.Intent? ==>
          && s'.log.rebases == s.log.rebases
          && s'.log.owned == s.log.owned + map t | t in e.Claimed() :: (e.Symbol(), t) := Owner(e.obs, ref))
    && (e.RebaseIntent? ==>
          && s'.log.rebases == s.log.rebases + [RebaseRecord(e.plan.block, e.obs, e.plan.sessions, ref)]
          && s'.log.owned == s.log.owned
          && e.plan.block in s'.log.resolutions)
  }

  /** The new resolutions: blocks no open rebase claims, or blocks of the symbol being rebased. */
  ghost predicate MoveResolves(s: System, s': System, i: nat)
    requires i < |s.log.events|
  {
    && ResolvedBlocks(s'.log)
    && forall b | b in s'.log.resolutions && b !in s.log.resolutions ::
         b < |s.log.events| && (!OwnedByRebase(s.log.events, b) || s.log.events[b].Symbol() == s.log.events[i].Symbol())
  }

  lemma {:induction false} NotYetApplied(log: Log, i: nat)
    requires Absorbing(log.events) && Open(log.events, i)
    ensures !IsApplied(log.events, log.events[i].obs)
  {
  }

  lemma {:induction false} MoveContent(s: System, s': System, i: nat, ref: VersionRef)
    requires Moves(s, s', i, ref)
    ensures forall y ::
      Head(s'.log.versions, y) == if y == s.log.events[i].Symbol() then ref else Head(s.log.versions, y)
    ensures forall y :: s'.Base(y) == s.Base(y) && s'.Stored(y) == s.Stored(y)
    ensures forall y | y != s.log.events[i].Symbol() :: s'.Content(y) == s.Content(y)
    ensures s'.Content(s.log.events[i].Symbol()) == ref.content
  {
    HeadAppend(s.log.versions, SymbolVersion(s.log.events[i].Symbol(), ref));
  }

  lemma {:induction false} AppliedEvents(es: seq<Event>, o: ObsId, ref: VersionRef)
    requires Absorbing(es) && OneOpen(es) && !IsApplied(es, o)
    ensures Absorbing(es + [Applied(o, ref)]) && OneOpen(es + [Applied(o, ref)])
  {
    var es' := es + [Applied(o, ref)];
    LatestAppend(es, Applied(o, ref));
    OpenAppend(es, Applied(o, ref));
    assert forall k | 0 <= k < |es| :: es'[k] == es[k];
    forall k | 0 <= k < |es'| && es'[k].Applied?
      ensures Latest(es', es'[k].obs) == k
    {
      if k < |es| { assert IsApplied(es, es[k].obs); }
    }
  }

  lemma {:induction false} MoveChained(s: System, s': System, i: nat, ref: VersionRef)
    requires Chained(s.log.versions) && Moves(s, s', i, ref)
    ensures Chained(s'.log.versions)
  {
    var vs, vs' := s.log.versions, s'.log.versions;
    forall k | 0 <= k < |vs'|
      ensures vs'[k].ref.Version? && vs'[k].ref.parent == Head(vs'[..k], vs'[k].symbol)
        && vs'[k].ref.obs.Symbol() == vs'[k].symbol
    {
      assert vs'[..k] == vs[..k];
      if k == |vs| { assert vs[..k] == vs; }
    }
  }

  lemma {:induction false} MoveOneRevision(s: System, s': System, i: nat, ref: VersionRef)
    requires OneRevision(s.log) && Moves(s, s', i, ref)
    ensures OneRevision(s'.log)
  {
    var es, es' := s.log.events, s'.log.events;
    forall b, c | IsRevision(es', b) && IsRevision(es', c)
                  && b !in s'.log.resolutions && c !in s'.log.resolutions && es'[b].obs == es'[c].obs
      ensures b == c
    {
      assert IsRevision(es, b) && IsRevision(es, c);
    }
  }

  lemma {:induction false} MoveLogInv(s: System, s': System, i: nat, ref: VersionRef)
    requires Core(s) && Moves(s, s', i, ref) && MoveResolves(s, s', i) && Open(s.log.events, i)
    ensures LogInv(s'.log)
  {
    NotYetApplied(s.log, i);
    AppliedEvents(s.log.events, s.log.events[i].obs, ref);
    MoveChained(s, s', i, ref);
    MoveOneRevision(s, s', i, ref);
  }

  lemma {:induction false} MoveOpenSound(s: System, s': System, i: nat, ref: VersionRef)
    requires Core(s) && Moves(s, s', i, ref) && MoveResolves(s, s', i) && Open(s.log.events, i)
    ensures OpenSound(s') && CommittedIntents(s')
  {
    var es, es' := s.log.events, s'.log.events;
    OpenAppend(es, es'[|es|]);
    MoveContent(s, s', i, ref);
    assert forall k | 0 <= k < |es| :: es'[k] == es[k];
    forall j: nat | Open(es', j)
      ensures IntentSound(s', j)
    {
      assert Open(es, j) && j != i;
      assert es[j].Symbol() != es[i].Symbol();
      assert IntentSound(s, j);
      if es[j].RebaseIntent? {
        var b := es[j].plan.block;
        assert OwnedByRebase(es, b);
        assert es[b].obs == es[j].obs;
      }
      IntentFrame(s, s', j);
    }
  }

  lemma {:induction false} MoveQuiet(s: System, s': System, i: nat, ref: VersionRef)
    requires Core(s) && Moves(s, s', i, ref) && Open(s.log.events, i) && i in s.committed
    ensures Quiet(s')
  {
    var es, es' := s.log.events, s'.log.events;
    OpenAppend(es, es'[|es|]);
    MoveContent(s, s', i, ref);
    assert IntentSound(s, i);
    forall y
      ensures s'.Stored(y) == s'.Content(y) || LandedOn(s', y)
    {
      if y != es[i].Symbol() && s.Stored(y) != s.Content(y) {
        var j :| j in s.committed && Open(es, j) && es[j].Symbol() == y;
        assert es'[j] == es[j];
        assert Open(es', j);
      }
    }
  }

  lemma {:induction false} MoveHasRebase(s: System, s': System, i: nat, ref: VersionRef, y: Symbol)
    requires Moves(s, s', i, ref)
    ensures HasRebase(s.log.rebases, y) ==> HasRebase(s'.log.rebases, y)
    ensures s.log.events[i].RebaseIntent? && y == s.log.events[i].Symbol() ==> HasRebase(s'.log.rebases, y)
  {
    var rs, rs' := s.log.rebases, s'.log.rebases;
    if HasRebase(rs, y) {
      var k :| 0 <= k < |rs| && rs[k].Symbol() == y;
      assert rs'[k] == rs[k];
    }
    if s.log.events[i].RebaseIntent? { assert rs'[|rs|].Symbol() == s.log.events[i].Symbol(); }
  }

  /** A finalization that adds the claimed sessions, if any, behind the stored ones keeps a symbol grown. */
  lemma {:induction false} GrownBy(s: System, s': System, y: Symbol, rows: Rows, claimed: set<Session>)
    requires Grown(s, y) && s'.Base(y) == s.Base(y) && claimed <= rows.Keys
    requires s'.Content(y) == Overlay(s.Content(y), rows, claimed) && forall t | t in claimed :: Before(s.Content(y), t)
    requires HasRebase(s.log.rebases, y) ==> HasRebase(s'.log.rebases, y)
    requires forall t :: (y, t) in s'.log.owned <==> (y, t) in s.log.owned || t in claimed
    ensures Grown(s', y)
  {
    hide HasRebase, Replay;
  }

  lemma {:induction false} GrownRebased(s: System, s': System, y: Symbol)
    requires Grown(s, y) && s'.Base(y) == s.Base(y) && s'.Content(y).Keys == s.Content(y).Keys
    requires HasRebase(s'.log.rebases, y) && forall t :: (y, t) in s'.log.owned <==> (y, t) in s.log.owned
    ensures Grown(s', y)
  {
    hide HasRebase, Replay, Before;
  }

  lemma {:induction false} SoundParts(s: System, i: nat, y: Symbol)
    requires Core(s) && Open(s.log.events, i)
    ensures Grown(s, y) && IntentSound(s, i)
  {
    hide Grown, IntentSound;
  }

  lemma {:induction false} MoveOwnedElsewhere(s: System, s': System, i: nat, ref: VersionRef, y: Symbol)
    requires Moves(s, s', i, ref) && y != s.log.events[i].Symbol()
    ensures forall t :: (y, t) in s'.log.owned <==> (y, t) in s.log.owned
  {
  }

  lemma {:induction false} MoveGrownElsewhere(s: System, s': System, i: nat, ref: VersionRef, y: Symbol)
    requires Core(s) && Moves(s, s', i, ref) && Open(s.log.events, i) && y != s.log.events[i].Symbol()
    ensures Grown(s', y)
  {
    hide Core, Moves, HasRebase, Replay, Before, Grown, IntentSound, Overlay, Open;
    SoundParts(s, i, y);
    MoveContent(s, s', i, ref);
    MoveHasRebase(s, s', i, ref, y);
    MoveOwnedElsewhere(s, s', i, ref, y);
    NothingOverlaid(s.Content(y));
    GrownBy(s, s', y, map[], {});
  }

  lemma {:induction false} NothingOverlaid(stored: Rows)
    ensures Overlay(stored, map[], {}) == stored
  {
  }

  lemma {:induction false} MoveGrownAppend(s: System, s': System, i: nat, ref: VersionRef, y: Symbol)
    requires Core(s) && Moves(s, s', i, ref) && Open(s.log.events, i)
    requires s.log.events[i].Intent? && y == s.log.events[i].Symbol()
    ensures Grown(s', y)
  {
    hide Core, HasRebase, Replay, Before, Grown, PlanSound;
    SoundParts(s, i, y);
    MoveContent(s, s', i, ref);
    MoveHasRebase(s, s', i, ref, y);
    GrownBy(s, s', y, s.log.events[i].obs.Rows(), s.log.events[i].Claimed());
  }

  lemma {:induction false} MoveGrownSymbol(s: System, s': System, i: nat, ref: VersionRef, y: Symbol)
    requires Core(s) && Moves(s, s', i, ref) && Open(s.log.events, i)
    ensures Grown(s', y)
  {
    hide Core, HasRebase, Replay, Before, Grown;
    var e := s.log.events[i];
    if y != e.Symbol() {
      MoveGrownElsewhere(s, s', i, ref, y);
    } else if e.Intent? {
      MoveGrownAppend(s, s', i, ref, y);
    } else {
      SoundParts(s, i, y);
      MoveContent(s, s', i, ref);
      MoveHasRebase(s, s', i, ref, y);
      assert s'.Content(y).Keys == s.Content(y).Keys;
      GrownRebased(s, s', y);
    }
  }

  lemma {:induction false} MoveGrown(s: System, s': System, i: nat, ref: VersionRef)
    requires Core(s) && Moves(s, s', i, ref) && Open(s.log.events, i)
    ensures Lineages(s') && AllGrown(s')
  {
    forall y
      ensures Grown(s', y)
    {
      MoveGrownSymbol(s, s', i, ref, y);
    }
    MoveContent(s, s', i, ref);
    forall y
      ensures Lineage(s'.Base(y), Head(s'.log.versions, y))
    {
      assert Lineage(s.Base(y), Head(s.log.versions, y));
    }
  }

  lemma {:induction false} MoveRevisions(s: System, s': System, i: nat, ref: VersionRef)
    requires Core(s) && Moves(s, s', i, ref) && Open(s.log.events, i)
    ensures RevisionsSound(s')
  {
    var es, es' := s.log.events, s'.log.events;
    var e := es[i];
    OpenAppend(es, es'[|es|]);
    MoveContent(s, s', i, ref);
    assert IntentSound(s, i);
    forall b: nat | IsRevision(es', b)
      ensures RevisionSound(s', b)
    {
      assert b < |es| && es'[b] == es[b] && IsRevision(es, b);
      MoveRevision(s, s', i, ref, b);
    }
  }

  /** An applied observation still stores a session of its request outside the block's window. */
  lemma {:induction false} MoveApplied(s: System, s': System, i: nat, ref: VersionRef, b: nat)
    requires Core(s) && Moves(s, s', i, ref) && Open(s.log.events, i)
    requires IsRevision(s.log.events, b) && b !in s'.log.resolutions && IsApplied(s'.log.events, s.log.events[b].obs)
    ensures var o := s.log.events[b].obs;
      exists t | t in s'.Content(o.Symbol()) && t !in s.log.events[b].block.window :: o.Start() <= t <= o.End()
  {
    hide Quiet, Lineages, AllGrown, CommittedIntents, Chained, Absorbing, OneOpen;
    var es, e, o, window := s.log.events, s.log.events[i], s.log.events[b].obs, s.log.events[b].block.window;
    OpenAppend(es, s'.log.events[|es|]);
    MoveContent(s, s', i, ref);
    assert IntentSound(s, i) && RevisionSound(s, b);
    var content, content' := s.Content(o.Symbol()), s'.Content(o.Symbol());
    if IsApplied(es, o) {
      var t :| t in content && t !in window && o.Start() <= t <= o.End();
      assert t in content';
    } else if e.Intent? {
      assert o == e.obs && o.Valid();
      var t := PickOne(e.Claimed());
      assert t in content' && t !in content;
    } else {
      assert false;
    }
  }

  lemma {:induction false} MoveRevision(s: System, s': System, i: nat, ref: VersionRef, b: nat)
    requires Core(s) && Moves(s, s', i, ref) && Open(s.log.events, i)
    requires IsRevision(s.log.events, b) && IsRevision(s'.log.events, b) && s'.log.events[b] == s.log.events[b]
    ensures RevisionSound(s', b)
  {
    hide LogInv, Quiet, Lineages, AllGrown, CommittedIntents;
    var o, block := s.log.events[b].obs, s.log.events[b].block;
    MoveContent(s, s', i, ref);
    assert IntentSound(s, i) && RevisionSound(s, b);
    var content, content' := s.Content(o.Symbol()), s'.Content(o.Symbol());
    assert content.Keys <= content'.Keys;
    forall t | t in block.affected
      ensures t in block.window || (t in o.Rows() && t !in content' && Inside(content', t))
    {
      if t !in block.window {
        var k :| k in content && t < k;
        assert k in content';
      }
    }
    if b !in s'.log.resolutions && IsApplied(s'.log.events, o) { MoveApplied(s, s', i, ref, b); }
  }

  lemma {:induction false} MoveCore(s: System, s': System, i: nat, ref: VersionRef)
    requires Core(s) && Moves(s, s', i, ref) && MoveResolves(s, s', i)
    requires Open(s.log.events, i) && i in s.committed
    ensures Core(s')
  {
    MoveLogInv(s, s', i, ref);
    MoveOpenSound(s, s', i, ref);
    MoveQuiet(s, s', i, ref);
    MoveGrown(s, s', i, ref);
    MoveRevisions(s, s', i, ref);
  }
}
