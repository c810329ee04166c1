/** Appending one event, adding resolutions, or moving only the lock keeps the core invariant. */
module InvariantEvents {
  import opened MarketTypes
  import opened LogModel
  import opened Protocol
  import opened Invariant

  lemma {:induction false} OpenAppend(es: seq<Event>, e: Event)
    ensures forall i :: Open(es + [e], i) <==>
      (i == |es| && e.IsIntent()) || (Open(es, i) && !(e.IsState() && e.obs == es[i].obs))
    ensures forall o :: IsApplied(es + [e], o) <==> IsApplied(es, o) || (e.Applied? && e.obs == o)
  {
    LatestAppend(es, e);
    var es' := es + [e];
    assert forall k | 0 <= k < |es| :: es'[k] == es[k];
    forall o
      ensures IsApplied(es', o) <==> IsApplied(es, o) || (e.Applied? && e.obs == o)
    {
      if IsApplied(es, o) {
        var k :| 0 <= k < |es| && es[k].Applied? && es[k].obs == o;
        assert es'[k].Applied?;
      }
      if e.Applied? && e.obs == o { assert es'[|es|].Applied?; }
    }
    forall i
      ensures Open(es', i) <==> (i == |es| && e.IsIntent()) || (Open(es, i) && !(e.IsState() && e.obs == es[i].obs))
    {
      if 0 <= i < |es| {
        assert es'[i] == es[i];
        assert Latest(es', es'[i].obs) == if e.IsState() && e.obs == es[i].obs then |es| else Latest(es, es[i].obs);
      } else if i == |es| {
        assert es'[i] == e;
        assert e.IsIntent() ==> e.IsState();
      }
    }
  }

  /** `s'` differs from `s` only by one appended event, the lock, and known observations. */
  ghost predicate Appends(s: System, s': System, e: Event) {
    && s'.baseline == s.baseline && s'.market == s.market && s'.committed == s.committed
    && s'.log == s.log.(events := s.log.events + [e], observations := s'.log.observations)
    && s.log.observations.Keys <= s'.log.observations.Keys
    && Known(s'.log)
  }

  /** When may `e` be appended? It never touches an applied observation, closes an open intent only
      by abandoning one that did not commit, and brings what the invariant asks of it. */
  ghost predicate Appendable(s: System, s': System, e: Event)
    requires Appends(s, s', e)
  {
    var es := s.log.events;
    var last := Latest(es, e.obs);
    && !e.Applied?
    && (e.IsState() ==> !IsApplied(es, e.obs))
    && (e.IsState() && last >= 0 && es[last].IsIntent() ==> e.Abandoned? && last !in s.committed)
    && (e.IsIntent() ==> NoOpen(es, e.Symbol()) && IntentSound(s', |es|))
    && (e.Blocked? && e.block.verdict.RevisionChanged? ==>
          && RevisionSound(s', |es|)
          && forall b | IsRevision(es, b) && b !in s.log.resolutions :: es[b].obs != e.obs)
  }

  lemma {:induction false} AppendLogInv(s: System, s': System, e: Event)
    requires Core(s) && Appends(s, s', e)
    requires e.IsIntent() ==> s'.log.events[|s.log.events|] == e
    requires Appendable(s, s', e)
    ensures LogInv(s'.log)
  {
    hide Quiet, Lineages, AllGrown, RevisionsSound, CommittedIntents, OpenSound, Latest;
    var es, es' := s.log.events, s'.log.events;
    LatestAppend(es, e);
    OpenAppend(es, e);
    assert forall k | 0 <= k < |es| :: es'[k] == es[k];
    forall k | 0 <= k < |es'| && es'[k].Applied?
      ensures Latest(es', es'[k].obs) == k
    {
      assert k < |es|;
      assert es[k].Applied? && IsApplied(es, es[k].obs);
    }
    forall i, j | Open(es', i) && Open(es', j) && es'[i].Symbol() == es'[j].Symbol()
      ensures i == j
    {
    }
    forall b, c | IsRevision(es', b) && IsRevision(es', c)
                  && b !in s'.log.resolutions && c !in s'.log.resolutions && es'[b].obs == es'[c].obs
      ensures b == c
    {
      assert b < |es| ==> IsRevision(es, b);
      assert c < |es| ==> IsRevision(es, c);
    }
  }

  /** A plan stays sound while the events it mentions and the content of its symbol stay. */
  lemma {:induction false} PlanFrame(s: System, s': System, o: ObsId, plan: Plan)
    requires PlanSound(s, o, plan)
    requires s.log.events <= s'.log.events
    requires s'.Content(o.Symbol()) == s.Content(o.Symbol())
    requires Head(s'.log.versions, o.Symbol()) == Head(s.log.versions, o.Symbol())
    ensures PlanSound(s', o, plan)
  {
  }

  lemma {:induction false} IntentFrame(s: System, s': System, i: nat)
    requires i < |s.log.events| && s.log.events[i].IsIntent() && IntentSound(s, i)
    requires s.log.events <= s'.log.events
    requires forall y :: y == s.log.events[i].Symbol() ==>
      s'.Content(y) == s.Content(y) && s'.Stored(y) == s.Stored(y)
        && Head(s'.log.versions, y) == Head(s.log.versions, y)
    requires i in s.committed <==> i in s'.committed
    requires s.log.events[i].RebaseIntent? ==> s.log.events[i].plan.block !in s'.log.resolutions
    ensures IntentSound(s', i)
  {
    assert s'.log.events[i] == s.log.events[i];
    if s.log.events[i].RebaseIntent? {
      PlanFrame(s, s', s.log.events[i].obs, s.log.events[i].plan);
    }
  }

  lemma {:induction false} AppendOpenSound(s: System, s': System, e: Event)
    requires Core(s) && Appends(s, s', e)
    requires Appendable(s, s', e)
    ensures OpenSound(s') && CommittedIntents(s')
  {
    hide LogInv, Quiet, Lineages, AllGrown, RevisionsSound;
    var es, es' := s.log.events, s'.log.events;
    OpenAppend(es, e);
    assert forall k | 0 <= k < |es| :: es'[k] == es[k];
    forall i: nat | Open(es', i)
      ensures IntentSound(s', i)
    {
      if i < |es| {
        assert Open(es, i);
        IntentFrame(s, s', i);
      }
    }
  }

  lemma {:induction false} AppendQuiet(s: System, s': System, e: Event)
    requires Core(s) && Appends(s, s', e)
    requires Appendable(s, s', e)
    ensures Quiet(s')
  {
    var es, es' := s.log.events, s'.log.events;
    OpenAppend(es, e);
    forall y
      ensures s'.Stored(y) == s'.Content(y) || LandedOn(s', y)
    {
      if s.Stored(y) != s.Content(y) {
        assert LandedOn(s, y);
        var i :| i in s.committed && Open(es, i) && es[i].Symbol() == y;
        assert es'[i] == es[i];
        assert Open(es', i);
      }
    }
  }

  lemma {:induction false} AppendRevisions(s: System, s': System, e: Event)
    requires Core(s) && Appends(s, s', e)
    requires Appendable(s, s', e)
    ensures RevisionsSound(s')
  {
    var es, es' := s.log.events, s'.log.events;
    OpenAppend(es, e);
    forall b: nat | IsRevision(es', b)
      ensures RevisionSound(s', b)
    {
      if b < |es| {
        assert es'[b] == es[b];
        assert IsRevision(es, b);
        assert RevisionSound(s, b);
        assert s'.Content(es[b].Symbol()) == s.Content(es[b].Symbol());
      }
    }
  }

  lemma {:induction false} AppendCore(s: System, s': System, e: Event)
    requires Core(s) && Appends(s, s', e)
    requires Appendable(s, s', e)
    ensures Core(s')
  {
    AppendLogInv(s, s', e);
    AppendOpenSound(s, s', e);
    AppendQuiet(s, s', e);
    AppendRevisions(s, s', e);
    assert forall y :: s'.Content(y) == s.Content(y) && s'.Base(y) == s.Base(y);
    forall y
      ensures Grown(s', y)
    {
      assert Grown(s, y);
    }
  }

  // --------------------------------------------------------------- resolutions

  /** More resolutions, none of a block an open rebase claims. */
  ghost predicate Resolves(s: System, s': System) {
    && s'.baseline == s.baseline && s'.market == s.market && s'.committed == s.committed
    && s'.log == s.log.(resolutions := s'.log.resolutions)
    && s.log.resolutions.Keys <= s'.log.resolutions.Keys
    && ResolvedBlocks(s'.log)
    && forall b | b in s'.log.resolutions && b !in s.log.resolutions :: !OwnedByRebase(s.log.events, b)
  }

  lemma {:induction false} ResolveCore(s: System, s': System)
    requires Core(s) && Resolves(s, s')
    ensures Core(s')
  {
    var es := s.log.events;
    assert forall y :: s'.Content(y) == s.Content(y) && s'.Base(y) == s.Base(y) && s'.Stored(y) == s.Stored(y);
    forall i: nat | Open(es, i)
      ensures IntentSound(s', i)
    {
      if es[i].RebaseIntent? {
        assert OwnedByRebase(es, es[i].plan.block);
      }
      IntentFrame(s, s', i);
    }
    forall y
      ensures s'.Stored(y) == s'.Content(y) || LandedOn(s', y)
    {
      assert LandedOn(s, y) ==> LandedOn(s', y);
    }
    forall y
      ensures Grown(s', y)
    {
      assert Grown(s, y);
    }
    forall b: nat | IsRevision(es, b)
      ensures RevisionSound(s', b)
    {
      assert RevisionSound(s, b);
    }
  }

  // ----------------------------------------------------------------- lock only

  lemma {:induction false} SameCore(s: System, s': System)
    requires Core(s)
    requires s'.baseline == s.baseline && s'.market == s.market && s'.committed == s.committed && s'.log == s.log
    ensures Core(s')
  {
    assert forall y :: s'.Content(y) == s.Content(y) && s'.Base(y) == s.Base(y) && s'.Stored(y) == s.Stored(y);
    forall i: nat | Open(s.log.events, i) ensures IntentSound(s', i) { IntentFrame(s, s', i); }
    forall y ensures s'.Stored(y) == s'.Content(y) || LandedOn(s', y) { assert LandedOn(s, y) ==> LandedOn(s', y); }
    forall y ensures Grown(s', y) { assert Grown(s, y); }
    forall b: nat | IsRevision(s.log.events, b) ensures RevisionSound(s', b) { assert RevisionSound(s, b); }
  }
}
