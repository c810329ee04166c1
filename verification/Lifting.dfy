/** Which blocks a finalization lifts, said from the log tables alone. */
module Lifting {
  import opened MarketTypes
  import opened LogModel

  /** Block `b` is one that a decision `d` with these confirmed sessions answers: earlier, of the symbol, open
      to automatic resolution, every affected session confirmed, and nothing recorded since contests one. */
  ghost predicate Answered(es: seq<Event>, y: Symbol, b: nat, d: nat, confirmed: set<Session>) {
    && b < d && b < |es| && es[b].Blocked? && es[b].obs.Symbol() == y && es[b].block.auto
    && es[b].block.affected != {} && es[b].block.affected <= confirmed
    && forall j | d < j < |es| && es[j].Blocked? && es[j].obs.Symbol() == y ::
      es[j].block.affected !! es[b].block.affected
  }

  ghost predicate ClaimedByRebase(es: seq<Event>, b: nat) {
    exists i :: Open(es, i) && es[i].RebaseIntent? && es[i].plan.block == b
  }

  /** A finalization resolves exactly the unresolved blocks its decision answers and no open rebase claims,
      whatever their verdict and whoever observed them; every other resolution stays as it was. */
  ghost predicate LiftsExactly(log: Log, log': Log, o: ObsId, d: nat, confirmed: set<Session>) {
    && log.events <= log'.events
    && (forall b: nat :: b in log'.resolutions && b !in log.resolutions <==>
      b !in log.resolutions && Answered(log.events, o.Symbol(), b, d, confirmed) && !ClaimedByRebase(log'.events, b))
    && (forall b | b in log.resolutions :: b in log'.resolutions && log'.resolutions[b] == log.resolutions[b])
    && forall b | b in log'.resolutions && b !in log.resolutions :: log'.resolutions[b] == Accepted(o, d)
  }

  lemma {:induction false} AnsweredIsLiftable(es: seq<Event>, e: Event, resolutions: map<nat, Resolution>, y: Symbol,
      b: nat, d: nat, confirmed: set<Session>)
    requires e.Applied? && b !in resolutions
    ensures Liftable(es + [e], resolutions, y, b, d, confirmed) <==>
      Answered(es, y, b, d, confirmed) && !ClaimedByRebase(es + [e], b)
  {
    var es' := es + [e];
    assert forall k | 0 <= k < |es| :: es'[k] == es[k];
    assert OwnedByRebase(es', b) <==> ClaimedByRebase(es', b);
  }

  /** The lifting of one application, over the events that already hold its result. */
  lemma {:induction false} LiftedExactly(es: seq<Event>, resolutions: map<nat, Resolution>, y: Symbol, o: ObsId, d: nat,
      confirmed: set<Session>)
    ensures forall b: nat :: b in LiftedBy(es, resolutions, y, o, d, confirmed) <==>
      b !in resolutions && Answered(es, y, b, d, confirmed) && !ClaimedByRebase(es, b)
    ensures forall b | b in LiftedBy(es, resolutions, y, o, d, confirmed) ::
      LiftedBy(es, resolutions, y, o, d, confirmed)[b] == Accepted(o, d)
  {
    forall b: nat
      ensures Liftable(es, resolutions, y, b, d, confirmed) <==>
        b !in resolutions && Answered(es, y, b, d, confirmed) && !ClaimedByRebase(es, b)
    {
      assert OwnedByRebase(es, b) <==> ClaimedByRebase(es, b);
    }
  }

  /** The blocks lifted by an application whose binding is known. */
  lemma {:induction false} ApplicationLifts(log: Log, o: ObsId, sessions: set<Session>, content: Rows, binding: Binding)
    requires !IsApplied(log.events, o) && RecordApplication(log, o, sessions, content, Some(binding)).Ok?
    ensures LiftsExactly(log, RecordApplication(log, o, sessions, content, Some(binding)).value, o, binding.decision,
      binding.confirmed)
  {
    var log' := RecordApplication(log, o, sessions, content, Some(binding)).value;
    var e := log'.events[|log.events|];
    assert log'.events == log.events + [e] && e.Applied?;
    forall b: nat | b !in log.resolutions
      ensures b in log'.resolutions <==>
        Answered(log.events, o.Symbol(), b, binding.decision, binding.confirmed) && !ClaimedByRebase(log'.events, b)
    {
      AnsweredIsLiftable(log.events, e, log.resolutions, o.Symbol(), b, binding.decision, binding.confirmed);
    }
  }

  /** Without a binding, as in recovery, nothing is lifted. */
  lemma {:induction false} RecoveryLiftsNothing(log: Log, o: ObsId, sessions: set<Session>, content: Rows)
    requires RecordApplication(log, o, sessions, content, None).Ok?
    ensures RecordApplication(log, o, sessions, content, None).value.resolutions == log.resolutions
  {
  }
}
