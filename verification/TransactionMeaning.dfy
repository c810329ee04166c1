/** When the log accepts each of its transactions and what it then records, said from the tables alone. */
module TransactionMeaning {
  import opened MarketTypes
  import opened LogModel

  /** Event `k` is what an observation last went through; receipts and annotations do not count. */
  ghost predicate LastState(es: seq<Event>, o: ObsId, k: int) {
    0 <= k < |es| && es[k].obs == o && !es[k].Note? && forall j | k < j < |es| && es[j].obs == o :: es[j].Note?
  }

  lemma {:induction false} LatestExactly(es: seq<Event>, o: ObsId, k: int)
    ensures LastState(es, o, k) <==> 0 <= k && Latest(es, o) == k
  {
    if LastState(es, o, k) { LatestIs(es, o, k); }
  }

  ghost predicate WasApplied(es: seq<Event>, o: ObsId) {
    exists k :: 0 <= k < |es| && es[k].Applied? && es[k].obs == o
  }

  /** The version a symbol is at: its last one, or the baseline if it has none. */
  ghost predicate CurrentVersion(vs: seq<SymbolVersion>, y: Symbol, ref: VersionRef) {
    if forall k | 0 <= k < |vs| :: vs[k].symbol != y then ref == Baseline
    else exists k :: 0 <= k < |vs| && vs[k] == SymbolVersion(y, ref) && forall j | k < j < |vs| :: vs[j].symbol != y
  }

  lemma {:induction false} HeadExactly(vs: seq<SymbolVersion>, y: Symbol, ref: VersionRef)
    ensures CurrentVersion(vs, y, ref) <==> ref == Head(vs, y)
  {
    if vs != [] {
      var n := |vs| - 1;
      HeadExactly(vs[..n], y, ref);
      if vs[n].symbol == y {
        assert CurrentVersion(vs, y, ref) <==> ref == vs[n].ref;
      } else {
        assert forall k | 0 <= k < n :: vs[..n][k] == vs[k];
        if k :| 0 <= k < n && vs[..n][k] == SymbolVersion(y, ref) && forall j | k < j < n :: vs[..n][j].symbol != y {
          assert vs[k] == SymbolVersion(y, ref);
        }
        if k :| 0 <= k < |vs| && vs[k] == SymbolVersion(y, ref) && forall j | k < j < |vs| :: vs[j].symbol != y {
          assert vs[..n][k] == SymbolVersion(y, ref);
        }
      }
    }
  }

  /** The dataset version names the current version of exactly the symbols that have one. */
  lemma {:induction false} DatasetVersionExactly(vs: seq<SymbolVersion>, y: Symbol)
    ensures y in DatasetVersion(vs) <==> exists k :: 0 <= k < |vs| && vs[k].symbol == y
    ensures y in DatasetVersion(vs) ==> CurrentVersion(vs, y, DatasetVersion(vs)[y])
  {
    if k :| 0 <= k < |vs| && vs[k].symbol == y { assert vs[k] in vs; }
    HeadExactly(vs, y, Head(vs, y));
  }

  // ------------------------------------------------------------------- verification

  /** The baseline as found is still stored, and nothing else up to its last session. */
  ghost predicate BaselineIntact(base: Rows, stored: Rows) {
    && (forall t | t in base :: t in stored && stored[t] == base[t])
    && forall t, k | t in stored && k in base && t <= k :: t in base
  }

  /** Lineage verification accepts the stored history of a symbol exactly when the baseline is intact, unless the
      symbol was rebased, and the rows are what the current version says, or reach no further than the baseline if
      there is none. */
  lemma {:induction false} VerifiedExactly(log: Log, base: Rows, y: Symbol, stored: Rows, ref: VersionRef)
    requires CurrentVersion(log.versions, y, ref)
    ensures Verified(log, base, y, stored) <==>
      && (base != map[] && (forall k | 0 <= k < |log.rebases| :: log.rebases[k].obs.Symbol() != y) ==>
            BaselineIntact(base, stored))
      && (ref.Version? ==> stored == ref.content)
      && (ref.Baseline? ==> forall t | t in stored :: exists k :: k in base && t <= k)
  {
    HeadExactly(log.versions, y, ref);
    assert HasRebase(log.rebases, y) <==> exists k :: 0 <= k < |log.rebases| && log.rebases[k].obs.Symbol() == y;
    hide HasRebase, Head, CurrentVersion, BaselineIntact;
    if BaselineIntact(base, stored) {
      IntactSlice(base, stored);
    } else if Verified(log, base, y, stored) && base != map[] && !HasRebase(log.rebases, y) {
      SliceIntact(base, stored);
    }
  }

  lemma {:induction false} IntactSlice(base: Rows, stored: Rows)
    requires BaselineIntact(base, stored)
    ensures base == map t | t in stored && (exists k | k in base :: t <= k) :: stored[t]
  {
    var slice := map t | t in stored && (exists k | k in base :: t <= k) :: stored[t];
    forall t | t in base ensures t in slice { assert t <= t; }
  }

  lemma {:induction false} SliceIntact(base: Rows, stored: Rows)
    requires base == map t | t in stored && (exists k | k in base :: t <= k) :: stored[t]
    ensures BaselineIntact(base, stored)
  {
  }

  // ----------------------------------------------------------------- pending observations

  /** An admission that never came to an end: stored, of the symbol, never applied, and last fetched, admitted,
      intended or abandoned, not blocked and not superseded. */
  ghost predicate Awaiting(log: Log, y: Symbol, o: ObsId) {
    && o in log.observations && o.Symbol() == y && !WasApplied(log.events, o)
    && exists k :: LastState(log.events, o, k) && !log.events[k].Blocked? && !log.events[k].Superseded?
  }

  lemma {:induction false} PendingExactly(log: Log, y: Symbol, o: ObsId)
    ensures o in PendingOn(log, y) <==> Awaiting(log, y, o)
  {
    var k := Latest(log.events, o);
    LatestExactly(log.events, o, k);
    AppliedExactly(log.events, o);
    if j :| LastState(log.events, o, j) { LatestExactly(log.events, o, j); }
  }

  lemma {:induction false} AppliedExactly(es: seq<Event>, o: ObsId)
    ensures IsApplied(es, o) <==> WasApplied(es, o)
  {
  }

  // -------------------------------------------------------------------- applications

  /** A first application is accepted: one without sessions by the decision that is still the last state of its
      observation, one with sessions by the intent that is and claims exactly them; at the version its decision was
      made at, and over sessions nobody owns. */
  ghost predicate Applicable(log: Log, o: ObsId, sessions: set<Session>, binding: Option<Binding>) {
    var es := log.events;
    && (sessions == {} ==>
      binding.Some? && LastState(es, o, binding.value.decision) && es[binding.value.decision].Admitted?)
    && (sessions != {} ==> exists k :: LastState(es, o, k) && es[k].IsIntent() && es[k].Claimed() == sessions)
    && (sessions != {} && binding.Some? ==> CurrentVersion(log.versions, o.Symbol(), binding.value.bound))
    && forall t | t in sessions :: (o.Symbol(), t) !in log.owned
  }

  /** The tables after an application, without its resolutions. */
  ghost predicate AppliedTables(log: Log, log': Log, o: ObsId, sessions: set<Session>, content: Rows,
      binding: Option<Binding>)
  {
    var y, n := o.Symbol(), |log.events|;
    && log'.observations == log.observations && log'.rebases == log.rebases
    && log.events <= log'.events && |log'.events| == n + 1 && log'.events[n].Applied? && log'.events[n].obs == o
    && var ref := log'.events[n].version;
    && (sessions == {} ==> binding.Some? && ref == binding.value.bound && log'.versions == log.versions)
    && (sessions != {} ==>
          && ref.Version? && CurrentVersion(log.versions, y, ref.parent) && ref.obs == o && ref.sessions == sessions
          && ref.content == content && ref.change == Append
          && log'.versions == log.versions + [SymbolVersion(y, ref)])
    && (forall x :: x in log'.owned <==> x in log.owned || (x.0 == y && x.1 in sessions))
    && forall x | x in log'.owned ::
      log'.owned[x] == if x.0 == y && x.1 in sessions then Owner(o, ref) else log.owned[x]
  }

  /** An application is accepted exactly when it repeats an earlier one, and then changes nothing, or is applicable. */
  lemma {:induction false} ApplicationExactly(log: Log, o: ObsId, sessions: set<Session>, content: Rows,
      binding: Option<Binding>)
    ensures var r := RecordApplication(log, o, sessions, content, binding);
      if WasApplied(log.events, o) then r == Ok(log)
      else
        && (r.Ok? <==> Applicable(log, o, sessions, binding))
        && (r.Ok? ==> AppliedTables(log, r.value, o, sessions, content, binding))
  {
    hide LastState, CurrentVersion, LiftedBy, WasApplied;
    var k, head := Latest(log.events, o), Head(log.versions, o.Symbol());
    AppliedExactly(log.events, o);
    forall j ensures LastState(log.events, o, j) <==> 0 <= j && k == j { LatestExactly(log.events, o, j); }
    forall ref ensures CurrentVersion(log.versions, o.Symbol(), ref) <==> ref == head {
      HeadExactly(log.versions, o.Symbol(), ref);
    }
    hide Latest, Head, IsApplied;
    if !WasApplied(log.events, o) && RecordApplication(log, o, sessions, content, binding).Ok? {
      AppliedTablesHold(log, o, sessions, content, binding);
    }
  }

  lemma {:induction false} AppliedTablesHold(log: Log, o: ObsId, sessions: set<Session>, content: Rows,
      binding: Option<Binding>)
    requires !IsApplied(log.events, o) && RecordApplication(log, o, sessions, content, binding).Ok?
    ensures AppliedTables(log, RecordApplication(log, o, sessions, content, binding).value, o, sessions, content,
      binding)
  {
    hide CurrentVersion, LiftedBy, Latest, Head;
    var y, log' := o.Symbol(), RecordApplication(log, o, sessions, content, binding).value;
    HeadExactly(log.versions, y, Head(log.versions, y));
    var ref := log'.events[|log.events|].version;
    OwnedExactly(log.owned, y, sessions, Owner(o, ref));
  }

  lemma {:induction false} OwnedExactly(owned: map<(Symbol, Session), Owner>, y: Symbol, sessions: set<Session>,
      owner: Owner)
    ensures var grown := owned + map t | t in sessions :: (y, t) := owner;
      && (forall x :: x in grown <==> x in owned || (x.0 == y && x.1 in sessions))
      && forall x | x in grown :: grown[x] == if x.0 == y && x.1 in sessions then owner else owned[x]
  {
    var grown := owned + map t | t in sessions :: (y, t) := owner;
    forall x: (Symbol, Session) | x.0 == y && x.1 in sessions ensures x in grown && grown[x] == owner {
      assert x == (y, x.1);
    }
  }

  // ------------------------------------------------------------------------ rebases

  /** Some open rebase intent claims the block. */
  ghost predicate HeldByRebase(es: seq<Event>, b: nat) {
    exists i :: 0 <= i < |es| && es[i].RebaseIntent? && LastState(es, es[i].obs, i) && es[i].plan.block == b
  }

  /** A review resolves a recorded, unresolved block that no open rebase claims, as reviewed. */
  lemma {:induction false} ReviewExactly(log: Log, b: nat)
    ensures var r := ResolveBlock(log, b);
      && (r.Ok? <==>
            b < |log.events| && log.events[b].Blocked? && b !in log.resolutions && !HeldByRebase(log.events, b))
      && (r.Ok? ==> r.value == log.(resolutions := log.resolutions[b := Reviewed]))
  {
    var es := log.events;
    forall i | 0 <= i < |es| ensures Open(es, i) <==> es[i].IsIntent() && LastState(es, es[i].obs, i) {
      LatestExactly(es, es[i].obs, i);
    }
    hide Open, LastState;
    assert OwnedByRebase(es, b) <==> HeldByRebase(es, b);
  }

  /** An intent to rebase is recorded exactly while its reviewed block is unresolved and the symbol has no open
      intent of either kind. */
  lemma {:induction false} IntentExactly(log: Log, o: ObsId, plan: Plan)
    ensures var r, b, es := RecordRebaseIntent(log, o, plan), plan.block, log.events;
      && (r.Ok? <==>
            && b < |es| && es[b].Blocked? && es[b].obs == o && b !in log.resolutions
            && forall i | 0 <= i < |es| && es[i].IsIntent() && LastState(es, es[i].obs, i) ::
                 es[i].obs.Symbol() != o.Symbol())
      && (r.Ok? ==> r.value == log.(events := es + [RebaseIntent(o, plan)]))
  {
    var es := log.events;
    forall i | 0 <= i < |es| ensures Open(es, i) <==> es[i].IsIntent() && LastState(es, es[i].obs, i) {
      LatestExactly(es, es[i].obs, i);
    }
    hide Open, LastState;
    if OpenIntents(es, o.Symbol()) != {} {
      var i := PickOne(OpenIntents(es, o.Symbol()));
      assert 0 <= i < |es| && Open(es, i) && es[i].obs.Symbol() == o.Symbol();
    } else {
      forall i | 0 <= i < |es| && Open(es, i) ensures es[i].obs.Symbol() != o.Symbol() {
        assert i !in OpenIntents(es, o.Symbol());
      }
    }
  }

  /** The tables after a rebase: the reviewed block is resolved by it, the older blocks it supersedes too unless they
      are resolved already, and no other. */
  ghost predicate RebasedTables(log: Log, log': Log, o: ObsId, plan: Plan) {
    var y, n := o.Symbol(), |log.events|;
    && log'.observations == log.observations && log'.owned == log.owned
    && log.events <= log'.events && |log'.events| == n + 1 && log'.events[n].Applied? && log'.events[n].obs == o
    && var ref := log'.events[n].version;
    && ref == Version(plan.preVersion, o, plan.sessions, plan.post, Rebase(plan.block))
    && log'.versions == log.versions + [SymbolVersion(y, ref)]
    && log'.rebases == log.rebases + [RebaseRecord(plan.block, o, plan.sessions, ref)]
    && (forall b :: b in log'.resolutions <==> b in log.resolutions || b == plan.block || b in plan.supersedes)
    && forall b | b in log'.resolutions ::
         log'.resolutions[b] ==
           if b == plan.block then RebasedByReview(o)
           else if b in log.resolutions then log.resolutions[b] else SupersededByRebase(o, plan.block)
  }

  /** A rebase is finalized exactly when its block was rebased before, and then nothing changes, or its intent is the
      last state of its observation, its block unresolved, and the symbol still at the version it was planned at. */
  lemma {:induction false} RebaseExactly(log: Log, i: nat)
    requires i < |log.events| && log.events[i].RebaseIntent?
    ensures var r, o, plan := RecordRebase(log, i), log.events[i].obs, log.events[i].plan;
      if exists k :: 0 <= k < |log.rebases| && log.rebases[k].block == plan.block then r == Ok(log)
      else
        && (r.Ok? <==>
              && LastState(log.events, o, i) && plan.block !in log.resolutions && plan.block !in plan.supersedes
              && CurrentVersion(log.versions, o.Symbol(), plan.preVersion) && !WasApplied(log.events, o))
        && (r.Ok? ==> RebasedTables(log, r.value, o, plan))
  {
    hide LastState, CurrentVersion, WasApplied;
    var o, plan := log.events[i].obs, log.events[i].plan;
    AppliedExactly(log.events, o);
    LatestExactly(log.events, o, i);
    HeadExactly(log.versions, o.Symbol(), plan.preVersion);
    assert Rebased(log.rebases, plan.block) <==>
      exists k :: 0 <= k < |log.rebases| && log.rebases[k].block == plan.block;
    hide Latest, Head, IsApplied, Rebased;
  }
}
