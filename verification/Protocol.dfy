/** The two-file write protocol as a transition system: one action per log transaction and one
    per market commit. Any number of processes interleave and may crash between two actions.

    A process that holds nothing carries only the id of an observation it persisted, so it needs
    no state of its own: any persisted observation may be (re)attempted at any time. A process
    between its market commit and its log finalization is a `Finisher`. */
module Protocol {
  import opened MarketTypes
  import opened LogModel
  import opened Admission

  /** Why the lock holder is settling open intents. */
  datatype Purpose = ForAdmission(obs: ObsId) | ForRecovery | ForRebase(block: nat, obs: ObsId)

  /** Where the holder of the market write lock stands. */
  datatype Held =
    | Settling(purpose: Purpose, symbol: Symbol, queue: set<nat>)
    | Superseding(obs: ObsId, stale: set<ObsId>)
    | Verifying(obs: ObsId)
    | Blocking(obs: ObsId, block: Block, again: bool)
    | Annotating(obs: ObsId)
    | Decided(obs: ObsId, binding: Binding, newer: set<Session>)
    | Intended(obs: ObsId, intent: nat, binding: Binding)
    | Planned(obs: ObsId, plan: Plan)
    | RebaseIntended(intent: nat)
    | Releasing

  datatype Lock = Free | HeldBy(pc: Held)

  /** A live process whose market change is committed and whose log finalization is still to come. */
  datatype Finisher =
    | AppendFinisher(obs: ObsId, intent: nat, binding: Binding, content: Rows)
    | RebaseFinisher(intent: nat)

  /** `committed` is a history variable: the intents whose market transaction committed. */
  datatype System = System(
    baseline: map<Symbol, Rows>,
    market: map<Symbol, Rows>,
    log: Log,
    lock: Lock,
    finishers: set<Finisher>,
    committed: set<nat>)
  {
    function Base(y: Symbol): Rows { if y in baseline then baseline[y] else map[] }
    function Stored(y: Symbol): Rows { if y in market then market[y] else map[] }
    /** The stored history the log attributes to the symbol. */
    function Content(y: Symbol): Rows { Replay(Base(y), Head(log.versions, y)) }
  }

  const EMPTY_LOG := Log(map[], [], map[], [], map[], [])

  /** The log has just registered the market, as found, as its baseline. */
  predicate Init(s: System) {
    && s.market == s.baseline
    && s.log == EMPTY_LOG
    && s.lock == Free && s.finishers == {} && s.committed == {}
  }

  datatype Action =
    | Persist(obs: ObsId, excluded: seq<Session>) | Receipt(obs: ObsId) | Review(block: nat)
    | Crash | CrashFinisher(finisher: Finisher)
    | Acquire(obs: ObsId) | AcquireRecovery(symbol: Symbol) | AcquireRebase(block: nat, obs: ObsId)
    | SettleOne(intent: nat) | SettleDone(exposed: bool)
    | SupersedeOne(obs: ObsId) | SupersedeDone | Compare | BlockDecision | Annotate | NoOp
    | DeclareIntent | Commit | Abort | Finish(finisher: Finisher)
    | DeclareRebase | CommitRebase | AbortRebase | Release

  /** `_record_block`, its search: is an equal block still unresolved? A review may land before the
      event that follows. */
  function FindBlock(s: System, o: ObsId, b: Block): System {
    s.(lock := HeldBy(Blocking(o, b, AlreadyBlocked(s.log, o, b.verdict))))
  }

  /** Its event: a second decision only when the search found no equal block. */
  function RecordBlock(s: System, o: ObsId, b: Block, again: bool): System {
    if again then s.(log := AppendEvent(s.log, Note(o)), lock := HeldBy(Releasing))
    else s.(log := AppendEvent(s.log, Blocked(o, b)), lock := HeldBy(Annotating(o)))
  }

  const MISMATCH := Block(DatasetMismatch, {}, false, map[])

  function Store(s: System, y: Symbol, rows: Rows): map<Symbol, Rows> { s.market[y := rows] }

  predicate Next(s: System, a: Action, s': System) {
    match a
    // ---- without the lock
    case Persist(o, excluded) =>
      && o.Valid()
      && (o.Rows() != map[] || s.Stored(o.Symbol()) != map[])
      && (o.Readmitted? ==> o.original in s.log.observations)
      && PersistObservation(s.log, o, excluded).Ok?
      && s' == s.(log := PersistObservation(s.log, o, excluded).value)
    case Receipt(o) => o in s.log.observations && s' == s.(log := AppendEvent(s.log, Note(o)))
    case Review(b) => ResolveBlock(s.log, b).Ok? && s' == s.(log := ResolveBlock(s.log, b).value)
    case Crash => s.lock.HeldBy? && s' == s.(lock := Free)
    case CrashFinisher(f) => f in s.finishers && s' == s.(finishers := s.finishers - {f})
    case Finish(f) => f in s.finishers && Finishes(s, f, s')
    // ---- taking and leaving the lock
    case Acquire(o) =>
      && s.lock.Free? && o in s.log.observations
      && s' == s.(lock := HeldBy(Settling(ForAdmission(o), o.Symbol(), OpenIntents(s.log.events, o.Symbol()))))
    case AcquireRecovery(y) =>
      s.lock.Free? && s' == s.(lock := HeldBy(Settling(ForRecovery, y, OpenRebases(s.log.events, y))))
    case AcquireRebase(b, o) =>
      && s.lock.Free? && !Rebased(s.log.rebases, b)
      && s' == s.(lock := HeldBy(Settling(ForRebase(b, o), o.Symbol(), OpenRebases(s.log.events, o.Symbol()))))
    case Release => s.lock == HeldBy(Releasing) && s' == s.(lock := Free)
    case _ => s.lock.HeldBy? && NextHeld(s, a, s.lock.pc, s')
  }

  predicate Finishes(s: System, f: Finisher, s': System) {
    match f
    case AppendFinisher(o, i, binding, content) =>
      && i < |s.log.events|
      && var r := RecordApplication(s.log, o, s.log.events[i].Claimed(), content, Some(binding));
      r.Ok? && s' == s.(log := r.value, finishers := s.finishers - {f})
    case RebaseFinisher(i) =>
      var r := RecordRebase(s.log, i);
      r.Ok? && s' == s.(log := r.value, finishers := s.finishers - {f})
  }

  predicate NextHeld(s: System, a: Action, pc: Held, s': System) {
    match a
    case SettleOne(i) => pc.Settling? && i in pc.queue && Settles(s, pc, i, s')
    case SettleDone(exposed) => pc.Settling? && pc.queue == {} && LeavesSettlement(s, pc, exposed, s')
    case SupersedeOne(o) =>
      && pc.Superseding? && o in pc.stale
      && s' == s.(log := AppendEvent(s.log, Superseded(o)), lock := HeldBy(Superseding(pc.obs, pc.stale - {o})))
    case SupersedeDone => pc.Superseding? && pc.stale == {} && s' == s.(lock := HeldBy(Verifying(pc.obs)))
    case Compare => pc.Verifying? && s' == Compared(s, pc.obs)
    case BlockDecision => pc.Blocking? && s' == RecordBlock(s, pc.obs, pc.block, pc.again)
    case Annotate =>
      pc.Annotating? && s' == s.(log := AppendEvent(s.log, Note(pc.obs)), lock := HeldBy(Releasing))
    case NoOp =>
      && pc.Decided? && pc.newer == {}
      && var r := RecordApplication(s.log, pc.obs, {}, s.Stored(pc.obs.Symbol()), Some(pc.binding));
      r.Ok? && s' == s.(log := r.value, lock := HeldBy(Releasing))
    case DeclareIntent =>
      && pc.Decided? && pc.newer != {}
      && s' == s.(log := AppendEvent(s.log, Intent(pc.obs, pc.newer)),
                  lock := HeldBy(Intended(pc.obs, |s.log.events|, pc.binding)))
    case Commit =>
      && pc.Intended? && pc.intent < |s.log.events|
      && var y := pc.obs.Symbol();
      var rows := Overlay(s.Stored(y), pc.obs.Rows(), s.log.events[pc.intent].Claimed());
      s' == s.(market := Store(s, y, rows), lock := Free, committed := s.committed + {pc.intent},
               finishers := s.finishers + {AppendFinisher(pc.obs, pc.intent, pc.binding, rows)})
    case Abort =>
      pc.Intended? && s' == s.(log := AppendEvent(s.log, Abandoned(pc.obs)), lock := Free)
    case DeclareRebase =>
      && pc.Planned?
      && s' == (match RecordRebaseIntent(s.log, pc.obs, pc.plan)
                case Ok(l) => s.(log := l, lock := HeldBy(RebaseIntended(|s.log.events|)))
                case Err(_) => s.(lock := HeldBy(Releasing)))
    case CommitRebase =>
      && pc.RebaseIntended? && pc.intent < |s.log.events| && s.log.events[pc.intent].RebaseIntent?
      && var o, plan := s.log.events[pc.intent].obs, s.log.events[pc.intent].plan;
      var rows := Overlay(s.Stored(o.Symbol()), o.Rows(), plan.sessions);
      && rows == plan.post
      && s' == s.(market := Store(s, o.Symbol(), rows), lock := Free, committed := s.committed + {pc.intent},
                  finishers := s.finishers + {RebaseFinisher(pc.intent)})
    case AbortRebase =>
      && pc.RebaseIntended? && pc.intent < |s.log.events|
      && s' == s.(log := AppendEvent(s.log, Abandoned(s.log.events[pc.intent].obs)), lock := Free)
    case _ => false
  }

  predicate Settles(s: System, pc: Held, i: nat, s': System)
    requires pc.Settling?
  {
    && i < |s.log.events| && s.log.events[i].IsIntent()
    && match Settle(s.log, i, s.Stored(pc.symbol))
       case Finalized(l) => s' == s.(log := l, lock := HeldBy(pc.(queue := pc.queue - {i})))
       case Dropped(l) => s' == s.(log := l, lock := HeldBy(pc.(queue := pc.queue - {i})))
       case Refused(_) => s' == s.(lock := Free)
       case Ambiguous =>
         s' == if pc.purpose.ForAdmission? then FindBlock(s, pc.purpose.obs, MISMATCH)
           else s.(lock := HeldBy(Releasing))
  }

  predicate LeavesSettlement(s: System, pc: Held, exposed: bool, s': System)
    requires pc.Settling?
  {
    match pc.purpose
    case ForAdmission(o) =>
      s' == s.(lock := HeldBy(if IsApplied(s.log.events, o) then Releasing
                              else Superseding(o, PendingOn(s.log, pc.symbol) - {o})))
    case ForRecovery => s' == s.(lock := HeldBy(Releasing))
    case ForRebase(b, o) =>
      if Rebased(s.log.rebases, b) then s' == s.(lock := HeldBy(Releasing))
      else
        match PlanRebase(s.log, s.Base(pc.symbol), s.Stored(pc.symbol), o, b, exposed)
        case Ok(plan) => s' == s.(lock := HeldBy(Planned(o, plan)))
        case Err(_) => s' == s.(lock := HeldBy(Releasing))
  }

  function Compared(s: System, o: ObsId): System {
    var y := o.Symbol();
    var stored := s.Stored(y);
    if !Verified(s.log, s.Base(y), y, stored) then FindBlock(s, o, MISMATCH)
    else
      var c := Classify(stored, o.Rows(), o.Start(), o.End());
      if !c.Admits() then FindBlock(s, o, BlockFor(c, stored, o))
      else
        s.(log := AppendEvent(s.log, Admitted(o, c.verdict)),
           lock := HeldBy(Decided(o, Binding(|s.log.events|, Head(s.log.versions, y), c.confirmed), c.newer)))
  }

  /** A run: states joined by actions. */
  predicate Run(ss: seq<System>, acts: seq<Action>) {
    && |ss| == |acts| + 1
    && Init(ss[0])
    && forall k | 0 <= k < |acts| :: Step(ss, acts, k)
  }

  predicate Step(ss: seq<System>, acts: seq<Action>, k: int)
    requires |ss| == |acts| + 1 && 0 <= k < |acts|
  {
    Next(ss[k], acts[k], ss[k + 1])
  }
}
