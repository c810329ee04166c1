# Verified model of the market write protocol, its evidence, and the portfolio backtest

The system keeps daily market rows in one SQLite file and the history of how they got there in a
second one. No transaction spans the two, so every change goes through a write-ahead protocol:
persist the observation, take the market lock, settle open intents, compare with what is stored,
record the decision, record an intent, change the market, commit, release the lock, finalize in the
log. Evidence that consumed the rows is bound to the dataset version it saw. The backtest turns
candidate trades into a portfolio. This project models both and proves what they are for.

**The protocol.** `Protocol` is a transition system with one action per log transaction and one per
market commit. Any number of processes interleave and may crash between any two actions. `LogModel`
and `Admission` are the transaction and decision functions, `Invariant*` and `Finalization` the
inductive invariant and its preservation step by step. `Effects` sums up every step as one of six
effects; `ProtocolTheorems`, `BlockTheorems`, `RebaseTheorems` and `ProvenanceTheorems` derive the
guarantees about every run. `ObservationLog.Store` and `MarketGuard.Guard` are the imperative form:
the store's methods refine the transaction functions, and the guard's object invariant is that its
history is a run. `Lifting`, `ComparisonMeaning` and `TransactionMeaning` say what the decisions and
transactions assert, session by session and table by table, without the functions that compute them;
the methods and the theorems about runs state it. A guard call acts alone from the state it finds,
after any run of other processes and any crashes, and `GuardOutcomes` gives its outcome as a
function of that state; what holds while others act between its steps are the theorems about runs.

**Evidence.** `BindingInterval` shows what an optimistic double read of the dataset version buys.
`LogReader` answers each query of a read at its own moment of a moving history, and
`EvidenceBinding` binds against it. `Qualification` is the verdict, `VerdictMeaning` what each
verdict and each reason asserts about the log, the recorded dependencies and the reviews,
`QualifierCoherence` shows why a cheap signature that never looks at the market keeps a cache
honest, and `EvidenceQualifier.Qualifier` is that cache, kept alive while other processes act
between any two of its queries.

**The portfolio.** `WaterFilling` and `Allocation` cap and redistribute weights and buy whole
shares, `AllocationMeaning` says what they give each candidate in prices and risk. `Ranking` gives
tie-averaged percentiles. `CandidatePriority`, `PriorityCheck`, `PriorityAgreement` and
`PriorityTheorems` hold the evidence builder, its checker, and their exact agreement,
`PriorityMeaning` the order and the checks field by field. `Portfolio` is the ledger,
`DecisionEngine` the choice among candidates, `SimulationHistory` the account of a run,
`SimulationRules` what every decision of a run has to follow from, `SimulationMeaning` what that
amounts to in sums of money over the open trades, and `Simulator` the event-driven run over dates,
whose history is proved to follow those rules.

**Three sweeps.** `ExitSimulation` walks bars with moving stops, `DatabaseCoverage` builds a
point-in-time index in one pass and recounts it directly, `HistoricalBreadth` computes causal
breadth, and `CoverageCausality` shows that the two together look at nothing later than the day they
answer for.

Prices and money are `real`. Content hashes and SHA-256 identities are injective, so an identity is
the content it hashes. A method that only computes is proved against a specification function or
predicate; the lemmas about that specification carry the property. `hide` statements only keep
definitions out of proofs that do not need them.

Where the code does not meet a promise for all inputs, the exact condition is proved:

- The evidence builder and the simulator's checker agree exactly when every signal day of an entry
  date has one clock time, because the checker groups by calendar day and the builder by datetime
  (`PriorityTheorems.BuilderCheckerAgree`; an input that fails: `PriorityTheorems.TwoClocksRefused`).
- The simulation ends with the open-position error exactly when some opened candidate's exit date
  precedes its entry date, so never when no candidate's does (`Simulator.PortfolioSimulator.Simulate`;
  an input that fails: `Simulator.EarlyExitStaysOpen`).
- A purchase keeps the cash buffer exactly when the estimate together with the commission on the
  slippage, which the estimate omits, keeps it (`SimulationRules.OpeningMeans`; an input that fails:
  `SimulationRules.BufferBroken`).
- A close leaves the ledger consistent exactly unless it finds a position while the sell slippage is
  100 percent or more: the error then comes after the trade took its exit, and the trade stays among
  the open positions (`Portfolio.Ledger.ClosePosition`).
- The bulk and the single provenance read differ on arbitrary states in one case
  (`Provenance.BulkAgreesExactly`) that no run reaches (`ProvenanceTheorems.BulkAgrees`).

## Model

| member | source | states |
|---|---|---|
| MarketTypes.Overlay | core/market_rebase.py:441-443 | the stored rows with exactly the chosen sessions replaced by the offered rows |
| LogModel.Latest | core/market_observation_log.py:1113-1127 | the last event of an observation that decides its state, and none after it |
| LogModel.LatestAppend | core/market_observation_log.py:1113-1127 | appending an event changes the state of that event's observation alone, and notes change nothing |
| LogModel.HeadAppend | core/market_observation_log.py:1346-1359 | the latest version of a symbol moves only with a version of that symbol |
| LogModel.PersistOnce | core/market_observation_log.py:908-1032 | persisting an observation is idempotent and immutable: a repeat adds nothing, a repeat with other contents is refused, what is stored stays, and no other observation changes its state |
| ObservationLog.Store.PendingRebaseOwners | core/market_observation_log.py:533-545 | exactly the blocks that some open rebase intent claims |
| ObservationLog.Store.NewerBlocks | core/market_observation_log.py:1588-1595 | the sessions that later blocks of the symbol still contest, seen from one decision |
| ObservationLog.Store.ResolveCoveredBlocks | core/market_observation_log.py:1563-1632 | resolves exactly the unresolved blocks that the decision answers and no open rebase claims, whatever their verdict and observation: earlier blocks of the symbol, open to automatic resolution, with affected sessions, all confirmed and touched by no later block |
| ObservationLog.Store.OwnSessions | core/market_observation_log.py:1518-1527 | each claimed session gets its owner once; a session that has one already refuses the whole application |
| ObservationLog.Store.RecordApplication | core/market_observation_log.py:1371-1561 | the finalization as one transaction: outcome and tables are those of the transaction function, whose acceptance and tables TransactionMeaning.ApplicationExactly gives; a first application with a binding lifts exactly the answered, unclaimed blocks, one without lifts none |
| ObservationLog.Store.ResolveBlock | core/market_observation_log.py:1297-1343 | a review resolves an unresolved block once, and is refused for a block an open rebase claims |
| ObservationLog.Store.RecordRebaseIntent | core/market_observation_log.py:1681-1728 | an intent is recorded only while its reviewed block is unresolved and the symbol has no open intent; otherwise nothing changes |
| ObservationLog.Store.RecordRebase | core/market_observation_log.py:1730-1955 | the rebase finalization as one transaction: version, rebase record, applied event and the resolutions of the reviewed and superseded blocks |
| ObservationLog.Store.ResolveSuperseded | core/market_observation_log.py:1921-1950 | the superseded blocks are resolved in favour of the rebase, others are untouched |
| Lifting.ApplicationLifts | core/market_observation_log.py:1563-1632 | an application lifts exactly the unresolved blocks its decision answers and no open rebase claims, as accepted by that decision, and touches no other resolution |
| Lifting.LiftedExactly | core/market_observation_log.py:1588-1625 | membership in the lifted blocks in terms of the events and resolutions alone |
| TransactionMeaning.ApplicationExactly | core/market_observation_log.py:1413-1561 | an application is accepted exactly when it repeats one, changing nothing, or its decision or intent is the last state of its observation, at the version its decision saw, over unowned sessions; and every table it then leaves |
| TransactionMeaning.RebaseExactly | core/market_observation_log.py:1730-1955 | a rebase is finalized exactly when its block was rebased before, changing nothing, or its intent is the last state, its block unresolved and the symbol at the planned version; and every table it then leaves |
| TransactionMeaning.ReviewExactly | core/market_observation_log.py:1297-1343 | a review is accepted exactly for a recorded, unresolved block that no open rebase claims |
| TransactionMeaning.IntentExactly | core/market_observation_log.py:1681-1728 | a rebase intent is recorded exactly while its block is unresolved and the symbol has no open intent of either kind |
| TransactionMeaning.VerifiedExactly | core/market_observation_log.py:804-829 | lineage verification accepts exactly an intact baseline, unless the symbol was rebased, together with the content of the current version |
| TransactionMeaning.PendingExactly | core/market_observation_log.py:1155-1187 | pending are exactly the stored observations of the symbol that were never applied and are not blocked or superseded |
| TransactionMeaning.HeadExactly | core/market_observation_log.py:1346-1359 | the current version is the last one of the symbol, or the baseline when it has none |
| InvariantSteps.InitInv | core/market_observation_log.py:674-802 | a log that just registered the market as its baseline satisfies the protocol invariant |
| InvariantHolder.StepInv | core/market_admission.py:983-1254 | every action of every process keeps the protocol invariant, from any state that satisfies it |
| InvariantHolder.RunInv | core/market_admission.py:983-1254 | the invariant holds in every state of every interleaving of admissions, rebases, recoveries, reviews and crashes |
| InvariantHolder.FreeStepInv | core/market_admission.py:905-996 | the steps taken without the lock keep the invariant |
| InvariantHolder.AdmissionStepInv | core/market_admission.py:996-1152 | settling, superseding, comparing, blocking and deciding keep the invariant |
| InvariantHolder.CommitStepInv | core/market_admission.py:1152-1224 | declaring an intent, committing the market and abandoning keep the invariant |
| InvariantFinalize.MoveCore | core/market_observation_log.py:1371-1561 | one finalization, append or rebase, keeps the log invariant and the market in step with it |
| InvariantEvents.AppendCore | core/market_observation_log.py:1067-1092 | one inert event keeps it |
| Finalization.FinalizeAppend | core/market_observation_log.py:1413-1517 | an append finalization after its commit is never refused, whoever performs it, and is given table by table |
| Finalization.FinalizeRebase | core/market_observation_log.py:1730-1955 | a rebase finalization after its commit is never refused, and is given table by table |
| Finalization.FinalizeCore | core/market_observation_log.py:1413-1517 | finalizing a committed open intent keeps the invariant |
| Finalization.NoOpCore | core/market_observation_log.py:1413-1460 | finalizing a decision without new sessions keeps it |
| InvariantProcesses.HolderMove | core/market_admission.py:983-1254 | what the lock holder knows stays true when another process finalizes its own intent |
| InvariantProcesses.FinisherMove | core/market_admission.py:1228-1254 | what a process between commit and finalization knows stays true when another one finalizes |
| InvariantHolder.PlanFacts | core/market_rebase.py:322-482 | an accepted rebase plan is about an unresolved revision of that observation, over the unchanged whole window, with no open intent |
| InvariantHolder.PureRevision | core/market_admission.py:495-569 | in a pure revision over the whole history the changed sessions are exactly the disagreeing ones, and every other offered session is later |
| Effects.StepEffect | core/market_admission.py:983-1254 | each action has one of six effects on log and market, and the effect explains every table |
| Effects.RunEffect | core/market_admission.py:983-1254 | the same for each step of a run |
| Effects.FinalizedTables | core/market_observation_log.py:1371-1561 | a finalization adds one applied event and one version whose parent is the symbol's latest one and whose sessions are the claimed ones |
| Effects.FinalizedOwners | core/market_observation_log.py:1518-1527 | the owner table gains exactly the sessions of an append, each owned by the new version, and no entry changes |
| Effects.FinalizedResolutions | core/market_observation_log.py:1563-1632 | resolutions are only added, for unresolved blocks of the same symbol; a rebase adds exactly the reviewed and superseded blocks and one rebase record |
| ProtocolTheorems.ReplayRefinement | core/market_observation_log.py:804-829 | in every reachable state a symbol without open intent stores exactly its replay and passes lineage verification; with an open intent it has exactly one, and stores the replay, plus that intent's rows once committed |
| ProtocolTheorems.RecoveryTruth | core/market_admission.py:660-742 | an intent is closed as applied exactly when its market transaction committed, and abandoned otherwise |
| ProtocolTheorems.CommittedMeans | core/market_admission.py:1152-1200 | the committed intents of a state are exactly those whose market commit occurs in the run |
| ProtocolTheorems.SettlementDecides | core/market_admission.py:660-742 | settling an open intent finalizes it exactly when its commit is in the run, drops it exactly when not: never ambiguous, never refused |
| ProtocolTheorems.QueueSettles | core/market_admission.py:660-742 | the same for intents another live process finalizes while the queue is worked off |
| ProtocolTheorems.FinalizationNeverRefused | core/market_admission.py:1228-1254 | after a commit the original process is never refused its finalization, whoever recovered, reviewed or admitted in between |
| ProtocolTheorems.HolderNeverRefused | core/market_admission.py:1132-1218 | what the lock holder declared is what its market update produces, and its finalization without new sessions is accepted |
| ProtocolTheorems.OneVersionPerCommit | core/market_observation_log.py:1413-1517 | versions and applied committed intents are equally many |
| ProtocolTheorems.OnlyFinalizationMoves | core/market_observation_log.py:2130-2155 | the dataset version moves exactly when an intent is finalized for the first time, by its process or by recovery |
| ProtocolTheorems.VersionsGrow | core/market_observation_log.py:1413-1517 | versions are only ever added at the end |
| ProtocolTheorems.DatasetVersionNeverRepeats | core/market_observation_log.py:548-551 | two states of a run with the same dataset version have the same versions |
| BlockTheorems.ResolutionsJustified | core/market_observation_log.py:1563-1632 | every resolution is justified when written: an automatic one by a later accepting decision whose offered values still equal the stored values on every affected session |
| BlockTheorems.LiftingComplete | core/market_observation_log.py:1563-1632 | in every run, the finalization of a decision made with its binding resolves exactly the blocks the decision answers and no open rebase claims |
| BlockTheorems.BlocksTold | core/market_admission.py:163-174 | every block of every run was recorded by a decision that told exactly how the offered rows disagreed with the rows stored then: a session is affected when it is stored in the window and not offered with its value, or offered inside the history without being stored; if none is, the latest stored session alone |
| BlockTheorems.ResolvedOnce | core/market_observation_log.py:1297-1343 | a resolution is never changed or withdrawn |
| BlockTheorems.ClaimedBlockIsHeld | core/market_observation_log.py:1681-1728 | a block claimed by an open rebase is unresolved, a review of it is refused, and the rebase can always resolve it |
| RebaseTheorems.ConfirmedHistory | core/market_admission.py:495-569 | history an observation confirms in full is admitted: nothing new, or exactly its later sessions |
| ComparisonMeaning.VerdictExactly | core/market_admission.py:495-569 | each verdict is given exactly when what it asserts about revised, omitted, inserted and later sessions is the case; the comparison admits exactly an empty history or an overlapping one without revised, omitted or inserted sessions |
| ComparisonMeaning.BlockExactly | core/market_admission.py:163-174 | the block of a refused comparison: its verdict, its affected sessions and its window, session by session |
| ComparisonMeaning.PlanExactly | core/market_rebase.py:322-482 | a rebase is planned exactly when nobody holds a position, the block is the latest unresolved revision of the symbol, nothing is open, and the observation covers the whole verified history and only changes values, in the sessions of the block, all before every unchanged one; and what the plan rewrites and supersedes |
| ComparisonMeaning.RefusedExactly | core/market_rebase.py:322-482 | each refusal of a rebase asserts something that holds; the open position is the reason only when everything else allows the plan |
| RebaseTheorems.Reattempt | core/market_admission.py:941-981 | admitting applied content again keeps its identity when the stored history already holds it, and otherwise re-admits it under an identity bound to the current version |
| RebaseTheorems.RebaseLeavesNoSeam | core/market_rebase.py:550-695 | when a rebase is finalized its symbol's session set is unchanged, every stored value is the reviewed one, and admitting the same content again is accepted |
| RebaseTheorems.LandedContent | core/market_rebase.py:379-443 | a finalized rebase makes the replay equal to the planned content |
| MarketGuard.Guard.Persist | core/market_admission.py:917-925 | persisting at any time, whoever holds the lock, as one recorded action of the run; refused exactly for an identity stored with other exclusions, and it settles and reopens nothing |
| MarketGuard.Guard.SettleIntent | core/market_admission.py:690-742 | one queued intent is finalized or dropped, whichever the settlement function says, and leaves the queue; in a run nothing else can happen |
| MarketGuard.Guard.ReconcileOpenIntents | core/market_admission.py:660-742 | the queue taken with the lock, at most one intent, is settled completely without touching the market |
| GuardOutcomes.SettledOne | core/market_admission.py:690-742 | settling a queued intent finalizes it exactly when it is open and committed, drops it exactly when it is open and not committed, and is a no-op when it landed meanwhile |
| GuardOutcomes.SettledApplied | core/market_admission.py:690-742 | after settlement an observation is applied exactly when it was, or when its own committed intent only waited for the finalization |
| MarketGuard.Guard.SupersedeStalePending | core/market_admission.py:745-762 | exactly the given observations end superseded; every other observation keeps its state, no block is recorded, versions and market are untouched |
| MarketGuard.Guard.LeaveSettlement | core/market_admission.py:1048-1070 | an observation applied meanwhile ends the call; else exactly the other observations of the symbol that still await their end are superseded |
| MarketGuard.Guard.MatchingBlock | core/market_admission.py:604-657 | finds an unresolved block of the same observation and verdict exactly when there is one |
| MarketGuard.Guard.RecordBlock | core/market_admission.py:604-657 | a blocked decision leaves an unresolved block with its verdict: the given block, or an earlier equal one; search and event are two actions of the run |
| InvariantHolder.BlockStep | core/market_admission.py:604-657 | at most one unresolved revision block per observation, although a review may resolve an equal block between the search and the event |
| MarketGuard.Guard.WriteRows | core/market_admission.py:578-601 | the inserted sessions hold the offered rows, all others their old ones |
| MarketGuard.Guard.AppendSessions | core/market_admission.py:1132-1254 | declare, insert, commit, finalize: the new version owns exactly the new sessions; a failing insert leaves market and versions alone |
| MarketGuard.Guard.Decide | core/market_admission.py:1075-1131 | the comparison alone decides: admitted with its new sessions exactly when it admits, else blocked with its verdict by an unresolved block, which, unless it was there before, tells exactly how the rows disagreed; the market is untouched |
| MarketGuard.Guard.AdmitPriceBatch | core/market_admission.py:823-1254 | the whole admission is a run of the protocol; outcome and identity are exactly those the state it finds determines, and what it reports is true: a verdict asserts how the rows disagree, a new block names exactly the affected sessions, a reused or invalidated receipt says whether every offered row is stored |
| MarketGuard.Guard.LeaveRebaseSettlement | core/market_rebase.py:598-640 | after settling, the plan is made again: exactly when the block was not rebased meanwhile and the present log and rows allow it, never under an open position; else the reason returned holds |
| MarketGuard.Guard.CommitRebase | core/market_rebase.py:640-695 | succeeds exactly when the update does not fail, and then the market holds the planned rows; else only the abandonment is logged |
| MarketGuard.Guard.RebaseSymbol | core/market_rebase.py:550-695 | the whole reviewed rebase is a run of the protocol; the update is tried exactly when the block was not rebased and the settled log and stored rows allow it, never under an open position; on success the session set is kept, every stored value is the observation's, and exactly the reported sessions changed; every refusal holds |
| GuardOutcomes.PlannedInRun | core/market_rebase.py:322-482 | in a run the log and the rows alone decide whether a rebase is planned: lineage verification never stands in the way |
| GuardOutcomes.RecoveredExactly | core/market_rebase.py:601-613 | the settlement leaves a block rebased exactly when it was, or when its own committed intent only waited for the finalization |
| Provenance.FirstClaim | core/market_observation_log.py:1957-2030 | the first open intent that claims a session, or proof that none does |
| Provenance.LatestRebase | core/market_observation_log.py:1669-1679 | the last rebase that replaced a session, or proof that none did |
| Provenance.SummarizeWindow | core/market_observation_log.py:2048-2128 | the accumulator loops produce exactly the set of classified sessions and its histogram |
| Provenance.BulkAgreesExactly | core/market_observation_log.py:2048-2128 | the bulk form gives a covered session the origin of the single form, except exactly when an applied session is missing from the market while an open rebase claims it |
| Provenance.SessionExactly | core/market_observation_log.py:1957-2030 | what each answer of the single-session query asserts, in any state: its origin, and the observation and version it names |
| Provenance.GateResultExactly | core/market_provenance_gate.py:75-140 | in any state the gate reports exactly the wanted symbols with an unresolved block, with an open intent, and, if asked, with a stored history that does not verify |
| ProvenanceTheorems.AttributionIsTrue | core/market_observation_log.py:1957-2030 | in every reachable state each attribution is true of the stored value, and a stored session is never removed, unattributed or absent |
| ProvenanceTheorems.BulkAgrees | core/market_observation_log.py:2048-2128 | in every reachable state the bulk window read agrees with the single read on every session |
| ProvenanceTheorems.WindowCounts | core/market_observation_log.py:2048-2128 | each count of a summary is the number of window sessions the single read puts in that class |
| ProvenanceTheorems.GateExact | core/market_provenance_gate.py:75-140 | on a reachable state the gate passes exactly when no wanted symbol is blocked or has an open intent; mismatch never occurs |
| ProvenanceTheorems.GateSound | core/market_provenance_gate.py:75-140 | when the gate passes, every stored session is baseline, observed or rebased, and its attribution is true |
| BindingInterval.PinnedInterval | core/evidence_market_binding.py:255-262 | equal dataset versions before and after mean the same tables in every state between |
| BindingInterval.CommittedStaysOpen | core/market_observation_log.py:1957-2030 | a committed intent stays open while the version tables stay |
| BindingInterval.PresenceAcross | core/market_observation_log.py:1957-2030 | a session seen in the market but not in the replay is still claimed at every later moment with the same tables |
| BindingInterval.PointCoherent | core/market_observation_log.py:1957-2030 | a session read assembled from queries at five moments equals the settled attribution in every state between two equal version reads |
| BindingInterval.WindowCoherent | core/market_observation_log.py:2048-2128 | the same for a window read in which nothing is pending |
| EvidenceBinding.WindowReducedToWorst | core/evidence_market_binding.py:178-183 | a window is reduced to the worst origin that occurs in it, an empty one to absent |
| EvidenceBinding.WindowOriginExactly | core/evidence_market_binding.py:178-183 | the order of the reduction, origin by origin |
| EvidenceBinding.ClaimedExactly | core/evidence_market_binding.py:337-345 | an open application stands in the way exactly when it claims the consumed session, or any session of a consumed window |
| EvidenceBinding.ReadIsCoherent | core/evidence_market_binding.py:264-340 | each recorded dependency describes every state between the two version checks |
| LogReader.Reader.SessionProvenance | core/market_observation_log.py:1957-2030 | each query of the read is answered at its own later moment of the moving history |
| LogReader.Reader.WindowProvenance | core/market_observation_log.py:2048-2128 | the same for the queries of a window read |
| EvidenceBinding.MarketBindingSession.Bind | core/evidence_market_binding.py:264-360 | a successful binding describes every state from the decision to the closing version check; a refusal means the version moved, or a consumed session was claimed |
| Qualification.WorstIsLeast | core/evidence_market_binding.py:723-728 | the worst of a non-empty set of states is a member and no member is worse |
| Qualification.QualifiedExactly | core/evidence_market_binding.py:613-676 | qualified exactly when there is evidence, every binding is intact and unchanged on the current baseline, no rejection stands, and no unresolved block hits it or the standing acceptance names exactly this basis |
| VerdictMeaning.VerifiedExactly | core/evidence_market_binding.py:528-676 | verified without a review exactly when there is evidence, no rejection stands, every binding is whole, on the present baseline, with every consulted dependency observed and unmoved, and no unresolved block of a consulted symbol names no session, the consumed one or one from the start of its window to it |
| VerdictMeaning.ContestedIsQuarantined | core/evidence_market_binding.py:583-612 | unreviewed evidence that is otherwise verified and contested by such a block is quarantined for a revision |
| VerdictMeaning.PartExactly | core/evidence_market_binding.py:528-612 | the state of each consulted binding, with and without blocks, by what it lacks |
| VerdictMeaning.OrderExactly | core/evidence_market_binding.py:723-728 | the verdict over several bindings is the first class, worst first, that any of them is in |
| VerdictMeaning.ResultExactly | core/evidence_market_binding.py:613-676 | the whole result: each reason is given exactly when some binding earns it, the basis names exactly the consulted identities, and what the reviews in force make of it |
| VerdictMeaning.SeriesPartsExactly | core/evidence_market_binding.py:678-720 | an observation of a series is judged by its own binding, both legs of every trade entered so far, the entries of its open positions, and what stands for untracked or missing trades, and by nothing else |
| Qualification.OrderIndependent | core/evidence_market_binding.py:613-676 | the verdict depends on the set of bindings, not on their order |
| Qualification.MoreNeverImproves | core/evidence_market_binding.py:613-676 | adding bindings to a non-empty set never improves the unreviewed verdict |
| Qualification.FoldMeans | core/evidence_market_binding.py:651-661 | the review fold: which rejection and which acceptance stand, in closed form |
| Qualification.IncompleteChainFailsClosed | core/evidence_market_binding.py:678-720 | an observation whose chain lost a trade is never qualified |
| Qualification.TradeStaysWithSeries | core/evidence_market_binding.py:678-720 | once in the series, a trade's legs weigh on every later bound observation |
| QualifierCoherence.SameSignature | core/market_observation_log.py:2032-2046 | equal signatures mean equal events, resolutions and tables: only market commits can lie between |
| QualifierCoherence.ProvenanceKept | core/evidence_market_binding.py:503-513 | an unchanged signature is enough for every cached session attribution |
| QualifierCoherence.WindowKept | core/evidence_market_binding.py:503-526 | and for every cached window |
| QualifierCoherence.SteadyBetween | core/market_observation_log.py:2032-2046 | a signature that is the same at two moments was the same at every moment between |
| QualifierCoherence.PointSteady | core/evidence_market_binding.py:515-519 | a session read spread over many moments of a steady interval gives what any of its states says |
| QualifierCoherence.WindowSteady | core/evidence_market_binding.py:521-525 | the same for a window read |
| QualifierCoherence.QualifySteady | core/evidence_market_binding.py:613-676 | while the signature stands every state of the log gives the same verdict |
| QualifierCoherence.FreshRecordHolds | core/evidence_market_binding.py:528-612 | a binding just made has not drifted |
| QualifierCoherence.QualifiedIsStored | core/evidence_market_binding.py:528-676 | each point session that qualified evidence consumed is stored now with the value the recorded observation supplied |
| QualifierCoherence.QualifiedWindowIsStored | core/evidence_market_binding.py:528-676 | of each consulted window of qualified evidence, the recorded sessions are exactly the stored ones, each stored now with the value its recorded observation supplied |
| EvidenceQualifier.Qualifier.Refresh | core/evidence_market_binding.py:483-501 | reloading drops every cache and loads what the log says now, if it can be read |
| EvidenceQualifier.Qualifier.Revalidate | core/evidence_market_binding.py:503-513 | after the cheap check, made at a moment of the call, the caches belong to the log's signature at that moment, although the check never looks at the market |
| EvidenceQualifier.Qualifier.SessionNow | core/evidence_market_binding.py:515-519 | a cache entry is what the log says as long as the signature stands, whenever its queries were answered |
| EvidenceQualifier.Qualifier.EvaluateBinding | core/evidence_market_binding.py:528-612 | the evaluation of one binding from the caches equals the evaluation from scratch as long as the signature stands |
| EvidenceQualifier.Qualifier.Qualify | core/evidence_market_binding.py:613-676 | whatever was cached and whatever other processes do during the call, while the signature stands the verdict is the one computed from scratch on every state of the call; an unreadable log gives the verdict without one |
| EvidenceQualifier.Qualifier.QualifyObservationSeries | core/evidence_market_binding.py:678-720 | each observation is judged by its cumulative parts in a call of its own, revalidated after the one before it has ended |
| WaterFilling.NormalizeWeights | backtesting/portfolio_allocation.py:158-183 | fails exactly without a positive weight; else the positive weights divided by their sum |
| WaterFilling.NormalizedUnique | backtesting/portfolio_allocation.py:158-183 | the normalized weights are determined by the raw ones |
| WaterFilling.CapRound | backtesting/portfolio_allocation.py:230-262 | one pass in any order caps exactly symbols over the cap, although the remaining weight shrinks during the pass |
| WaterFilling.FillLevel | backtesting/portfolio_allocation.py:186-283 | the rounds end, within as many as there are symbols, at the least set of capped symbols with its factor |
| WaterFilling.CapAndRedistribute | backtesting/portfolio_allocation.py:186-283 | infeasible caps are refused exactly; otherwise the filled weights of the least level |
| WaterFilling.FilledMeans | backtesting/portfolio_allocation.py:186-283 | weights sum to one, are positive, exceed the cap by at most the tolerance, and one factor separates capped from uncapped symbols |
| WaterFilling.OrderIndependent | backtesting/portfolio_allocation.py:186-283 | any two results for the same input agree, so the iteration order does not matter |
| Allocation.BuildResults | backtesting/portfolio_allocation.py:285-361 | in candidate order, one position per weighted candidate that affords a share |
| Allocation.PositionsMean | backtesting/portfolio_allocation.py:285-361 | each position is the most whole shares its weight pays for |
| Allocation.SpendingBounded | backtesting/portfolio_allocation.py:285-361 | whole-share positions never cost more than the investable capital |
| Allocation.AllocateStopRisk | backtesting/portfolio_allocation.py:653-752 | each error exactly when it is due; else the positions of the inverse stop distances, normalized and filled to the least level, within cap and capital |
| Allocation.InverseDistances | backtesting/portfolio_allocation.py:694-716 | exactly the symbols with a usable stop, each weighing the inverse of its distance or of the minimum if that is larger |
| Allocation.AllocateRiskBudget | backtesting/portfolio_allocation.py:772-990 | each error exactly when it is due; else the asks served at the common scale min(1, capital / total asked), within capital and per-position maximum |
| Allocation.AsksMean | backtesting/portfolio_allocation.py:859-896 | every candidate with a usable stop asks once, for its desired value, and nobody else asks |
| Allocation.ServedMeans | backtesting/portfolio_allocation.py:918-990 | every scaled ask worth a share is served, nothing else is bought, and each position is the most whole shares of its scaled ask |
| Allocation.ServedSpending | backtesting/portfolio_allocation.py:908-990 | the positions never cost more than the scaled asks together |
| Allocation.SharesUnique | backtesting/portfolio_allocation.py:285-361 | floor division is the only whole number of shares a value pays for |
| AllocationMeaning.PositionsExactly | backtesting/portfolio_allocation.py:285-361 | a weighted candidate gets a position exactly when its weight pays for one share, and then the most whole shares, under its own weights |
| AllocationMeaning.RiskParity | backtesting/portfolio_allocation.py:694-716 | inverse-distance weights give every candidate the same risk: weight times distance, at least the minimum, is one |
| AllocationMeaning.DesiredExactly | backtesting/portfolio_allocation.py:859-896 | an ask stays between the position limits and its loss at the stop is the target: less only at the upper limit, more only at the lower |
| Ranking.PercentileScores | backtesting/ranking.py:79-101 | the tie-run loop gives each value (number strictly below + half of the other ties) / max(n-1, 1) |
| Ranking.PercentileBounds | backtesting/ranking.py:79-101 | percentiles are in [0, 1] |
| Ranking.PercentileOrder | backtesting/ranking.py:79-101 | percentiles of present values are equal exactly for equal and strictly increasing exactly for increasing values |
| Ranking.PercentileFollows | backtesting/ranking.py:79-101 | a percentile does not depend on the order of the input |
| Ranking.LeadershipScores | backtesting/ranking.py:103-124 | the weighted sum of the four percentiles for each candidate |
| Ranking.LeadershipBounds | backtesting/ranking.py:103-124 | scores are in [0, 1] |
| Ranking.LeadershipDominates | backtesting/ranking.py:103-124 | a candidate at least as high everywhere and different somewhere scores strictly higher |
| Ranking.PairScore | backtesting/ranking.py:103-124 | the score of one of two candidates: 35, 40, 15 and 10 hundredths of full, half or nothing for each attribute |
| CandidatePriority.VariantMeans | backtesting/frozen_q70_evaluator.py:176-185 | a signal group reordered by volume, quality, symbol and key: a strictly ordered permutation |
| PriorityMeaning.OrderExactly | backtesting/portfolio_simulator.py:316-389 | in the accepted order every place keeps its signal time, and inside one the larger finite volume comes first and unmeasured ones last, then the higher quality, the symbol in alphabetical order and the signal time |
| PriorityMeaning.BaselineExactly | backtesting/frozen_q70_evaluator.py:155-160 | the baseline of an entry date: its candidates by descending score, missing ones last, and by symbol at the same score |
| PriorityMeaning.AcceptedMeans | backtesting/portfolio_simulator.py:316-389 | the checker accepts exactly one record per candidate, about it as it is now and at its baseline place, listing the places of its signal day, ranked in its day, and sent to the place of that rank |
| CandidatePriority.EvidenceWellformed | backtesting/portfolio_simulator.py:81-122 | each built record passes the constructor checks |
| PriorityAgreement.BuildPriorityEvidence | backtesting/frozen_q70_evaluator.py:139-217 | one well-formed record per candidate, by entry date |
| PriorityAgreement.FileGroup | backtesting/frozen_q70_evaluator.py:170-192 | the loop over a group files ordinals and slots of exactly that group |
| PriorityAgreement.AcceptedExactly | backtesting/portfolio_simulator.py:316-389 | the builder's records pass the day checks exactly when every signal day has one clock time |
| PriorityAgreement.SplitDayRefused | backtesting/portfolio_simulator.py:360-389 | two clock times on one signal day are refused |
| PriorityCheck.RankEntryCandidates | backtesting/portfolio_simulator.py:316-389 | accepts exactly the canonical evidence and then returns the final order; every error means no evidence records could be accepted |
| PriorityCheck.AcceptedContiguous | backtesting/portfolio_simulator.py:346-349 | the contiguity check follows from the day checks |
| PriorityTheorems.PriorityOrder | backtesting/portfolio_simulator.py:316-389 | the accepted order is a permutation that keeps each signal group's slots and sorts inside them |
| PriorityTheorems.BuilderCheckerAgree | backtesting/frozen_q70_evaluator.py:139-217 | built evidence covers exactly the candidates and is accepted on an entry date exactly when each of its signal days has one clock time |
| PriorityTheorems.TwoClocksRefused | backtesting/portfolio_simulator.py:360-389 | two candidates with signals at two times of one day: the evidence is built and then refused |
| Portfolio.Ledger.GetOpenPosition | backtesting/portfolio.py:189-196 | finds the open position of a symbol exactly when there is one |
| Portfolio.Ledger.OpenPosition | backtesting/portfolio.py:55-140 | each refusal has its exact condition and changes nothing; otherwise one new position, paid in full, with cash left non-negative |
| Portfolio.Ledger.ClosePosition | backtesting/portfolio.py:142-187 | each refusal has its exact condition; else the open trade of the symbol is closed at the slipped price, the others keep their order and cash grows by the proceeds; a slippage of 100 percent or more fails only after the trade took its exit and leaves the ledger inconsistent |
| Portfolio.ProceedsNotNegative | backtesting/transaction_cost.py:72-108 | sell commission and tax of at most 100 percent together never exceed the proceeds, so a close never costs cash |
| SimulationMeaning.ProceedsIs | backtesting/transaction_cost.py:72-108 | a sale brings the slipped price of every share less commission and tax on it |
| SimulationMeaning.MarketValueIs | backtesting/portfolio.py:201-227 | the open trades at the given prices, or at their entry prices where there is none |
| SimulationMeaning.PurchaseCostIs | backtesting/transaction_cost.py:39-68 | a purchase takes the slipped price of every share and the commission on it |
| Portfolio.Ledger.Sell | backtesting/portfolio.py:157-181 | the profit booked for a trade is what the sale brings less what the purchase took |
| Portfolio.Conservation | backtesting/portfolio.py:93-187 | cash plus cost and buy commission of the open trades is the initial cash plus the net profit of the closed ones |
| Portfolio.ClosedLedger | backtesting/portfolio.py:223-250 | with every position closed, cash and equity at any prices are the initial cash plus the realized profit |
| Portfolio.EstimateMissesCrossTerm | backtesting/portfolio_simulator.py:928-936 | the simulator's cost estimate misses exactly value * slippage * commission / 10000 |
| DecisionEngine.Weakest | backtesting/decision_engine.py:88-117 | an open position no other is weaker than, by quality and then symbol |
| DecisionEngine.Decide | backtesting/decision_engine.py:120-248 | opens exactly below the limit without a forbidden duplicate; a replacement names an open position that the candidate beats by the threshold |
| DecisionEngine.ReplacementExact | backtesting/decision_engine.py:177-248 | a full portfolio replaces exactly when both qualities are known and the candidate's is at least the weakest plus the threshold |
| SimulationMeaning.DecisionExactly | backtesting/decision_engine.py:120-240 | what an opening, a replacement and each reason for a rejection assert about symbols, room and qualities |
| SimulationHistory.SettledOnce | backtesting/portfolio_simulator.py:749-1134 | a settled candidate without an open position is in exactly one of executed and rejected, once |
| SimulationHistory.ExecutedOnce | backtesting/portfolio_simulator.py:749-785 | an opened position is executed once if it is no longer active, and not before |
| SimulationHistory.RejectedOnce | backtesting/portfolio_simulator.py:735-747 | a candidate is rejected once if it was settled without opening, else never |
| SimulationHistory.OpeningsInjective | backtesting/portfolio_simulator.py:1071-1134 | no two candidates share a position |
| SimulationRules.ObjectionMeans | backtesting/portfolio_simulator.py:799-1055 | no objection means every check passes; a duplicate symbol, a full portfolio and an estimate that breaks the buffer are always objections |
| SimulationRules.OpeningMeans | backtesting/portfolio_simulator.py:787-1134 | an opened candidate passed every check in the portfolio of that moment, is within its limit and new to the portfolio; the buffer is kept exactly when the estimate with the omitted cross term keeps it |
| SimulationRules.BufferBroken | backtesting/portfolio_simulator.py:932-956 | a purchase that passes every check and leaves 92.5 of the 100 the buffer demands |
| SimulationMeaning.VerdictExactly | backtesting/portfolio_simulator.py:799-1055 | a candidate is opened exactly when its regime admits it, its symbol is new, there is room, and the purchase keeps the gross limit on the sum of the entry values, the buffer by the estimate, the heat and the cash; each refusal is given exactly when its reason, the first to fail, holds |
| SimulationMeaning.HistoryWithinExposure | backtesting/portfolio_simulator.py:907-930 | over every justified history: with a gross limit and positive equity, no purchase took the entry values of the open trades over limit / 100 * equity |
| SimulationMeaning.HistoryTold | backtesting/portfolio_simulator.py:787-1134 | over every justified history: an opened candidate was a purchase that may be made in the portfolio of its moment, and a refused one was refused for a reason that held then |
| SimulationMeaning.SeventyPercent | backtesting/portfolio_simulator.py:907-930 | 500 in cash, a position bought for 500 and two shares at 100 under a limit of sixty percent: refused for the gross exposure |
| SimulationMeaning.ExposureIs | backtesting/portfolio_simulator.py:911-915 | exposure and equity count every open trade at quantity times entry price |
| SimulationRules.QuantityFor | backtesting/portfolio_simulator.py:391-436 | a planned quantity is floored to whole lots, a non-positive plan buys nothing |
| SimulationRules.RankEntryMeans | backtesting/portfolio_simulator.py:316-326 | the day's candidates, none lost or added, in the order of final ordinals or of quality, equal qualities in the given order |
| SimulationMeaning.RankedExactly | backtesting/portfolio_simulator.py:316-326 | by final ordinal, or by descending quality with unknown ones last |
| SimulationMeaning.LotsExactly | backtesting/portfolio_simulator.py:410-419 | a planned quantity buys the most whole lots of it |
| SimulationRules.EligibleMeans | backtesting/portfolio_simulator.py:474-523 | the allocator is asked about candidates that fit their own maximum behind all before them, and about everyone who still would |
| SimulationMeaning.EligibleGreedy | backtesting/portfolio_simulator.py:474-523 | going through the day in order, a candidate is taken exactly when its regime admits it, its symbol is new, and it fits its own maximum and the free slots behind those taken before it |
| SimulationMeaning.InvestableExactly | backtesting/portfolio_simulator.py:560-600 | the share to allocate is the least of the whole equity, all position sizes and the cash, and nothing without cash or equity |
| SimulationMeaning.DailyPlanExactly | backtesting/portfolio_simulator.py:581-634 | the plan is the allocator's answer about the eligible candidates, and empty without one, without cash and without equity |
| SimulationRules.PlanWithinCash | backtesting/portfolio_simulator.py:581-634 | with an allocator that keeps its budget, a day's plan never costs more than the cash |
| SimulationRules.CappedKeepsBudget | backtesting/portfolio_simulator.py:605-634 | what the capped allocators grant keeps the budget they are given |
| SimulationRules.DailyMaximumExact | backtesting/portfolio_simulator.py:1361-1377 | in a justified history the daily maximum refuses exactly the candidates ranked beyond it |
| SimulationRules.Explained | backtesting/portfolio_simulator.py:787-1134 | in a justified history every settled candidate was tried in its turn and opened or refused exactly as the portfolio of that moment and the day's plan demand |
| Simulator.PortfolioSimulator.CloseCandidate | backtesting/portfolio_simulator.py:749-785 | closes the candidate's own position if it has one, and appends its trade to the executed ones |
| Simulator.PortfolioSimulator.OpenCandidate | backtesting/portfolio_simulator.py:787-1134 | opened exactly when all checks pass and the cash covers the purchase, with the cash reduced by its cost; else rejected for the first failing check with the ledger untouched |
| Simulator.PortfolioSimulator.AllocateDaily | backtesting/portfolio_simulator.py:438-634 | the loop plans exactly the quantities the allocator grants the eligible candidates, for the share of the equity they may use |
| Simulator.PortfolioSimulator.PlanDay | backtesting/portfolio_simulator.py:1350-1370 | the ranked day cut at the daily maximum: allowed and surplus together are the ranked candidates, and there is a surplus only at the maximum |
| Simulator.PortfolioSimulator.OpenAll | backtesting/portfolio_simulator.py:1377-1394 | the allowed candidates are tried in rank order, each judged in the portfolio its predecessors left |
| Simulator.InTimeAfterExits | backtesting/portfolio_simulator.py:1335-1348 | once the exits of a date are closed, exactly the exits up to that date have happened |
| Simulator.InOrderExactly | backtesting/portfolio_simulator.py:1255-1261 | a run processes exactly the closed candidates, alphabetically within a date |
| Simulator.PortfolioSimulator.ProcessDate | backtesting/portfolio_simulator.py:1296-1410 | on one date: earlier positions close, entries are decided as the history demands, same-day positions close; openings stay within the daily limit |
| Simulator.NextDate | backtesting/portfolio_simulator.py:1296-1414 | processing a date keeps the account of who is settled and who is still open |
| Simulator.PortfolioSimulator.ProcessDates | backtesting/portfolio_simulator.py:1177-1414 | dates in order settle every candidate, every decision justified by the history before it, and leave open exactly those whose exit precedes their entry |
| Simulator.PortfolioSimulator.Simulate | backtesting/portfolio_simulator.py:1177-1421 | each closed candidate is executed or rejected, once, and every decision is the one its moment demands; the final error occurs exactly when an opened candidate's exit precedes its entry, never when no exit does; else no position stays open and cash is initial cash plus realized profit |
| Simulator.EarlyExitStaysOpen | backtesting/portfolio_simulator.py:1416-1420 | a candidate whose exit precedes its entry is opened and never closed, so the run ends in the open-position error |
| ExitSimulation.FirstPositive | backtesting/exit_models.py:97-128 | the first column with a positive ATR, or none if there is none |
| ExitSimulation.InitialExactly | backtesting/exit_models.py:40-240 | the initial levels of each model: percentages of the entry price, or multiples of the first positive ATR, and their errors |
| ExitSimulation.BreakEvenUpdate | backtesting/exit_models.py:159-184 | the stop is raised to the entry price once the highest price reached the trigger, and stays before |
| ExitSimulation.TrailingUpdate | backtesting/exit_models.py:234-256 | the stop is raised to the highest price less its multiple of the ATR of the day, and fails exactly without one |
| ExitSimulation.BreakEvenHolds | backtesting/engine.py:364-397 | over the days of a trade: once a day reached the trigger the stop is at or above the entry price for good, until then it is the initial one |
| ExitSimulation.TrailingFollows | backtesting/engine.py:364-397 | over the days of a trade: the stop stays within its distance, by the ATR of any past day, of every price up to that day |
| ExitSimulation.UpdateKeepsLevels | backtesting/exit_models.py:159-256 | after a day that touched nothing every update raises the stop or keeps it, below the target; only a trailing model without ATR fails |
| ExitSimulation.StopBeforeTarget | backtesting/engine.py:306-362 | a target fill means the stop was not touched first; stops fill at most at their level, targets at least; gaps fill at the open, and a day that touches both levels at the stop |
| ExitSimulation.StopRises | backtesting/engine.py:364-397 | while held, the stop never decreases and stays positive and below the target |
| ExitSimulation.Walk | backtesting/engine.py:294-397 | the loop returns the first touched bar's exit, else the last bar's close; its level errors are unreachable |
| ExitSimulation.SimulateExit | backtesting/engine.py:252-409 | initial level errors exactly when the initial levels are unusable; otherwise the meaning of the walk |
| ExitSimulation.ExitSound | backtesting/engine.py:294-409 | the final stop is at least the initial one, fills never beat their level, and no earlier bar reached an initial level |
| ExitSimulation.MeansOnce | backtesting/engine.py:294-409 | the meaning determines the result |
| ExitSimulation.ExitIsCausal | backtesting/engine.py:281-409 | an exit at a level, or at the end of the full holding period, is unchanged by any change after the exit bar |
| DatabaseCoverage.BisectRight | core/database_coverage.py:38-40 | the number of ascending values up to a bound |
| DatabaseCoverage.Sweep | core/database_coverage.py:134-144 | the inner loop takes in exactly the observations up to the session and keeps counts and latest ranks |
| DatabaseCoverage.TestIsCoverage | core/database_coverage.py:149-155 | the test on count and latest rank is coverage: enough stored dates, one of them within the tolerated number of sessions |
| DatabaseCoverage.BuildCoverageIndex | core/database_coverage.py:119-170 | the one-pass index holds, for each session from the start on, exactly the covered symbols |
| DatabaseCoverage.EligibleSymbols | core/database_coverage.py:173-252 | the direct recount returns exactly the covered symbols of its last session |
| DatabaseCoverage.IndexEqualsRecount | core/database_coverage.py:29-40 | from the first indexed session to the end date the index answers with the recount at that date, before it with nothing, and past the end date it refuses |
| DatabaseCoverage.CoveredPrefix | core/database_coverage.py:119-170 | later sessions do not change earlier coverage |
| HistoricalBreadth.EmaBetween | core/historical_breadth.py:222-231 | an average lies between any bounds on the closes so far |
| HistoricalBreadth.AnnotateRows | core/historical_breadth.py:217-231 | the running maps hold the recurrence of each symbol, and each date its points |
| HistoricalBreadth.BreadthExactly | core/historical_breadth.py:233-262 | a day without a counted symbol has no breadth; else it is the percentage of members with fifty closes that closed above their average |
| HistoricalBreadth.ChangeExactly | core/historical_breadth.py:250-262 | the change of a row is the difference to the tenth produced row before it, and missing without one |
| HistoricalBreadth.BuildSnapshots | core/historical_breadth.py:233-269 | the snapshots are those of the produced rows in the requested range, with the change to the tenth produced row before |
| HistoricalBreadth.BreadthBounds | core/historical_breadth.py:241-262 | breadth is in [0, 100], its ten-row change in [-100, 100] |
| HistoricalBreadth.PointsKept | core/historical_breadth.py:217-231 | the points of a day do not depend on rows after it |
| HistoricalBreadth.BreadthIsCausal | core/historical_breadth.py:217-269 | rows dated after a day change no snapshot up to that day |
| CoverageCausality.MembersAreCausal | core/database_coverage.py:29-40 | neither later observations nor later market sessions change a membership |
| CoverageCausality.CandidatesSuffice | core/historical_breadth.py:213-221 | loading only the rows of symbols that are members at some time produces the same breadth as loading all rows |
| CoverageCausality.CoverageBreadthIsCausal | core/historical_breadth.py:193-278 | in coverage mode two databases that agree up to a day give the same snapshots up to it, although later rows decide which symbols are loaded |
| HistoricalBreadth.AsOfIsCausal | core/historical_breadth.py:52-61 | indexes that agree up to a date answer alike at that date |

## Left out

- Rollback and abandonment are one step: in the source the abandon event follows the release of the lock, and between the two another live process on the same observation could declare an intent that the late event closes.
- SQLite, JSON, hashing, file paths, schema triggers and the parsing and normalization of provider data: tables are sequences and maps, transactions are atomic, candidates start normalized.
- Changes to the market file outside admission and rebase, and the stored-history error that detects them: the run assumes none, so an ambiguous settlement and the mismatch verdict are branches of the transition system that no run takes.
- MarketGuard.Guard.AdmitPriceBatch: no other process acts between its steps; the transition system interleaves them, and its theorems cover those runs.
- MarketGuard.Guard.RebaseSymbol: no other process acts between its steps, so a review cannot land between plan and intent; the transition system has that step and its refusal.
- Rejections during normalization, before an observation exists, write nothing and are not modelled.
- A process that holds no lock carries only the identity of a persisted observation; its other local variables do not survive into the protocol.
- Sorted tuples of sessions are sets; receipts and run summaries carry no content.
- The paper-exposure scan of the rebase is one boolean input.
- EvidenceBinding.MarketBindingSession.Bind: the records describe every state of the interval; a single state in which no dependency at all is claimed need not exist, because the claims are checked one after another.
- The gate reads one log state; its queries are not interleaved with writers, unlike those of the binding session.
- Missing log files at binding time, binding payload layout, persistence of bindings and review events.
- Provider fetching, scan wiring, reports, CSV and HTML output.
- VolatilityScalingAllocator, InverseATRAllocator, EqualWeightAllocator and CompositeAllocator: they feed the same normalization, capping and share functions with other raw weights; powers of reals are not modelled.
- Evidence built without volume priority, NaN scores and non-numeric volumes beyond their class.
- Simulator.PortfolioSimulator.Simulate: sell slippage is below 100 percent, because otherwise the first close ends the run in an error; sell commission and tax of more than 100 percent together are allowed, and cash may then turn negative.
- Simulator.PortfolioSimulator.OpenCandidate: position sizer, heat limit, regime resolution and daily allocator are arbitrary functions, so the heat refusal has one reason where the source distinguishes a missing stop.
- SimulationRules.RankEntryMeans: the cross-sectional order of a day is taken as given ordinals, as is the final order that the priority checker accepts; the decisions and the accounting hold for any order.
- Candidates are values told apart by an identity number, and planned quantities are a map instead of a field on the candidate; prices that would make the ledger raise an error are excluded by a precondition.
- Equity rows, drawdown, Sharpe, CAGR and the other metrics of the result.
- The trade's signal and risk metadata, and the `execution` label of a close.
- ExitSimulation.SimulateExit: NaN prices and a negative holding period are not modelled.
- DatabaseCoverage.EligibleSymbols: symbols are already trimmed and upper-cased, and the queries are given by what they return; the two source queries trim differently on unnormalized rows.
- Coverage index expansion before the start date, the SQL of the close rows, and rounding of breadth for signals.
