# nthlayer-workers: model and proofs

nthlayer-workers is a set of background workers around one core service. They evaluate
service level objectives and judgment thresholds, correlate events, drive incidents
through a pipeline with human approval, and apply recommendations to manifests. Most of
the code moves data; five parts keep state over long runs, and those are modelled here.

- **Judgment thresholds** (`Hysteresis`, `PersistedState`, `ThresholdKeys`, `Migration`,
  `ThresholdPhase`, `Rekey`). Each served threshold has a content-derived key whose shape changes when
  siblings come and go. Per-key state is migrated across re-keys, advanced by concurrent
  evaluations that write only after core has answered, and retired when the entry is gone.
  A run may be cut off between any two steps.
- **Autonomy governance** (`Autonomy`, `Governance`, `GovernanceLaws`, `FailedCycles`,
  `GovernanceOutcomes`, `GovernanceRuns`, `MeasureModule`). Breaches are mirrored into decisions, severities and a governed set that drive a one-way
  ladder; they must stay in step with the threshold state through every cycle and restart.
- **Incidents** (`Incidents`, `Approval`, `ApprovalLaws`, `ApprovalServer`, `Pipeline`,
  `Ingestion`, `IngestionLaws`). The approval protocol is a state machine whose steps are
  the stretches between suspensions of one event loop; its per-incident lock is deleted
  while still held. Incidents are opened from cursored polls and driven by a gated pipeline.
- **Plans** (`Manifest`, `PlanApply`, `PlanLaws`, `PlanOrder`). Dotted paths in nested
  documents, a classification table, and the two-phase apply.
- **Measurements and correlation** (`Quantile`, `BreachHistory`, `Sorting`, `Dedup`,
  `Temporal`, `Correlation`, `Session`, `BlastRadius`).

Objects whose methods update fields are classes whose methods are proved against a
specification function on the fields' values; the laws are proved about that function. What
each operation does is also said without that function, from what was there before and
what came in: the laws named `...Outcome`, `...Mean(s)` and `...Iff`.
Replies of core, Prometheus and agents, clocks and identifiers are parameters.

Assumptions, where the laws need them: the approval laws assume that timeouts are not
started while a handler of the incident is in flight and that the end of a safe action
can be recorded (both are shown to be needed; a process may end anywhere, and
`RestartActsAgainIff` says when that repeats an action); the ingestion laws that core lists
each record once per page and never changes a record's creation time; the re-key laws that
bounds digests tell siblings apart and that the re-arm time stays the same. Governance
runs may start from any ledger of which the law in question holds, and restart from any
state saved earlier or from none; laws about the order of events hold along the lineage of
a ledger, the chain of ledgers each of which was made or restored from the one before.

Where the code and its comments part, the model follows the code:

- `KeyState.from_dict` is documented never to silence a breach. Damage does so exactly if a
  valid disarmed flag stands beside a damaged within run that had begun, and then only until
  the next full re-arm run (`DamageSilencesIff`, `DamageOnlyDelays`).
- The per-incident lock is described as serializing approve, reject and timeout. It does
  until a request decides the incident, which drops it from the table (`LocksSplitIff`); from
  then on safety rests on the state check.
- An ingested breach is described as represented by its snapshot. A snapshot that arrives
  after a live incident already covers the breach opens a second one, and nothing else does
  (`SecondIncidentIff`).
- `--force` is described, and offered to the operator, as applying a drifted recommendation
  anyway. It does so exactly for one that sets a path below the root; an append to something
  that is no list, or a recommendation without a field, takes the whole plan down
  (`ForceAppliesIff`).
- Autonomy is described as a one-way ratchet. It is one in the history a ledger descends
  from; a restart from an older saved state, or from none, can undo it, and nothing else can
  (`RankDropsIff`).

## Model

| member | source | states |
|---|---|---|
| Hysteresis.ArmedIffRecovered | src/nthlayer_workers/measure/thresholds/state.py:103-124 | For every history of evaluations, skipped cycles and core replies with a clock that does not go back, the recorded armed flag is true iff each accepted breach has since been followed by a breach-free run of at least 3 within evaluations lasting at least the re-arm time. The right-hand side is a definition over the history alone |
| Hysteresis.FiresIffRecovered | src/nthlayer_workers/measure/thresholds/state.py:122-124 | A breach verdict is raised at an evaluation iff it is a breach and every earlier accepted breach has been recovered from |
| Hysteresis.AcceptedBreachesAreSeparated | src/nthlayer_workers/measure/thresholds/phase.py:261-323 | Two accepted breach verdicts of a key enclose a complete re-arm run, for any clock whatsoever |
| Hysteresis.StoredBreachesAreSeparated | src/nthlayer_workers/measure/thresholds/phase.py:311-319 | Two breach verdicts core has stored enclose such a run too, unless the evaluation that raised the first was cut off before core's answer arrived |
| Hysteresis.RearmRunArms | src/nthlayer_workers/measure/thresholds/state.py:109-121 | A re-arm run arms the key whatever state it started from, reachable or not; only the clock inside the run matters, so a backward clock delays re-arming but cannot prevent it |
| Hysteresis.RejectedBreachFiresAgain | src/nthlayer_workers/measure/thresholds/phase.py:312-318 | A breach core did not accept, or whose answer did not arrive, leaves the key armed: the next breach fires again, across any skipped, cut-off or unevaluable cycles in between |
| Hysteresis.ArmedNeverAfterBreach | src/nthlayer_workers/measure/thresholds/state.py:122-124 | No reachable state is armed with breach as its last evaluable status, so the second half of the fire guard only matters for restored states |
| PersistedState.DamageSilencesIff | src/nthlayer_workers/measure/thresholds/state.py:83-102 | For the record of any reachable key state with any fields damaged, or all of it: some events raise a breach from the state and none from what is restored iff the disarmed flag survived while the start or the length of a within run already begun did not |
| PersistedState.LostRunSilences | src/nthlayer_workers/measure/thresholds/state.py:95-102 | The events: the evaluations that complete the lost run, and a breach |
| PersistedState.QuietKeepsAsReady | src/nthlayer_workers/measure/thresholds/state.py:87-102 | Any other damage is harmless: as long as the restored state raises nothing it stays at least as ready, and whatever raises a breach from the state saved raises one from it |
| PersistedState.RestoredAsSaved | src/nthlayer_workers/measure/thresholds/state.py:83-102 | An undamaged record of a reachable state is restored exactly |
| PersistedState.ReachableIsRegular | src/nthlayer_workers/measure/thresholds/state.py:105-124 | A remembered breach is disarmed and outside a run, a run has a start and a positive count and was last within, and outside one the count is zero |
| PersistedState.DamageOnlyDelays | src/nthlayer_workers/measure/thresholds/state.py:87-102 | No damage silences for good: from whatever was restored one full re-arm run arms the key |
| ThresholdKeys.Entries | src/nthlayer_workers/measure/thresholds/phase.py:115-185 | For any response - unnamed manifests, missing or malformed threshold lists, unparsable items, duplicates - the loops return exactly the keyed entries of what was parsed, and a service as present iff every manifest of that name lists its thresholds and all of them parse |
| ThresholdKeys.GroupServed | src/nthlayer_workers/measure/thresholds/phase.py:131-169 | The reading loop collects, for each identity in order of first sight, its distinct entries, and the services seen in full and in part |
| ThresholdKeys.ServedMeans | src/nthlayer_workers/measure/thresholds/phase.py:131-169 | An entry is served iff some manifest with its non-empty service as name lists it in a form that parses |
| ThresholdKeys.FullyPresentMeans | src/nthlayer_workers/measure/thresholds/phase.py:131-169 | A service is seen in full iff a manifest has its name and all that do list thresholds that all parse |
| ThresholdKeys.KeyGroup | src/nthlayer_workers/measure/thresholds/phase.py:171-184 | The entries of one identity get the bare key if alone and distinct suffixed keys otherwise; of two with one digest the first is kept |
| ThresholdKeys.EntriesAreKeyed | src/nthlayer_workers/measure/thresholds/phase.py:170-185 | Every entry has the bare key iff it is the only distinct entry of its identity and the digest-suffixed key otherwise; no key is used for two bases |
| ThresholdKeys.EveryEntryKeptIffDigestsFaithful | src/nthlayer_workers/measure/thresholds/phase.py:176-184 | Every served threshold is evaluated iff no two distinct entries of one identity share a bounds digest |
| ThresholdKeys.ReorderingChangesNoKey | src/nthlayer_workers/measure/thresholds/phase.py:127-130 | Reordering or repeating served entries changes no key and no entry |
| Migration.PairGroup | src/nthlayer_workers/measure/thresholds/phase.py:229-249 | The matching loop returns exactly the relation "equal digest with one candidate, else the one left over on each side" |
| Migration.MatchDigests | src/nthlayer_workers/measure/thresholds/phase.py:233-242 | The first loop pairs exactly the new keys whose digest exactly one old key stores, and returns the new keys left over |
| Migration.NoTwoClaims | src/nthlayer_workers/measure/thresholds/phase.py:238-241 | Two new keys never claim one old key: the branch that drops all pairs is unreachable for keys made by the keying step |
| Migration.PairingIsInjective | src/nthlayer_workers/measure/thresholds/phase.py:233-250 | The renaming is injective in both directions |
| Migration.LastOneInherits | src/nthlayer_workers/measure/thresholds/phase.py:233-246 | Of one identity, the only key that vanished hands its record to the only one that appeared, with the same bounds or edited ones |
| Migration.AmbiguousStaysPut | src/nthlayer_workers/measure/thresholds/phase.py:233-246 | Where more than one key that vanished or appeared matches none by its bounds, nothing is guessed: none of them passes its record on |
| Migration.RecordsMoveIntact | src/nthlayer_workers/measure/thresholds/phase.py:188-251 | Every record survives migration at exactly one key, unchanged but for its refreshed identity; a record that moves goes from a dead key to a live one without state, within one service and base |
| Migration.RecordsComeFromState | src/nthlayer_workers/measure/thresholds/phase.py:247-249 | Every record after migration is one from before: none is invented |
| Migration.HysteresisStatesConserved | src/nthlayer_workers/measure/thresholds/phase.py:247-250 | The multiset of hysteresis states is conserved by migration |
| Migration.RenamingIsSimultaneous | src/nthlayer_workers/measure/worker.py:413-425 | No new key is an old key of another pair, so the sequential rename of governance equals renaming all pairs at once |
| Migration.SecondMigrationRenamesNothing | src/nthlayer_workers/measure/thresholds/phase.py:188-251 | Migrating again against the same entries pairs no key |
| Migration.SecondMigrationIsIdentity | src/nthlayer_workers/measure/thresholds/phase.py:188-251 | Migration is idempotent |
| ThresholdPhase.Thresholds.Migrate | src/nthlayer_workers/measure/thresholds/phase.py:188-251 | Refreshing, matching and moving leave the dictionary as the renaming relation says and return that renaming |
| ThresholdPhase.PairAll | src/nthlayer_workers/measure/thresholds/phase.py:217-246 | Group after group, in any order, the pairing of all groups |
| ThresholdPhase.Thresholds.MoveAll | src/nthlayer_workers/measure/thresholds/phase.py:247-250 | Moving record after record, in any order, moves them all at once |
| ThresholdPhase.Thresholds.RunTasks | src/nthlayer_workers/measure/thresholds/phase.py:254-323 | Over every interleaving of the concurrent evaluations, cut off at any step, the dictionary holds exactly the writes of the evaluations that finished, each computed as if it had run alone, and the breaches are exactly those whose acceptance by core arrived |
| ThresholdPhase.Thresholds.Retire | src/nthlayer_workers/measure/thresholds/phase.py:397-406 | Deleting one doomed key after another leaves exactly what the two conditions on service and key spare; what that means for served manifests and for the next cycle is the next row and `Rekey.CycleSettles` |
| ThresholdPhase.RetiredIff | src/nthlayer_workers/measure/thresholds/phase.py:397-406 | A record goes iff its service is listed in full by all manifests of that name and no served entry has its key; every other record stays as it was |
| ThresholdPhase.Thresholds.RunPhase | src/nthlayer_workers/measure/thresholds/phase.py:326-423 | One run - migrate, evaluate, retire only if it was not cancelled - leaves the specified dictionary, renaming and breaches |
| ThresholdPhase.BeginKeepsInvariant | src/nthlayer_workers/measure/thresholds/phase.py:261-266 | A task that reads a key while others are in flight reads what the run started from |
| ThresholdPhase.FinishKeepsInvariant | src/nthlayer_workers/measure/thresholds/phase.py:298-323 | A finishing task writes the record computed when it began, and no other task has written that key |
| ThresholdPhase.AppliedIsOneEvent | src/nthlayer_workers/measure/thresholds/phase.py:261-323 | In a run a key moves by exactly one committed event if its task finished and not at all otherwise |
| ThresholdPhase.StoredVerdictIsReportedOrRepeated | src/nthlayer_workers/measure/thresholds/phase.py:311-323 | A verdict core has stored in a run is among the breaches the run reports iff its evaluation finished, and its key is then disarmed; otherwise the key is as it was and the next breach is raised again |
| ThresholdPhase.RunLeavesReport | src/nthlayer_workers/measure/thresholds/phase.py:267-322 | What a run leaves of a key beside its hysteresis: a finished evaluation writes a record of its entry whose last report is its outcome, now, iff core accepted the assessment and there was something to report - a verdict, another outcome, or a heartbeat passed - and the report from before otherwise; one that raised, or whose verdict was refused, writes nothing |
| ThresholdPhase.AcceptedBreachIsDisarmed | src/nthlayer_workers/measure/thresholds/phase.py:313-323 | An accepted breach leaves its key disarmed, and was raised from an armed one |
| ThresholdPhase.HeartbeatIsKept | src/nthlayer_workers/measure/thresholds/phase.py:267-291 | While core accepts assessments, what was last reported of a key is its last outcome, less than a heartbeat ago, and a firing breach always reports |
| Rekey.SiblingsNeverDisturb | src/nthlayer_workers/measure/thresholds/phase.py:115-251 | Over any run in which an entry is served in full and its cycles complete, its hysteresis state is the one its own evaluations produce: no sequence of sibling additions, removals, bound edits and reorderings enters it |
| Rekey.RekeyingNeverRefires | src/nthlayer_workers/measure/thresholds/phase.py:191-195 | Through any sequence of re-keys, a verdict for an entry means its own evaluations recovered from every earlier accepted breach |
| Rekey.VerdictsEncloseOwnRecovery | src/nthlayer_workers/measure/thresholds/phase.py:191-195 | Two verdicts core has for one entry enclose a full re-arm run of its own evaluations, whatever was re-keyed before, between and after them, unless the first was cut off before its answer; no history is presupposed |
| Rekey.EveryRecordHasAHistory | src/nthlayer_workers/measure/thresholds/phase.py:188-323 | Over any run with one re-arm time every record has a life: a chain of keys, one for each cycle since it was created, each carried to the next by the migration, and its hysteresis state is the one produced from a fresh key by what those cycles did with those keys |
| Rekey.RekeyKeepsRecord | src/nthlayer_workers/measure/thresholds/phase.py:197-204 | A live entry with a record keeps it under its new key, whatever its siblings do |
| Rekey.CycleSettles | src/nthlayer_workers/measure/thresholds/phase.py:397-406 | After a complete cycle nothing stale is left of a fully served service: this is what makes the next matching unambiguous |
| Rekey.AlwaysConsistent | src/nthlayer_workers/measure/thresholds/phase.py:320-322 | In every reachable dictionary each record carries the service and base of its key |
| Rekey.ReplacementInheritsState | src/nthlayer_workers/measure/thresholds/phase.py:243-246 | A never-evaluated entry takes over the state of the one sibling that vanished: an edited bound and a replaced entry look alike |
| Autonomy.ReduceAutonomy | src/nthlayer_workers/measure/worker.py:619-643 | The result is a known level, never above a known current one; -1 reaches observer, -2 at least advisor, a positive number of steps is taken in full unless observer is reached |
| Autonomy.GovernanceRule | src/nthlayer_workers/measure/worker.py:537-569 | A critical breach always ends at observer, several breaches at advisor or below, a single one drops by its severity; the level stays only at the bottom or at the floor |
| Autonomy.GovernanceIsRule | src/nthlayer_workers/measure/worker.py:537-569 | The computed steps taken by the computed reduction are the rule in words, exactly: a critical breach to observer, several others to advisor unless lower, a single one two levels down, or one if low or of no known severity, an unknown level to advisor |
| MeasureModule.MeasureModule.ProcessCycle | src/nthlayer_workers/measure/worker.py:224-350 | The phases, run in the source's order on the module's fields, leave the ledger `CycleOf` describes, about which the laws below are proved |
| MeasureModule.MeasureModule.MaybeRunThresholdPhase | src/nthlayer_workers/measure/worker.py:355-411 | Due or not, the threshold run or plain retirement, then the rename, leave exactly the specified ledger; the returned breaches are those core accepted |
| MeasureModule.MeasureModule.RenameThresholdGovernance | src/nthlayer_workers/measure/worker.py:413-425 | Renaming key after key moves exactly the governed keys' decisions and severities, as one simultaneous renaming |
| MeasureModule.MeasureModule.DetectTransitions | src/nthlayer_workers/measure/worker.py:600-610 | Returns exactly the keys now breaching that were not breaching before |
| MeasureModule.MeasureModule.InjectThresholdBreaches | src/nthlayer_workers/measure/worker.py:427-461 | With autonomy on, exactly the open decided breaches and the newly accepted ones are injected, the new ones as high; with it off nothing is |
| MeasureModule.MeasureModule.InjectOpen | src/nthlayer_workers/measure/worker.py:449-452 | The loop over the threshold state injects exactly the disarmed keys with a decision |
| MeasureModule.MeasureModule.InjectNew | src/nthlayer_workers/measure/worker.py:454-459 | The loop over the accepted breaches marks each as new, breaching and high |
| MeasureModule.MeasureModule.Govern | src/nthlayer_workers/measure/worker.py:274-327 | Treating services one by one, in any order, decides exactly the undecided breaches of services with a new one and reduces each such service once |
| MeasureModule.MeasureModule.ClearRecovered | src/nthlayer_workers/measure/worker.py:329-334 | Exactly the SLOs that evaluated healthy lose decision and severity |
| MeasureModule.MeasureModule.ReleaseThresholdGovernance | src/nthlayer_workers/measure/worker.py:463-472 | Exactly the governed keys that re-armed or retired leave all three records |
| MeasureModule.MeasureModule.CarryForward | src/nthlayer_workers/measure/worker.py:340-350 | The stored statuses become this cycle's, with the previous one for every SLO that failed to evaluate and no threshold key |
| MeasureModule.TreatOne | src/nthlayer_workers/measure/worker.py:282-307 | Treating one service changes no other service's decisions or level |
| MeasureModule.TreatedIsSpecified | src/nthlayer_workers/measure/worker.py:282-327 | At every point of the loop over services the fields are those a failure there would leave |
| GovernanceOutcomes.LevelOutcome | src/nthlayer_workers/measure/worker.py:269-327 | A cycle on a ledger in step moves a service iff a breach that counts for it is new, and then to where the rule sends it for all that count, by the severities they end with; its SLOs that evaluated to a breach count, and with threshold autonomy on its governed threshold keys |
| GovernanceOutcomes.GovernedIff | src/nthlayer_workers/measure/worker.py:427-472 | After a cycle a threshold key is governed iff its breach is open and it was governed under the key it had, if it was open before, or threshold autonomy is on, if it is new |
| GovernanceOutcomes.ThresholdOutcome | src/nthlayer_workers/measure/worker.py:413-472 | A governed key carries its decision and severity through re-keys and cycles; a new one is decided now, as high; no other threshold key has either |
| GovernanceOutcomes.SloOutcome | src/nthlayer_workers/measure/worker.py:234-347 | Status, decision and severity of an SLO after a cycle, exactly, from its evaluation and what was stored: a new breach is decided now with the severity it was classified with, a healthy evaluation clears |
| GovernanceOutcomes.OffOnlySlosCount | src/nthlayer_workers/measure/worker.py:440-461 | With threshold autonomy off, a level changes only if an SLO of the service evaluated to a breach and was not stored as breaching |
| GovernanceOutcomes.OnAcceptedBreachReduces | src/nthlayer_workers/measure/worker.py:440-461 | With it on, a threshold breach core accepts is decided and its service goes where the rule sends it |
| GovernanceOutcomes.OnOpenBreachCounts | src/nthlayer_workers/measure/worker.py:444-452 | With it on, a governed open breach counts beside a new SLO breach of its service, which then ends at advisor or observer |
| GovernanceOutcomes.RunsWhenDue | src/nthlayer_workers/measure/worker.py:371-407 | A threshold run is due if there was none, the clock is behind it or the interval has passed; then it is noted, finished evaluations move their keys by one event and only a completed run retires; otherwise no key moves and retirement still happens |
| GovernanceOutcomes.OwnerMeans | src/nthlayer_workers/measure/worker.py:277-280 | A breach counts against what stands before the first colon of its service |
| GovernanceRuns.LedgerAlwaysInSync | src/nthlayer_workers/measure/worker.py:269-347 | In every ledger with no failed cycle in its history, over any run from a ledger in step, the empty one included - any evaluations, refusals, sibling edits, retirements, threshold runs cancelled anywhere, restarts from any earlier saved state, however stale, and restarts that find none - a threshold key has a decision iff it has a severity iff it is governed, and then its breach is open; with threshold autonomy on throughout, iff its breach is open. An SLO is decided iff it last evaluated to a breach |
| FailedCycles.FailureKeepsSyncIff | src/nthlayer_workers/runner.py:151-157 | A cycle that raises after the threshold phase, anywhere in the verdicts of phase 2 or between two services of phase 3, leaves the ledger in step iff no governed key was about to be released and, in phase 3, the service of every new counted breach had been treated |
| GovernanceOutcomes.SloAfterFailure | src/nthlayer_workers/runner.py:151-157 | A failed cycle leaves an SLO with the status it had, classified if its verdict was due, and decided if its service had been treated |
| GovernanceRuns.HeldThroughFailures | src/nthlayer_workers/runner.py:151-167 | Failed cycles included: only governed threshold keys have a decision or a severity, every SLO stored as breaching is decided, and after each complete cycle only open breaches are governed; restarts must restore ledgers whose governed keys all have state, as all are after a complete cycle |
| FailedCycles.RestoreKeepsHeldIff | src/nthlayer_workers/measure/worker.py:170-181 | Restoring a ledger keeps that iff every governed key with a decision or severity still has threshold state: a shutdown between retirement and release leaves a decision behind without its key |
| FailedCycles.MissedBreachStaysMissed | src/nthlayer_workers/measure/worker.py:447-460 | A breach left open without a decision gets none in a later cycle while it stays open |
| GovernanceLaws.CycleKeepsSync | src/nthlayer_workers/measure/worker.py:355-472 | One cycle keeps the threshold records in step, with autonomy on or off and whatever happens in it |
| GovernanceLaws.CycleKeepsSlosInSync | src/nthlayer_workers/measure/worker.py:329-350 | One cycle keeps SLO decisions in step with SLO status |
| GovernanceLaws.SloAfterCycle | src/nthlayer_workers/measure/worker.py:329-347 | A completed cycle that evaluates an SLO puts its decision and its status back in step, whatever a failed cycle left; one that does not evaluate it changes neither |
| GovernanceLaws.RestoreLosesNothing | src/nthlayer_workers/measure/worker.py:151-181 | Restoring the persisted state of a ledger in step gives that ledger back: the filter on governed keys drops nothing |
| GovernanceLaws.RestoreMeans | src/nthlayer_workers/measure/worker.py:151-181 | What a restart restores, field by field, from a known and from an unknown layout |
| GovernanceLaws.UnknownVersionKeepsSyncIff | src/nthlayer_workers/measure/worker.py:162-166 | Discarding threshold state of an unknown layout version keeps the ledger in step iff no threshold breach was governed; otherwise decisions stay behind without a key |
| GovernanceRuns.RatchetOverLineage | src/nthlayer_workers/measure/worker.py:274-327 | In the history a ledger descends from - completed and failed cycles and restarts from saved states, from any first ledger with known levels - a service's autonomy never rises, changes at most four times, and is reduced at most once per new breach of the service |
| GovernanceRuns.RankDropsIff | src/nthlayer_workers/runner.py:159-167 | Across the whole run autonomy rises at a happening iff that is a restart from a ledger of higher autonomy, or one that finds no state while the service is below full autonomy |
| GovernanceLaws.CycleRatchets | src/nthlayer_workers/measure/worker.py:619-643 | In one cycle a level only falls, only by a reduction, and a reduction needs a new breach of that service |
| GovernanceLaws.ReductionBites | src/nthlayer_workers/measure/worker.py:282-307 | A reduction moves the service down the ladder unless it is at the bottom, or at advisor with several breaches none of them critical; a critical breach takes it to observer |
| GovernanceRuns.ThresholdBreachesAlwaysHigh | src/nthlayer_workers/measure/worker.py:453-459 | Over any run every threshold breach in the ledger has severity high |
| GovernanceLaws.DecisionsStand | src/nthlayer_workers/measure/worker.py:286-302 | A decision on an SLO is not touched again until it is cleared |
| GovernanceRuns.StatusIsLastEvaluated | src/nthlayer_workers/measure/worker.py:338-350 | The stored status of an SLO is the last one it evaluated to in a completed cycle of the history the ledger descends from; failed evaluations and failed cycles are transparent |
| GovernanceRuns.BreachVerdictsEncloseRecovery | src/nthlayer_workers/measure/worker.py:600-610 | Two breach verdicts for an SLO, the second in a ledger that descends from the first, enclose a healthy evaluation of it on the way, unless the cycle that raised the first failed before it stored the status; restarts from any saved state are allowed |
| GovernanceRuns.LostStatusIsRaisedAgain | src/nthlayer_workers/measure/worker.py:338-350 | And in that case the next completed cycle in which the SLO breaches raises it again |
| ApprovalLaws.ActsAndDecidesAtMostOnce | src/nthlayer_workers/respond/server.py:95-106 | Over every interleaving of approve, reject, Slack and timeout handlers for any number of incidents, the safe action of an incident starts at most once, at most one step decides it, and what is stored then never changes |
| ApprovalLaws.RunningActionDecides | src/nthlayer_workers/respond/coordinator.py:165-222 | Once a safe action is running, no reject, timeout or second approval overtakes it: the incident is decided by that action's own end, as that end says |
| ApprovalLaws.DecisionSaysHow | src/nthlayer_workers/respond/coordinator.py:165-278 | An incident is resolved exactly if its action was performed and recorded, escalated otherwise, and marked executed only when an action ran |
| ApprovalLaws.EnterOutcome | src/nthlayer_workers/respond/coordinator.py:133-165 | Who is told what on getting the lock, by what is stored - not found, conflict, ignored, accepted or the action started, each iff its condition - and that only an accepted rejection or timeout saves, an escalation |
| ApprovalLaws.FinishOutcome | src/nthlayer_workers/respond/coordinator.py:165-222 | What each end of a safe action stores and replies, and that it gives up the lock |
| ApprovalLaws.SomeStepDecides | src/nthlayer_workers/respond/server.py:133-144 | An incident that ends up decided was decided by some step, so with the previous row by exactly one |
| ApprovalLaws.StepKeepsInv | src/nthlayer_workers/respond/server.py:47-51 | The inductive invariant: until an incident is decided, everyone who may still touch it uses the one lock in the table; a running action holds its lock and what it loaded is what is stored; the live timeout is the registered one |
| ApprovalLaws.OneAcceptedReply | src/nthlayer_workers/respond/server.py:95-116 | At most one of all requests and timeouts of an incident is accepted, and only once it is decided |
| ApprovalLaws.DecidingCleansUp | src/nthlayer_workers/respond/server.py:295-300 | A request that decides an incident leaves it no live timeout and no lock in the table |
| ApprovalLaws.WaitingIsNotStuck | src/nthlayer_workers/respond/server.py:47-51 | Dropping locks from the table loses no wake-up: a waiting handler can enter, or the action it waits for can finish |
| ApprovalLaws.TimeoutDecides | src/nthlayer_workers/respond/server.py:302-328 | At every moment of a run, an awaiting incident with a live timeout and no running action is escalated by that timeout: once it wakes it gets the lock at once and rejects |
| ApprovalLaws.TimeoutRejects | src/nthlayer_workers/respond/server.py:313-328 | A timeout that gets its lock while its incident awaits stores the escalation, removes its own entry and changes nothing else |
| ApprovalLaws.StartedTimeoutGuards | src/nthlayer_workers/respond/server.py:289-300 | Starting a timeout leaves a live one and cancels the one before |
| ApprovalLaws.LocksSplitIff | src/nthlayer_workers/respond/server.py:295-300 | Over every interleaving, while a handler waits for the lock it took, a later arrival waits for the same one iff no request has decided the incident since: a timeout that decides leaves the lock in the table, a request that decides drops it |
| ApprovalLaws.EagerTimeoutRunsActionTwice | src/nthlayer_workers/respond/server.py:289-293 | From every state with an approval running, starting a timeout lets the next approval run the safe action a second time: the assumption on `start_timeout` is needed |
| ApprovalLaws.EagerTimeoutSplitsApprovals | src/nthlayer_workers/respond/server.py:289-300 | It is needed beside a waiting approval too: from every such state that approval and the next one both run the action, on different locks |
| ApprovalLaws.EagerTimeoutOverwritesDecision | src/nthlayer_workers/respond/server.py:289-300 | And beside a waiting rejection: from every such state the next approval runs beside it and the end of its action overwrites the escalation the rejection stored |
| ApprovalLaws.LostRecordRunsActionAgain | src/nthlayer_workers/respond/coordinator.py:197-222 | If not even the failure of an action can be recorded, the next approval runs the action again |
| ApprovalLaws.ActsAgainOnlyIfInterrupted | src/nthlayer_workers/respond/coordinator.py:165-222 | Across any number of server processes on one store, each ended anywhere: an action that one process starts is started again by a later one only if it was running when the first ended, and at most one step of all processes decides an incident |
| ApprovalLaws.RestartActsAgainIff | src/nthlayer_workers/respond/coordinator.py:197-222 | After a process that started the action of an incident, the first approval in the next process starts it again iff the action was running when the process ended |
| ApprovalLaws.LateRequestsConflict | src/nthlayer_workers/respond/coordinator.py:133-140 | A request entering after the decision is refused and changes nothing but its own reply |
| ApprovalLaws.RecoveryIsComplete | src/nthlayer_workers/respond/server.py:330-357 | Startup recovery keeps the invariant and leaves every awaiting incident it visits decided or with a live timeout |
| ApprovalLaws.RecoverOutcome | src/nthlayer_workers/respond/server.py:330-357 | Recovery escalates an awaiting incident iff its time ran out while the server was down, and otherwise leaves the store alone and starts a timeout |
| ApprovalServer.ApprovalServer.HandleReject | src/nthlayer_workers/respond/server.py:118-151 | The reject handler, from its lock to its release, is one step of the protocol |
| ApprovalServer.ApprovalServer.GetLock | src/nthlayer_workers/respond/server.py:47-51 | The lock in the table, or a fresh one put there |
| ApprovalServer.ApprovalServer.CancelTimeout | src/nthlayer_workers/respond/server.py:295-300 | The registered timeout, if still running, is cancelled and forgotten, and the lock leaves the table; no other task changes |
| ApprovalServer.ApprovalServer.Arrive | src/nthlayer_workers/respond/server.py:95 | A request joins the waiters of the lock in the table |
| ApprovalServer.ApprovalServer.Wake | src/nthlayer_workers/respond/server.py:308-313 | A timeout whose sleep is over joins them too |
| ApprovalServer.ApprovalServer.HandleUnknown | src/nthlayer_workers/respond/server.py:233-234 | A Slack action that is neither button changes nothing |
| ApprovalServer.ApprovalServer.CoordinatorReject | src/nthlayer_workers/respond/coordinator.py:224-278 | Refuses an unknown incident, then one not awaiting approval, and otherwise escalates it |
| ApprovalServer.ApprovalServer.BeginApprove | src/nthlayer_workers/respond/coordinator.py:133-166 | The approve handler up to the safe action: the refusals in the source's order, or the action starts under the lock |
| ApprovalServer.ApprovalServer.EndApprove | src/nthlayer_workers/respond/server.py:95-106 | The approve handler from the action's end: record, cancel the timeout, drop and release the lock |
| ApprovalServer.ApprovalServer.TimeoutFires | src/nthlayer_workers/respond/server.py:302-328 | The timeout task after its sleep: rejects only if still awaiting, and keeps the lock in the table |
| ApprovalServer.ApprovalServer.StartTimeout | src/nthlayer_workers/respond/server.py:289-300 | Cancels the old timeout, drops the lock and registers a new timeout |
| ApprovalServer.ApprovalServer.RecoverPendingApprovals | src/nthlayer_workers/respond/server.py:330-357 | The startup loop is the fold of the recovery step over the active incidents |
| Pipeline.Run | src/nthlayer_workers/respond/coordinator.py:95-111 | The step loop on the shared context ends in the context `PipelineOf` describes |
| Pipeline.FirstGateDecides | src/nthlayer_workers/respond/coordinator.py:303-363 | A newly opened incident runs its steps in order, each once, up to the first that fails, is flagged or needs approval; the whole context it leaves - state, last completed step, flag, remediation and error - is a function of that step and its outcome |
| Pipeline.ResolvedIff | src/nthlayer_workers/respond/coordinator.py:365-370 | An incident resolves without a human iff all four steps complete, no gate sees the escalation flag and remediation demands no approval |
| Pipeline.DrivenOnce | src/nthlayer_workers/respond/worker.py:253-293 | One drive leaves an incident terminal or awaiting approval, and driving never changes such an incident |
| Pipeline.ResumeMeans | src/nthlayer_workers/respond/coordinator.py:284-302 | A stored context is left alone while it awaits approval, ends if nothing is left to run, and otherwise goes on after its last completed step |
| IngestionLaws.EachTriggerOpensOnce | src/nthlayer_workers/respond/worker.py:168-446 | Across any polls, cycles that fail after the snapshot path, before the drive or between two incidents of it, crashes, restarts that skip corrupt incidents or find no state, and prunings: at most one live incident per snapshot and per fallback breach; no snapshot is opened twice in the history a state descends from, even after its incident was pruned; every incident is at rest or has never been driven |
| IngestionLaws.SnapshotIncidents | src/nthlayer_workers/respond/worker.py:331-358 | The snapshot path adds exactly one kind of incident for each page record with an id, created after the cursor and covered by no live incident: new, with the breaches it names |
| IngestionLaws.FallbackIncidents | src/nthlayer_workers/respond/worker.py:362-446 | The fallback path adds one exactly for each listed breach with an id that no live incident covers and no snapshot on the page names, provided its cursor has not passed the cutoff |
| IngestionLaws.CursorsAdvance | src/nthlayer_workers/respond/worker.py:358-434 | After a poll each cursor is the latest creation time its path met, or as it was if it met none or was not due |
| IngestionLaws.NewIncidentIsDriven | src/nthlayer_workers/respond/worker.py:253-293 | An incident is driven in the cycle that adds it, by the outcomes meant for it, and keeps trigger and parents |
| IngestionLaws.SavedMeans | src/nthlayer_workers/respond/worker.py:616-631 | Saving drops exactly the terminal incidents past their retention and nothing else |
| IngestionLaws.SnapshotsOpenedExactly | src/nthlayer_workers/respond/worker.py:331-358 | The snapshot path opens an incident for exactly the usable records after the cursor that no live incident covers |
| IngestionLaws.FallbackOpensOnlyOrphans | src/nthlayer_workers/respond/worker.py:382-434 | A fallback incident is opened only for a breach that no live incident covers, those of this poll included, and no snapshot on the page names |
| IngestionLaws.CoveredBreachStaysCovered | src/nthlayer_workers/respond/worker.py:436-446 | A breach that triggered a live incident, or that its snapshot names, is not opened by the fallback |
| IngestionLaws.SnapshotsKeepLog | src/nthlayer_workers/respond/worker.py:335-358 | Every opened snapshot stays at or below the cursor, which never moves back |
| IngestionLaws.LogIsWhatOpened | src/nthlayer_workers/respond/worker.py:343-358 | The log of opened snapshots names exactly the triggers of the incidents a poll added |
| IngestionLaws.LateSnapshotIsLost | src/nthlayer_workers/respond/worker_helpers.py:124-128 | A snapshot that becomes visible with a creation time the cursor has reached is never opened |
| IngestionLaws.SecondIncidentIff | src/nthlayer_workers/respond/worker.py:336-343 | A breach that a live incident covers, as its trigger or through its snapshot, gets another incident in a poll iff the page has a usable snapshot after the cursor that names it and whose own id no live incident covers |
| IngestionLaws.BreachIsTakenUpIff | src/nthlayer_workers/respond/worker.py:312-446 | A poll opens an incident that covers an id iff it opens a snapshot of that id or naming it, or the fallback is due and a listed breach of that id is covered by no live incident - those just opened included - and named by no snapshot on the page |
| IngestionLaws.RestIsStable | src/nthlayer_workers/respond/worker.py:273-278 | Later cycles leave a settled incident exactly as it is |
| IngestionLaws.SaveKeepsSound | src/nthlayer_workers/respond/worker.py:616-631 | Saving with pruning keeps all of this true of the saved state |
| Ingestion.RespondModule.ProcessCycle | src/nthlayer_workers/respond/worker.py:182-188 | Ingesting and driving on the module's fields is the specified cycle |
| Ingestion.RespondModule.IngestSnapshots | src/nthlayer_workers/respond/worker.py:312-360 | The loop over the filtered, sorted page, the dedup set taken once, the cursor moved after every usable record |
| Ingestion.RespondModule.IngestOrphanBreaches | src/nthlayer_workers/respond/worker.py:362-434 | The fallback loop with its cutoff guard and both dedup sets |
| Ingestion.RespondModule.IncidentsTriggeredFrom | src/nthlayer_workers/respond/worker.py:436-446 | The union of the trigger ids of all live incidents |
| Ingestion.RespondModule.DriveActiveIncidents | src/nthlayer_workers/respond/worker.py:253-293 | Every unsettled incident is run once through the pipeline, the others are left alone |
| Ingestion.BreachIdsWithSnapshots | src/nthlayer_workers/respond/worker_helpers.py:131-145 | Exactly the breach ids some snapshot on the page names |
| Sorting.SortIsSort | src/nthlayer_workers/respond/worker.py:335-336 | The sort of a page orders it and permutes it |
| Sorting.SortIsStable | src/nthlayer_workers/correlate/correlation/temporal.py:28 | Elements that tie stay in the order they came in |
| Manifest.ResolvePath | src/nthlayer_workers/learn/_yaml.py:45-62 | The descent loop returns what the recursive definition of a path says, for every document and path |
| Manifest.ApplyAtPath | src/nthlayer_workers/learn/_yaml.py:65-142 | The write loop, refusals in the source's order, gives the document the recursive definition of a write says, or its error, for every document, path and value |
| Manifest.ListContainsProposed | src/nthlayer_workers/learn/_yaml.py:271-286 | True iff some item matches: by name for a proposed mapping with a name, by deep equality otherwise |
| Manifest.GetAfterSet | src/nthlayer_workers/learn/_yaml.py:130-142 | A value written at a path reads back |
| Manifest.GetAfterAppend | src/nthlayer_workers/learn/_yaml.py:101-128 | An append extends the list that was there, or creates it, by exactly the value |
| Manifest.SetWhatIsThere | src/nthlayer_workers/learn/_yaml.py:130-142 | Writing back what a path holds changes nothing |
| Manifest.SetTwice | src/nthlayer_workers/learn/_yaml.py:130-142 | The last of two writes to a path wins, and is possible iff it was without the first |
| Manifest.WriteFrames | src/nthlayer_workers/learn/_yaml.py:107-142 | A write leaves every path that is no prefix of its own, nor the reverse, as it was |
| Manifest.WriteBelow | src/nthlayer_workers/learn/_yaml.py:131-140 | A write below a path finds nothing or a mapping there and leaves a mapping |
| Manifest.WriteFailsIff | src/nthlayer_workers/learn/_yaml.py:107-142 | A write at a non-empty path fails iff some proper prefix of it holds something not a mapping, or it is to append and the path holds something not a list |
| Manifest.ErrorMeans | src/nthlayer_workers/learn/_yaml.py:78-142 | Only an empty path is an error of value, all else that stands in the way one of type |
| Manifest.WritesCommute | src/nthlayer_workers/learn/_yaml.py:130-142 | Writes at paths apart commute, and one is possible before the other iff it is after |
| Manifest.SelfEqualIffNaNFree | src/nthlayer_workers/learn/_yaml.py:145-196 | A value equals itself iff there is no NaN anywhere in it |
| Manifest.SameSelfIff | src/nthlayer_workers/learn/_yaml.py:169-196 | After normalisation a value equals itself iff it holds no NaN and does not read as one |
| Manifest.SameMeans | src/nthlayer_workers/learn/_yaml.py:160-196 | Two values count as the same iff they are one boolean, or read as one number that is not NaN, or are neither and Python finds them equal |
| Manifest.PyEqMeans | src/nthlayer_workers/learn/_yaml.py:249-286 | Python equality holds iff the values are written alike once booleans are numbers and hold no NaN, so it is an equivalence on values without NaN |
| Manifest.MatchesMean | src/nthlayer_workers/learn/_yaml.py:268-286 | A mapping with a name stands for every mapping of that name; anything else only for what equals it |
| Manifest.JoinSplit | src/nthlayer_workers/learn/_yaml.py:55-62 | Splitting a dotted field loses nothing, so distinct fields have distinct paths |
| Manifest.SplitJoin | src/nthlayer_workers/learn/_yaml.py:130 | and joining then splitting keys without dots gives the keys back |
| Manifest.FieldMeans | src/nthlayer_workers/learn/_apply.py:180-183 | A field names its dotted keys, none for an empty one; the sigil at its end asks for an append and is no part of the path |
| PlanApply.ApplyRecommendations | src/nthlayer_workers/learn/_apply.py:133-234 | Classify-and-write in memory through the document cache, then writing the modified files, gives the files, the applied and skipped lists and the modified set of the recommendation-by-recommendation definition; an error of any write leaves everything unwritten |
| PlanApply.ApplyOne | src/nthlayer_workers/learn/_apply.py:180-225 | One recommendation on its document: look up, classify, write or skip |
| PlanApply.WriteAll | src/nthlayer_workers/learn/_apply.py:227-232 | Writing the modified files, in any order, leaves the cached documents on disk and every other file as it was |
| PlanApply.ExitCodeMeans | src/nthlayer_workers/learn/_apply.py:89-130 | The exit code is 0 iff every recommendation is in place, 2 iff the plan is not empty and none is, 1 otherwise |
| PlanApply.SelectSharesOut | src/nthlayer_workers/learn/_apply.py:156-225 | The applied and the skipped list share out the entries |
| PlanLaws.ApplyingTwiceIsApplyingOnce | src/nthlayer_workers/learn/_apply.py:133-234 | If no set-path is a prefix of another path in its manifest and the proposed values are recognised, a second application changes no document: what was applied is already applied, every skip keeps its reason, the exit code is the same. Several appends to one list are allowed |
| PlanLaws.AppliedOnceIff | src/nthlayer_workers/learn/_yaml.py:199-260 | An applied recommendation is found already applied the next time iff its proposed value is recognised, that is |
| PlanLaws.RecognisedIff | src/nthlayer_workers/learn/_yaml.py:263-286 | iff it is not NaN, does not read as NaN and holds none - or, for an append of a named mapping, its name does not |
| PlanLaws.StepKeepsAgain | src/nthlayer_workers/learn/_apply.py:156-225 | Applying an independent recommendation never disturbs one that is settled |
| PlanLaws.NoSilentOverwrite | src/nthlayer_workers/learn/_yaml.py:199-260 | Without --force a write goes to an absent path, over a value that is what the recommendation says is there, or to the end of a list without the item |
| PlanLaws.ReportedAs | src/nthlayer_workers/learn/_yaml.py:199-260 | What a recommendation is reported as, from what its path holds: each outcome iff its condition, with and without --force |
| PlanLaws.AppliedIsWritten | src/nthlayer_workers/learn/_apply.py:200-218 | What is applied reads back: the proposed value at its path, or the list there with the item at its end; no other file changes |
| PlanLaws.ChangedValueDrifts | src/nthlayer_workers/learn/_apply.py:209-225 | A value that is neither the current nor the proposed one is skipped as drift, and with --force overwritten and reported clean |
| PlanLaws.MissingIsSkipped | src/nthlayer_workers/learn/_yaml.py:245-248 | A value to change that is not there is skipped as missing, with --force or without |
| PlanLaws.OnlyModifiedChange | src/nthlayer_workers/learn/_apply.py:227-234 | A file is listed as modified iff a recommendation was applied to it, and every other file is as before |
| PlanLaws.ForceAppliesIff | src/nthlayer_workers/learn/_apply.py:209-218 | Under --force a drifted recommendation is applied iff it sets a path below the root; it is then reported clean, reads back, and no other file nor any path apart from it changes. An append to something not a list, or a recommendation without a field, aborts the plan |
| PlanLaws.StepAbortsIff | src/nthlayer_workers/learn/_apply.py:200-218 | A recommendation aborts the plan iff it is clean and for the root or below a value that is no mapping, or drifted, forced and for the root or an append |
| PlanLaws.PlanAbortsIff | src/nthlayer_workers/learn/_apply.py:156-234 | A plan aborts iff one of its recommendations does on the documents the ones before it leave |
| PlanOrder.OrderDoesNotMatter | src/nthlayer_workers/learn/_apply.py:156-225 | A plan of set-paths apart from each other aborts in every order or in none; otherwise every order gives the same documents and the same entries |
| PlanOrder.AlikeExit | src/nthlayer_workers/learn/_apply.py:89-130 | and the same exit code |
| PlanOrder.SwapSteps | src/nthlayer_workers/learn/_apply.py:156-225 | Two set-recommendations at paths apart commute, outcomes included |
| PlanOrder.ChainedChangeDrifts | src/nthlayer_workers/learn/_yaml.py:249-260 | Two changes of one value in a row both apply cleanly, and the next run reports drift for the first |
| Quantile.Quantile | src/nthlayer_workers/measure/thresholds/sampler.py:82-118 | The loops compute an answer for the merged buckets, sorted, with the running maximum and the first bucket that reaches the rank |
| Quantile.Merge | src/nthlayer_workers/measure/thresholds/sampler.py:91-93 | Each boundary gets the sum of its counts |
| Quantile.Cumulate | src/nthlayer_workers/measure/thresholds/sampler.py:97-101 | The running maximum of the merged counts |
| Quantile.OneAnswer | src/nthlayer_workers/measure/thresholds/sampler.py:82-118 | The merged buckets determine that answer |
| Quantile.AnswerIsOrderStatistic | src/nthlayer_workers/measure/thresholds/sampler.py:82-118 | For any observations that could have filled the buckets and q > 0, no boundary separates the ceil(q n)-th smallest observation from a value answer, and it lies strictly above a lower-bound answer |
| Quantile.MonotoneInQ | src/nthlayer_workers/measure/thresholds/sampler.py:105-118 | A higher quantile is never reported lower, bounds included |
| Quantile.ReorderingIsInvisible | src/nthlayer_workers/measure/thresholds/sampler.py:91-94 | The order of the buckets does not matter |
| Quantile.SplittingIsInvisible | src/nthlayer_workers/measure/thresholds/sampler.py:92-93 | Splitting the count of a boundary over two entries changes nothing |
| Quantile.ValueInBucket | src/nthlayer_workers/measure/thresholds/sampler.py:111-118 | For q > 0 the divisor of the interpolation is positive and the value lies inside its bucket |
| Quantile.DividesBucket | src/nthlayer_workers/measure/thresholds/sampler.py:114-118 | The value divides its bucket as the rank divides the bucket's count |
| Quantile.DividesFirstBucket | src/nthlayer_workers/measure/thresholds/sampler.py:106-118 | The first bucket is divided from zero, and is its boundary if that is not positive |
| Quantile.NothingIff | src/nthlayer_workers/measure/thresholds/sampler.py:85-110 | For q other than 0 and without a -Inf boundary there is no answer iff q is outside 0 to 1, there is no +Inf bucket, no other bucket, or no positive count |
| Quantile.SortedKeys | src/nthlayer_workers/measure/thresholds/sampler.py:94 | The boundaries come in strictly ascending order, each once |
| BreachHistory.EvaluateSlos | src/nthlayer_workers/measure/adapters/prometheus.py:345-475 | The loop evaluates each SLO that can be, against the newest records of the log only |
| BreachHistory.ResultsMean | src/nthlayer_workers/measure/adapters/prometheus.py:380-475 | Every result is that of an SLO that can be evaluated and has data; its raw flag holds iff a judgment rate exceeds the failures the target allows, an error budget is overspent, or another ratio is below the target; it breaches iff its window does, or for a judgment SLO iff that and the threshold - 1 windows before it do |
| BreachHistory.EachHasResult | src/nthlayer_workers/measure/adapters/prometheus.py:380-475 | and every such SLO has its result |
| BreachHistory.ResultsAreCounted | src/nthlayer_workers/measure/adapters/prometheus.py:380-475 | one each |
| BreachHistory.ReadsEnough | src/nthlayer_workers/measure/adapters/prometheus.py:359-366 | The newest 2 (threshold + 1) records for each SLO are read, or all if there are fewer |
| BreachHistory.CountConsecutiveBreaches | src/nthlayer_workers/measure/adapters/prometheus.py:310-342 | The counting loop, skipping other records and stopping at the first window that is not a raw breach |
| BreachHistory.CountMeans | src/nthlayer_workers/measure/adapters/prometheus.py:310-342 | The count reaches k iff the SLO's newest k windows all breached raw |
| BreachHistory.TruncatedHistoryDecides | src/nthlayer_workers/measure/adapters/prometheus.py:359-378 | When each cycle writes one window of the SLO among at most 2N records, the truncated history gives the same judgment as the whole log: the current window and the threshold - 1 before it all breached |
| BreachHistory.TruncationHarmlessIff | src/nthlayer_workers/measure/adapters/prometheus.py:442-459 | For any log, reading only its newest records changes the judgment iff the window breaches, the threshold - 1 windows before it did too, and the records read hold fewer windows of the SLO than that |
| BreachHistory.WrittenIsRegular | src/nthlayer_workers/measure/adapters/prometheus.py:237-253 | What a cycle writes for distinct SLOs is such a block for each SLO it evaluated |
| BreachHistory.StarvedHistoryNeverBreaches | src/nthlayer_workers/measure/adapters/prometheus.py:359-366 | If other writers fill the records read, a judgment SLO with a threshold above 1 cannot breach |
| Dedup.Deduplicate | src/nthlayer_workers/correlate/correlation/dedup.py:19-62 | One signal per distinct key, in order of first occurrence |
| Dedup.SameKeyIff | src/nthlayer_workers/correlate/correlation/dedup.py:9-17 | Events share a key iff source, service, type, environment and alert agree, as long as the first four hold no separator |
| Dedup.KeysInOrder | src/nthlayer_workers/correlate/correlation/dedup.py:27-46 | The keys come in the order in which they are first seen |
| Dedup.SignalSummarises | src/nthlayer_workers/correlate/correlation/dedup.py:30-62 | A signal holds the first event of its key, counts every event of the key and spans exactly their times |
| Dedup.CountsSumToInput | src/nthlayer_workers/correlate/correlation/dedup.py:30-46 | The dedup counts sum to the length of the input |
| Dedup.OneSignalPerKey | src/nthlayer_workers/correlate/correlation/dedup.py:44-62 | Every key that occurs has exactly one signal |
| Temporal.GroupTemporal | src/nthlayer_workers/correlate/correlation/temporal.py:17-58 | Sorting, partitioning by service and greedy cutting give the specified groups |
| Temporal.PartitionByService | src/nthlayer_workers/correlate/correlation/temporal.py:31-34 | Services in order of first event, each with its events in order |
| Temporal.ServicesInOrder | src/nthlayer_workers/correlate/correlation/temporal.py:31-34 | The services come in the order of their first events |
| Temporal.SplitWindows | src/nthlayer_workers/correlate/correlation/temporal.py:39-56 | The cutting loop gives the greedy windows |
| Temporal.WindowsPartition | src/nthlayer_workers/correlate/correlation/temporal.py:39-56 | A service's windows are its events in time order, cut and nothing else, each spanning at most the width |
| Temporal.FewestWindows | src/nthlayer_workers/correlate/correlation/temporal.py:39-56 | No split of the events into sets of span at most the width has fewer parts than the greedy windows |
| Temporal.GroupingConserves | src/nthlayer_workers/correlate/correlation/temporal.py:28-58 | Grouping neither loses, duplicates nor invents an event, and every group is one service's window |
| Correlation.AssembleGroups | src/nthlayer_workers/correlate/correlation/engine.py:76-183 | The two passes over the shared set of taken groups give each topology correlation the groups it is the first to involve, and every other group its own, then sort |
| Correlation.TakeSignals | src/nthlayer_workers/correlate/correlation/engine.py:97-101 | The inner loop gives a correlation exactly the groups it is the first to involve |
| Correlation.OwnerIsFirst | src/nthlayer_workers/correlate/correlation/engine.py:92-104 | A service belongs to the first correlation involving it, or to none if none does |
| Correlation.LouderIsNotLater | src/nthlayer_workers/correlate/correlation/engine.py:185-230 | A higher peak never lowers the priority, and only a group with a critical service gets the first one |
| Correlation.PriorityMeans | src/nthlayer_workers/correlate/correlation/engine.py:185-230 | Each tier iff its condition on the peak, the services and the topology |
| Correlation.GroupsMean | src/nthlayer_workers/correlate/correlation/engine.py:107-178 | Every correlated group is in the tier its peak and services put it in, with the services of its correlation or its own, its peak and its number of events |
| Correlation.PeakOverIsLargest | src/nthlayer_workers/correlate/correlation/engine.py:107-178 | The peak over several temporal groups is the severity of one of their events and no event exceeds it |
| Correlation.EnrichedMeans | src/nthlayer_workers/correlate/correlation/engine.py:36-60 | What is grouped is the first event of each key with the severity it scores |
| Correlation.PeakIsLargest | src/nthlayer_workers/correlate/correlation/temporal.py:61-79 | The peak of a group is the severity of one of its events and no event exceeds it |
| Correlation.AssemblyConserves | src/nthlayer_workers/correlate/correlation/engine.py:88-178 | For any topology correlations every temporal group is in exactly one correlated group, none is empty, and each count is the number of its events |
| Correlation.SumsIgnoreOrder | src/nthlayer_workers/correlate/correlation/engine.py:180-183 | The final sort changes neither members nor counts |
| Correlation.Correlate | src/nthlayer_workers/correlate/correlation/engine.py:20-74 | The composed pipeline |
| Correlation.CorrelationConserves | src/nthlayer_workers/correlate/correlation/engine.py:20-74 | The event counts of a correlation sum to the number of distinct dedup keys, every temporal group is in exactly one non-empty group, and the groups come in priority order |
| Session.SessionWindowManager.Ingest | src/nthlayer_workers/correlate/session.py:113-139 | An event goes to its domain's window, opened no later than now if new |
| Session.SessionWindowManager.CloseReady | src/nthlayer_workers/correlate/session.py:141-153 | Exactly the windows due are removed and returned |
| Session.IngestMeans | src/nthlayer_workers/correlate/session.py:113-139 | What an event does to its window and to no other: opened at the event or now, whichever is earlier; the last time is the latest seen, a trigger stays |
| Session.CloseMeans | src/nthlayer_workers/correlate/session.py:46-71 | A window closes iff it is triggered, quiet for the gap or open for the maximum duration; the others stay as they are |
| Session.EveryEventInOneWindow | src/nthlayer_workers/correlate/session.py:113-153 | Over any run the closed windows of a domain in closing order, followed by its open one, hold exactly the events ingested for it, in order, each once |
| Session.WindowsAreSane | src/nthlayer_workers/correlate/session.py:46-94 | In every window of a run the opening is not after the last event, all events are of its domain, and it is triggered iff one of them is |
| Session.Restore | src/nthlayer_workers/correlate/worker.py:57-68 | The restore loop gives exactly the domains the keys name, each with its saved metadata |
| Session.DomainRoundTripsIff | src/nthlayer_workers/correlate/session.py:32-33 | A domain survives its text iff its service has no colon |
| Session.ColonsCollide | src/nthlayer_workers/correlate/worker.py:63-66 | With a colon, another domain has the same text and is the one restored |
| Session.RestartIsInvisibleToClosing | src/nthlayer_workers/correlate/session.py:155-178 | For services without a colon, after a restart windows open and close exactly when they would have without it, whatever arrives later |
| BlastRadius.BlastRadiusServices | src/nthlayer_workers/correlate/prometheus.py:196-212 | For every finite graph, cycles and duplicate edges included, the walk ends and returns exactly what the trigger reaches along dependents, itself included, and its direct dependencies |
| BlastRadius.Walk | src/nthlayer_workers/correlate/prometheus.py:201-208 | The worklist visits exactly what the trigger reaches; unvisited names, then queue length, decrease |
| BlastRadius.AddReverseEdges | src/nthlayer_workers/correlate/prometheus.py:187-193 | A service is listed as a dependent as often as it names the other as a dependency |
| BlastRadius.DependentsAreReversed | src/nthlayer_workers/correlate/prometheus.py:187-193 | So the dependents of a service are exactly the known services that depend on it |

## Left out

- HTTP, SQLite, Prometheus and Tempo queries, command lines, Slack messages, notifications, dashboards and telemetry: transport.
- `nthlayer_common` is not part of this model: threshold parsing, evaluation and manifest loading give arbitrary results.
- Agents, prompts and reasoning texts: an agent step is an arbitrary outcome.
- Payloads of assessments and verdicts, log memory, and the severity label and budget-consumption arithmetic: the severity of an SLO breach is an input.
- ThresholdPhase.Thresholds.RunTasks: the semaphore and the rotation of the starting entry are not modelled; every interleaving is allowed.
- Hash functions: keys are the hashed content itself; a digest is a plain string that may collide.
- Governance keys: an SLO key and a threshold key with the same text are kept apart in the model, while in the dictionaries of the source they would share an entry.
- Restored threshold records without a service, or with a damaged service, base, digest or emission record: `PersistedState` covers the key state itself, and runs restore undamaged states.
- Exceptions raised by keying or migration itself: the source then skips the run.
- Floats are reals; overflow of very large integers and infinities other than bucket boundaries and manifest numbers are not modelled.
- Timestamps are numbers ordered as their ISO strings.
- Manifest.ApplyAtPath: documents are values rebuilt on the way back up, so update in place, nodes shared through YAML anchors and the half-made intermediate mappings of a failed write (discarded with the document) are not captured.
- PlanApply.ApplyRecommendations: YAML parsing and printing are taken to round-trip, the file that serves a service is fixed over a run, and the alphabetical order of the writes is not modelled.
- Manifest.SelfEqualIffNaNFree: Python compares list items by identity first, so the very same NaN object inside a list is equal to itself; the model goes by value.
- ApprovalServer.ApprovalServer.HandleReject: the reply's HTTP body and the cancellation of a handler by a client that disconnects are not modelled.
- The coordinator's crash and resume with a per-step store, and `run` called directly on an escalated context: worker mode persists at cycle boundaries.
- IngestionLaws.FallbackOpensOnlyOrphans: says nothing of snapshots beyond the first page or of a poll that failed, for which the source opens the fallback incident.
- Ingestion.RespondModule.ProcessCycle: tiers, cases and notifications of an opened incident are left out; whether building the incident succeeds is an input.
- Incident ids are fresh numbers instead of random strings.
- Quantile.Quantile: a NaN rank is not modelled; the source answers it with nothing.
- BreachHistory.TruncatedHistoryDecides: needs the SLO to be evaluated every cycle; a cycle without data for it leaves no window and can push older ones out (`TruncationHarmlessIff` says exactly when that matters).
- Correlation.Correlate: change candidates, summaries and the dominant event type are left out.
- Session.Restore: events across a restart are re-fetched elsewhere; a restored window starts empty.
- Tiering and promotion, cost tables, trends, verdict-chain representation, prompt caches: easy or not part of the core.
