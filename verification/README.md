# TcpRecon lifecycle engine: a verified model

TcpRecon scans a set of targets and keeps, per scope (targets and port lists), a committed baseline of the services
it has seen. A scan records what it observes; if and only if the scan was complete, the observations are compared with
the baseline, the differences are reported as changes (`opened`, `changed`, `closed`, `reopened`), and the baseline is
replaced. This project models that engine in Dafny and proves what it promises, from the bytes of an address block
up to the theorem that a service is reported closed only after the network was really asked about it.

`dafny verify dfyconfig.toml` checks everything.

## The parts

| file | models |
|---|---|
| `Wrappers.dfy`, `Ordering.dfy` | options, results, error lists; strict orders, the ascending list of a set, sorting |
| `ServiceIdentity.dfy`, `Records.dfy` | service keys, stored records, the strict loader |
| `Reconcile.dfy` | the diff between baseline and scan, the next baseline, patch and unpatch |
| `Completion.dfy` | scan completions and their precedence |
| `Store.dfy` | the database class: one method per transaction, each proved against a function on the whole store |
| `History.dfy` | any sequence of transactions, refused commits and crashes |
| `Targets.dfy`, `Cidr.dfy`, `Scope.dfy`, `JobPlan.dfy` | target lines and the spool, address blocks, scope identity, the jobs of a scan |
| `Reservation.dfy` | reserving a fresh scan ID, and the handoff of the prepared targets |
| `Pipeline.dfy`, `PipelineSafety.dfy`, `PipelineMeaning.dfy`, `PipelineOrder.dfy` | the concurrent scanner as a transition system; channel safety, progress; what its verdict means; in which orders results can arrive |
| `RateZero.dfy` | a run at rate 0 that completes without probing its job |
| `Coordinator.dfy` | the select loop that persists results and finalizes once; the whole runtime |
| `EndToEnd.dfy` | whole sessions over one database: no false closure, an exact report, success is possible |
| `Determinism.dfy` | exactly when the outcome of a scan depends on its schedule |
| `Witness.dfy` | a library and an environment that meet every assumed law, and a history in which a service closes |
| `Enrichment.dfy`, `Emitter.dfy` | longest-prefix match; changes to events |
| `Batching.dfy` | the micro-batched delta store |

## How to read the model

- A Go `error` is the list of its causes: nil is the empty list, `errors.Join` is concatenation, and `errors.Is` is
  membership.
- Library calls are function-valued fields: address parsing and printing, SHA-256 of canonical JSON, name resolution,
  the 64-bit hash, the outcome of probing a job. A theorem that needs a law of them says so in a `requires`.
  `Lawful`: a printed address parses back to itself, a key is 64 hex digits, and within one scope different canonical
  endpoints have different keys. `CollisionFree`: the scope
  digest is injective. `RespectsNormalization`: targets with one normal form resolve to the same addresses, and only
  targets with a normal form resolve. `PrintsCanonically`: what the address library prints for a trimmed text parses
  to what prints the same. `Witness.LawfulEnvExists` meets all of them at once. Name resolution is fixed within a
  theorem.
- One `db.Update` is one function on the store with a `disk` flag: an error in its body or a refused commit leaves the
  store as it was. A crash restarts from the committed store.
- `Cell.Malformed` stands for every stored value the strict decoder turns down. An absent nested bucket reads like an
  empty one, as it does for every reader in the source; only the baseline's own presence is kept.
- The pipeline is a state and a set of actions, one per statement that synchronises, of producer, router, workers,
  monitor, completion goroutine and coordinator, plus `Cancel`. A send on or a close of a closed channel sets
  `panicked`. After cancellation each `select` may still take any ready branch.
- Theorems about the pipeline quantify over every sequence of possible actions, so over every schedule and every
  moment of cancellation.

## Where the code differs from what one might expect

- The hash behind `service.changed` leaves out the OS hint, which reconciliation compares: such changes are reported
  and silent in the event stream (`Emitter.OSHintChangesAreSilent`).
- The coordinator counts results in state `"OPEN"`, workers send `"open"`: the count is always zero
  (`Coordinator.OpenPortsStayZero`).
- An emission error is overwritten before the runtime returns; its outcome carries the execution's and the database's
  errors alone (`Coordinator.RunLifecycleRuntime`).
- A scan ID is exclusive among live scans only (`Reservation.PromotedIDCanBeReservedAgain`).
- Target normalization is not idempotent: on prefixes and addresses it is, and on a host name exactly when its final
  dot hides no other dot, no white space, and no prefix or address in other than its printed form
  (`Scope.NormalizationIsIdempotentWhenSettled`; `DottedNameNormalizesTwice` and `DottedPrefixNormalizesTwice` are
  concrete inputs).
- The block expansion loop ends exactly when the prefix length is at least one (`Cidr.LoopEndsUnlessPrefixIsZero`);
  prefix lengths are those of section 3.1 of RFC 4632.
- The order of asset rules, which an unstable sort may change, is irrelevant for an address exactly when its most
  specific rules agree on the context (`Enrichment.OrderIsIrrelevantIff`).
- The outcome of a successful scan can depend on its schedule: two names of one address may be answered differently, and
  the result received last is kept. It is independent exactly when answers for one key make one record, or
  the queue of their protocol has a single worker (`Determinism.ScheduleIndependentIff`).
- At rate 0 a job would be lost without a trace (`RateZero.ZeroRateLosesJobs`); the command line rules it out.

## Model

| member | source | states |
|---|---|---|
| `ServiceIdentity.KeyIdentifiesEndpoint` | internal/scanner/service_identity.go:59-92 | within a scope, two identities share a key if and only if they name the same canonical address, port and protocol |
| `ServiceIdentity.KeyExistsIff` | internal/scanner/service_identity.go:28-92 | a key exists exactly for a parsable address, TCP or UDP, a port from 1 to 65535 and a scope; anything else is told the first thing wrong with it |
| `ServiceIdentity.KeyFormat` | internal/scanner/state_records.go:135-141 | a service key is 64 lower-case hex digits |
| `Records.CanonicalObservationStrings` | internal/scanner/state_records.go:51-63 | the SAN list becomes the one strictly ascending list of its set of values |
| `Records.CanonicalFixpoint` | internal/scanner/state_records.go:183-185 | a list is its own canonical form exactly when it is strictly ascending; canonicalization is idempotent |
| `Records.ValidatePersistentServiceRecord` | internal/scanner/state_records.go:159-188 | accepts exactly the valid records: current ones open, canonical address, key matching the identity, canonical SANs |
| `Records.LoadServiceRecords` | internal/scanner/state_records.go:190-210 | loads a bucket whole, in any walking order, if every value is acceptable, and fails otherwise |
| `Records.ServiceRecordFromObservation` | internal/scanner/state_records.go:65-85 | builds the open record of an observation under its key, or answers the key's error |
| `Records.BuiltRecordIsValid` | internal/scanner/state_records.go:65-85 | every record built from an observation passes the strict loader under its own key |
| `Records.RecordTellsObservation` | internal/scanner/state_records.go:65-85 | exactly one record has the observation's own banner, hint, subject and issuer, the identity's endpoint in canonical form, an open status and the ascending list of the SANs: the one that is built |
| `Records.AcceptedIffStored` | internal/scanner/state_records.go:159-209 | the strict loader accepts a record under a key if and only if some save stores it there, its status aside, and demands an open status of current records |
| `Reconcile.ReconcileServiceRecords` | internal/scanner/state_reconcile.go:116-157 | for every iteration order of the two maps: strictly ascending by key, and exactly the changes of the two maps |
| `Reconcile.ChangeListIsUnique` | internal/scanner/state_reconcile.go:153-156 | two maps have one change list only, so neither map order nor an unstable sort can be seen |
| `Reconcile.ChangedIffDifferent` | internal/scanner/state_reconcile.go:32-46 | among valid records, a key open on both sides is reported changed if and only if its two records differ |
| `Reconcile.BuildNextBaseline` | internal/scanner/state_promotion.go:41-51 | the committed baseline: everything seen, and closed tombstones of everything else |
| `Reconcile.PatchAndUnpatch` | internal/scanner/state_promotion.go:39-51 | the changes patch the old baseline into the new one, and their previous records undo it, if and only if unreported keys agree on their whole record |
| `Reconcile.ValidRecordsAgree` | internal/scanner/state_reconcile.go:116-151 | that condition holds for all records the loader accepts, because a key determines address, port and protocol |
| `Reconcile.NextBaselineIsValid` | internal/scanner/state_promotion.go:41-51 | the baseline a promotion writes is one the strict loader accepts |
| `Completion.SuccessNeedsEveryPart` | cmd/tcprecon/main.go:169-191 | success survives exactly when persistence succeeded too, and otherwise becomes `state_failed`; any other status stays; no cause of failure is lost |
| `Completion.ProducerErrorStatus` | internal/scanner/scan_completion.go:30-58 | cancellation before parse failure before failed resolution; anything else has no status; only nil is a success; no cause is lost |
| `Store.Database.InitializeStateSchema` | internal/scanner/state_schema.go:24-49 | the whole new store and answer; an unversioned non-empty store is refused |
| `Store.Database.EnsureCurrentScan` | internal/scanner/state_scan.go:19-47 | the whole new store and answer; an existing scan is kept as it is |
| `Store.Database.CreateCurrentScanExclusive` | internal/scanner/state_scan.go:52-84 | the whole new store and answer; a live scan is a collision and changes nothing |
| `Store.Database.SaveCurrentService` | internal/scanner/state_records.go:87-133 | the whole new store and answer, with the source's order of checks |
| `Store.Database.LoadReconciliationState` | internal/scanner/state_reconcile.go:48-83 | both maps, or the first error, in the source's order of checks |
| `Store.Database.ReconcileScope` | internal/scanner/state_reconcile.go:87-114 | the unique change list of the two loaded maps, leaving the store alone |
| `Store.Database.PromoteCurrentScan` | internal/scanner/state_promotion.go:17-91 | all or nothing: the changes, the replaced baseline and the consumed scan, or an error and the old store |
| `Store.Database.DiscardCurrentScan` | internal/scanner/state_finalize.go:30-49 | removes one scan or nothing |
| `Store.Database.FinalizeCurrentScan` | internal/scanner/state_finalize.go:14-28 | promotes a successful scan, discards any other, keeping every cause of failure |
| `Store.SaveIsExact` | internal/scanner/state_records.go:87-133 | a save leaves under the key a record that tells the observation, and every other observation, scan, baseline and scope alone; a failed one changes nothing |
| `Store.EnsureKeepsObservations` | internal/scanner/state_scan.go:19-47 | an existing scan keeps its observations, a missing one is added empty, everything else stays; and exactly when it succeeds |
| `Store.InitIsExact` | internal/scanner/state_schema.go:24-49 | exactly when a store can be initialized, and that nothing but its schema changes |
| `Store.ReconcileForecastsPromotion` | internal/scanner/state_reconcile.go:87-114 | refused in the order scope, scan, completion; otherwise the answer a promotion with an accepted commit would give |
| `Store.DiscardFailureIsTold` | internal/scanner/state_finalize.go:14-49 | a discard that fails is reported beside every cause of the incomplete scan |
| `History.ReachableStoreIsWellFormed` | internal/scanner/state_records.go:159-209 | every store reachable by any history holds only records the strict loader accepts |
| `History.PromotionNeverFailsValidation` | internal/scanner/state_promotion.go:24-36 | after any history, a successful scan is promoted if and only if it exists and the commit is accepted |
| `History.ForeignStoreIsUntouched` | internal/scanner/state_schema.go:51-75 | a store of another version, with broken metadata or with data but no metadata survives every history unchanged, and nothing succeeds on it |
| `History.BaselineAuthority` | internal/scanner/state_promotion.go:17-91 | a step changes a baseline only as a committed promotion by a successful scan, into the next baseline of the loaded maps, consuming that scan alone |
| `History.IncompleteFinalizationDiscards` | internal/scanner/state_finalize.go:14-49 | no changes, all causes kept, no baseline touched, at most that one scan's bucket deleted |
| `History.OrphansAreInert` | internal/scanner/state_promotion.go:39-83 | other scans of the scope neither influence a promotion nor are altered by it |
| `History.ReplayRebuildsBaseline` | internal/scanner/state_promotion.go:39-78 | over any history, replaying all reported changes rebuilds the baseline, and undoing them all gives the first one back |
| `History.HistoryIsAccepted` | internal/scanner/state_reconcile.go:118-151 | over any history, the changes of each key are a run of the life-cycle automaton that ends in the committed status |
| `History.AcceptedLanguage` | internal/scanner/state_reconcile.go:118-151 | the automaton accepts exactly the prefixes of `opened changed* (closed reopened changed*)*` |
| `History.LifecycleLaw` | internal/scanner/state_reconcile.go:116-151 | from an empty database: at most one `opened`, and openings minus closings is 1 exactly while the record is open |
| `History.KeysNeverLeave` | internal/scanner/state_promotion.go:45-51 | a key once in a baseline stays there through any history |
| `History.ScopesDoNotInterfere` | internal/scanner/state_records.go:87-132 | after any interleaved history, a scope's state and reports are those of its own transactions alone |
| `History.DifferentScopesCommute` | internal/scanner/state_records.go:87-132 | transactions on different scopes commute: same store, same answers |
| `Reservation.ReserveRuntimeScan` | cmd/tcprecon/runtime_reservation.go:74-103 | adds exactly one fresh empty scan or changes nothing; succeeds exactly when within four attempts only collisions precede a success |
| `Reservation.IDFormat` | cmd/tcprecon/runtime_reservation.go:57-63 | a scan ID is 32 lower-case hex digits |
| `Reservation.ReservePreparedRuntimeScan` | cmd/tcprecon/runtime_reservation.go:105-128 | a failed reservation releases the prepared targets once and leaves the store; a successful one passes them on open |
| `Reservation.PromotedIDCanBeReservedAgain` | internal/scanner/state_promotion.go:80-83 | the ID of a promoted scan is free again, though it collided while the scan was live |
| `Targets.TrimSpaceIsTight` | internal/utils/target_line.go:8-14 | a kept target has no outer white space, consists of characters of the line, and parses to itself |
| `Targets.ASCIISpace` | internal/utils/target_line.go:8-14 | among ASCII characters exactly space, tab, newline, carriage return, vertical tab and form feed are white space |
| `Targets.TrimmedEndsAreSpace` | internal/utils/target_line.go:8-14 | what is trimmed off is white space only |
| `Targets.ParsedTarget` | internal/utils/target_line.go:8-14 | a line holds what stands between its outer white space, unless that is nothing or begins with a number sign |
| `Targets.LinesAreThePieces` | cmd/tcprecon/target_preparation.go:90-98 | the scanned lines are the pieces of the text between newlines, up to one carriage return each, and a last piece without a newline counts |
| `Targets.SpoolReplaysTargets` | cmd/tcprecon/target_preparation.go:90-108 | for every input text, splitting the spool into lines and applying the line rule again yields exactly the target list of the scope ID |
| `Targets.PrepareTargetSource` | cmd/tcprecon/target_preparation.go:66-123 | succeeds exactly when nothing goes wrong, with all kept targets in the spool; otherwise there is no source, and a spool that was created has been released |
| `Targets.PreparedTargetSource.Close` | cmd/tcprecon/target_preparation.go:48-56 | releases the spool once; later calls repeat the first answer |
| `Cidr.IncIP` | internal/utils/parser.go:145-152 | the in-place carry loop computes the increment of the whole byte string |
| `Cidr.IncrementAddsOne` | internal/utils/parser.go:145-152 | that increment adds one modulo the width, all-ones wrapping to zero |
| `Cidr.MaskValue` | internal/utils/parser.go:133-134 | masking the bytes clears the host bits of the number |
| `Cidr.ContainsIsBlock` | internal/utils/parser.go:134 | the loop guard holds exactly for the addresses of the block |
| `Cidr.ContainsIsRange` | internal/utils/parser.go:134 | a block is the range of addresses from the masked address on, as long as its size |
| `Cidr.LeavesBlock` | internal/utils/parser.go:134-136 | from the network address the guard holds for exactly the size of the block, wrap-around included |
| `Cidr.LoopEndsUnlessPrefixIsZero` | internal/utils/parser.go:134-136 | the guard, evaluated on the bytes after each increment, ever becomes false if and only if the prefix length is at least one |
| `Cidr.ExpandCIDR` | internal/utils/parser.go:127-142 | the consecutive addresses of the block in order, without the two ends when there are more than two |
| `Scope.BuildCanonicalTargets` | internal/scanner/scope.go:40-55 | the strictly ascending list of the normalized non-empty targets |
| `Scope.BuildCanonicalPorts` | internal/scanner/scope.go:57-71 | the strictly ascending list of the ports |
| `Scope.CanonicalListsAreSets` | internal/scanner/scope.go:40-71 | canonical lists are equal if and only if the underlying sets are |
| `Scope.ScopeIDIdentifiesScope` | internal/scanner/scope.go:73-86 | scope IDs are equal if and only if normalized targets and both port sets are |
| `Scope.NamesIgnoreCase` | internal/scanner/scope.go:28-38 | two plain host names are one target if and only if they differ in the case of letters from A to Z only |
| `Scope.NamesIgnoreFinalDot` | internal/scanner/scope.go:37 | one final dot of a host name changes nothing |
| `Scope.TargetsIgnorePadding` | internal/scanner/scope.go:29 | outer white space of a target changes nothing |
| `Scope.PrintedFormsDecide` | internal/scanner/scope.go:30-36 | two prefixes, or two addresses, are one target if and only if they are printed the same |
| `Scope.ScopesIgnoreCase` | internal/scanner/scope.go:73-86 | so scans of single host names share a scope ID if and only if the names differ in case only |
| `Scope.BuildScopeID` | internal/scanner/scope.go:73-86 | the ID of the canonical lists of targets and both kinds of ports |
| `Scope.NormalizationIsIdempotentWhenSettled` | internal/scanner/scope.go:28-38 | for every target, a second normalization changes nothing if and only if the target is a prefix, an address, or a host name whose final dot hides nothing |
| `Scope.DottedPrefixNormalizesTwice` | internal/scanner/scope.go:37 | the concrete target `10.0.0.5/24.`, which hides neither dot nor white space |
| `Scope.DottedNameNormalizesTwice` | internal/scanner/scope.go:37 | the concrete name `A..` |
| `JobPlan.DispatchJobs` | internal/utils/parser.go:96-124 | all jobs of an address in order, or a prefix of them and the context's error |
| `JobPlan.ResolveTarget` | internal/utils/parser.go:56-78 | expands a target with a slash, looks any other up, and classifies the failure |
| `JobPlan.StreamTargets` | internal/utils/parser.go:45-93 | exactly the planned jobs and the plan's first error, or under cancellation a prefix of them and the context's error |
| `JobPlan.PlanIsProduct` | internal/utils/parser.go:45-124 | a job is planned if and only if its target is listed and resolves to its address and its port is listed for its protocol |
| `JobPlan.PlanCounts` | internal/utils/parser.go:45-124 | and it is planned as often as its target is listed, times as often as that resolves to its address, times as often as its port is listed |
| `JobPlan.TargetAddresses` | internal/utils/parser.go:56-78 | a target with a slash stands for the printed addresses of its block but the two ends, and for nothing else; any other target for what it is looked up as |
| `JobPlan.BlockIsPlanned` | internal/utils/parser.go:45-142 | for a listed block a job is planned for every such address and every listed port, and for no other address |
| `JobPlan.AddressJobsInOrder` | internal/utils/parser.go:96-124 | the TCP ports of an address in the order listed, then its UDP ports |
| `JobPlan.PlanErrorIsFirst` | internal/utils/parser.go:56-81 | the error is that of the first target that does not resolve, a parse failure exactly if it has a slash |
| `JobPlan.ReadErrorIsLast` | internal/utils/parser.go:86-92 | a failed read counts when all targets resolved |
| `JobPlan.CleanPlanResolvesAll` | internal/utils/parser.go:56-93 | the plan has no error if and only if the stream was read and every target resolved |
| `PipelineSafety.ChannelsAreSafe` | internal/scanner/dispatcher.go:33-190 | in every interleaving each channel has one owner, is closed once and is never sent on after closing |
| `PipelineSafety.FinalStateClosesEverything` | internal/scanner/dispatcher.go:33-190 | when everything has returned, every channel was closed and the verdict received is the one decided |
| `PipelineSafety.BuffersAreBounded` | internal/scanner/dispatcher.go:33-36 | in no interleaving does a job buffer hold more than twice the TCP workers, or an error or verdict channel more than one value |
| `PipelineSafety.RunsAreBounded` | internal/scanner/dispatcher.go:33-190 | every step decreases a measure, so every run is finite, wherever cancellation strikes |
| `PipelineSafety.SomeActionIsPossible` | internal/scanner/dispatcher.go:33-190 | no deadlock: with validated flags every live state that is not final has a possible step |
| `PipelineSafety.MaximalRunsEnd` | internal/scanner/dispatcher.go:33-190 | a run that cannot go on has ended: all goroutines returned, results closed, verdict received |
| `PipelineMeaning.EffectKeepsJobs` | internal/scanner/worker.go:22-39 | a step of a worker loop neither loses nor repeats a job |
| `PipelineMeaning.EffectTellsErrors` | internal/scanner/udp_worker.go:14-63 | the first unsupported port sticks as a UDP worker's error while it drains its queue, and reaches the error channel on leaving |
| `PipelineMeaning.ResultTellsFinding` | internal/scanner/worker.go:52-108 | a job has a result if and only if its probe finds something and, for UDP, its port is supported; and the result tells exactly what was found, about that job's endpoint |
| `PipelineMeaning.SupportedPorts` | internal/scanner/payloads.go:9-21 | the UDP ports that can be probed are 53, 123 and 161 |
| `PipelineMeaning.UdpPoolSize` | internal/scanner/dispatcher.go:63-67 | a quarter of the TCP workers, rounded down, probe UDP, and at least one |
| `PipelineMeaning.EveryFindingIsDelivered` | internal/scanner/dispatcher.go:131-244 | whenever the verdict is `completed`, the results received tell every finding of the plan and nothing else |
| `PipelineMeaning.CompletedMeansEverythingWasProbed` | internal/scanner/dispatcher.go:131-244 | job conservation: whenever the verdict is `completed`, the probed jobs are, as a multiset, the planned ones, and the results received are theirs |
| `PipelineMeaning.DecideMeetsExpectation` | internal/scanner/dispatcher.go:192-244 | without cancellation the verdict is forced by the plan: its error, else an unsupported port, else success |
| `PipelineMeaning.DecisionFailsClosed` | internal/scanner/dispatcher.go:192-244 | success needs every outcome in, no cancellation and no error; a missing outcome or a failed router has no status |
| `PipelineMeaning.UncancelledVerdictIsExact` | internal/scanner/dispatcher.go:192-244 | an uncancelled run succeeds if and only if the plan had no error and no unsupported port; everything was probed either way |
| `PipelineMeaning.CancelledVerdict` | internal/scanner/dispatcher.go:212-219 | in every run in which cancellation strikes before the decision, the verdict is `cancelled`, and a run that ends has delivered it |
| `PipelineMeaning.CanFinish` | internal/scanner/dispatcher.go:33-190 | from every live state, cancelled or not, some schedule leads to the end without a further cancellation |
| `PipelineMeaning.SuccessIsPossible` | internal/scanner/dispatcher.go:192-244 | a plan without error and without unsupported ports has a schedule that ends in success |
| `PipelineMeaning.SchedulesDeliverTheSame` | internal/scanner/dispatcher.go:16-128 | two schedules that succeed probe the same jobs and deliver the same set of results |
| `PipelineOrder.OneWorkerKeepsOrder` | internal/scanner/dispatcher.go:44-62 | where one worker takes from a queue, every successful schedule finishes its jobs in the order of the plan |
| `PipelineOrder.CanBeLast` | internal/scanner/dispatcher.go:44-96 | where two workers do, any planned job that answers is the last to finish on some successful schedule |
| `RateZero.ZeroRateLosesJobs` | cmd/tcprecon/main.go:133-135 | at rate 0 a whole run from the start is declared completed without having probed its only job |
| `Coordinator.ExecuteOwnedRuntimeScan` | cmd/tcprecon/runtime_execution.go:27-87 | for every interleaving of the two channels: the outcome of persisting all results in order and then finalizing once |
| `Coordinator.FirstErrorIsSticky` | cmd/tcprecon/runtime_execution.go:51-53 | the retained error is nil if and only if every single save succeeded |
| `Coordinator.FirstErrorAlone` | cmd/tcprecon/runtime_execution.go:51-53 | the error kept is that of the first save that failed |
| `Coordinator.CountOpenCounts` | cmd/tcprecon/runtime_execution.go:48-50 | the count is the number of results in state `OPEN` |
| `Coordinator.ExecutionStatus` | cmd/tcprecon/main.go:169-191 | a completed scan whose save or promotion failed ends as `state_failed`, any other scan as it ended itself, a missing completion as a worker failure; and every cause is reported |
| `Coordinator.ExecutionSucceedsIff` | cmd/tcprecon/runtime_execution.go:67-86 | success if and only if the scanner completed, every save succeeded and the promotion committed; otherwise no change is reported |
| `Coordinator.OpenPortsStayZero` | cmd/tcprecon/runtime_execution.go:48-50 | no result a worker can send is counted as open |
| `Coordinator.RunLifecycleRuntime` | cmd/tcprecon/runtime_lifecycle.go:57-140 | the scan that runs has the scope ID of the prepared targets, reads exactly their spool and works in a bucket reserved for it; the outcome's error is the execution's and the database's, never the emitter's |
| `EndToEnd.ReplayedPlanIsTheScopes` | cmd/tcprecon/runtime_lifecycle.go:71-114 | the scanner, reading the spool, plans exactly the jobs of the targets the scope ID was computed from |
| `EndToEnd.RuntimeRunsSession` | cmd/tcprecon/runtime_lifecycle.go:57-140 | so one run of the command is one session: same reservation, same store, same execution |
| `EndToEnd.PlanTransfers` | internal/scanner/scope.go:73-86 | requests with one scope ID plan the same endpoints, as long as their targets resolve |
| `EndToEnd.CompletionIsEarned` | cmd/tcprecon/runtime_execution.go:40-86 | a session that completes was settled by its pipeline, lost no save and was promoted |
| `EndToEnd.CompletedSession` | internal/scanner/state_promotion.go:39-78 | its changes and its baseline are the diff and the merge of the old baseline with the last record received for each key, and nothing else |
| `EndToEnd.LastRecordIsLast` | internal/scanner/state_records.go:111-132 | that record is the one of the last result with the key |
| `EndToEnd.PersistedRecords` | internal/scanner/state_records.go:111-132 | persisting into a fresh scan without a failure leaves exactly those records |
| `EndToEnd.UnfinishedSession` | internal/scanner/state_finalize.go:14-49 | every other session, crashed or cancelled, leaves every baseline alone and reports nothing |
| `EndToEnd.FailedPlanIsNamed` | internal/scanner/dispatcher.go:221-224 | an uncancelled scan with a bad target ends as the first such target calls for: a parse failure if it has a slash, a failed resolution otherwise |
| `EndToEnd.BaselinesAreCovered` | internal/scanner/state_promotion.go:39-78 | over any history of sessions, every baseline endpoint of a scope is planned by every resolvable request with that scope ID |
| `EndToEnd.NoFalseClosure` | internal/scanner/state_reconcile.go:143-151 | after any history, a `closed` change means: this run succeeded, planned a job for exactly that endpoint, probed every such job with no finding, and received no result for it |
| `EndToEnd.ReportMatchesNetwork` | internal/scanner/state_reconcile.go:116-151 | a completed session reports a key opened, closed, reopened or changed if and only if its committed record and the record last seen call for it, commits the record seen, and saw one if and only if some planned job for the key was answered |
| `EndToEnd.SessionCanComplete` | cmd/tcprecon/runtime_execution.go:40-86 | failing closed is not failing always: a request that can be read, resolved and keyed, with supported ports, has a session that completes |
| `Determinism.SchedulesDoNotMatter` | cmd/tcprecon/runtime_execution.go:40-74 | where answers for one key agree or have a single worker, any two successful schedules report the same changes and commit the same baseline |
| `Determinism.SchedulesMatter` | internal/scanner/state_records.go:111-132 | everywhere else two successful schedules of the same scan commit different baselines |
| `Determinism.ScheduleIndependentIff` | cmd/tcprecon/runtime_execution.go:40-74 | so the outcome is independent of the schedule if and only if that condition holds, which can be checked on plan and probes |
| `Determinism.CommittedRecordTellsFinding` | internal/scanner/state_promotion.go:39-78 | the record committed for an answered key tells, field by field, the finding of the job for it that was finished last |
| `Witness.ClosureCanOccur` | internal/scanner/state_reconcile.go:143-151 | every planned TCP endpoint of a request that can complete is reported closed after some history, so the theorem about closures is not empty |
| `Witness.CompletableSessionExists` | cmd/tcprecon/runtime_execution.go:40-86 | there is an environment that meets every assumed law, and a request in it that can complete |
| `Enrichment.NewMatcher` | internal/enrichment/matcher.go:29-42 | a copy of the rules by descending prefix length, ties in any order |
| `Enrichment.Match` | internal/enrichment/matcher.go:44-58 | the context of the first rule that contains the address, or the default |
| `Enrichment.ContainsIsInterval` | internal/enrichment/matcher.go:48 | a rule contains the interval of addresses of its family that begins at its masked address and has as many members as the host bits number |
| `Enrichment.UnparsedIsUnassigned` | internal/enrichment/matcher.go:60-66 | what is not an address has the default context |
| `Enrichment.MatchIsLongestPrefix` | internal/enrichment/matcher.go:29-58 | for every tie-breaking, the context of a containing rule of maximal length, or the default when there is none |
| `Enrichment.OrderIsIrrelevantIff` | internal/enrichment/matcher.go:29-58 | for every list of rules and every address: all sorts answer alike if and only if the most specific containing rules agree on the context |
| `Enrichment.MatchIgnoresOrder` | internal/enrichment/matcher.go:29-58 | if rules of one network have one context, in particular with distinct networks, no permutation of the rules changes an answer |
| `Enrichment.TiesDependOnOrder` | internal/enrichment/matcher.go:37-40 | two most specific rules that disagree, in any list, are the answers of two sorts |
| `Emitter.EmitLifecycleChanges` | internal/scanner/lifecycle_emitter.go:36-62 | the events of the changes in order; an error exactly when a needed write fails, after the events of a prefix |
| `Emitter.ClassifiersAgree` | internal/scanner/lifecycle_emitter.go:78-256 | for every change of valid records: opened, reopened and closed give one event of that type, changed gives one exactly when the hashes differ |
| `Emitter.EventOfShape` | internal/scanner/lifecycle_emitter.go:130-254 | the event names the address, port and protocol of the change's own record, also for a closed service |
| `Emitter.EventTellsChange` | internal/scanner/lifecycle_emitter.go:130-254 | the event carries scan and scope, the asset context of its address, and the state and previous state of its kind |
| `Emitter.IncompleteScansCloseNothing` | internal/scanner/lifecycle_emitter.go:87-92 | without a successful scan there is no closure event |
| `Emitter.PayloadTellsFields` | internal/scanner/lifecycle_emitter.go:64-76 | payloads of separator-free fields are equal if and only if state, banner, subject, issuer and SANs are |
| `Emitter.ChangedIsEmittedIff` | internal/scanner/lifecycle_emitter.go:160-195 | with such fields and no hash collision, a change is emitted if and only if something reconciliation compares, other than the OS hint, differs |
| `Emitter.DecimalDenotes` | internal/scanner/lifecycle_emitter.go:135 | the port in an identifier is its decimal text |
| `Emitter.OSHintChangesAreSilent` | internal/scanner/lifecycle_emitter.go:64-76 | a change of the OS hint alone is reported by reconciliation and gives no event |
| `Emitter.EventIDIsInjective` | internal/scanner/lifecycle_emitter.go:135 | for scan IDs of one length the identifier determines scan, address, protocol and port |
| `Emitter.EventIDsAreDistinct` | internal/scanner/lifecycle_emitter.go:232 | the events of one promotion carry pairwise different identifiers |
| `Batching.PortStates.Flush` | internal/scanner/state.go:34-105 | one batch in one transaction: the hashes and emissions of one-at-a-time processing, or nothing |
| `Batching.LastResultWins` | internal/scanner/state.go:56-88 | every key ends with the hash of its last result, all other keys are untouched |
| `Batching.SilentExactlyWhenUpToDate` | internal/scanner/state.go:67-86 | results are silent, and change nothing, if and only if the store has all of them already |
| `Batching.TargetKeyNamesEndpoint` | internal/scanner/state.go:64-65 | the store's keys are equal if and only if address, port and protocol are |
| `Batching.StatePayloadTellsFields` | internal/scanner/state.go:57 | summaries of separator-free fields are equal if and only if state, banner, subject, issuer and SANs are |
| `Batching.EmissionTellsChange` | internal/scanner/state.go:67-86 | an emission carries its result, and says `UNKNOWN` for a new key and `MUTATED` for another hash |
| `Batching.CutsByThousands` | internal/scanner/state.go:116-126 | without ticks, a batch ends after every thousandth result and after the last |
| `Batching.StateManager` | internal/scanner/state.go:18-143 | for every schedule of arrivals and ticks: all results counted; store and output equal one-at-a-time processing of all results, or of exactly the batches before the first failing flush |

## Left out

- Sockets, TLS, certificates, banners, UDP payloads and their validation, OS fingerprints: a probe is an arbitrary
  function from a job to an optional finding; TLS version, cipher and validity fields of a result are not modelled.
- Rate limiting: when a token comes is left to the schedule; only refusal (cancellation, or a rate below one) is modelled.
- JobPlan.ResolveTarget: no blocks with prefix length 0, on which the source's loop does not end, and no IPv6 blocks
  that meet the IPv4-mapped addresses, which the address library treats as IPv4 halfway through a block.
- Address syntax, zones and printing: function-valued fields of the libraries.
- Lower-casing of characters outside ASCII, invalid UTF-8 in stored strings, and the scanner's limit on line length.
- `created_at` parsing: reduced to the case `BadCreatedAt`. Timestamps and risk scores of events.
- Opening the database file, its lock and its pages: the runtime starts from an open database.
- `internal/scanner/state_records.go:212-283`: two readers that only repeat the loader for tests and tools.
- `ParsePortRange`, flag parsing, fetching target lists over HTTP, printed summaries: easy or effectful.
- PipelineMeaning.SchedulesDeliverTheSame: states equality of the results as sets and of the jobs as multisets, not of
  the order of delivery, which schedules do change.
- Repeated probes: the outcome of a probe is a function of the job, so a job that is planned twice answers alike.
- Batching.StateManager: nothing in the command reaches it; results are a list instead of a channel, and failures to
  marshal a single emission are not modelled.
- Deployment assets (Wazuh, OpenSearch, Docker, Kubernetes) and shell scripts.
