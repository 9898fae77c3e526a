# Safe Apply, recovery and evidence: a Dafny model

A verification project for the decision logic of the OVS web console: the Safe Apply reducer, the
stream recovery client, bounded OpenFlow collection, health and acceleration derivation, VLAN
parsing and object URLs. Everything is proved for all inputs, all reachable states or all runs.

`dafny verify dfyconfig.toml` checks the project.

| file | content |
|---|---|
| `Strings.dfy` | splitting, joining, trimming and decimal numbers as ECMAScript does them |
| `Vlan.dfy` | VLAN validation, comparison, normalized native fields |
| `NativeCapability.dfy` | shared vocabulary and the gates on the native isolation capability |
| `ChangeControl.dfy` | the Safe Apply reducer, branch by branch |
| `SafeApply.dfy` | the invariant and the exact account of what each step may change |
| `SafeApplyRuns.dfy` | history theorems over whole runs |
| `SafeApplyTime.dfy` | deadlines, evidence age, locks, the base of a candidate |
| `SafeApplyAudit.dfy` | what is recorded, under which name, and the one move that is not |
| `SafeApplyAcceptance.dfy` | when each action is accepted, and everything it changes then |
| `SafeApplyDecisions.dfy` | which decisions are accepted, and that every accepted kind of change goes through |
| `Recovery.dfy` | `StreamTracker` and `ResponseFence` as classes, and their protocol claims |
| `OpenFlowQuery.dfy` | the checks on a query and the length of what a snapshot says about itself |
| `OpenFlow.dfy` | the byte budget and its binary search, later exports, pages |
| `OpenFlowController.dfy` | the collection controller as a class over a timer queue |
| `Acceleration.dfy` | readiness verdicts and how aging and degraded telemetry change them |
| `Health.dfy`, `HealthLog.dfy` | health derivation, fail-safe rules, the event log |
| `HealthReport.dfy` | how each input is reported, and which inputs make the system healthy |
| `PercentEncoding.dfy`, `ObjectUrl.dfy` | UTF-8 percent-encoding and object references in the location hash |

How the reducer proofs are organised. `ChangeControl.Transition` is the reducer. `SafeApply.EventOf`
reads off the states before and after a step what happened to the protected resource, and
`SafeApply.StepIsGood` shows that every step keeps the invariant and changes only what its event
allows, in the protected resource (`ProtocolStep`) and in the native feature (`NativeStep`). A `Run`
is a list of states, actions and events; every run of the reducer is a run of that protocol, and the
history theorems are proved over such runs. `Transition` asks its caller for
`Anchored`, which is what the two non-null assertions on the transaction snapshot rely on
(`lib/change-control.ts`, lines 772 and 883); every reachable state meets it.

Two names differ from the source because other types also use them: the health status `Degraded` is
`Impaired` here, and the acceleration verdict `Available` is `Ready`.

Findings worth knowing when reading the theorems:

- A `byte-limit` flag does not mean that a row was dropped: setting the flag also shortens the coverage
  text. `OpenFlow.ByteLimitKeepsEveryRowExactlyWhen` gives the exact condition.
- On a clock behind the acceleration capture a health row can carry a verdict while it is labelled stale.
  `Health.AccelerationIsFailSafeExactlyWhen` says for which clocks and scenarios the rule holds for facts of
  any age up to the capture, and `Health.StampedCaptureIsFailSafeExactlyWhen` for facts that all carry one
  time: a capture stamped with its own time is safe on any clock, one stamped 61 s earlier is not while
  that stamp is still young and the clock is behind the capture.
- A capability row is labelled fresh on the clock of another controller, so the row that health derives
  from it can rest on evidence older than 60 s by the clock of the health view
  (`Health.NativeRowIsFailSafeExactlyWhen`, `Health.CapabilityRowCanOutliveItsEvidence`). The rule that
  only a row labelled fresh carries a verdict holds for it all the same.
- A fact from the future can gain certainty by waiting, exactly if it becomes current meanwhile
  (`Acceleration.WaitingIsSafeExactlyWhen`).
- The stale-base check and the second VLAN check of an apply never fire in a reachable state
  (`SafeApplyDecisions.GuardsThatNeverFire`).
- Selecting the scenario `outcome-unknown` moves a countdown to that status without an evidence entry
  (`SafeApplyDecisions.UnrecordedMoveIsReachable`). It is the only unrecorded change of the transaction,
  the candidate, the generation, the sequence, the live values or the native feature
  (`SafeApplyAudit.EveryOtherChangeIsAudited`).
- A later export uses at most three of the 1024 reserved bytes, and none in a four-digit year
  (`OpenFlow.EveryLaterExportFits`).

## Model

| member | source | states |
|---|---|---|
| Vlan.NativeVlanFields | lib/ovs-model.ts:49-68 | the nested loops collect, in ascending order and without repetition, the ids of the parts that are ranges inside 1..4094 |
| Vlan.ExpandTrunks | lib/change-control.ts:230-238 | the comparison helper joins the ascending ids of all parts, skipping only parts wider than 4094 |
| Vlan.ValidIdsAreInRange | lib/change-control.ts:201-227 | an accepted value has an integer tag in 1..4094 unless it is a trunk, its ids lie in 1..4094, and it has none exactly in access mode |
| Vlan.SameVlanAgreesWithNativeFields | lib/change-control.ts:229-240 | on accepted values the change test and the native preview agree in both directions, although one compares joined text and the other bounds its ranges |
| Vlan.EditorRoundTrip | components/ovs/core-lab-surface.tsx:129 | every non-empty ascending id list shown joined by comma and space is accepted again and expands to the same list |
| Vlan.RangeListRoundTrip | lib/change-control.ts:213-226 | every list of ids and ascending ranges in 1..4094, with any white space around the dashes, is accepted and stands for exactly the ids its ranges contain |
| Vlan.AcceptanceByMode | lib/change-control.ts:201-213 | access and native-tagged values need an integer tag in 1..4094 and trunk values none; access takes no trunks, the others the same trunk text; unknown modes take nothing |
| NativeCapability.GatesPassExactlyWhen | lib/native-capability.ts:38-127 | the four gates pass if and only if the proof is of the declared target, instance and generation, less than 60 s old and affirms each prerequisite, in a current and permitted service |
| NativeCapability.UndoIsAdmittedExactlyWhen | lib/native-capability.ts:129-170 | a manual rollback is admitted if and only if such a proof of the applied change is authorized and the scenario puts nothing in doubt |
| SafeApply.StepIsGood | lib/change-control.ts:415-912 | every action from an invariant state keeps the invariant (base generation current, candidate equal to the snapshot while locked, a countdown always with deadline and snapshot) and changes only what its event allows, the native feature and its proof included |
| SafeApply.StageVlanIsGood | lib/change-control.ts:561-619 | staging touches nothing live, needs an unlocked workspace with authority, desktop and an OVS-owned Port in management scope, drops any validation, refines only the same object and records exactly the requested port and value |
| SafeApply.StageTopologyIsGood | lib/change-control.ts:494-540 | the same for well-formed Bridge and Bond intents on objects that are not Observe-only |
| SafeApply.StageIsolationIsGood | lib/change-control.ts:429-479 | isolation is staged only unlocked, on an empty workspace, with every policy gate passed by a fresh proof that reports it disabled and with the impact accepted, although its lock list is written separately |
| SafeApply.RebaseIsGood | lib/change-control.ts:642-709 | a rebase is one of the choices the scenario offers, gives the candidate up exactly for the current value, and otherwise keeps the intent, advances base and revision together, needs a new validation, records the observed value for the Port, and leaves the native feature and its proof alone |
| SafeApply.StartIsGood | lib/change-control.ts:722-758 | an accepted start opens exactly one transaction on the current candidate with a 90 s deadline and a new job; only an isolation start enables the native feature and restamps its proof |
| SafeApply.ConfirmIsGood | lib/change-control.ts:759-814 | a confirmation commits only the snapshot, only before the deadline and only in the normal scenario; for isolation it keeps the feature enabled under a proof of the new generation |
| SafeApply.ReconcileIsGood | lib/change-control.ts:865-910 | reading back an uncertain result commits, releases or keeps the lock according to the result and never resubmits; for isolation a decided result sets the feature accordingly and drops the proof |
| SafeApply.RollBackIsGood | lib/change-control.ts:339-411 | a rollback either restores with a new generation, never without a connection, or stops in the conflict, and never touches live values; restoring an isolation change disables the feature and restamps its proof |
| SafeApplyRuns.Trace | lib/change-control.ts:415-912 | every action sequence from the initial state has its run, and that run follows the protocol |
| SafeApplyRuns.EveryRunFollowsTheProtocol | lib/change-control.ts:415-912 | the reducer refines the protocol: all its states are invariant and all its steps are allowed |
| SafeApplyRuns.LiveIsTheFoldOfTheLog | lib/change-control.ts:561-910 | after any run the live values are exactly the fold of commits and rebase observations |
| SafeApplyRuns.EnabledIsTheFoldOfTheLog | lib/change-control.ts:339-911 | after any run the native feature is as the last start or resolution of an isolation change left it |
| SafeApplyRuns.OpenIsolationIsEnabled | lib/change-control.ts:737-748 | in every reachable state with an open isolation transaction the native feature counts as enabled |
| SafeApplyRuns.ValidationBindsToTheCandidate | lib/change-control.ts:250-285 | an unlocked state with a validated revision owes it to an accepted validation since which candidate, scenario and isolation proof are unchanged |
| SafeApplyRuns.StartAppliesWhatWasValidated | lib/change-control.ts:722-758 | every accepted start of a run applies exactly the candidate that was validated |
| SafeApplyRuns.LockedSinceStart | lib/change-control.ts:182-190 | a locked state goes back to one start, since which candidate, snapshot, job, live values and generation are frozen |
| SafeApplyRuns.ContentWasStaged | lib/change-control.ts:429-619 | the content of a candidate was put there by an accepted staging action and survives rebases and rollbacks |
| SafeApplyRuns.CommitHasItsWholeHistory | lib/change-control.ts:759-910 | every commit carries a value that was staged, then validated, then started as that same value and frozen until the commit |
| SafeApplyRuns.OnlyManageableObjectsAreCommitted | lib/change-control.ts:487-590 | no commit of any run carries an Observe-only object, a Port of another owner, an invalid VLAN value or a malformed intent |
| SafeApplyRuns.CommitsHaveDistinctJobs | lib/change-control.ts:729-736 | two commits of a run never share a job, so nothing is committed twice |
| SafeApplyRuns.RunsConserveGenerationsAndJobs | lib/change-control.ts:339-411 | the generation is 1842 plus commits, safe rollbacks and rebases; the sequence counts starts; starts equal resolutions plus one if locked |
| SafeApplyTime.RemainingSecondsIsTheCeiling | lib/change-control.ts:192-199 | the countdown shows the whole seconds begun and is zero exactly from the deadline on |
| SafeApplyTime.LateConfirmIsTheTick | lib/change-control.ts:765-766 | a confirmation at or past the deadline commits nothing and equals the tick |
| SafeApplyTime.OnlyTheFirstDueTickCounts | lib/change-control.ts:836-852 | any run of ticks has the effect of its first tick at or after the deadline, and none without one |
| SafeApplyTime.RollbackConflictIsAbsorbing | lib/change-control.ts:359-378 | after a rollback conflict no action sequence changes transaction, candidate, generation, sequence, live values or enablement |
| SafeApplyTime.EveryOtherLockHasAWayOut | lib/change-control.ts:543-560 | every other lock is at most two accepted actions from an unlocked workspace |
| SafeApplyTime.IsolationIsDecidedOnFreshProof | lib/native-capability.ts:38-60 | whatever the action, an isolation change is confirmed or rolled back only on a complete proof less than 60 s old |
| SafeApplyTime.CountdownKeepsTheStart | lib/change-control.ts:742-752 | without an observation a countdown keeps the proof, deadline and generation of its start through all other actions |
| SafeApplyTime.IsolationEvidenceBound | lib/native-capability.ts:129-178 | in any run without a later observation, isolation decisions pass in the first 60 s, are refused in the last 30 s, and the expiry ends in the conflict |
| SafeApplyTime.BaseTracksLive | lib/change-control.ts:594-597 | in every reachable state the base of a VLAN candidate is the live value of its Port, or the Port's own |
| SafeApplyAudit.EveryOtherChangeIsAudited | lib/change-control.ts:310-337 | evidence is only appended, and a change of transaction, candidate, generation, sequence, live values or native feature goes unrecorded if and only if a countdown is made uncertain by selecting that scenario |
| SafeApplyAudit.EvidenceAccountsForTheState | lib/change-control.ts:310-337 | along any run equal evidence means the same protected state, except that the countdown has become uncertain exactly when that one unrecorded selection was made in between |
| SafeApplyAudit.EveryEntryIsTold | lib/change-control.ts:310-337 | every new entry carries the time of its action, the job of the transaction and the object the state is about |
| SafeApplyAudit.ResolutionsAreAttributed | lib/change-control.ts:316-334 | every start and resolution is recorded under its own job and its own object, also after the candidate is gone |
| SafeApplyAcceptance.VlanStagingExactlyWhen | lib/change-control.ts:561-619 | a VLAN change is staged if and only if all gates admit it and it really changes the one open intent; everything the new state contains is stated, a refusal changes its message only |
| SafeApplyAcceptance.TopologyStagingExactlyWhen | lib/change-control.ts:494-540 | the same for Bridge and Bond intents |
| SafeApplyAcceptance.IsolationStagingExactlyWhen | lib/change-control.ts:429-479 | the same for isolation, which always protects the one declared Port |
| SafeApplyAcceptance.DiscardingExactlyWhen | lib/change-control.ts:620-631 | a candidate is discarded if and only if no transaction owns it |
| SafeApplyAcceptance.SelectingExactlyWhen | lib/change-control.ts:543-560 | a known scenario is taken at any time, costs the validation, and touches a transaction only when it makes a countdown uncertain |
| SafeApplyAcceptance.NotesAndObservationsAreFree | lib/change-control.ts:420-428 | a note costs nothing, and an observation costs the validation of an isolation change only |
| SafeApplyAcceptance.ValidatingExactlyWhen | lib/change-control.ts:632-641 | a candidate is validated if and only if it is unlocked, the scenario normal and an isolation proof still admits staging |
| SafeApplyAcceptance.RebasingExactlyWhen | lib/change-control.ts:642-709 | a stale base takes the non-overlapping choice, a conflict the current value or, for a VLAN, the change itself; only the current value gives the candidate up, otherwise it continues on the value the Port now carries |
| SafeApplyAcceptance.InspectingDriftExactlyWhen | lib/change-control.ts:710-721 | drift is inspected if and only if there is drift and no open transaction, and costs the validation |
| SafeApplyAcceptance.StartingKeepsTheRest | lib/change-control.ts:722-758 | a refused start changes nothing, an accepted one keeps reason, validation, scenario and candidate |
| SafeApplyAcceptance.ConfirmingExactlyWhen | lib/change-control.ts:759-814 | before its deadline a countdown is confirmed if and only if the scenario is normal and an isolation proof admits it; otherwise nothing changes |
| SafeApplyAcceptance.RollingBackExactlyWhen | lib/change-control.ts:815-835 | a rollback is accepted if and only if the countdown is connected and an isolation proof admits it; an admitted isolation rollback always restores |
| SafeApplyAcceptance.ExpiryEndsTheCountdown | lib/change-control.ts:836-852 | an expiry without a connection is uncertain, otherwise restores exactly if nothing changed outside and isolation has its evidence, and else stops in the conflict; an early tick does nothing |
| SafeApplyAcceptance.ReconnectingExactlyWhen | lib/change-control.ts:853-864 | a reconnection is accepted if and only if the connection was lost, and at once ends a countdown that is due |
| SafeApplyAcceptance.ReconcilingExactlyWhen | lib/change-control.ts:865-910 | a result is read if and only if the transaction is uncertain and the client connected, and each result leads to its own status |
| SafeApplyDecisions.GuardsThatNeverFire | lib/change-control.ts:259-272 | the stale-base check and the repeated VLAN check never fire in an invariant state |
| SafeApplyDecisions.StartIsAcceptedExactlyWhen | lib/change-control.ts:275-285 | a start is accepted if and only if the workspace is unlocked, validated, reasoned and on desktop, and an isolation proof still admits staging |
| SafeApplyDecisions.OrdinaryCountdownDecisions | lib/change-control.ts:759-852 | without outside changes confirm, expiry and rollback of a VLAN or topology change end as promised on both sides of the deadline |
| SafeApplyDecisions.ExternalChangesAreNotOverwritten | lib/change-control.ts:359-378 | after an outside change neither rollback nor expiry nor a late confirm overwrites anything |
| SafeApplyDecisions.ConfirmableIsUndoable | lib/native-capability.ts:129-190 | what the confirm gate admits the rollback gate admits too, except exactly under drift, conflict or rollback conflict |
| SafeApplyDecisions.ConflictRevealsAnotherValue | lib/change-control.ts:242-248 | the value revealed by a conflict is valid and differs from every base |
| SafeApplyDecisions.AcceptedChangeGoesLive | lib/change-control.ts:561-814 | from any idle workspace a valid change that is staged, validated, reasoned, started and confirmed in time goes live and changes no other Port |
| SafeApplyDecisions.AcceptedTopologyIsCommitted | lib/change-control.ts:494-814 | the same for every well-formed Bridge or Bond intent on an editable object: it becomes the snapshot, is committed, and changes no Port |
| SafeApplyDecisions.AcceptedIsolationIsEnabled | lib/change-control.ts:429-814 | isolation staged on an admitting proof and confirmed within 60 s leaves the native feature enabled |
| SafeApplyDecisions.UnrecordedMoveIsReachable | lib/change-control.ts:543-560 | from any idle workspace a provisional change can be made uncertain without an evidence entry |
| Recovery.StreamTracker.Accept | clients/typescript/recovery.ts:16-27 | the method moves the tracked position and answers exactly as the position function the protocol lemmas are about |
| Recovery.NoEventIsSkipped | clients/typescript/recovery.ts:13-28 | under any loss, duplication, reordering and stream switching, every event up to the tracked number was taken in turn or covered by a resync at or after it |
| Recovery.NoChangeIsMissed | clients/typescript/recovery.ts:13-28 | a client that refetches one resource on a hint and all on a resync holds every change up to the tracked number, and has met every request of the service to refetch everything |
| Recovery.AStreamNeverMovesBack | clients/typescript/recovery.ts:16-22 | malformed envelopes move nothing and force a refetch, late ones move nothing and are ignored, and no stream moves back |
| Recovery.VerdictExactlyWhen | clients/typescript/recovery.ts:20-26 | a well-formed envelope costs everything exactly on a new stream, after a gap or at the service's request in turn, one resource exactly for a change in turn, and otherwise nothing |
| Recovery.SequenceRoundTrip | clients/typescript/recovery.ts:16-19 | the decimal text of every number in 1..2^64-1 is read back, and of no other number |
| Recovery.OrderlyDeliveryResyncsOnce | clients/typescript/recovery.ts:20-26 | in-order delivery costs one full refetch, and afterwards hints come exactly on resource changes |
| Recovery.ResponseFence.Begin | clients/typescript/recovery.ts:39-42 | a begin adds itself to the history of the fence and hands out the fence after that history as its ticket |
| Recovery.OnlyTheLatestTicketIsAccepted | clients/typescript/recovery.ts:36-47 | over any uses of the fence the ticket of a begin equals the fence, and so is accepted, exactly until the next begin or reset |
| OpenFlowQuery.MetadataIsShort | lib/openflow-model.ts:74-97 | the checks on a query, the clock range and the array length bound the text of an export apart from rows and flags by 3300 bytes |
| OpenFlow.BoundFlowSnapshot | lib/openflow-model.ts:300-328 | the loop returns the capped rows if they fit, and otherwise the longest prefix that fits 256 KiB less 1024 with the flag set |
| OpenFlow.ResultIsAPrefix | lib/openflow-model.ts:300-310 | the result is the input with a prefix of at most 500 rows, and a dropped row is always flagged |
| OpenFlow.LongestPrefixIsKept | lib/openflow-model.ts:300-328 | the first 500 rows are kept whenever they fit, otherwise as many as fit and not one fewer; each flag is set exactly for its own reason |
| OpenFlow.BoundedIsAFunction | lib/openflow-model.ts:312-326 | the specification of the bounded snapshot has exactly one solution |
| OpenFlow.ResultFitsWhenMetadataFits | lib/openflow-model.ts:311-326 | the result fits the budget if and only if the capped input or its flagged metadata without rows does |
| OpenFlow.SmallMetadataFits | lib/openflow-model.ts:300-328 | with that much metadata and at most two flags at capture every bounded snapshot fits its budget |
| OpenFlow.BoundingIsIdempotent | lib/openflow-model.ts:300-328 | bounding a bounded snapshot again at the same time changes nothing, even when nothing fits |
| OpenFlow.EveryLaterExportFits | lib/openflow-model.ts:220-253 | once it fits at capture, every export at any time with any provider flags stays within 256 KiB, using at most three reserved bytes and none in a four-digit year |
| OpenFlow.ByteLimitKeepsEveryRowExactlyWhen | lib/openflow-model.ts:236-242 | the byte branch keeps every capped row if and only if there are none, or nothing else was incomplete and the text exceeds the budget by at most the eight bytes that the flag saves |
| OpenFlow.PagesPartitionTheRows | lib/openflow-model.ts:330-345 | walking all pages shows every row exactly once and in order |
| OpenFlow.PagesAreClamped | lib/openflow-model.ts:330-345 | a requested page is shown if it exists, else the nearest one, with four rows unless it is the last |
| OpenFlowController.FlowController.Collect | components/ovs/openflow-controller.ts:89-146 | a collection is refused exactly when not admitted, and otherwise arms two timers under a new token |
| OpenFlowController.FlowController.Fire | components/ovs/openflow-controller.ts:107-140 | a fired timer does what the state function says that the outcome and run lemmas are about |
| OpenFlowController.FlowController.ScenarioRendered | components/ovs/openflow-controller.ts:69-87 | a blocking scenario cancels the collection, and a denial also clears the snapshot |
| OpenFlowController.CollectOutcome | components/ovs/openflow-controller.ts:89-146 | an admitted collection arms one ordinary and one timed completion of its query, case and start, and a refused one does nothing |
| OpenFlowController.CompletionOutcome | components/ovs/openflow-controller.ts:107-146 | a permitted completion fails exactly for a denied, unavailable or late collection, always when it is the timed one, and otherwise shows the longest fitting prefix of what matched, described as it was taken |
| OpenFlowController.StoppedOutcome | components/ovs/openflow-controller.ts:107-121 | a completion that is no longer permitted ends the collection and keeps what was shown, unless access is denied |
| OpenFlowController.RenderOutcome | components/ovs/openflow-controller.ts:69-87 | a scenario without service ends the collection and keeps what was shown, a denial clears it, and any other scenario does nothing |
| OpenFlowController.RefreshOutcome | components/ovs/openflow-controller.ts:169-174 | a refresh repeats the query that is shown, or collects the draft |
| OpenFlowController.Collection | lib/openflow-model.ts:255-298 | a collection yields either a failure or a bounded, timely snapshot of exactly its query that fits the budget at capture |
| OpenFlowController.EveryEventExtendsARun | components/ovs/openflow-controller.ts:52-146 | any event can follow any run, so no captured query ever makes the collection throw |
| OpenFlowController.BusyMeansTwoLiveTimers | components/ovs/openflow-controller.ts:58-146 | in every reachable state busy means two timers of the current generation, idle means none; a failure excludes a snapshot; a snapshot took under 5000 ms |
| OpenFlowController.CollectionsTakeEffectOnce | components/ovs/openflow-controller.ts:104-109 | effective timers of a run have strictly growing tokens, so each collection takes effect at most once |
| OpenFlowController.SnapshotAnswersTheAdmittedQuery | components/ovs/openflow-controller.ts:103-133 | in every reachable state the snapshot was left by one collection of the run, admitted earlier and completed while permitted, and answers the query that was admitted, whatever was typed meanwhile |
| OpenFlowController.DenialHidesTheSnapshot | components/ovs/openflow-controller.ts:69-87 | after a denial processed on render or by a firing timer nothing is shown until a later permitted collection completes |
| OpenFlowController.RetainedExportsFit | components/ovs/openflow-controller.ts:177-197 | a snapshot kept in any reachable state has at most 500 rows and its every export stays within the ceiling |
| Acceleration.VerdictsExactlyWhen | lib/acceleration-model.ts:105-178 | what each certain verdict requires, as an equivalence: a fresh refusal, full agreement, a refused prerequisite while off, or all prerequisites met while off |
| Acceleration.FactsCountExactlyWhen | lib/acceleration-model.ts:69-79 | a fact counts if and only if it belongs to this instance and generation and is less than 60 s old |
| Acceleration.AgingOnlyLosesCertainty | lib/acceleration-model.ts:105-178 | invalidating any part of the evidence leaves the verdict and its reason, or turns it to Unknown |
| Acceleration.WaitingOnlyLosesCertainty | lib/acceleration-model.ts:69-79 | the same for advancing the clock, when no fact from the future becomes current meanwhile |
| Acceleration.FutureFactsGainCertainty | lib/acceleration-model.ts:76-78 | every fact time that becomes current while waiting, in every generation, belongs to a record that turns from Unknown to certain |
| Acceleration.WaitingIsSafeExactlyWhen | lib/acceleration-model.ts:69-79 | for any set of fact times, waiting only loses certainty on all records with such facts if and only if none of these times becomes current meanwhile |
| Acceleration.DegradationKeepsTheVerdict | lib/acceleration-model.ts:181-206 | degraded telemetry never changes a verdict whose prerequisites are not telemetry counters |
| Acceleration.ProjectionExactlyMasks | lib/acceleration-model.ts:181-206 | a blocked service silences the provider; degradation marks it partial and empties exactly the four telemetry counters |
| Acceleration.CertaintyNeedsAFreshFact | lib/acceleration-model.ts:111-133 | any verdict but Unknown rests on a fresh fact of the asked generation and a current service |
| Health.DeriveHealth | lib/health-model.ts:384-720 | the in-place derivation equals the row functions the fail-safe lemmas are about |
| Health.AgeInPlace | lib/health-model.ts:499-516 | the walk withdraws exactly the outdated verdicts and leaves the other rows alone |
| Health.AddAcceleration | lib/health-model.ts:518-560 | the walk over the records replaces or appends one provider row for each |
| Health.IncidentsAreTheUnhealthy | lib/health-model.ts:703-709 | the incidents are exactly the components that are not healthy, most severe first |
| Health.RollupIsTheWorst | lib/health-model.ts:95-103 | the rollup is attained by a component and is at least as severe as all |
| Health.HealthIsFailSafe | lib/health-model.ts:384-720 | for captured inputs no component without fresh evidence carries a verdict, whatever the capability rows claim; the overall status is the worst and that of the first incident; Healthy needs healthy components labelled fresh throughout; every verdict but that of a dishonest capability row rests on current evidence |
| Health.OpenRecoveryDominates | lib/health-model.ts:626-667 | an unresolved transaction makes the overall status Recovery Required whatever the observations say |
| HealthReport.LocksAreReported | lib/health-model.ts:626-643 | every lock of the workspace is reported, a countdown as impaired and any other as requiring recovery; unlocked, exactly drift, a conflict and a blocked validation impair |
| HealthReport.DiagnosticIsReported | lib/health-model.ts:668-702 | a failed diagnostic impairs and an inconclusive one leaves unknown, unless it is only reviewed |
| HealthReport.FlowsAreReported | lib/health-model.ts:561-595 | a collection is unknown when it cannot be read or is 30 s old, impaired when partial, and otherwise healthy |
| HealthReport.NativeIsReported | lib/health-model.ts:596-624 | the capability is healthy exactly while its row is fresh and its provider complete |
| HealthReport.CapturedRowsAreShown | lib/health-model.ts:400-516 | a captured row keeps its status, or is impaired where the scenario marks it, while it is read, of this generation and under 60 s old; otherwise that status becomes historical under the right label and reason |
| HealthReport.RecordRowIsHealthyExactlyWhen | lib/health-model.ts:518-560 | when the row of a record is healthy, unknown or impaired, and how it is labelled |
| HealthReport.HealthyNeeds | lib/health-model.ts:384-720 | healthy overall implies that nothing is open and that every shown record, captured row, collection, capability and diagnostic is healthy on evidence that stands |
| HealthReport.HealthySuffices | lib/health-model.ts:384-720 | and conversely |
| HealthReport.HeadOfTheView | lib/health-model.ts:390-398 | the head counts the unknown components and repeats the first incident; a denial hides everything |
| Health.AccelerationIsFailSafeExactlyWhen | lib/health-model.ts:518-560 | all records with facts up to the capture give fail-safe rows if and only if the collector failed, reads are blocked, the inventory is stale, the generation differs or the clock is not behind the capture |
| Health.StampedCaptureIsFailSafeExactlyWhen | lib/acceleration-model.ts:233-236 | with all facts stamped with one time the same holds, or that time is not young on this clock; so a capture stamped with its own time is safe on a lagging clock |
| Health.NativeRowIsFailSafeExactlyWhen | lib/health-model.ts:596-624 | the capability row is Unknown unless labelled fresh, and rests on current evidence exactly when that label also holds on this clock |
| Health.CapabilityRowCanOutliveItsEvidence | lib/health-model.ts:596-624 | evidence that expired on this clock still shows Healthy and Fresh if its row was labelled fresh on another |
| HealthLog.StepIsLogged | lib/health-model.ts:746-769 | one comparison emits an event for a known row exactly when its status changed, with the new status |
| HealthLog.EventsAreTheChanges | lib/health-model.ts:746-769 | the log of one comparison has an event for each known object whose status changed, with both statuses, and no other |
| HealthLog.OnlyStampsAreKept | lib/health-model.ts:722-744 | the kept list is the derived list with only the stamps of known objects replaced |
| HealthLog.StampAgreesWithLog | lib/health-model.ts:722-744 | the kept row is the derived one, and its stamp and status are what the emitted event tells |
| HealthLog.LogReplaysToTheStatus | lib/health-model.ts:722-769 | over any run replaying the log gives the status derived last, and the stamp is the time of the last event or the first stamp |
| PercentEncoding.DecodeUndoesEncode | lib/inventory-model.ts:409-415 | percent-decoding undoes percent-encoding of UTF-8 on every well-formed text |
| PercentEncoding.EscapesAreProperUtf8 | lib/inventory-model.ts:416-445 | only the proper UTF-8 of a character is decoded: no overlong form, no surrogate, nothing out of range |
| ObjectUrl.HashRoundTrip | lib/inventory-model.ts:409-445 | every reference with non-empty parts and a safe generation of at least 1 is read back with its facet |
| ObjectUrl.ReadingIsStable | lib/inventory-model.ts:416-445 | whatever is read has non-empty parts and a safe generation, and is read again from the hash written for it |
| ObjectUrl.HashResolvesToTheObject | lib/inventory-model.ts:313-406 | with distinct uuids a current object sent through its hash resolves to itself |
| ObjectUrl.ResolutionIsStrict | lib/inventory-model.ts:361-406 | a reference resolves if and only if instance, generation, kind and uuid all match, and is refused for its instance first and its generation next |

## Left out

- Human-readable messages, labels and review texts: notices and reasons are tags, so their wording is not modelled; which of several reasons a refusal names, and the kind of an evidence entry, are modelled without a theorem about them.
- Text to number conversion beyond decimal digits (signs, fractions, hexadecimal, exponents) in `Number`: such parts read as not-a-number, which only concerns values that validation rejects.
- Floating-point corner cases: times and counts are integers, tags are reals; NaN, infinities and numbers above 2^53 are not modelled, apart from the safe-integer test of a generation.
- UTF-16 code units: text is a sequence of Unicode characters, so lone surrogates and lengths in code units are not modelled.
- `structuredClone` and object identity: states are values, so aliasing between a state and its action is not modelled.
- Rows and facts of the synthetic fixtures (`fixtures`, `captureHealth`, `captureAcceleration`): they are arbitrary inputs of the collection and derivation; what captured evidence must satisfy is stated in `CapturedInputs`.
- JSON text of an OpenFlow export: only its length is modelled, part by part; the text of a row is a number of bytes.
- `captureHealth` stamps, the value, code, source, impact and action of a health row, and the wording of its events.
- The order of ids by `localeCompare`: a code point order stands in for it, and the theorems use only the order by severity.
- Percent and plus decoding inside the query part of an object hash: the parameters written by `objectHash` contain neither.
- String targets of the form Kind/name in `resolveInventoryObject`: only object references are resolved.
- Unmounting a controller, React rendering and the one-second clock: the controller is modelled while mounted.
- `receiptURL`, `receiptMatches`, `knownAction`, `flowFreshness` labels, `filterAcceleration` and the acceleration admission: single expressions without a property that spans operations.
- The servers, the pages, routing, generated types and the remaining models and controllers of the repository.
- Vlan.SameVlanAgreesWithNativeFields: speaks of accepted values only, because on rejected text the two helpers bound their ranges differently.
- Health.HealthIsFailSafe: assumes health rows with a real time that were fresh at capture, and an acceleration capture that its clock condition admits; both clock conditions are exact.
- Object keys inherited from the language, such as `toString`: the source accepts such a text as a scenario and finds an inherited value under such a Port name; the model knows only the declared scenarios and the recorded Ports.
