/** The Safe Apply reducer: one candidate, its validation and one provisional transaction. */
module ChangeControl {
  import opened Strings
  import opened Vocabulary
  import opened Vlan
  import NC = NativeCapability

  // ---- entities ----

  datatype PortScope = Manage | BasicManage | Observe
  datatype PortAuthority = Ovs | External | UnknownOwner
  datatype Port = Port(name: string, config: VlanValue, bridge: string, scope: PortScope, authority: PortAuthority)

  datatype IntentKind = VlanIntent | BridgeIntent | BondIntent | IsolationIntent
  datatype Intent = Intent(kind: IntentKind, objectType: string, objectName: string, bridgeName: Option<string>,
                           current: string, candidate: string, highRisk: bool, evidenceObject: string)

  datatype Candidate =
    | VlanCandidate(port: Port, base: VlanValue, mine: VlanValue, baseGeneration: nat, revision: nat)
    | TopologyCandidate(kind: IntentKind, intent: Intent, baseGeneration: nat, revision: nat)
  {
    function Kind(): IntentKind { if VlanCandidate? then VlanIntent else kind }

    function Name(): string { if VlanCandidate? then port.name else intent.objectName }

    function Object(): string { if VlanCandidate? then "Port/" + port.name else intent.evidenceObject }

    predicate Isolation() { Kind().IsolationIntent? }
  }

  datatype EvidenceKind = Audit | Event | Job | Health
  datatype Correlation = WorkspaceCorrelation | JobCorrelation(job: nat) | ForeignCorrelation(text: string)
  datatype EvidenceEntry = EvidenceEntry(at: int, kind: EvidenceKind, text: Notice, subject: string,
                                         correlation: Correlation)

  /**
   * Job n stands for the printed id with number 2046 + n and the correlation with number n; no job for the empty id.
   */
  datatype Transaction = Transaction(status: ApplyState, deadline: Option<int>, snapshot: Option<Candidate>,
                                     job: Option<nat>)

  datatype State = State(
    nativeCapability: Option<NC.Proof>, nativeEnabled: Option<bool>, candidate: Option<Candidate>, generation: nat,
    validatedRevision: Option<nat>, scenario: Scenario, transaction: Transaction, sequence: nat, note: string,
    live: map<string, VlanValue>, evidence: seq<EvidenceEntry>, message: Notice, error: Option<Notice>)

  datatype Reconciliation = ResultApplied | ResultNotApplied | ResultDegraded | ResultNeedsAttention

  datatype RebaseChoice = KeepCurrent | KeepMine | NonOverlapping

  /** Every message the reducer can put in `message`, `error` or the text of an evidence entry. */
  datatype Notice =
    | PrototypeReady | ForeignText(text: string)
    | NativeNotice(block: NC.NativeBlock) | VlanNotice(invalid: VlanError)
    | DesktopRequired | TransactionOwnsWorkspace | AuthorityUnavailable | InvalidTopologyIntent | ObserveOnlyObject
    | ReviewExistingChange | ImpactNotAccepted | ObserveOnlyPort | OneIntentOnly | NoVlanChange
    | ResolveBeforeDiscard | ResolveBeforePreparing | WorkspaceEmpty | ResolveScenario(scenario: Scenario) | StaleBase
    | ValidateFirst | ReasonRequired | NoEditableCandidate | NoRebaseRequired | ResolveOverlap | ReviewGenerationChange
    | FreshSnapshotRequired | InspectTransactionFirst | StartFromDesktop | NothingToConfirm | ConfirmNeedsConnectivity
    | NothingToRollBack | RollbackDisconnected | AlreadyConnected | ReconnectFirst | NothingToReconcile | UnknownResult
    | UnknownScenario | ScenarioSelected(selected: Scenario)
    | StagedIsolation | StagedTopology(kind: IntentKind, name: string) | StagedVlan(port: string) | Discarded
    | ValidationPassed(revision: nat, generation: nat) | TopologyRebased | TopologyKeptCurrent | VlanRebased
    | VlanKeptCurrent | DriftInspected | Submitted(reason: string) | ConfirmedNotice | RollbackStopped
    | RolledBackNotice
    | ExpiredDisconnected | ConnectionRestored | Reconciled(result: Reconciliation)

  const NO_TRANSACTION := Transaction(Idle, None, None, None)
  const FIRST_GENERATION: nat := 1842
  const CONFIRM_WINDOW_MS := 90_000

  const INITIAL := State(None, None, None, FIRST_GENERATION, None, Normal, NO_TRANSACTION, 0, "", map[], [],
                         PrototypeReady, None)

  datatype Action =
    | ObserveNativeCapability(proof: Option<NC.Proof>)
    | StageIsolation(desktop: bool, impactAccepted: bool, now: int)
    | SelectScenario(requested: Option<Scenario>, now: int)  // None: not one of the known labels
    | StageTopology(intent: Intent, desktop: bool, now: int)
    | RecordEvidence(kind: EvidenceKind, text: string, subject: string, correlation: string, now: int)
    | StageVlan(port: Port, mine: VlanValue, desktop: bool, now: int)
    | Discard(now: int)
    | SetNote(note: string)
    | Validate(now: int)
    | Rebase(choice: RebaseChoice, now: int)
    | InspectDrift(now: int)
    | Start(desktop: bool, now: int)
    | Confirm(now: int)
    | Rollback(now: int)
    | Tick(now: int)
    | Reconnect(now: int)
    | Reconcile(result: Option<Reconciliation>, now: int)  // None: not one of the four results

  // ---- blocks and small helpers ----

  predicate Locked(status: ApplyState) {
    status in {ApplyState.Countdown, ApplyState.OutcomeUnknown, ApplyState.RollbackConflict, ApplyState.Degraded,
               ApplyState.NeedsAttention}
  }

  /** A transaction whose result has to be read again. */
  predicate Uncertain(status: ApplyState) {
    status in {ApplyState.OutcomeUnknown, ApplyState.Degraded, ApplyState.NeedsAttention}
  }

  /** The whole seconds begun before the deadline; 0 past it or without one. */
  function RemainingSeconds(transaction: Transaction, now: int): nat {
    if transaction.deadline.None? then 0
    else
      var left := transaction.deadline.value - now;
      var seconds := -((-left) / 1000);  // division by 1000 rounds down, so this rounds up
      if seconds > 0 then seconds else 0
  }

  function ConflictCurrent(base: VlanValue): VlanValue {
    VlanValue(Access, Some(if base.tag == Some(130.0) then 140.0 else 130.0), "")
  }

  function ValidationBlock(s: State, now: int): Option<Notice> {
    if Locked(s.transaction.status) then Some(ResolveBeforePreparing)
    else if s.candidate.None? then Some(WorkspaceEmpty)
    else if !s.scenario.Normal? then Some(ResolveScenario(s.scenario))
    else if s.candidate.value.baseGeneration != s.generation then Some(StaleBase)
    else if s.candidate.value.Isolation() then
      match NC.StageBlock(s.nativeCapability, s.scenario, s.generation, now, true, s.transaction.status)
      case Some(block) => Some(NativeNotice(block))
      case None => None
    else if s.candidate.value.VlanCandidate? && !Valid(s.candidate.value.mine) then
      Some(VlanNotice(ValidateVlan(s.candidate.value.mine).value))
    else None
  }

  function ApplyBlock(s: State, now: int): Option<Notice> {
    var blocked := ValidationBlock(s, now);
    if blocked.Some? then blocked
    else if s.candidate.None? || s.validatedRevision != Some(s.candidate.value.revision) then Some(ValidateFirst)
    else if Trim(s.note) == "" then Some(ReasonRequired)
    else None
  }

  function TopologyStageBlock(s: State, desktop: bool): Option<Notice> {
    if !desktop then Some(DesktopRequired)
    else if Locked(s.transaction.status) then Some(TransactionOwnsWorkspace)
    else if s.scenario in {Scenario.PermissionDenied, Scenario.ProviderUnavailable, Scenario.ProviderDegraded,
                           Scenario.Error, Scenario.NetworkLoss} then Some(AuthorityUnavailable)
    else None
  }

  function Reject(s: State, error: Notice): State {
    s.(error := Some(error), message := error)
  }

  function Attributed(s: State): Option<Candidate> {
    if s.transaction.snapshot.Some? && Locked(s.transaction.status) then s.transaction.snapshot
    else if s.candidate.Some? then s.candidate
    else s.transaction.snapshot
  }

  function Log(s: State, now: int, kind: EvidenceKind, text: Notice): State {
    var about := Attributed(s);
    var subject := if about.Some? then about.value.Object() else "Workspace/ws-183";
    var job := s.transaction.job;
    var correlation := if job.Some? then JobCorrelation(job.value) else WorkspaceCorrelation;
    s.(error := None, message := text, evidence := s.evidence + [EvidenceEntry(now, kind, text, subject, correlation)])
  }

  // ---- staging ----

  function StepStageIsolation(s: State, desktop: bool, impactAccepted: bool, now: int): State {
    var blocked := NC.StageBlock(s.nativeCapability, s.scenario, s.generation, now, desktop, s.transaction.status);
    if blocked.Some? then Reject(s, NativeNotice(blocked.value))
    else if !impactAccepted then Reject(s, ImpactNotAccepted)
    else if s.candidate.Some? then Reject(s, ReviewExistingChange)
    else
      var intent := Intent(IsolationIntent, "Port", NC.TARGET_PORT, Some(NC.TARGET_BRIDGE),
                           NC.TARGET + "\nprotected: false", NC.TARGET + "\nprotected: true",
                           s.nativeCapability.Some? && s.nativeCapability.value.highRisk, NC.TARGET);
      Log(s.(candidate := Some(TopologyCandidate(IsolationIntent, intent, s.generation, 1)), validatedRevision := None,
             transaction := NO_TRANSACTION),
          now, Audit, StagedIsolation)
  }

  /** 1 to 63 letters, digits, underscores, dots and hyphens. */
  predicate ObjectName(name: string) {
    && 1 <= |name| <= 63
    && forall i :: 0 <= i < |name| ==>
        'A' <= name[i] <= 'Z' || 'a' <= name[i] <= 'z' || '0' <= name[i] <= '9' || name[i] in {'_', '.', '-'}
  }

  predicate WellFormedTopology(i: Intent) {
    && i.kind in {BridgeIntent, BondIntent}
    && i.objectType == (if i.kind.BridgeIntent? then "Bridge" else "Port")
    && ObjectName(i.objectName)
    && i.evidenceObject == i.objectType + "/" + i.objectName
    && Trim(i.current) != "" && Trim(i.candidate) != "" && i.current != i.candidate
  }

  predicate ObserveOnlyTopology(i: Intent) {
    i.objectName == "bond-provider" || i.objectName == "br-offload" || i.bridgeName == Some("br-offload")
  }

  function NextBaseGeneration(s: State): nat {
    if s.candidate.Some? then s.candidate.value.baseGeneration else s.generation
  }

  function NextRevision(s: State): nat {
    (if s.candidate.Some? then s.candidate.value.revision else 0) + 1
  }

  function StageTopologyBlock(s: State, intent: Intent, desktop: bool): Option<Notice> {
    var blocked := TopologyStageBlock(s, desktop);
    if blocked.Some? then blocked
    else if !WellFormedTopology(intent) then Some(InvalidTopologyIntent)
    else if ObserveOnlyTopology(intent) then Some(ObserveOnlyObject)
    else if s.candidate.Some? && (s.candidate.value.Kind() != intent.kind
                                  || s.candidate.value.Name() != intent.objectName)
      then Some(ReviewExistingChange)
    else None
  }

  function StepStageTopology(s: State, intent: Intent, desktop: bool, now: int): State {
    var blocked := StageTopologyBlock(s, intent, desktop);
    if blocked.Some? then Reject(s, blocked.value)
    else
      Log(s.(candidate := Some(TopologyCandidate(intent.kind, intent, NextBaseGeneration(s), NextRevision(s))),
             validatedRevision := None, transaction := NO_TRANSACTION),
          now, Audit, StagedTopology(intent.kind, intent.objectName))
  }

  /** The value a VLAN change is compared with: the candidate's own base, else the live value, else the Port's. */
  function StagingBase(s: State, port: Port): VlanValue {
    if s.candidate.Some? && s.candidate.value.VlanCandidate? then s.candidate.value.base
    else if port.name in s.live then s.live[port.name]
    else port.config
  }

  function StageVlanBlock(s: State, port: Port, mine: VlanValue, desktop: bool): Option<Notice> {
    if !desktop then Some(DesktopRequired)
    else if Locked(s.transaction.status) then Some(TransactionOwnsWorkspace)
    else if s.scenario in {Scenario.PermissionDenied, Scenario.ProviderUnavailable, Scenario.Error,
                           Scenario.NetworkLoss}
      then Some(AuthorityUnavailable)
    else if port.scope.Observe? || !port.authority.Ovs? then Some(ObserveOnlyPort)
    else if !Valid(mine) then Some(VlanNotice(ValidateVlan(mine).value))
    else if s.candidate.Some? && (!s.candidate.value.VlanCandidate? || s.candidate.value.port.name != port.name)
      then Some(OneIntentOnly)
    else if SameVlan(StagingBase(s, port), mine) then Some(NoVlanChange)
    else None
  }

  function StepStageVlan(s: State, port: Port, mine: VlanValue, desktop: bool, now: int): State {
    var blocked := StageVlanBlock(s, port, mine, desktop);
    if blocked.Some? then Reject(s, blocked.value)
    else
      Log(s.(candidate := Some(VlanCandidate(port, StagingBase(s, port), mine, NextBaseGeneration(s), NextRevision(s))),
             validatedRevision := None, transaction := NO_TRANSACTION),
          now, Audit, StagedVlan(port.name))
  }

  function StepDiscard(s: State, now: int): State {
    if Locked(s.transaction.status) then Reject(s, ResolveBeforeDiscard)
    else Log(s.(candidate := None, validatedRevision := None), now, Audit, Discarded)
  }

  // ---- review and validation ----

  function StepObserve(s: State, proof: Option<NC.Proof>): State {
    s.(nativeCapability := proof,
       validatedRevision := if s.candidate.Some? && s.candidate.value.Isolation() then None else s.validatedRevision)
  }

  function StepScenario(s: State, requested: Option<Scenario>): State {
    if requested.None? then Reject(s, UnknownScenario)
    else
      var transaction :=
        if requested.value.OutcomeUnknown? && s.transaction.status.Countdown?
        then s.transaction.(status := ApplyState.OutcomeUnknown) else s.transaction;
      s.(scenario := requested.value, validatedRevision := None, transaction := transaction,
         message := ScenarioSelected(requested.value), error := None)
  }

  function StepRecord(s: State, a: Action): State
    requires a.RecordEvidence?
  {
    var entry := EvidenceEntry(a.now, a.kind, ForeignText(a.text), a.subject, ForeignCorrelation(a.correlation));
    s.(evidence := s.evidence + [entry])
  }

  function StepValidate(s: State, now: int): State {
    var blocked := ValidationBlock(s, now);
    if blocked.Some? then Reject(s, blocked.value)
    else
      var revision := s.candidate.value.revision;
      Log(s.(validatedRevision := Some(revision)), now, Job, ValidationPassed(revision, s.generation))
  }

  function StepRebase(s: State, choice: RebaseChoice, now: int): State {
    if s.candidate.None? || Locked(s.transaction.status) then Reject(s, NoEditableCandidate)
    else if !s.scenario.Stale? && !s.scenario.Conflict? then Reject(s, NoRebaseRequired)
    else if s.scenario.Conflict? && choice.NonOverlapping? then Reject(s, ResolveOverlap)
    else if s.scenario.Stale? && !choice.NonOverlapping? then Reject(s, ReviewGenerationChange)
    else
      var c := s.candidate.value;
      var generation := s.generation + 1;
      if !c.VlanCandidate? then
        if s.scenario.Conflict? && !choice.KeepCurrent? then Reject(s, FreshSnapshotRequired)
        else
          var candidate :=
            if choice.KeepCurrent? then None else Some(TopologyCandidate(c.kind, c.intent, generation, c.revision + 1));
          Log(s.(candidate := candidate, generation := generation, scenario := Normal, validatedRevision := None),
              now, Audit, if candidate.Some? then TopologyRebased else TopologyKeptCurrent)
      else
        var base := if s.scenario.Conflict? then ConflictCurrent(c.base) else c.base;
        var candidate :=
          if choice.KeepCurrent? then None
          else Some(c.(base := base, baseGeneration := generation, revision := c.revision + 1));
        Log(s.(candidate := candidate, generation := generation, scenario := Normal, validatedRevision := None,
               live := s.live[c.port.name := base]),
            now, Audit, if choice.KeepCurrent? then VlanKeptCurrent else VlanRebased)
  }

  function StepInspectDrift(s: State, now: int): State {
    if !s.scenario.Drift? || Locked(s.transaction.status) then Reject(s, InspectTransactionFirst)
    else Log(s.(scenario := Normal, validatedRevision := None), now, Job, DriftInspected)
  }

  // ---- the provisional transaction ----

  /** The provisional apply of the candidate, once nothing blocks it. */
  function Submit(s: State, now: int): State {
    var job := s.sequence + 1;
    var started := s.(sequence := job,
                      transaction := Transaction(Countdown, Some(now + CONFIRM_WINDOW_MS), s.candidate, Some(job)));
    var applied :=
      if s.candidate.Some? && s.candidate.value.Isolation() && s.nativeCapability.Some? then
        started.(nativeEnabled := Some(true),
                 nativeCapability := Some(s.nativeCapability.value.(enabled := Some(true),
                                                                    source := NC.ProvisionalApply(Some(job)),
                                                                    observedAt := now)))
      else started;
    Log(applied, now, Audit, Submitted(Trim(s.note)))
  }

  function StepStart(s: State, desktop: bool, now: int): State {
    var blocked := ApplyBlock(s, now);
    if !desktop then Reject(s, StartFromDesktop)
    else if blocked.Some? then Reject(s, blocked.value)
    else Submit(s, now)
  }

  /** Evidence without which an isolation change must not be undone by the reducer. */
  predicate NativeAuthorityLost(s: State, now: int) {
    && s.transaction.snapshot.Some? && s.transaction.snapshot.value.Isolation()
    && (|| s.nativeCapability.None?
        || !NC.Fresh(s.nativeCapability, s.generation, now)
        || s.nativeCapability.value.enabled != Some(true)
        || !s.nativeCapability.value.normalSwitching
        || !s.nativeCapability.value.rollback
        || !s.nativeCapability.value.checkpoint
        || !s.nativeCapability.value.authority.LocalOvs?
        || !s.nativeCapability.value.provider.Available?
        || s.scenario in {Scenario.ProviderDegraded, Scenario.Degraded, Scenario.ProviderUnavailable, Scenario.Error,
                          Scenario.Loading, Scenario.Empty})
  }

  predicate RollbackUnsafe(s: State, now: int) {
    || NativeAuthorityLost(s, now)
    || s.scenario in {Scenario.RollbackConflict, Scenario.Conflict, Scenario.Stale, Scenario.Drift}
  }

  function StopRollback(s: State, now: int): State {
    Log(s.(validatedRevision := None,
           transaction := s.transaction.(status := ApplyState.RollbackConflict, deadline := None)),
        now, Job, RollbackStopped)
  }

  function Restore(s: State, now: int): State {
    var generation := s.generation + 1;
    var restored := s.(
      generation := generation,
      validatedRevision := None,
      candidate := if s.candidate.Some? then Some(s.candidate.value.(baseGeneration := generation)) else None,
      transaction := s.transaction.(status := RolledBack, deadline := None));
    var native :=
      if s.transaction.snapshot.Some? && s.transaction.snapshot.value.Isolation() && s.nativeCapability.Some? then
        var p := s.nativeCapability.value;
        restored.(nativeEnabled := Some(false),
                  nativeCapability := Some(p.(enabled := Some(false), observedAt := now, generation := generation,
                                              source := NC.CompareBeforeRollback(s.transaction.job))))
      else restored;
    Log(native, now, Job, RolledBackNotice)
  }

  function RollBack(s: State, now: int): State {
    if RollbackUnsafe(s, now) then StopRollback(s, now) else Restore(s, now)
  }

  function StepTick(s: State, now: int): State {
    if !s.transaction.status.Countdown? || RemainingSeconds(s.transaction, now) > 0 then s
    else if s.scenario.NetworkLoss? then
      Log(s.(transaction := s.transaction.(status := ApplyState.OutcomeUnknown)), now, Event, ExpiredDisconnected)
    else RollBack(s, now)
  }

  function CommitLive(c: Candidate, live: map<string, VlanValue>): map<string, VlanValue> {
    if c.VlanCandidate? then live[c.port.name := c.mine] else live
  }

  /** The commit of `snapshot`, once nothing blocks the confirmation. */
  function Commit(s: State, c: Candidate, now: int): State {
    var committed := s.(candidate := None, generation := s.generation + 1, validatedRevision := None,
                        live := CommitLive(c, s.live),
                        transaction := s.transaction.(status := Confirmed, deadline := None));
    var native :=
      if c.Isolation() && s.nativeCapability.Some? then
        committed.(nativeEnabled := Some(true),
                   nativeCapability := Some(s.nativeCapability.value.(enabled := Some(true), observedAt := now,
                                                                      generation := s.generation + 1,
                                                                      source := NC.ConfirmedBy(s.transaction.job))))
      else committed;
    Log(native, now, Audit, ConfirmedNotice)
  }

  function StepConfirm(s: State, now: int): State
    requires Anchored(s)
  {
    if !s.transaction.status.Countdown? then Reject(s, NothingToConfirm)
    else if RemainingSeconds(s.transaction, now) == 0 then StepTick(s, now)
    else if !s.scenario.Normal? then Reject(s, ConfirmNeedsConnectivity)
    else
      var c := s.transaction.snapshot.value;
      var blocked := if c.Isolation() then NC.ConfirmBlock(s.nativeCapability, s.scenario, s.generation, now) else None;
      if blocked.Some? then Reject(s, NativeNotice(blocked.value)) else Commit(s, c, now)
  }

  function StepRollback(s: State, now: int): State {
    if !s.transaction.status.Countdown? then Reject(s, NothingToRollBack)
    else if s.scenario.NetworkLoss? then Reject(s, RollbackDisconnected)
    else
      var blocked :=
        if s.transaction.snapshot.Some? && s.transaction.snapshot.value.Isolation()
        then NC.RollbackBlock(s.nativeCapability, s.scenario, s.generation, now) else None;
      if blocked.Some? then Reject(s, NativeNotice(blocked.value)) else RollBack(s, now)
  }

  function StepReconnect(s: State, now: int): State {
    if !s.scenario.NetworkLoss? then Reject(s, AlreadyConnected)
    else StepTick(Log(s.(scenario := Normal), now, Event, ConnectionRestored), now)
  }

  function ResultStatus(result: Reconciliation): ApplyState {
    match result
    case ResultApplied => Applied
    case ResultNotApplied => NotApplied
    case ResultDegraded => ApplyState.Degraded
    case ResultNeedsAttention => NeedsAttention
  }

  function StepReconcile(s: State, result: Option<Reconciliation>, now: int): State
    requires Anchored(s)
  {
    if s.scenario.NetworkLoss? then Reject(s, ReconnectFirst)
    else if !Uncertain(s.transaction.status) then Reject(s, NothingToReconcile)
    else if result.None? then Reject(s, UnknownResult)
    else ReadBack(s, s.transaction.snapshot.value, result.value, now)
  }

  /** What an uncertain transaction on `c` turned out to be. */
  function ReadBack(s: State, c: Candidate, result: Reconciliation, now: int): State {
    var applied := result.ResultApplied?;
    var read := s.(scenario := Normal, validatedRevision := None,
                   candidate := if applied then None else s.candidate,
                   generation := if applied then s.generation + 1 else s.generation,
                   live := if applied then CommitLive(c, s.live) else s.live,
                   transaction := s.transaction.(status := ResultStatus(result), deadline := None));
    var native :=
      if c.Isolation() && (applied || result.ResultNotApplied?)
      then read.(nativeEnabled := Some(applied), nativeCapability := None) else read;
    Log(native, now, Job, Reconciled(result))
  }

  // ---- the reducer ----

  /** What the two non-null assertions on `transaction.snapshot` rely on. */
  predicate Anchored(s: State) {
    s.transaction.status.Countdown? || Uncertain(s.transaction.status) ==> s.transaction.snapshot.Some?
  }

  function Transition(s: State, a: Action): (next: State)
    requires Anchored(s)
  {
    match a
    case ObserveNativeCapability(proof) => StepObserve(s, proof)
    case StageIsolation(desktop, impactAccepted, now) => StepStageIsolation(s, desktop, impactAccepted, now)
    case SelectScenario(requested, _) => StepScenario(s, requested)
    case StageTopology(intent, desktop, now) => StepStageTopology(s, intent, desktop, now)
    case RecordEvidence(_, _, _, _, _) => StepRecord(s, a)
    case StageVlan(port, mine, desktop, now) => StepStageVlan(s, port, mine, desktop, now)
    case Discard(now) => StepDiscard(s, now)
    case SetNote(note) => s.(note := note, error := None)
    case Validate(now) => StepValidate(s, now)
    case Rebase(choice, now) => StepRebase(s, choice, now)
    case InspectDrift(now) => StepInspectDrift(s, now)
    case Start(desktop, now) => StepStart(s, desktop, now)
    case Confirm(now) => StepConfirm(s, now)
    case Rollback(now) => StepRollback(s, now)
    case Tick(now) => StepTick(s, now)
    case Reconnect(now) => StepReconnect(s, now)
    case Reconcile(result, now) => StepReconcile(s, result, now)
  }
}
